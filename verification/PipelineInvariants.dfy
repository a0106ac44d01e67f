/** What every sequence of pipeline and dismissal requests keeps. */
module PipelineInvariants {
  import opened Common
  import opened Pipeline

  // ---- a live deal and a dismissal never coexist -----------------------------------------------

  /** Every card sits at a stage of its own account. */
  ghost predicate CardsPlaced(b: Board) {
    forall k :: k in b.cards ==> StageOf(b, k.0, b.cards[k].stage)
  }

  ghost predicate NoLiveDismissal(b: Board) {
    forall k :: 0 <= k < |b.dismissals| && b.dismissals[k].lifted == None ==>
      !Live(b, b.dismissals[k].account, b.dismissals[k].property)
  }

  ghost predicate OneActiveEach(ds: seq<Dismissal>) {
    forall j, k :: 0 <= j < k < |ds| && ds[j].lifted == None && ds[k].lifted == None ==>
      ds[j].account != ds[k].account || ds[j].property != ds[k].property
  }

  ghost predicate DealInv(b: Board) {
    CardsPlaced(b) && NoLiveDismissal(b) && OneActiveEach(b.dismissals)
  }

  lemma UpdateKeepsDeals(b: Board, c: Caller, id: int, patch: StagePatch)
    requires DealInv(b) && c.account in c.sees && UpdateStage(b, c, id, patch).Ok?
    ensures DealInv(UpdateStage(b, c, id, patch).board)
  {}

  lemma AddKeepsDeals(b: Board, c: Caller, resolved: Option<int>)
    requires DealInv(b) && c.account in c.sees && AddCard(b, c, resolved).Ok?
    ensures DealInv(AddCard(b, c, resolved).board)
  {}

  lemma MoveKeepsDeals(b: Board, c: Caller, p: int, stage: Option<int>, place: Option<real>)
    requires DealInv(b) && c.account in c.sees && MoveCard(b, c, p, stage, place).Ok?
    ensures DealInv(MoveCard(b, c, p, stage, place).board)
  {}

  lemma DismissKeepsDeals(b: Board, c: Caller, resolved: Option<int>)
    requires DealInv(b) && c.account in c.sees && Dismiss(b, c, resolved).Ok?
    ensures DealInv(Dismiss(b, c, resolved).board)
  {}

  /** Fewer live cards and fewer active dismissals keep the two apart. */
  lemma FewerKeepDeals(b: Board, v: Board)
    requires DealInv(b) && CardsPlaced(v) && |v.dismissals| == |b.dismissals|
    requires forall k :: 0 <= k < |b.dismissals| ==>
      v.dismissals[k] == b.dismissals[k] || (v.dismissals[k].lifted.Some?)
    requires forall a, p :: Live(v, a, p) ==> Live(b, a, p)
    ensures DealInv(v)
  {}

  lemma StageOpsKeepDeals(b: Board, call: Call)
    requires DealInv(b) && (call.op.OpCreate? || call.op.OpReorder? || call.op.OpArchive?)
    ensures DealInv(Do(b, call))
  {}

  lemma OpKeepsDeals(b: Board, call: Call)
    requires DealInv(b) && call.caller.account in call.caller.sees
    ensures DealInv(Do(b, call))
  {
    var c := call.caller;
    match call.op
    case OpUpdate(stage, patch) => if UpdateStage(b, c, stage, patch).Ok? { UpdateKeepsDeals(b, c, stage, patch); }
    case OpAdd(resolved) => if AddCard(b, c, resolved).Ok? { AddKeepsDeals(b, c, resolved); }
    case OpMove(p, stage, place) => if MoveCard(b, c, p, stage, place).Ok? { MoveKeepsDeals(b, c, p, stage, place); }
    case OpDismiss(resolved) => if Dismiss(b, c, resolved).Ok? { DismissKeepsDeals(b, c, resolved); }
    case OpUndismiss(resolved) => FewerKeepDeals(b, Undismiss(b, c, resolved));
    case OpRemove(p) => FewerKeepDeals(b, RemoveCard(b, c, p));
    case _ => StageOpsKeepDeals(b, call);
  }

  /** No account ever has both a card at a non-terminal stage and an active dismissal of one property. */
  lemma {:induction false} LiveDealsNeverDismissed(b: Board, calls: seq<Call>)
    requires DealInv(b) && CallersSeeThemselves(calls)
    ensures DealInv(Run(b, calls))
  {
    if calls != [] {
      LiveDealsNeverDismissed(b, calls[..|calls| - 1]);
      OpKeepsDeals(Run(b, calls[..|calls| - 1]), calls[|calls| - 1]);
    }
  }

  // ---- the ledger replays to the cards ---------------------------------------------------------

  /** Reading the card events from empty: the stage each card was last sent to. */
  function Replay(log: seq<CardEvent>): map<(int, int), int> {
    if log == [] then map[]
    else
      var last := log[|log| - 1];
      var before := Replay(log[..|log| - 1]);
      if last.to.Some? then before[(last.account, last.property) := last.to.value]
      else before - {(last.account, last.property)}
  }

  function StageNow(stages: map<(int, int), int>, account: int, property: int): Option<int> {
    if (account, property) in stages then Some(stages[(account, property)]) else None
  }

  /** The stage of each card. */
  function StagesOf(cards: map<(int, int), Card>): (r: map<(int, int), int>)
    ensures r.Keys == cards.Keys && forall k :: k in cards ==> r[k] == cards[k].stage
  {
    map k | k in cards :: cards[k].stage
  }

  ghost predicate LedgerReplays(b: Board) {
    Replay(b.log) == StagesOf(b.cards)
  }

  /** Each event leaves from where the card stood just before it, and changes something. */
  ghost predicate FromMatches(log: seq<CardEvent>) {
    forall i :: 0 <= i < |log| ==>
      && log[i].from == StageNow(Replay(log[..i]), log[i].account, log[i].property)
      && log[i].from != log[i].to
  }

  lemma ReplayAppend(log: seq<CardEvent>, e: CardEvent)
    ensures Replay(log + [e]) == if e.to.Some? then Replay(log)[(e.account, e.property) := e.to.value]
                                 else Replay(log) - {(e.account, e.property)}
    ensures FromMatches(log) && e.from == StageNow(Replay(log), e.account, e.property) && e.from != e.to ==>
              FromMatches(log + [e])
  {
    assert (log + [e])[..|log|] == log;
    if FromMatches(log) {
      assert forall i :: 0 <= i < |log| ==> (log + [e])[..i] == log[..i];
    }
  }

  ghost predicate Ledgered(cards: map<(int, int), Card>, log: seq<CardEvent>) {
    Replay(log) == StagesOf(cards) && FromMatches(log)
  }

  function StageAt(cards: map<(int, int), Card>, k: (int, int)): Option<int> {
    if k in cards then Some(cards[k].stage) else None
  }

  /** A card sent to another stage, with the event that says so. */
  lemma {:induction false} SendKeepsLedger(cards: map<(int, int), Card>, log: seq<CardEvent>, k: (int, int), card: Card)
    requires Ledgered(cards, log) && StageAt(cards, k) != Some(card.stage)
    ensures Ledgered(cards[k := card], log + [CardEvent(k.0, k.1, StageAt(cards, k), Some(card.stage))])
  {
    ReplayAppend(log, CardEvent(k.0, k.1, StageAt(cards, k), Some(card.stage)));
    assert StagesOf(cards[k := card]) == StagesOf(cards)[k := card.stage];
  }

  lemma {:induction false} TakeOffKeepsLedger(cards: map<(int, int), Card>, log: seq<CardEvent>, k: (int, int))
    requires Ledgered(cards, log) && k in cards
    ensures Ledgered(cards - {k}, log + [CardEvent(k.0, k.1, StageAt(cards, k), None)])
  {
    ReplayAppend(log, CardEvent(k.0, k.1, StageAt(cards, k), None));
    assert StagesOf(cards - {k}) == StagesOf(cards) - {k};
  }

  /** A card moved within its stage: nothing to say. */
  lemma {:induction false} ShiftKeepsLedger(cards: map<(int, int), Card>, log: seq<CardEvent>, k: (int, int),
                                            card: Card)
    requires Ledgered(cards, log) && StageAt(cards, k) == Some(card.stage)
    ensures Ledgered(cards[k := card], log)
  {
    assert StagesOf(cards[k := card]) == StagesOf(cards);
  }

  lemma {:induction false} AddKeepsLedger(b: Board, c: Caller, resolved: Option<int>)
    requires Ledgered(b.cards, b.log)
    ensures var v := OrKeep(b, AddCard(b, c, resolved)); Ledgered(v.cards, v.log)
  {
    if resolved.Some? && Entries(b, c.account) != {} {
      var k, card := (c.account, resolved.value), NewCard(b, c.account);
      if k !in b.cards {
        SendKeepsLedger(b.cards, b.log, k, card);
      }
    }
  }

  lemma {:induction false} RemoveKeepsLedger(b: Board, c: Caller, p: int)
    requires Ledgered(b.cards, b.log)
    ensures Ledgered(RemoveCard(b, c, p).cards, RemoveCard(b, c, p).log)
  {
    if (c.account, p) in b.cards {
      TakeOffKeepsLedger(b.cards, b.log, (c.account, p));
    }
  }

  lemma {:induction false} MoveKeepsLedger(b: Board, c: Caller, p: int, stage: Option<int>, place: Option<real>)
    requires Ledgered(b.cards, b.log)
    ensures var v := OrKeep(b, MoveCard(b, c, p, stage, place)); Ledgered(v.cards, v.log)
  {
    var k := (c.account, p);
    if k in b.cards {
      var card := b.cards[k];
      var moved := Card(if stage.Some? then stage.value else card.stage,
                        if place.Some? then place.value else card.place);
      if moved.stage == card.stage {
        ShiftKeepsLedger(b.cards, b.log, k, moved);
      } else {
        SendKeepsLedger(b.cards, b.log, k, moved);
      }
    }
  }

  lemma OtherOpsKeepCards(b: Board, call: Call)
    requires !call.op.OpAdd? && !call.op.OpRemove? && !call.op.OpMove?
    ensures Do(b, call).log == b.log && Do(b, call).cards == b.cards
  {}

  lemma {:induction false} OpKeepsLedger(b: Board, call: Call)
    requires Ledgered(b.cards, b.log)
    ensures Ledgered(Do(b, call).cards, Do(b, call).log)
  {
    var c, op := call.caller, call.op;
    if op.OpAdd? {
      AddKeepsLedger(b, c, op.resolved);
      assert Do(b, call) == OrKeep(b, AddCard(b, c, op.resolved));
    } else if op.OpRemove? {
      RemoveKeepsLedger(b, c, op.property);
      assert Do(b, call) == RemoveCard(b, c, op.property);
    } else if op.OpMove? {
      MoveKeepsLedger(b, c, op.property, op.stage', op.place');
      assert Do(b, call) == OrKeep(b, MoveCard(b, c, op.property, op.stage', op.place'));
    } else {
      OtherOpsKeepCards(b, call);
    }
  }

  /** After any requests the card events replay, from empty, to exactly the cards and their stages. */
  lemma {:induction false} LedgerAlwaysReplays(b: Board, calls: seq<Call>)
    requires LedgerReplays(b) && FromMatches(b.log)
    ensures LedgerReplays(Run(b, calls)) && FromMatches(Run(b, calls).log)
  {
    if calls != [] {
      LedgerAlwaysReplays(b, calls[..|calls| - 1]);
      OpKeepsLedger(Run(b, calls[..|calls| - 1]), calls[|calls| - 1]);
    }
  }

  // ---- stages ----------------------------------------------------------------------------------

  ghost predicate OnlyEntry(b: Board, account: int, id: int) {
    id in b.stages && !b.stages[id].terminal && Entries(b, account) == {id}
  }

  /** Exactly one entry stage, and it is not terminal. */
  ghost predicate OneEntry(b: Board, account: int) {
    exists id :: OnlyEntry(b, account, id)
  }

  /** Stages in use (not archived) never share a position. */
  ghost predicate PositionsDistinct(b: Board, account: int) {
    forall s, t :: s in LiveStages(b, account) && t in LiveStages(b, account) && s != t ==>
      b.stages[s].position != b.stages[t].position
  }

  lemma CreateKeepsStages(b: Board, account: int, id: int, key: string, terminal: bool, a: int)
    requires id !in b.stages && OneEntry(b, a) && PositionsDistinct(b, a)
    ensures OneEntry(CreateStage(b, account, id, key, terminal), a)
    ensures PositionsDistinct(CreateStage(b, account, id, key, terminal), a)
  {
    var v := CreateStage(b, account, id, key, terminal);
    var e :| OnlyEntry(b, a, e);
    assert Entries(v, a) == Entries(b, a);
    assert OnlyEntry(v, a, e);
    forall s | s in LiveStages(v, a) && s != id ensures a == account ==> v.stages[s].position < v.stages[id].position {
      assert a == account ==> b.stages[s].position in Positions(b, account);
    }
  }

  lemma {:induction false} UpdateKeepsEntry(b: Board, c: Caller, id: int, patch: StagePatch, a: int, e: int)
    requires UpdateStage(b, c, id, patch).Ok? && OnlyEntry(b, a, e)
    ensures OnlyEntry(UpdateStage(b, c, id, patch).board, a,
                      if a == c.account && patch.entry == Some(true) then id else e)
  {
    var v := UpdateStage(b, c, id, patch).board;
    assert v.stages == PatchedStages(b, c.account, id, patch);
    assert e in Entries(b, a);
    if a == c.account && patch.entry == Some(true) {
      assert Entries(v, a) == {id};
    } else {
      forall s ensures s in Entries(v, a) <==> s == e {
        assert s in Entries(b, a) <==> s == e;
      }
    }
  }

  lemma {:induction false} UpdateKeepsStages(b: Board, c: Caller, id: int, patch: StagePatch, a: int)
    requires UpdateStage(b, c, id, patch).Ok? && OneEntry(b, a) && PositionsDistinct(b, a)
    ensures OneEntry(UpdateStage(b, c, id, patch).board, a)
    ensures PositionsDistinct(UpdateStage(b, c, id, patch).board, a)
  {
    var v := UpdateStage(b, c, id, patch).board;
    var e :| OnlyEntry(b, a, e);
    UpdateKeepsEntry(b, c, id, patch, a, e);
    assert v.stages == PatchedStages(b, c.account, id, patch);
    assert LiveStages(v, a) == LiveStages(b, a);
  }

  lemma ArchiveKeepsStages(b: Board, account: int, id: int, a: int)
    requires Archive(b, account, id).0.Ok? && OneEntry(b, a) && PositionsDistinct(b, a)
    ensures OneEntry(Archive(b, account, id).0.board, a)
    ensures PositionsDistinct(Archive(b, account, id).0.board, a)
  {
    var v := Archive(b, account, id).0.board;
    var e :| OnlyEntry(b, a, e);
    assert Entries(v, a) == Entries(b, a);
    assert OnlyEntry(v, a, e);
    assert LiveStages(v, a) <= LiveStages(b, a);
  }

  lemma ReorderKeepsStages(b: Board, account: int, ids: seq<int>, a: int)
    requires Reorder(b, account, ids).Ok? && OneEntry(b, a) && PositionsDistinct(b, a)
    ensures OneEntry(Reorder(b, account, ids).board, a)
    ensures PositionsDistinct(Reorder(b, account, ids).board, a)
  {
    var v := Reorder(b, account, ids).board;
    var e :| OnlyEntry(b, a, e);
    assert Entries(v, a) == Entries(b, a);
    assert OnlyEntry(v, a, e);
    assert LiveStages(v, a) == LiveStages(b, a);
    forall s | s in LiveStages(b, a) ensures s in ids <==> a == account {
      assert s in ids <==> s in LiveStages(b, account);
    }
  }

  lemma OpKeepsStages(b: Board, call: Call, a: int)
    requires OneEntry(b, a) && PositionsDistinct(b, a)
    ensures OneEntry(Do(b, call), a) && PositionsDistinct(Do(b, call), a)
  {
    var c := call.caller;
    match call.op
    case OpCreate(id, key, terminal) => if id !in b.stages { CreateKeepsStages(b, c.account, id, key, terminal, a); }
    case OpUpdate(stage, patch) => if UpdateStage(b, c, stage, patch).Ok? { UpdateKeepsStages(b, c, stage, patch, a); }
    case OpReorder(ids) => if Reorder(b, c.account, ids).Ok? { ReorderKeepsStages(b, c.account, ids, a); }
    case OpArchive(stage) => if Archive(b, c.account, stage).0.Ok? { ArchiveKeepsStages(b, c.account, stage, a); }
    case _ =>
      CardOpsKeepStages(b, call);
      SameStages(b, Do(b, call), a);
  }

  lemma CardOpsKeepStages(b: Board, call: Call)
    requires !call.op.OpCreate? && !call.op.OpUpdate? && !call.op.OpReorder? && !call.op.OpArchive?
    ensures Do(b, call).stages == b.stages
  {}

  lemma SameStages(b: Board, v: Board, a: int)
    requires v.stages == b.stages && OneEntry(b, a) && PositionsDistinct(b, a)
    ensures OneEntry(v, a) && PositionsDistinct(v, a)
  {
    var e :| OnlyEntry(b, a, e);
    assert Entries(v, a) == Entries(b, a) && LiveStages(v, a) == LiveStages(b, a);
    assert OnlyEntry(v, a, e);
  }

  /** An account that starts with one non-terminal entry stage and distinct positions keeps both. */
  lemma {:induction false} StagesAlways(b: Board, calls: seq<Call>, a: int)
    requires OneEntry(b, a) && PositionsDistinct(b, a)
    ensures OneEntry(Run(b, calls), a) && PositionsDistinct(Run(b, calls), a)
  {
    if calls != [] {
      StagesAlways(b, calls[..|calls| - 1], a);
      OpKeepsStages(Run(b, calls[..|calls| - 1]), calls[|calls| - 1], a);
    }
  }

  // ---- the order a reorder leaves --------------------------------------------------------------

  /** list_stages for one account: its live stages, left to right. */
  ghost predicate IsListing(b: Board, account: int, ids: seq<int>) {
    Elements(ids) == LiveStages(b, account) && LeftToRight(b.stages, ids)
  }

  ghost function Elements(ids: seq<int>): set<int> {
    set s | s in ids
  }

  ghost predicate LeftToRight(stages: map<int, Stage>, ids: seq<int>) {
    && (forall i :: 0 <= i < |ids| ==> ids[i] in stages)
    && (forall i, j :: 0 <= i < j < |ids| ==> stages[ids[i]].position < stages[ids[j]].position)
  }

  lemma {:induction false} SizeOfDistinct(ids: seq<int>)
    ensures |Elements(ids)| <= |ids|
    ensures |Elements(ids)| == |ids| <==> NoRepeats(ids)
  {
    if ids != [] {
      var n := |ids| - 1;
      var rest := ids[..n];
      SizeOfDistinct(rest);
      var all, fewer := Elements(ids), Elements(rest);
      assert all == fewer + {ids[n]} by {
        forall s ensures s in ids <==> s in rest || s == ids[n] {
          assert ids == rest + [ids[n]];
        }
      }
      if ids[n] in rest {
        assert all == fewer;
        var k :| 0 <= k < n && rest[k] == ids[n];
        assert ids[k] == ids[n];
      } else {
        assert NoRepeats(ids) <==> NoRepeats(rest);
      }
    }
  }

  /** A reorder is accepted exactly when it names every live stage once, and then the stages list in that order. */
  lemma ReorderExact(b: Board, account: int, ids: seq<int>)
    ensures Reorder(b, account, ids).Ok? <==>
              NoRepeats(ids) && Elements(ids) == LiveStages(b, account)
    ensures Reorder(b, account, ids).Ok? ==> IsListing(Reorder(b, account, ids).board, account, ids)
  {
    SizeOfDistinct(ids);
    if Elements(ids) == LiveStages(b, account) && NoRepeats(ids) {
      var v := Reorder(b, account, ids).board;
      forall i | 0 <= i < |ids| ensures ids[i] in v.stages && v.stages[ids[i]].position == i + 1 {
        assert ids[i] in LiveStages(b, account);
        var k := IndexOf(ids, ids[i]);
        assert k == i;
      }
    }
  }

  /** There is one listing: stages at distinct positions have one left-to-right order. */
  lemma ListingUnique(b: Board, account: int, xs: seq<int>, ys: seq<int>)
    requires IsListing(b, account, xs) && IsListing(b, account, ys)
    ensures xs == ys
  {
    SameSortedSeq(b.stages, xs, ys);
  }

  lemma {:induction false} SameSortedSeq(stages: map<int, Stage>, xs: seq<int>, ys: seq<int>)
    requires Elements(xs) == Elements(ys)
    requires LeftToRight(stages, xs) && LeftToRight(stages, ys)
    ensures xs == ys
  {
    assert xs != [] ==> xs[0] in Elements(xs);
    assert ys != [] ==> ys[0] in Elements(ys);
    if xs != [] && ys != [] {
      assert xs[0] == ys[0];
      var a, c := xs[1..], ys[1..];
      assert xs == [xs[0]] + a && ys == [ys[0]] + c;
      assert Elements(a) == Elements(xs) - {xs[0]} && Elements(c) == Elements(ys) - {ys[0]};
      SameSortedSeq(stages, a, c);
    }
  }
}
