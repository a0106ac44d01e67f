/** What each pipeline and dismissal request leaves on the board, row by row, and what it leaves alone. */
module PipelineEffects {
  import opened Common
  import opened Pipeline

  // ---- the dismissal rail ------------------------------------------------------------------------

  /** The active dismissals of these properties that the caller sees, of those with a live card it sees. */
  ghost function LiveDismissals(b: Board, sees: set<int>, properties: set<int>): set<nat> {
    set k: nat | k < |b.dismissals| && b.dismissals[k].lifted == None && b.dismissals[k].account in sees
                 && b.dismissals[k].property in properties && SeesLiveCard(b, sees, b.dismissals[k].property)
  }

  /** Some account the caller sees has the property's card at a stage that is not terminal. */
  ghost predicate SeesLiveCard(b: Board, sees: set<int>, property: int) {
    exists a :: a in sees && (a, property) in b.cards && b.cards[(a, property)].stage in b.stages
                && !b.stages[b.cards[(a, property)].stage].terminal
  }

  /** These rows are lifted for this reason, and nothing else about any dismissal changes. */
  ghost predicate LiftedAt(was: seq<Dismissal>, now: seq<Dismissal>, which: set<nat>, reason: LiftReason) {
    |now| == |was|
    && forall k: nat :: k < |was| ==>
         now[k].account == was[k].account && now[k].property == was[k].property
         && now[k].lifted == if k in which then Some(reason) else was[k].lifted
  }

  /** No dismissal of the property that the caller sees is active. */
  ghost predicate NoneActive(ds: seq<Dismissal>, sees: set<int>, property: int) {
    forall k :: 0 <= k < |ds| && ds[k].account in sees && ds[k].property == property ==> ds[k].lifted.Some?
  }

  lemma LiftLiveLifts(b: Board, sees: set<int>, properties: set<int>)
    ensures LiftLive(b, sees, properties) == b.(dismissals := LiftLive(b, sees, properties).dismissals)
    ensures LiftedAt(b.dismissals, LiftLive(b, sees, properties).dismissals, LiveDismissals(b, sees, properties),
                     ByPipeline)
  {
    forall p
      ensures LiveForCaller(b, sees, p) <==> SeesLiveCard(b, sees, p)
    {
      assert forall a :: Live(b, a, p) <==>
        (a, p) in b.cards && b.cards[(a, p)].stage in b.stages && !b.stages[b.cards[(a, p)].stage].terminal;
    }
  }

  // ---- cards -------------------------------------------------------------------------------------

  ghost predicate OtherCardsStay(b: Board, v: Board, key: (int, int)) {
    forall k :: k != key ==> (k in v.cards <==> k in b.cards) && (k in v.cards ==> v.cards[k] == b.cards[k])
  }

  /** A request that puts a card where `card` says; `from` is where it stood. */
  ghost predicate CardSent(b: Board, v: Board, c: Caller, p: int, from: Option<int>, card: Card) {
    && v.stages == b.stages && OtherCardsStay(b, v, (c.account, p))
    && (c.account, p) in v.cards && v.cards[(c.account, p)] == card
    && v.log == b.log + [CardEvent(c.account, p, from, Some(card.stage))]
    && LiftedAt(b.dismissals, v.dismissals, LiveDismissals(v.(dismissals := b.dismissals), c.sees, {p}), ByPipeline)
    && (card.stage in b.stages && !b.stages[card.stage].terminal && c.account in c.sees ==>
          NoneActive(v.dismissals, c.sees, p))
  }

  /** The stage and the place asked for, or the ones the card has. */
  ghost predicate AskedFor(was: Card, now: Card, stage: Option<int>, place: Option<real>) {
    && now.stage == (if stage == None then was.stage else stage.value)
    && now.place == (if place == None then was.place else place.value)
  }

  /** A move: the card is where it was asked to be; only a stage change is logged and lifts dismissals. */
  ghost predicate Moved(b: Board, v: Board, c: Caller, p: int, stage: Option<int>, place: Option<real>)
    requires (c.account, p) in b.cards
  {
    var was := b.cards[(c.account, p)];
    && (c.account, p) in v.cards
    && var now := v.cards[(c.account, p)];
    && AskedFor(was, now, stage, place)
    && if now.stage != was.stage then CardSent(b, v, c, p, Some(was.stage), now)
       else v == b.(cards := v.cards) && OtherCardsStay(b, v, (c.account, p))
  }

  lemma MoveExact(b: Board, c: Caller, p: int, stage: Option<int>, place: Option<real>)
    ensures MoveCard(b, c, p, stage, place) == Http(404) <==> (c.account, p) !in b.cards
    ensures MoveCard(b, c, p, stage, place) == Http(422) <==>
              (c.account, p) in b.cards && stage.Some?
              && (stage.value in b.stages ==> b.stages[stage.value].account != c.account)
    ensures var v := Do(b, Call(c, OpMove(p, stage, place)));
            match MoveCard(b, c, p, stage, place)
            case Ok(after) => v == after && (c.account, p) in b.cards && Moved(b, v, c, p, stage, place)
            case Http(status) => v == b && (status == 404 || status == 422)
  {
    if MoveCard(b, c, p, stage, place).Ok? {
      var was := b.cards[(c.account, p)];
      var moved := Card(if stage == None then was.stage else stage.value,
                        if place == None then was.place else place.value);
      var after := b.(cards := b.cards[(c.account, p) := moved],
                      log := b.log + [CardEvent(c.account, p, Some(was.stage), Some(moved.stage))]);
      LiftLiveLifts(after, c.sees, {p});
      if moved.stage in b.stages && !b.stages[moved.stage].terminal && c.account in c.sees {
        LiveCardLifts(after, c, p);
      }
    }
  }

  /** A card the caller put at a stage that is not terminal leaves no active dismissal it sees. */
  lemma LiveCardLifts(b: Board, c: Caller, p: int)
    requires (c.account, p) in b.cards && c.account in c.sees
    requires b.cards[(c.account, p)].stage in b.stages && !b.stages[b.cards[(c.account, p)].stage].terminal
    ensures NoneActive(LiftLive(b, c.sees, {p}).dismissals, c.sees, p)
  {
    LiftLiveLifts(b, c.sees, {p});
    assert SeesLiveCard(b, c.sees, p);
  }

  /** A new card's place: one below the lowest card of its stage, the first one at 1. */
  ghost predicate AtTheBottom(was: map<(int, int), Card>, account: int, card: Card) {
    && (forall k | k in was && k.0 == account && was[k].stage == card.stage :: was[k].place <= card.place - 1.0)
    && (card.place == 1.0
        || exists k :: k in was && k.0 == account && was[k].stage == card.stage && was[k].place == card.place - 1.0)
  }

  ghost predicate HasEntry(b: Board, account: int) {
    exists id :: id in b.stages && b.stages[id].account == account && b.stages[id].entry
  }

  /** An add: a card already there stays as it is; a new one is at the bottom of the account's entry stage. */
  ghost predicate Added(b: Board, v: Board, c: Caller, p: int) {
    if (c.account, p) in b.cards then
      v == b.(dismissals := v.dismissals)
      && LiftedAt(b.dismissals, v.dismissals, LiveDismissals(b, c.sees, {p}), ByPipeline)
    else
      && (c.account, p) in v.cards
      && var card := v.cards[(c.account, p)];
      && card.stage in b.stages && b.stages[card.stage].account == c.account && b.stages[card.stage].entry
      && AtTheBottom(b.cards, c.account, card) && CardSent(b, v, c, p, None, card)
  }

  lemma NewCardIsAtTheBottom(b: Board, account: int)
    requires Entries(b, account) != {}
    ensures var card := NewCard(b, account);
            && card.stage in b.stages && b.stages[card.stage].account == account && b.stages[card.stage].entry
            && AtTheBottom(b.cards, account, card)
  {
    var card := NewCard(b, account);
    assert forall k | k in b.cards && k.0 == account && b.cards[k].stage == card.stage ::
      b.cards[k].place in Places(b, account, card.stage);
  }

  lemma AddExact(b: Board, c: Caller, resolved: Option<int>)
    ensures AddCard(b, c, resolved) == Http(422) <==> resolved == None
    ensures AddCard(b, c, resolved) == Http(500) <==> resolved != None && !HasEntry(b, c.account)
    ensures var v := Do(b, Call(c, OpAdd(resolved)));
            match AddCard(b, c, resolved)
            case Ok(after) => v == after && resolved.Some? && Added(b, v, c, resolved.value)
            case Http(status) => v == b && (status == 422 || status == 500)
  {
    assert HasEntry(b, c.account) <==> Entries(b, c.account) != {} by {
      if HasEntry(b, c.account) {
        var id :| id in b.stages && b.stages[id].account == c.account && b.stages[id].entry;
        assert id in Entries(b, c.account);
      }
      if Entries(b, c.account) != {} {
        var id := Least(Entries(b, c.account));
        assert id in b.stages && b.stages[id].account == c.account && b.stages[id].entry;
      }
    }
    if AddCard(b, c, resolved).Ok? {
      var p, card := resolved.value, NewCard(b, c.account);
      if (c.account, p) in b.cards {
        LiftLiveLifts(b, c.sees, {p});
      } else {
        NewCardIsAtTheBottom(b, c.account);
        var after := b.(cards := b.cards[(c.account, p) := card],
                        log := b.log + [CardEvent(c.account, p, None, Some(card.stage))]);
        LiftLiveLifts(after, c.sees, {p});
        if !b.stages[card.stage].terminal && c.account in c.sees {
          LiveCardLifts(after, c, p);
        }
      }
    }
  }

  /** A removal: the card is gone and the stage it left is logged; nothing when it was not there. */
  ghost predicate Removed(b: Board, v: Board, account: int, p: int) {
    && (account, p) !in v.cards && OtherCardsStay(b, v, (account, p))
    && v.stages == b.stages && v.dismissals == b.dismissals
    && v.log == if (account, p) in b.cards
                then b.log + [CardEvent(account, p, Some(b.cards[(account, p)].stage), None)] else b.log
  }

  lemma RemoveExact(b: Board, c: Caller, p: int)
    ensures Removed(b, RemoveCard(b, c, p), c.account, p)
    ensures Do(b, Call(c, OpRemove(p))) == RemoveCard(b, c, p)
  {}

  // ---- dismissals --------------------------------------------------------------------------------

  ghost predicate HasActive(ds: seq<Dismissal>, account: int, p: int) {
    exists k :: 0 <= k < |ds| && ds[k].account == account && ds[k].property == p && ds[k].lifted == None
  }

  /** A dismissal: one more active row, unless the account has one already. */
  ghost predicate Dismissed(b: Board, v: Board, account: int, p: int) {
    && v == b.(dismissals := v.dismissals) && HasActive(v.dismissals, account, p)
    && v.dismissals == if HasActive(b.dismissals, account, p) then b.dismissals
                       else b.dismissals + [Dismissal(account, p, None)]
  }

  lemma DismissExact(b: Board, c: Caller, resolved: Option<int>)
    ensures Pipeline.Dismiss(b, c, resolved) == Http(422) <==> resolved == None
    ensures Pipeline.Dismiss(b, c, resolved) == Http(409) <==>
              resolved != None && SeesLiveCard(b, c.sees, resolved.value)
    ensures var v := Do(b, Call(c, OpDismiss(resolved)));
            match Pipeline.Dismiss(b, c, resolved)
            case Ok(after) => v == after && resolved.Some? && Dismissed(b, v, c.account, resolved.value)
            case Http(status) => v == b && (status == 422 || status == 409)
  {
    if resolved.Some? {
      var p := resolved.value;
      assert LiveForCaller(b, c.sees, p) <==> SeesLiveCard(b, c.sees, p) by {
        assert forall a :: Live(b, a, p) <==>
          (a, p) in b.cards && b.cards[(a, p)].stage in b.stages && !b.stages[b.cards[(a, p)].stage].terminal;
      }
      assert AnyActive(b.dismissals, c.account, p) <==> HasActive(b.dismissals, c.account, p) by {
        assert forall k :: 0 <= k < |b.dismissals| ==>
          (Active(b.dismissals[k], c.account, p) <==>
             b.dismissals[k].account == c.account && b.dismissals[k].property == p && b.dismissals[k].lifted == None);
      }
      var made := b.dismissals + [Dismissal(c.account, p, None)];
      assert made[|b.dismissals|] == Dismissal(c.account, p, None);
    }
  }

  /** The caller's active dismissals of the property. */
  ghost function SeenDismissals(b: Board, sees: set<int>, resolved: Option<int>): set<nat> {
    set k: nat | k < |b.dismissals| && b.dismissals[k].lifted == None && b.dismissals[k].account in sees
                 && resolved == Some(b.dismissals[k].property)
  }

  /** An undo: exactly the active dismissals of the property that the caller sees are lifted. */
  ghost predicate Undismissed(b: Board, v: Board, sees: set<int>, resolved: Option<int>) {
    && v == b.(dismissals := v.dismissals)
    && LiftedAt(b.dismissals, v.dismissals, SeenDismissals(b, sees, resolved), ByOperator)
    && (resolved.Some? ==> NoneActive(v.dismissals, sees, resolved.value))
  }

  lemma UndismissExact(b: Board, c: Caller, resolved: Option<int>)
    ensures Undismissed(b, Pipeline.Undismiss(b, c, resolved), c.sees, resolved)
    ensures Do(b, Call(c, OpUndismiss(resolved))) == Pipeline.Undismiss(b, c, resolved)
  {}

  // ---- stages ------------------------------------------------------------------------------------

  ghost predicate OtherStagesStay(b: Board, v: Board, id: int) {
    forall s :: s != id ==> (s in v.stages <==> s in b.stages) && (s in v.stages ==> v.stages[s] == b.stages[s])
  }

  /** A new stage: live, not the entry, one to the right of every stage the account ever had, the first at 1. */
  ghost predicate Created(b: Board, v: Board, account: int, id: int, key: string, terminal: bool) {
    && v == b.(stages := v.stages) && OtherStagesStay(b, v, id) && id in v.stages
    && var made := v.stages[id];
    && made.account == account && made.key == key && made.terminal == terminal && !made.entry && !made.archived
    && (forall s :: s in b.stages && b.stages[s].account == account ==> b.stages[s].position <= made.position - 1)
    && (made.position == 1
        || exists s :: s in b.stages && b.stages[s].account == account && b.stages[s].position == made.position - 1)
  }

  lemma CreateExact(b: Board, c: Caller, id: int, key: string, terminal: bool)
    requires id !in b.stages
    ensures Created(b, CreateStage(b, c.account, id, key, terminal), c.account, id, key, terminal)
    ensures Do(b, Call(c, OpCreate(id, key, terminal))) == CreateStage(b, c.account, id, key, terminal)
  {
    assert forall s :: s in b.stages && b.stages[s].account == c.account ==>
      b.stages[s].position in Positions(b, c.account);
  }

  /** The stage as patched; crowning it takes the crown from the account's others; the rest stays. */
  ghost predicate Patched(b: Board, v: Board, account: int, id: int, patch: StagePatch)
    requires id in b.stages
  {
    && v.stages.Keys == b.stages.Keys
    && v.stages[id] == b.stages[id].(terminal := v.stages[id].terminal, entry := v.stages[id].entry)
    && v.stages[id].terminal == (if patch.terminal == None then b.stages[id].terminal else patch.terminal.value)
    && v.stages[id].entry == (if patch.entry == None then b.stages[id].entry else patch.entry.value)
    && forall s :: s in b.stages && s != id ==>
         v.stages[s] == b.stages[s].(entry := v.stages[s].entry)
         && v.stages[s].entry == (b.stages[s].entry && !(patch.entry == Some(true) && b.stages[s].account == account))
  }

  /** The properties of the account's cards at a stage. */
  ghost function HeldAt(b: Board, account: int, stage: int): set<int> {
    set k | k in b.cards && k.0 == account && b.cards[k].stage == stage :: k.1
  }

  /** An update: re-opening a terminal stage lifts the dismissals its cards make wrong, any other update none. */
  ghost predicate Updated(b: Board, v: Board, c: Caller, id: int, patch: StagePatch)
    requires id in b.stages
  {
    && Patched(b, v, c.account, id, patch) && v.cards == b.cards && v.log == b.log
    && if b.stages[id].terminal && !v.stages[id].terminal then
         LiftedAt(b.dismissals, v.dismissals,
                  LiveDismissals(v.(dismissals := b.dismissals), c.sees, HeldAt(b, c.account, id)), ByPipeline)
       else v.dismissals == b.dismissals
  }

  lemma UpdateExact(b: Board, c: Caller, id: int, patch: StagePatch)
    ensures UpdateStage(b, c, id, patch) == Http(404) <==>
              patch.entry != Some(false) && (id in b.stages ==> b.stages[id].account != c.account)
    ensures UpdateStage(b, c, id, patch) == Http(422) <==>
              patch.entry == Some(false)
              || (id in b.stages && b.stages[id].account == c.account
                  && (patch.entry == Some(true) || (patch.entry == None && b.stages[id].entry))
                  && (patch.terminal == Some(true) || (patch.terminal == None && b.stages[id].terminal)))
    ensures var v := Do(b, Call(c, OpUpdate(id, patch)));
            match UpdateStage(b, c, id, patch)
            case Ok(after) => v == after && id in b.stages && Updated(b, v, c, id, patch)
            case Http(status) => v == b && (status == 404 || status == 422)
  {
    if UpdateStage(b, c, id, patch).Ok? {
      assert HeldAt(b, c.account, id) == CardsOn(b, c.account, id);
      LiftLiveLifts(b.(stages := PatchedStages(b, c.account, id, patch)), c.sees, CardsOn(b, c.account, id));
    }
  }

  /** A reorder: the listed stages are numbered from 1 in that order, and nothing else changes. */
  ghost predicate Reordered(b: Board, v: Board, ids: seq<int>) {
    && v == b.(stages := v.stages) && v.stages.Keys == b.stages.Keys
    && (forall i :: 0 <= i < |ids| ==>
          ids[i] in b.stages && v.stages[ids[i]] == b.stages[ids[i]].(position := i + 1))
    && (forall s :: s in b.stages && s !in ids ==> v.stages[s] == b.stages[s])
  }

  lemma ReorderNumbers(b: Board, c: Caller, ids: seq<int>)
    requires Reorder(b, c.account, ids).Ok? && NoRepeats(ids)
    ensures Reordered(b, Do(b, Call(c, OpReorder(ids))), ids)
    ensures Do(b, Call(c, OpReorder(ids))) == Reorder(b, c.account, ids).board
  {
    forall i | 0 <= i < |ids|
      ensures ids[i] in b.stages && IndexOf(ids, ids[i]) == i
    {
      assert ids[i] in LiveStages(b, c.account);
    }
  }

  /** An archiving: refused for the entry and for a stage with cards, and nothing the second time. */
  lemma ArchiveExact(b: Board, c: Caller, id: int)
    ensures var (r, archived) := Archive(b, c.account, id);
            var mine := id in b.stages && b.stages[id].account == c.account;
            && (r == Http(404) <==> !mine)
            && (r == Http(409) <==>
                  mine && (b.stages[id].entry || (!b.stages[id].archived && HeldAt(b, c.account, id) != {})))
            && (archived <==> mine && !b.stages[id].entry && !b.stages[id].archived && HeldAt(b, c.account, id) == {})
            && (r.Http? ==> r.status == 404 || r.status == 409)
            && Do(b, Call(c, OpArchive(id)))
               == (if archived then b.(stages := b.stages[id := b.stages[id].(archived := true)]) else b)
            && (r.Ok? ==> r.board == Do(b, Call(c, OpArchive(id))))
  {
    assert HeldAt(b, c.account, id) == CardsOn(b, c.account, id);
  }

  // ---- a run -------------------------------------------------------------------------------------

  /** Requests run one after the other: a run in two parts is the second on what the first left. */
  lemma {:induction false} RunJoins(b: Board, xs: seq<Call>, ys: seq<Call>)
    ensures Run(b, xs + ys) == Run(Run(b, xs), ys)
    ensures forall call :: Run(b, [call]) == Do(b, call)
  {
    assert forall call: Call :: [call][..0] == [];
    if ys == [] {
      assert xs + ys == xs;
    } else {
      var n := |ys| - 1;
      assert (xs + ys)[..|xs + ys| - 1] == xs + ys[..n];
      RunJoins(b, xs, ys[..n]);
    }
  }
}
