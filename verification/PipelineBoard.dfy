/** The pipeline's and the dismissals' requests over the tables they update in place, and the unique-key search. */
module PipelineBoard {
  import opened Common
  import opened Pipeline
  import opened PipelineInvariants
  import opened PipelineEffects

  // ---- _unique_key -----------------------------------------------------------------------------

  /** The candidate keys: the slug, then slug_2, slug_3, ... */
  function KeyOf(base: string, n: nat): string {
    if n < 2 then base else base + "_" + Decimal(n)
  }

  lemma KeysDiffer(base: string, m: nat, n: nat)
    requires 2 <= m && 2 <= n && KeyOf(base, m) == KeyOf(base, n)
    ensures m == n
  {
    var k := |base + "_"|;
    assert KeyOf(base, m)[k..] == Decimal(m) && KeyOf(base, n)[k..] == Decimal(n);
    DecimalInjective(m, n);
  }

  /** The first free candidate, in order. */
  ghost predicate FirstFree(taken: set<string>, base: string, n: nat) {
    KeyOf(base, n) !in taken && (n == 1 || n >= 2) && forall m :: 1 <= m < n ==> KeyOf(base, m) in taken
  }

  /**
   The search ends, with the first free key: each failed candidate is a different taken key, and only
   finitely many are taken.
   */
  method UniqueKey(taken: set<string>, base: string) returns (key: string, ghost n: nat)
    ensures key == KeyOf(base, n) && FirstFree(taken, base, n)
    ensures key !in taken
  {
    if base !in taken {
      return base, 1;
    }
    var i := 2;
    ghost var untried := taken;
    while KeyOf(base, i) in taken
      invariant i >= 2
      invariant forall m :: 1 <= m < i ==> KeyOf(base, m) in taken
      invariant untried <= taken
      invariant forall m :: m >= i && KeyOf(base, m) in taken ==> KeyOf(base, m) in untried
      decreases |untried|
    {
      forall m | m >= i + 1 && KeyOf(base, m) in taken ensures KeyOf(base, m) != KeyOf(base, i) {
        if KeyOf(base, m) == KeyOf(base, i) {
          KeysDiffer(base, m, i);
        }
      }
      untried := untried - {KeyOf(base, i)};
      i := i + 1;
    }
    key, n := KeyOf(base, i), i;
  }

  // ---- the tables ------------------------------------------------------------------------------

  /** One turn of reorder_stages' loop. */
  lemma NumberedStep(stages: map<int, Stage>, ids: seq<int>, i: nat)
    requires NoRepeats(ids) && i < |ids| && ids[i] in stages
    ensures Numbered(stages, ids[..i + 1])
         == Numbered(stages, ids[..i])[ids[i] := stages[ids[i]].(position := i + 1)]
    ensures Numbered(stages, ids[..i])[ids[i]] == stages[ids[i]]
  {}

  /** A statement's row count: the rows it rewrote, in place. */
  function RowCount(before: seq<Dismissal>, after: seq<Dismissal>): nat
    requires |before| == |after|
  {
    if before == [] then 0
    else
      var m := |before| - 1;
      RowCount(before[..m], after[..m]) + (if before[m] != after[m] then 1 else 0)
  }

  function Rewritten(before: seq<Dismissal>, after: seq<Dismissal>): set<nat>
    requires |before| == |after|
  {
    set k: nat | k < |before| && before[k] != after[k]
  }

  lemma {:induction false} RowCountIsHowMany(before: seq<Dismissal>, after: seq<Dismissal>)
    requires |before| == |after|
    ensures RowCount(before, after) == |Rewritten(before, after)|
  {
    if before != [] {
      var m := |before| - 1;
      RowCountIsHowMany(before[..m], after[..m]);
      var fewer := Rewritten(before[..m], after[..m]);
      assert Rewritten(before, after) == if before[m] != after[m] then fewer + {m} else fewer;
    }
  }

  lemma {:induction false} NothingRewritten(ds: seq<Dismissal>)
    ensures RowCount(ds, ds) == 0
  {
    if ds != [] {
      NothingRewritten(ds[..|ds| - 1]);
    }
  }

  lemma RowCountGrows(before: seq<Dismissal>, i: nat, out: seq<Dismissal>, d: Dismissal)
    requires |out| == i < |before|
    ensures RowCount(before[..i + 1], out + [d]) == RowCount(before[..i], out) + (if before[i] != d then 1 else 0)
  {
    assert before[..i + 1][..i] == before[..i] && (out + [d])[..i] == out;
  }

  class Tables {
    var stages: map<int, Stage>
    var cards: map<(int, int), Card>
    var log: seq<CardEvent>
    var dismissals: seq<Dismissal>

    ghost function View(): Board
      reads this
    {
      Board(stages, cards, log, dismissals)
    }

    constructor (stages: map<int, Stage>)
      ensures View() == Board(stages, map[], [], [])
    {
      this.stages, cards, log, dismissals := stages, map[], [], [];
    }

    /** create_stage: `id` is the sequence's next value. */
    method CreateStage(account: int, id: int, base: string, terminal: bool) returns (key: string)
      requires id !in stages
      modifies this`stages
      ensures View() == Pipeline.CreateStage(old(View()), account, id, key, terminal)
      ensures Created(old(View()), View(), account, id, key, terminal)
      ensures forall s :: s in old(stages) && old(stages)[s].account == account ==> old(stages)[s].key != key
    {
      var taken := set s | s in stages && stages[s].account == account :: stages[s].key;
      ghost var n;
      key, n := UniqueKey(taken, base);
      ghost var before := View();
      var positions := set s | s in stages && stages[s].account == account :: stages[s].position;
      assert positions == Positions(before, account);
      stages := stages[id := Stage(account, key, MaxOrZero(positions) + 1, terminal, false, false)];
      forall s | s in before.stages && before.stages[s].account == account
        ensures before.stages[s].key != key
      {
        assert before.stages[s].key in taken;
      }
      CreateExact(before, Caller(account, {}), id, key, terminal);
    }

    /** lift_dismissals_of_live_deals. */
    method LiftDismissals(sees: set<int>, properties: set<int>) returns (n: nat)
      modifies this`dismissals
      ensures LiftedAt(old(dismissals), dismissals, LiveDismissals(old(View()), sees, properties), ByPipeline)
      ensures View() == LiftLive(old(View()), sees, properties)
      ensures |dismissals| == |old(dismissals)| && n == RowCount(old(dismissals), dismissals)
    {
      ghost var before := View();
      LiftLiveLifts(before, sees, properties);
      ghost var target := LiftLive(before, sees, properties).dismissals;
      var i := 0;
      var out: seq<Dismissal> := [];
      n := 0;
      while i < |dismissals|
        invariant 0 <= i <= |dismissals| && |out| == i && n == RowCount(dismissals[..i], out)
        invariant dismissals == before.dismissals && out == target[..i]
      {
        var d := dismissals[i];
        var live := exists a :: a in sees && (a, d.property) in cards && cards[(a, d.property)].stage in stages
                                && !stages[cards[(a, d.property)].stage].terminal;
        RowCountGrows(dismissals, i, out, target[i]);
        assert live <==> LiveForCaller(before, sees, d.property) by {
          assert forall a :: Live(before, a, d.property) <==>
            (a, d.property) in cards && cards[(a, d.property)].stage in stages
            && !stages[cards[(a, d.property)].stage].terminal;
        }
        if d.lifted == None && d.account in sees && d.property in properties && live {
          out := out + [d.(lifted := Some(ByPipeline))];
          n := n + 1;
        } else {
          out := out + [d];
        }
        assert target[..i + 1] == target[..i] + [target[i]];
        i := i + 1;
      }
      assert dismissals[..i] == dismissals && out == target;
      dismissals := out;
    }

    /** update_stage. */
    method UpdateStage(c: Caller, id: int, patch: StagePatch) returns (status: int)
      modifies this`stages, this`dismissals
      ensures var r := Pipeline.UpdateStage(old(View()), c, id, patch);
              if r.Ok? then status == 200 && View() == r.board else status == r.status && View() == old(View())
      ensures status == 200 ==> id in old(stages) && Updated(old(View()), View(), c, id, patch)
      ensures status != 200 ==> View() == old(View()) && (status == 404 || status == 422)
      ensures status == 404 <==>
                patch.entry != Some(false) && (id in old(stages) ==> old(stages)[id].account != c.account)
    {
      UpdateExact(View(), c, id, patch);
      if patch.entry == Some(false) {
        return 422;
      }
      if id !in stages || stages[id].account != c.account {
        return 404;
      }
      ghost var before := View();
      var was := stages[id];
      var entry := if patch.entry.Some? then patch.entry.value else was.entry;
      var terminal := if patch.terminal.Some? then patch.terminal.value else was.terminal;
      if entry && terminal {
        return 422;
      }
      if patch.entry == Some(true) {
        stages := map s | s in stages ::
          if s != id && stages[s].account == c.account then stages[s].(entry := false) else stages[s];
      }
      stages := stages[id := was.(terminal := terminal, entry := entry)];
      assert stages == PatchedStages(before, c.account, id, patch);
      if was.terminal && !terminal {
        var reopened := set k | k in cards && k.0 == c.account && cards[k].stage == id :: k.1;
        assert reopened == CardsOn(before, c.account, id);
        var n := LiftDismissals(c.sees, reopened);
      }
      status := 200;
    }

    /** reorder_stages' loop. */
    method NumberStages(ids: seq<int>)
      requires NoRepeats(ids) && forall i :: 0 <= i < |ids| ==> ids[i] in stages
      modifies this`stages
      ensures stages == Numbered(old(stages), ids)
    {
      ghost var was := stages;
      for i := 0 to |ids|
        invariant stages == Numbered(was, ids[..i])
      {
        NumberedStep(was, ids, i);
        stages := stages[ids[i] := stages[ids[i]].(position := i + 1)];
      }
      assert ids[..|ids|] == ids;
    }

    /** reorder_stages: refuse anything but the live set listed once, then number it from 1. */
    method ReorderStages(account: int, ids: seq<int>) returns (status: int)
      modifies this`stages
      ensures var r := Reorder(old(View()), account, ids);
              if r.Ok? then status == 200 && View() == r.board else status == r.status && View() == old(View())
      ensures status == 200 ==> IsListing(View(), account, ids) && Reordered(old(View()), View(), ids)
    {
      ghost var before := View();
      var live := set s | s in stages && stages[s].account == account && !stages[s].archived;
      ReorderExact(before, account, ids);
      if (set s | s in ids) != live || |ids| != |live| {
        return 422;
      }
      assert forall i :: 0 <= i < |ids| ==> ids[i] in live;
      ReorderNumbers(before, Caller(account, {}), ids);
      NumberStages(ids);
      status := 200;
    }

    /** archive_stage. */
    method ArchiveStage(account: int, id: int) returns (status: int, archived: bool)
      modifies this`stages
      ensures var r := Archive(old(View()), account, id);
              archived == r.1
              && if r.0.Ok? then status == 200 && View() == r.0.board else status == r.0.status && View() == old(View())
      ensures archived ==> forall k :: k in cards && k.0 == account ==> cards[k].stage != id
      ensures status == 404 <==> (id in old(stages) ==> old(stages)[id].account != account)
      ensures archived <==> status == 200 && !old(stages)[id].archived
      ensures View() == if archived then old(View()).(stages := old(stages)[id := old(stages)[id].(archived := true)])
                        else old(View())
      ensures status == 200 ==> id in stages && stages[id].archived && !stages[id].entry
    {
      ArchiveExact(View(), Caller(account, {}), id);
      if id !in stages || stages[id].account != account {
        return 404, false;
      }
      if stages[id].entry {
        return 409, false;
      }
      if stages[id].archived {
        return 200, false;
      }
      var held := set k | k in cards && k.0 == account && cards[k].stage == id :: k.1;
      assert held == CardsOn(View(), account, id);
      if held != {} {
        return 409, false;
      }
      assert forall k :: k in cards && k.0 == account && cards[k].stage == id ==> k.1 in held;
      stages := stages[id := stages[id].(archived := true)];
      return 200, true;
    }

    /** add_card. */
    method AddCard(c: Caller, resolved: Option<int>) returns (status: int, added: bool)
      modifies this`cards, this`log, this`dismissals
      ensures var r := Pipeline.AddCard(old(View()), c, resolved);
              if r.Ok? then status == 200 && View() == r.board else status == r.status && View() == old(View())
      ensures status == 422 <==> resolved == None
      ensures status == 500 <==> resolved != None && !HasEntry(old(View()), c.account)
      ensures status == 200 ==> resolved.Some? && (c.account, resolved.value) in cards
      ensures status == 200 ==> Added(old(View()), View(), c, resolved.value)
      ensures added <==> status == 200 && (c.account, resolved.value) !in old(cards)
    {
      AddExact(View(), c, resolved);
      added := false;
      if resolved.None? {
        return 422, false;
      }
      ghost var before := View();
      var entries := set s | s in stages && stages[s].account == c.account && stages[s].entry;
      assert entries == Entries(before, c.account);
      if entries == {} {
        return 500, false;
      }
      var p, entry := resolved.value, Least(entries);
      if (c.account, p) !in cards {
        var places := set k | k in cards && k.0 == c.account && cards[k].stage == entry :: cards[k].place;
        assert places == Places(before, c.account, entry);
        assert forall k :: k in cards && k.0 == c.account && cards[k].stage == entry ==> cards[k].place in places;
        cards := cards[(c.account, p) := Card(entry, HighestOrZero(places) + 1.0)];
        log := log + [CardEvent(c.account, p, None, Some(entry))];
        added := true;
      }
      var n := LiftDismissals(c.sees, {p});
      status := 200;
    }

    /** remove_card: the card's last stage goes to the ledger. */
    method RemoveCard(c: Caller, property: int, resolved: Option<int>) returns (removed: bool)
      modifies this`cards, this`log
      ensures View() == Pipeline.RemoveCard(old(View()), c, if resolved.Some? then resolved.value else property)
      ensures Removed(old(View()), View(), c.account, if resolved.Some? then resolved.value else property)
      ensures removed <==> (c.account, if resolved.Some? then resolved.value else property) in old(cards)
    {
      var p := if resolved.Some? then resolved.value else property;
      RemoveExact(View(), c, p);
      if (c.account, p) !in cards {
        return false;
      }
      log := log + [CardEvent(c.account, p, Some(cards[(c.account, p)].stage), None)];
      cards := cards - {(c.account, p)};
      return true;
    }

    /** move_card. */
    method MoveCard(c: Caller, property: int, resolved: Option<int>, stage: Option<int>, place: Option<real>)
      returns (status: int)
      modifies this`cards, this`log, this`dismissals
      ensures var p := if resolved.Some? then resolved.value else property;
              var r := Pipeline.MoveCard(old(View()), c, p, stage, place);
              if r.Ok? then status == 200 && View() == r.board else status == r.status && View() == old(View())
      ensures var p := if resolved.Some? then resolved.value else property;
              && (status == 404 <==> (c.account, p) !in old(cards))
              && (status == 422 <==>
                    (c.account, p) in old(cards) && stage.Some?
                    && (stage.value in old(stages) ==> old(stages)[stage.value].account != c.account))
              && (status == 200 ==> (c.account, p) in old(cards) && Moved(old(View()), View(), c, p, stage, place))
              && (status != 200 ==> View() == old(View()) && (status == 404 || status == 422))
    {
      var p := if resolved.Some? then resolved.value else property;
      MoveExact(View(), c, p, stage, place);
      if (c.account, p) !in cards {
        return 404;
      }
      var card := cards[(c.account, p)];
      if stage.Some? && (stage.value !in stages || stages[stage.value].account != c.account) {
        return 422;
      }
      var changed := stage.Some? && stage.value != card.stage;
      if stage.Some? {
        cards := cards[(c.account, p) := cards[(c.account, p)].(stage := stage.value)];
      }
      if place.Some? {
        cards := cards[(c.account, p) := cards[(c.account, p)].(place := place.value)];
      }
      ghost var moved := Card(if stage.Some? then stage.value else card.stage,
                              if place.Some? then place.value else card.place);
      assert cards == old(cards)[(c.account, p) := moved];
      if changed {
        log := log + [CardEvent(c.account, p, Some(card.stage), Some(stage.value))];
        var n := LiftDismissals(c.sees, {p});
      }
      status := 200;
    }

    /** dismiss. */
    method Dismiss(c: Caller, resolved: Option<int>) returns (status: int, added: bool)
      modifies this`dismissals
      ensures var r := Pipeline.Dismiss(old(View()), c, resolved);
              if r.Ok? then status == 200 && View() == r.board else status == r.status && View() == old(View())
      ensures added <==> status == 200 && dismissals != old(dismissals)
      ensures status == 422 <==> resolved == None
      ensures status == 409 <==> resolved != None && SeesLiveCard(old(View()), c.sees, resolved.value)
      ensures status == 200 ==> Dismissed(old(View()), View(), c.account, resolved.value)
      ensures status != 200 ==> View() == old(View()) && (status == 422 || status == 409)
    {
      DismissExact(View(), c, resolved);
      added := false;
      if resolved.None? {
        return 422, false;
      }
      ghost var before := View();
      var p := resolved.value;
      var live := exists a :: a in c.sees && (a, p) in cards && cards[(a, p)].stage in stages
                              && !stages[cards[(a, p)].stage].terminal;
      assert live <==> LiveForCaller(before, c.sees, p) by {
        assert forall a :: Live(before, a, p) <==>
          (a, p) in cards && cards[(a, p)].stage in stages && !stages[cards[(a, p)].stage].terminal;
      }
      if live {
        return 409, false;
      }
      if !AnyActive(dismissals, c.account, p) {
        dismissals := dismissals + [Dismissal(c.account, p, None)];
        added := true;
      }
      status := 200;
    }

    /** undismiss: how many active dismissals it lifted. */
    method Undismiss(c: Caller, resolved: Option<int>) returns (n: nat)
      modifies this`dismissals
      ensures View() == Pipeline.Undismiss(old(View()), c, resolved)
      ensures |dismissals| == |old(dismissals)| && n == RowCount(old(dismissals), dismissals)
      ensures Undismissed(old(View()), View(), c.sees, resolved)
      ensures resolved.Some? && c.account in c.sees ==> !AnyActive(dismissals, c.account, resolved.value)
    {
      UndismissExact(View(), c, resolved);
      ghost var before := View();
      n := 0;
      if resolved.None? {
        NothingRewritten(dismissals);
        return;
      }
      ghost var target := Pipeline.Undismiss(before, c, resolved).dismissals;
      var i := 0;
      var out: seq<Dismissal> := [];
      while i < |dismissals|
        invariant 0 <= i <= |dismissals| && |out| == i && n == RowCount(dismissals[..i], out)
        invariant dismissals == before.dismissals && out == target[..i]
      {
        var d := dismissals[i];
        RowCountGrows(dismissals, i, out, target[i]);
        if d.lifted == None && d.account in c.sees && d.property == resolved.value {
          out := out + [d.(lifted := Some(ByOperator))];
          n := n + 1;
        } else {
          out := out + [d];
        }
        assert target[..i + 1] == target[..i] + [target[i]];
        i := i + 1;
      }
      assert dismissals[..i] == dismissals && out == target;
      dismissals := out;
    }
  }
}
