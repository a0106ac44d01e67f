/**
 The collection monitor's inactive and reactivated detectors (api/notifications.py) for one monitored
 (collection, property): the identity carries both, so pairs never meet. Times are epoch seconds.

 Each detector statement is one atomic step and statement times do not go back; any number of workers
 may run the steps. A pass carries what its SELECT sees of the property.
 */
module Monitor {
  import opened Common
  import opened EventIdentity

  const DAY: real := 86400.0
  const MONITOR_WINDOW: real := 7.0 * DAY
  const INACTIVE_DWELL: real := DAY

  datatype Kind = Inactive | Reactivated | NewSource

  /** An identity's varying part: change_kind and event_ref (a whole epoch second, or a new source's listing). */
  type Event = Row<(Kind, int)>

  /**
   `since` is monitor_since. `gone`: the latest child inactive_at while the property is inactive.
   `seen`: last_seen_at while it is active.
   */
  datatype Pass =
    | InactivePass(at: real, since: real, gone: Option<real>)
    | ReactivatedPass(at: real, since: real, seen: Option<real>)

  /** ORDER BY dispatched_at DESC LIMIT 1 over the inactive events. */
  function LatestInactive(events: seq<Event>): (v: Option<real>)
    ensures v.Some? ==> exists k :: 0 <= k < |events| && events[k].id.0 == Inactive && events[k].at == v.value
    ensures forall k :: 0 <= k < |events| && events[k].id.0 == Inactive ==> v.Some? && events[k].at <= v.value
  {
    if events == [] then None else
      var front, last := events[..|events| - 1], events[|events| - 1];
      assert forall k :: 0 <= k < |front| ==> events[k] == front[k];
      var v := LatestInactive(front);
      if last.id.0 == Inactive && (v.None? || v.value <= last.at) then Some(last.at) else v
  }

  predicate ToldBackSince(events: seq<Event>, t: real) {
    exists k :: 0 <= k < |events| && events[k].id.0 == Reactivated && events[k].at > t
  }

  /** The row a detector's SELECT yields: gone, or back. */
  function Candidate(events: seq<Event>, pass: Pass): Option<Event> {
    match pass
    case InactivePass(at, since, gone) =>
      if gone.Some? && at - MONITOR_WINDOW < gone.value < at - INACTIVE_DWELL && gone.value > since
      then Some(Row((Inactive, gone.value.Floor), at)) else None
    case ReactivatedPass(at, since, seen) =>
      var nd := LatestInactive(events);
      if seen.Some? && seen.value > at - MONITOR_WINDOW
         && nd.Some? && seen.value > nd.value && nd.value > since && !ToldBackSince(events, nd.value)
      then Some(Row((Reactivated, nd.value.Floor), at)) else None
  }

  function Apply(events: seq<Event>, pass: Pass): seq<Event> {
    var row := Candidate(events, pass);
    if row.None? then events else Insert(events, row.value)
  }

  function Run(passes: seq<Pass>): seq<Event> {
    if passes == [] then [] else Apply(Run(passes[..|passes| - 1]), passes[|passes| - 1])
  }

  ghost predicate InOrder(passes: seq<Pass>) {
    forall i, j :: 0 <= i < j < |passes| ==> passes[i].at <= passes[j].at
  }

  // ---- where a row comes from ------------------------------------------------------------------

  ghost predicate Rising(events: seq<Event>) {
    forall i, j :: 0 <= i < j < |events| ==> events[i].at <= events[j].at
  }

  lemma {:induction false} RunIsUnique(passes: seq<Pass>)
    requires InOrder(passes)
    ensures Unique(Run(passes)) && Rising(Run(passes))
    ensures forall k :: 0 <= k < |Run(passes)| ==> Run(passes)[k].at <= passes[|passes| - 1].at
  {
    if passes != [] {
      RunIsUnique(passes[..|passes| - 1]);
    }
  }

  lemma {:induction false} RunGrows(passes: seq<Pass>, m: nat)
    requires m <= |passes|
    ensures Run(passes[..m]) <= Run(passes)
  {
    if m == |passes| {
      assert passes[..m] == passes;
    } else {
      var front := passes[..|passes| - 1];
      RunGrows(front, m);
      assert front[..m] == passes[..m];
    }
  }

  /** The pass that told row `k`. */
  lemma {:induction false} RowOrigin(passes: seq<Pass>, k: nat) returns (m: nat)
    requires k < |Run(passes)|
    ensures m < |passes| && Run(passes[..m]) == Run(passes)[..k]
    ensures Candidate(Run(passes[..m]), passes[m]) == Some(Run(passes)[k])
  {
    var front := passes[..|passes| - 1];
    if k < |Run(front)| {
      m := RowOrigin(front, k);
      assert front[..m] == passes[..m];
      RunGrows(passes, |passes| - 1);
    } else {
      m := |passes| - 1;
    }
  }

  // ---- reactivated, whatever the passes see ----------------------------------------------------

  /** A reactivated pass answering the departure told at `departed`: the latest, and the property seen after it. */
  ghost predicate Answers(passes: seq<Pass>, m: nat, departed: real)
    requires m < |passes|
  {
    var p := passes[m];
    && p.ReactivatedPass? && LatestInactive(Run(passes[..m])) == Some(departed) && departed > p.since
    && p.seen.Some? && p.seen.value > departed && p.seen.value > p.at - MONITOR_WINDOW
  }

  /** The departure a reactivated row answers, the latest when it was told, and the pass that told it. */
  lemma AnswerOf(passes: seq<Pass>, j: nat) returns (k: nat, m: nat)
    requires j < |Run(passes)| && Run(passes)[j].id.0 == Reactivated
    ensures k < j && Run(passes)[k].id.0 == Inactive && Run(passes)[j].id.1 == Run(passes)[k].at.Floor
    ensures forall l :: 0 <= l < j && Run(passes)[l].id.0 == Inactive ==> Run(passes)[l].at <= Run(passes)[k].at
    ensures forall r :: 0 <= r < j && Run(passes)[r].id.0 == Reactivated ==> Run(passes)[r].at <= Run(passes)[k].at
    ensures m < |passes| && Answers(passes, m, Run(passes)[k].at)
  {
    var events := Run(passes);
    m := RowOrigin(passes, j);
    var before := events[..j];
    assert forall l :: 0 <= l < j ==> before[l] == events[l];
    var v := LatestInactive(before);
    k :| 0 <= k < j && before[k].id.0 == Inactive && before[k].at == v.value;
  }

  /** Between two reactivated events there is an inactive one. */
  lemma InactiveBetweenReactivations(passes: seq<Pass>, i: nat, j: nat)
    requires InOrder(passes) && i < j < |Run(passes)|
    requires Run(passes)[i].id.0 == Reactivated && Run(passes)[j].id.0 == Reactivated
    ensures exists k :: i < k < j && Run(passes)[k].id.0 == Inactive
  {
    RunIsUnique(passes);
    var k, _ := AnswerOf(passes, j);
    // An answer older than row i would be the one row i gave, with the same identity.
    var l, _ := AnswerOf(passes, i);
    assert k > i;
  }

  // ---- the property's own timeline -------------------------------------------------------------

  /** One stay off the market: the flip's inactive_at, and the return. */
  datatype Spell = Spell(start: real, end: real)

  ghost predicate Timeline(spells: seq<Spell>) {
    && (forall i :: 0 <= i < |spells| ==> spells[i].start < spells[i].end)
    && forall i, j :: 0 <= i < j < |spells| ==> spells[i].end <= spells[j].start
  }

  ghost predicate During(spell: Spell, t: real) {
    spell.start <= t < spell.end
  }

  /** What the SELECT sees agrees with the timeline; a sighting is not in the future. */
  ghost predicate Sees(spells: seq<Spell>, pass: Pass) {
    match pass
    case InactivePass(at, _, gone) =>
      && (gone.Some? ==> exists i :: 0 <= i < |spells| && During(spells[i], at) && gone.value == spells[i].start)
      && (gone.None? ==> forall i :: 0 <= i < |spells| ==> !During(spells[i], at))
    case ReactivatedPass(at, _, seen) =>
      && (seen.Some? ==> seen.value <= at && forall i :: 0 <= i < |spells| ==> !During(spells[i], at))
      && (seen.None? ==> exists i :: 0 <= i < |spells| && During(spells[i], at))
  }

  ghost predicate Watched(spells: seq<Spell>, passes: seq<Pass>) {
    Timeline(spells) && InOrder(passes) && forall m :: 0 <= m < |passes| ==> Sees(spells, passes[m])
  }

  /** A pass that runs while the spell is on, past the dwell, inside the window, and after monitoring began. */
  ghost predicate CatchesSpell(pass: Pass, s: Spell) {
    && pass.InactivePass? && s.start > pass.since
    && s.start + INACTIVE_DWELL < pass.at < s.end && pass.at < s.start + MONITOR_WINDOW
  }

  /** Row `k` tells the spell. */
  ghost predicate Tells(event: Event, s: Spell) {
    event.id == (Inactive, s.start.Floor) && s.start + INACTIVE_DWELL < event.at < s.end
  }

  ghost predicate SpellTold(events: seq<Event>, s: Spell) {
    exists k :: 0 <= k < |events| && Tells(events[k], s)
  }

  lemma FloorGap(x: real, y: real)
    requires x >= y + DAY
    ensures x.Floor >= y.Floor + 86400
  {}

  lemma RowTellsItsSpell(spells: seq<Spell>, passes: seq<Pass>, k: nat) returns (s: nat, m: nat)
    requires Watched(spells, passes) && k < |Run(passes)| && Run(passes)[k].id.0 == Inactive
    ensures s < |spells| && Tells(Run(passes)[k], spells[s])
    ensures m < |passes| && CatchesSpell(passes[m], spells[s])
  {
    m := RowOrigin(passes, k);
    s :| 0 <= s < |spells| && During(spells[s], passes[m].at) && passes[m].gone.value == spells[s].start;
  }

  /** A day and more lies between two departures told, and between their tellings. */
  lemma DeparturesADayApart(spells: seq<Spell>, passes: seq<Pass>, k: nat, l: nat)
    requires Watched(spells, passes) && k < l < |Run(passes)|
    requires Run(passes)[k].id.0 == Inactive && Run(passes)[l].id.0 == Inactive
    ensures Run(passes)[l].id.1 >= Run(passes)[k].id.1 + 86400
    ensures Run(passes)[l].at > Run(passes)[k].at + DAY
  {
    RunIsUnique(passes);
    var s, _ := RowTellsItsSpell(spells, passes, k);
    var t, _ := RowTellsItsSpell(spells, passes, l);
    assert s != t;
    assert s < t;
    FloorGap(spells[t].start, spells[s].start);
  }

  /** No other spell's identity keeps a caught spell from being told. */
  lemma OnlyItsOwnRowBlocks(spells: seq<Spell>, passes: seq<Pass>, m: nat, i: nat)
    requires Watched(spells, passes) && m < |passes| && i < |spells| && CatchesSpell(passes[m], spells[i])
    ensures SpellTold(Run(passes[..m + 1]), spells[i])
  {
    var before := passes[..m];
    var was, now := Run(before), Run(passes[..m + 1]);
    assert passes[..m + 1][..m] == before;
    var j :| 0 <= j < |spells| && During(spells[j], passes[m].at) && passes[m].gone.value == spells[j].start;
    assert i == j;
    var row := Row((Inactive, spells[i].start.Floor), passes[m].at);
    if Told(was, row.id) {
      var k :| 0 <= k < |was| && was[k].id == row.id;
      RunIsUnique(before);
      var s, n := RowTellsItsSpell(spells, before, k);
      assert before[|before| - 1].at <= passes[m].at;
      assert s == i;
      assert Tells(now[k], spells[i]);
    } else {
      assert Tells(now[|was|], spells[i]);
    }
  }

  /** A spell is told exactly when some pass catches it. */
  lemma SpellToldIffCaught(spells: seq<Spell>, passes: seq<Pass>, i: nat)
    requires Watched(spells, passes) && i < |spells|
    ensures SpellTold(Run(passes), spells[i])
       <==> (exists m :: 0 <= m < |passes| && CatchesSpell(passes[m], spells[i]))
  {
    if m :| 0 <= m < |passes| && CatchesSpell(passes[m], spells[i]) {
      OnlyItsOwnRowBlocks(spells, passes, m, i);
      RunGrows(passes, m + 1);
      var k :| 0 <= k < |Run(passes[..m + 1])| && Tells(Run(passes[..m + 1])[k], spells[i]);
      assert Tells(Run(passes)[k], spells[i]);
    }
    if k :| 0 <= k < |Run(passes)| && Tells(Run(passes)[k], spells[i]) {
      var s, m := RowTellsItsSpell(spells, passes, k);
      assert s == i;
    }
  }

  /** ... and never twice. */
  lemma SpellToldAtMostOnce(spells: seq<Spell>, passes: seq<Pass>, i: nat, k: nat, l: nat)
    requires Watched(spells, passes) && i < |spells| && k < |Run(passes)| && l < |Run(passes)|
    requires Tells(Run(passes)[k], spells[i]) && Tells(Run(passes)[l], spells[i])
    ensures k == l
  {}

  /** An inactive pass at least every `period`, up to `horizon`. */
  ghost predicate PassEvery(passes: seq<Pass>, period: real, horizon: real) {
    forall t: real :: 0.0 <= t <= horizon - period ==> PassWithin(passes, t, period)
  }

  ghost predicate PassWithin(passes: seq<Pass>, from: real, period: real) {
    exists m :: 0 <= m < |passes| && passes[m].InactivePass? && from < passes[m].at <= from + period
  }

  /** A spell that begins after monitor_since and outlasts the dwell plus one pass period is told exactly once. */
  lemma LongSpellToldOnce(spells: seq<Spell>, passes: seq<Pass>, i: nat, period: real, horizon: real) returns (k: nat)
    requires Watched(spells, passes) && i < |spells|
    requires 0.0 <= period < MONITOR_WINDOW - INACTIVE_DWELL && PassEvery(passes, period, horizon)
    requires forall m :: 0 <= m < |passes| ==> passes[m].since < spells[i].start
    requires spells[i].start >= 0.0 && spells[i].end > spells[i].start + INACTIVE_DWELL + period
    requires spells[i].start + INACTIVE_DWELL + period <= horizon
    ensures k < |Run(passes)| && Tells(Run(passes)[k], spells[i])
    ensures forall l :: 0 <= l < |Run(passes)| && Tells(Run(passes)[l], spells[i]) ==> l == k
  {
    var from := spells[i].start + INACTIVE_DWELL;
    assert PassWithin(passes, from, period);
    var m :| 0 <= m < |passes| && passes[m].InactivePass? && from < passes[m].at <= from + period;
    assert CatchesSpell(passes[m], spells[i]);
    SpellToldIffCaught(spells, passes, i);
    k :| 0 <= k < |Run(passes)| && Tells(Run(passes)[k], spells[i]);
    forall l | 0 <= l < |Run(passes)| && Tells(Run(passes)[l], spells[i]) ensures l == k {
      SpellToldAtMostOnce(spells, passes, i, k, l);
    }
  }

  /** A spell no longer than the dwell is never told: no inactive row is inserted while it lasts. */
  lemma ShortSpellNeverTold(spells: seq<Spell>, passes: seq<Pass>, i: nat, k: nat)
    requires Watched(spells, passes) && i < |spells| && spells[i].end <= spells[i].start + INACTIVE_DWELL
    requires k < |Run(passes)| && Run(passes)[k].id.0 == Inactive
    ensures !During(spells[i], Run(passes)[k].at)
  {}

  // ---- the return ------------------------------------------------------------------------------

  ghost predicate Reply(event: Event, departed: real) {
    event.id == (Reactivated, departed.Floor)
  }

  ghost predicate Replied(events: seq<Event>, departed: real) {
    exists j :: 0 <= j < |events| && Reply(events[j], departed)
  }

  /**
   A departure told is answered by a reactivated event exactly when some pass sees the property back
   before the next departure is told: no identity swallows it.
   */
  lemma ReturnToldIffSeen(spells: seq<Spell>, passes: seq<Pass>, k: nat)
    requires Watched(spells, passes) && k < |Run(passes)| && Run(passes)[k].id.0 == Inactive
    ensures Replied(Run(passes), Run(passes)[k].at)
       <==> (exists m :: 0 <= m < |passes| && Answers(passes, m, Run(passes)[k].at))
  {
    var events := Run(passes);
    if m :| 0 <= m < |passes| && Answers(passes, m, events[k].at) {
      AnsweredByThen(passes, m, events[k].at);
      RunGrows(passes, m + 1);
      var j :| 0 <= j < |Run(passes[..m + 1])| && Reply(Run(passes[..m + 1])[j], events[k].at);
      assert events[j] == Run(passes[..m + 1])[j];
    }
    if j :| 0 <= j < |events| && Reply(events[j], events[k].at) {
      var l, m := AnswerOf(passes, j);
      if l < k {
        DeparturesADayApart(spells, passes, l, k);
      } else if k < l {
        DeparturesADayApart(spells, passes, k, l);
      }
      assert l == k;
    }
  }

  /** ... and by no more than one. */
  lemma ReplyAtMostOnce(passes: seq<Pass>, departed: real, i: nat, j: nat)
    requires InOrder(passes) && i < |Run(passes)| && j < |Run(passes)|
    requires Reply(Run(passes)[i], departed) && Reply(Run(passes)[j], departed)
    ensures i == j
  {}

  /** No departure later than `t`. */
  ghost predicate NoneLater(events: seq<Event>, t: real) {
    forall k :: 0 <= k < |events| && events[k].id.0 == Inactive ==> events[k].at <= t
  }

  /** Row `r`, inserted after the latest departure `k`, answers it. */
  lemma LaterReplyAnswersIt(passes: seq<Pass>, k: nat, r: nat)
    requires k < r < |Run(passes)| && Run(passes)[r].id.0 == Reactivated
    requires Run(passes)[k].id.0 == Inactive && NoneLater(Run(passes), Run(passes)[k].at)
    ensures Reply(Run(passes)[r], Run(passes)[k].at)
  {
    var l, _ := AnswerOf(passes, r);
    assert Run(passes)[l].at == Run(passes)[k].at;
  }

  /** A reactivated event after the latest departure replies to it. */
  lemma LaterReplyIsItsOwn(passes: seq<Pass>, departed: real)
    requires InOrder(passes) && LatestInactive(Run(passes)) == Some(departed)
    requires ToldBackSince(Run(passes), departed)
    ensures Replied(Run(passes), departed)
  {
    var events := Run(passes);
    var r :| 0 <= r < |events| && events[r].id.0 == Reactivated && events[r].at > departed;
    var k :| 0 <= k < |events| && events[k].id.0 == Inactive && events[k].at == departed;
    RunIsUnique(passes);
    LaterReplyAnswersIt(passes, k, r);
  }

  /** By the end of an answering pass the answer is there: told now, or told before. */
  lemma AnsweredByThen(passes: seq<Pass>, m: nat, departed: real)
    requires InOrder(passes) && m < |passes| && Answers(passes, m, departed)
    ensures Replied(Run(passes[..m + 1]), departed)
  {
    var before := passes[..m];
    assert passes[..m + 1][..m] == before;
    if ToldBackSince(Run(before), departed) {
      LaterReplyIsItsOwn(before, departed);
      KeptReply(Run(before), passes[m], departed);
    } else {
      AddedReply(Run(before), Row((Reactivated, departed.Floor), passes[m].at), departed);
    }
  }

  lemma KeptReply(events: seq<Event>, pass: Pass, departed: real)
    requires Replied(events, departed)
    ensures Replied(Apply(events, pass), departed)
  {
    var j :| 0 <= j < |events| && Reply(events[j], departed);
    assert Reply(Apply(events, pass)[j], departed);
  }

  lemma AddedReply(events: seq<Event>, row: Event, departed: real)
    requires Reply(row, departed)
    ensures Replied(Insert(events, row), departed)
  {
    if Told(events, row.id) {
      var j :| 0 <= j < |events| && events[j].id == row.id;
      assert Reply(events[j], departed);
    } else {
      assert Reply(Insert(events, row)[|events|], departed);
    }
  }

  // ---- a second worker -------------------------------------------------------------------------

  /** The same detector over the same property, at whatever time: a re-run, or another worker. */
  ghost predicate SameSight(p: Pass, q: Pass) {
    match p
    case InactivePass(_, _, gone) => q.InactivePass? && q.gone == gone
    case ReactivatedPass(_, _, _) => q.ReactivatedPass?
  }

  /** Once a detector's row is in, running the detector again adds nothing. */
  lemma SecondWorkerAddsNothing(events: seq<Event>, p: Pass, q: Pass)
    requires Candidate(events, p).Some? && SameSight(p, q)
    ensures Apply(Apply(events, p), q) == Apply(events, p)
  {
    var now, row := Apply(events, p), Candidate(events, p).value;
    assert Told(now, row.id) by {
      if Told(events, row.id) {} else { assert now[|events|] == row; }
    }
    if p.ReactivatedPass? && now != events {
      assert now[..|now| - 1] == events;
      assert LatestInactive(now) == LatestInactive(events);
    }
  }

  // ---- the producer ----------------------------------------------------------------------------

  /** A statement whose SELECT yields at most one row. */
  lemma OneRow(events: seq<Event>, pass: Pass)
    ensures var row := Candidate(events, pass);
            InsertAll(events, if row.Some? then [row.value] else []) == Apply(events, pass)
  {
    var row := Candidate(events, pass);
    if row.Some? {
      assert [row.value][..0] == [];
    }
  }

  class Feed {
    var events: seq<Event>

    constructor ()
      ensures events == []
    {
      events := [];
    }

    /** _commit_one: one statement's rows under ON CONFLICT DO NOTHING; its rowcount. */
    method CommitOne(batch: seq<Event>) returns (n: nat)
      modifies this`events
      ensures events == InsertAll(old(events), batch)
      ensures |events| == |old(events)| + n && n <= |batch|
    {
      n := 0;
      for i := 0 to |batch|
        invariant events == InsertAll(old(events), batch[..i])
        invariant |events| == |old(events)| + n && n <= i
      {
        assert batch[..i + 1][..i] == batch[..i];
        if !Told(events, batch[i].id) {
          events := events + [batch[i]];
          n := n + 1;
        }
      }
      assert batch[..|batch|] == batch;
    }

    /**
     match_monitored_collections_once: nothing to do when nothing is monitored; else the inactive
     statement, committed before the reactivated one reads, then the new_source statement over
     `sources`, what its SELECT yields.
     */
    method MatchOnce(monitored: nat, inactive: Pass, reactivated: Pass, sources: seq<Event>)
      returns (inserted: nat)
      requires inactive.InactivePass? && reactivated.ReactivatedPass?
      modifies this`events
      ensures monitored == 0 ==> inserted == 0 && events == old(events)
      ensures monitored > 0 ==> events == InsertAll(Apply(Apply(old(events), inactive), reactivated), sources)
      ensures |events| == |old(events)| + inserted && inserted <= 2 + |sources|
    {
      if monitored == 0 {
        return 0;
      }
      var gone := Candidate(events, inactive);
      var batch := if gone.Some? then [gone.value] else [];
      OneRow(events, inactive);
      inserted := CommitOne(batch);
      var back := Candidate(events, reactivated);
      batch := if back.Some? then [back.value] else [];
      OneRow(events, reactivated);
      var n := CommitOne(batch);
      var m := CommitOne(sources);
      inserted := inserted + n + m;
    }
  }
}
