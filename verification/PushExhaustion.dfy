/**
 What exhaustion means in the runs of the push lane (api/push_delivery.py): EXHAUSTED_SQL carries no token,
 so the fifth claim it gave up on may still write.
 */
module PushExhaustion {
  import opened Common
  import opened PushDelivery
  import opened PushProtocol
  import opened PushTiming

  /** Never due again by itself: closed, or given up with no attempt left. */
  ghost predicate Spent(w: World, id: int) {
    id in w.rows && (!Open(w.rows[id]) || (w.rows[id].next == Never && w.rows[id].attempts >= MAX_ATTEMPTS))
  }

  /** The event is a write-back whose compare-and-set meets the row. */
  ghost predicate LandsOn(w: World, e: Event, id: int)
    requires Enabled(w, e)
  {
    e.step.WriteBack? && id in w.rows && id in Tokens(w, e.step.holder)
    && AsClaimed(w.rows[id], Tokens(w, e.step.holder)[id])
  }

  /** ... and it is a 429. */
  ghost predicate GivenBackOn(w: World, e: Event, id: int)
    requires Enabled(w, e)
  {
    LandsOn(w, e, id) && GivesBack(e.step.write)
  }

  /** The exhaustion statement leaves a row it meets spent, whatever the row was. */
  lemma ExhaustSpends(ws: seq<World>, es: seq<Event>, i: nat, id: int)
    requires Trace(ws, es) && i < |es| && es[i].step.Exhaust?
    requires id in ws[i].rows && Exhausted(ws[i].rows[id], es[i].now)
    ensures Spent(ws[i + 1], id) && ws[i + 1].rows[id].status == Failed
  {
    assert ws[i + 1] == Apply(ws[i], es[i]);
  }

  lemma QuietStep(w: World, e: Event, id: int)
    requires Enabled(w, e) && id in w.rows && w.rows[id].next == Never && !LandsOn(w, e, id)
    ensures id in Apply(w, e).rows && Apply(w, e).rows[id] == w.rows[id]
  {}

  /** A row that is never due stays exactly as it is until a write-back lands on it. */
  lemma {:induction false} NeverDueUntilAWrite(ws: seq<World>, es: seq<Event>, i: nat, j: nat, id: int)
    requires Trace(ws, es) && i <= j < |ws| && id in ws[i].rows && ws[i].rows[id].next == Never
    requires forall k :: i <= k < j ==> !LandsOn(ws[k], es[k], id)
    ensures id in ws[j].rows && ws[j].rows[id] == ws[i].rows[id]
    decreases j - i
  {
    if i < j {
      NeverDueUntilAWrite(ws, es, i, j - 1, id);
      assert ws[j] == Apply(ws[j - 1], es[j - 1]);
      QuietStep(ws[j - 1], es[j - 1], id);
    }
  }

  /** One step keeps a spent row spent exactly when it is not a 429 landing on it. */
  lemma SpentStepIff(w: World, e: Event, id: int)
    requires Enabled(w, e) && Spent(w, id)
    ensures Spent(Apply(w, e), id) <==> !GivenBackOn(w, e, id)
    ensures GivenBackOn(w, e, id) ==>
              var d := Apply(w, e).rows[id];
              Open(d) && DueBy(d, e.now) && d.attempts == w.rows[id].attempts - 1
  {}

  ghost predicate SpentThroughout(ws: seq<World>, i: nat, j: nat, id: int) {
    forall k :: i <= k <= j < |ws| ==> Spent(ws[k], id)
  }

  ghost predicate NoGiveBack(ws: seq<World>, es: seq<Event>, i: nat, j: nat, id: int)
    requires Trace(ws, es) && j < |ws|
  {
    forall k :: i <= k < j ==> !GivenBackOn(ws[k], es[k], id)
  }

  /** A spent row is never due again exactly when no 429 lands on it afterwards. */
  lemma {:induction false} ExhaustionIsFinalIff(ws: seq<World>, es: seq<Event>, i: nat, j: nat, id: int)
    requires Trace(ws, es) && i <= j < |ws| && Spent(ws[i], id)
    ensures SpentThroughout(ws, i, j, id) <==> NoGiveBack(ws, es, i, j, id)
    decreases j - i
  {
    if i < j {
      ExhaustionIsFinalIff(ws, es, i, j - 1, id);
      assert ws[j] == Apply(ws[j - 1], es[j - 1]);
      if Spent(ws[j - 1], id) {
        SpentStepIff(ws[j - 1], es[j - 1], id);
      }
      if SpentThroughout(ws, i, j, id) {
        assert SpentThroughout(ws, i, j - 1, id);
        assert Spent(ws[j - 1], id) && Spent(ws[j], id);
      }
      if NoGiveBack(ws, es, i, j, id) {
        assert NoGiveBack(ws, es, i, j - 1, id);
        assert !GivenBackOn(ws[j - 1], es[j - 1], id);
      }
    }
  }

  // ---- a run that reopens an exhausted row -----------------------------------------------------

  /** `n` claims of the row whose processes died, one per lease. */
  ghost function Lapsed(n: nat): seq<Claim> {
    if n == 0 then [] else Lapsed(n - 1) + [Claim(1, n, LEASE_S * ((n - 1) as real), Outstanding, None)]
  }

  lemma {:induction false} LapsedSize(n: nat)
    ensures |Lapsed(n)| == n
  {
    if n > 0 {
      LapsedSize(n - 1);
    }
  }

  const FIFTH := 4.0 * LEASE_S

  ghost function FifthPosted(): seq<Claim> {
    Lapsed(4) + [Claim(1, 5, FIFTH, Outstanding, Some(Span(FIFTH, FIFTH, FIFTH, FIFTH)))]
  }

  ghost function GivenUp(): Delivery {
    Delivery(7, Failed, 5, Never, Some("lease_expired"), None, None)
  }

  ghost function GiveBack(why: string, after: Option<int>): Write {
    Posted(ThrottledOut(why, after))
  }

  ghost function ReopenEvents(why: string, after: Option<int>): seq<Event> {
    [ Event(0.0, FanOut(1, 7, false)),
      Event(0.0, ClaimDue([1])), Event(LEASE_S, ClaimDue([1])), Event(2.0 * LEASE_S, ClaimDue([1])),
      Event(3.0 * LEASE_S, ClaimDue([1])), Event(FIFTH, ClaimDue([1])),
      Event(FIFTH, StartPost(map[1 := 4], 7, FIFTH, FIFTH, FIFTH)),
      Event(5.0 * LEASE_S, Exhaust),
      Event(5.0 * LEASE_S, WriteBack(map[1 := 4], 7, GiveBack(why, after))) ]
  }

  ghost function ReopenWorld(why: string, after: Option<int>, i: nat): World {
    if i == 0 then World(map[], map[], {}, [], 0.0)
    else if i == 1 then OneRow(0, 0.0, [], 0.0)
    else if i <= 6 then
      OneRow(i - 1, LEASE_S * ((i - 1) as real), Lapsed(i - 1), LEASE_S * ((i - 2) as real))
    else if i == 7 then OneRow(5, 5.0 * LEASE_S, FifthPosted(), FIFTH)
    else if i == 8 then World(map[1 := GivenUp()], map[], {}, FifthPosted(), 5.0 * LEASE_S)
    else Apply(World(map[1 := GivenUp()], map[], {}, FifthPosted(), 5.0 * LEASE_S), ReopenEvents(why, after)[8])
  }

  lemma LapsedClaim(why: string, after: Option<int>, i: nat)
    requires 1 <= i <= 5
    ensures Enabled(ReopenWorld(why, after, i), ReopenEvents(why, after)[i])
    ensures Apply(ReopenWorld(why, after, i), ReopenEvents(why, after)[i]) == ReopenWorld(why, after, i + 1)
  {
    var now := LEASE_S * ((i - 1) as real);
    assert ReopenEvents(why, after)[i] == Event(now, ClaimDue([1]));
    LapsedAgain(ReopenWorld(why, after, i), i, now);
    assert LEASE_S * (i as real) == now + LEASE_S;
  }

  lemma LapsedAgain(w: World, i: nat, now: real)
    requires 1 <= i <= 5 && now == LEASE_S * ((i - 1) as real) && w.clock <= now
    requires w == OneRow(i - 1, now, Lapsed(i - 1), w.clock)
    ensures Enabled(w, Event(now, ClaimDue([1])))
    ensures Apply(w, Event(now, ClaimDue([1]))) == OneRow(i, now + LEASE_S, Lapsed(i), now)
  {
    FirstClaim(w, now, i - 1, Lapsed(i - 1));
  }

  lemma FifthPost(why: string, after: Option<int>)
    ensures Enabled(ReopenWorld(why, after, 6), ReopenEvents(why, after)[6])
    ensures Apply(ReopenWorld(why, after, 6), ReopenEvents(why, after)[6]) == ReopenWorld(why, after, 7)
  {
    LapsedSize(4);
    var w, v := ReopenWorld(why, after, 6), Apply(ReopenWorld(why, after, 6), ReopenEvents(why, after)[6]);
    assert w.claims == Lapsed(4) + [Claim(1, 5, FIFTH, Outstanding, None)];
    assert v.claims == FifthPosted();
  }

  lemma ReopenStep(why: string, after: Option<int>, i: nat)
    requires i < 9
    ensures Enabled(ReopenWorld(why, after, i), ReopenEvents(why, after)[i])
    ensures Apply(ReopenWorld(why, after, i), ReopenEvents(why, after)[i]) == ReopenWorld(why, after, i + 1)
  {
    LapsedSize(4);
    if 1 <= i <= 5 {
      LapsedClaim(why, after, i);
    } else if i == 6 {
      FifthPost(why, after);
    } else if i == 7 {
      assert Exhausted(ReopenWorld(why, after, 7).rows[1], 5.0 * LEASE_S);
    }
  }

  lemma ReopenEnds(why: string, after: Option<int>)
    ensures var w := ReopenWorld(why, after, 7);
            1 in w.rows && Exhausted(w.rows[1], 5.0 * LEASE_S)
    ensures var w, e := ReopenWorld(why, after, 8), ReopenEvents(why, after)[8];
            Enabled(w, e) && Spent(w, 1) && w.rows[1].attempts == 5 && GivenBackOn(w, e, 1)
  {
    ReopenStep(why, after, 8);
    LapsedSize(4);
    var w, e := ReopenWorld(why, after, 8), ReopenEvents(why, after)[8];
    assert Tokens(w, e.step.holder)[1] == 5;
  }

  /**
   Whatever a 429 says, a run in which it reopens a row that exhaustion failed for good: five leases lapse,
   the statement gives the row up, and the fifth claim's slow 429 lands.
   */
  lemma ExhaustedRowReopens(why: string, after: Option<int>) returns (ws: seq<World>, es: seq<Event>)
    ensures Trace(ws, es) && |es| == 9 && es[7].step.Exhaust?
    ensures 1 in ws[7].rows && Exhausted(ws[7].rows[1], es[7].now)
    ensures Spent(ws[8], 1) && GivenBackOn(ws[8], es[8], 1) && !Spent(ws[9], 1)
    ensures 1 in ws[9].rows && ws[9].rows[1].attempts == 4
    ensures Open(ws[9].rows[1]) && DueBy(ws[9].rows[1], es[8].now)
  {
    es := ReopenEvents(why, after);
    ws := seq(10, i requires 0 <= i < 10 => ReopenWorld(why, after, i));
    forall i | 0 <= i < |es|
      ensures Enabled(ws[i], es[i]) && ws[i + 1] == Apply(ws[i], es[i])
    {
      ReopenStep(why, after, i);
    }
    assert ReopenWorld(why, after, 7) == ws[7] && ReopenWorld(why, after, 8) == ws[8];
    ReopenEnds(why, after);
    SpentStepIff(ws[8], es[8], 1);
  }
}
