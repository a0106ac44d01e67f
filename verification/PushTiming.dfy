/**
 The lease in time: when two POSTs can carry the same delivery row.

 A claimer reads its clock only after the claim statement has answered, and reads the badge count
 between the budget check and the POST. `Latency` is those two waits together; the code bounds
 neither. The lease separates the POSTs of one row exactly when Latency stays within
 LEASE_S - CLAIM_BUDGET_S - POST_LIMIT_S = 20.95 s.
 */
module PushTiming {
  import opened Common
  import opened PushDelivery
  import opened PushProtocol

  const SLACK_S: real := LEASE_S - CLAIM_BUDGET_S - POST_LIMIT_S

  function Latency(c: Claim): real
    requires c.post.Some?
  {
    (c.post.value.seen - c.at) + (c.post.value.start - c.post.value.checked)
  }

  /** Every POST of the history waited at most `s` on its claim's answer and its badge read. */
  ghost predicate LatencyWithin(w: World, s: real) {
    forall c :: 0 <= c < |w.claims| && w.claims[c].post.Some? ==> Latency(w.claims[c]) <= s
  }

  /** No two POSTs carrying the same row overlap in time. */
  ghost predicate PostsApart(w: World) {
    forall c, d | 0 <= c < d < |w.claims| && w.claims[c].row == w.claims[d].row
                && w.claims[c].post.Some? && w.claims[d].post.Some? ::
      w.claims[c].post.value.end <= w.claims[d].post.value.start
      || w.claims[d].post.value.end <= w.claims[c].post.value.start
  }

  // ---- invariants ------------------------------------------------------------------------------

  /** The moment a claim was written back. */
  function FinishedAt(c: Claim): real
    requires c.fate != Outstanding
  {
    match c.fate
    case HandedBack(at) => at
    case Recorded(_, at) => at
    case Missed(at) => at
  }

  /** A POST lies after its claim, inside its budget and its bound, and before the claim's write-back. */
  ghost predicate PostsTimed(w: World) {
    forall c :: 0 <= c < |w.claims| ==>
      && w.claims[c].at <= w.clock
      && (w.claims[c].fate != Outstanding ==> FinishedAt(w.claims[c]) <= w.clock)
      && (w.claims[c].post.Some? ==>
            var p := w.claims[c].post.value;
            && w.claims[c].at <= p.seen <= p.checked <= p.start <= p.end
            && p.checked - p.seen < CLAIM_BUDGET_S && p.end <= p.start + POST_LIMIT_S
            && (w.claims[c].fate != Outstanding ==> p.end <= FinishedAt(w.claims[c])))
  }

  /** While the claim holding a row's current token is outstanding, the row is not due before its lease ends. */
  ghost predicate LeaseHeld(w: World) {
    forall c | 0 <= c < |w.claims| && w.claims[c].fate == Outstanding && w.claims[c].row in w.rows
             && w.claims[c].token == w.rows[w.claims[c].row].attempts ::
      w.rows[w.claims[c].row].next.Never? || w.rows[w.claims[c].row].next.t >= w.claims[c].at + LEASE_S
  }

  /** A later claim of a row came after the earlier one's lease, or after its write-back. */
  ghost predicate ClaimsSpaced(w: World) {
    forall c, d :: 0 <= c < d < |w.claims| && w.claims[c].row == w.claims[d].row ==>
      w.claims[d].at >= w.claims[c].at + LEASE_S
      || (w.claims[c].fate != Outstanding && FinishedAt(w.claims[c]) <= w.claims[d].at)
  }

  ghost predicate TimeInv(w: World) {
    PostsTimed(w) && LeaseHeld(w) && ClaimsSpaced(w)
  }

  // ---- one step --------------------------------------------------------------------------------

  /** At the moment a row is claimed, each of its earlier claims is finished or past its lease. */
  lemma DueMeansEarlierOver(w: World, now: real, c: nat)
    requires TokensInv(w) && TimeInv(w) && w.clock <= now
    requires c < |w.claims| && DueBy(w.rows[w.claims[c].row], now)
    ensures now >= w.claims[c].at + LEASE_S
         || (w.claims[c].fate != Outstanding && FinishedAt(w.claims[c]) <= now)
  {
    var me := w.claims[c];
    if me.fate == Outstanding && me.token < w.rows[me.row].attempts {
      assert Carried(w.claims, me.row, w.rows[me.row].attempts);
      var d: nat :| Carries(w.claims, d, me.row, w.rows[me.row].attempts);
      assert d > c;
    }
  }

  lemma ClaimKeepsTime(w: World, e: Event)
    requires TokensInv(w) && TimeInv(w) && Enabled(w, e) && e.step.ClaimDue?
    ensures TimeInv(Apply(w, e))
  {
    ClaimAppends(w, e);
    var v, n := Apply(w, e), |w.claims|;
    forall c, d | 0 <= c < d < |v.claims| && v.claims[c].row == v.claims[d].row
      ensures v.claims[d].at >= v.claims[c].at + LEASE_S
           || (v.claims[c].fate != Outstanding && FinishedAt(v.claims[c]) <= v.claims[d].at)
    {
      if d >= n {
        assert v.claims[d].row == e.step.ids[d - n];
        if c < n {
          DueMeansEarlierOver(w, e.now, c);
        }
      }
    }
  }

  lemma WriteBackKeepsPosts(w: World, e: Event)
    requires TimeInv(w) && Enabled(w, e) && e.step.WriteBack?
    ensures PostsTimed(Apply(w, e)) && ClaimsSpaced(Apply(w, e))
  {
    var v := Apply(w, e);
    forall c | 0 <= c < |w.claims|
      ensures v.claims[c].row == w.claims[c].row && v.claims[c].at == w.claims[c].at
           && v.claims[c].post == w.claims[c].post
      ensures v.claims[c].fate == w.claims[c].fate
           || (w.claims[c].fate == Outstanding && v.claims[c].fate != Outstanding && FinishedAt(v.claims[c]) == e.now
               && (w.claims[c].post.Some? ==> w.claims[c].post.value.end <= e.now))
    {
      WriteBackFates(w, e, c);
    }
  }

  lemma WriteBackKeepsLease(w: World, e: Event)
    requires TokensInv(w) && TimeInv(w) && Enabled(w, e) && e.step.WriteBack?
    ensures LeaseHeld(Apply(w, e))
  {
    var v, h := Apply(w, e), e.step.holder;
    forall c | 0 <= c < |v.claims| && v.claims[c].fate == Outstanding && v.claims[c].row in v.rows
      && v.claims[c].token == v.rows[v.claims[c].row].attempts
      ensures v.rows[v.claims[c].row].next.Never? || v.rows[v.claims[c].row].next.t >= v.claims[c].at + LEASE_S
    {
      WriteBackFates(w, e, c);
      var id := w.claims[c].row;
      WriteBackAttempts(w, e, id);
      assert w.claims[c].fate == Outstanding && w.claims[c].token <= w.rows[id].attempts;
      if id in h && AsClaimed(w.rows[id], w.claims[h[id]].token) {
        // The write landed on another claim's token, so `c` cannot hold the row's attempts afterwards.
        assert w.claims[h[id]].row == id && h[id] != c;
        assert c < h[id] ==> w.claims[c].token < w.claims[h[id]].token;
        LandedOnOtherToken(w, e, c);
      }
    }
  }

  /** A landed hand-back leaves its own predecessor on top; that claim's lease ended before the newer claim began. */
  lemma LandedOnOtherToken(w: World, e: Event, c: nat)
    requires TokensInv(w) && TimeInv(w) && Enabled(w, e) && e.step.WriteBack?
    requires c < |w.claims| && w.claims[c].fate == Outstanding
    requires w.claims[c].row in e.step.holder && e.step.holder[w.claims[c].row] != c
    requires AsClaimed(w.rows[w.claims[c].row], w.claims[e.step.holder[w.claims[c].row]].token)
    requires w.claims[c].token == Apply(w, e).rows[w.claims[c].row].attempts
    ensures Apply(w, e).rows[w.claims[c].row].next.Never?
         || Apply(w, e).rows[w.claims[c].row].next.t >= w.claims[c].at + LEASE_S
  {}

  lemma QuietStepsKeepTime(w: World, e: Event)
    requires TokensInv(w) && TimeInv(w) && Enabled(w, e) && (e.step.FanOut? || e.step.Exhaust?)
    ensures TimeInv(Apply(w, e))
  {}

  lemma StartPostKeepsTime(w: World, e: Event)
    requires TokensInv(w) && TimeInv(w) && Enabled(w, e) && e.step.StartPost?
    ensures TimeInv(Apply(w, e))
  {
    var v := Apply(w, e);
    forall c | 0 <= c < |w.claims|
      ensures v.claims[c] == w.claims[c]
           || (w.claims[c].fate == Outstanding && w.claims[c].post == None
               && v.claims[c] == w.claims[c].(post := Some(Span(e.step.seen, e.step.checked, e.now, e.step.end)))
               && w.claims[c].at <= e.step.seen)
    {
    }
  }

  lemma StepKeepsTime(w: World, e: Event)
    requires TokensInv(w) && TimeInv(w) && Enabled(w, e)
    ensures TimeInv(Apply(w, e))
  {
    match e.step
    case ClaimDue(_) => ClaimKeepsTime(w, e);
    case WriteBack(_, _, _) => WriteBackKeepsPosts(w, e); WriteBackKeepsLease(w, e);
    case StartPost(_, _, _, _, _) => StartPostKeepsTime(w, e);
    case _ => QuietStepsKeepTime(w, e);
  }

  lemma {:induction false} TimeAlways(ws: seq<World>, es: seq<Event>, i: nat)
    requires Trace(ws, es) && i < |ws|
    ensures TimeInv(ws[i])
  {
    if i > 0 {
      TimeAlways(ws, es, i - 1);
      TokensAlways(ws, es, i - 1);
      StepKeepsTime(ws[i - 1], es[i - 1]);
    }
  }

  // ---- exhaustion ------------------------------------------------------------------------------

  /** On an open row with a fifth claim, either that claim is still outstanding or the row is never due again. */
  ghost predicate FifthClaimOpen(w: World) {
    forall c | 0 <= c < |w.claims| && Live(w.claims[c]) && w.claims[c].token == MAX_ATTEMPTS
             && w.claims[c].row in w.rows && Open(w.rows[w.claims[c].row]) ::
      w.claims[c].fate == Outstanding || w.rows[w.claims[c].row].next == Never
  }

  lemma WriteBackKeepsThisFifth(w: World, e: Event, c: nat)
    requires TokensInv(w) && FifthClaimOpen(w) && Enabled(w, e) && e.step.WriteBack?
    requires c < |w.claims| && Live(Apply(w, e).claims[c]) && Apply(w, e).claims[c].token == MAX_ATTEMPTS
    requires w.claims[c].row in w.rows && Open(Apply(w, e).rows[w.claims[c].row])
    ensures Apply(w, e).claims[c].fate == Outstanding || Apply(w, e).rows[w.claims[c].row].next == Never
  {
    WriteBackFates(w, e, c);
    WriteBackAttempts(w, e, w.claims[c].row);
    assert w.rows[w.claims[c].row].attempts == MAX_ATTEMPTS;
  }

  lemma WriteBackKeepsFifth(w: World, e: Event)
    requires TokensInv(w) && FifthClaimOpen(w) && Enabled(w, e) && e.step.WriteBack?
    ensures FifthClaimOpen(Apply(w, e))
  {
    var v := Apply(w, e);
    forall c | 0 <= c < |v.claims| && Live(v.claims[c]) && v.claims[c].token == MAX_ATTEMPTS
             && v.claims[c].row in v.rows && Open(v.rows[v.claims[c].row])
      ensures v.claims[c].fate == Outstanding || v.rows[v.claims[c].row].next == Never
    {
      WriteBackKeepsThisFifth(w, e, c);
    }
  }

  lemma {:induction false} FifthClaimAlways(ws: seq<World>, es: seq<Event>, i: nat)
    requires Trace(ws, es) && i < |ws|
    ensures FifthClaimOpen(ws[i])
  {
    if i > 0 {
      FifthClaimAlways(ws, es, i - 1);
      TokensAlways(ws, es, i - 1);
      var w, e := ws[i - 1], es[i - 1];
      if e.step.WriteBack? {
        WriteBackKeepsFifth(w, e);
      } else if e.step.ClaimDue? {
        ClaimAppends(w, e);
      } else {
        assert forall c :: 0 <= c < |w.claims| ==> ws[i].claims[c].(post := None) == w.claims[c].(post := None);
      }
    }
  }

  /** A row fails by exhaustion only after its fifth live claim's lease ran out with nothing recorded. */
  lemma ExhaustedMeansFifthClaimLapsed(ws: seq<World>, es: seq<Event>, i: nat, id: int, now: real)
    requires Trace(ws, es) && i < |ws| && id in ws[i].rows
    requires Exhausted(ws[i].rows[id], now)
    ensures exists c: nat :: Carries(ws[i].claims, c, id, MAX_ATTEMPTS)
              && ws[i].claims[c].fate == Outstanding && ws[i].claims[c].at + LEASE_S <= now
  {
    TokensAlways(ws, es, i);
    TimeAlways(ws, es, i);
    FifthClaimAlways(ws, es, i);
    assert Carried(ws[i].claims, id, MAX_ATTEMPTS);
    var c: nat :| Carries(ws[i].claims, c, id, MAX_ATTEMPTS);
    assert ws[i].claims[c].fate == Outstanding;
  }

  // ---- the lease theorem -----------------------------------------------------------------------

  /** In every run whose claim answers and badge reads fit the slack, no two POSTs of a row overlap. */
  lemma PostsNeverOverlap(ws: seq<World>, es: seq<Event>, i: nat)
    requires Trace(ws, es) && i < |ws| && LatencyWithin(ws[i], SLACK_S)
    ensures PostsApart(ws[i])
  {
    TimeAlways(ws, es, i);
  }

  /** A row on device 7 with one claim outstanding per attempt, the claims leased and POSTed as given. */
  ghost function OneRow(attempts: nat, next: real, claims: seq<Claim>, clock: real): World {
    World(map[1 := Delivery(7, Pending, attempts, At(next), None, None, None)], map[], {}, claims, clock)
  }

  /** POSTing from `start`, after an answer that took `l` seconds. */
  ghost function Late(l: real, start: real): Claim {
    Claim(1, 1, 0.0, Outstanding, Some(Span(l, start, start, start + POST_LIMIT_S)))
  }

  lemma FirstClaim(w: World, now: real, attempts: nat, claims: seq<Claim>)
    requires w == OneRow(attempts, now, claims, w.clock) && w.clock <= now && attempts < MAX_ATTEMPTS
    ensures Enabled(w, Event(now, ClaimDue([1])))
    ensures Apply(w, Event(now, ClaimDue([1])))
         == OneRow(attempts + 1, now + LEASE_S, claims + [Claim(1, attempts + 1, now, Outstanding, None)], now)
  {
    assert Devices(w, [1]) == {7} by { assert [1][0] == 1; }
  }

  lemma LatePost(l: real, start: real)
    requires 0.0 <= l <= start <= LEASE_S && start - l < CLAIM_BUDGET_S
    ensures var w := OneRow(1, LEASE_S, [Claim(1, 1, 0.0, Outstanding, None)], 0.0);
            var e := Event(start, StartPost(map[1 := 0], 7, l, start, start + POST_LIMIT_S));
            Enabled(w, e) && Apply(w, e) == OneRow(1, LEASE_S, [Late(l, start)], start)
  {}

  lemma SecondPost(l: real, start: real)
    ensures var second := Claim(1, 2, LEASE_S, Outstanding, None);
            var w := OneRow(2, LEASE_S + LEASE_S, [Late(l, start), second], LEASE_S);
            var e := Event(LEASE_S, StartPost(map[1 := 1], 7, LEASE_S, LEASE_S, LEASE_S));
            Enabled(w, e) && Apply(w, e)
              == OneRow(2, LEASE_S + LEASE_S,
                        [Late(l, start), second.(post := Some(Span(LEASE_S, LEASE_S, LEASE_S, LEASE_S)))], LEASE_S)
  {}

  ghost function LateEvents(l: real, start: real): seq<Event> {
    [ Event(0.0, FanOut(1, 7, false)), Event(0.0, ClaimDue([1])),
      Event(start, StartPost(map[1 := 0], 7, l, start, start + POST_LIMIT_S)),
      Event(LEASE_S, ClaimDue([1])),
      Event(LEASE_S, StartPost(map[1 := 1], 7, LEASE_S, LEASE_S, LEASE_S)) ]
  }

  ghost function LateWorld(l: real, start: real, i: nat): World {
    var first, second := Claim(1, 1, 0.0, Outstanding, None), Claim(1, 2, LEASE_S, Outstanding, None);
    if i == 0 then World(map[], map[], {}, [], 0.0)
    else if i == 1 then OneRow(0, 0.0, [], 0.0)
    else if i == 2 then OneRow(1, LEASE_S, [first], 0.0)
    else if i == 3 then OneRow(1, LEASE_S, [Late(l, start)], start)
    else if i == 4 then OneRow(2, LEASE_S + LEASE_S, [Late(l, start), second], LEASE_S)
    else OneRow(2, LEASE_S + LEASE_S,
                [Late(l, start), second.(post := Some(Span(LEASE_S, LEASE_S, LEASE_S, LEASE_S)))], LEASE_S)
  }

  lemma LateStep(l: real, start: real, i: nat)
    requires 0.0 <= l <= start <= LEASE_S && start - l < CLAIM_BUDGET_S && i < 5
    ensures Enabled(LateWorld(l, start, i), LateEvents(l, start)[i])
    ensures Apply(LateWorld(l, start, i), LateEvents(l, start)[i]) == LateWorld(l, start, i + 1)
  {
    if i == 1 {
      FirstClaim(LateWorld(l, start, 1), 0.0, 0, []);
      assert [] + [Claim(1, 1, 0.0, Outstanding, None)] == [Claim(1, 1, 0.0, Outstanding, None)];
    } else if i == 2 {
      LatePost(l, start);
    } else if i == 3 {
      FirstClaim(LateWorld(l, start, 3), LEASE_S, 1, [Late(l, start)]);
      var second := Claim(1, 2, LEASE_S, Outstanding, None);
      assert [Late(l, start)] + [second] == [Late(l, start), second];
    } else if i == 4 {
      SecondPost(l, start);
    }
  }

  /** A claim whose answer took longer than the slack can still be POSTing when its row is claimed again. */
  lemma OverlapAtLatency(l: real) returns (ws: seq<World>, es: seq<Event>)
    requires SLACK_S < l <= 21.0
    ensures Trace(ws, es) && |es| == 5
    ensures LatencyWithin(ws[5], l) && !PostsApart(ws[5])
  {
    var start := l + CLAIM_BUDGET_S - (l - SLACK_S) / 2.0;
    es := LateEvents(l, start);
    ws := seq(6, i requires 0 <= i < 6 => LateWorld(l, start, i));
    forall i | 0 <= i < |es| ensures Enabled(ws[i], es[i]) && ws[i + 1] == Apply(ws[i], es[i]) {
      LateStep(l, start, i);
    }
    assert ws[5].claims[0] == Late(l, start);
    assert ws[5].claims[0].post.value.end > ws[5].claims[1].post.value.start;
  }

  /** The code's lease separates the POSTs of a row in all runs with waits up to `s` iff `s` is at most 20.95 s. */
  lemma LeaseHoldsIffLatencyFitsSlack(s: real)
    requires s >= 0.0
    ensures (forall ws: seq<World>, es: seq<Event> ::
               Trace(ws, es) && LatencyWithin(ws[|es|], s) ==> PostsApart(ws[|es|]))
       <==> s <= SLACK_S
  {
    if s <= SLACK_S {
      forall ws: seq<World>, es: seq<Event> | Trace(ws, es) && LatencyWithin(ws[|es|], s)
        ensures PostsApart(ws[|es|])
      {
        PostsNeverOverlap(ws, es, |es|);
      }
    } else {
      var ws, es := OverlapAtLatency(if s <= 21.0 then s else 21.0);
      assert Trace(ws, es) && LatencyWithin(ws[|es|], s) && !PostsApart(ws[|es|]);
    }
  }
}
