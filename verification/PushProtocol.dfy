/**
 What every run of the push lane keeps: the fencing token, although a 429 takes it back, always
 singles out the newest claim that was not handed back.
 */
module PushProtocol {
  import opened Common
  import opened PushDelivery

  /** A claim whose attempt a 429 did not give back. */
  predicate Live(c: Claim) {
    !c.fate.HandedBack?
  }

  /** Claim `c` on row `id` is live and carries token `k`. */
  ghost predicate Carries(claims: seq<Claim>, c: nat, id: int, k: int) {
    c < |claims| && claims[c].row == id && Live(claims[c]) && claims[c].token == k
  }

  ghost predicate Carried(claims: seq<Claim>, id: int, k: int) {
    exists c: nat :: Carries(claims, c, id, k)
  }

  /** Every token is between 1 and the row's attempts, which never pass MAX_ATTEMPTS. */
  ghost predicate TokensBounded(w: World) {
    && (forall id :: id in w.rows ==> w.rows[id].attempts <= MAX_ATTEMPTS)
    && (forall c :: 0 <= c < |w.claims| ==> w.claims[c].row in w.rows && w.claims[c].token >= 1)
    && (forall c :: 0 <= c < |w.claims| && Live(w.claims[c]) ==>
          w.claims[c].token <= w.rows[w.claims[c].row].attempts)
  }

  /** Among the live claims of a row, a later one carries a larger token. */
  ghost predicate TokensIncrease(claims: seq<Claim>) {
    forall c, d :: 0 <= c < d < |claims| && claims[c].row == claims[d].row && Live(claims[c]) && Live(claims[d])
      ==> claims[c].token < claims[d].token
  }

  /** Each attempt spent and not given back belongs to a live claim. */
  ghost predicate TokensCover(w: World) {
    forall id, k :: id in w.rows && 1 <= k <= w.rows[id].attempts ==>
      Carried(w.claims, id, k)
  }

  ghost predicate TokensInv(w: World) {
    TokensBounded(w) && TokensIncrease(w.claims) && TokensCover(w)
  }

  // ---- one step --------------------------------------------------------------------------------

  lemma InitKeepsTokens(w: World)
    requires Init(w)
    ensures TokensInv(w)
  {}

  /** What a claim statement does to the history: `ids` get the next tokens, in order, after the old claims. */
  lemma ClaimAppends(w: World, e: Event)
    requires Enabled(w, e) && e.step.ClaimDue?
    ensures var v, n := Apply(w, e), |w.claims|;
            && |v.claims| == n + |e.step.ids|
            && (forall c :: 0 <= c < n ==> v.claims[c] == w.claims[c])
            && (forall c :: n <= c < |v.claims| ==>
                  v.claims[c]
                  == Claim(e.step.ids[c - n], w.rows[e.step.ids[c - n]].attempts + 1, e.now, Outstanding, None))
  {}

  lemma ClaimKeepsBounds(w: World, e: Event)
    requires TokensInv(w) && Enabled(w, e) && e.step.ClaimDue?
    ensures TokensBounded(Apply(w, e)) && TokensIncrease(Apply(w, e).claims)
  {
    ClaimAppends(w, e);
    var v, n := Apply(w, e), |w.claims|;
    forall c, d | 0 <= c < d < |v.claims| && v.claims[c].row == v.claims[d].row
                && Live(v.claims[c]) && Live(v.claims[d])
      ensures v.claims[c].token < v.claims[d].token
    {
      assert d >= n ==> v.claims[d].row == e.step.ids[d - n];
    }
  }

  lemma ClaimKeepsCover(w: World, e: Event)
    requires TokensInv(w) && Enabled(w, e) && e.step.ClaimDue?
    ensures TokensCover(Apply(w, e))
  {
    ClaimAppends(w, e);
    var v, n, ids := Apply(w, e), |w.claims|, e.step.ids;
    forall id, k | id in v.rows && 1 <= k <= v.rows[id].attempts
      ensures Carried(v.claims, id, k)
    {
      if k <= w.rows[id].attempts {
        assert Carried(w.claims, id, k);
        var c: nat :| Carries(w.claims, c, id, k);
        assert Carries(v.claims, c, id, k);
      } else {
        var j :| 0 <= j < |ids| && ids[j] == id;
        assert Carries(v.claims, n + j, id, k);
      }
    }
  }

  /** What a write-back does to one claim: its row, token and time stay, its fate may be set. */
  lemma WriteBackFates(w: World, e: Event, c: nat)
    requires Enabled(w, e) && e.step.WriteBack? && c < |w.claims|
    ensures |Apply(w, e).claims| == |w.claims|
    ensures Apply(w, e).claims[c]
         == if Holding(e.step.holder, w.claims, c) then w.claims[c].(fate := FateAfter(w, c, e.step.write, e.now))
            else w.claims[c]
  {}

  /** A write-back lowers a row's attempts only when its newest live claim is the one handed back. */
  lemma WriteBackAttempts(w: World, e: Event, id: int)
    requires Enabled(w, e) && e.step.WriteBack? && id in w.rows
    ensures var h := e.step.holder;
            var back := id in h && AsClaimed(w.rows[id], w.claims[h[id]].token) && GivesBack(e.step.write);
            Apply(w, e).rows[id].attempts
            == if back && w.rows[id].attempts > 0 then w.rows[id].attempts - 1 else w.rows[id].attempts
  {}

  lemma WriteBackKeepsBounds(w: World, e: Event)
    requires TokensInv(w) && Enabled(w, e) && e.step.WriteBack?
    ensures TokensBounded(Apply(w, e))
  {
    var v := Apply(w, e);
    forall id | id in v.rows ensures v.rows[id].attempts <= MAX_ATTEMPTS {
      WriteBackAttempts(w, e, id);
    }
    forall c | 0 <= c < |v.claims|
      ensures v.claims[c].row in v.rows && v.claims[c].token >= 1
      ensures Live(v.claims[c]) ==> v.claims[c].token <= v.rows[v.claims[c].row].attempts
    {
      WriteBackFates(w, e, c);
      WriteBackAttempts(w, e, w.claims[c].row);
      var id, h := w.claims[c].row, e.step.holder;
      if id in h && h[id] != c {
        assert w.claims[h[id]].row == id;
      }
    }
  }

  lemma WriteBackKeepsOrder(w: World, e: Event)
    requires TokensInv(w) && Enabled(w, e) && e.step.WriteBack?
    ensures TokensIncrease(Apply(w, e).claims)
  {}

  lemma WriteBackKeepsCover(w: World, e: Event)
    requires TokensInv(w) && Enabled(w, e) && e.step.WriteBack?
    ensures TokensCover(Apply(w, e))
  {
    var v, h := Apply(w, e), e.step.holder;
    forall id, k | id in v.rows && 1 <= k <= v.rows[id].attempts
      ensures Carried(v.claims, id, k)
    {
      WriteBackAttempts(w, e, id);
      assert Carried(w.claims, id, k);
      var c: nat :| Carries(w.claims, c, id, k);
      WriteBackFates(w, e, c);
      assert Carries(v.claims, c, id, k);
    }
  }

  lemma OtherStepsKeepBounds(w: World, e: Event)
    requires TokensInv(w) && Enabled(w, e) && !e.step.ClaimDue? && !e.step.WriteBack?
    ensures TokensBounded(Apply(w, e)) && TokensIncrease(Apply(w, e).claims)
  {
    var v := Apply(w, e);
    assert forall c :: 0 <= c < |w.claims| ==>
      v.claims[c].row == w.claims[c].row && v.claims[c].token == w.claims[c].token
      && v.claims[c].fate == w.claims[c].fate;
  }

  lemma OtherStepsKeepCover(w: World, e: Event)
    requires TokensInv(w) && Enabled(w, e) && !e.step.ClaimDue? && !e.step.WriteBack?
    ensures TokensCover(Apply(w, e))
  {
    var v := Apply(w, e);
    forall id, k | id in v.rows && 1 <= k <= v.rows[id].attempts
      ensures Carried(v.claims, id, k)
    {
      assert Carried(w.claims, id, k);
      var c: nat :| Carries(w.claims, c, id, k);
      assert Carries(v.claims, c, id, k);
    }
  }

  lemma StepKeepsTokens(w: World, e: Event)
    requires TokensInv(w) && Enabled(w, e)
    ensures TokensInv(Apply(w, e))
  {
    if e.step.ClaimDue? {
      ClaimKeepsBounds(w, e);
      ClaimKeepsCover(w, e);
    } else if e.step.WriteBack? {
      WriteBackKeepsBounds(w, e);
      WriteBackKeepsOrder(w, e);
      WriteBackKeepsCover(w, e);
    } else {
      OtherStepsKeepBounds(w, e);
      OtherStepsKeepCover(w, e);
    }
  }

  lemma {:induction false} TokensAlways(ws: seq<World>, es: seq<Event>, i: nat)
    requires Trace(ws, es) && i < |ws|
    ensures TokensInv(ws[i])
  {
    if i == 0 {
      InitKeepsTokens(ws[0]);
    } else {
      TokensAlways(ws, es, i - 1);
      StepKeepsTokens(ws[i - 1], es[i - 1]);
    }
  }

  // ---- the fencing theorem ---------------------------------------------------------------------

  /** Every claim of this row granted after `c` was handed back by a 429. */
  ghost predicate NewestNotHandedBack(claims: seq<Claim>, c: nat)
    requires c < |claims|
  {
    forall d :: c < d < |claims| && claims[d].row == claims[c].row ==> claims[d].fate.HandedBack?
  }

  /**
   In every reachable state an outstanding claim's compare-and-set lands exactly when the row is
   still open and every later claim of that row was handed back.
   */
  lemma WriteLandsIffNewest(ws: seq<World>, es: seq<Event>, i: nat, c: nat)
    requires Trace(ws, es) && i < |ws|
    requires c < |ws[i].claims| && ws[i].claims[c].fate == Outstanding
    ensures ws[i].claims[c].row in ws[i].rows
    ensures AsClaimed(ws[i].rows[ws[i].claims[c].row], ws[i].claims[c].token)
       <==> Open(ws[i].rows[ws[i].claims[c].row]) && NewestNotHandedBack(ws[i].claims, c)
  {
    TokensAlways(ws, es, i);
    var w := ws[i];
    var me := w.claims[c];
    var row := w.rows[me.row];
    if me.token < row.attempts {
      assert Carried(w.claims, me.row, row.attempts);
      var d: nat :| Carries(w.claims, d, me.row, row.attempts);
      assert d > c;
    }
  }

  /** Outstanding claims of one row never share a token, and none exceeds the row's attempts. */
  lemma OutstandingTokensDistinct(ws: seq<World>, es: seq<Event>, i: nat, c: nat, d: nat)
    requires Trace(ws, es) && i < |ws|
    requires c < |ws[i].claims| && d < |ws[i].claims| && c != d
    requires ws[i].claims[c].row == ws[i].claims[d].row
    requires ws[i].claims[c].fate == ws[i].claims[d].fate == Outstanding
    ensures ws[i].claims[c].token != ws[i].claims[d].token
    ensures ws[i].claims[c].row in ws[i].rows
    ensures ws[i].claims[c].token <= ws[i].rows[ws[i].claims[c].row].attempts <= MAX_ATTEMPTS
  {
    TokensAlways(ws, es, i);
  }

  // ---- recorded outcomes -----------------------------------------------------------------------

  /** Event `e` writes claim `c` back and its compare-and-set lands. */
  ghost predicate Lands(w: World, e: Event, c: nat) {
    && e.step.WriteBack? && c < |w.claims| && Holding(e.step.holder, w.claims, c)
    && w.claims[c].row in w.rows && AsClaimed(w.rows[w.claims[c].row], w.claims[c].token)
  }

  /** A claim never changes its row, token or time, and once finished keeps its fate. */
  ghost predicate SameClaim(a: Claim, b: Claim) {
    a.row == b.row && a.token == b.token && a.at == b.at && (a.fate != Outstanding ==> a.fate == b.fate)
  }

  lemma {:induction false} ClaimsPersist(ws: seq<World>, es: seq<Event>, i: nat, j: nat, c: nat)
    requires Trace(ws, es) && i <= j < |ws| && c < |ws[i].claims|
    ensures c < |ws[j].claims| && SameClaim(ws[i].claims[c], ws[j].claims[c])
    decreases j - i
  {
    if i < j {
      ClaimsPersist(ws, es, i, j - 1, c);
      assert ws[j] == Apply(ws[j - 1], es[j - 1]);
    }
  }

  /**
   An outcome a claim recorded (sent, gone, skipped, retry or failed) is never overwritten by an
   older claim: every write that lands on the row afterwards belongs to a claim granted later.
   */
  lemma OlderNeverOverwrites(ws: seq<World>, es: seq<Event>, i: nat, j: nat, c: nat, d: nat)
    requires Trace(ws, es) && i < j < |es|
    requires Lands(ws[i], es[i], c) && !GivesBack(es[i].step.write)
    requires Lands(ws[j], es[j], d) && ws[j].claims[d].row == ws[i].claims[c].row
    ensures d > c
  {
    TokensAlways(ws, es, j);
    assert ws[i + 1] == Apply(ws[i], es[i]);
    assert ws[i + 1].claims[c].fate.Recorded?;
    ClaimsPersist(ws, es, i + 1, j, c);
    assert ws[j].claims[d].fate == Outstanding;
  }

  // ---- attempts are conserved ------------------------------------------------------------------

  /** Claims granted on a row. */
  ghost function Granted(claims: seq<Claim>, id: int): nat {
    if claims == [] then 0
    else Granted(claims[..|claims| - 1], id) + (if claims[|claims| - 1].row == id then 1 else 0)
  }

  /** Claims of a row handed back by a 429. */
  ghost function GivenBack(claims: seq<Claim>, id: int): nat {
    if claims == [] then 0
    else GivenBack(claims[..|claims| - 1], id)
         + (if claims[|claims| - 1].row == id && claims[|claims| - 1].fate.HandedBack? then 1 else 0)
  }

  lemma {:induction false} CountsAppend(a: seq<Claim>, b: seq<Claim>, id: int)
    ensures Granted(a + b, id) == Granted(a, id) + Granted(b, id)
    ensures GivenBack(a + b, id) == GivenBack(a, id) + GivenBack(b, id)
  {
    if b == [] {
      assert a + b == a;
    } else {
      CountsAppend(a, b[..|b| - 1], id);
      assert (a + b)[..|a + b| - 1] == a + b[..|b| - 1];
    }
  }

  /** Rewriting fates: granted counts stay; one row's given-back count grows by its claims that turned. */
  lemma {:induction false} CountsRewrite(a: seq<Claim>, b: seq<Claim>, id: int, c: int)
    requires |a| == |b|
    requires forall k :: 0 <= k < |a| ==> a[k].row == b[k].row
    requires forall k :: 0 <= k < |a| && a[k].row == id && k != c ==> (a[k].fate.HandedBack? <==> b[k].fate.HandedBack?)
    requires 0 <= c < |a| ==> a[c].row == id && !a[c].fate.HandedBack? && b[c].fate.HandedBack?
    ensures Granted(b, id) == Granted(a, id)
    ensures GivenBack(b, id) == GivenBack(a, id) + (if 0 <= c < |a| then 1 else 0)
  {
    if a != [] {
      var n := |a| - 1;
      CountsRewrite(a[..n], b[..n], id, c);
    }
  }

  lemma {:induction false} FreshClaimsCount(ids: seq<int>, made: seq<Claim>, id: int)
    requires |made| == |ids|
    requires forall k :: 0 <= k < |ids| ==> made[k].row == ids[k] && made[k].fate == Outstanding
    requires forall j, k :: 0 <= j < k < |ids| ==> ids[j] != ids[k]
    ensures Granted(made, id) == (if id in ids then 1 else 0)
    ensures GivenBack(made, id) == 0
  {
    if ids != [] {
      var n := |ids| - 1;
      FreshClaimsCount(ids[..n], made[..n], id);
      assert id in ids <==> id in ids[..n] || id == ids[n];
    }
  }

  ghost predicate Conserved(w: World) {
    forall id :: id in w.rows ==> w.rows[id].attempts == Granted(w.claims, id) - GivenBack(w.claims, id)
  }

  lemma {:induction false} NoClaimsNoCount(claims: seq<Claim>, id: int)
    requires forall c :: 0 <= c < |claims| ==> claims[c].row != id
    ensures Granted(claims, id) == 0 && GivenBack(claims, id) == 0
  {
    if claims != [] {
      NoClaimsNoCount(claims[..|claims| - 1], id);
    }
  }

  lemma WriteBackConserves(w: World, e: Event, id: int)
    requires TokensInv(w) && Enabled(w, e) && e.step.WriteBack? && id in w.rows
    requires w.rows[id].attempts == Granted(w.claims, id) - GivenBack(w.claims, id)
    ensures Apply(w, e).rows[id].attempts
         == Granted(Apply(w, e).claims, id) - GivenBack(Apply(w, e).claims, id)
  {
    var v := Apply(w, e);
    var h := e.step.holder;
    var back := id in h && AsClaimed(w.rows[id], w.claims[h[id]].token) && GivesBack(e.step.write);
    WriteBackAttempts(w, e, id);
    forall c | 0 <= c < |w.claims|
      ensures v.claims[c].row == w.claims[c].row
      ensures w.claims[c].row == id && !(back && c == h[id]) ==>
        (w.claims[c].fate.HandedBack? <==> v.claims[c].fate.HandedBack?)
      ensures back && c == h[id] ==> !w.claims[c].fate.HandedBack? && v.claims[c].fate.HandedBack?
    {
      WriteBackFates(w, e, c);
    }
    CountsRewrite(w.claims, v.claims, id, if back then h[id] else -1);
  }

  lemma ClaimConserves(w: World, e: Event, id: int)
    requires Enabled(w, e) && e.step.ClaimDue? && id in w.rows
    requires w.rows[id].attempts == Granted(w.claims, id) - GivenBack(w.claims, id)
    ensures Apply(w, e).rows[id].attempts
         == Granted(Apply(w, e).claims, id) - GivenBack(Apply(w, e).claims, id)
  {
    ClaimAppends(w, e);
    var claims, after := w.claims, Apply(w, e).claims;
    var made := after[|claims|..];
    assert after == claims + made;
    assert Granted(after, id) == Granted(claims, id) + Granted(made, id)
        && GivenBack(after, id) == GivenBack(claims, id) + GivenBack(made, id) by {
      CountsAppend(claims, made, id);
    }
    assert Granted(made, id) == (if id in e.step.ids then 1 else 0) && GivenBack(made, id) == 0 by {
      FreshClaimsCount(e.step.ids, made, id);
    }
  }

  lemma StepConserves(w: World, e: Event, id: int)
    requires TokensInv(w) && Conserved(w) && Enabled(w, e) && id in Apply(w, e).rows
    ensures Apply(w, e).rows[id].attempts
         == Granted(Apply(w, e).claims, id) - GivenBack(Apply(w, e).claims, id)
  {
    var v := Apply(w, e);
    match e.step
    case FanOut(added, _, _) =>
      if id == added {
        NoClaimsNoCount(w.claims, id);
      }
    case Exhaust =>
    case ClaimDue(_) => ClaimConserves(w, e, id);
    case StartPost(_, _, _, _, _) => CountsRewrite(w.claims, v.claims, id, -1);
    case WriteBack(_, _, _) => WriteBackConserves(w, e, id);
  }

  lemma {:induction false} ConservedAlways(ws: seq<World>, es: seq<Event>, i: nat)
    requires Trace(ws, es) && i < |ws|
    ensures Conserved(ws[i])
  {
    if i > 0 {
      TokensAlways(ws, es, i - 1);
      ConservedAlways(ws, es, i - 1);
      forall id | id in ws[i].rows
        ensures ws[i].rows[id].attempts == Granted(ws[i].claims, id) - GivenBack(ws[i].claims, id)
      {
        StepConserves(ws[i - 1], es[i - 1], id);
      }
    }
  }

  /** A row's attempts are its claims granted minus its 429 give-backs: claimed at most 5 times plus the 429s. */
  lemma AttemptsAreClaimsMinusGiveBacks(ws: seq<World>, es: seq<Event>, i: nat, id: int)
    requires Trace(ws, es) && i < |ws| && id in ws[i].rows
    ensures ws[i].rows[id].attempts == Granted(ws[i].claims, id) - GivenBack(ws[i].claims, id)
    ensures 0 <= ws[i].rows[id].attempts <= MAX_ATTEMPTS
    ensures Granted(ws[i].claims, id) <= MAX_ATTEMPTS + GivenBack(ws[i].claims, id)
  {
    ConservedAlways(ws, es, i);
    TokensAlways(ws, es, i);
  }

  // ---- what no later statement touches ---------------------------------------------------------

  lemma {:induction false} RowsPersist(ws: seq<World>, es: seq<Event>, i: nat, j: nat, id: int)
    requires Trace(ws, es) && i <= j < |ws| && id in ws[i].rows
    ensures id in ws[j].rows && ws[j].rows[id].device == ws[i].rows[id].device
    decreases j - i
  {
    if i < j {
      RowsPersist(ws, es, i, j - 1, id);
      assert ws[j] == Apply(ws[j - 1], es[j - 1]);
    }
  }

  /** Sent, gone and skipped are absorbing: the whole row stays as it is, whatever runs afterwards. */
  lemma {:induction false} ClosedRowsNeverChange(ws: seq<World>, es: seq<Event>, i: nat, j: nat, id: int)
    requires Trace(ws, es) && i <= j < |ws| && id in ws[i].rows && !Open(ws[i].rows[id])
    ensures id in ws[j].rows && ws[j].rows[id] == ws[i].rows[id]
    decreases j - i
  {
    if i < j {
      ClosedRowsNeverChange(ws, es, i, j - 1, id);
      assert ws[j] == Apply(ws[j - 1], es[j - 1]);
    }
  }

  /** A row failed for good by a claim's own outcome: never due again, and its claim is spent. */
  ghost predicate FailedByItsClaim(w: World, id: int) {
    && id in w.rows && w.rows[id].status == Failed && w.rows[id].next == Never
    && forall c :: 0 <= c < |w.claims| && w.claims[c].row == id && w.claims[c].fate == Outstanding ==>
         w.claims[c].token != w.rows[id].attempts
  }

  lemma StepKeepsFailed(w: World, e: Event, id: int)
    requires Enabled(w, e) && FailedByItsClaim(w, id)
    ensures FailedByItsClaim(Apply(w, e), id) && Apply(w, e).rows[id] == w.rows[id]
  {
    var v := Apply(w, e);
    forall c | 0 <= c < |v.claims| && v.claims[c].row == id && v.claims[c].fate == Outstanding
      ensures v.claims[c].token != v.rows[id].attempts
    {
      assert c < |w.claims| && w.claims[c].row == id && w.claims[c].fate == Outstanding;
    }
  }

  /** After a failed outcome, or a fifth retry, lands, no later statement changes the row at all. */
  lemma {:induction false} FailedByItsClaimNeverChanges(ws: seq<World>, es: seq<Event>, i: nat, j: nat, id: int)
    requires Trace(ws, es) && i <= j < |ws| && FailedByItsClaim(ws[i], id)
    ensures FailedByItsClaim(ws[j], id) && ws[j].rows[id] == ws[i].rows[id]
    decreases j - i
  {
    if i < j {
      FailedByItsClaimNeverChanges(ws, es, i, j - 1, id);
      StepKeepsFailed(ws[j - 1], es[j - 1], id);
    }
  }

  /** Where FailedByItsClaim starts: the outcome 'failed', or 'retry' on the fifth attempt, landing. */
  lemma FailureIsFinal(ws: seq<World>, es: seq<Event>, i: nat, c: nat)
    requires Trace(ws, es) && i < |es| && Lands(ws[i], es[i], c) && es[i].step.write.Posted?
    requires es[i].step.write.outcome.FailedOut?
          || (es[i].step.write.outcome.RetryOut? && ws[i].claims[c].token == MAX_ATTEMPTS)
    ensures FailedByItsClaim(ws[i + 1], ws[i].claims[c].row)
  {
    TokensAlways(ws, es, i);
    assert ws[i + 1] == Apply(ws[i], es[i]);
    var id, v := ws[i].claims[c].row, ws[i + 1];
    forall d | 0 <= d < |v.claims| && v.claims[d].row == id && v.claims[d].fate == Outstanding
      ensures v.claims[d].token != v.rows[id].attempts
    {
      assert d != c;
      assert ws[i].claims[d].token != ws[i].claims[c].token;
    }
  }
}
