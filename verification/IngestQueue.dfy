/**
 What the queue statements keep of an ad's row (scraper/db.py: enqueue, re-arm, claim, release, fail and
 complete): five failures give it up, a claimed row is nobody else's, and each give-up is on record.
 */
module IngestQueue {
  import opened Common
  import opened IngestPoll

  // ---- one statement -----------------------------------------------------------------------------

  ghost predicate LargerOf(m: int, a: int, b: int) {
    m >= a && m >= b && (m == a || m == b)
  }

  ghost predicate SmallerOf(m: int, a: int, b: int) {
    m <= a && m <= b && (m == a || m == b)
  }

  /** Live again with five tries ahead; its priority is the only other column that may change. */
  ghost predicate Rearmed(row: QueueRow, v: QueueRow) {
    v == row.(attempts := 0, givenUp := false, priority := v.priority)
  }

  /** One statement on the queue row, column by column. */
  lemma StatementExact(row: QueueRow, step: Step)
    ensures var v := OnRow(row, step);
            match step
            case Enqueue(p) =>
              if row.claimed then v == row
              else v == row.(priority := v.priority) && LargerOf(v.priority, row.priority, p)
            case Refetch =>
              if row.claimed then v == row else Rearmed(row, v) && SmallerOf(v.priority, row.priority, -2)
            case Recheck =>
              if row.claimed || !row.givenUp then v == row
              else Rearmed(row, v) && SmallerOf(v.priority, row.priority, -2)
            case RaisePriority(p) =>
              if row.claimed || row.givenUp then v == row
              else v == row.(priority := v.priority) && LargerOf(v.priority, row.priority, p)
            case Rearm =>
              if row.givenUp then Rearmed(row, v) && LargerOf(v.priority, row.priority, 0) else v == row
            case Claim => v == row.(claimed := row.claimed || !row.givenUp)
            case Release => v == row.(claimed := false)
            case Fail =>
              v == row.(attempts := row.attempts + 1, claimed := false, givenUp := v.givenUp)
              && (v.givenUp <==> row.attempts >= 4)
            case _ => v == row
  {}

  ghost predicate OnlyQueues(step: Step) {
    step.Enqueue? || step.Refetch? || step.Recheck? || step.RaisePriority? || step.Rearm? || step.Claim?
    || step.Release? || step.Fail?
  }

  /** One statement on an ad: what is inserted, what is deleted, what is logged, and what is left alone. */
  lemma AdExact(ad: Ad, step: Step)
    ensures OnlyQueues(step) && ad.queue.Some? ==> Apply(ad, step).queue == Some(OnRow(ad.queue.value, step))
    ensures OnlyQueues(step) && ad.queue.None? ==>
              Apply(ad, step).queue == if step.Enqueue? then Some(QueueRow(0, false, false, step.priority))
                                       else if step.Refetch? then Some(QueueRow(0, false, false, -2)) else None
    ensures OnlyQueues(step) ==>
              var crossed := step.Fail? && ad.queue.Some? && !ad.queue.value.givenUp && ad.queue.value.attempts >= 4;
              Apply(ad, step)
              == ad.(queue := Apply(ad, step).queue, latest := if crossed then Some(GaveUp) else ad.latest)
    ensures step.Finish? ==>
              Apply(ad, step) == if ad.queue.Some? then ad.(queue := None, latest := Some(step.outcome)) else ad
    ensures step.Land? ==> Apply(ad, step) == ad.(listing := Some(true))
    ensures step.Delist? ==> Apply(ad, step) == ad.(listing := if ad.listing.Some? then Some(false) else None)
    ensures step.Prune? ==> Apply(ad, step) == ad.(latest := None)
  {}

  // ---- every run ---------------------------------------------------------------------------------

  /** A row is given up exactly when its five tries are spent, and then nobody holds it. */
  ghost predicate WellKept(ad: Ad) {
    ad.queue.Some? ==>
      (ad.queue.value.givenUp <==> ad.queue.value.attempts >= 5) && !(ad.queue.value.givenUp && ad.queue.value.claimed)
  }

  lemma {:induction false} WellKeptAlways(ad: Ad, steps: seq<Step>)
    requires WellKept(ad)
    ensures WellKept(Run(ad, steps))
    decreases |steps|
  {
    if steps != [] {
      WellKeptAlways(Apply(ad, steps[0]), steps[1..]);
    }
  }

  ghost function Fails(steps: seq<Step>): nat {
    if steps == [] then 0 else (if steps[0].Fail? then 1 else 0) + Fails(steps[1..])
  }

  /** No statement re-arms the row, and the drain does not complete it. */
  ghost predicate StaysQueued(steps: seq<Step>) {
    forall k :: 0 <= k < |steps| ==>
      !steps[k].Refetch? && !steps[k].Recheck? && !steps[k].Rearm? && !steps[k].Finish?
  }

  /** Every failure since a row was armed counts, and nothing else does: the fifth gives it up. */
  lemma {:induction false} GivenUpIffFiveFails(ad: Ad, steps: seq<Step>)
    requires WellKept(ad) && ad.queue.Some? && StaysQueued(steps)
    ensures var row := Run(ad, steps).queue;
            row.Some? && row.value.attempts == ad.queue.value.attempts + Fails(steps)
            && (row.value.givenUp <==> ad.queue.value.attempts + Fails(steps) >= 5)
    decreases |steps|
  {
    if steps != [] {
      var next := Apply(ad, steps[0]);
      assert !steps[0].Refetch? && !steps[0].Recheck? && !steps[0].Rearm? && !steps[0].Finish?;
      assert forall k :: 0 <= k < |steps[1..]| ==> steps[1..][k] == steps[k + 1];
      GivenUpIffFiveFails(next, steps[1..]);
    }
  }

  /** The claimer itself hands the row back, fails it, or completes it. */
  ghost predicate ByTheClaimer(step: Step) {
    step.Release? || step.Fail? || step.Finish?
  }

  /** Until its claimer is done with it, no statement of anyone else changes a claimed row. */
  lemma {:induction false} ClaimedRowIsUndisturbed(ad: Ad, steps: seq<Step>)
    requires WellKept(ad) && ad.queue.Some? && ad.queue.value.claimed
    requires forall k :: 0 <= k < |steps| ==> !ByTheClaimer(steps[k])
    ensures Run(ad, steps).queue == ad.queue
    decreases |steps|
  {
    if steps != [] {
      assert !ByTheClaimer(steps[0]);
      assert forall k :: 0 <= k < |steps[1..]| ==> steps[1..][k] == steps[k + 1];
      ClaimedRowIsUndisturbed(Apply(ad, steps[0]), steps[1..]);
    }
  }

  /** A row the drain gave up is on record as given up. */
  ghost predicate GiveUpLogged(ad: Ad) {
    ad.queue.Some? && ad.queue.value.givenUp ==> ad.latest == Some(GaveUp)
  }

  /** Until the log is pruned, each row given up is on record. */
  lemma {:induction false} GiveUpsAreLogged(ad: Ad, steps: seq<Step>)
    requires GiveUpLogged(ad) && forall k :: 0 <= k < |steps| ==> !steps[k].Prune?
    ensures GiveUpLogged(Run(ad, steps))
    decreases |steps|
  {
    if steps != [] {
      assert !steps[0].Prune?;
      assert forall k :: 0 <= k < |steps[1..]| ==> steps[1..][k] == steps[k + 1];
      GiveUpsAreLogged(Apply(ad, steps[0]), steps[1..]);
    }
  }
}
