/**
 A pasted ad link (api/ingest.py) and the drain that fetches it, over one ad's rows: its queue row, its
 listing, and the drain's latest completion. Each statement is one atomic step (complete_detail's delete
 and log are one transaction), and a poll is three reads with any steps in between.
 */
module IngestPoll {
  import opened Common

  const QUEUE_PRIORITY_NEW := 0
  const QUEUE_PRIORITY_VERIFY := -2
  const FAILURE_GIVE_UP_THRESHOLD := 5
  const MAX_URL_LENGTH := 512

  /** listing_detail_queue: claimed is `claimed_at IS NOT NULL`. */
  datatype QueueRow = QueueRow(attempts: nat, claimed: bool, givenUp: bool, priority: int)

  datatype Outcome = Written | Gone | Flipped | GaveUp

  /** `listing`: the held ad's is_active. `latest`: the last detail_queue_completions outcome. */
  datatype Ad = Ad(queue: Option<QueueRow>, listing: Option<bool>, latest: Option<Outcome>)

  // ---- the statements --------------------------------------------------------------------------

  function Max(a: int, b: int): int {
    if a < b then b else a
  }

  function Min(a: int, b: int): int {
    if a < b then a else b
  }

  /** Refetch is enqueue_location_refetch; Recheck is the presence checks' re-arm of given-up rows. */
  datatype Step =
    | Enqueue(priority: int)
    | Refetch
    | Recheck
    | RaisePriority(priority: int)
    | Rearm
    | Claim
    | Release
    | Fail
    | Land
    | Finish(outcome: Outcome)
    | Delist
    | Prune

  /** One statement on the queue row. */
  function OnRow(row: QueueRow, step: Step): QueueRow {
    match step
    case Enqueue(p) => if row.claimed then row else row.(priority := Max(row.priority, p))
    case Refetch =>
      if row.claimed then row
      else row.(givenUp := false, attempts := 0, priority := Min(row.priority, QUEUE_PRIORITY_VERIFY))
    case Recheck =>
      if row.claimed || !row.givenUp then row
      else row.(givenUp := false, attempts := 0, priority := Min(row.priority, QUEUE_PRIORITY_VERIFY))
    case RaisePriority(p) => if row.claimed || row.givenUp || row.priority >= p then row else row.(priority := p)
    case Rearm =>
      if row.givenUp
      then row.(givenUp := false, attempts := 0, priority := Max(row.priority, QUEUE_PRIORITY_NEW)) else row
    case Claim => if row.claimed || row.givenUp then row else row.(claimed := true)
    case Release => row.(claimed := false)
    case Fail => QueueRow(row.attempts + 1, false, row.attempts + 1 >= FAILURE_GIVE_UP_THRESHOLD, row.priority)
    case _ => row
  }

  function Apply(ad: Ad, step: Step): Ad {
    match step
    case Land => ad.(listing := Some(true))
    case Delist => if ad.listing.Some? then ad.(listing := Some(false)) else ad
    case Prune => ad.(latest := None)
    case Finish(outcome) => if ad.queue.Some? then ad.(queue := None, latest := Some(outcome)) else ad
    case Enqueue(p) =>
      if ad.queue.None? then ad.(queue := Some(QueueRow(0, false, false, p)))
      else ad.(queue := Some(OnRow(ad.queue.value, step)))
    case Refetch =>
      if ad.queue.None? then ad.(queue := Some(QueueRow(0, false, false, QUEUE_PRIORITY_VERIFY)))
      else ad.(queue := Some(OnRow(ad.queue.value, step)))
    case _ =>
      if ad.queue.None? then ad
      else
        var row := OnRow(ad.queue.value, step);
        ad.(queue := Some(row),
            latest := if step == Fail && row.givenUp && !ad.queue.value.givenUp then Some(GaveUp) else ad.latest)
  }

  function Run(ad: Ad, steps: seq<Step>): Ad
    decreases |steps|
  {
    if steps == [] then ad else Run(Apply(ad, steps[0]), steps[1..])
  }

  // ---- the poll --------------------------------------------------------------------------------

  datatype Answer = Refused | Held(active: bool) | Queued | Failed | GoneAnswer | NotLanded

  /** ingest_state's branches over what it read. */
  function AnswerOf(queue: Option<QueueRow>, listing: Option<bool>, latest: Option<Outcome>): Answer {
    if listing.Some? then Held(listing.value)
    else if queue.Some? then (if queue.value.givenUp then Failed else Queued)
    else if latest == Some(Gone) then GoneAnswer
    else NotLanded
  }

  /** A poll: `a`, `b` and `c` are the steps before the queue read, the listing read and the completion read. */
  function Poll(ad: Ad, a: seq<Step>, b: seq<Step>, c: seq<Step>): Answer {
    var first := Run(ad, a);
    var second := Run(first, b);
    var third := Run(second, c);
    AnswerOf(first.queue, second.listing, third.latest)
  }

  /** What each answer says of the three reads: held by the listing, else by the queue row, else by the verdict. */
  lemma PollAnswersIff(ad: Ad, a: seq<Step>, b: seq<Step>, c: seq<Step>)
    ensures var answer := Poll(ad, a, b, c);
            var queue, listing := Run(ad, a).queue, Run(Run(ad, a), b).listing;
            var latest := Run(Run(Run(ad, a), b), c).latest;
            && answer != Refused
            && (forall active :: answer == Held(active) <==> listing == Some(active))
            && (answer == Failed <==> listing == None && queue.Some? && queue.value.givenUp)
            && (answer == Queued <==> listing == None && queue.Some? && !queue.value.givenUp)
            && (answer == GoneAnswer <==> listing == None && queue == None && latest == Some(Gone))
            && (answer == NotLanded <==> listing == None && queue == None && latest != Some(Gone))
  {}

  /** The same reads with the listing before the queue. */
  function SwappedPoll(ad: Ad, a: seq<Step>, b: seq<Step>, c: seq<Step>): Answer {
    var first := Run(ad, a);
    var second := Run(first, b);
    var third := Run(second, c);
    AnswerOf(second.queue, first.listing, third.latest)
  }

  // ---- an ad that lands ------------------------------------------------------------------------

  /** The drain commits the listing before it deletes the queue row. */
  ghost predicate Lands(ad: Ad, steps: seq<Step>)
    decreases |steps|
  {
    steps == [] || ((steps[0].Finish? ==> ad.listing.Some?) && Lands(Apply(ad, steps[0]), steps[1..]))
  }

  lemma {:induction false} RunJoins(ad: Ad, a: seq<Step>, b: seq<Step>)
    ensures Run(ad, a + b) == Run(Run(ad, a), b)
    decreases |a|
  {
    if a == [] {
      assert a + b == b;
    } else {
      assert (a + b)[1..] == a[1..] + b;
      RunJoins(Apply(ad, a[0]), a[1..], b);
    }
  }

  lemma {:induction false} LandsInParts(ad: Ad, a: seq<Step>, b: seq<Step>)
    requires Lands(ad, a + b)
    ensures Lands(ad, a) && Lands(Run(ad, a), b)
    decreases |a|
  {
    if a == [] {
      assert a + b == b;
    } else {
      assert (a + b)[1..] == a[1..] + b;
      LandsInParts(Apply(ad, a[0]), a[1..], b);
    }
  }

  lemma {:induction false} ListingStays(ad: Ad, steps: seq<Step>)
    requires ad.listing.Some?
    ensures Run(ad, steps).listing.Some?
    decreases |steps|
  {
    if steps != [] {
      ListingStays(Apply(ad, steps[0]), steps[1..]);
    }
  }

  lemma {:induction false} QueuedOrHeld(ad: Ad, steps: seq<Step>)
    requires Lands(ad, steps) && (ad.queue.Some? || ad.listing.Some?)
    ensures Run(ad, steps).queue.Some? || Run(ad, steps).listing.Some?
    decreases |steps|
  {
    if steps != [] {
      QueuedOrHeld(Apply(ad, steps[0]), steps[1..]);
    }
  }

  /** Whatever runs between its reads, a poll of an enqueued ad that lands gives no terminal verdict against it. */
  lemma PollNeverLosesALandingAd(ad: Ad, a: seq<Step>, b: seq<Step>, c: seq<Step>)
    requires ad.queue.Some? || ad.listing.Some?
    requires Lands(ad, a + b + c)
    ensures Poll(ad, a, b, c) != NotLanded && Poll(ad, a, b, c) != GoneAnswer
    ensures Run(ad, a).listing.Some? ==> Poll(ad, a, b, c).Held?
  {
    LandsInParts(ad, a + b, c);
    LandsInParts(ad, a, b);
    QueuedOrHeld(ad, a);
    if Run(ad, a).listing.Some? {
      ListingStays(Run(ad, a), b);
    }
  }

  /** Read the listing first and every queued ad has a bad run: it lands between the two reads. */
  lemma SwappedPollLosesIt(row: QueueRow, latest: Option<Outcome>)
    ensures var ad, landing := Ad(Some(row), None, latest), [Land, Finish(Written)];
            Lands(ad, [] + landing + []) && Run(ad, landing).listing == Some(true)
            && SwappedPoll(ad, [], landing, []) == NotLanded
  {}

  // ---- an ad the drain once found gone ---------------------------------------------------------

  /** The drain's order with gone verdicts: only a gone verdict finishes an ad without a listing. */
  ghost predicate LandsOrGone(ad: Ad, steps: seq<Step>)
    decreases |steps|
  {
    steps == []
    || ((steps[0].Finish? && steps[0].outcome != Gone ==> ad.listing.Some?)
        && steps[0] != Prune && LandsOrGone(Apply(ad, steps[0]), steps[1..]))
  }

  ghost predicate Known(ad: Ad) {
    ad.queue.Some? || ad.listing.Some? || ad.latest == Some(Gone)
  }

  /** The two statements that insert a queue row. */
  predicate Inserts(step: Step) {
    step.Enqueue? || step.Refetch?
  }

  ghost predicate AnyEnqueue(steps: seq<Step>) {
    exists k :: 0 <= k < |steps| && Inserts(steps[k])
  }

  lemma EnqueueInParts(b: seq<Step>, c: seq<Step>)
    ensures AnyEnqueue(b) || AnyEnqueue(c) ==> AnyEnqueue(b + c)
  {
    if k :| 0 <= k < |b| && Inserts(b[k]) {
      assert Inserts((b + c)[k]);
    }
    if k :| 0 <= k < |c| && Inserts(c[k]) {
      assert Inserts((b + c)[|b| + k]);
    }
  }

  lemma {:induction false} StaysKnown(ad: Ad, steps: seq<Step>)
    requires LandsOrGone(ad, steps) && Known(ad)
    ensures Known(Run(ad, steps))
    decreases |steps|
  {
    if steps != [] {
      StaysKnown(Apply(ad, steps[0]), steps[1..]);
    }
  }

  lemma {:induction false} UnqueuedStaysUnqueued(ad: Ad, steps: seq<Step>)
    requires LandsOrGone(ad, steps) && ad.queue.None? && !AnyEnqueue(steps)
    ensures Run(ad, steps).queue.None? && Run(ad, steps).latest == ad.latest
    decreases |steps|
  {
    if steps != [] {
      assert !Inserts(steps[0]);
      assert forall k :: 0 <= k < |steps[1..]| ==> steps[1..][k] == steps[k + 1];
      UnqueuedStaysUnqueued(Apply(ad, steps[0]), steps[1..]);
    }
  }

  lemma {:induction false} LandsOrGoneInParts(ad: Ad, a: seq<Step>, b: seq<Step>)
    requires LandsOrGone(ad, a + b)
    ensures LandsOrGone(ad, a) && LandsOrGone(Run(ad, a), b)
    decreases |a|
  {
    if a == [] {
      assert a + b == b;
    } else {
      assert (a + b)[1..] == a[1..] + b;
      LandsOrGoneInParts(Apply(ad, a[0]), a[1..], b);
    }
  }

  /** A known ad is answered not-landed only when it was gone, unheld, and is queued again while the poll reads. */
  lemma NotLandedNeedsARequeue(ad: Ad, a: seq<Step>, b: seq<Step>, c: seq<Step>)
    requires Known(ad) && LandsOrGone(ad, a + b + c) && Poll(ad, a, b, c) == NotLanded
    ensures Run(ad, a) == Ad(None, None, Some(Gone))
    ensures AnyEnqueue(b + c)
  {
    LandsOrGoneInParts(ad, a + b, c);
    LandsOrGoneInParts(ad, a, b);
    RunJoins(ad, a, b);
    StaysKnown(ad, a);
    var first := Run(ad, a);
    if first.listing.Some? {
      ListingStays(first, b);
    }
    if !AnyEnqueue(b + c) {
      EnqueueInParts(b, c);
      UnqueuedStaysUnqueued(first, b);
      UnqueuedStaysUnqueued(Run(first, b), c);
    }
  }

  /** ... and then it can be answered so, though the ad lands. */
  lemma RequeuedAdCanBeLost(priority: int)
    ensures var ad, again := Ad(None, None, Some(Gone)), [Enqueue(priority), Land, Finish(Written)];
            LandsOrGone(ad, [] + [] + again) && Run(ad, again).listing == Some(true)
            && Poll(ad, [], [], again) == NotLanded
  {
    var ad, again := Ad(None, None, Some(Gone)), [Enqueue(priority), Land, Finish(Written)];
    assert [] + [] + again == again;
    var queued := Apply(ad, Enqueue(priority));
    var landed := Apply(queued, Land);
    assert again[1..] == [Land, Finish(Written)] && [Land, Finish(Written)][1..] == [Finish(Written)];
    assert [Finish(Written)][1..] == [];
    assert Run(ad, again) == Run(queued, [Land, Finish(Written)]) == Run(landed, [Finish(Written)])
        == Apply(landed, Finish(Written));
    assert LandsOrGone(landed, [Finish(Written)]);
    assert LandsOrGone(queued, [Land, Finish(Written)]);
  }

  /** Whatever may still run, a poll of a known ad is safe unless its first read is of a gone, unheld, unqueued ad. */
  lemma PollSafeIff(first: Ad)
    requires Known(first)
    ensures (forall b, c :: LandsOrGone(first, b + c) ==> Poll(first, [], b, c) != NotLanded)
       <==> first != Ad(None, None, Some(Gone))
  {
    if first == Ad(None, None, Some(Gone)) {
      var again := [Enqueue(QUEUE_PRIORITY_NEW), Land, Finish(Written)];
      RequeuedAdCanBeLost(QUEUE_PRIORITY_NEW);
      assert [] + [] + again == [] + again;
      assert LandsOrGone(first, [] + again) && Poll(first, [], [], again) == NotLanded;
    } else {
      forall b, c | LandsOrGone(first, b + c) ensures Poll(first, [], b, c) != NotLanded {
        if Poll(first, [], b, c) == NotLanded {
          assert [] + b + c == b + c;
          NotLandedNeedsARequeue(first, [], b, c);
        }
      }
    }
  }

  // ---- the paste -------------------------------------------------------------------------------

  predicate Live(queue: Option<QueueRow>) {
    queue.Some? && !queue.value.givenUp
  }

  /** A row the drain will serve, at no less than acquisition priority unless it is already claimed. */
  predicate Served(queue: Option<QueueRow>) {
    Live(queue) && (queue.value.claimed || queue.value.priority >= QUEUE_PRIORITY_NEW)
  }

  /** _arm's writes by the row it read, with `between` running after the enqueue. */
  function Armed(ad: Ad, read: Option<QueueRow>, between: seq<Step>): Ad {
    if Live(read) then (if read.value.claimed then ad else Apply(ad, RaisePriority(QUEUE_PRIORITY_NEW)))
    else
      var queued := Run(Apply(ad, Enqueue(QUEUE_PRIORITY_NEW)), between);
      if read.Some? then Apply(queued, Rearm) else queued
  }

  datatype Pasted = Pasted(answer: Answer, after: Ad)

  /**
   ingest_link over an ad, from its queue read on: `b` runs before its listing read, `c` before its
   completion read, `d` before its first write and `e` between its writes.
   */
  function Paste(ad: Ad, b: seq<Step>, c: seq<Step>, d: seq<Step>, e: seq<Step>): Pasted {
    var second := Run(ad, b);
    var third := Run(second, c);
    if second.listing.Some? then
      Pasted(Held(second.listing.value), if second.listing.value then second else Armed(Run(third, d), ad.queue, e))
    else if ad.queue.None? && third.latest == Some(Gone) then Pasted(GoneAnswer, third)
    else Pasted(Queued, Armed(Run(third, d), ad.queue, e))
  }

  /**
   Whatever ran since the read, the writes leave a row the drain will serve exactly when: the row was
   read live, and is live still, served already if it was read claimed; or it was read missing, and is
   missing or live; or it was read given up.
   */
  lemma {:induction false} ArmServesIff(read: Option<QueueRow>, now: Ad)
    ensures Served(Armed(now, read, []).queue) <==>
              if Live(read) then Live(now.queue) && (read.value.claimed ==> Served(now.queue))
              else read.Some? || now.queue.None? || Live(now.queue)
  {}

  /** So for a paste: when its answer 'queued', or 'held' of an inactive ad, leaves a row the drain will serve. */
  lemma {:induction false} PasteServesIff(ad: Ad, b: seq<Step>, c: seq<Step>, d: seq<Step>)
    requires Paste(ad, b, c, d, []).answer == Queued || Paste(ad, b, c, d, []).answer == Held(false)
    ensures var now := Run(Run(Run(ad, b), c), d).queue;
            Served(Paste(ad, b, c, d, []).after.queue) <==>
              if Live(ad.queue) then Live(now) && (ad.queue.value.claimed ==> Served(now))
              else ad.queue.Some? || now.None? || Live(now)
  {
    ArmServesIff(ad.queue, Run(Run(Run(ad, b), c), d));
  }

  /** With steps between the two writes of a row read given up: it must be there, given up again or served. */
  lemma {:induction false} RearmServesIff(read: QueueRow, now: Ad, between: seq<Step>)
    requires read.givenUp
    ensures var queued := Run(Apply(now, Enqueue(QUEUE_PRIORITY_NEW)), between);
            Served(Armed(now, Some(read), between).queue) <==>
              queued.queue.Some? && (queued.queue.value.givenUp || Served(queued.queue))
  {}

  /** Arming from the row as it stands serves the ad; arming again changes nothing: a live row only gains priority. */
  lemma {:induction false} ArmServes(ad: Ad)
    ensures var armed := Armed(ad, ad.queue, []);
            Served(armed.queue) && armed.listing == ad.listing && armed.latest == ad.latest
            && Armed(armed, armed.queue, []) == armed
    ensures Live(ad.queue) ==>
              var row := Armed(ad, ad.queue, []).queue.value;
              row == ad.queue.value.(priority := row.priority) && row.priority >= ad.queue.value.priority
  {}

  /** An uninterrupted paste: held, gone, or a row the drain will serve; nothing but the queue row changes. */
  lemma {:induction false} PasteAlone(ad: Ad)
    ensures var p := Paste(ad, [], [], [], []);
            && (if ad.listing.Some? then p.answer == Held(ad.listing.value) else !p.answer.Held?)
            && (p.answer == GoneAnswer <==> ad.listing.None? && ad.queue.None? && ad.latest == Some(Gone))
            && (p.answer == Queued || p.answer == Held(false) ==> Served(p.after.queue))
            && (p.answer == GoneAnswer || p.answer == Held(true) ==> p.after == ad)
            && p.after == ad.(queue := p.after.queue)
  {
    assert Run(ad, []) == ad;
    ArmServes(ad);
  }

  /** A row read live that the drain finishes before the write: the answer is queued, with nothing left to serve. */
  lemma {:induction false} PastedRowFinished(row: QueueRow, latest: Option<Outcome>)
    requires !row.givenUp
    ensures var ad, landing := Ad(Some(row), None, latest), [Land, Finish(Written)];
            Lands(ad, landing)
            && Paste(ad, [], [], landing, []) == Pasted(Queued, Ad(None, Some(true), Some(Written)))
  {
    var landed := Ad(Some(row), Some(true), latest);
    assert [Land, Finish(Written)][1..] == [Finish(Written)] && [Finish(Written)][1..] == [];
    assert Run(landed, [Finish(Written)]) == Ad(None, Some(true), Some(Written));
    assert Lands(landed, [Finish(Written)]);
  }

  /** ... or fails for the fifth time: the answer is queued, and the row is given up. */
  lemma {:induction false} PastedRowGivenUp(row: QueueRow, latest: Option<Outcome>)
    requires !row.givenUp && row.attempts + 1 >= FAILURE_GIVE_UP_THRESHOLD
    ensures var p := Paste(Ad(Some(row), None, latest), [], [], [Fail], []);
            p.answer == Queued && p.after.queue.Some? && p.after.queue.value.givenUp && p.after.listing.None?
  {
    assert [Fail][1..] == [];
  }

  /** Still, a paste answered queued never loses an ad that lands: afterwards it is queued or held. */
  lemma {:induction false} PasteNeverLosesALandingAd(ad: Ad, b: seq<Step>, c: seq<Step>, d: seq<Step>, e: seq<Step>)
    requires Paste(ad, b, c, d, e).answer == Queued && Lands(ad, b + c + d)
    requires Lands(Apply(Run(Run(Run(ad, b), c), d), Enqueue(QUEUE_PRIORITY_NEW)), e)
    ensures var after := Paste(ad, b, c, d, e).after;
            after.queue.Some? || after.listing.Some?
  {
    LandsInParts(ad, b + c, d);
    LandsInParts(ad, b, c);
    var now := Run(Run(Run(ad, b), c), d);
    if ad.queue.Some? {
      QueuedOrHeld(ad, b);
      QueuedOrHeld(Run(ad, b), c);
      RunJoins(ad, b, c);
      QueuedOrHeld(Run(Run(ad, b), c), d);
    }
    QueuedOrHeld(Apply(now, Enqueue(QUEUE_PRIORITY_NEW)), e);
  }

  class Rows {
    var queue: Option<QueueRow>
    var listing: Option<bool>
    var latest: Option<Outcome>

    ghost function View(): Ad
      reads this
    {
      Ad(queue, listing, latest)
    }

    constructor ()
      ensures View() == Ad(None, None, None)
    {
      queue, listing, latest := None, None, None;
    }

    /** What the drain and other requests commit between two of this request's statements. */
    method Others(steps: seq<Step>)
      modifies this
      ensures View() == Run(old(View()), steps)
    {
      var after := Run(Ad(queue, listing, latest), steps);
      queue, listing, latest := after.queue, after.listing, after.latest;
    }

    /** One queue statement. */
    method Exec(step: Step)
      requires step.Enqueue? || step.RaisePriority? || step.Rearm?
      modifies this`queue
      ensures View() == Apply(old(View()), step)
    {
      if queue.Some? {
        queue := Some(OnRow(queue.value, step));
      } else if step.Enqueue? {
        queue := Some(QueueRow(0, false, false, step.priority));
      }
    }

    /** _arm: a live row only gains priority, anything else is enqueued, and rearmed when it was given up. */
    method Arm(read: Option<QueueRow>, between: seq<Step>) returns (now: Option<QueueRow>)
      modifies this
      ensures View() == Armed(old(View()), read, between)
      ensures now == if Live(read) then read else queue
    {
      if read.Some? && !read.value.givenUp {
        if !read.value.claimed {
          Exec(RaisePriority(QUEUE_PRIORITY_NEW));
        }
        return read;
      }
      Exec(Enqueue(QUEUE_PRIORITY_NEW));
      Others(between);
      if read.Some? {
        Exec(Rearm);
      }
      now := queue;
    }

    /** ingest_link, once the paste is resolved to an ad or refused, with others' steps between its statements. */
    method IngestLink(resolved: bool, b: seq<Step>, c: seq<Step>, d: seq<Step>, e: seq<Step>) returns (answer: Answer)
      modifies this
      ensures !resolved ==> answer == Refused && View() == old(View())
      ensures resolved ==> Pasted(answer, View()) == Paste(old(View()), b, c, d, e)
    {
      if !resolved {
        return Refused;
      }
      var read := queue;
      Others(b);
      var held := listing;
      if held.Some? && held.value {
        return Held(true);
      }
      Others(c);
      if held.None? && read.None? && latest == Some(Gone) {
        return GoneAnswer;
      }
      Others(d);
      answer := if held.Some? then Held(false) else Queued;
      read := Arm(read, e);
    }

    /** ingest_state, with others' steps between its three reads. */
    method IngestState(known: bool, nativeLength: nat, b: seq<Step>, c: seq<Step>) returns (answer: Answer)
      modifies this
      ensures answer == Refused <==> !known || nativeLength > MAX_URL_LENGTH
      ensures answer != Refused ==> answer == Poll(old(View()), [], b, c)
    {
      if !known {
        return Refused;
      }
      if nativeLength > MAX_URL_LENGTH {
        return Refused;
      }
      var read := queue;
      Others(b);
      var held := listing;
      if held.Some? {
        return Held(held.value);
      }
      if read.Some? {
        if read.value.givenUp {
          return Failed;
        }
        return Queued;
      }
      Others(c);
      if latest == Some(Gone) {
        return GoneAnswer;
      }
      return NotLanded;
    }
  }
}
