/**
 The push delivery ledger (api/push_delivery.py): one row per (event, device), leased by a claim,
 written back by a compare-and-set on the claimed (id, attempts) pair.

 Every SQL statement, and `finalize`'s two-statement transaction, is one atomic step. `World` is the
 two tables plus a history of the claims granted so far; the history is never read by a statement.
 Times are seconds.
 */
module PushDelivery {
  import opened Common

  const MAX_ATTEMPTS: nat := 5
  const MAX_DEVICES: nat := 10
  const MAX_ROWS: nat := 200
  const LEASE_S: real := 120.0
  const CLAIM_BUDGET_S: real := 90.0
  const DEFAULT_HOLD_S: int := 60
  /** A POST is bounded by its connect (3.05 s) and read (6 s) timeouts. */
  const POST_LIMIT_S: real := 9.05

  // ---- rows ------------------------------------------------------------------------------------

  datatype Status = Pending | Sent | Skipped | Gone | Failed

  /** `next_attempt_at`: a timestamp, or 'infinity'. */
  datatype Due = At(t: real) | Never

  datatype Delivery = Delivery(
    device: int, status: Status, attempts: nat, next: Due,
    reason: Option<string>, sentAt: Option<real>, messageId: Option<string>)

  /** The compare-and-set's and the claim's `status IN ('pending', 'failed')`. */
  predicate Open(d: Delivery) {
    d.status == Pending || d.status == Failed
  }

  predicate DueBy(d: Delivery, now: real) {
    d.next.At? && d.next.t <= now
  }

  /** push.Outcome: the answer to one POST. */
  datatype Outcome =
    | SentOut(messageId: Option<string>)
    | GoneOut(reason: string)
    | ThrottledOut(reason: string, retryAfter: Option<int>)
    | RetryOut(reason: string)
    | FailedOut(reason: string)

  /** What a write after the claim records: a skip before any POST, or a POST's outcome. */
  datatype Write = Skip(reason: string) | Posted(outcome: Outcome)

  predicate GivesBack(w: Write) {
    w.Posted? && w.outcome.ThrottledOut?
  }

  function Pow2(n: nat): (p: nat)
    ensures p >= 1
  {
    if n == 0 then 1 else 2 * Pow2(n - 1)
  }

  /** The SET list of the statement a write runs: SKIP, SENT, GONE, THROTTLED, RETRY, FAIL. */
  function Record(d: Delivery, w: Write, now: real): Delivery {
    match w
    case Skip(why) => d.(status := Skipped, reason := Some(why))
    case Posted(SentOut(id)) => d.(status := Sent, sentAt := Some(now), messageId := id, reason := None)
    case Posted(GoneOut(why)) => d.(status := Gone, reason := Some(why))
    case Posted(ThrottledOut(why, _)) =>
      d.(attempts := if d.attempts > 0 then d.attempts - 1 else 0, next := At(now), reason := Some(why))
    case Posted(RetryOut(why)) =>
      d.(status := Failed, reason := Some(why),
         next := if d.attempts >= MAX_ATTEMPTS then Never else At(now + 60.0 * (Pow2(d.attempts) as real)))
    case Posted(FailedOut(why)) => d.(status := Failed, reason := Some(why), next := Never)
  }

  // ---- statements ------------------------------------------------------------------------------

  /** `_AS_CLAIMED`: the row is still open and still carries the attempts that were claimed. */
  predicate AsClaimed(d: Delivery, token: nat) {
    d.attempts == token && Open(d)
  }

  /** One UPDATE ... FROM unnest(ids, attempts) under `_AS_CLAIMED`. */
  function CompareAndSet(rows: map<int, Delivery>, batch: map<int, nat>, w: Write, now: real): map<int, Delivery> {
    map id | id in rows ::
      if id in batch && AsClaimed(rows[id], batch[id]) then Record(rows[id], w, now) else rows[id]
  }

  /** EXHAUSTED_SQL's WHERE. */
  predicate Exhausted(d: Delivery, now: real) {
    Open(d) && d.attempts >= MAX_ATTEMPTS && DueBy(d, now)
  }

  /** EXHAUSTED_SQL: no token in the WHERE, attempts and an earlier reason kept. */
  function ExhaustRows(rows: map<int, Delivery>, now: real): map<int, Delivery> {
    map id | id in rows ::
      if Exhausted(rows[id], now) then
        rows[id].(status := Failed, next := Never,
                  reason := if rows[id].reason.Some? then rows[id].reason else Some("lease_expired"))
      else rows[id]
  }

  /** CLAIM_SQL's inner WHERE: open, due, attempts left, and the device not on hold. */
  predicate Claimable(d: Delivery, holds: map<int, real>, now: real) {
    Open(d) && DueBy(d, now) && d.attempts < MAX_ATTEMPTS
    && !(d.device in holds && holds[d.device] > now)
  }

  /** CLAIM_SQL's UPDATE: lease for two minutes, spend one attempt. */
  function LeaseRows(rows: map<int, Delivery>, ids: seq<int>, now: real): map<int, Delivery> {
    map id | id in rows ::
      if id in ids then rows[id].(next := At(now + LEASE_S), attempts := rows[id].attempts + 1) else rows[id]
  }

  function HoldSeconds(retryAfter: Option<int>): int {
    if retryAfter.Some? && retryAfter.value != 0 then retryAfter.value else DEFAULT_HOLD_S
  }

  /** HOLD_DEVICE_SQL: greatest(hold_until, now() + wait). */
  function HoldDevice(holds: map<int, real>, device: int, until: real): map<int, real> {
    if device in holds && holds[device] >= until then holds else holds[device := until]
  }

  function HoldsAfter(holds: map<int, real>, device: int, w: Write, now: real): map<int, real> {
    if GivesBack(w) then HoldDevice(holds, device, now + (HoldSeconds(w.outcome.retryAfter) as real)) else holds
  }

  function EndedAfter(ended: set<int>, device: int, w: Write): set<int> {
    if w.Posted? && w.outcome.GoneOut? then ended + {device} else ended
  }

  // ---- the protocol ----------------------------------------------------------------------------

  /** A claimer reads its rows back at `seen`, passes the budget check at `checked`, POSTs in [start, end]. */
  datatype Span = Span(seen: real, checked: real, start: real, end: real)

  /** Outstanding: not written back yet (or its process died). Missed: its write met a moved-on row. */
  datatype Fate =
    | Outstanding
    | HandedBack(at: real)
    | Recorded(write: Write, at: real)
    | Missed(at: real)

  datatype Claim = Claim(row: int, token: nat, at: real, fate: Fate, post: Option<Span>)

  datatype World = World(
    rows: map<int, Delivery>, holds: map<int, real>, ended: set<int>,
    claims: seq<Claim>, clock: real)

  /** `holder` names, for each row of a batch, the claim whose token the batch carries. */
  datatype Step =
    | FanOut(id: int, device: int, capped: bool)
    | Exhaust
    | ClaimDue(ids: seq<int>)
    | StartPost(holder: map<int, nat>, device: int, seen: real, checked: real, end: real)
    | WriteBack(holder: map<int, nat>, device: int, write: Write)

  datatype Event = Event(now: real, step: Step)

  predicate HoldsClaims(w: World, holder: map<int, nat>) {
    forall id :: id in holder ==>
      holder[id] < |w.claims| && w.claims[holder[id]].row == id && w.claims[holder[id]].fate == Outstanding
  }

  function Tokens(w: World, holder: map<int, nat>): map<int, nat>
    requires HoldsClaims(w, holder)
  {
    map id | id in holder :: w.claims[holder[id]].token
  }

  function Devices(w: World, ids: seq<int>): set<int>
    requires forall k :: 0 <= k < |ids| ==> ids[k] in w.rows
  {
    set k | 0 <= k < |ids| :: w.rows[ids[k]].device
  }

  /** When a statement of the pass may run. */
  predicate Enabled(w: World, e: Event) {
    && w.clock <= e.now
    && match e.step
       case FanOut(id, _, _) => id !in w.rows
       case Exhaust => true
       case ClaimDue(ids) =>
         && (forall k :: 0 <= k < |ids| ==> ids[k] in w.rows && Claimable(w.rows[ids[k]], w.holds, e.now))
         && (forall j, k :: 0 <= j < k < |ids| ==> ids[j] != ids[k])
         && |ids| <= MAX_ROWS && |Devices(w, ids)| <= MAX_DEVICES
       case StartPost(holder, device, seen, checked, end) =>
         && HoldsClaims(w, holder)
         && (forall id :: id in holder ==>
               id in w.rows && w.rows[id].device == device
               && w.claims[holder[id]].at <= seen && w.claims[holder[id]].post == None)
         && seen <= checked <= e.now <= end
         && checked - seen < CLAIM_BUDGET_S
         && end <= e.now + POST_LIMIT_S
       case WriteBack(holder, device, write) =>
         && HoldsClaims(w, holder)
         && (forall id :: id in holder ==>
               if write.Skip? then w.claims[holder[id]].post == None
               else w.claims[holder[id]].post.Some? && w.claims[holder[id]].post.value.end <= e.now)
  }

  function FanOutRow(device: int, capped: bool, now: real): Delivery {
    Delivery(device, if capped then Skipped else Pending, 0, At(now),
             if capped then Some("capped") else None, None, None)
  }

  predicate Holding(holder: map<int, nat>, claims: seq<Claim>, c: nat)
    requires c < |claims|
  {
    claims[c].row in holder && holder[claims[c].row] == c
  }

  function FateAfter(w: World, c: nat, write: Write, now: real): Fate
    requires c < |w.claims|
  {
    if w.claims[c].row in w.rows && AsClaimed(w.rows[w.claims[c].row], w.claims[c].token) then
      if GivesBack(write) then HandedBack(now) else Recorded(write, now)
    else Missed(now)
  }

  function Apply(w: World, e: Event): World
    requires Enabled(w, e)
  {
    var v := w.(clock := e.now);
    match e.step
    case FanOut(id, device, capped) => v.(rows := w.rows[id := FanOutRow(device, capped, e.now)])
    case Exhaust => v.(rows := ExhaustRows(w.rows, e.now))
    case ClaimDue(ids) =>
      v.(rows := LeaseRows(w.rows, ids, e.now),
         claims := w.claims + seq(|ids|, k requires 0 <= k < |ids| =>
           Claim(ids[k], w.rows[ids[k]].attempts + 1, e.now, Outstanding, None)))
    case StartPost(holder, _, seen, checked, end) =>
      v.(claims := seq(|w.claims|, c requires 0 <= c < |w.claims| =>
           if Holding(holder, w.claims, c) then w.claims[c].(post := Some(Span(seen, checked, e.now, end)))
           else w.claims[c]))
    case WriteBack(holder, device, write) =>
      v.(rows := CompareAndSet(w.rows, Tokens(w, holder), write, e.now),
         holds := HoldsAfter(w.holds, device, write, e.now),
         ended := EndedAfter(w.ended, device, write),
         claims := seq(|w.claims|, c requires 0 <= c < |w.claims| =>
           if Holding(holder, w.claims, c) then w.claims[c].(fate := FateAfter(w, c, write, e.now))
           else w.claims[c]))
  }

  /** The lane before its first row. */
  predicate Init(w: World) {
    w.rows == map[] && w.holds == map[] && w.claims == [] && w.clock == 0.0
  }

  /** A run: any interleaving of any number of passes, each statement atomic, statement times in order. */
  ghost predicate Trace(ws: seq<World>, es: seq<Event>) {
    && |ws| == |es| + 1
    && Init(ws[0])
    && forall i :: 0 <= i < |es| ==> Enabled(ws[i], es[i]) && ws[i + 1] == Apply(ws[i], es[i])
  }
}
