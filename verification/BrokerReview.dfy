/**
 Broker merge, unmerge and suppression (api/broker_review.py): identities move between brokers, an
 event log makes a merge undoable, and a ledger of standing NOs must agree with current ownership.

 `Book` is the four tables. A `conn.transaction()` block is one atomic step. An identity whose
 broker_id is NULL is absent from `owner`.
 */
module BrokerReview {
  import opened Common

  /** brokers: status 'active' or 'merged_away', merged_into, merged_at. */
  datatype Broker = Broker(active: bool, mergedInto: Option<int>, mergedAt: Option<int>)

  const ACTIVE: Broker := Broker(true, None, None)

  /** broker_merge_events, keyed by (merge_group_id, identity_id): an identity moves once per merge. */
  datatype MergeEvent = MergeEvent(survivor: int, retired: int, prev: int, undone: bool)

  datatype Origin = FromUnmerge(group: int) | FromDismiss(candidate: int)

  /** broker_merge_suppressions: `lifted` is the lift reason, None while the NO stands. */
  datatype Suppression = Suppression(lo: int, hi: int, origin: Origin, lifted: Option<string>)

  datatype Book = Book(
    owner: map<int, int>,
    brokers: map<int, Broker>,
    events: map<(int, int), MergeEvent>,
    ledger: seq<Suppression>)

  datatype Result<+T> = Ok(value: T) | MergeError(message: string)

  // ---- reading the tables ----------------------------------------------------------------------

  predicate IsActive(b: Book, id: int) {
    id in b.brokers && b.brokers[id].active
  }

  function ActiveOf(b: Book, ids: set<int>): set<int> {
    set id | id in ids && IsActive(b, id)
  }

  predicate Stands(s: Suppression, lo: int, hi: int) {
    s.lifted == None && s.lo == lo && s.hi == hi
  }

  /** An active suppression of this pair is on record. */
  ghost predicate Suppressed(ledger: seq<Suppression>, lo: int, hi: int) {
    exists k :: 0 <= k < |ledger| && Stands(ledger[k], lo, hi)
  }

  // ---- suppression_pairs -----------------------------------------------------------------------

  /** The pairs (ids[i], ids[j]) for j in [from, |ids|) whose owners differ. */
  function PairsWith(owner: map<int, int>, ids: seq<int>, i: nat, from: nat): seq<(int, int)>
    requires i < from <= |ids|
    requires forall k :: 0 <= k < |ids| ==> ids[k] in owner
    decreases |ids| - from
  {
    if from == |ids| then []
    else (if owner[ids[i]] != owner[ids[from]] then [(ids[i], ids[from])] else [])
         + PairsWith(owner, ids, i, from + 1)
  }

  function PairsFrom(owner: map<int, int>, ids: seq<int>, i: nat): seq<(int, int)>
    requires i <= |ids|
    requires forall k :: 0 <= k < |ids| ==> ids[k] in owner
    decreases |ids| - i
  {
    if i == |ids| then [] else PairsWith(owner, ids, i, i + 1) + PairsFrom(owner, ids, i + 1)
  }

  /** suppression_pairs: the cross-owner identity pairs, lo before hi, in sorted order. */
  function SuppressionPairs(owner: map<int, int>): seq<(int, int)> {
    PairsFrom(owner, Sorted(owner.Keys), 0)
  }

  // ---- the ledger ------------------------------------------------------------------------------

  function AnyStands(ledger: seq<Suppression>, lo: int, hi: int): (found: bool)
    ensures found <==> Suppressed(ledger, lo, hi)
  {
    if ledger == [] then false
    else
      var n := |ledger| - 1;
      assert ledger[n] == ledger[|ledger| - 1];
      AnyStands(ledger[..n], lo, hi) || Stands(ledger[n], lo, hi)
  }

  /** _SUPPRESSION_INSERT_SQL: one row per pair, ON CONFLICT with an active row of the pair DO NOTHING. */
  function Inserted(ledger: seq<Suppression>, pairs: seq<(int, int)>, origin: Origin): seq<Suppression>
    decreases |pairs|
  {
    if pairs == [] then ledger
    else
      var (lo, hi) := pairs[0];
      Inserted(if AnyStands(ledger, lo, hi) then ledger else ledger + [Suppression(lo, hi, origin, None)],
               pairs[1..], origin)
  }

  /** _SUPPRESSION_LIFT_SQL's WHERE: both identities sit under merging brokers, different ones. */
  predicate LiftedByMerge(owner: map<int, int>, s: Suppression, merging: set<int>) {
    && s.lifted == None
    && s.lo in owner && s.hi in owner
    && owner[s.lo] in merging && owner[s.hi] in merging
    && owner[s.lo] != owner[s.hi]
  }

  function LiftForMerge(owner: map<int, int>, ledger: seq<Suppression>, merging: set<int>): seq<Suppression> {
    seq(|ledger|, k requires 0 <= k < |ledger| =>
      if LiftedByMerge(owner, ledger[k], merging) then ledger[k].(lifted := Some("operator_merge")) else ledger[k])
  }

  // ---- merge -----------------------------------------------------------------------------------

  function Losers(merging: set<int>): set<int>
    requires merging != {}
  {
    merging - {Least(merging)}
  }

  /** The merge's event rows: one per identity of a loser. */
  function MoveEvents(owner: map<int, int>, losers: set<int>, survivor: int, group: int): map<(int, int), MergeEvent> {
    var moved := set i | i in owner && owner[i] in losers :: (group, i);
    map k | k in moved :: MergeEvent(survivor, owner[k.1], owner[k.1], false)
  }

  /** UPDATE broker_identities: every identity of a loser goes to the survivor. */
  function MergedOwner(owner: map<int, int>, merging: set<int>): map<int, int>
    requires merging != {}
  {
    map i | i in owner :: if owner[i] in Losers(merging) then Least(merging) else owner[i]
  }

  /** UPDATE brokers: the losers are merged away into the survivor. */
  function MergedBrokers(brokers: map<int, Broker>, merging: set<int>, now: int): map<int, Broker>
    requires merging != {}
  {
    map id | id in brokers ::
      if id in Losers(merging) then Broker(false, Some(Least(merging)), Some(now)) else brokers[id]
  }

  /** merge_brokers' transaction, over the active ids read before it opened. */
  function MergeCommit(b: Book, merging: set<int>, group: int, now: int): Book
    requires merging != {}
  {
    Book(
      MergedOwner(b.owner, merging),
      MergedBrokers(b.brokers, merging, now),
      b.events + MoveEvents(b.owner, Losers(merging), Least(merging), group),
      LiftForMerge(b.owner, b.ledger, merging))
  }

  /** merge_brokers, its read and its transaction seeing the same state. */
  function Merge(b: Book, ids: set<int>, group: int, now: int): Result<Book> {
    if |ids| < 2 then MergeError("need at least two brokers to merge")
    else if |ActiveOf(b, ids)| < 2 then MergeError("fewer than two of the given brokers are active")
    else Ok(MergeCommit(b, ActiveOf(b, ids), group, now))
  }

  // ---- unmerge ---------------------------------------------------------------------------------

  /** The identities a group still holds an event for that was not undone. */
  function LiveIdentities(events: map<(int, int), MergeEvent>, group: int): set<int> {
    set k | k in events && k.0 == group && !events[k].undone :: k.1
  }

  /** `restored`: identity -> prev_broker_id. */
  function RestoredOwners(events: map<(int, int), MergeEvent>, group: int): map<int, int> {
    map i | i in LiveIdentities(events, group) :: events[(group, i)].prev
  }

  function RetiredBrokers(events: map<(int, int), MergeEvent>, group: int): set<int> {
    set i | i in LiveIdentities(events, group) :: events[(group, i)].retired
  }

  /** _CURRENT_COHORT_SQL: every identity under a broker that now holds a restored one. */
  function Cohort(owner: map<int, int>, restored: set<int>): set<int> {
    set i | i in owner && exists r :: r in restored && r in owner && owner[r] == owner[i]
  }

  /** Where an identity will sit after the unmerge. */
  function HomeOf(owner: map<int, int>, restored: map<int, int>, i: int): int
    requires i in owner || i in restored
  {
    if i in restored then restored[i] else owner[i]
  }

  /** The cohort's ownership after the unmerge: `owner.update({i: prev ... if i in meta})`. */
  function CohortOwners(owner: map<int, int>, restored: map<int, int>): map<int, int> {
    map i | i in Cohort(owner, restored.Keys) :: HomeOf(owner, restored, i)
  }

  /** UPDATE brokers: the group's retired brokers are active again. */
  function RevivedBrokers(brokers: map<int, Broker>, retired: set<int>): map<int, Broker> {
    map id | id in brokers :: if id in retired then ACTIVE else brokers[id]
  }

  /** UPDATE broker_merge_events: the group is undone. */
  function UndoneEvents(events: map<(int, int), MergeEvent>, group: int): map<(int, int), MergeEvent> {
    map k | k in events :: if k.0 == group then events[k].(undone := true) else events[k]
  }

  /** unmerge_group's transaction, over the retired brokers read before it opened. */
  function UnmergeCommit(b: Book, group: int, retired: set<int>): Book {
    var restored := RestoredOwners(b.events, group);
    Book(
      b.owner + restored,
      RevivedBrokers(b.brokers, retired),
      UndoneEvents(b.events, group),
      Inserted(b.ledger, SuppressionPairs(CohortOwners(b.owner, restored)), FromUnmerge(group)))
  }

  /** unmerge_group for a group with a live event, its read and its transaction seeing the same state. */
  function Unmerge(b: Book, group: int): Book {
    UnmergeCommit(b, group, RetiredBrokers(b.events, group))
  }

  /** unmerge_group; None is the route's 404. */
  function UndoGroup(b: Book, group: int): Option<Book> {
    if LiveIdentities(b.events, group) == {} then None else Some(Unmerge(b, group))
  }

  // ---- dismissing and lifting ------------------------------------------------------------------

  datatype Reason = ContactBridgeReview | NameCrossFirm | NameFirm

  /** A broker_merge_candidates row; None stands for a blob that does not read as ids. */
  datatype Candidate = Candidate(
    proposed: bool, reason: Reason, evidence: Option<seq<int>>, brokerIds: Option<seq<int>>)

  /** _evidence_pair: two different identity ids, normalized lo before hi. */
  function EvidencePair(evidence: Option<seq<int>>): (p: Option<(int, int)>)
    ensures p.Some? <==> evidence.Some? && |evidence.value| == 2 && evidence.value[0] != evidence.value[1]
    ensures p.Some? ==> p.value.0 < p.value.1 && multiset{p.value.0, p.value.1} == multiset(evidence.value)
  {
    assert evidence.Some? && |evidence.value| == 2 ==> evidence.value == [evidence.value[0], evidence.value[1]];
    if evidence.None? || |evidence.value| != 2 || evidence.value[0] == evidence.value[1] then None
    else if evidence.value[0] < evidence.value[1] then Some((evidence.value[0], evidence.value[1]))
    else Some((evidence.value[1], evidence.value[0]))
  }

  /** _candidate_brokers: the distinct broker ids, or nothing when they are not at least two. */
  function CandidateBrokers(raw: Option<seq<int>>): set<int> {
    if raw.None? then {}
    else
      var ids := set x | x in raw.value;
      if |ids| >= 2 then ids else {}
  }

  /** The brokers a dismissal of this candidate keeps apart. */
  function DismissedBrokers(c: Candidate): set<int> {
    if (c.reason.ContactBridgeReview? && EvidencePair(c.evidence).Some?) || c.reason.NameCrossFirm?
    then CandidateBrokers(c.brokerIds) else {}
  }

  /** _BROKER_COHORT_SQL as an ownership map. */
  function HeldBy(owner: map<int, int>, ids: set<int>): map<int, int> {
    map i | i in owner && owner[i] in ids :: owner[i]
  }

  /** dismiss_candidate's write to the ledger. */
  function Dismiss(b: Book, c: Candidate, candidate: int): Book {
    b.(ledger := Inserted(b.ledger, SuppressionPairs(HeldBy(b.owner, DismissedBrokers(c))), FromDismiss(candidate)))
  }

  /** lift_suppression: None when there is no such row. */
  function Lift(b: Book, k: int, reason: string): Option<Result<Book>> {
    if !(0 <= k < |b.ledger|) then None
    else if b.ledger[k].lifted.Some? then Some(MergeError("suppression already lifted"))
    else Some(Ok(b.(ledger := b.ledger[k := b.ledger[k].(lifted := Some(reason))])))
  }

  function LiftOrKeep(b: Book, k: int, reason: string): Book {
    match Lift(b, k, reason)
    case Some(Ok(v)) => v
    case _ => b
  }

  // ---- any history -----------------------------------------------------------------------------

  datatype Op =
    | DoMerge(ids: set<int>, group: int, now: int)
    | DoUnmerge(group: int)
    | DoDismiss(card: Candidate, candidate: int)
    | DoLift(k: int, reason: string)

  /** One operator action; a refused one changes nothing. */
  function Do(b: Book, op: Op): Book {
    match op
    case DoMerge(ids, group, now) =>
      (match Merge(b, ids, group, now) case Ok(v) => v case MergeError(_) => b)
    case DoUnmerge(group) =>
      (match UndoGroup(b, group) case Some(v) => v case None => b)
    case DoDismiss(card, candidate) => if card.proposed then Dismiss(b, card, candidate) else b
    case DoLift(k, reason) => LiftOrKeep(b, k, reason)
  }

  function Run(b: Book, ops: seq<Op>): Book {
    if ops == [] then b else Do(Run(b, ops[..|ops| - 1]), ops[|ops| - 1])
  }

  /** uuid4 never repeats: each merge of a history brings a group id no event carries yet. */
  ghost predicate FreshGroup(b: Book, group: int) {
    forall k :: k in b.events ==> k.0 != group
  }
}
