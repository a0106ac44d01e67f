/**
 What every history of merges, unmerges, dismissals and lifts keeps: ownership by active brokers,
 merged_into chains that end, and a ledger that never contradicts ownership (with the exact
 condition under which an unmerge keeps it).
 */
module BrokerInvariants {
  import opened Common
  import opened BrokerReview
  import opened BrokerLedger
  import opened BrokerEffects

  // ---- ownership -------------------------------------------------------------------------------

  /** Every identity with a broker is owned by an active one. */
  ghost predicate OwnersActive(b: Book) {
    forall i :: i in b.owner ==> IsActive(b, b.owner[i])
  }

  /** An active broker points nowhere; a merged-away one points to a smaller id on record. */
  ghost predicate PointersDown(b: Book) {
    forall id :: id in b.brokers ==>
      if b.brokers[id].active then b.brokers[id].mergedInto == None
      else b.brokers[id].mergedInto.Some? && b.brokers[id].mergedInto.value in b.brokers
           && b.brokers[id].mergedInto.value < id
  }

  /** An event names brokers on record, and puts its identity back where it retired it from. */
  ghost predicate EventsKnown(b: Book) {
    forall k :: k in b.events ==> b.events[k].prev == b.events[k].retired && b.events[k].retired in b.brokers
  }

  ghost predicate OwnershipInv(b: Book) {
    OwnersActive(b) && PointersDown(b) && EventsKnown(b)
  }

  lemma MergeKeepsOwnership(b: Book, merging: set<int>, group: int, now: int)
    requires OwnershipInv(b) && merging != {} && (forall id :: id in merging ==> IsActive(b, id))
    ensures OwnershipInv(MergeCommit(b, merging, group, now))
  {}

  lemma UnmergeKeepsOwnership(b: Book, group: int)
    requires OwnershipInv(b)
    ensures OwnershipInv(Unmerge(b, group))
  {
    StaleCommitKeepsOwnership(b, group, RetiredBrokers(b.events, group));
  }

  /** A group's live events only ever leave the log: a list of its retired brokers read earlier still covers them. */
  lemma {:induction false} RetiredOnlyShrinks(b: Book, ops: seq<Op>, group: int)
    requires forall i :: 0 <= i < |ops| && ops[i].DoMerge? ==> ops[i].group != group
    ensures RetiredBrokers(Run(b, ops).events, group) <= RetiredBrokers(b.events, group)
  {
    if ops != [] {
      var front, op := ops[..|ops| - 1], ops[|ops| - 1];
      RetiredOnlyShrinks(b, front, group);
      var c, v := Run(b, front), Do(Run(b, front), op);
      forall i | i in LiveIdentities(v.events, group)
        ensures i in LiveIdentities(c.events, group) && v.events[(group, i)].retired == c.events[(group, i)].retired
      {
        StepKeepsEvent(c, op, group, i);
      }
    }
  }

  lemma StepKeepsEvent(b: Book, op: Op, group: int, i: int)
    requires op.DoMerge? ==> op.group != group
    requires i in LiveIdentities(Do(b, op).events, group)
    ensures i in LiveIdentities(b.events, group)
    ensures Do(b, op).events[(group, i)].retired == b.events[(group, i)].retired
  {
    var v := Do(b, op);
    assert (group, i) in v.events && !v.events[(group, i)].undone;
    assert (group, i).0 == group && (group, i).1 == i;
    assert (group, i) in b.events && v.events[(group, i)] == b.events[(group, i)];
  }

  lemma StaleCommitKeepsOwnership(b: Book, group: int, retired: set<int>)
    requires OwnershipInv(b) && RetiredBrokers(b.events, group) <= retired
    ensures OwnershipInv(UnmergeCommit(b, group, retired))
  {
    var v := UnmergeCommit(b, group, retired);
    var restored := RestoredOwners(b.events, group);
    forall i | i in v.owner ensures IsActive(v, v.owner[i]) {
      if i in restored {
        assert b.events[(group, i)].retired in RetiredBrokers(b.events, group);
      }
    }
  }

  /** An undo that commits after anything else ran since its read still keeps ownership. */
  lemma StaleUnmergeKeepsOwnership(b: Book, ops: seq<Op>, group: int)
    requires OwnershipInv(b) && forall i :: 0 <= i < |ops| && ops[i].DoMerge? ==> ops[i].group != group
    ensures OwnershipInv(UnmergeCommit(Run(b, ops), group, RetiredBrokers(b.events, group)))
  {
    OwnershipAlways(b, ops);
    RetiredOnlyShrinks(b, ops, group);
    StaleCommitKeepsOwnership(Run(b, ops), group, RetiredBrokers(b.events, group));
  }

  /** It writes the brokers a fresh read would exactly when every other broker of its list is active already. */
  lemma StaleUnmergeIsFreshIff(b: Book, group: int, retired: set<int>)
    requires RetiredBrokers(b.events, group) <= retired
    ensures UnmergeCommit(b, group, retired).brokers == Unmerge(b, group).brokers
       <==> forall r :: r in retired && r in b.brokers && r !in RetiredBrokers(b.events, group) ==>
              b.brokers[r] == ACTIVE
    ensures UnmergeCommit(b, group, retired) == Unmerge(b, group).(brokers := UnmergeCommit(b, group, retired).brokers)
  {
    var still := RetiredBrokers(b.events, group);
    var stale, now := RevivedBrokers(b.brokers, retired), RevivedBrokers(b.brokers, still);
    forall id | id in b.brokers
      ensures stale[id] == now[id] <==> (id in retired && id !in still ==> b.brokers[id] == ACTIVE)
    {}
    if forall r :: r in retired && r in b.brokers && r !in still ==> b.brokers[r] == ACTIVE {
      assert stale == now;
    }
  }

  lemma DoneMergeIsACommit(b: Book, ids: set<int>, group: int, now: int)
    requires Do(b, DoMerge(ids, group, now)) != b
    ensures |ActiveOf(b, ids)| >= 2 && ActiveOf(b, ids) != {}
    ensures Do(b, DoMerge(ids, group, now)) == MergeCommit(b, ActiveOf(b, ids), group, now)
  {}

  lemma DoneUnmergeIsAnUndo(b: Book, group: int)
    ensures LiveIdentities(b.events, group) == {} ==> Do(b, DoUnmerge(group)) == b
    ensures LiveIdentities(b.events, group) != {} ==> Do(b, DoUnmerge(group)) == Unmerge(b, group)
  {}

  lemma DoneWriteIsInTheLedger(b: Book, op: Op)
    requires op.DoDismiss? || op.DoLift?
    ensures Do(b, op) == b.(ledger := Do(b, op).ledger)
  {}

  lemma DoneMergeKeepsOwnership(b: Book, ids: set<int>, group: int, now: int)
    requires OwnershipInv(b)
    ensures OwnershipInv(Do(b, DoMerge(ids, group, now)))
  {
    if Do(b, DoMerge(ids, group, now)) != b {
      DoneMergeIsACommit(b, ids, group, now);
      MergeKeepsOwnership(b, ActiveOf(b, ids), group, now);
    }
  }

  lemma DoneUnmergeKeepsOwnership(b: Book, group: int)
    requires OwnershipInv(b)
    ensures OwnershipInv(Do(b, DoUnmerge(group)))
  {
    DoneUnmergeIsAnUndo(b, group);
    UnmergeKeepsOwnership(b, group);
  }

  lemma OpKeepsOwnership(b: Book, op: Op)
    requires OwnershipInv(b)
    ensures OwnershipInv(Do(b, op))
  {
    if op.DoMerge? {
      DoneMergeKeepsOwnership(b, op.ids, op.group, op.now);
    } else if op.DoUnmerge? {
      DoneUnmergeKeepsOwnership(b, op.group);
    } else {
      DoneWriteIsInTheLedger(b, op);
    }
  }

  /** Whatever the order of merges, unmerges, dismissals and lifts, identities sit under active brokers. */
  lemma {:induction false} OwnershipAlways(b: Book, ops: seq<Op>)
    requires OwnershipInv(b)
    ensures OwnershipInv(Run(b, ops))
  {
    if ops != [] {
      OwnershipAlways(b, ops[..|ops| - 1]);
      OpKeepsOwnership(Run(b, ops[..|ops| - 1]), ops[|ops| - 1]);
    }
  }

  /** Following merged_into from a broker: it ends, at an active broker with no larger id. */
  function Survivor(b: Book, id: int): (root: int)
    requires PointersDown(b) && id in b.brokers
    ensures IsActive(b, root) && root <= id
    ensures b.brokers[id].active ==> root == id
    decreases |set x | x in b.brokers && x < id|
  {
    if b.brokers[id].active then id
    else
      var next := b.brokers[id].mergedInto.value;
      FewerBelow(b.brokers.Keys, next, id);
      Survivor(b, next)
  }

  lemma FewerBelow(ids: set<int>, lower: int, upper: int)
    requires lower in ids && lower < upper
    ensures |set x | x in ids && x < lower| < |set x | x in ids && x < upper|
  {
    var a, c := set x | x in ids && x < lower, set x | x in ids && x < upper;
    assert a + {lower} <= c;
    SubsetSize(a + {lower}, c);
  }

  lemma {:induction false} SubsetSize(a: set<int>, c: set<int>)
    requires a <= c
    ensures |a| <= |c|
  {
    assert c == a + (c - a);
  }

  /** A merge whose ids were read active, but committed later: ownership survives iff its survivor is still active. */
  lemma StaleMergeKeepsOwnersIff(b: Book, merging: set<int>, group: int, now: int)
    requires OwnersActive(b) && merging != {} && Least(merging) in b.brokers
    requires exists i :: i in b.owner && b.owner[i] in Losers(merging)
    ensures OwnersActive(MergeCommit(b, merging, group, now)) <==> IsActive(b, Least(merging))
  {
    var v := MergeCommit(b, merging, group, now);
    var i :| i in b.owner && b.owner[i] in Losers(merging);
    assert v.owner[i] == Least(merging);
  }

  // ---- the ledger agrees with ownership --------------------------------------------------------

  ghost predicate AgreesAt(owner: map<int, int>, s: Suppression) {
    s.lifted == None && s.lo in owner && s.hi in owner ==> owner[s.lo] != owner[s.hi]
  }

  /** No active suppression covers two identities under one broker. */
  ghost predicate LedgerAgrees(owner: map<int, int>, ledger: seq<Suppression>) {
    forall k :: 0 <= k < |ledger| ==> AgreesAt(owner, ledger[k])
  }

  /** The table's CHECK: identity_lo < identity_hi. */
  ghost predicate Ordered(ledger: seq<Suppression>) {
    forall k :: 0 <= k < |ledger| ==> ledger[k].lo < ledger[k].hi
  }

  ghost predicate LedgerInv(b: Book) {
    LedgerAgrees(b.owner, b.ledger) && OneActiveEach(b.ledger) && Ordered(b.ledger)
  }

  /** A merge lifts every standing NO it overrides, and only those. */
  lemma MergeKeepsLedger(b: Book, merging: set<int>, group: int, now: int)
    requires LedgerInv(b) && merging != {}
    ensures LedgerInv(MergeCommit(b, merging, group, now))
    ensures NosOverridden(b, MergeCommit(b, merging, group, now), merging)
  {
    CommitLeaves(b, merging, group, now);
  }

  lemma DismissKeepsLedger(b: Book, c: Candidate, candidate: int)
    requires LedgerInv(b)
    ensures LedgerInv(Dismiss(b, c, candidate))
    ensures DismissLeaves(b, Dismiss(b, c, candidate), c, candidate)
  {
    DismissWrites(b, c, candidate);
    var held := HeldBy(b.owner, DismissedBrokers(c));
    var pairs := SuppressionPairs(held);
    var v := Dismiss(b, c, candidate);
    SuppressionPairsExact(held);
    InsertedExact(b.ledger, pairs, FromDismiss(candidate));
    forall k | 0 <= k < |v.ledger| ensures AgreesAt(v.owner, v.ledger[k]) {
      if k < |b.ledger| {
        assert v.ledger[k] == b.ledger[k] && AgreesAt(b.owner, b.ledger[k]);
      }
    }
  }

  lemma LiftKeepsLedger(b: Book, k: int, reason: string)
    requires LedgerInv(b)
    ensures LedgerInv(LiftOrKeep(b, k, reason))
  {}

  /** The operator lifting these rows one after the other. */
  function LiftAll(b: Book, ks: seq<int>, reason: string): Book {
    if ks == [] then b else LiftOrKeep(LiftAll(b, ks[..|ks| - 1], reason), ks[|ks| - 1], reason)
  }

  lemma {:induction false} LiftAllExact(b: Book, ks: seq<int>, reason: string)
    ensures var v := LiftAll(b, ks, reason);
            v == b.(ledger := v.ledger) && |v.ledger| == |b.ledger|
            && forall k :: 0 <= k < |b.ledger| ==>
                 v.ledger[k] == if k in ks && b.ledger[k].lifted == None then b.ledger[k].(lifted := Some(reason))
                                else b.ledger[k]
  {
    if ks != [] {
      var front := ks[..|ks| - 1];
      LiftAllExact(b, front, reason);
      assert ks == front + [ks[|ks| - 1]];
    }
  }

  /**
   The repair of a ledger that contradicts ownership: lifting these rows makes it agree exactly when they
   include every standing NO over two identities under one broker.
   */
  lemma RepairIff(b: Book, ks: seq<int>, reason: string)
    requires OneActiveEach(b.ledger) && Ordered(b.ledger)
    ensures LedgerInv(LiftAll(b, ks, reason)) <==>
              forall k :: 0 <= k < |b.ledger| && !AgreesAt(b.owner, b.ledger[k]) ==> k in ks
  {
    LiftAllExact(b, ks, reason);
    var v := LiftAll(b, ks, reason);
    if k :| 0 <= k < |b.ledger| && !AgreesAt(b.owner, b.ledger[k]) && k !in ks {
      assert !AgreesAt(v.owner, v.ledger[k]);
    }
    if forall k :: 0 <= k < |b.ledger| && !AgreesAt(b.owner, b.ledger[k]) ==> k in ks {
      forall k | 0 <= k < |v.ledger| ensures AgreesAt(v.owner, v.ledger[k]) {
        assert v.ledger[k].lifted == None ==> k !in ks;
      }
    }
  }

  /** The partial unique index: one active row per pair, after anything. */
  lemma {:induction false} OneActiveAlways(b: Book, ops: seq<Op>)
    requires OneActiveEach(b.ledger)
    ensures OneActiveEach(Run(b, ops).ledger)
  {
    if ops != [] {
      OneActiveAlways(b, ops[..|ops| - 1]);
      OpKeepsOneActive(Run(b, ops[..|ops| - 1]), ops[|ops| - 1]);
    }
  }

  lemma InsertKeepsOneActive(ledger: seq<Suppression>, pairs: seq<(int, int)>, origin: Origin)
    requires OneActiveEach(ledger)
    ensures OneActiveEach(Inserted(ledger, pairs, origin))
  {
    InsertedExact(ledger, pairs, origin);
  }

  /** Each row as it was, or lifted. */
  ghost predicate OnlyLifts(ledger: seq<Suppression>, after: seq<Suppression>) {
    |after| == |ledger|
    && forall k :: 0 <= k < |ledger| ==>
         after[k] == ledger[k] || (after[k].lifted.Some? && after[k] == ledger[k].(lifted := after[k].lifted))
  }

  lemma LiftsKeepOneActive(ledger: seq<Suppression>, after: seq<Suppression>)
    requires OneActiveEach(ledger) && OnlyLifts(ledger, after)
    ensures OneActiveEach(after)
  {}

  lemma MergeOnlyLifts(b: Book, ids: set<int>, group: int, now: int)
    ensures OnlyLifts(b.ledger, Do(b, DoMerge(ids, group, now)).ledger)
  {}

  lemma LiftOnlyLifts(b: Book, k: int, reason: string)
    ensures OnlyLifts(b.ledger, LiftOrKeep(b, k, reason).ledger)
  {}

  lemma UndoKeepsOneActive(b: Book, group: int)
    requires OneActiveEach(b.ledger)
    ensures OneActiveEach(Unmerge(b, group).ledger)
  {
    InsertKeepsOneActive(b.ledger, SuppressionPairs(CohortOwners(b.owner, RestoredOwners(b.events, group))),
                         FromUnmerge(group));
  }

  lemma DismissKeepsOneActive(b: Book, card: Candidate, candidate: int)
    requires OneActiveEach(b.ledger)
    ensures OneActiveEach(Dismiss(b, card, candidate).ledger)
  {
    InsertKeepsOneActive(b.ledger, SuppressionPairs(HeldBy(b.owner, DismissedBrokers(card))), FromDismiss(candidate));
  }

  lemma OpKeepsOneActive(b: Book, op: Op)
    requires OneActiveEach(b.ledger)
    ensures OneActiveEach(Do(b, op).ledger)
  {
    match op
    case DoMerge(ids, group, now) =>
      MergeOnlyLifts(b, ids, group, now);
      LiftsKeepOneActive(b.ledger, Do(b, op).ledger);
    case DoUnmerge(group) =>
      DoneUnmergeIsAnUndo(b, group);
      UndoKeepsOneActive(b, group);
    case DoDismiss(card, candidate) => DismissKeepsOneActive(b, card, candidate);
    case DoLift(k, reason) =>
      LiftOnlyLifts(b, k, reason);
      LiftsKeepOneActive(b.ledger, LiftOrKeep(b, k, reason).ledger);
  }

  // ---- when an unmerge keeps it ----------------------------------------------------------------

  /**
   Readable before the call: every two identities the unmerge will leave under one broker, at least
   one of them coming back, sit under one broker today.
   */
  ghost predicate HomesGathered(owner: map<int, int>, restored: map<int, int>) {
    forall i, j | i in restored && (j in restored || j in owner) && i != j
                  && HomeOf(owner, restored, j) == restored[i] ::
      i in owner && j in owner && owner[i] == owner[j]
  }

  /** A standing NO that agrees with ownership still agrees once gathered identities go home. */
  lemma StillApart(owner: map<int, int>, restored: map<int, int>, s: Suppression)
    requires HomesGathered(owner, restored) && AgreesAt(owner, s) && s.lo < s.hi
    ensures AgreesAt(owner + restored, s)
  {}

  /** The separations an undo records never contradict the ownership it leaves. */
  lemma InsertAgrees(owner: map<int, int>, restored: map<int, int>, ledger: seq<Suppression>, origin: Origin)
    requires LedgerAgrees(owner + restored, ledger) && OneActiveEach(ledger) && Ordered(ledger)
    ensures var after := Inserted(ledger, SuppressionPairs(CohortOwners(owner, restored)), origin);
            LedgerAgrees(owner + restored, after) && OneActiveEach(after) && Ordered(after)
  {
    var owners := CohortOwners(owner, restored);
    var pairs := SuppressionPairs(owners);
    var after := Inserted(ledger, pairs, origin);
    SuppressionPairsExact(owners);
    InsertedExact(ledger, pairs, origin);
    forall k | 0 <= k < |after| ensures AgreesAt(owner + restored, after[k]) && after[k].lo < after[k].hi {
      if k < |ledger| {
        assert after[k] == ledger[k];
      } else {
        assert (after[k].lo, after[k].hi) in pairs;
      }
    }
  }

  /** Readable before the call: no standing NO joins two identities the undo leaves under one broker. */
  ghost predicate UndoAgrees(b: Book, group: int) {
    LedgerAgrees(b.owner + RestoredOwners(b.events, group), b.ledger)
  }

  /** An unmerge keeps the book's ledger agreeing with ownership exactly when its standing NOs allow the undo. */
  lemma UnmergeKeepsLedgerIff(b: Book, group: int)
    requires LedgerInv(b)
    ensures LedgerInv(Unmerge(b, group)) <==> UndoAgrees(b, group)
  {
    var restored := RestoredOwners(b.events, group);
    var owners := CohortOwners(b.owner, restored);
    if UndoAgrees(b, group) {
      InsertAgrees(b.owner, restored, b.ledger, FromUnmerge(group));
    } else {
      var v := Unmerge(b, group);
      InsertedExact(b.ledger, SuppressionPairs(owners), FromUnmerge(group));
      var k :| 0 <= k < |b.ledger| && !AgreesAt(b.owner + restored, b.ledger[k]);
      assert v.ledger[k] == b.ledger[k] && !AgreesAt(v.owner, v.ledger[k]);
    }
  }

  lemma GatheredAgrees(b: Book, group: int)
    requires LedgerInv(b) && HomesGathered(b.owner, RestoredOwners(b.events, group))
    ensures UndoAgrees(b, group)
  {
    forall k | 0 <= k < |b.ledger| ensures AgreesAt(b.owner + RestoredOwners(b.events, group), b.ledger[k]) {
      StillApart(b.owner, RestoredOwners(b.events, group), b.ledger[k]);
    }
  }

  lemma UnmergeKeepsLedger(b: Book, group: int)
    requires LedgerInv(b) && HomesGathered(b.owner, RestoredOwners(b.events, group))
    ensures LedgerInv(Unmerge(b, group))
  {
    GatheredAgrees(b, group);
    UnmergeKeepsLedgerIff(b, group);
  }

  /** Two identities an unmerge would bring together though they are apart today: a ledger it contradicts. */
  lemma UngatheredBreaks(b: Book, group: int, i: int, j: int) returns (ledger: seq<Suppression>)
    requires var restored := RestoredOwners(b.events, group);
             i in restored && (j in restored || j in b.owner) && i != j
             && HomeOf(b.owner, restored, j) == restored[i]
             && !(i in b.owner && j in b.owner && b.owner[i] == b.owner[j])
    ensures LedgerInv(b.(ledger := ledger)) && !LedgerInv(Unmerge(b.(ledger := ledger), group))
  {
    var lo, hi := if i < j then i else j, if i < j then j else i;
    ledger := [Suppression(lo, hi, FromUnmerge(group), None)];
    var c := b.(ledger := ledger);
    assert LedgerInv(c);
    var restored := RestoredOwners(b.events, group);
    var v := Unmerge(c, group);
    InsertedExact(ledger, SuppressionPairs(CohortOwners(c.owner, restored)), FromUnmerge(group));
    assert v.ledger[0] == ledger[0];
    assert v.owner[i] == HomeOf(b.owner, restored, i) && v.owner[j] == HomeOf(b.owner, restored, j);
    assert !AgreesAt(v.owner, v.ledger[0]);
  }

  /**
   An unmerge keeps every ledger that agrees with ownership exactly when the identities it brings
   together are together already.
   */
  lemma UnmergeKeepsLedgersIffGathered(b: Book, group: int)
    ensures (forall ledger: seq<Suppression> ::
               LedgerInv(b.(ledger := ledger)) ==> LedgerInv(Unmerge(b.(ledger := ledger), group)))
       <==> HomesGathered(b.owner, RestoredOwners(b.events, group))
  {
    var restored := RestoredOwners(b.events, group);
    if HomesGathered(b.owner, restored) {
      forall ledger: seq<Suppression> | LedgerInv(b.(ledger := ledger))
        ensures LedgerInv(Unmerge(b.(ledger := ledger), group))
      {
        UnmergeKeepsLedger(b.(ledger := ledger), group);
      }
    } else {
      var i, j :| i in restored && (j in restored || j in b.owner) && i != j
        && HomeOf(b.owner, restored, j) == restored[i]
        && !(i in b.owner && j in b.owner && b.owner[i] == b.owner[j]);
      var ledger := UngatheredBreaks(b, group, i, j);
    }
  }

  /** Restored identities sharing a broker today, the group's retired brokers still merged away, are gathered. */
  lemma TogetherAndRetiredIsGathered(b: Book, group: int)
    requires OwnershipInv(b)
    requires forall i, j :: i in RestoredOwners(b.events, group) && j in RestoredOwners(b.events, group) ==>
               i in b.owner && j in b.owner && b.owner[i] == b.owner[j]
    requires forall r :: r in RetiredBrokers(b.events, group) ==> !IsActive(b, r)
    ensures HomesGathered(b.owner, RestoredOwners(b.events, group))
  {}

  lemma NothingToUndo(b: Book, group: int)
    requires LiveIdentities(b.events, group) == {}
    ensures b.owner + RestoredOwners(b.events, group) == b.owner
  {
    assert RestoredOwners(b.events, group) == map[];
  }

  /** A group without a live event is refused, and restores nobody. */
  lemma DoneUnmergeKeepsLedgerIff(b: Book, group: int)
    requires LedgerInv(b)
    ensures LedgerInv(Do(b, DoUnmerge(group))) <==> UndoAgrees(b, group)
  {
    DoneUnmergeIsAnUndo(b, group);
    if LiveIdentities(b.events, group) == {} {
      NothingToUndo(b, group);
    } else {
      UnmergeKeepsLedgerIff(b, group);
    }
  }

  lemma DoneMergeKeepsLedger(b: Book, ids: set<int>, group: int, now: int)
    requires LedgerInv(b)
    ensures LedgerInv(Do(b, DoMerge(ids, group, now)))
  {
    if Do(b, DoMerge(ids, group, now)) != b {
      DoneMergeIsACommit(b, ids, group, now);
      MergeKeepsLedger(b, ActiveOf(b, ids), group, now);
    }
  }

  lemma DoneDismissKeepsLedger(b: Book, card: Candidate, candidate: int)
    requires LedgerInv(b)
    ensures LedgerInv(Do(b, DoDismiss(card, candidate)))
  {
    DismissKeepsLedger(b, card, candidate);
  }

  lemma OpKeepsLedgerIff(b: Book, op: Op)
    requires LedgerInv(b)
    ensures LedgerInv(Do(b, op)) <==> (op.DoUnmerge? ==> UndoAgrees(b, op.group))
  {
    match op
    case DoMerge(ids, group, now) => DoneMergeKeepsLedger(b, ids, group, now);
    case DoUnmerge(group) => DoneUnmergeKeepsLedgerIff(b, group);
    case DoDismiss(card, candidate) => DoneDismissKeepsLedger(b, card, candidate);
    case DoLift(k, reason) => LiftKeepsLedger(b, k, reason);
  }

  /** Each undo of the history meets a ledger that allows it. */
  ghost predicate UndosAgree(b: Book, ops: seq<Op>) {
    ops != [] ==>
      var front, op := ops[..|ops| - 1], ops[|ops| - 1];
      UndosAgree(b, front) && (op.DoUnmerge? ==> UndoAgrees(Run(b, front), op.group))
  }

  /** At every point of the history. */
  ghost predicate LedgerInvThroughout(b: Book, ops: seq<Op>) {
    LedgerInv(Run(b, ops)) && (ops != [] ==> LedgerInvThroughout(b, ops[..|ops| - 1]))
  }

  /**
   A history never has an active suppression over two identities under one broker, at any point, exactly
   when each undo in it meets a ledger that allows it; merges, dismissals and lifts are free.
   */
  lemma {:induction false} LedgerAlwaysAgreesIff(b: Book, ops: seq<Op>)
    requires LedgerInv(b)
    ensures LedgerInvThroughout(b, ops) <==> UndosAgree(b, ops)
  {
    if ops != [] {
      var front, op := ops[..|ops| - 1], ops[|ops| - 1];
      LedgerAlwaysAgreesIff(b, front);
      if LedgerInvThroughout(b, front) {
        OpKeepsLedgerIff(Run(b, front), op);
      }
    }
  }

  /** Each undo of the history meets its identities gathered: enough, whatever the ledger holds. */
  ghost predicate UndosGathered(b: Book, ops: seq<Op>) {
    forall i :: 0 <= i < |ops| && ops[i].DoUnmerge? ==>
      HomesGathered(Run(b, ops[..i]).owner, RestoredOwners(Run(b, ops[..i]).events, ops[i].group))
  }

  /** Merges, dismissals and lifts in any order, and gathered undos, never leave the ledger contradicting ownership. */
  lemma {:induction false} LedgerAlwaysAgrees(b: Book, ops: seq<Op>)
    requires LedgerInv(b) && UndosGathered(b, ops)
    ensures LedgerInv(Run(b, ops))
  {
    if ops != [] {
      var before, op := ops[..|ops| - 1], ops[|ops| - 1];
      assert forall i :: 0 <= i < |before| ==> ops[..i] == before[..i];
      LedgerAlwaysAgrees(b, before);
      if op.DoUnmerge? {
        GatheredAgrees(Run(b, before), op.group);
      }
      OpKeepsLedgerIff(Run(b, before), op);
    }
  }
}
