/** The operator's actions over the broker tables they update in place (api/broker_review.py). */
module BrokerBook {
  import opened Common
  import opened BrokerReview
  import opened BrokerLedger
  import opened BrokerInvariants
  import opened BrokerEffects

  /** _cohort: a cohort read, rows without a broker dropped, as identity -> current broker. */
  method CohortRows(rows: seq<(int, Option<int>)>) returns (owner: map<int, int>)
    requires forall i, j :: 0 <= i < j < |rows| ==> rows[i].0 != rows[j].0
    ensures forall id :: id in owner <==> exists k :: 0 <= k < |rows| && rows[k].0 == id && rows[k].1.Some?
    ensures forall k :: 0 <= k < |rows| && rows[k].1.Some? ==> owner[rows[k].0] == rows[k].1.value
  {
    owner := map[];
    for i := 0 to |rows|
      invariant forall id :: id in owner <==> exists k :: 0 <= k < i && rows[k].0 == id && rows[k].1.Some?
      invariant forall k :: 0 <= k < i && rows[k].1.Some? ==> owner[rows[k].0] == rows[k].1.value
    {
      if rows[i].1.Some? {
        owner := owner[rows[i].0 := rows[i].1.value];
      }
    }
  }

  /** Every identity of a cohort lands under one broker: the case the unmerge warns about. */
  ghost predicate OneOwner(cohort: map<int, int>) {
    forall i, j :: i in cohort && j in cohort ==> cohort[i] == cohort[j]
  }

  /** No pair is derived exactly when every identity of the cohort lands under one broker. */
  lemma NoPairsIffOneOwner(cohort: map<int, int>)
    ensures NoRepeats(SuppressionPairs(cohort))
    ensures SuppressionPairs(cohort) == [] <==> OneOwner(cohort)
  {
    SuppressionPairsExact(cohort);
    var pairs := SuppressionPairs(cohort);
    if pairs == [] {
      forall i, j | i in cohort && j in cohort ensures cohort[i] == cohort[j] {
        assert (i, j) !in pairs && (j, i) !in pairs;
      }
    } else {
      assert pairs[0] in pairs;
    }
  }

  /** The pairs whose two identities we can describe. */
  function DescribedOf(pairs: seq<(int, int)>, described: set<int>): (rows: seq<(int, int)>)
    requires NoRepeats(pairs)
    ensures NoRepeats(rows) && forall p :: p in rows <==> p in pairs && p.0 in described && p.1 in described
  {
    if pairs == [] then []
    else
      var front, p := pairs[..|pairs| - 1], pairs[|pairs| - 1];
      assert pairs == front + [p];
      DescribedOf(front, described) + (if p.0 in described && p.1 in described then [p] else [])
  }

  /** An ownership map describes all its own pairs: nothing is skipped. */
  lemma AllDescribed(cohort: map<int, int>)
    ensures NoRepeats(SuppressionPairs(cohort))
    ensures DescribedOf(SuppressionPairs(cohort), cohort.Keys) == SuppressionPairs(cohort)
  {
    SuppressionPairsExact(cohort);
    DescribedAll(SuppressionPairs(cohort), cohort.Keys);
  }

  lemma {:induction false} DescribedAll(pairs: seq<(int, int)>, described: set<int>)
    requires NoRepeats(pairs) && forall p :: p in pairs ==> p.0 in described && p.1 in described
    ensures DescribedOf(pairs, described) == pairs
  {
    if pairs != [] {
      var front, p := pairs[..|pairs| - 1], pairs[|pairs| - 1];
      assert pairs == front + [p];
      DescribedAll(front, described);
    }
  }

  lemma UninterruptedMerge(before: Book, mid: Book, active: set<int>, group: int, now: int)
    requires mid == Run(before, []) && active != {} && forall id :: id in active ==> IsActive(before, id)
    ensures OwnershipInv(before) ==> OwnershipInv(MergeCommit(mid, active, group, now))
  {
    if OwnershipInv(before) {
      MergeKeepsOwnership(before, active, group, now);
    }
  }

  /** Something is restored, and the undo leaves its whole cohort under one broker. */
  ghost predicate NothingSeparated(b: Book, group: int) {
    && (exists i :: Restored(b, group, i))
    && forall i, j :: InCohort(b, group, i) && InCohort(b, group, j) ==>
         HomeAfter(b, group, i) == HomeAfter(b, group, j)
  }

  ghost function HomeAfter(b: Book, group: int, i: int): int
    requires InCohort(b, group, i)
  {
    if Restored(b, group, i) then b.events[(group, i)].prev else b.owner[i]
  }

  lemma {:induction false} NoteIs(b: Book, group: int)
    ensures var restored := RestoredOwners(b.events, group);
            NothingSeparated(b, group) <==> restored != map[] && OneOwner(CohortOwners(b.owner, restored))
  {
    var restored := RestoredOwners(b.events, group);
    var cohort := CohortOwners(b.owner, restored);
    forall i
      ensures i in restored <==> Restored(b, group, i)
      ensures i in cohort <==> InCohort(b, group, i)
      ensures i in cohort ==> cohort[i] == HomeAfter(b, group, i)
    {
      CohortIs(b, group, i);
    }
    if restored != map[] {
      assert Restored(b, group, SomeElement(restored.Keys));
    }
  }

  /** An undo writes every pair it derives; none is derived exactly when one broker holds the whole cohort. */
  lemma {:induction false} SeparationIs(b: Book, group: int, cohort: map<int, int>)
    requires cohort == CohortOwners(b.owner, RestoredOwners(b.events, group))
    ensures Unmerge(b, group).ledger == Inserted(b.ledger, SuppressionPairs(cohort), FromUnmerge(group))
    ensures NoRepeats(SuppressionPairs(cohort))
    ensures DescribedOf(SuppressionPairs(cohort), cohort.Keys) == SuppressionPairs(cohort)
    ensures NothingSeparated(b, group) <==>
              RestoredOwners(b.events, group) != map[] && |SuppressionPairs(cohort)| == 0
  {
    NoteIs(b, group);
    NoPairsIffOneOwner(cohort);
    AllDescribed(cohort);
  }

  /** A dismissal writes every pair it derives, and what it leaves. */
  lemma {:induction false} DismissalIs(b: Book, card: Candidate, candidate: int)
    requires OneActiveEach(b.ledger)
    ensures DismissLeaves(b, Dismiss(b, card, candidate), card, candidate)
    ensures LedgerInv(b) ==> LedgerInv(Dismiss(b, card, candidate))
    ensures var held := HeldBy(b.owner, DismissedBrokers(card));
            NoRepeats(SuppressionPairs(held))
            && DescribedOf(SuppressionPairs(held), held.Keys) == SuppressionPairs(held)
  {
    DismissWrites(b, card, candidate);
    if LedgerInv(b) {
      DismissKeepsLedger(b, card, candidate);
    }
    AllDescribed(HeldBy(b.owner, DismissedBrokers(card)));
  }

  /** Each pair we can describe stands exactly once. */
  ghost predicate AllStandOnce(ledger: seq<Suppression>, pairs: seq<(int, int)>, described: set<int>) {
    forall p :: p in pairs && p.0 in described && p.1 in described ==> StandsOnce(ledger, p.0, p.1)
  }

  datatype Merged = Merged(survivor: int, retired: set<int>)

  datatype Unmerged = Unmerged(retired: set<int>, written: nat, nothingSeparated: bool)

  class Tables {
    var owner: map<int, int>
    var brokers: map<int, Broker>
    var events: map<(int, int), MergeEvent>
    var ledger: seq<Suppression>
    var candidates: map<int, Candidate>

    ghost function View(): Book
      reads this
    {
      Book(owner, brokers, events, ledger)
    }

    constructor (brokers: map<int, Broker>, owner: map<int, int>)
      ensures View() == Book(owner, brokers, map[], [])
    {
      this.owner, this.brokers, events, ledger, candidates := owner, brokers, map[], [], map[];
    }

    /** What other operators commit between this action's read and its transaction. */
    method Others(ops: seq<Op>)
      modifies this`owner, this`brokers, this`events, this`ledger
      ensures View() == Run(old(View()), ops)
    {
      var after := Run(Book(owner, brokers, events, ledger), ops);
      owner, brokers, events, ledger := after.owner, after.brokers, after.events, after.ledger;
    }

    /** _write_suppressions: pairs we cannot describe are skipped; the count is the rows actually written. */
    method WriteSuppressions(pairs: seq<(int, int)>, described: set<int>, origin: Origin) returns (written: nat)
      requires OneActiveEach(ledger) && NoRepeats(pairs)
      modifies this`ledger
      ensures ledger == Inserted(old(ledger), DescribedOf(pairs, described), origin)
      ensures written == NewPairs(old(ledger), DescribedOf(pairs, described)) && |ledger| == |old(ledger)| + written
      ensures AllStandOnce(ledger, pairs, described) && OneActiveEach(ledger)
    {
      var rows := DescribedOf(pairs, described);
      InsertedExact(ledger, rows, origin);
      InsertedCount(ledger, rows, origin);
      var after := Inserted(ledger, rows, origin);
      written := |after| - |ledger|;
      ledger := after;
    }

    /**
     merge_brokers: reads the active ids; `meanwhile` runs; its transaction moves the losers' identities
     onto the least of the ids it read.
     */
    method MergeBrokers(ids: set<int>, group: int, now: int, meanwhile: seq<Op>) returns (r: Result<Merged>)
      modifies this`owner, this`brokers, this`events, this`ledger
      ensures r.MergeError? <==> |ActiveAmong(old(View()), ids)| < 2
      ensures r.MergeError? ==> View() == old(View())
      ensures r.Ok? ==> ActiveAmong(old(View()), ids) == {r.value.survivor} + r.value.retired
      ensures r.Ok? ==> r.value.survivor !in r.value.retired
      ensures r.Ok? ==> MergeLeaves(Run(old(View()), meanwhile), View(), ActiveAmong(old(View()), ids),
                                    r.value.survivor, group, now)
      ensures r.Ok? ==> View() == MergeCommit(Run(old(View()), meanwhile), ActiveOf(old(View()), ids), group, now)
      ensures r.Ok? ==> forall i :: i in owner ==> owner[i] !in r.value.retired
      ensures meanwhile == [] && OwnershipInv(old(View())) ==> OwnershipInv(View())
      ensures r.Ok? && LedgerInv(Run(old(View()), meanwhile)) ==> LedgerInv(View())
    {
      ghost var before := View();
      MergeExact(before, ids, group, now);
      if |ids| < 2 {
        return MergeError("need at least two brokers to merge");
      }
      var active := set id | id in ids && id in brokers && brokers[id].active;
      assert active == ActiveOf(before, ids) == ActiveAmong(before, ids);
      if |active| < 2 {
        return MergeError("fewer than two of the given brokers are active");
      }
      assert active == {} ==> |active| == 0;
      var survivor := Least(active);
      assert active == {survivor} + (active - {survivor});
      Others(meanwhile);
      ghost var mid := View();
      CommitMerge(active, group, now);
      if meanwhile == [] {
        UninterruptedMerge(before, mid, active, group, now);
      }
      if LedgerInv(mid) {
        MergeKeepsLedger(mid, active, group, now);
      }
      r := Ok(Merged(survivor, active - {survivor}));
    }

    /** Its transaction. */
    method CommitMerge(active: set<int>, group: int, now: int)
      requires active != {}
      modifies this`owner, this`brokers, this`events, this`ledger
      ensures View() == MergeCommit(old(View()), active, group, now)
      ensures MergeLeaves(old(View()), View(), active, Least(active), group, now)
    {
      CommitLeaves(View(), active, group, now);
      var survivor := Least(active);
      var losers := active - {survivor};
      ledger := LiftForMerge(owner, ledger, active);
      events := events + MoveEvents(owner, losers, survivor, group);
      owner := MergedOwner(owner, active);
      brokers := MergedBrokers(brokers, active, now);
    }

    /** unmerge_group's first half: derive the separated pairs before the re-point, and record them. */
    method RecordSeparation(group: int) returns (written: nat, nothingSeparated: bool)
      requires OneActiveEach(ledger)
      modifies this`ledger
      ensures ledger == Unmerge(old(View()), group).ledger
      ensures OneActiveEach(ledger) && |ledger| == |old(ledger)| + written
      ensures nothingSeparated <==> NothingSeparated(old(View()), group)
    {
      ghost var before := View();
      var restored := RestoredOwners(events, group);
      var cohort := CohortOwners(owner, restored);
      var pairs := SuppressionPairs(cohort);
      SeparationIs(before, group, cohort);
      nothingSeparated := restored != map[] && |pairs| == 0;
      written := WriteSuppressions(pairs, cohort.Keys, FromUnmerge(group));
    }

    /**
     Its second half: every restored identity is back under the broker it left, the retired brokers are
     active with no merge on them, the group's events are undone, and nothing else changes.
     */
    method PutBack(group: int, retired: set<int>)
      modifies this`owner, this`brokers, this`events
      ensures forall i :: i in LiveIdentities(old(events), group) ==>
                i in owner && owner[i] == old(events)[(group, i)].prev
      ensures forall i :: i in old(owner) && i !in LiveIdentities(old(events), group) ==>
                i in owner && owner[i] == old(owner)[i]
      ensures forall id :: id in old(brokers) ==>
                id in brokers && brokers[id] == if id in retired then ACTIVE else old(brokers)[id]
      ensures LiveIdentities(events, group) == {}
      ensures forall k :: k in old(events) && k.0 != group ==> k in events && events[k] == old(events)[k]
      ensures View() == UnmergeCommit(old(View()), group, retired).(ledger := ledger)
    {
      owner := owner + RestoredOwners(events, group);
      brokers := RevivedBrokers(brokers, retired);
      events := UndoneEvents(events, group);
    }

    /** unmerge_group's transaction. */
    method CommitUndo(group: int, retired: set<int>) returns (written: nat, nothingSeparated: bool)
      requires OneActiveEach(ledger)
      modifies this`owner, this`brokers, this`events, this`ledger
      ensures View() == UnmergeCommit(old(View()), group, retired)
      ensures UndoLeaves(old(View()), View(), group, retired)
      ensures |ledger| == |old(ledger)| + written && OneActiveEach(ledger)
      ensures nothingSeparated <==> NothingSeparated(old(View()), group)
    {
      UndoCommitLeaves(View(), group, retired);
      written, nothingSeparated := RecordSeparation(group);
      PutBack(group, retired);
    }

    /**
     unmerge_group: None when the group has no live event; `meanwhile` runs between its read and its
     transaction.
     */
    method UnmergeGroup(group: int, meanwhile: seq<Op>) returns (r: Option<Unmerged>)
      requires OneActiveEach(ledger)
      modifies this`owner, this`brokers, this`events, this`ledger
      ensures r == None <==> forall i :: !Restored(old(View()), group, i)
      ensures r == None ==> View() == old(View())
      ensures r.Some? ==> forall id :: id in r.value.retired <==>
                exists i :: Restored(old(View()), group, i) && old(events)[(group, i)].retired == id
      ensures r.Some? ==> UndoLeaves(Run(old(View()), meanwhile), View(), group, r.value.retired)
      ensures r.Some? ==> View() == UnmergeCommit(Run(old(View()), meanwhile), group, r.value.retired)
      ensures r.Some? ==> |ledger| == |Run(old(View()), meanwhile).ledger| + r.value.written
      ensures r.Some? ==>
                (r.value.nothingSeparated <==> NothingSeparated(Run(old(View()), meanwhile), group))
      ensures OneActiveEach(ledger)
    {
      LiveAreRestored(View(), group);
      if LiveIdentities(events, group) == {} {
        return None;
      }
      OneActiveAlways(View(), meanwhile);
      var retired := RetiredBrokers(events, group);
      Others(meanwhile);
      var written, nothingSeparated := CommitUndo(group, retired);
      r := Some(Unmerged(retired, written, nothingSeparated));
    }

    /** dismiss_candidate: None when the card is not proposed any more. */
    method DismissCandidate(candidate: int) returns (written: Option<nat>)
      requires OneActiveEach(ledger)
      modifies this`candidates, this`ledger
      ensures written == None ==> View() == old(View()) && candidates == old(candidates)
      ensures written.Some? <==> candidate in old(candidates) && old(candidates)[candidate].proposed
      ensures written.Some? ==> View() == Dismiss(old(View()), old(candidates)[candidate], candidate)
      ensures written.Some? ==> DismissLeaves(old(View()), View(), old(candidates)[candidate], candidate)
      ensures written.Some? ==>
        candidates == old(candidates)[candidate := old(candidates)[candidate].(proposed := false)]
      ensures written.Some? ==> written.value == |ledger| - |old(ledger)|
      ensures old(LedgerInv(View())) ==> LedgerInv(View())
      ensures OneActiveEach(ledger)
    {
      if candidate !in candidates || !candidates[candidate].proposed {
        return None;
      }
      var card := candidates[candidate];
      DismissalIs(View(), card, candidate);
      candidates := candidates[candidate := card.(proposed := false)];
      var held := HeldBy(owner, DismissedBrokers(card));
      var n := WriteSuppressions(SuppressionPairs(held), held.Keys, FromDismiss(candidate));
      written := Some(n);
    }

    /** lift_suppression: None for an unknown id, an error for one already lifted. */
    method LiftSuppression(k: int, reason: string) returns (r: Option<Result<int>>)
      requires OneActiveEach(ledger)
      modifies this`ledger
      ensures View() == LiftOrKeep(old(View()), k, reason)
      ensures r == None <==> !(0 <= k < |old(ledger)|)
      ensures r.Some? ==> (r.value.MergeError? <==> old(ledger)[k].lifted.Some?)
      ensures r.Some? && r.value.Ok? ==>
        ledger == old(ledger)[k := old(ledger)[k].(lifted := Some(reason))]
        && !Suppressed(ledger, ledger[k].lo, ledger[k].hi)
      ensures !(r.Some? && r.value.Ok?) ==> View() == old(View())
      ensures old(LedgerInv(View())) ==> LedgerInv(View())
      ensures OneActiveEach(ledger)
    {
      if LedgerInv(View()) {
        LiftKeepsLedger(View(), k, reason);
      }
      if !(0 <= k < |ledger|) {
        return None;
      }
      if ledger[k].lifted.Some? {
        return Some(MergeError("suppression already lifted"));
      }
      ledger := ledger[k := ledger[k].(lifted := Some(reason))];
      r := Some(Ok(k));
    }
  }
}
