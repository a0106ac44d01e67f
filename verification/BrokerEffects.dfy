/** What each operator action leaves in the broker tables, row by row, and what it leaves alone. */
module BrokerEffects {
  import opened Common
  import opened BrokerReview
  import opened BrokerLedger

  // ---- merge -------------------------------------------------------------------------------------

  /** Row `k` is a standing NO over identities of two different merging brokers. */
  ghost predicate Overridden(b: Book, k: int, active: set<int>)
    requires 0 <= k < |b.ledger|
  {
    var s := b.ledger[k];
    && s.lifted == None && s.lo in b.owner && s.hi in b.owner
    && b.owner[s.lo] in active && b.owner[s.hi] in active && b.owner[s.lo] != b.owner[s.hi]
  }

  ghost predicate OwnersMerged(b: Book, v: Book, active: set<int>, survivor: int) {
    v.owner.Keys == b.owner.Keys
    && forall i :: i in b.owner ==> v.owner[i] == if b.owner[i] in active then survivor else b.owner[i]
  }

  ghost predicate BrokersMerged(b: Book, v: Book, active: set<int>, survivor: int, now: int) {
    v.brokers.Keys == b.brokers.Keys
    && forall id :: id in b.brokers ==>
         if id in active && id != survivor then
           !v.brokers[id].active && v.brokers[id].mergedInto == Some(survivor) && v.brokers[id].mergedAt == Some(now)
         else v.brokers[id] == b.brokers[id]
  }

  /** The identity leaves a broker that the merge retires. */
  ghost predicate MovedAway(b: Book, i: int, active: set<int>, survivor: int) {
    i in b.owner && b.owner[i] in active && b.owner[i] != survivor
  }

  /** One live event for each identity moved, with where it came from; every other event as it was. */
  ghost predicate MovesLogged(b: Book, v: Book, active: set<int>, survivor: int, group: int) {
    forall g, i ::
      if g == group && MovedAway(b, i, active, survivor) then
        (g, i) in v.events
        && var e := v.events[(g, i)];
           e.survivor == survivor && e.retired == b.owner[i] && e.prev == b.owner[i] && !e.undone
      else ((g, i) in v.events <==> (g, i) in b.events)
           && ((g, i) in b.events ==> v.events[(g, i)] == b.events[(g, i)])
  }

  ghost predicate NosOverridden(b: Book, v: Book, active: set<int>) {
    |v.ledger| == |b.ledger|
    && forall k :: 0 <= k < |b.ledger| ==>
         v.ledger[k] == b.ledger[k].(lifted := v.ledger[k].lifted)
         && v.ledger[k].lifted == if Overridden(b, k, active) then Some("operator_merge") else b.ledger[k].lifted
  }

  /** A merge of these active brokers: everything of theirs goes to the least of them. */
  ghost predicate MergeLeaves(b: Book, v: Book, active: set<int>, survivor: int, group: int, now: int) {
    && survivor in active && (forall id :: id in active ==> survivor <= id)
    && OwnersMerged(b, v, active, survivor) && BrokersMerged(b, v, active, survivor, now)
    && MovesLogged(b, v, active, survivor, group) && NosOverridden(b, v, active)
  }

  lemma CommitLeaves(b: Book, active: set<int>, group: int, now: int)
    requires active != {}
    ensures MergeLeaves(b, MergeCommit(b, active, group, now), active, Least(active), group, now)
  {
    var v, survivor := MergeCommit(b, active, group, now), Least(active);
    forall k | 0 <= k < |b.ledger|
      ensures Overridden(b, k, active) <==> LiftedByMerge(b.owner, b.ledger[k], active)
    {
    }
    forall g, i
      ensures (g, i) in MoveEvents(b.owner, Losers(active), survivor, group) <==>
                g == group && MovedAway(b, i, active, survivor)
    {
    }
  }

  /** The ids that are active brokers. */
  ghost function ActiveAmong(b: Book, ids: set<int>): set<int> {
    set id | id in ids && id in b.brokers && b.brokers[id].active
  }

  /** A merge of at least two active brokers is committed; any other changes nothing. */
  lemma MergeExact(b: Book, ids: set<int>, group: int, now: int)
    ensures var v, active := Do(b, DoMerge(ids, group, now)), ActiveAmong(b, ids);
            if |active| >= 2 then MergeLeaves(b, v, active, Least(active), group, now) else v == b
    ensures Merge(b, ids, group, now).Ok? <==> |ActiveAmong(b, ids)| >= 2
  {
    assert ActiveAmong(b, ids) == ActiveOf(b, ids);
    assert ids == ActiveOf(b, ids) + (ids - ActiveOf(b, ids));
    if ActiveOf(b, ids) != {} {
      CommitLeaves(b, ActiveOf(b, ids), group, now);
    }
  }

  // ---- unmerge -----------------------------------------------------------------------------------

  /** The identity has an event of the group that is not undone. */
  ghost predicate Restored(b: Book, group: int, i: int) {
    (group, i) in b.events && !b.events[(group, i)].undone
  }

  /** The identity sits under a broker that also holds a restored one. */
  ghost predicate InCohort(b: Book, group: int, i: int) {
    i in b.owner && exists r :: Restored(b, group, r) && r in b.owner && b.owner[r] == b.owner[i]
  }

  /** The undo leaves the two, together in its cohort, under different brokers. */
  ghost predicate Separated(b: Book, v: Book, group: int, lo: int, hi: int) {
    && lo < hi && InCohort(b, group, lo) && InCohort(b, group, hi)
    && lo in v.owner && hi in v.owner && v.owner[lo] != v.owner[hi]
  }

  ghost predicate OwnersRestored(b: Book, v: Book, group: int) {
    forall i ::
      if Restored(b, group, i) then i in v.owner && v.owner[i] == b.events[(group, i)].prev
      else (i in v.owner <==> i in b.owner) && (i in b.owner ==> v.owner[i] == b.owner[i])
  }

  ghost predicate BrokersRevived(b: Book, v: Book, retired: set<int>) {
    v.brokers.Keys == b.brokers.Keys
    && forall id :: id in b.brokers ==>
         if id in retired then
           v.brokers[id].active && v.brokers[id].mergedInto == None && v.brokers[id].mergedAt == None
         else v.brokers[id] == b.brokers[id]
  }

  ghost predicate EventsUndone(b: Book, v: Book, group: int) {
    v.events.Keys == b.events.Keys
    && forall k :: k in b.events ==>
         v.events[k] == b.events[k].(undone := v.events[k].undone)
         && v.events[k].undone == (b.events[k].undone || k.0 == group)
  }

  /** The old rows stay; each new one is an active row of this origin; these pairs stand besides the old ones. */
  ghost predicate NosAdded(was: seq<Suppression>, now: seq<Suppression>, decided: (int, int) -> bool, origin: Origin) {
    && |was| <= |now| && now[..|was|] == was
    && (forall k :: |was| <= k < |now| ==>
          now[k].origin == origin && now[k].lifted == None
          && decided(now[k].lo, now[k].hi) && !Suppressed(was, now[k].lo, now[k].hi))
    && (forall lo, hi :: decided(lo, hi) ==> StandsOnce(now, lo, hi))
  }

  /** An undo over the brokers its list names. */
  ghost predicate UndoLeaves(b: Book, v: Book, group: int, retired: set<int>) {
    && OwnersRestored(b, v, group) && BrokersRevived(b, v, retired) && EventsUndone(b, v, group)
    && NosAdded(b.ledger, v.ledger, (lo, hi) => Separated(b, v, group, lo, hi), FromUnmerge(group))
  }

  lemma InsertAdds(ledger: seq<Suppression>, pairs: seq<(int, int)>, decided: (int, int) -> bool, origin: Origin)
    requires OneActiveEach(ledger) && forall lo, hi :: (lo, hi) in pairs <==> decided(lo, hi)
    ensures NosAdded(ledger, Inserted(ledger, pairs, origin), decided, origin)
  {
    InsertedExact(ledger, pairs, origin);
  }

  lemma CohortIs(b: Book, group: int, i: int)
    ensures i in Cohort(b.owner, RestoredOwners(b.events, group).Keys) <==> InCohort(b, group, i)
    ensures i in RestoredOwners(b.events, group) <==> Restored(b, group, i)
  {
    forall r
      ensures r in RestoredOwners(b.events, group) <==> Restored(b, group, r)
    {
      if Restored(b, group, r) {
        assert (group, r) in b.events && (group, r).0 == group;
      }
    }
  }

  lemma UndoTables(b: Book, group: int, retired: set<int>)
    ensures var v := UnmergeCommit(b, group, retired);
            OwnersRestored(b, v, group) && BrokersRevived(b, v, retired) && EventsUndone(b, v, group)
  {
    forall i
      ensures i in RestoredOwners(b.events, group) <==> Restored(b, group, i)
    {
      CohortIs(b, group, i);
    }
  }

  lemma UndoPairs(b: Book, group: int, retired: set<int>, lo: int, hi: int)
    ensures var v := UnmergeCommit(b, group, retired);
            Separated(b, v, group, lo, hi) <==>
              (lo, hi) in SuppressionPairs(CohortOwners(b.owner, RestoredOwners(b.events, group)))
  {
    SeparationsAre(b.owner, RestoredOwners(b.events, group));
    CohortIs(b, group, lo);
    CohortIs(b, group, hi);
  }

  lemma {:induction false} UndoCommitLeaves(b: Book, group: int, retired: set<int>)
    requires OneActiveEach(b.ledger)
    ensures UndoLeaves(b, UnmergeCommit(b, group, retired), group, retired)
  {
    var v := UnmergeCommit(b, group, retired);
    var pairs := SuppressionPairs(CohortOwners(b.owner, RestoredOwners(b.events, group)));
    UndoTables(b, group, retired);
    forall lo, hi
      ensures (lo, hi) in pairs <==> Separated(b, v, group, lo, hi)
    {
      UndoPairs(b, group, retired, lo, hi);
    }
    InsertAdds(b.ledger, pairs, (lo, hi) => Separated(b, v, group, lo, hi), FromUnmerge(group));
  }

  lemma LiveAreRestored(b: Book, group: int)
    ensures forall i :: i in LiveIdentities(b.events, group) <==> Restored(b, group, i)
    ensures LiveIdentities(b.events, group) == {} <==> forall i :: !Restored(b, group, i)
    ensures forall id :: id in RetiredBrokers(b.events, group) <==>
              exists i :: Restored(b, group, i) && b.events[(group, i)].retired == id
  {
    forall i
      ensures i in LiveIdentities(b.events, group) <==> Restored(b, group, i)
    {
      CohortIs(b, group, i);
    }
    if LiveIdentities(b.events, group) != {} {
      assert Restored(b, group, SomeElement(LiveIdentities(b.events, group)));
    }
  }

  /** An undo of a group with a live event; any other changes nothing. */
  lemma {:induction false} UnmergeExact(b: Book, group: int)
    requires OneActiveEach(b.ledger)
    ensures (exists i :: Restored(b, group, i)) ==>
              UndoLeaves(b, Do(b, DoUnmerge(group)), group, RetiredBrokers(b.events, group))
    ensures (forall i :: !Restored(b, group, i)) ==> Do(b, DoUnmerge(group)) == b
  {
    LiveAreRestored(b, group);
    if LiveIdentities(b.events, group) != {} {
      var retired := RetiredBrokers(b.events, group);
      UndoCommitLeaves(b, group, retired);
      assert Do(b, DoUnmerge(group)) == UnmergeCommit(b, group, retired);
    }
  }

  // ---- dismissing and lifting --------------------------------------------------------------------

  /** The card is a judgement that two people differ: across firms, or over a readable pair of identities. */
  ghost predicate Judges(c: Candidate) {
    || c.reason == NameCrossFirm
    || (c.reason == ContactBridgeReview && c.evidence.Some? && |c.evidence.value| == 2
        && c.evidence.value[0] != c.evidence.value[1])
  }

  /** The identities sit under two different brokers of the card. */
  ghost predicate Apart(b: Book, c: Candidate, lo: int, hi: int) {
    && lo < hi && lo in b.owner && hi in b.owner && b.owner[lo] != b.owner[hi]
    && c.brokerIds.Some? && b.owner[lo] in c.brokerIds.value && b.owner[hi] in c.brokerIds.value
  }

  /** A judging card keeps every such pair apart; any other card records nothing. */
  ghost predicate DismissLeaves(b: Book, v: Book, c: Candidate, candidate: int) {
    && v == b.(ledger := v.ledger)
    && (!Judges(c) ==> v == b)
    && (Judges(c) ==> NosAdded(b.ledger, v.ledger, (lo, hi) => Apart(b, c, lo, hi), FromDismiss(candidate)))
  }

  lemma TwoOfTheCards(ids: set<int>, x: int, y: int)
    requires x in ids && y in ids && x != y
    ensures |ids| >= 2
  {
    assert ids == {x, y} + (ids - {x, y});
  }

  lemma DismissedExact(c: Candidate, x: int, y: int)
    requires x != y
    ensures x in DismissedBrokers(c) && y in DismissedBrokers(c) <==>
              Judges(c) && c.brokerIds.Some? && x in c.brokerIds.value && y in c.brokerIds.value
  {
    if c.brokerIds.Some? && x in c.brokerIds.value && y in c.brokerIds.value {
      TwoOfTheCards((set i | i in c.brokerIds.value), x, y);
    }
  }

  lemma DismissPairs(b: Book, c: Candidate, lo: int, hi: int)
    ensures (lo, hi) in SuppressionPairs(HeldBy(b.owner, DismissedBrokers(c))) <==> Judges(c) && Apart(b, c, lo, hi)
  {
    SuppressionPairsExact(HeldBy(b.owner, DismissedBrokers(c)));
    if lo in b.owner && hi in b.owner && b.owner[lo] != b.owner[hi] {
      DismissedExact(c, b.owner[lo], b.owner[hi]);
    }
  }

  lemma {:induction false} DismissWrites(b: Book, c: Candidate, candidate: int)
    requires OneActiveEach(b.ledger)
    ensures DismissLeaves(b, Dismiss(b, c, candidate), c, candidate)
  {
    var pairs := SuppressionPairs(HeldBy(b.owner, DismissedBrokers(c)));
    forall lo, hi
      ensures (lo, hi) in pairs <==> Judges(c) && Apart(b, c, lo, hi)
    {
      DismissPairs(b, c, lo, hi);
    }
    assert pairs != [] ==> (pairs[0].0, pairs[0].1) in pairs;
    if Judges(c) {
      InsertAdds(b.ledger, pairs, (lo, hi) => Apart(b, c, lo, hi), FromDismiss(candidate));
    }
  }

  lemma DismissExact(b: Book, c: Candidate, candidate: int)
    requires OneActiveEach(b.ledger)
    ensures var v := Do(b, DoDismiss(c, candidate));
            if c.proposed then DismissLeaves(b, v, c, candidate) else v == b
  {
    DismissWrites(b, c, candidate);
  }

  /** A standing row is lifted for the reason given; an unknown or lifted one changes nothing. */
  lemma LiftExact(b: Book, k: int, reason: string)
    ensures var v := Do(b, DoLift(k, reason));
            if 0 <= k < |b.ledger| && b.ledger[k].lifted == None
            then v == b.(ledger := v.ledger) && |v.ledger| == |b.ledger|
                 && (forall j :: 0 <= j < |b.ledger| && j != k ==> v.ledger[j] == b.ledger[j])
                 && v.ledger[k] == b.ledger[k].(lifted := Some(reason))
            else v == b
  {}
}
