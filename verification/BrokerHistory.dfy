/**
 Undoing merges: what an unmerge restores, whole histories undone newest-first, and the two ways the
 round trip fails.
 */
module BrokerHistory {
  import opened Common
  import opened BrokerReview
  import opened BrokerLedger
  import opened BrokerInvariants

  /** Every loser of the merge holds at least one identity, so the event log can bring it back. */
  ghost predicate LosersHold(b: Book, merging: set<int>)
    requires merging != {}
  {
    forall l :: l in Losers(merging) ==> Holds(b.owner, l)
  }

  ghost predicate Holds(owner: map<int, int>, broker: int) {
    exists i :: i in owner && owner[i] == broker
  }

  /** The events not undone: all an unmerge ever reads. */
  ghost function LiveEvents(events: map<(int, int), MergeEvent>): map<(int, int), MergeEvent> {
    map k | k in events && !events[k].undone :: events[k]
  }

  /** Same owners, same brokers (status, merged_into, merged_at), same live events. */
  ghost predicate SameStanding(a: Book, b: Book) {
    a.owner == b.owner && a.brokers == b.brokers && LiveEvents(a.events) == LiveEvents(b.events)
  }

  /** Same owners and same live events. */
  ghost predicate SameOwners(a: Book, b: Book) {
    a.owner == b.owner && LiveEvents(a.events) == LiveEvents(b.events)
  }

  ghost predicate ActivesPointNowhere(b: Book) {
    forall id :: id in b.brokers && b.brokers[id].active ==> b.brokers[id] == ACTIVE
  }

  ghost predicate Wellformed(b: Book) {
    OwnershipInv(b) && ActivesPointNowhere(b)
  }

  ghost predicate Mergeable(b: Book, merging: set<int>, group: int) {
    |merging| >= 2 && (forall id :: id in merging ==> IsActive(b, id)) && FreshGroup(b, group)
  }

  // ---- one merge and its undo ------------------------------------------------------------------

  /** The events a merge appends are live, under its own group, and say where each identity came from. */
  lemma MoveEventsExact(owner: map<int, int>, losers: set<int>, survivor: int, group: int)
    ensures forall k :: k in MoveEvents(owner, losers, survivor, group) <==>
              k.0 == group && k.1 in owner && owner[k.1] in losers
    ensures forall k :: k in MoveEvents(owner, losers, survivor, group) ==>
              MoveEvents(owner, losers, survivor, group)[k] == MergeEvent(survivor, owner[k.1], owner[k.1], false)
  {
    var moved := set i | i in owner && owner[i] in losers :: (group, i);
    forall k: (int, int) | k.0 == group && k.1 in owner && owner[k.1] in losers
      ensures k in MoveEvents(owner, losers, survivor, group)
    {
      var i := k.1;
      assert (group, i) in moved;
    }
  }

  lemma LiveIdentitiesOf(events: map<(int, int), MergeEvent>, group: int)
    ensures forall i :: i in LiveIdentities(events, group) <==> (group, i) in LiveEvents(events)
  {}

  /** Reading a merge's events back, from a log whose live part is the old one plus that merge. */
  lemma MoveIsRead(events: map<(int, int), MergeEvent>, later: map<(int, int), MergeEvent>,
                   owner: map<int, int>, losers: set<int>, survivor: int, group: int)
    requires forall k :: k in events ==> k.0 != group
    requires LiveEvents(later) == LiveEvents(events + MoveEvents(owner, losers, survivor, group))
    ensures forall i :: i in LiveIdentities(later, group) <==> i in owner && owner[i] in losers
    ensures forall i :: i in LiveIdentities(later, group) ==>
              later[(group, i)].prev == later[(group, i)].retired == owner[i]
  {
    var moved := MoveEvents(owner, losers, survivor, group);
    MoveEventsExact(owner, losers, survivor, group);
    LiveIdentitiesOf(later, group);
    forall i
      ensures (group, i) in LiveEvents(later) <==> i in owner && owner[i] in losers
      ensures (group, i) in LiveEvents(later) ==> later[(group, i)].prev == later[(group, i)].retired == owner[i]
    {
      var k := (group, i);
      assert k.0 == group;
      assert k in LiveEvents(later) <==> k in LiveEvents(events + moved);
      assert k in LiveEvents(later) ==> later[k] == LiveEvents(later)[k] == moved[k];
    }
  }

  /** Undoing it leaves the old log's live part. */
  lemma MoveIsErased(events: map<(int, int), MergeEvent>, later: map<(int, int), MergeEvent>,
                     moved: map<(int, int), MergeEvent>, group: int)
    requires forall k :: k in events ==> k.0 != group
    requires forall k :: k in moved ==> k.0 == group
    requires LiveEvents(later) == LiveEvents(events + moved)
    ensures LiveEvents(UndoneEvents(later, group)) == LiveEvents(events)
  {
    forall k ensures k in LiveEvents(UndoneEvents(later, group)) <==> k in LiveEvents(events) {
      assert k in LiveEvents(later) <==> k in LiveEvents(events + moved);
    }
    forall k | k in LiveEvents(events) ensures LiveEvents(UndoneEvents(later, group))[k] == LiveEvents(events)[k] {
      assert k in LiveEvents(events + moved) && LiveEvents(later)[k] == LiveEvents(events + moved)[k];
    }
  }

  /** What an unmerge reads while the book still stands as the merge left it. */
  lemma MergeIsRead(b: Book, merging: set<int>, group: int, now: int, c: Book)
    requires merging != {} && FreshGroup(b, group) && SameOwners(MergeCommit(b, merging, group, now), c)
    ensures forall i :: i in LiveIdentities(c.events, group) <==> i in b.owner && b.owner[i] in Losers(merging)
    ensures forall i :: i in LiveIdentities(c.events, group) ==>
              c.events[(group, i)].prev == c.events[(group, i)].retired == b.owner[i]
    ensures LiveEvents(UndoneEvents(c.events, group)) == LiveEvents(b.events)
  {
    MoveIsRead(b.events, c.events, b.owner, Losers(merging), Least(merging), group);
    MoveEventsExact(b.owner, Losers(merging), Least(merging), group);
    MoveIsErased(b.events, c.events, MoveEvents(b.owner, Losers(merging), Least(merging), group), group);
  }

  lemma OwnersGoHome(owner: map<int, int>, merging: set<int>, restored: map<int, int>)
    requires merging != {}
    requires forall i :: i in restored <==> i in owner && owner[i] in Losers(merging)
    requires forall i :: i in restored ==> restored[i] == owner[i]
    ensures MergedOwner(owner, merging) + restored == owner
  {
    var after := MergedOwner(owner, merging) + restored;
    forall i ensures i in after <==> i in owner {
    }
    forall i | i in owner ensures after[i] == owner[i] {
      assert i in restored <==> owner[i] in Losers(merging);
    }
  }

  /** Undoing a merge from a state that still stands as the merge left it restores every owner. */
  lemma UndoRestoresOwners(b: Book, merging: set<int>, group: int, now: int, c: Book)
    requires merging != {} && FreshGroup(b, group) && SameOwners(MergeCommit(b, merging, group, now), c)
    ensures c.owner + RestoredOwners(c.events, group) == b.owner
  {
    MergeIsRead(b, merging, group, now, c);
    OwnersGoHome(b.owner, merging, RestoredOwners(c.events, group));
  }

  /** The brokers an undo revives are the losers that held an identity. */
  lemma RevivedAreTheHolders(b: Book, merging: set<int>, group: int, now: int, c: Book)
    requires merging != {} && FreshGroup(b, group) && SameOwners(MergeCommit(b, merging, group, now), c)
    ensures forall l :: l in RetiredBrokers(c.events, group) <==> l in Losers(merging) && Holds(b.owner, l)
  {
    MergeIsRead(b, merging, group, now, c);
    forall l | l in Losers(merging) && Holds(b.owner, l) ensures l in RetiredBrokers(c.events, group) {
      var i :| i in b.owner && b.owner[i] == l;
      assert i in LiveIdentities(c.events, group);
    }
  }

  /** It restores the brokers too exactly when every loser held an identity. */
  lemma UndoRestoresBrokersIff(b: Book, merging: set<int>, group: int, now: int, c: Book)
    requires merging != {} && Mergeable(b, merging, group)
    requires ActivesPointNowhere(b) && SameStanding(MergeCommit(b, merging, group, now), c)
    ensures RevivedBrokers(c.brokers, RetiredBrokers(c.events, group)) == b.brokers <==> LosersHold(b, merging)
  {
    RevivedAreTheHolders(b, merging, group, now, c);
    RevivalRestoresIff(b, merging, now, RetiredBrokers(c.events, group));
  }

  lemma RevivalRestoresIff(b: Book, merging: set<int>, now: int, revived: set<int>)
    requires merging != {} && (forall id :: id in merging ==> IsActive(b, id)) && ActivesPointNowhere(b)
    requires forall l :: l in revived <==> l in Losers(merging) && Holds(b.owner, l)
    ensures RevivedBrokers(MergedBrokers(b.brokers, merging, now), revived) == b.brokers <==> LosersHold(b, merging)
  {
    var after := RevivedBrokers(MergedBrokers(b.brokers, merging, now), revived);
    forall l | l in Losers(merging) ensures after[l] == b.brokers[l] <==> l in revived {
      assert b.brokers[l] == ACTIVE;
    }
    forall id | id in b.brokers && id !in Losers(merging) ensures after[id] == b.brokers[id] {}
    if LosersHold(b, merging) {
      assert after == b.brokers;
    } else {
      var l :| l in Losers(merging) && !Holds(b.owner, l);
      assert after[l] != b.brokers[l];
    }
  }

  // ---- whole histories -------------------------------------------------------------------------

  /**
   A history whose merges are undone newest-first: `Span` is a merge, the balanced history that runs
   while it stands, its undo, and what follows; dismissals and lifts fall anywhere.
   */
  datatype Nested =
    | Done
    | Span(merging: set<int>, group: int, now: int, inner: Nested, after: Nested)
    | Aside(card: Candidate, candidate: int, after: Nested)
    | Raise(k: int, reason: string, after: Nested)

  function Play(b: Book, h: Nested): Book
    decreases h
  {
    match h
    case Done => b
    case Span(merging, group, now, inner, after) =>
      if merging == {} then Play(b, after)
      else Play(Unmerge(Play(MergeCommit(b, merging, group, now), inner), group), after)
    case Aside(card, candidate, after) => Play(Dismiss(b, card, candidate), after)
    case Raise(k, reason, after) => Play(LiftOrKeep(b, k, reason), after)
  }

  /** Each merge is of at least two active brokers under a new group id. */
  ghost predicate Playable(b: Book, h: Nested)
    decreases h
  {
    match h
    case Done => true
    case Span(merging, group, now, inner, after) =>
      && merging != {} && Mergeable(b, merging, group)
      && Playable(MergeCommit(b, merging, group, now), inner)
      && Playable(Unmerge(Play(MergeCommit(b, merging, group, now), inner), group), after)
    case Aside(card, candidate, after) => Playable(Dismiss(b, card, candidate), after)
    case Raise(k, reason, after) => Playable(LiftOrKeep(b, k, reason), after)
  }

  /** No merge of it had a loser without an identity. */
  ghost predicate NoEmptyLoser(b: Book, h: Nested)
    decreases h
  {
    match h
    case Done => true
    case Span(merging, group, now, inner, after) =>
      && merging != {} && LosersHold(b, merging)
      && NoEmptyLoser(MergeCommit(b, merging, group, now), inner)
      && NoEmptyLoser(Unmerge(Play(MergeCommit(b, merging, group, now), inner), group), after)
    case Aside(card, candidate, after) => NoEmptyLoser(Dismiss(b, card, candidate), after)
    case Raise(k, reason, after) => NoEmptyLoser(LiftOrKeep(b, k, reason), after)
  }

  /** The same brokers, but that some active ones are merged away for good. */
  ghost predicate FewerActive(a: Book, b: Book) {
    a.brokers.Keys == b.brokers.Keys
    && forall id :: id in a.brokers ==>
         b.brokers[id] == a.brokers[id] || (a.brokers[id].active && !b.brokers[id].active)
  }

  lemma FewerChain(a: Book, b: Book, c: Book)
    requires FewerActive(a, b) && FewerActive(b, c)
    ensures FewerActive(a, c)
    ensures c.brokers == a.brokers <==> b.brokers == a.brokers && c.brokers == b.brokers
  {
    if c.brokers == a.brokers {
      forall id | id in a.brokers ensures b.brokers[id] == a.brokers[id] {
        assert c.brokers[id] == a.brokers[id];
      }
    }
  }

  lemma MergeKeepsWellformed(b: Book, merging: set<int>, group: int, now: int)
    requires Wellformed(b) && merging != {} && Mergeable(b, merging, group)
    ensures Wellformed(MergeCommit(b, merging, group, now))
  {
    MergeKeepsOwnership(b, merging, group, now);
  }

  lemma UnmergeKeepsWellformed(b: Book, group: int)
    requires Wellformed(b)
    ensures Wellformed(Unmerge(b, group))
  {
    UnmergeKeepsOwnership(b, group);
  }

  lemma LedgerWritesKeepStanding(b: Book, ledger: seq<Suppression>)
    requires Wellformed(b)
    ensures SameStanding(b, b.(ledger := ledger)) && Wellformed(b.(ledger := ledger))
  {}

  lemma LiftOnlyWritesLedger(b: Book, k: int, reason: string)
    ensures LiftOrKeep(b, k, reason) == b.(ledger := LiftOrKeep(b, k, reason).ledger)
  {}

  /** The brokers an undo revives, over brokers of which some more were lost meanwhile. */
  lemma RevivedFewer(b: Book, merging: set<int>, group: int, now: int, c: Book)
    requires merging != {} && Mergeable(b, merging, group) && ActivesPointNowhere(b)
    requires SameOwners(MergeCommit(b, merging, group, now), c) && FewerActive(MergeCommit(b, merging, group, now), c)
    ensures FewerActive(b, Unmerge(c, group))
    ensures forall id :: id in b.brokers ==>
      (Unmerge(c, group).brokers[id] == b.brokers[id] <==>
         if id in Losers(merging) then Holds(b.owner, id)
         else c.brokers[id] == MergeCommit(b, merging, group, now).brokers[id])
    ensures forall l :: l in Losers(merging) ==>
      l in b.brokers && c.brokers[l] == MergeCommit(b, merging, group, now).brokers[l]
  {
    var m, u := MergeCommit(b, merging, group, now), Unmerge(c, group);
    RevivedAreTheHolders(b, merging, group, now, c);
    forall id | id in b.brokers
      ensures u.brokers[id] == b.brokers[id] || (b.brokers[id].active && !u.brokers[id].active)
      ensures u.brokers[id] == b.brokers[id] <==>
                if id in Losers(merging) then Holds(b.owner, id) else c.brokers[id] == m.brokers[id]
    {
      if id in Losers(merging) {
        assert IsActive(b, id) && b.brokers[id] == ACTIVE && !m.brokers[id].active && c.brokers[id] == m.brokers[id];
      } else {
        assert m.brokers[id] == b.brokers[id] && u.brokers[id] == c.brokers[id];
      }
    }
  }

  lemma BrokersReturnIff(b: Book, merging: set<int>, m: map<int, Broker>, c: map<int, Broker>, u: map<int, Broker>)
    requires merging != {} && m.Keys == c.Keys == u.Keys == b.brokers.Keys
    requires forall l :: l in Losers(merging) ==> l in b.brokers && c[l] == m[l]
    requires forall id :: id in b.brokers ==>
      (u[id] == b.brokers[id] <==> if id in Losers(merging) then Holds(b.owner, id) else c[id] == m[id])
    ensures u == b.brokers <==> LosersHold(b, merging) && c == m
  {
    if u == b.brokers {
      forall l | l in Losers(merging) ensures Holds(b.owner, l) {
        assert u[l] == b.brokers[l];
      }
      forall id | id in m ensures c[id] == m[id] {
        assert u[id] == b.brokers[id];
      }
    }
    if LosersHold(b, merging) && c == m {
      forall id | id in b.brokers ensures u[id] == b.brokers[id] {
        assert id in Losers(merging) ==> Holds(b.owner, id);
      }
    }
  }

  /** One merge, what runs while it stands, and its undo. */
  lemma SpanReturns(b: Book, merging: set<int>, group: int, now: int, c: Book)
    requires merging != {} && Mergeable(b, merging, group) && ActivesPointNowhere(b)
    requires SameOwners(MergeCommit(b, merging, group, now), c) && FewerActive(MergeCommit(b, merging, group, now), c)
    ensures SameOwners(b, Unmerge(c, group)) && FewerActive(b, Unmerge(c, group))
    ensures Unmerge(c, group).brokers == b.brokers <==>
              LosersHold(b, merging) && c.brokers == MergeCommit(b, merging, group, now).brokers
  {
    UndoRestoresOwners(b, merging, group, now, c);
    MergeIsRead(b, merging, group, now, c);
    RevivedFewer(b, merging, group, now, c);
    BrokersReturnIff(b, merging, MergeCommit(b, merging, group, now).brokers, c.brokers, Unmerge(c, group).brokers);
  }

  /**
   Any history of merges undone newest-first restores every identity's owner and every live event; and
   every broker's status, merged_into and merged_at exactly when no merge of it had an empty loser.
   */
  lemma {:induction false} NewestFirstRestores(b: Book, h: Nested)
    requires Wellformed(b) && Playable(b, h)
    ensures SameOwners(b, Play(b, h)) && Wellformed(Play(b, h)) && FewerActive(b, Play(b, h))
    ensures Play(b, h).brokers == b.brokers <==> NoEmptyLoser(b, h)
    decreases h
  {
    match h
    case Done =>
    case Span(merging, group, now, inner, after) =>
      var m := MergeCommit(b, merging, group, now);
      MergeKeepsWellformed(b, merging, group, now);
      NewestFirstRestores(m, inner);
      var c := Play(m, inner);
      SpanReturns(b, merging, group, now, c);
      UnmergeKeepsWellformed(c, group);
      NewestFirstRestores(Unmerge(c, group), after);
      FewerChain(b, Unmerge(c, group), Play(b, h));
    case Aside(card, candidate, after) =>
      LedgerWritesKeepStanding(b, Dismiss(b, card, candidate).ledger);
      NewestFirstRestores(Dismiss(b, card, candidate), after);
    case Raise(k, reason, after) =>
      LiftOnlyWritesLedger(b, k, reason);
      LedgerWritesKeepStanding(b, LiftOrKeep(b, k, reason).ledger);
      NewestFirstRestores(LiftOrKeep(b, k, reason), after);
  }

  /** So when each loser holds an identity, such a history restores everything. */
  lemma NewestFirstRestoresAll(b: Book, h: Nested)
    requires Wellformed(b) && Playable(b, h)
    ensures SameStanding(b, Play(b, h)) <==> NoEmptyLoser(b, h)
  {
    NewestFirstRestores(b, h);
  }

  lemma SpanKeepsLedger(b: Book, merging: set<int>, group: int, now: int, c: Book)
    requires merging != {} && Mergeable(b, merging, group) && Wellformed(c) && LedgerInv(c)
    requires SameOwners(MergeCommit(b, merging, group, now), c) && FewerActive(MergeCommit(b, merging, group, now), c)
    ensures LedgerInv(Unmerge(c, group))
  {
    var m := MergeCommit(b, merging, group, now);
    MergeIsRead(b, merging, group, now, c);
    assert c.owner == MergedOwner(b.owner, merging);
    assert forall l :: l in Losers(merging) && l in c.brokers ==> c.brokers[l] == m.brokers[l];
    TogetherAndRetiredIsGathered(c, group);
    UnmergeKeepsLedger(c, group);
  }

  /** Undone newest-first, no unmerge ever leaves an active suppression over identities under one broker. */
  lemma {:induction false} NewestFirstKeepsLedger(b: Book, h: Nested)
    requires Wellformed(b) && Playable(b, h) && LedgerInv(b)
    ensures LedgerInv(Play(b, h))
    decreases h
  {
    match h
    case Done =>
    case Span(merging, group, now, inner, after) =>
      var m := MergeCommit(b, merging, group, now);
      MergeKeepsWellformed(b, merging, group, now);
      MergeKeepsLedger(b, merging, group, now);
      NewestFirstRestores(m, inner);
      NewestFirstKeepsLedger(m, inner);
      var c := Play(m, inner);
      SpanKeepsLedger(b, merging, group, now, c);
      UnmergeKeepsWellformed(c, group);
      NewestFirstKeepsLedger(Unmerge(c, group), after);
    case Aside(card, candidate, after) =>
      DismissKeepsLedger(b, card, candidate);
      LedgerWritesKeepStanding(b, Dismiss(b, card, candidate).ledger);
      NewestFirstKeepsLedger(Dismiss(b, card, candidate), after);
    case Raise(k, reason, after) =>
      LiftKeepsLedger(b, k, reason);
      LiftOnlyWritesLedger(b, k, reason);
      LedgerWritesKeepStanding(b, LiftOrKeep(b, k, reason).ledger);
      NewestFirstKeepsLedger(LiftOrKeep(b, k, reason), after);
  }

  // ---- the orders and reads that fail ----------------------------------------------------------

  /** Whether an unmerge of `group` moves `i`, and where to. */
  lemma ReadsEvent(events: map<(int, int), MergeEvent>, group: int, i: int)
    ensures i in RestoredOwners(events, group) <==> (group, i) in events && !events[(group, i)].undone
    ensures i in RestoredOwners(events, group) ==> RestoredOwners(events, group)[i] == events[(group, i)].prev
  {}

  /** What a merge of two brokers does to one identity. */
  lemma PairMergeAt(b: Book, low: int, high: int, group: int, i: int)
    requires low < high && i in b.owner && FreshGroup(b, group)
    ensures var v := MergeCommit(b, {low, high}, group, 0);
            && i in v.owner && v.owner[i] == (if b.owner[i] == high then low else b.owner[i])
            && ((group, i) in v.events <==> b.owner[i] == high)
            && (b.owner[i] == high ==> v.events[(group, i)] == MergeEvent(low, high, high, false))
            && (forall k :: k in b.events ==> k in v.events && v.events[k] == b.events[k])
            && (forall k :: k in v.events && k !in b.events ==> k.0 == group)
  {}

  /** An undo that separates two identities of one broker records the pair. */
  lemma SeparationRecorded(owner: map<int, int>, restored: map<int, int>, ledger: seq<Suppression>, origin: Origin,
                           x: int, y: int)
    requires x < y && OneActiveEach(ledger)
    requires x in owner && y in owner && owner[x] == owner[y] && (x in restored || y in restored)
    requires HomeOf(owner, restored, x) != HomeOf(owner, restored, y)
    ensures Suppressed(Inserted(ledger, SuppressionPairs(CohortOwners(owner, restored)), origin), x, y)
  {
    var owners := CohortOwners(owner, restored);
    SuppressionPairsExact(owners);
    InsertedExact(ledger, SuppressionPairs(owners), origin);
    var r :| r in {x, y} && r in restored;
    assert r in restored.Keys;
    assert (x, y) in SuppressionPairs(owners);
  }

  /**
   Merge r into q and then q into p, with an identity of r and one of q, undone oldest-first: whatever
   else the book holds, both end under q with an active suppression between them.
   */
  lemma OldestFirstContradictsLedger(b: Book, p: int, q: int, r: int, x: int, y: int, g: int, h: int)
    requires Wellformed(b) && LedgerInv(b) && p < q < r && IsActive(b, p) && IsActive(b, q) && IsActive(b, r)
    requires x in b.owner && y in b.owner && x < y && b.owner[x] == r && b.owner[y] == q
    requires FreshGroup(b, g) && FreshGroup(b, h) && g != h
    ensures var b2 := MergeCommit(MergeCommit(b, {q, r}, g, 0), {p, q}, h, 0);
            var b4 := Unmerge(Unmerge(b2, g), h);
            x in b4.owner && y in b4.owner && b4.owner[x] == b4.owner[y] == q
            && Suppressed(b4.ledger, x, y) && !LedgerInv(b4)
  {
    var b1 := MergeCommit(b, {q, r}, g, 0);
    PairMergeAt(b, q, r, g, x);
    PairMergeAt(b, q, r, g, y);
    MergeKeepsLedger(b, {q, r}, g, 0);
    var b2 := MergeCommit(b1, {p, q}, h, 0);
    PairMergeAt(b1, p, q, h, x);
    PairMergeAt(b1, p, q, h, y);
    MergeKeepsLedger(b1, {p, q}, h, 0);
    BothUndone(b2, g, h, x, y, p, q, r);
  }

  lemma BothUndone(b2: Book, g: int, h: int, x: int, y: int, p: int, q: int, r: int)
    requires LedgerInv(b2) && g != h && x < y && p < q < r
    requires x in b2.owner && y in b2.owner && b2.owner[x] == b2.owner[y] == p
    requires (g, x) in b2.events && b2.events[(g, x)] == MergeEvent(q, r, r, false) && (g, y) !in b2.events
    requires (h, x) in b2.events && b2.events[(h, x)] == MergeEvent(p, q, q, false)
    requires (h, y) in b2.events && b2.events[(h, y)] == MergeEvent(p, q, q, false)
    ensures var b4 := Unmerge(Unmerge(b2, g), h);
            x in b4.owner && y in b4.owner && b4.owner[x] == b4.owner[y] == q
            && Suppressed(b4.ledger, x, y) && !LedgerInv(b4)
  {
    FirstUndone(b2, g, h, x, y, p, q, r);
    SecondUndone(Unmerge(b2, g), h, x, y, p, q);
  }

  /** Undoing the older merge separates x from y, and records it. */
  lemma FirstUndone(b2: Book, g: int, h: int, x: int, y: int, p: int, q: int, r: int)
    requires LedgerInv(b2) && g != h && x < y && p < q < r
    requires x in b2.owner && y in b2.owner && b2.owner[x] == b2.owner[y] == p
    requires (g, x) in b2.events && b2.events[(g, x)] == MergeEvent(q, r, r, false) && (g, y) !in b2.events
    requires (h, x) in b2.events && (h, y) in b2.events
    ensures var b3 := Unmerge(b2, g);
            x in b3.owner && y in b3.owner && Suppressed(b3.ledger, x, y) && OneActiveEach(b3.ledger)
            && (h, x) in b3.events && b3.events[(h, x)] == b2.events[(h, x)]
            && (h, y) in b3.events && b3.events[(h, y)] == b2.events[(h, y)]
  {
    ReadsEvent(b2.events, g, x);
    ReadsEvent(b2.events, g, y);
    var away := RestoredOwners(b2.events, g);
    SeparationRecorded(b2.owner, away, b2.ledger, FromUnmerge(g), x, y);
    InsertedExact(b2.ledger, SuppressionPairs(CohortOwners(b2.owner, away)), FromUnmerge(g));
  }

  /** Undoing the newer one then puts both back under its loser, with the record standing. */
  lemma SecondUndone(b3: Book, h: int, x: int, y: int, p: int, q: int)
    requires x < y && x in b3.owner && y in b3.owner && Suppressed(b3.ledger, x, y) && OneActiveEach(b3.ledger)
    requires (h, x) in b3.events && b3.events[(h, x)] == MergeEvent(p, q, q, false)
    requires (h, y) in b3.events && b3.events[(h, y)] == MergeEvent(p, q, q, false)
    ensures var b4 := Unmerge(b3, h);
            x in b4.owner && y in b4.owner && b4.owner[x] == b4.owner[y] == q
            && Suppressed(b4.ledger, x, y) && !LedgerInv(b4)
  {
    ReadsEvent(b3.events, h, x);
    ReadsEvent(b3.events, h, y);
    var back := RestoredOwners(b3.events, h);
    var b4 := Unmerge(b3, h);
    var k :| 0 <= k < |b3.ledger| && Stands(b3.ledger[k], x, y);
    InsertedExact(b3.ledger, SuppressionPairs(CohortOwners(b3.owner, back)), FromUnmerge(h));
    assert Stands(b4.ledger[k], x, y) && !AgreesAt(b4.owner, b4.ledger[k]);
  }

  /**
   merge_brokers reads the active ids before its transaction. Once another merge has retired the
   survivor in between, committing the stale read leaves the moved identities under it.
   */
  lemma StaleReadStrandsIdentities(b: Book, p: int, q: int, r: int, x: int, g: int, h: int)
    requires Wellformed(b) && p < q < r && IsActive(b, p) && IsActive(b, q) && IsActive(b, r)
    requires x in b.owner && b.owner[x] == r && FreshGroup(b, h)
    ensures var meanwhile := MergeCommit(b, {p, q}, h, 0);
            OwnersActive(meanwhile) && !OwnersActive(MergeCommit(meanwhile, ActiveOf(b, {q, r}), g, 0))
  {
    assert ActiveOf(b, {q, r}) == {q, r};
    assert Least({q, r}) == q && Losers({q, r}) == {r};
    assert Least({p, q}) == p && Losers({p, q}) == {q};
    MergeKeepsOwnership(b, {p, q}, h, 0);
    PairMergeAt(b, p, q, h, x);
    var meanwhile := MergeCommit(b, {p, q}, h, 0);
    assert x in meanwhile.owner && meanwhile.owner[x] in Losers({q, r});
    StaleMergeKeepsOwnersIff(meanwhile, {q, r}, g, 0);
  }

  /**
   unmerge_group reads the group's retired brokers before its transaction. Once another undo of the group
   and a new merge ran in between, committing the stale list revives a broker that merge has retired.
   */
  lemma StaleUndoRevives(b: Book, p: int, r: int, g: int, h: int, now: int)
    requires Wellformed(b) && p < r && IsActive(b, p) && r in RetiredBrokers(b.events, g)
    ensures var undone := Unmerge(b, g);
            var c := MergeCommit(undone, {p, r}, h, now);
            ActiveOf(undone, {p, r}) == {p, r} && !IsActive(c, r)
            && IsActive(UnmergeCommit(c, g, RetiredBrokers(b.events, g)), r)
  {
    var undone := Unmerge(b, g);
    assert r in b.brokers && IsActive(undone, p) && IsActive(undone, r);
    LoserRetired(undone, p, r, h, now);
  }

  lemma LoserRetired(b: Book, p: int, r: int, h: int, now: int)
    requires p < r && IsActive(b, p) && IsActive(b, r)
    ensures ActiveOf(b, {p, r}) == {p, r}
    ensures r in MergeCommit(b, {p, r}, h, now).brokers && !IsActive(MergeCommit(b, {p, r}, h, now), r)
  {
    assert Least({p, r}) == p && Losers({p, r}) == {r};
  }
}
