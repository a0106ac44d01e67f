/** The suppression ledger: which pairs an operator separation records, and that each stands once. */
module BrokerLedger {
  import opened Common
  import opened BrokerReview

  // ---- the pairs -------------------------------------------------------------------------------

  lemma {:induction false} PairsWithExact(owner: map<int, int>, ids: seq<int>, i: nat, from: nat)
    requires i < from <= |ids| && Ascending(ids)
    requires forall k :: 0 <= k < |ids| ==> ids[k] in owner
    ensures forall p :: p in PairsWith(owner, ids, i, from) <==>
              p.0 == ids[i] && p.1 in ids[from..] && owner[ids[i]] != owner[p.1]
    ensures NoRepeats(PairsWith(owner, ids, i, from))
    decreases |ids| - from
  {
    if from < |ids| {
      PairsWithExact(owner, ids, i, from + 1);
      assert ids[from..] == [ids[from]] + ids[from + 1..];
      assert ids[from] !in ids[from + 1..];
      assert (ids[i], ids[from]) !in PairsWith(owner, ids, i, from + 1);
    }
  }

  /** Below an ascending list's element come only larger ones. */
  lemma TailIsLarger(ids: seq<int>, i: nat)
    requires i < |ids| && Ascending(ids)
    ensures forall x :: x in ids[i..] <==> x == ids[i] || x in ids[i + 1..]
    ensures var head, tail := ids[i], ids[i + 1..]; forall x :: x in tail ==> head < x
  {
    assert ids[i..] == [ids[i]] + ids[i + 1..];
    var tail := ids[i + 1..];
    forall x | x in tail ensures ids[i] < x {
      var k :| 0 <= k < |tail| && tail[k] == x;
      assert ids[i + 1 + k] == x;
    }
  }

  lemma JoinHasNoRepeats(here: seq<(int, int)>, rest: seq<(int, int)>)
    requires NoRepeats(here) && NoRepeats(rest) && forall p :: p in here ==> p !in rest
    ensures NoRepeats(here + rest)
  {
    var all := here + rest;
    forall j, k | 0 <= j < k < |all| ensures all[j] != all[k] {
      if j < |here| <= k {
        assert all[j] in here && all[k] in rest;
      }
    }
  }

  lemma {:induction false} PairsFromExact(owner: map<int, int>, ids: seq<int>, i: nat)
    requires i <= |ids| && Ascending(ids)
    requires forall k :: 0 <= k < |ids| ==> ids[k] in owner
    ensures forall p :: p in PairsFrom(owner, ids, i) <==>
              p.0 in ids[i..] && p.1 in ids[i..] && p.0 < p.1 && owner[p.0] != owner[p.1]
    ensures NoRepeats(PairsFrom(owner, ids, i))
    decreases |ids| - i
  {
    if i < |ids| {
      var here, rest := PairsWith(owner, ids, i, i + 1), PairsFrom(owner, ids, i + 1);
      PairsWithExact(owner, ids, i, i + 1);
      PairsFromExact(owner, ids, i + 1);
      TailIsLarger(ids, i);
      JoinHasNoRepeats(here, rest);
      assert forall p :: p in here + rest <==> p in here || p in rest;
    }
  }

  /** The pairs are exactly the lo < hi identities under different owners, each once. */
  lemma SuppressionPairsExact(owner: map<int, int>)
    ensures forall p :: p in SuppressionPairs(owner) <==>
              p.0 in owner && p.1 in owner && p.0 < p.1 && owner[p.0] != owner[p.1]
    ensures NoRepeats(SuppressionPairs(owner))
  {
    var ids := Sorted(owner.Keys);
    PairsFromExact(owner, ids, 0);
    assert ids[0..] == ids;
  }

  // ---- the insert ------------------------------------------------------------------------------

  /** At most one active row per pair: the partial unique index. */
  ghost predicate OneActiveEach(ledger: seq<Suppression>) {
    forall j, k :: 0 <= j < k < |ledger| && ledger[j].lifted == None && ledger[k].lifted == None
      ==> ledger[j].lo != ledger[k].lo || ledger[j].hi != ledger[k].hi
  }

  /** Old rows untouched and in place; new ones active, of this origin, for a listed pair not standing before. */
  ghost predicate Extends(ledger: seq<Suppression>, after: seq<Suppression>, pairs: seq<(int, int)>, origin: Origin) {
    && ledger <= after
    && (forall k :: |ledger| <= k < |after| ==>
          && after[k].lifted == None && after[k].origin == origin
          && (after[k].lo, after[k].hi) in pairs
          && !Suppressed(ledger, after[k].lo, after[k].hi))
  }

  lemma SuppressedAppend(ledger: seq<Suppression>, s: Suppression, lo: int, hi: int)
    ensures Suppressed(ledger + [s], lo, hi) <==> Suppressed(ledger, lo, hi) || Stands(s, lo, hi)
  {
    if Suppressed(ledger, lo, hi) {
      var k :| 0 <= k < |ledger| && Stands(ledger[k], lo, hi);
      assert Stands((ledger + [s])[k], lo, hi);
    }
    if Stands(s, lo, hi) {
      assert Stands((ledger + [s])[|ledger|], lo, hi);
    }
  }

  lemma {:induction false} InsertedExact(ledger: seq<Suppression>, pairs: seq<(int, int)>, origin: Origin)
    requires OneActiveEach(ledger)
    ensures Extends(ledger, Inserted(ledger, pairs, origin), pairs, origin)
    ensures OneActiveEach(Inserted(ledger, pairs, origin))
    ensures forall lo, hi :: Suppressed(Inserted(ledger, pairs, origin), lo, hi) <==>
              Suppressed(ledger, lo, hi) || (lo, hi) in pairs
    decreases |pairs|
  {
    if pairs != [] {
      var (lo, hi) := pairs[0];
      var added := Suppression(lo, hi, origin, None);
      var mid := if AnyStands(ledger, lo, hi) then ledger else ledger + [added];
      forall x, y ensures Suppressed(mid, x, y) <==> Suppressed(ledger, x, y) || (x == lo && y == hi) {
        SuppressedAppend(ledger, added, x, y);
      }
      assert OneActiveEach(mid) by {
        if mid != ledger {
          forall j | 0 <= j < |ledger| && ledger[j].lifted == None
            ensures ledger[j].lo != lo || ledger[j].hi != hi
          {
            assert !Stands(ledger[j], lo, hi);
          }
        }
      }
      InsertedExact(mid, pairs[1..], origin);
      assert pairs == [pairs[0]] + pairs[1..];
      var after := Inserted(mid, pairs[1..], origin);
      forall k | |ledger| <= k < |after|
        ensures after[k].lifted == None && after[k].origin == origin && (after[k].lo, after[k].hi) in pairs
        ensures !Suppressed(ledger, after[k].lo, after[k].hi)
      {
        if k < |mid| {
          assert after[k] == mid[k];
        }
      }
    }
  }

  /** How many of these pairs the insert writes: the statement's rowcount. */
  ghost function NewPairs(ledger: seq<Suppression>, pairs: seq<(int, int)>): nat {
    if pairs == [] then 0
    else (if Suppressed(ledger, pairs[0].0, pairs[0].1) then 0 else 1) + NewPairs(ledger, pairs[1..])
  }

  lemma {:induction false} NewPairsAfterAppend(ledger: seq<Suppression>, s: Suppression, pairs: seq<(int, int)>)
    requires (s.lo, s.hi) !in pairs
    ensures NewPairs(ledger + [s], pairs) == NewPairs(ledger, pairs)
  {
    if pairs != [] {
      SuppressedAppend(ledger, s, pairs[0].0, pairs[0].1);
      NewPairsAfterAppend(ledger, s, pairs[1..]);
    }
  }

  /** The rows written are the pairs not already standing, not the pairs attempted. */
  lemma {:induction false} InsertedCount(ledger: seq<Suppression>, pairs: seq<(int, int)>, origin: Origin)
    requires NoRepeats(pairs)
    ensures |Inserted(ledger, pairs, origin)| == |ledger| + NewPairs(ledger, pairs)
    decreases |pairs|
  {
    if pairs != [] {
      var (lo, hi) := pairs[0];
      var added := Suppression(lo, hi, origin, None);
      var rest := pairs[1..];
      assert forall k :: 0 <= k < |rest| ==> rest[k] == pairs[k + 1] && rest[k] != pairs[0];
      if AnyStands(ledger, lo, hi) {
        InsertedCount(ledger, rest, origin);
      } else {
        InsertedCount(ledger + [added], rest, origin);
        NewPairsAfterAppend(ledger, added, rest);
      }
    }
  }

  // ---- what an unmerge records -----------------------------------------------------------------

  /** Exactly one active row stands for the pair. */
  ghost predicate StandsOnce(ledger: seq<Suppression>, lo: int, hi: int) {
    && Suppressed(ledger, lo, hi)
    && forall j, k :: 0 <= j < k < |ledger| ==> !(Stands(ledger[j], lo, hi) && Stands(ledger[k], lo, hi))
  }

  lemma {:induction false} SeparationsAre(owner: map<int, int>, restored: map<int, int>)
    ensures var cohort, after := Cohort(owner, restored.Keys), owner + restored;
            forall p :: p in SuppressionPairs(CohortOwners(owner, restored)) <==>
              p.0 in cohort && p.1 in cohort && p.0 < p.1 && after[p.0] != after[p.1]
  {
    SuppressionPairsExact(CohortOwners(owner, restored));
  }

  lemma {:induction false} SeparationsStand(ledger: seq<Suppression>, owner: map<int, int>, origin: Origin)
    requires OneActiveEach(ledger)
    ensures var pairs := SuppressionPairs(owner);
            var after := Inserted(ledger, pairs, origin);
            (forall p :: p in pairs ==> StandsOnce(after, p.0, p.1))
            && NoRepeats(pairs) && |after| == |ledger| + NewPairs(ledger, pairs)
  {
    SuppressionPairsExact(owner);
    InsertedExact(ledger, SuppressionPairs(owner), origin);
    InsertedCount(ledger, SuppressionPairs(owner), origin);
  }

  /**
   The pairs an unmerge separates are the cohort's lo < hi identities whose owners differ after it;
   each of them then has exactly one active suppression, whether or not one stood before.
   */
  lemma {:induction false} UnmergeRecordsItsSeparations(b: Book, group: int)
    requires OneActiveEach(b.ledger)
    ensures var restored := RestoredOwners(b.events, group);
            var after := Unmerge(b, group);
            var cohort := Cohort(b.owner, restored.Keys);
            forall p :: p in SuppressionPairs(CohortOwners(b.owner, restored)) <==>
              p.0 in cohort && p.1 in cohort && p.0 < p.1 && after.owner[p.0] != after.owner[p.1]
    ensures var after := Unmerge(b, group);
            forall p :: p in SuppressionPairs(CohortOwners(b.owner, RestoredOwners(b.events, group))) ==>
              StandsOnce(after.ledger, p.0, p.1)
    ensures var pairs := SuppressionPairs(CohortOwners(b.owner, RestoredOwners(b.events, group)));
            NoRepeats(pairs) && |Unmerge(b, group).ledger| == |b.ledger| + NewPairs(b.ledger, pairs)
  {
    SeparationsAre(b.owner, RestoredOwners(b.events, group));
    SeparationsStand(b.ledger, CohortOwners(b.owner, RestoredOwners(b.events, group)), FromUnmerge(group));
  }
}
