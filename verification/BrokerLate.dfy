/**
 Histories whose merges and unmerges commit over what they read earlier (api/broker_review.py reads the
 active ids, and a group's retired brokers, before its transaction opens).
 */
module BrokerLate {
  import opened Common
  import opened BrokerReview
  import opened BrokerLedger
  import opened BrokerInvariants
  import opened BrokerEffects

  /** `read` is the number of steps committed when the action read; a plain step reads as it commits. */
  datatype Late =
    | Plain(op: Op)
    | LateMerge(read: nat, ids: set<int>, group: int, now: int)
    | LateUndo(read: nat, group: int)

  function ReadAt(step: Late, n: nat): (r: nat)
    ensures r <= n
  {
    if step.Plain? || step.read > n then n else step.read
  }

  /** The ids a late merge commits over: none when its read refuses it. */
  function Committed(seen: Book, ids: set<int>): set<int> {
    if |ids| < 2 || |ActiveOf(seen, ids)| < 2 then {} else ActiveOf(seen, ids)
  }

  function LateStep(c: Book, seen: Book, step: Late): Book {
    match step
    case Plain(op) => Do(c, op)
    case LateMerge(_, ids, group, now) =>
      if Committed(seen, ids) == {} then c else MergeCommit(c, Committed(seen, ids), group, now)
    case LateUndo(_, group) =>
      if LiveIdentities(seen.events, group) == {} then c
      else UnmergeCommit(c, group, RetiredBrokers(seen.events, group))
  }

  /** A late merge is refused by what it read and merges what is there now; so does a late undo restore it. */
  lemma {:induction false} LateStepExact(c: Book, seen: Book, step: Late)
    requires OneActiveEach(c.ledger)
    ensures var v := LateStep(c, seen, step);
            match step
            case Plain(op) => v == Do(c, op)
            case LateMerge(_, ids, group, now) =>
              var active := ActiveAmong(seen, ids);
              if |active| >= 2 then MergeLeaves(c, v, active, Least(active), group, now) else v == c
            case LateUndo(_, group) =>
              && ((exists i :: Restored(seen, group, i)) ==>
                    UndoLeaves(c, v, group, RetiredBrokers(seen.events, group)))
              && ((forall i :: !Restored(seen, group, i)) ==> v == c)
  {
    match step
    case Plain(_) =>
    case LateMerge(_, ids, group, now) =>
      MergeExact(seen, ids, group, now);
      var active := ActiveAmong(seen, ids);
      assert active == ActiveOf(seen, ids);
      if |active| >= 2 {
        CommitLeaves(c, active, group, now);
      }
    case LateUndo(_, group) =>
      LiveAreRestored(seen, group);
      UndoCommitLeaves(c, group, RetiredBrokers(seen.events, group));
  }

  function LateRun(b: Book, steps: seq<Late>): Book
    decreases |steps|
  {
    if steps == [] then b
    else
      var n := |steps| - 1;
      var front := steps[..n];
      LateStep(LateRun(b, front), LateRun(b, front[..ReadAt(steps[n], n)]), steps[n])
  }

  function PlainSteps(ops: seq<Op>): (steps: seq<Late>)
    ensures |steps| == |ops| && forall k :: 0 <= k < |ops| ==> steps[k] == Plain(ops[k])
  {
    seq(|ops|, k requires 0 <= k < |ops| => Plain(ops[k]))
  }

  /** With no late read a history is the plain one, action after action. */
  lemma {:induction false} PlainRunIsRun(b: Book, ops: seq<Op>)
    ensures LateRun(b, PlainSteps(ops)) == Run(b, ops)
    decreases |ops|
  {
    if ops != [] {
      var n := |ops| - 1;
      assert PlainSteps(ops)[..n] == PlainSteps(ops[..n]);
      PlainRunIsRun(b, ops[..n]);
    }
  }

  /** What the last step read. */
  function LastSeen(b: Book, steps: seq<Late>): Book
    requires steps != []
  {
    var n := |steps| - 1;
    LateRun(b, steps[..n][..ReadAt(steps[n], n)])
  }

  predicate MergesAs(step: Late, group: int) {
    (step.Plain? && step.op.DoMerge? && step.op.group == group) || (step.LateMerge? && step.group == group)
  }

  /** A group id is new each time: no merge between an undo's read and its commit is of its group. */
  ghost predicate NewGroups(steps: seq<Late>) {
    forall j, k :: 0 <= j < k < |steps| && steps[k].LateUndo? && ReadAt(steps[k], k) <= j ==>
      !MergesAs(steps[j], steps[k].group)
  }

  lemma NewGroupsBefore(steps: seq<Late>, n: nat)
    requires NewGroups(steps) && n <= |steps|
    ensures NewGroups(steps[..n])
  {}

  // ---- ownership -------------------------------------------------------------------------------

  lemma {:induction false} BrokersStay(b: Book, steps: seq<Late>)
    ensures LateRun(b, steps).brokers.Keys == b.brokers.Keys
    decreases |steps|
  {
    if steps != [] {
      BrokersStay(b, steps[..|steps| - 1]);
      StepKeepsBrokers(LateRun(b, steps[..|steps| - 1]), LastSeen(b, steps), steps[|steps| - 1]);
    }
  }

  lemma StepKeepsBrokers(c: Book, seen: Book, step: Late)
    ensures LateStep(c, seen, step).brokers.Keys == c.brokers.Keys
  {
    if step.Plain? && (step.op.DoDismiss? || step.op.DoLift?) {
      DoneWriteIsInTheLedger(c, step.op);
    }
  }

  /** One step shrinks a group's live events unless it is that group's merge. */
  lemma StepShrinks(c: Book, seen: Book, step: Late, group: int)
    requires !MergesAs(step, group)
    ensures RetiredBrokers(LateStep(c, seen, step).events, group) <= RetiredBrokers(c.events, group)
  {
    var v := LateStep(c, seen, step);
    if step.Plain? && (step.op.DoDismiss? || step.op.DoLift?) {
      DoneWriteIsInTheLedger(c, step.op);
    }
    forall i | i in LiveIdentities(v.events, group)
      ensures i in LiveIdentities(c.events, group) && v.events[(group, i)] == c.events[(group, i)]
    {
      if step.Plain? {
        StepKeepsEvent(c, step.op, group, i);
      }
      assert (group, i) in c.events && v.events[(group, i)] == c.events[(group, i)];
    }
  }

  lemma {:induction false} RetiredShrinks(b: Book, steps: seq<Late>, r: nat, group: int)
    requires r <= |steps| && forall j :: r <= j < |steps| ==> !MergesAs(steps[j], group)
    ensures RetiredBrokers(LateRun(b, steps).events, group) <= RetiredBrokers(LateRun(b, steps[..r]).events, group)
    decreases |steps|
  {
    if r == |steps| {
      assert steps[..r] == steps;
    } else {
      var front := steps[..|steps| - 1];
      RetiredShrinks(b, front, r, group);
      assert front[..r] == steps[..r];
      StepShrinks(LateRun(b, front), LastSeen(b, steps), steps[|steps| - 1], group);
    }
  }

  ghost predicate Moves(c: Book, merging: set<int>)
    requires merging != {}
  {
    exists i :: i in c.owner && c.owner[i] in Losers(merging)
  }

  /** A merge over known brokers keeps ownership exactly when it moves nothing, or moves it onto an active one. */
  lemma CommitKeepsOwnershipIff(c: Book, merging: set<int>, group: int, now: int)
    requires OwnershipInv(c) && merging != {} && forall id :: id in merging ==> id in c.brokers
    ensures OwnershipInv(MergeCommit(c, merging, group, now)) <==>
              (Moves(c, merging) ==> IsActive(c, Least(merging)))
  {
    var v := MergeCommit(c, merging, group, now);
    if Moves(c, merging) {
      StaleMergeKeepsOwnersIff(c, merging, group, now);
    } else {
      assert forall i :: i in c.owner ==> v.owner[i] == c.owner[i] && c.owner[i] !in Losers(merging);
    }
    CommitKeepsRecords(c, merging, group, now);
  }

  lemma CommitKeepsRecords(c: Book, merging: set<int>, group: int, now: int)
    requires OwnershipInv(c) && merging != {} && forall id :: id in merging ==> id in c.brokers
    ensures PointersDown(MergeCommit(c, merging, group, now)) && EventsKnown(MergeCommit(c, merging, group, now))
  {}

  /** The step does not move identities onto a broker that was retired since its read. */
  ghost predicate SurvivorStands(c: Book, seen: Book, step: Late) {
    step.LateMerge? && Committed(seen, step.ids) != {} && Moves(c, Committed(seen, step.ids)) ==>
      IsActive(c, Least(Committed(seen, step.ids)))
  }

  ghost predicate SurvivorsStand(b: Book, steps: seq<Late>)
    decreases |steps|
  {
    steps != [] ==>
      SurvivorsStand(b, steps[..|steps| - 1])
      && SurvivorStands(LateRun(b, steps[..|steps| - 1]), LastSeen(b, steps), steps[|steps| - 1])
  }

  ghost predicate OwnedThroughout(b: Book, steps: seq<Late>)
    decreases |steps|
  {
    OwnershipInv(LateRun(b, steps)) && (steps != [] ==> OwnedThroughout(b, steps[..|steps| - 1]))
  }

  lemma StepOwnershipIff(c: Book, seen: Book, step: Late)
    requires OwnershipInv(c) && seen.brokers.Keys == c.brokers.Keys
    requires step.LateUndo? ==> RetiredBrokers(c.events, step.group) <= RetiredBrokers(seen.events, step.group)
    ensures OwnershipInv(LateStep(c, seen, step)) <==> SurvivorStands(c, seen, step)
  {
    match step
    case Plain(op) => OpKeepsOwnership(c, op);
    case LateMerge(_, ids, group, now) =>
      if Committed(seen, ids) != {} {
        CommitKeepsOwnershipIff(c, Committed(seen, ids), group, now);
      }
    case LateUndo(_, group) =>
      if LiveIdentities(seen.events, group) != {} {
        StaleCommitKeepsOwnership(c, group, RetiredBrokers(seen.events, group));
      }
  }

  /**
   Whatever was read however much earlier, a history leaves identities under active brokers at every
   point exactly when none of its merges moves identities onto a survivor retired since its read.
   */
  lemma {:induction false} LateOwnershipIff(b: Book, steps: seq<Late>)
    requires OwnershipInv(b) && NewGroups(steps)
    ensures OwnedThroughout(b, steps) <==> SurvivorsStand(b, steps)
    decreases |steps|
  {
    if steps != [] {
      var n := |steps| - 1;
      var front, step := steps[..n], steps[n];
      NewGroupsBefore(steps, n);
      LateOwnershipIff(b, front);
      if OwnedThroughout(b, front) {
        BrokersStay(b, front);
        BrokersStay(b, front[..ReadAt(step, n)]);
        if step.LateUndo? {
          RetiredShrinks(b, front, ReadAt(step, n), step.group);
        }
        StepOwnershipIff(LateRun(b, front), LastSeen(b, steps), step);
      }
    }
  }

  // ---- the ledger ------------------------------------------------------------------------------

  /** The group an unmerge step undoes, when its read does not refuse it. */
  function Undoes(c: Book, seen: Book, step: Late): Option<int> {
    if step.LateUndo? && LiveIdentities(seen.events, step.group) != {} then Some(step.group)
    else if step.Plain? && step.op.DoUnmerge? then Some(step.op.group)
    else None
  }

  ghost predicate StepAgrees(c: Book, seen: Book, step: Late) {
    Undoes(c, seen, step).Some? ==> UndoAgrees(c, Undoes(c, seen, step).value)
  }

  ghost predicate StepsAgree(b: Book, steps: seq<Late>)
    decreases |steps|
  {
    steps != [] ==>
      StepsAgree(b, steps[..|steps| - 1])
      && StepAgrees(LateRun(b, steps[..|steps| - 1]), LastSeen(b, steps), steps[|steps| - 1])
  }

  ghost predicate LedgerThroughout(b: Book, steps: seq<Late>)
    decreases |steps|
  {
    LedgerInv(LateRun(b, steps)) && (steps != [] ==> LedgerThroughout(b, steps[..|steps| - 1]))
  }

  /** The list of retired brokers an undo read does not bear on the ledger. */
  lemma LateUndoKeepsLedgerIff(c: Book, group: int, retired: set<int>)
    requires LedgerInv(c)
    ensures LedgerInv(UnmergeCommit(c, group, retired)) <==> UndoAgrees(c, group)
  {
    UnmergeKeepsLedgerIff(c, group);
    var late, prompt := UnmergeCommit(c, group, retired), Unmerge(c, group);
    assert late.owner == prompt.owner && late.ledger == prompt.ledger;
  }

  lemma PlainLedgerIff(c: Book, seen: Book, op: Op)
    requires LedgerInv(c)
    ensures LedgerInv(Do(c, op)) <==> StepAgrees(c, seen, Plain(op))
  {
    OpKeepsLedgerIff(c, op);
  }

  lemma LateMergeKeepsLedger(c: Book, seen: Book, step: Late)
    requires LedgerInv(c) && step.LateMerge?
    ensures LedgerInv(LateStep(c, seen, step))
  {
    if Committed(seen, step.ids) != {} {
      MergeKeepsLedger(c, Committed(seen, step.ids), step.group, step.now);
    }
  }

  lemma StepLedgerIff(c: Book, seen: Book, step: Late)
    requires LedgerInv(c)
    ensures LedgerInv(LateStep(c, seen, step)) <==> StepAgrees(c, seen, step)
  {
    if step.Plain? {
      PlainLedgerIff(c, seen, step.op);
      assert LateStep(c, seen, step) == Do(c, step.op);
    } else if step.LateMerge? {
      LateMergeKeepsLedger(c, seen, step);
    } else if LiveIdentities(seen.events, step.group) == {} {
      assert LateStep(c, seen, step) == c;
    } else {
      var retired := RetiredBrokers(seen.events, step.group);
      LateUndoKeepsLedgerIff(c, step.group, retired);
      assert LateStep(c, seen, step) == UnmergeCommit(c, step.group, retired);
    }
  }

  /** Late merges are free; the ledger agrees at every point exactly when each undo commits over one that allows it. */
  lemma {:induction false} LateLedgerIff(b: Book, steps: seq<Late>)
    requires LedgerInv(b)
    ensures LedgerThroughout(b, steps) <==> StepsAgree(b, steps)
    decreases |steps|
  {
    if steps != [] {
      var front := steps[..|steps| - 1];
      LateLedgerIff(b, front);
      if LedgerThroughout(b, front) {
        StepLedgerIff(LateRun(b, front), LastSeen(b, steps), steps[|steps| - 1]);
      }
    }
  }
}
