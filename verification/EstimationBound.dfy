/**
 The budget bound is attained: `_update_run_terminal` has no status guard, so every late success takes a
 slot the sweep gave back (api/estimation_runs.py).
 */
module EstimationBound {
  import opened Common
  import opened EstimationRuns

  /** What stays the same along a run: whose it is, under which quota and cap, in which month, swept how. */
  datatype Setting = Setting(account: int, quota: nat, cap: nat, month: nat, minutes: nat)

  /** A metered in-process agent run. */
  function Made(g: Setting, at: int): Run {
    Run(g.account, true, Running, g.month, at, None, Some("ad"), false)
  }

  /** When the `i`-th run is submitted: the one before has just outlived the sweep's threshold. */
  function Clock(g: Setting, i: nat): nat {
    i * (g.minutes + 1)
  }

  /** `n` runs in a row, from the `i`-th, all with one status. */
  function Rows(g: Setting, i: nat, n: nat, status: Status): (runs: seq<Run>)
    ensures |runs| == n
    ensures forall k :: 0 <= k < n ==> runs[k] == Made(g, Clock(g, i + k)).(status := status)
  {
    seq(n, k requires 0 <= k < n => Made(g, Clock(g, i + k)).(status := status))
  }

  // ---- counting --------------------------------------------------------------------------------

  lemma {:induction false} AllCounted(runs: seq<Run>, p: Run -> bool)
    requires forall i :: 0 <= i < |runs| ==> p(runs[i])
    ensures CountIf(runs, p) == |runs|
  {
    if runs != [] {
      AllCounted(runs[..|runs| - 1], p);
    }
  }

  lemma {:induction false} CountJoin(a: seq<Run>, b: seq<Run>, p: Run -> bool)
    ensures CountIf(a + b, p) == CountIf(a, p) + CountIf(b, p)
  {
    if b == [] {
      assert a + b == a;
    } else {
      var n := |b| - 1;
      CountJoin(a, b[..n], p);
      assert (a + b)[..|a| + n] == a + b[..n];
    }
  }

  /** First the failed runs, then the successes: only those count. */
  lemma {:induction false} TableCount(g: Setting, n: nat, k: nat)
    ensures BudgetCount(Rows(g, 0, n, Failed) + Rows(g, n, k, Success), g.account, g.month) == k
  {
    var p := InBudget(g.account, g.month);
    NoneCounted(Rows(g, 0, n, Failed), p);
    AllCounted(Rows(g, n, k, Success), p);
    CountJoin(Rows(g, 0, n, Failed), Rows(g, n, k, Success), p);
  }

  // ---- runs from the empty table ---------------------------------------------------------------

  /** Each step is the setting's, happens no earlier than the one before it, and no later than `now`. */
  ghost predicate InTime(g: Setting, steps: seq<Step>, now: int)
    decreases |steps|
  {
    steps != [] ==>
      var last := steps[|steps| - 1];
      match last
      case SubmitGated(row, _, _) => row.createdAt <= now && InTime(g, steps[..|steps| - 1], row.createdAt)
      case SweepRuns(at, minutes) => minutes == g.minutes && at <= now && InTime(g, steps[..|steps| - 1], at)
      case FinishRun(_, _) => InTime(g, steps[..|steps| - 1], now)
      case _ => false
  }

  lemma {:induction false} Later(g: Setting, steps: seq<Step>, now: int, later: int)
    requires InTime(g, steps, now) && now <= later
    ensures InTime(g, steps, later)
    decreases |steps|
  {
    if steps != [] && steps[|steps| - 1].FinishRun? {
      Later(g, steps[..|steps| - 1], now, later);
    }
  }

  /** A run of `steps` from the empty table: what it leaves, how many late successes it had, and when it ends. */
  ghost predicate Leaves(g: Setting, steps: seq<Step>, runs: seq<Run>, late: nat, now: int) {
    && Metered(steps, g.account, g.quota, g.cap) && InTime(g, steps, now)
    && After(State([], g.month), steps) == State(runs, g.month)
    && LateFinishes(State([], g.month), steps, g.account) == late
    && LateInMonths(State([], g.month), steps, g.account, g.month) == late
  }

  lemma OneMore(g: Setting, steps: seq<Step>, step: Step, runs: seq<Run>, late: nat, now: int,
                after: seq<Run>, later: int)
    requires Leaves(g, steps, runs, late, now) && MeteredStep(step, g.account, g.quota, g.cap)
    requires Next(State(runs, g.month), step) == State(after, g.month)
    requires InTime(g, steps + [step], later)
    requires LateFinish(State(runs, g.month), step, g.account) ==> runs[step.i].month == g.month
    ensures Leaves(g, steps + [step], after,
                   late + (if LateFinish(State(runs, g.month), step, g.account) then 1 else 0), later)
  {
    var all := steps + [step];
    assert all[..|all| - 1] == steps;
  }

  lemma {:induction false} IdleCount(runs: seq<Run>, account: int)
    requires forall i :: 0 <= i < |runs| ==> !InFlight(runs[i])
    ensures InFlightCount(runs, account) == 0
  {
    if runs != [] {
      IdleCount(runs[..|runs| - 1], account);
    }
  }

  /** A submit over a table with nothing in flight and quota left. */
  lemma Submitted(g: Setting, steps: seq<Step>, runs: seq<Run>, now: int, at: int)
    requires Leaves(g, steps, runs, 0, now) && now <= at && g.cap >= 1
    requires (forall i :: 0 <= i < |runs| ==> !InFlight(runs[i])) && BudgetCount(runs, g.account, g.month) < g.quota
    ensures Leaves(g, steps + [SubmitGated(Made(g, at), g.quota, g.cap)], runs + [Made(g, at)], 0, at)
  {
    var step := SubmitGated(Made(g, at), g.quota, g.cap);
    IdleCount(runs, g.account);
    Later(g, steps, now, at);
    assert (steps + [step])[..|steps|] == steps;
    OneMore(g, steps, step, runs, 0, now, runs + [Made(g, at)], at);
  }

  lemma ClockTicks(g: Setting, i: nat)
    ensures Clock(g, i + 1) == Clock(g, i) + g.minutes + 1
  {}

  /** Submits whose executors hang until the sweep fails them. */
  lemma {:induction false} Lost(g: Setting, n: nat) returns (steps: seq<Step>)
    requires g.quota >= 1 && g.cap >= 1
    ensures Leaves(g, steps, Rows(g, 0, n, Failed), 0, Clock(g, n))
  {
    if n == 0 {
      steps := [];
      assert Rows(g, 0, 0, Failed) == [];
    } else {
      var before, at, end := Rows(g, 0, n - 1, Failed), Clock(g, n - 1), Clock(g, n);
      steps := Lost(g, n - 1);
      NoneCounted(before, InBudget(g.account, g.month));
      Submitted(g, steps, before, at, at);
      steps := steps + [SubmitGated(Made(g, at), g.quota, g.cap)];
      ClockTicks(g, n - 1);
      var table := before + [Made(g, at)];
      assert Swept(table, end, g.minutes) == Rows(g, 0, n, Failed);
      Later(g, steps, at, end);
      assert (steps + [SweepRuns(end, g.minutes)])[..|steps|] == steps;
      OneMore(g, steps, SweepRuns(end, g.minutes), table, 0, at, Rows(g, 0, n, Failed), end);
      steps := steps + [SweepRuns(end, g.minutes)];
    }
  }

  /** One more run at the end of the table, submitted and then finished. */
  lemma {:induction false} WonOne(g: Setting, n: nat, k: nat)
    ensures var table := Rows(g, 0, n, Failed) + Rows(g, n, k, Success) + [Made(g, Clock(g, n + k))];
            Finished(table, n + k, true) == Rows(g, 0, n, Failed) + Rows(g, n, k + 1, Success)
            && table[n + k] == Made(g, Clock(g, n + k))
  {}

  /** Then submits that succeed, up to the whole quota. */
  lemma {:induction false} Won(g: Setting, n: nat, k: nat) returns (steps: seq<Step>)
    requires g.quota >= 1 && g.cap >= 1 && k <= g.quota
    ensures Leaves(g, steps, Rows(g, 0, n, Failed) + Rows(g, n, k, Success), 0, Clock(g, n + k))
  {
    if k == 0 {
      steps := Lost(g, n);
      assert Rows(g, 0, n, Failed) + Rows(g, n, 0, Success) == Rows(g, 0, n, Failed);
    } else {
      var before, at := Rows(g, 0, n, Failed) + Rows(g, n, k - 1, Success), Clock(g, n + k - 1);
      steps := Won(g, n, k - 1);
      TableCount(g, n, k - 1);
      Submitted(g, steps, before, at, at);
      steps := steps + [SubmitGated(Made(g, at), g.quota, g.cap)];
      WonOne(g, n, k - 1);
      ClockTicks(g, n + k - 1);
      Later(g, steps, at, Clock(g, n + k));
      var step := FinishRun(n + k - 1, true);
      assert (steps + [step])[..|steps|] == steps;
      OneMore(g, steps, step, before + [Made(g, at)], 0, at,
              Rows(g, 0, n, Failed) + Rows(g, n, k, Success), Clock(g, n + k));
      steps := steps + [step];
    }
  }

  function Table(g: Setting, n: nat, k: nat): seq<Run>
    requires k <= n
  {
    Rows(g, 0, k, Success) + Rows(g, k, n - k, Failed) + Rows(g, n, g.quota, Success)
  }

  lemma {:induction false} LateOne(g: Setting, n: nat, k: nat)
    requires k < n
    ensures Table(g, n, k)[k] == Made(g, Clock(g, k)).(status := Failed)
    ensures Finished(Table(g, n, k), k, true) == Table(g, n, k + 1)
  {}

  /** Then the lost runs' executors report success after all. */
  lemma {:induction false} Late(g: Setting, n: nat, k: nat) returns (steps: seq<Step>)
    requires g.quota >= 1 && g.cap >= 1 && k <= n
    ensures Leaves(g, steps, Table(g, n, k), k, Clock(g, n + g.quota))
  {
    var now := Clock(g, n + g.quota);
    if k == 0 {
      steps := Won(g, n, g.quota);
      assert Table(g, n, 0) == Rows(g, 0, n, Failed) + Rows(g, n, g.quota, Success);
    } else {
      steps := Late(g, n, k - 1);
      LateOne(g, n, k - 1);
      var step := FinishRun(k - 1, true);
      assert (steps + [step])[..|steps|] == steps;
      OneMore(g, steps, step, Table(g, n, k - 1), k - 1, now, Table(g, n, k), now);
      steps := steps + [step];
    }
  }

  /**
   For every quota and cap of at least one, every sweep threshold and every number of late successes there
   is a metered run from the empty table, in order of time, whose month passes its quota by exactly that
   number.
   */
  lemma {:induction false} BudgetBoundAttained(g: Setting, n: nat) returns (steps: seq<Step>)
    requires g.quota >= 1 && g.cap >= 1
    ensures Metered(steps, g.account, g.quota, g.cap) && InTime(g, steps, Clock(g, n + g.quota))
    ensures LateFinishes(State([], g.month), steps, g.account) == n
    ensures LateInMonths(State([], g.month), steps, g.account, g.month) == n
    ensures var end := After(State([], g.month), steps);
            end.month == g.month && |SpentRuns(end.runs, g.account, g.month)| == g.quota + n
  {
    steps := Late(g, n, n);
    AllCounted(Table(g, n, n), InBudget(g.account, g.month));
    CountsAre(Table(g, n, n), g.account, g.month);
  }
}
