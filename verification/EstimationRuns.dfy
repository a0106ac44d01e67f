/**
 Metered estimation submits and the run lifecycle (api/estimation_runs.py): pre-checks, the gated
 INSERT, the lane's claim, the terminal update and the stuck-run sweep, as concurrent atomic steps.

 The gated INSERT ... SELECT ... WHERE counts ... ON CONFLICT is one atomic step, as its docstring
 states. Times are minutes; `month` numbers calendar months.
 */
module EstimationRuns {
  import opened Common

  datatype Status = Pending | Running | Success | Failed

  /** An estimation_runs row; its id is its index. `lane`: job_payload is set. */
  datatype Run = Run(
    account: int, agent: bool, status: Status, month: nat,
    createdAt: int, claimedAt: Option<int>, key: Option<string>, lane: bool)

  predicate InFlight(r: Run) {
    r.status == Pending || r.status == Running
  }

  /** The rows _count_agent_runs_this_month counts. */
  predicate Budgeted(r: Run, account: int, month: nat) {
    r.account == account && r.agent && r.status != Failed && r.month >= month
  }

  /** The rows _count_inflight_agent_runs counts. */
  predicate Occupies(r: Run, account: int) {
    r.account == account && r.agent && InFlight(r)
  }

  function CountIf(runs: seq<Run>, p: Run -> bool): (n: nat)
    ensures n <= |runs|
  {
    if runs == [] then 0
    else CountIf(runs[..|runs| - 1], p) + (if p(runs[|runs| - 1]) then 1 else 0)
  }

  function InBudget(account: int, month: nat): Run -> bool {
    (r: Run) => Budgeted(r, account, month)
  }

  function Occupying(account: int): Run -> bool {
    (r: Run) => Occupies(r, account)
  }

  function BudgetCount(runs: seq<Run>, account: int, month: nat): nat {
    CountIf(runs, InBudget(account, month))
  }

  function InFlightCount(runs: seq<Run>, account: int): nat {
    CountIf(runs, Occupying(account))
  }

  predicate HoldsKey(r: Run, account: int, key: string) {
    r.account == account && r.key == Some(key) && InFlight(r)
  }

  /** _find_inflight_run: the newest in-flight run of the key. */
  function FindInFlight(runs: seq<Run>, account: int, key: string): (found: Option<nat>)
    ensures found.Some? ==> found.value in KeyRuns(runs, account, key)
    ensures found.Some? ==> forall i :: i in KeyRuns(runs, account, key) ==> i <= found.value
    ensures found == None ==> KeyRuns(runs, account, key) == {}
  {
    if runs == [] then None
    else
      var n := |runs| - 1;
      if HoldsKey(runs[n], account, key) then Some(n)
      else
        var rest := FindInFlight(runs[..n], account, key);
        assert KeyRuns(runs, account, key) == KeyRuns(runs[..n], account, key);
        rest
  }

  // ---- which rows the counts count ---------------------------------------------------------------

  /** The account's agent runs in flight: queued or running. */
  ghost function InFlightRuns(runs: seq<Run>, account: int): set<nat> {
    set i: nat | i < |runs| && runs[i].account == account && runs[i].agent
                 && (runs[i].status == Pending || runs[i].status == Running)
  }

  /** The account's agent runs that spend this month's budget: all that have not failed. */
  ghost function SpentRuns(runs: seq<Run>, account: int, month: nat): set<nat> {
    set i: nat | i < |runs| && runs[i].account == account && runs[i].agent
                 && runs[i].status != Failed && runs[i].month >= month
  }

  /** The account's runs in flight under a key, agent or not. */
  ghost function KeyRuns(runs: seq<Run>, account: int, key: string): set<nat> {
    set i: nat | i < |runs| && runs[i].account == account && runs[i].key == Some(key)
                 && (runs[i].status == Pending || runs[i].status == Running)
  }

  ghost function Where(runs: seq<Run>, p: Run -> bool): set<nat> {
    set i: nat | i < |runs| && p(runs[i])
  }

  lemma {:induction false} CountIsHowMany(runs: seq<Run>, p: Run -> bool)
    ensures CountIf(runs, p) == |Where(runs, p)|
  {
    if runs == [] {
      assert Where(runs, p) == {};
    } else {
      var n := |runs| - 1;
      CountIsHowMany(runs[..n], p);
      assert Where(runs, p) == Where(runs[..n], p) + (if p(runs[n]) then {n} else {});
    }
  }

  /** The two counts are how many runs are in flight, and how many spend the budget. */
  lemma CountsAre(runs: seq<Run>, account: int, month: nat)
    ensures InFlightCount(runs, account) == |InFlightRuns(runs, account)|
    ensures BudgetCount(runs, account, month) == |SpentRuns(runs, account, month)|
  {
    CountIsHowMany(runs, Occupying(account));
    CountIsHowMany(runs, InBudget(account, month));
    assert InFlightRuns(runs, account) == Where(runs, Occupying(account));
    assert SpentRuns(runs, account, month) == Where(runs, InBudget(account, month));
  }

  /** Room in the month's quota and under the cap, and no run in flight under the key. */
  ghost predicate Admits(runs: seq<Run>, account: int, key: Option<string>, quota: int, cap: int, month: nat) {
    && |SpentRuns(runs, account, month)| < quota && |InFlightRuns(runs, account)| < cap
    && (key.Some? ==> KeyRuns(runs, account, key.value) == {})
  }

  lemma GateAdmits(runs: seq<Run>, r: Run, quota: int, cap: int, month: nat)
    ensures GateOpen(runs, r, quota, cap, month) <==> Admits(runs, r.account, r.key, quota, cap, month)
  {
    CountsAre(runs, r.account, month);
    if r.key.Some? {
      var held := KeyRuns(runs, r.account, r.key.value);
      assert forall i: nat :: i < |runs| ==> (HoldsKey(runs[i], r.account, r.key.value) <==> i in held);
      assert held != {} ==> SomeElement(held) in held;
    }
  }

  // ---- submit ----------------------------------------------------------------------------------

  /** The account's plan as _resolve_entitlement reads it. */
  datatype Entitlement = Entitlement(canceled: bool, estimations: bool, quota: int)

  /** What _prepare_metered_submit answers. */
  datatype Gate =
    | Ungated
    | Refused(status: int)
    | ShortCircuit(run: nat)
    | Cleared(key: string, quota: int, cap: int)

  datatype Submit = Submit(
    account: int, key: string, agentMode: bool, privileged: bool, systemAccount: bool,
    budgetEnabled: bool, customSpec: bool, plan: Entitlement, cap: int, lane: bool)

  /** The row a metered submit inserts. */
  function NewRun(s: Submit, month: nat, now: int): Run {
    Run(s.account, true, if s.lane then Pending else Running, month, now, None, Some(s.key), s.lane)
  }

  /** The gated INSERT's WHERE and its ON CONFLICT target. */
  predicate GateOpen(runs: seq<Run>, r: Run, quota: int, cap: int, month: nat) {
    && BudgetCount(runs, r.account, month) < quota
    && InFlightCount(runs, r.account) < cap
    && forall i :: 0 <= i < |runs| ==> !(r.key.Some? && HoldsKey(runs[i], r.account, r.key.value))
  }

  function InsertGated(runs: seq<Run>, r: Run, quota: int, cap: int, month: nat): seq<Run> {
    if GateOpen(runs, r, quota, cap, month) then runs + [r] else runs
  }

  // ---- the lifecycle ---------------------------------------------------------------------------

  /** The lane's claim takes a pending row that carries a payload. */
  predicate ClaimableRun(runs: seq<Run>, i: nat) {
    i < |runs| && runs[i].status == Pending && runs[i].lane
  }

  function Claimed(runs: seq<Run>, i: nat, now: int): seq<Run>
    requires i < |runs|
  {
    runs[i := runs[i].(status := Running, claimedAt := Some(now))]
  }

  /** _update_run_terminal: WHERE id only, whatever the row's status. */
  function Finished(runs: seq<Run>, i: nat, success: bool): seq<Run>
    requires i < |runs|
  {
    runs[i := runs[i].(status := if success then Success else Failed)]
  }

  /** A run's age counts from its claim, or from its creation while unclaimed. */
  predicate Stuck(r: Run, now: int, minutes: int) {
    InFlight(r) && (if r.claimedAt.Some? then r.claimedAt.value else r.createdAt) < now - minutes
  }

  function Swept(runs: seq<Run>, now: int, minutes: int): seq<Run> {
    seq(|runs|, i requires 0 <= i < |runs| =>
      if Stuck(runs[i], now, minutes) then runs[i].(status := Failed) else runs[i])
  }

  // ---- runs of the system ----------------------------------------------------------------------

  datatype Step =
    | SubmitGated(row: Run, quota: int, cap: int)
    | SubmitPlain(row: Run)
    | ClaimRun(i: nat, now: int)
    | FinishRun(i: nat, success: bool)
    | SweepRuns(now: int, minutes: int)
    | MonthTurns(month: nat)

  datatype State = State(runs: seq<Run>, month: nat)

  function Next(s: State, step: Step): State {
    match step
    case SubmitGated(row, quota, cap) => s.(runs := InsertGated(s.runs, row.(month := s.month), quota, cap, s.month))
    case SubmitPlain(row) => s.(runs := s.runs + [row.(month := s.month)])
    case ClaimRun(i, now) => if ClaimableRun(s.runs, i) then s.(runs := Claimed(s.runs, i, now)) else s
    case FinishRun(i, success) => if i < |s.runs| then s.(runs := Finished(s.runs, i, success)) else s
    case SweepRuns(now, minutes) => s.(runs := Swept(s.runs, now, minutes))
    case MonthTurns(month) => if month >= s.month then s.(month := month) else s
  }

  function After(s: State, steps: seq<Step>): State {
    if steps == [] then s else Next(After(s, steps[..|steps| - 1]), steps[|steps| - 1])
  }

  /** The lane's pending runs that no other claimer has locked. */
  ghost function QueuedRuns(runs: seq<Run>, locked: set<nat>): set<nat> {
    set i: nat | i < |runs| && i !in locked && runs[i].status == Pending && runs[i].lane
  }

  /** The runs in flight for longer than `minutes` since their claim, or since their creation while unclaimed. */
  ghost function StuckRuns(runs: seq<Run>, now: int, minutes: int): set<nat> {
    set i: nat | i < |runs| && (runs[i].status == Pending || runs[i].status == Running)
                 && (runs[i].claimedAt.Some? ==> runs[i].claimedAt.value < now - minutes)
                 && (runs[i].claimedAt.None? ==> runs[i].createdAt < now - minutes)
  }

  /** What each step of the system does to the rows. */
  lemma NextExact(s: State, step: Step)
    ensures var v := Next(s, step);
            match step
            case SubmitGated(row, quota, cap) =>
              v == s.(runs := if Admits(s.runs, row.account, row.key, quota, cap, s.month)
                              then s.runs + [row.(month := s.month)] else s.runs)
            case SubmitPlain(row) => v == s.(runs := s.runs + [row.(month := s.month)])
            case ClaimRun(i, now) =>
              v == s.(runs := if i in QueuedRuns(s.runs, {})
                              then s.runs[i := s.runs[i].(status := Running, claimedAt := Some(now))] else s.runs)
            case FinishRun(i, success) =>
              v == s.(runs := if i < |s.runs|
                              then s.runs[i := s.runs[i].(status := if success then Success else Failed)] else s.runs)
            case SweepRuns(now, minutes) =>
              v == s.(runs := v.runs) && |v.runs| == |s.runs|
              && forall i: nat :: i < |s.runs| ==>
                   v.runs[i] == if i in StuckRuns(s.runs, now, minutes) then s.runs[i].(status := Failed)
                                else s.runs[i]
            case MonthTurns(month) => v.runs == s.runs && (v.month == month || v.month == s.month)
                                      && v.month >= s.month && v.month >= month
  {
    if step.SubmitGated? {
      GateAdmits(s.runs, step.row.(month := s.month), step.quota, step.cap, s.month);
    }
  }

  /**
   A metered account: each of its agent rows goes through the gate with a key, a quota of at most
   `quota` and a cap of at most `cap`; a row written outside the gate carries no key, and is no live
   agent row of the account.
   */
  ghost predicate MeteredStep(step: Step, account: int, quota: nat, cap: nat) {
    match step
    case SubmitGated(row, q, c) => row.account == account ==> row.key.Some? && q <= quota && c <= cap
    case SubmitPlain(row) => row.key == None && !(row.account == account && row.agent && row.status != Failed)
    case _ => true
  }

  ghost predicate Metered(steps: seq<Step>, account: int, quota: nat, cap: nat) {
    forall i :: 0 <= i < |steps| ==> MeteredStep(steps[i], account, quota, cap)
  }

  /** A terminal success that lands on a run already failed (swept under its executor). */
  predicate LateFinish(s: State, step: Step, account: int) {
    && step.FinishRun? && step.success && step.i < |s.runs|
    && s.runs[step.i].status == Failed && s.runs[step.i].account == account && s.runs[step.i].agent
  }

  ghost function LateFinishes(s: State, steps: seq<Step>, account: int): nat {
    if steps == [] then 0
    else
      var n := |steps| - 1;
      LateFinishes(s, steps[..n], account) + (if LateFinish(After(s, steps[..n]), steps[n], account) then 1 else 0)
  }

  // ---- counting --------------------------------------------------------------------------------

  lemma {:induction false} CountUpdate(runs: seq<Run>, i: nat, r: Run, p: Run -> bool)
    requires i < |runs|
    ensures CountIf(runs[i := r], p) + (if p(runs[i]) then 1 else 0) == CountIf(runs, p) + (if p(r) then 1 else 0)
  {
    var n := |runs| - 1;
    if i == n {
      assert runs[i := r][..n] == runs[..n];
    } else {
      assert runs[i := r][..n] == runs[..n][i := r];
      CountUpdate(runs[..n], i, r, p);
    }
  }

  lemma CountAppend(runs: seq<Run>, r: Run, p: Run -> bool)
    ensures CountIf(runs + [r], p) == CountIf(runs, p) + (if p(r) then 1 else 0)
  {}

  lemma {:induction false} CountMono(a: seq<Run>, b: seq<Run>, p: Run -> bool, q: Run -> bool)
    requires |a| == |b|
    requires forall i :: 0 <= i < |a| && p(a[i]) ==> q(b[i])
    ensures CountIf(a, p) <= CountIf(b, q)
  {
    if a != [] {
      var n := |a| - 1;
      assert forall i :: 0 <= i < n ==> a[..n][i] == a[i] && b[..n][i] == b[i];
      CountMono(a[..n], b[..n], p, q);
    }
  }

  // ---- what every interleaving keeps -----------------------------------------------------------

  /** At most one in-flight run per (account, key). */
  ghost predicate OnePerKey(runs: seq<Run>) {
    forall a, k, i, j :: i in KeyRuns(runs, a, k) && j in KeyRuns(runs, a, k) ==> i == j
  }

  lemma StepKeepsOnePerKey(s: State, step: Step)
    requires OnePerKey(s.runs) && (step.SubmitPlain? ==> step.row.key == None)
    ensures OnePerKey(Next(s, step).runs)
  {
    var now := Next(s, step).runs;
    forall a, k, i, j | i in KeyRuns(now, a, k) && j in KeyRuns(now, a, k) ensures i == j {
      assert (i < |s.runs| ==> i in KeyRuns(s.runs, a, k)) && (j < |s.runs| ==> j in KeyRuns(s.runs, a, k));
      assert i < |s.runs| ==> HoldsKey(s.runs[i], a, k);
      assert j < |s.runs| ==> HoldsKey(s.runs[j], a, k);
    }
  }

  // How each step moves a count.

  lemma SubmitCount(s: State, row: Run, quota: int, cap: int, p: Run -> bool)
    ensures var r := row.(month := s.month);
            CountIf(Next(s, SubmitGated(row, quota, cap)).runs, p) ==
              CountIf(s.runs, p) + (if GateOpen(s.runs, r, quota, cap, s.month) && p(r) then 1 else 0)
  {
    CountAppend(s.runs, row.(month := s.month), p);
  }

  lemma PlainCount(s: State, row: Run, p: Run -> bool)
    ensures CountIf(Next(s, SubmitPlain(row)).runs, p) ==
              CountIf(s.runs, p) + (if p(row.(month := s.month)) then 1 else 0)
  {
    CountAppend(s.runs, row.(month := s.month), p);
  }

  lemma ClaimCount(s: State, i: nat, now: int, p: Run -> bool)
    requires forall r: Run :: r.status == Pending && p(r.(status := Running, claimedAt := Some(now))) ==> p(r)
    ensures CountIf(Next(s, ClaimRun(i, now)).runs, p) <= CountIf(s.runs, p)
  {
    if ClaimableRun(s.runs, i) {
      CountUpdate(s.runs, i, s.runs[i].(status := Running, claimedAt := Some(now)), p);
    }
  }

  lemma FinishCount(s: State, i: nat, success: bool, p: Run -> bool)
    requires i < |s.runs|
    ensures CountIf(Next(s, FinishRun(i, success)).runs, p) + (if p(s.runs[i]) then 1 else 0) ==
              CountIf(s.runs, p) + (if p(s.runs[i].(status := if success then Success else Failed)) then 1 else 0)
  {
    CountUpdate(s.runs, i, s.runs[i].(status := if success then Success else Failed), p);
  }

  lemma SweepCount(s: State, now: int, minutes: int, p: Run -> bool)
    requires forall r: Run :: p(r.(status := Failed)) ==> p(r)
    ensures CountIf(Next(s, SweepRuns(now, minutes)).runs, p) <= CountIf(s.runs, p)
  {
    CountMono(Swept(s.runs, now, minutes), s.runs, p, p);
  }

  lemma SubmitKeepsCap(s: State, row: Run, quota: int, limit: int, account: int, cap: nat)
    requires InFlightCount(s.runs, account) <= cap && (row.account == account ==> limit <= cap)
    ensures InFlightCount(Next(s, SubmitGated(row, quota, limit)).runs, account) <= cap
  {
    SubmitCount(s, row, quota, limit, Occupying(account));
  }

  lemma PlainKeepsCap(s: State, row: Run, account: int, cap: nat)
    requires InFlightCount(s.runs, account) <= cap && !Occupies(row, account)
    ensures InFlightCount(Next(s, SubmitPlain(row)).runs, account) <= cap
  {
    PlainCount(s, row, Occupying(account));
  }

  /** Claims, finishes and sweeps take no slot. */
  lemma OthersKeepCap(s: State, step: Step, account: int)
    requires step.ClaimRun? || step.FinishRun? || step.SweepRuns? || step.MonthTurns?
    ensures InFlightCount(Next(s, step).runs, account) <= InFlightCount(s.runs, account)
  {
    var p := Occupying(account);
    match step
    case ClaimRun(i, now) => ClaimCount(s, i, now, p);
    case FinishRun(i, success) => if i < |s.runs| { FinishCount(s, i, success, p); }
    case SweepRuns(now, minutes) => SweepCount(s, now, minutes, p);
    case MonthTurns(_) =>
  }

  lemma StepKeepsCap(s: State, step: Step, account: int, quota: nat, cap: nat)
    requires MeteredStep(step, account, quota, cap)
    requires InFlightCount(s.runs, account) <= cap
    ensures InFlightCount(Next(s, step).runs, account) <= cap
  {
    if step.SubmitGated? {
      SubmitKeepsCap(s, step.row, step.quota, step.cap, account, cap);
    } else if step.SubmitPlain? {
      PlainKeepsCap(s, step.row, account, cap);
    } else {
      OthersKeepCap(s, step, account);
    }
  }

  lemma FinishBudget(s: State, i: nat, success: bool, account: int, n: nat)
    requires i < |s.runs| && BudgetCount(s.runs, account, s.month) <= n
    ensures BudgetCount(Next(s, FinishRun(i, success)).runs, account, s.month)
         <= n + (if LateFinish(s, FinishRun(i, success), account) then 1 else 0)
  {
    FinishCount(s, i, success, InBudget(account, s.month));
  }

  lemma MonthBudget(s: State, month: nat, account: int)
    requires month >= s.month
    ensures BudgetCount(s.runs, account, month) <= BudgetCount(s.runs, account, s.month)
  {
    CountMono(s.runs, s.runs, InBudget(account, month), InBudget(account, s.month));
  }

  lemma SubmitBudget(s: State, row: Run, limit: int, cap: int, account: int, quota: nat, n: nat)
    requires BudgetCount(s.runs, account, s.month) <= n && quota <= n && (row.account == account ==> limit <= quota)
    ensures BudgetCount(Next(s, SubmitGated(row, limit, cap)).runs, account, s.month) <= n
  {
    SubmitCount(s, row, limit, cap, InBudget(account, s.month));
  }

  lemma PlainBudget(s: State, row: Run, account: int)
    requires !(row.account == account && row.agent && row.status != Failed)
    ensures BudgetCount(Next(s, SubmitPlain(row)).runs, account, s.month) == BudgetCount(s.runs, account, s.month)
  {
    PlainCount(s, row, InBudget(account, s.month));
  }

  /** Claims and sweeps take no budget. */
  lemma OthersBudget(s: State, step: Step, account: int)
    requires step.ClaimRun? || step.SweepRuns?
    ensures BudgetCount(Next(s, step).runs, account, s.month) <= BudgetCount(s.runs, account, s.month)
  {
    var p := InBudget(account, s.month);
    match step
    case ClaimRun(i, now) => ClaimCount(s, i, now, p);
    case SweepRuns(now, minutes) => SweepCount(s, now, minutes, p);
  }

  /** One step moves the month's budget count by at most the slots the gate or a late finish takes. */
  lemma StepBudget(s: State, step: Step, account: int, quota: nat, cap: nat, late: nat)
    requires MeteredStep(step, account, quota, cap)
    requires BudgetCount(s.runs, account, s.month) <= quota + late
    ensures BudgetCount(Next(s, step).runs, account, Next(s, step).month)
         <= quota + late + (if LateFinish(s, step, account) then 1 else 0)
  {
    match step
    case SubmitGated(row, q, c) => SubmitBudget(s, row, q, c, account, quota, quota + late);
    case SubmitPlain(row) => PlainBudget(s, row, account);
    case FinishRun(i, success) => if i < |s.runs| { FinishBudget(s, i, success, account, quota + late); }
    case MonthTurns(month) => if month >= s.month { MonthBudget(s, month, account); }
    case _ => OthersBudget(s, step, account);
  }

  lemma {:induction false} CountsKept(s: State, steps: seq<Step>, account: int, quota: nat, cap: nat)
    requires Metered(steps, account, quota, cap)
    requires OnePerKey(s.runs) && InFlightCount(s.runs, account) <= cap
    ensures OnePerKey(After(s, steps).runs) && InFlightCount(After(s, steps).runs, account) <= cap
  {
    if steps != [] {
      var n := |steps| - 1;
      CountsKept(s, steps[..n], account, quota, cap);
      StepKeepsOnePerKey(After(s, steps[..n]), steps[n]);
      StepKeepsCap(After(s, steps[..n]), steps[n], account, quota, cap);
    }
  }

  /** One in-flight run per key and the concurrency cap, in every interleaving and whatever finishes land. */
  lemma CapAndKeyAlways(s: State, steps: seq<Step>, account: int, quota: nat, cap: nat)
    requires Metered(steps, account, quota, cap)
    requires OnePerKey(s.runs) && |InFlightRuns(s.runs, account)| <= cap
    ensures OnePerKey(After(s, steps).runs) && |InFlightRuns(After(s, steps).runs, account)| <= cap
  {
    CountsAre(s.runs, account, 0);
    CountsKept(s, steps, account, quota, cap);
    CountsAre(After(s, steps).runs, account, 0);
  }

  lemma {:induction false} BudgetKept(s: State, steps: seq<Step>, account: int, quota: nat, cap: nat)
    requires Metered(steps, account, quota, cap)
    requires BudgetCount(s.runs, account, s.month) <= quota
    ensures BudgetCount(After(s, steps).runs, account, After(s, steps).month) <= quota + LateFinishes(s, steps, account)
  {
    if steps != [] {
      var n := |steps| - 1;
      BudgetKept(s, steps[..n], account, quota, cap);
      StepBudget(After(s, steps[..n]), steps[n], account, quota, cap, LateFinishes(s, steps[..n], account));
    }
  }

  /** This month's non-failed agent runs never pass the quota by more than the successes that landed on failed runs. */
  lemma BudgetAlways(s: State, steps: seq<Step>, account: int, quota: nat, cap: nat)
    requires Metered(steps, account, quota, cap)
    requires |SpentRuns(s.runs, account, s.month)| <= quota
    ensures |SpentRuns(After(s, steps).runs, account, After(s, steps).month)| <= quota + LateFinishes(s, steps, account)
  {
    CountsAre(s.runs, account, s.month);
    BudgetKept(s, steps, account, quota, cap);
    CountsAre(After(s, steps).runs, account, After(s, steps).month);
  }

  /** With no success landing on a failed run, the quota holds in every interleaving. */
  lemma QuotaHoldsWithoutLateFinish(s: State, steps: seq<Step>, account: int, quota: nat, cap: nat)
    requires Metered(steps, account, quota, cap) && LateFinishes(s, steps, account) == 0
    requires |SpentRuns(s.runs, account, s.month)| <= quota
    ensures |SpentRuns(After(s, steps).runs, account, After(s, steps).month)| <= quota
  {
    BudgetAlways(s, steps, account, quota, cap);
  }

  // The same month by month: a late success of a past month does not bear on this month's quota.

  /** No run is dated after the current month. */
  ghost predicate Dated(s: State) {
    forall i :: 0 <= i < |s.runs| ==> s.runs[i].month <= s.month
  }

  /** ... and the run it lands on is of `month`. */
  predicate LateInMonth(s: State, step: Step, account: int, month: nat) {
    LateFinish(s, step, account) && s.runs[step.i].month == month
  }

  ghost function LateInMonths(s: State, steps: seq<Step>, account: int, month: nat): nat {
    if steps == [] then 0
    else
      var n := |steps| - 1;
      LateInMonths(s, steps[..n], account, month)
      + (if LateInMonth(After(s, steps[..n]), steps[n], account, month) then 1 else 0)
  }

  lemma {:induction false} NoneCounted(runs: seq<Run>, p: Run -> bool)
    requires forall i :: 0 <= i < |runs| ==> !p(runs[i])
    ensures CountIf(runs, p) == 0
  {
    if runs != [] {
      NoneCounted(runs[..|runs| - 1], p);
    }
  }

  lemma StepKeepsDates(s: State, step: Step)
    requires Dated(s)
    ensures Dated(Next(s, step))
  {}

  /** One step, this month's late successes only; a new month starts from nothing. */
  lemma StepMonth(s: State, step: Step, account: int, quota: nat, cap: nat, late: nat)
    requires MeteredStep(step, account, quota, cap) && Dated(s)
    requires BudgetCount(s.runs, account, s.month) <= quota + late
    ensures var v := Next(s, step);
            if v.month == s.month then
              BudgetCount(v.runs, account, v.month)
              <= quota + late + (if LateInMonth(s, step, account, s.month) then 1 else 0)
            else BudgetCount(v.runs, account, v.month) == 0
  {
    if step.MonthTurns? && step.month > s.month {
      NoneCounted(s.runs, InBudget(account, step.month));
    } else if step.FinishRun? && step.i < |s.runs| {
      FinishCount(s, step.i, step.success, InBudget(account, s.month));
    } else {
      StepBudget(s, step, account, quota, cap, late);
    }
  }

  lemma {:induction false} MonthKept(s: State, steps: seq<Step>, account: int, quota: nat, cap: nat)
    requires Metered(steps, account, quota, cap) && Dated(s)
    requires BudgetCount(s.runs, account, s.month) <= quota
    ensures Dated(After(s, steps))
    ensures var v := After(s, steps);
            BudgetCount(v.runs, account, v.month) <= quota + LateInMonths(s, steps, account, v.month)
  {
    if steps != [] {
      var n := |steps| - 1;
      var c := After(s, steps[..n]);
      MonthKept(s, steps[..n], account, quota, cap);
      StepKeepsDates(c, steps[n]);
      StepMonth(c, steps[n], account, quota, cap, LateInMonths(s, steps[..n], account, c.month));
    }
  }

  /** A month's non-failed agent runs pass the quota by at most the late successes on runs of that same month. */
  lemma BudgetMonthly(s: State, steps: seq<Step>, account: int, quota: nat, cap: nat)
    requires Metered(steps, account, quota, cap) && Dated(s)
    requires |SpentRuns(s.runs, account, s.month)| <= quota
    ensures Dated(After(s, steps))
    ensures var v := After(s, steps);
            |SpentRuns(v.runs, account, v.month)| <= quota + LateInMonths(s, steps, account, v.month)
  {
    CountsAre(s.runs, account, s.month);
    MonthKept(s, steps, account, quota, cap);
    CountsAre(After(s, steps).runs, account, After(s, steps).month);
  }

  /** So a month in which no success lands on one of its own failed runs keeps its quota, whatever came before. */
  lemma MonthlyQuotaHolds(s: State, steps: seq<Step>, account: int, quota: nat, cap: nat)
    requires Metered(steps, account, quota, cap) && Dated(s)
    requires |SpentRuns(s.runs, account, s.month)| <= quota
    requires LateInMonths(s, steps, account, After(s, steps).month) == 0
    ensures |SpentRuns(After(s, steps).runs, account, After(s, steps).month)| <= quota
  {
    BudgetMonthly(s, steps, account, quota, cap);
  }

  /** A terminal update keeps a full quota exactly when it is not a success on a failed agent run of this month. */
  lemma FinishKeepsFullQuotaIff(s: State, i: nat, success: bool, account: int, quota: nat)
    requires i < |s.runs| && |SpentRuns(s.runs, account, s.month)| == quota
    ensures |SpentRuns(Next(s, FinishRun(i, success)).runs, account, s.month)| <= quota
       <==> !(LateFinish(s, FinishRun(i, success), account) && s.runs[i].month >= s.month)
  {
    CountsAre(s.runs, account, s.month);
    CountsAre(Next(s, FinishRun(i, success)).runs, account, s.month);
    FinishCount(s, i, success, InBudget(account, s.month));
  }

  // ---- the table -------------------------------------------------------------------------------

  /** The row of a submit: an agent run of this month under its key, queued for the lane or running here. */
  ghost predicate IsSubmitted(r: Run, s: Submit, month: nat, now: int) {
    && r.account == s.account && r.agent && r.key == Some(s.key)
    && r.month == month && r.createdAt == now && r.claimedAt == None
    && r.lane == s.lane && (s.lane ==> r.status == Pending) && (!s.lane ==> r.status == Running)
  }

  lemma KeyRunsAreHeld(runs: seq<Run>, account: int, key: string)
    ensures forall i: nat :: i in KeyRuns(runs, account, key) <==> i < |runs| && HoldsKey(runs[i], account, key)
  {}

  /** What create_estimation_run answers a metered submit. */
  datatype Answer = Created(run: nat) | Existing(run: nat) | TooMany

  class RunTable {
    var runs: seq<Run>
    var month: nat

    constructor (month: nat)
      ensures runs == [] && this.month == month
    {
      runs, this.month := [], month;
    }

    /** _prepare_metered_submit: who is metered, then entitlement, then an in-flight duplicate, then the two counts. */
    method PrepareMeteredSubmit(s: Submit) returns (g: Gate)
      ensures g == Ungated <==> s.privileged || !s.agentMode || s.systemAccount || !s.budgetEnabled
      ensures g == Refused(403) <==> g != Ungated && (s.customSpec || s.plan.canceled || !s.plan.estimations)
      ensures g.ShortCircuit? ==> g.run in KeyRuns(runs, s.account, s.key)
      ensures g.ShortCircuit? ==> forall i :: i in KeyRuns(runs, s.account, s.key) ==> i <= g.run
      ensures g != Ungated && g != Refused(403) ==> (g.ShortCircuit? <==> KeyRuns(runs, s.account, s.key) != {})
      ensures g == Refused(429) <==>
        g != Ungated && g != Refused(403) && !g.ShortCircuit?
        && (|SpentRuns(runs, s.account, month)| >= s.plan.quota || |InFlightRuns(runs, s.account)| >= s.cap)
      ensures g.Refused? ==> g.status == 403 || g.status == 429
      ensures g.Cleared? ==> g == Cleared(s.key, s.plan.quota, s.cap)
      ensures g.Cleared? ==> Admits(runs, s.account, Some(s.key), g.quota, g.cap, month)
    {
      CountsAre(runs, s.account, month);
      KeyRunsAreHeld(runs, s.account, s.key);
      if s.privileged || !s.agentMode || s.systemAccount || !s.budgetEnabled {
        return Ungated;
      }
      if s.customSpec {
        return Refused(403);
      }
      if s.plan.canceled || !s.plan.estimations {
        return Refused(403);
      }
      var existing := FindInFlight(runs, s.account, s.key);
      if existing.Some? {
        return ShortCircuit(existing.value);
      }
      if BudgetCount(runs, s.account, month) >= s.plan.quota {
        return Refused(429);
      }
      if InFlightCount(runs, s.account) >= s.cap {
        return Refused(429);
      }
      g := Cleared(s.key, s.plan.quota, s.cap);
    }

    /** _insert_run with a gate: None when the gate rejects. */
    method InsertRun(row: Run, quota: int, cap: int) returns (id: Option<nat>)
      modifies this`runs
      ensures runs == InsertGated(old(runs), row, quota, cap, month)
      ensures id.Some? <==> Admits(old(runs), row.account, row.key, quota, cap, month)
      ensures if id.Some? then id.value == |old(runs)| && runs == old(runs) + [row] else runs == old(runs)
    {
      GateAdmits(runs, row, quota, cap, month);
      if GateOpen(runs, row, quota, cap, month) {
        id := Some(|runs|);
        runs := runs + [row];
      } else {
        id := None;
      }
    }

    /**
     create_estimation_run from a cleared gate on; any steps of other submits, the lane or the sweep may
     have run since. Whatever run it answers with is the one in-flight run of the key.
     */
    method SubmitCleared(s: Submit, quota: int, cap: int, now: int) returns (a: Answer)
      requires OnePerKey(runs)
      modifies this`runs
      ensures OnePerKey(runs)
      ensures a.Created? <==> Admits(old(runs), s.account, Some(s.key), quota, cap, month)
      ensures a.Created? ==> a.run == |old(runs)| && |runs| == a.run + 1 && runs[..a.run] == old(runs)
      ensures a.Created? ==> IsSubmitted(runs[a.run], s, month, now)
      ensures !a.Created? ==> runs == old(runs)
      ensures a.TooMany? ==> KeyRuns(runs, s.account, s.key) == {}
      ensures !a.TooMany? ==> KeyRuns(runs, s.account, s.key) == {a.run}
    {
      StepKeepsOnePerKey(State(runs, month), SubmitGated(NewRun(s, month, now), quota, cap));
      var id := InsertRun(NewRun(s, month, now), quota, cap);
      if id.Some? {
        a := Created(id.value);
      } else {
        var existing := FindInFlight(runs, s.account, s.key);
        a := if existing.Some? then Existing(existing.value) else TooMany;
      }
      KeyRunsAreHeld(runs, s.account, s.key);
      assert a.Created? ==> a.run in KeyRuns(runs, s.account, s.key);
    }

    /** The lane's claim: the oldest pending lane run that no other claimer has locked. */
    method ClaimOne(locked: set<nat>, now: int) returns (claimed: Option<nat>)
      modifies this`runs
      ensures claimed == None <==> QueuedRuns(old(runs), locked) == {}
      ensures claimed == None ==> runs == old(runs)
      ensures claimed.Some? ==> claimed.value in QueuedRuns(old(runs), locked)
      ensures claimed.Some? ==>
                runs == old(runs)[claimed.value :=
                          old(runs)[claimed.value].(status := Running, claimedAt := Some(now))]
      ensures claimed.Some? ==> forall i :: i in QueuedRuns(old(runs), locked) ==>
                old(runs)[claimed.value].createdAt <= old(runs)[i].createdAt
      ensures claimed.Some? ==> forall minutes, later :: later <= now + minutes ==>
                claimed.value !in StuckRuns(runs, later, minutes)
    {
      ghost var queued := QueuedRuns(runs, locked);
      assert forall i: nat :: i in queued <==> i !in locked && ClaimableRun(runs, i);
      claimed := None;
      for i := 0 to |runs|
        invariant claimed == None <==> forall j: nat :: j < i && j !in locked ==> !ClaimableRun(runs, j)
        invariant claimed.Some? ==> claimed.value < i && claimed.value !in locked && ClaimableRun(runs, claimed.value)
        invariant claimed.Some? ==> forall j: nat :: j < i && j !in locked && ClaimableRun(runs, j) ==>
                    runs[claimed.value].createdAt <= runs[j].createdAt
      {
        if i !in locked && runs[i].status == Pending && runs[i].lane
           && (claimed.None? || runs[i].createdAt < runs[claimed.value].createdAt) {
          claimed := Some(i);
        }
      }
      if claimed.Some? {
        runs := Claimed(runs, claimed.value, now);
      }
    }

    /** _update_run_terminal. */
    method Finish(i: nat, success: bool)
      requires i < |runs|
      modifies this`runs
      ensures runs == old(runs)[i := old(runs)[i].(status := if success then Success else Failed)]
      ensures forall a :: InFlightRuns(runs, a) <= InFlightRuns(old(runs), a)
    {
      runs := Finished(runs, i, success);
    }

    /** sweep_stuck_runs: how many in-flight runs it failed. */
    method Sweep(now: int, minutes: int) returns (n: nat)
      modifies this`runs
      ensures |runs| == |old(runs)| && n == |StuckRuns(old(runs), now, minutes)|
      ensures forall i: nat :: i < |runs| ==>
                runs[i] == if i in StuckRuns(old(runs), now, minutes) then old(runs)[i].(status := Failed)
                           else old(runs)[i]
      ensures StuckRuns(runs, now, minutes) == {}
    {
      CountIsHowMany(runs, (r: Run) => Stuck(r, now, minutes));
      assert StuckRuns(runs, now, minutes) == Where(runs, (r: Run) => Stuck(r, now, minutes));
      n := CountIf(runs, (r: Run) => Stuck(r, now, minutes));
      runs := Swept(runs, now, minutes);
    }
  }
}
