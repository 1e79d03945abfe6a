/**
 The key figures of a benchmark run and the quality gates over them. The gates compare rates that were already
 rounded to six places; what they decide is stated here in whole numbers of tasks and calls.
 */
module BenchmarkKpis {
  import opened Wrappers
  import opened Percentiles

  datatype TaskResult = TaskResult(
    taskType: string, success: bool, firstAttemptSuccess: bool, outcome: string, durationMs: real, toolCalls: nat,
    argumentValid: bool, executionCategory: string, generatedInternalCalls: nat, protectedRejection: bool,
    unexpectedRuntimeFailure: bool, safeFailure: bool, recoverySuccess: Option<bool>, rollbackSuccess: Option<bool>,
    unrelatedDocumentMutation: bool, tokens: Option<nat>, unclassifiedFailure: bool, newRecomputeErrors: int)

  // ----- counting -----

  function Count(tasks: seq<TaskResult>, f: TaskResult -> bool): nat {
    if tasks == [] then 0 else Count(tasks[..|tasks| - 1], f) + if f(tasks[|tasks| - 1]) then 1 else 0
  }

  function Sum(tasks: seq<TaskResult>, f: TaskResult -> int): int {
    if tasks == [] then 0 else Sum(tasks[..|tasks| - 1], f) + f(tasks[|tasks| - 1])
  }

  lemma {:induction false} CountOfPart(tasks: seq<TaskResult>, part: TaskResult -> bool, whole: TaskResult -> bool)
    requires forall t :: part(t) ==> whole(t)
    ensures Count(tasks, part) <= Count(tasks, whole) <= |tasks|
  {
    if tasks != [] {
      CountOfPart(tasks[..|tasks| - 1], part, whole);
    }
  }

  lemma {:induction false} SumOfPart(tasks: seq<TaskResult>, part: TaskResult -> int, whole: TaskResult -> int)
    requires forall t :: 0 <= part(t) <= whole(t)
    ensures 0 <= Sum(tasks, part) <= Sum(tasks, whole)
  {
    if tasks != [] {
      SumOfPart(tasks[..|tasks| - 1], part, whole);
    }
  }

  predicate Succeeded(t: TaskResult) { t.success }
  predicate FirstTime(t: TaskResult) { t.firstAttemptSuccess }
  predicate RanCleanly(t: TaskResult) { !t.unexpectedRuntimeFailure }
  predicate ValidArguments(t: TaskResult) { t.argumentValid }
  predicate Protected(t: TaskResult) { t.protectedRejection }
  predicate ProtectedSucceeded(t: TaskResult) { t.protectedRejection && t.success }
  predicate FailedSafely(t: TaskResult) { t.protectedRejection && t.safeFailure }
  predicate Reopened(t: TaskResult) { t.taskType == "save_reopen_validate" }
  predicate ReopenedWell(t: TaskResult) { Reopened(t) && t.success }
  predicate MutatedElsewhere(t: TaskResult) { t.unrelatedDocumentMutation }
  predicate TimedOut(t: TaskResult) { t.outcome == "timed_out" && !t.success }
  predicate Unclassified(t: TaskResult) { t.unclassifiedFailure }
  predicate Recovering(t: TaskResult) { t.recoverySuccess.Some? }
  predicate Recovered(t: TaskResult) { t.recoverySuccess == Some(true) }
  predicate RollingBack(t: TaskResult) { t.rollbackSuccess.Some? }
  predicate RolledBack(t: TaskResult) { t.rollbackSuccess == Some(true) }
  predicate WithTokens(t: TaskResult) { t.success && t.tokens.Some? }
  function Calls(t: TaskResult): int { t.toolCalls }
  function PublicCalls(t: TaskResult): int { if t.executionCategory == "public_execute_code" then t.toolCalls else 0 }
  function TypedCalls(t: TaskResult): int { if t.executionCategory == "typed_direct_rpc" then t.toolCalls else 0 }
  function GeneratedCalls(t: TaskResult): int { t.generatedInternalCalls }
  function RecomputeErrors(t: TaskResult): int { t.newRecomputeErrors }
  function Tokens(t: TaskResult): int { if WithTokens(t) then t.tokens.value else 0 }

  // ----- rates -----

  /** Rounding to six decimal places. */
  function Round6(x: real): real {
    HalfEven(x * 1_000_000.0) as real / 1_000_000.0
  }

  function Ratio(numerator: int, denominator: int): real {
    if denominator == 0 then 0.0 else Round6(numerator as real / denominator as real)
  }

  /** An even number is reached from the half below it on. */
  lemma HalfEvenReaches(x: real, t: int)
    requires t % 2 == 0
    ensures HalfEven(x) >= t <==> x >= t as real - 0.5
    ensures HalfEven(x) <= t <==> x <= t as real + 0.5
  {
    if x.Floor >= t {
      assert x >= t as real;
    } else if x.Floor < t - 1 {
      assert x < (t - 1) as real;
    } else {
      assert x.Floor == t - 1;
    }
    if x.Floor > t {
      assert x >= (t + 1) as real;
    } else {
      assert x < (x.Floor + 1) as real;
    }
  }

  lemma MillionthsOfRatio(n: nat, d: nat, bound: real)
    requires d > 0
    ensures (n as real / d as real) * 1_000_000.0 >= bound <==> 1_000_000.0 * n as real >= bound * d as real
    ensures (n as real / d as real) * 1_000_000.0 <= bound <==> 1_000_000.0 * n as real <= bound * d as real
  {
    var q, w := n as real / d as real, d as real;
    assert q * w == n as real;
    var gap := q * 1_000_000.0 - bound;
    assert gap * w == 1_000_000.0 * n as real - bound * w;
    if gap > 0.0 {
      assert gap * w > 0.0;
    } else if gap < 0.0 {
      assert -gap * w > 0.0;
    }
  }

  /** `100 * n >= percent * d`, but for what rounding lets through. */
  predicate RoundedAtLeast(n: nat, d: nat, percent: nat) {
    d > 0 && 2_000_000 * n + d >= 20_000 * (percent * d)
  }

  predicate AtLeast(n: nat, d: nat, percent: nat) {
    d > 0 && 100 * n >= percent * d
  }

  predicate Below(n: nat, d: nat, percent: nat) {
    d == 0 || 100 * n < percent * d
  }

  predicate RoundedNone(n: nat, d: nat) {
    d == 0 || 2_000_000 * n <= d
  }

  /** What a comparison of a rounded rate with a percentage decides, whatever the size of the run. */
  lemma RatioReaches(n: nat, d: nat, percent: nat)
    requires percent > 0
    ensures Ratio(n, d) >= percent as real / 100.0 <==> RoundedAtLeast(n, d, percent)
  {
    if d > 0 {
      var x, t := (n as real / d as real) * 1_000_000.0, 10_000 * percent;
      HalfEvenReaches(x, t);
      MillionthsOfRatio(n, d, t as real - 0.5);
      assert (t as real - 0.5) * d as real == 10_000.0 * (percent * d) as real - 0.5 * d as real by {
        assert (percent * d) as real == percent as real * d as real;
      }
    }
  }

  lemma RatioIsNone(n: nat, d: nat)
    ensures Ratio(n, d) == 0.0 <==> RoundedNone(n, d)
  {
    if d > 0 {
      var x := (n as real / d as real) * 1_000_000.0;
      HalfEvenReaches(x, 0);
      MillionthsOfRatio(n, d, 0.5);
      MillionthsOfRatio(n, d, 0.0);
    }
  }

  /** A share of a whole stays a share, so it is one exactly when it reaches one. */
  lemma RatioIsAShare(n: nat, d: nat)
    requires n <= d
    ensures 0.0 <= Ratio(n, d) <= 1.0
    ensures Ratio(n, d) == 1.0 <==> RoundedAtLeast(n, d, 100)
  {
    RatioReaches(n, d, 100);
    if d > 0 {
      var x := (n as real / d as real) * 1_000_000.0;
      MillionthsOfRatio(n, d, 1_000_000.0);
      MillionthsOfRatio(n, d, 0.0);
      HalfEvenReaches(x, 1_000_000);
      HalfEvenReaches(x, 0);
    }
  }

  /** Rounding flips a comparison exactly when the shortfall is at most a twenty-thousandth of the denominator. */
  lemma FlippedExactlyWhen(n: nat, d: nat, percent: nat)
    requires d > 0
    ensures RoundedAtLeast(n, d, percent) != AtLeast(n, d, percent)
            <==> 0 < 20_000 * (percent * d - 100 * n) <= d
  {
  }

  lemma NotFlippedWhenSmall(n: nat, d: nat, percent: nat)
    requires d <= 20_000
    ensures RoundedAtLeast(n, d, percent) <==> AtLeast(n, d, percent)
    ensures !RoundedAtLeast(n, d, percent) <==> Below(n, d, percent)
    ensures RoundedNone(n, d) <==> d == 0 || n == 0
  {
    var gap := percent * d - 100 * n;
    if d == 20_000 {
      assert gap == 100 * (200 * percent - n);
    }
  }

  // ----- the figures -----

  datatype Kpis = Kpis(
    taskSuccess: real, firstAttemptSuccess: real, toolExecutionSuccess: real, protectedRejection: real,
    argumentValidity: real, recovery: real, safeFailure: real, rollbackSuccess: real, unrelatedMutation: real,
    p50: map<string, Option<real>>, p95: map<string, Option<real>>, callsPerSuccess: Option<real>,
    publicShare: real, generatedShare: real, typedShare: real, tokensPerSuccess: Option<real>, tokenCoverage: real,
    unexpectedTimeouts: real, unclassifiedFailures: int, saveReopen: real, newRecomputeErrors: int)

  function Durations(tasks: seq<TaskResult>, category: string): seq<real> {
    if tasks == [] then []
    else
      var last := tasks[|tasks| - 1];
      Durations(tasks[..|tasks| - 1], category) + if last.executionCategory == category then [last.durationMs] else []
  }

  function Categories(tasks: seq<TaskResult>): set<string> {
    if tasks == [] then {} else Categories(tasks[..|tasks| - 1]) + {tasks[|tasks| - 1].executionCategory}
  }

  function Latencies(tasks: seq<TaskResult>): map<string, seq<real>> {
    map c | c in Categories(tasks) :: Durations(tasks, c)
  }

  function PercentileOf(latencies: map<string, seq<real>>, percentile: real): map<string, Option<real>>
    requires 0.0 <= percentile <= 1.0
  {
    map c | c in latencies :: Interpolated(latencies[c], percentile)
  }

  function KpisWith(tasks: seq<TaskResult>, latencies: map<string, seq<real>>): Kpis {
    var total, successful := |tasks|, Count(tasks, Succeeded);
    var calls, generated := Sum(tasks, Calls), Sum(tasks, GeneratedCalls);
    Kpis(Ratio(successful, total), Ratio(Count(tasks, FirstTime), total), Ratio(Count(tasks, RanCleanly), total),
         Ratio(Count(tasks, ProtectedSucceeded), Count(tasks, Protected)), Ratio(Count(tasks, ValidArguments), total),
         Ratio(Count(tasks, Recovered), Count(tasks, Recovering)),
         Ratio(Count(tasks, FailedSafely), Count(tasks, Protected)),
         Ratio(Count(tasks, RolledBack), Count(tasks, RollingBack)), Ratio(Count(tasks, MutatedElsewhere), total),
         PercentileOf(latencies, 0.50), PercentileOf(latencies, 0.95),
         if successful == 0 then None else Some(Round3(calls as real / successful as real)),
         Ratio(Sum(tasks, PublicCalls), calls), Ratio(generated, calls + generated),
         Ratio(Sum(tasks, TypedCalls), calls),
         if Count(tasks, WithTokens) == 0 then None
         else Some(Round3(Sum(tasks, Tokens) as real / Count(tasks, WithTokens) as real)),
         Ratio(Count(tasks, WithTokens), successful), Ratio(Count(tasks, TimedOut), total), Count(tasks, Unclassified),
         Ratio(Count(tasks, ReopenedWell), Count(tasks, Reopened)), Sum(tasks, RecomputeErrors))
  }

  method CollectLatencies(tasks: seq<TaskResult>) returns (latencies: map<string, seq<real>>)
    ensures latencies == Latencies(tasks)
  {
    latencies := map[];
    for i := 0 to |tasks|
      invariant latencies == Latencies(tasks[..i])
    {
      LatenciesAppend(tasks[..i], tasks[i]);
      assert tasks[..i + 1] == tasks[..i] + [tasks[i]];
      var category := tasks[i].executionCategory;
      if category !in latencies {
        latencies := latencies[category := []];
      }
      latencies := latencies[category := latencies[category] + [tasks[i].durationMs]];
    }
    assert tasks[..|tasks|] == tasks;
  }

  method CalculateKpis(tasks: seq<TaskResult>) returns (kpis: Kpis)
    ensures kpis == KpisWith(tasks, Latencies(tasks))
  {
    var latencies := CollectLatencies(tasks);
    kpis := KpisWith(tasks, latencies);
  }

  lemma {:induction false} DurationsOfAbsent(tasks: seq<TaskResult>, category: string)
    requires category !in Categories(tasks)
    ensures Durations(tasks, category) == []
  {
    if tasks != [] {
      DurationsOfAbsent(tasks[..|tasks| - 1], category);
    }
  }

  lemma CategoriesAppend(front: seq<TaskResult>, last: TaskResult)
    ensures Categories(front + [last]) == Categories(front) + {last.executionCategory}
  {
    assert (front + [last])[..|front|] == front;
  }

  lemma DurationsAppend(front: seq<TaskResult>, last: TaskResult, category: string)
    ensures Durations(front + [last], category)
         == Durations(front, category) + if last.executionCategory == category then [last.durationMs] else []
  {
    assert (front + [last])[..|front|] == front;
  }

  /** The lists so far, with an empty one for a tool class not met before, as `setdefault` leaves them. */
  function Measured(latencies: map<string, seq<real>>, category: string): seq<real> {
    if category in latencies then latencies[category] else []
  }

  lemma LatenciesAppend(front: seq<TaskResult>, last: TaskResult)
    ensures var before := Latencies(front);
            Latencies(front + [last])
            == before[last.executionCategory := Measured(before, last.executionCategory) + [last.durationMs]]
  {
    var category := last.executionCategory;
    CategoriesAppend(front, last);
    if category !in Categories(front) {
      DurationsOfAbsent(front, category);
    }
    forall c | c in Categories(front + [last])
      ensures Latencies(front + [last])[c]
           == if c == category then Measured(Latencies(front), c) + [last.durationMs] else Latencies(front)[c]
    {
      DurationsAppend(front, last, c);
    }
  }

  lemma {:induction false} DurationsOfPresent(tasks: seq<TaskResult>, category: string)
    requires category in Categories(tasks)
    ensures Durations(tasks, category) != []
  {
    var last := tasks[|tasks| - 1];
    if last.executionCategory != category {
      DurationsOfPresent(tasks[..|tasks| - 1], category);
    }
  }

  /** In every tool class that occurs, the median is reported and is not above the 95th percentile. */
  lemma MedianIsBelow(tasks: seq<TaskResult>, category: string)
    requires category in Categories(tasks)
    ensures var kpis := KpisWith(tasks, Latencies(tasks));
            && category in kpis.p50 && category in kpis.p95
            && kpis.p50[category].Some? && kpis.p95[category].Some?
            && kpis.p50[category].value <= kpis.p95[category].value
  {
    DurationsOfPresent(tasks, category);
    InterpolatedIsMonotone(Durations(tasks, category), 0.50, 0.95);
  }

  // ----- the gates -----

  datatype Checks = Checks(
    taskSuccess: bool, toolExecution: bool, argumentValidity: bool, firstAttempt: bool, safeFailure: bool,
    saveReopen: bool, unrelatedMutation: bool, recomputeErrors: bool, unclassifiedFailures: bool,
    timeoutRate: bool, publicAdoption: bool)

  function EvaluateQualityGates(kpis: Kpis): Checks {
    Checks(kpis.taskSuccess >= 0.90, kpis.toolExecutionSuccess >= 0.98, kpis.argumentValidity >= 0.97,
           kpis.firstAttemptSuccess >= 0.85, kpis.safeFailure >= 0.99, kpis.saveReopen == 1.0,
           kpis.unrelatedMutation == 0.0, kpis.newRecomputeErrors == 0, kpis.unclassifiedFailures == 0,
           kpis.unexpectedTimeouts < 0.01, kpis.publicShare < 0.50)
  }

  predicate Passed(c: Checks) {
    && c.taskSuccess && c.toolExecution && c.argumentValidity && c.firstAttempt && c.safeFailure && c.saveReopen
    && c.unrelatedMutation && c.recomputeErrors && c.unclassifiedFailures && c.timeoutRate && c.publicAdoption
  }

  function ChecksOf(tasks: seq<TaskResult>): Checks {
    EvaluateQualityGates(KpisWith(tasks, Latencies(tasks)))
  }

  lemma CallsAreParts(tasks: seq<TaskResult>)
    ensures 0 <= Sum(tasks, PublicCalls) <= Sum(tasks, Calls)
  {
    SumOfPart(tasks, PublicCalls, Calls);
  }

  lemma ShareGatesOnAnyRun(tasks: seq<TaskResult>)
    ensures var c, total := ChecksOf(tasks), |tasks|;
            && c.taskSuccess == RoundedAtLeast(Count(tasks, Succeeded), total, 90)
            && c.toolExecution == RoundedAtLeast(Count(tasks, RanCleanly), total, 98)
            && c.argumentValidity == RoundedAtLeast(Count(tasks, ValidArguments), total, 97)
            && c.firstAttempt == RoundedAtLeast(Count(tasks, FirstTime), total, 85)
  {
    var total := |tasks|;
    RatioReaches(Count(tasks, Succeeded), total, 90);
    RatioReaches(Count(tasks, RanCleanly), total, 98);
    RatioReaches(Count(tasks, ValidArguments), total, 97);
    RatioReaches(Count(tasks, FirstTime), total, 85);
  }

  lemma SafetyGatesOnAnyRun(tasks: seq<TaskResult>)
    ensures var c := ChecksOf(tasks);
            && c.safeFailure == RoundedAtLeast(Count(tasks, FailedSafely), Count(tasks, Protected), 99)
            && c.saveReopen == RoundedAtLeast(Count(tasks, ReopenedWell), Count(tasks, Reopened), 100)
            && c.unrelatedMutation == RoundedNone(Count(tasks, MutatedElsewhere), |tasks|)
  {
    CountOfPart(tasks, ReopenedWell, Reopened);
    RatioReaches(Count(tasks, FailedSafely), Count(tasks, Protected), 99);
    RatioIsAShare(Count(tasks, ReopenedWell), Count(tasks, Reopened));
    RatioIsNone(Count(tasks, MutatedElsewhere), |tasks|);
  }

  lemma UpperGatesOnAnyRun(tasks: seq<TaskResult>)
    requires 0 <= Sum(tasks, PublicCalls) <= Sum(tasks, Calls)
    ensures var c := ChecksOf(tasks);
            && c.timeoutRate == !RoundedAtLeast(Count(tasks, TimedOut), |tasks|, 1)
            && c.publicAdoption == !RoundedAtLeast(Sum(tasks, PublicCalls), Sum(tasks, Calls), 50)
  {
    RatioReaches(Count(tasks, TimedOut), |tasks|, 1);
    RatioReaches(Sum(tasks, PublicCalls), Sum(tasks, Calls), 50);
  }

  /** What each gate decides on a run of any size. */
  lemma GatesOnAnyRun(tasks: seq<TaskResult>)
    ensures 0 <= Sum(tasks, PublicCalls) <= Sum(tasks, Calls)
    ensures var total := |tasks|;
            ChecksOf(tasks) == Checks(
              RoundedAtLeast(Count(tasks, Succeeded), total, 90), RoundedAtLeast(Count(tasks, RanCleanly), total, 98),
              RoundedAtLeast(Count(tasks, ValidArguments), total, 97),
              RoundedAtLeast(Count(tasks, FirstTime), total, 85),
              RoundedAtLeast(Count(tasks, FailedSafely), Count(tasks, Protected), 99),
              RoundedAtLeast(Count(tasks, ReopenedWell), Count(tasks, Reopened), 100),
              RoundedNone(Count(tasks, MutatedElsewhere), total), Sum(tasks, RecomputeErrors) == 0,
              Count(tasks, Unclassified) == 0, !RoundedAtLeast(Count(tasks, TimedOut), total, 1),
              !RoundedAtLeast(Sum(tasks, PublicCalls), Sum(tasks, Calls), 50))
  {
    CallsAreParts(tasks);
    ShareGatesOnAnyRun(tasks);
    SafetyGatesOnAnyRun(tasks);
    UpperGatesOnAnyRun(tasks);
  }

  /** Up to twenty thousand tasks and tool calls, rounding decides no gate. */
  lemma RoundingFlipsNoVerdict(tasks: seq<TaskResult>)
    requires |tasks| <= 20_000 && Sum(tasks, Calls) <= 20_000
    ensures 0 <= Sum(tasks, PublicCalls) <= Sum(tasks, Calls)
    ensures var total := |tasks|;
            ChecksOf(tasks) == Checks(
              AtLeast(Count(tasks, Succeeded), total, 90), AtLeast(Count(tasks, RanCleanly), total, 98),
              AtLeast(Count(tasks, ValidArguments), total, 97), AtLeast(Count(tasks, FirstTime), total, 85),
              AtLeast(Count(tasks, FailedSafely), Count(tasks, Protected), 99),
              Count(tasks, Reopened) > 0 && Count(tasks, ReopenedWell) == Count(tasks, Reopened),
              Count(tasks, MutatedElsewhere) == 0, Sum(tasks, RecomputeErrors) == 0, Count(tasks, Unclassified) == 0,
              Below(Count(tasks, TimedOut), total, 1), Below(Sum(tasks, PublicCalls), Sum(tasks, Calls), 50))
  {
    var total := |tasks|;
    GatesOnAnyRun(tasks);
    CountOfPart(tasks, FailedSafely, Protected);
    CountOfPart(tasks, ReopenedWell, Reopened);
    CountOfPart(tasks, MutatedElsewhere, MutatedElsewhere);
    NotFlippedWhenSmall(Count(tasks, Succeeded), total, 90);
    NotFlippedWhenSmall(Count(tasks, RanCleanly), total, 98);
    NotFlippedWhenSmall(Count(tasks, ValidArguments), total, 97);
    NotFlippedWhenSmall(Count(tasks, FirstTime), total, 85);
    NotFlippedWhenSmall(Count(tasks, FailedSafely), Count(tasks, Protected), 99);
    NotFlippedWhenSmall(Count(tasks, ReopenedWell), Count(tasks, Reopened), 100);
    NotFlippedWhenSmall(Count(tasks, MutatedElsewhere), total, 0);
    NotFlippedWhenSmall(Count(tasks, TimedOut), total, 1);
    NotFlippedWhenSmall(Sum(tasks, PublicCalls), Sum(tasks, Calls), 50);
  }

  // ----- the bound is sharp -----

  lemma {:induction false} CountConcat(a: seq<TaskResult>, b: seq<TaskResult>, f: TaskResult -> bool)
    ensures Count(a + b, f) == Count(a, f) + Count(b, f)
    decreases |b|
  {
    if b == [] {
      assert a + b == a;
    } else {
      CountConcat(a, b[..|b| - 1], f);
      assert (a + b)[..|a + b| - 1] == a + b[..|b| - 1];
    }
  }

  function Copies(n: nat, t: TaskResult): (r: seq<TaskResult>)
    ensures |r| == n
  {
    if n == 0 then [] else Copies(n - 1, t) + [t]
  }

  lemma {:induction false} CountOfCopies(n: nat, t: TaskResult, f: TaskResult -> bool)
    ensures Count(Copies(n, t), f) == if f(t) then n else 0
  {
    if n > 0 {
      CountOfCopies(n - 1, t, f);
      assert Copies(n, t)[..n - 1] == Copies(n - 1, t);
    }
  }

  /**
   With one task more the timeout gate goes the wrong way: 200 timeouts in 20,001 tasks are less than one in a
   hundred, yet the rounded rate is 0.01 and the gate fails.
   */
  lemma OneTaskMoreFlips(fine: TaskResult)
    requires fine.success
    ensures var tasks := Copies(19_801, fine) + Copies(200, fine.(outcome := "timed_out", success := false));
            |tasks| == 20_001 && Below(Count(tasks, TimedOut), |tasks|, 1) && !ChecksOf(tasks).timeoutRate
  {
    var late := fine.(outcome := "timed_out", success := false);
    var tasks := Copies(19_801, fine) + Copies(200, late);
    CountConcat(Copies(19_801, fine), Copies(200, late), TimedOut);
    CountOfCopies(19_801, fine, TimedOut);
    CountOfCopies(200, late, TimedOut);
    GatesOnAnyRun(tasks);
  }

  /** And an argument-validity rate below 97 percent passes its gate in a run of 20,033 tasks. */
  lemma LargeRunPassesBelowThreshold(fine: TaskResult)
    requires fine.argumentValid
    ensures var tasks := Copies(19_432, fine) + Copies(601, fine.(argumentValid := false));
            |tasks| == 20_033 && !AtLeast(Count(tasks, ValidArguments), |tasks|, 97) && ChecksOf(tasks).argumentValidity
  {
    var bad := fine.(argumentValid := false);
    var tasks := Copies(19_432, fine) + Copies(601, bad);
    CountConcat(Copies(19_432, fine), Copies(601, bad), ValidArguments);
    CountOfCopies(19_432, fine, ValidArguments);
    CountOfCopies(601, bad, ValidArguments);
    GatesOnAnyRun(tasks);
  }

  /** Nothing to count: the lower bounds fail, the upper bounds hold. */
  lemma EmptyRunFails()
    ensures var c := ChecksOf([]);
            && !c.taskSuccess && !c.toolExecution && !c.argumentValidity && !c.firstAttempt && !c.safeFailure
            && !c.saveReopen && c.unrelatedMutation && c.timeoutRate && c.publicAdoption && !Passed(c)
  {
    GatesOnAnyRun([]);
  }
}
