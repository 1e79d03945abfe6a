/** What the key figures of a benchmark run are, and what its gates decide, in numbers of tasks and calls. */
module KpiFigures {
  import opened Wrappers
  import opened Counting
  import opened Percentiles
  import opened BenchmarkKpis

  // ----- what is counted and added up -----

  datatype Property =
    | Succeeds | SucceedsAtOnce | RunsCleanly | HasValidArguments | IsProtected | IsRefusedWell | FailsSafely
    | NeedsRecovery | Recovers | NeedsRollback | RollsBack | TouchesOthers | TimesOut | IsUnclassified
    | IsReopened | ReopensWell | ReportsTokens

  predicate Has(t: TaskResult, p: Property) {
    match p
    case Succeeds => t.success
    case SucceedsAtOnce => t.firstAttemptSuccess
    case RunsCleanly => !t.unexpectedRuntimeFailure
    case HasValidArguments => t.argumentValid
    case IsProtected => t.protectedRejection
    case IsRefusedWell => t.protectedRejection && t.success
    case FailsSafely => t.protectedRejection && t.safeFailure
    case NeedsRecovery => t.recoverySuccess.Some?
    case Recovers => t.recoverySuccess == Some(true)
    case NeedsRollback => t.rollbackSuccess.Some?
    case RollsBack => t.rollbackSuccess == Some(true)
    case TouchesOthers => t.unrelatedDocumentMutation
    case TimesOut => t.outcome == "timed_out" && !t.success
    case IsUnclassified => t.unclassifiedFailure
    case IsReopened => t.taskType == "save_reopen_validate"
    case ReopensWell => t.taskType == "save_reopen_validate" && t.success
    case ReportsTokens => t.success && t.tokens.Some?
  }

  datatype Quantity = AllCalls | CallsOf(category: string) | InternalCalls | TokensOfSuccesses | NewErrors

  function Amount(t: TaskResult, q: Quantity): int {
    match q
    case AllCalls => t.toolCalls
    case CallsOf(category) => if t.executionCategory == category then t.toolCalls else 0
    case InternalCalls => t.generatedInternalCalls
    case TokensOfSuccesses => if t.success && t.tokens.Some? then t.tokens.value else 0
    case NewErrors => t.newRecomputeErrors
  }

  function Having(p: Property): TaskResult -> bool {
    t => Has(t, p)
  }

  function Number(tasks: seq<TaskResult>, p: Property): nat {
    |Hits(tasks, Having(p))|
  }

  function Total(tasks: seq<TaskResult>, q: Quantity): int {
    if tasks == [] then 0 else Amount(tasks[0], q) + Total(tasks[1..], q)
  }

  function CountedBy(p: Property): TaskResult -> bool {
    match p
    case Succeeds => Succeeded
    case SucceedsAtOnce => FirstTime
    case RunsCleanly => RanCleanly
    case HasValidArguments => ValidArguments
    case IsProtected => Protected
    case IsRefusedWell => ProtectedSucceeded
    case FailsSafely => FailedSafely
    case NeedsRecovery => Recovering
    case Recovers => Recovered
    case NeedsRollback => RollingBack
    case RollsBack => RolledBack
    case TouchesOthers => MutatedElsewhere
    case TimesOut => TimedOut
    case IsUnclassified => Unclassified
    case IsReopened => Reopened
    case ReopensWell => ReopenedWell
    case ReportsTokens => WithTokens
  }

  lemma CountedIsHad(t: TaskResult, p: Property)
    ensures CountedBy(p)(t) == Has(t, p)
  {
  }

  lemma {:induction false} CountIsNumber(tasks: seq<TaskResult>, p: Property)
    ensures Count(tasks, CountedBy(p)) == Number(tasks, p)
  {
    if tasks == [] {
      assert Hits(tasks, Having(p)) == {};
    } else {
      var front, last := tasks[..|tasks| - 1], tasks[|tasks| - 1];
      CountIsNumber(front, p);
      HitsGrow(front, last, Having(p));
      assert front + [last] == tasks;
      CountedIsHad(last, p);
    }
  }

  lemma {:induction false} TotalGrows(front: seq<TaskResult>, t: TaskResult, q: Quantity)
    ensures Total(front + [t], q) == Total(front, q) + Amount(t, q)
  {
    if front == [] {
      assert [t][1..] == [] && [] + [t] == [t];
    } else {
      assert (front + [t])[1..] == front[1..] + [t];
      TotalGrows(front[1..], t, q);
    }
  }

  lemma {:induction false} SumIsTotal(tasks: seq<TaskResult>, f: TaskResult -> int, q: Quantity)
    requires forall t :: f(t) == Amount(t, q)
    ensures Sum(tasks, f) == Total(tasks, q)
  {
    if tasks != [] {
      var front, last := tasks[..|tasks| - 1], tasks[|tasks| - 1];
      SumIsTotal(front, f, q);
      TotalGrows(front, last, q);
      assert front + [last] == tasks;
    }
  }

  lemma CountsAreNumbers(tasks: seq<TaskResult>)
    ensures Count(tasks, Succeeded) == Number(tasks, Succeeds)
    ensures Count(tasks, FirstTime) == Number(tasks, SucceedsAtOnce)
    ensures Count(tasks, RanCleanly) == Number(tasks, RunsCleanly)
    ensures Count(tasks, ValidArguments) == Number(tasks, HasValidArguments)
    ensures Count(tasks, MutatedElsewhere) == Number(tasks, TouchesOthers)
    ensures Count(tasks, TimedOut) == Number(tasks, TimesOut)
    ensures Count(tasks, Unclassified) == Number(tasks, IsUnclassified)
    ensures Count(tasks, WithTokens) == Number(tasks, ReportsTokens)
  {
    CountIsNumber(tasks, Succeeds);
    CountIsNumber(tasks, SucceedsAtOnce);
    CountIsNumber(tasks, RunsCleanly);
    CountIsNumber(tasks, HasValidArguments);
    FaultsAreNumbers(tasks);
    CountIsNumber(tasks, ReportsTokens);
  }

  lemma FaultsAreNumbers(tasks: seq<TaskResult>)
    ensures Count(tasks, MutatedElsewhere) == Number(tasks, TouchesOthers)
    ensures Count(tasks, TimedOut) == Number(tasks, TimesOut)
    ensures Count(tasks, Unclassified) == Number(tasks, IsUnclassified)
  {
    CountIsNumber(tasks, TouchesOthers);
    CountIsNumber(tasks, TimesOut);
    CountIsNumber(tasks, IsUnclassified);
  }

  lemma PartsAreNumbers(tasks: seq<TaskResult>)
    ensures Count(tasks, Protected) == Number(tasks, IsProtected)
    ensures Count(tasks, ProtectedSucceeded) == Number(tasks, IsRefusedWell)
    ensures Count(tasks, FailedSafely) == Number(tasks, FailsSafely)
    ensures Count(tasks, Recovering) == Number(tasks, NeedsRecovery)
    ensures Count(tasks, Recovered) == Number(tasks, Recovers)
    ensures Count(tasks, RollingBack) == Number(tasks, NeedsRollback)
    ensures Count(tasks, RolledBack) == Number(tasks, RollsBack)
    ensures Count(tasks, Reopened) == Number(tasks, IsReopened)
    ensures Count(tasks, ReopenedWell) == Number(tasks, ReopensWell)
  {
    RefusalsAreNumbers(tasks);
    RepairsAreNumbers(tasks);
    CountIsNumber(tasks, IsReopened);
    CountIsNumber(tasks, ReopensWell);
  }

  lemma RefusalsAreNumbers(tasks: seq<TaskResult>)
    ensures Count(tasks, Protected) == Number(tasks, IsProtected)
    ensures Count(tasks, ProtectedSucceeded) == Number(tasks, IsRefusedWell)
    ensures Count(tasks, FailedSafely) == Number(tasks, FailsSafely)
  {
    CountIsNumber(tasks, IsProtected);
    CountIsNumber(tasks, IsRefusedWell);
    CountIsNumber(tasks, FailsSafely);
  }

  lemma RepairsAreNumbers(tasks: seq<TaskResult>)
    ensures Count(tasks, Recovering) == Number(tasks, NeedsRecovery)
    ensures Count(tasks, Recovered) == Number(tasks, Recovers)
    ensures Count(tasks, RollingBack) == Number(tasks, NeedsRollback)
    ensures Count(tasks, RolledBack) == Number(tasks, RollsBack)
  {
    CountIsNumber(tasks, NeedsRecovery);
    CountIsNumber(tasks, Recovers);
    CountIsNumber(tasks, NeedsRollback);
    CountIsNumber(tasks, RollsBack);
  }

  lemma SumsAreTotals(tasks: seq<TaskResult>)
    ensures Sum(tasks, Calls) == Total(tasks, AllCalls) && Sum(tasks, GeneratedCalls) == Total(tasks, InternalCalls)
    ensures Sum(tasks, PublicCalls) == Total(tasks, CallsOf("public_execute_code"))
    ensures Sum(tasks, TypedCalls) == Total(tasks, CallsOf("typed_direct_rpc"))
    ensures Sum(tasks, Tokens) == Total(tasks, TokensOfSuccesses)
    ensures Sum(tasks, RecomputeErrors) == Total(tasks, NewErrors)
  {
    SumIsTotal(tasks, Calls, AllCalls);
    SumIsTotal(tasks, GeneratedCalls, InternalCalls);
    SumIsTotal(tasks, PublicCalls, CallsOf("public_execute_code"));
    SumIsTotal(tasks, TypedCalls, CallsOf("typed_direct_rpc"));
    SumIsTotal(tasks, Tokens, TokensOfSuccesses);
    SumIsTotal(tasks, RecomputeErrors, NewErrors);
  }

  // ----- rates -----

  /** The millionth nearest to the quotient, the even one of two; nought without a denominator. */
  predicate IsRate(rate: real, part: int, whole: int) {
    if whole == 0 then rate == 0.0
    else
      var millionths, exact := (rate * 1_000_000.0).Floor, part as real / whole as real * 1_000_000.0;
      && rate * 1_000_000.0 == millionths as real && millionths as real - 0.5 <= exact <= millionths as real + 0.5
      && (exact == millionths as real - 0.5 || exact == millionths as real + 0.5 ==> millionths % 2 == 0)
  }

  lemma MillionthsAreWhole(n: int)
    ensures n as real / 1_000_000.0 * 1_000_000.0 == n as real && (n as real).Floor == n
  {
  }

  lemma RatioIsRate(part: int, whole: int)
    ensures IsRate(Ratio(part, whole), part, whole)
  {
    if whole != 0 {
      var exact := part as real / whole as real * 1_000_000.0;
      HalfEvenIsNearest(exact);
      MillionthsAreWhole(HalfEven(exact));
      assert Ratio(part, whole) == HalfEven(exact) as real / 1_000_000.0;
    }
  }

  // ----- the figures -----

  /** The rates over all tasks. */
  lemma RatesOfAllTasks(tasks: seq<TaskResult>)
    ensures var k, total := KpisWith(tasks, Latencies(tasks)), |tasks|;
            && IsRate(k.taskSuccess, Number(tasks, Succeeds), total)
            && IsRate(k.firstAttemptSuccess, Number(tasks, SucceedsAtOnce), total)
            && IsRate(k.toolExecutionSuccess, Number(tasks, RunsCleanly), total)
            && IsRate(k.argumentValidity, Number(tasks, HasValidArguments), total)
            && IsRate(k.unrelatedMutation, Number(tasks, TouchesOthers), total)
            && IsRate(k.unexpectedTimeouts, Number(tasks, TimesOut), total)
            && k.unclassifiedFailures == Number(tasks, IsUnclassified)
            && k.newRecomputeErrors == Total(tasks, NewErrors)
  {
    CountsAreNumbers(tasks);
    SumsAreTotals(tasks);
    RatioIsRate(Number(tasks, Succeeds), |tasks|);
    RatioIsRate(Number(tasks, SucceedsAtOnce), |tasks|);
    RatioIsRate(Number(tasks, RunsCleanly), |tasks|);
    RatioIsRate(Number(tasks, HasValidArguments), |tasks|);
    RatioIsRate(Number(tasks, TouchesOthers), |tasks|);
    RatioIsRate(Number(tasks, TimesOut), |tasks|);
  }

  /** The rates over the tasks concerned. */
  lemma RatesOfSomeTasks(tasks: seq<TaskResult>)
    ensures var k := KpisWith(tasks, Latencies(tasks));
            && IsRate(k.protectedRejection, Number(tasks, IsRefusedWell), Number(tasks, IsProtected))
            && IsRate(k.safeFailure, Number(tasks, FailsSafely), Number(tasks, IsProtected))
            && IsRate(k.recovery, Number(tasks, Recovers), Number(tasks, NeedsRecovery))
            && IsRate(k.rollbackSuccess, Number(tasks, RollsBack), Number(tasks, NeedsRollback))
            && IsRate(k.saveReopen, Number(tasks, ReopensWell), Number(tasks, IsReopened))
            && IsRate(k.tokenCoverage, Number(tasks, ReportsTokens), Number(tasks, Succeeds))
  {
    CountsAreNumbers(tasks);
    PartsAreNumbers(tasks);
    RatioIsRate(Number(tasks, IsRefusedWell), Number(tasks, IsProtected));
    RatioIsRate(Number(tasks, FailsSafely), Number(tasks, IsProtected));
    RatioIsRate(Number(tasks, Recovers), Number(tasks, NeedsRecovery));
    RatioIsRate(Number(tasks, RollsBack), Number(tasks, NeedsRollback));
    RatioIsRate(Number(tasks, ReopensWell), Number(tasks, IsReopened));
    RatioIsRate(Number(tasks, ReportsTokens), Number(tasks, Succeeds));
  }

  /** A mean, rounded to thousandths, if there is anything to divide by. */
  predicate IsRoundedMean(mean: Option<real>, sum: int, n: nat) {
    if n == 0 then mean.None? else mean == Some(Round3(sum as real / n as real))
  }

  /** The shares of the calls. */
  lemma SharesOfCalls(tasks: seq<TaskResult>)
    ensures var k, calls := KpisWith(tasks, Latencies(tasks)), Total(tasks, AllCalls);
            && IsRate(k.publicShare, Total(tasks, CallsOf("public_execute_code")), calls)
            && IsRate(k.typedShare, Total(tasks, CallsOf("typed_direct_rpc")), calls)
            && IsRate(k.generatedShare, Total(tasks, InternalCalls), calls + Total(tasks, InternalCalls))
  {
    var calls := Total(tasks, AllCalls);
    SumsAreTotals(tasks);
    RatioIsRate(Total(tasks, CallsOf("public_execute_code")), calls);
    RatioIsRate(Total(tasks, CallsOf("typed_direct_rpc")), calls);
    RatioIsRate(Total(tasks, InternalCalls), calls + Total(tasks, InternalCalls));
  }

  /** Calls and tokens for each successful task. */
  lemma FiguresOfSuccesses(tasks: seq<TaskResult>)
    ensures var k := KpisWith(tasks, Latencies(tasks));
            && IsRoundedMean(k.callsPerSuccess, Total(tasks, AllCalls), Number(tasks, Succeeds))
            && IsRoundedMean(k.tokensPerSuccess, Total(tasks, TokensOfSuccesses), Number(tasks, ReportsTokens))
  {
    CountsAreNumbers(tasks);
    SumsAreTotals(tasks);
  }

  /** The durations of a tool class are listed in the order of the tasks, for the classes that occur. */
  lemma DurationsAreListed(front: seq<TaskResult>, t: TaskResult, category: string)
    ensures Durations([], category) == []
    ensures Durations(front + [t], category)
         == Durations(front, category) + if t.executionCategory == category then [t.durationMs] else []
    ensures category in Categories(front + [t]) <==> category in Categories(front) || t.executionCategory == category
    ensures Categories([]) == {}
  {
    DurationsAppend(front, t, category);
    CategoriesAppend(front, t);
  }

  /** And of these the median and the 95th percentile are reported. */
  lemma LatenciesAreReported(tasks: seq<TaskResult>, category: string)
    ensures var k := KpisWith(tasks, Latencies(tasks));
            && (category in k.p50 <==> category in Categories(tasks)) && k.p95.Keys == k.p50.Keys
            && (category in k.p50 ==>
                  && k.p50[category] == Interpolated(Durations(tasks, category), 0.50)
                  && k.p95[category] == Interpolated(Durations(tasks, category), 0.95))
  {
  }

  // ----- the gates -----

  predicate Reaches(n: nat, d: nat, percent: nat) {
    d > 0 && 100 * n >= percent * d
  }

  predicate StaysBelow(n: int, d: int, percent: nat) {
    d == 0 || 100 * n < percent * d
  }

  /** What each gate asks for, up to twenty thousand tasks and calls. */
  lemma GatesInTasks(tasks: seq<TaskResult>)
    requires |tasks| <= 20_000 && Total(tasks, AllCalls) <= 20_000
    ensures var c, total := ChecksOf(tasks), |tasks|;
            && (c.taskSuccess <==> Reaches(Number(tasks, Succeeds), total, 90))
            && (c.toolExecution <==> Reaches(Number(tasks, RunsCleanly), total, 98))
            && (c.argumentValidity <==> Reaches(Number(tasks, HasValidArguments), total, 97))
            && (c.firstAttempt <==> Reaches(Number(tasks, SucceedsAtOnce), total, 85))
            && (c.safeFailure <==> Reaches(Number(tasks, FailsSafely), Number(tasks, IsProtected), 99))
            && (c.saveReopen <==> Number(tasks, IsReopened) > 0
                                  && Number(tasks, ReopensWell) == Number(tasks, IsReopened))
            && (c.unrelatedMutation <==> Number(tasks, TouchesOthers) == 0)
            && (c.recomputeErrors <==> Total(tasks, NewErrors) == 0)
            && (c.unclassifiedFailures <==> Number(tasks, IsUnclassified) == 0)
            && (c.timeoutRate <==> StaysBelow(Number(tasks, TimesOut), total, 1))
            && (c.publicAdoption <==> StaysBelow(Total(tasks, CallsOf("public_execute_code")),
                                                 Total(tasks, AllCalls), 50))
  {
    CountsAreNumbers(tasks);
    PartsAreNumbers(tasks);
    SumsAreTotals(tasks);
    RoundingFlipsNoVerdict(tasks);
  }

  /** A run passes exactly when all eleven do. */
  lemma PassedExactlyWhen(c: Checks)
    ensures Passed(c) <==> c == Checks(true, true, true, true, true, true, true, true, true, true, true)
  {
  }
}
