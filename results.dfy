/** Execution and validation results: per-test statuses, suite counters and quality scores. */
module Results {

  import opened Wrappers
  import opened PyValues

  /** The five status literals a test result can carry. */
  datatype Status = Passed | Failed | Error | Skipped | Timeout

  /** The literal spelling of a status. */
  function StatusName(s: Status): (r: string)
    ensures r in {"passed", "failed", "error", "skipped", "timeout"}
  {
    match s
    case Passed => "passed"
    case Failed => "failed"
    case Error => "error"
    case Skipped => "skipped"
    case Timeout => "timeout"
  }

  /** Distinct statuses have distinct spellings. */
  lemma StatusNameInjective(a: Status, b: Status)
    ensures StatusName(a) == StatusName(b) ==> a == b
  {
  }

  datatype TestResult = TestResult(
    testName: string,
    status: Status,
    durationSeconds: real,
    stdout: string,
    stderr: string,
    errorMessage: Option<string>,
    traceback: Option<string>)

  datatype ExecutionResult = ExecutionResult(
    suiteName: string,
    testResults: seq<TestResult>,
    totalDurationSeconds: real,
    environment: Dict<string>)

  /** `sum(1 for t in results if t.status == s)` */
  function CountStatus(results: seq<TestResult>, s: Status): (n: nat)
    ensures n <= |results|
    decreases |results|
  {
    if results == [] then 0
    else CountStatus(results[..|results| - 1], s) + (if results[|results| - 1].status == s then 1 else 0)
  }

  function PassedCount(er: ExecutionResult): nat { CountStatus(er.testResults, Passed) }

  function FailedCount(er: ExecutionResult): nat { CountStatus(er.testResults, Failed) }

  function ErrorCount(er: ExecutionResult): nat { CountStatus(er.testResults, Error) }

  /** The count of a status is the number of results carrying it. */
  lemma {:induction false} CountStatusIsCardinality(results: seq<TestResult>, s: Status)
    ensures CountStatus(results, s) == |set i | 0 <= i < |results| && results[i].status == s|
    decreases |results|
  {
    if results != [] {
      var n := |results| - 1;
      CountStatusIsCardinality(results[..n], s);
      var init := results[..n];
      var before := set i | 0 <= i < n && init[i].status == s;
      var now := set i | 0 <= i < |results| && results[i].status == s;
      var added := if results[n].status == s then {n} else {};
      forall i
        ensures i in now <==> i in before + added
      {
        if 0 <= i < n {
          assert init[i] == results[i];
        }
      }
      assert now == before + added;
    }
  }

  /** Skipped and timed-out results are in no counter, so the three counters never exceed the total. */
  lemma {:induction false} CountersBounded(results: seq<TestResult>)
    ensures CountStatus(results, Passed) + CountStatus(results, Failed) + CountStatus(results, Error)
      + CountStatus(results, Skipped) + CountStatus(results, Timeout) == |results|
    ensures CountStatus(results, Passed) + CountStatus(results, Failed) + CountStatus(results, Error) <= |results|
    decreases |results|
  {
    if results != [] {
      CountersBounded(results[..|results| - 1]);
    }
  }

  /** `pass_rate`: 0 with no results, else passed / total. */
  function PassRate(er: ExecutionResult): (r: real)
    ensures 0.0 <= r <= 1.0
    ensures |er.testResults| == 0 ==> r == 0.0
    ensures r == 1.0 <==> |er.testResults| > 0 && PassedCount(er) == |er.testResults|
  {
    if |er.testResults| == 0 then 0.0 else PassedCount(er) as real / |er.testResults| as real
  }

  /** A score, declared to lie in [0, 1]. */
  type Score = r: real | 0.0 <= r <= 1.0

  datatype QualityScore = QualityScore(
    testName: string,
    assertionCount: int,
    assertionQuality: Score,
    coverageBreadth: Score,
    readability: Score,
    overallScore: Score,
    issues: seq<string>,
    suggestions: seq<string>)

  datatype ValidationResult = ValidationResult(
    suiteName: string,
    executionResult: Option<ExecutionResult>,
    qualityScores: seq<QualityScore>,
    flakyTests: seq<string>,
    avgQualityScore: real,
    summary: string)
}
