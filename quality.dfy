/**
 * The validator's static quality score of one generated test (assertions, coverage signals,
 * readability and their weighted sum) and the suite-level average and summary line.
 */
module Quality {

  import opened Wrappers
  import opened Text
  import opened Results
  import opened TestModel

  // ---------------------------------------------------------------- what the source text shows

  /**
   * The number of whole-word occurrences of `w` from index `p` on. Whole-word occurrences of
   * "assert" cannot overlap, so this is what `re.findall(r"\bassert\b", s)` returns.
   */
  function WholeWordCount(s: string, w: string, p: nat): nat
    decreases |s| + 1 - p
  {
    if p > |s| then 0 else (if WordAt(s, p, w) then 1 else 0) + WholeWordCount(s, w, p + 1)
  }

  function AssertionCount(code: string): nat { WholeWordCount(code, "assert", 0) }

  predicate HasStatusCheck(code: string) { Contains(code, "status_code") }

  /** `\.json\(\)|response\.data|response\.text|response\.content` */
  predicate HasBodyCheck(code: string)
  {
    Contains(code, ".json()") || Contains(code, "response.data") || Contains(code, "response.text") || Contains(code, "response.content")
  }

  predicate HasHeadersCheck(code: string) { Contains(code, "headers") }

  /** `pytest\.raises|Exception|Error` */
  predicate HasErrorCheck(code: string)
  {
    Contains(code, "pytest.raises") || Contains(code, "Exception") || Contains(code, "Error")
  }

  /** Two non-overlapping occurrences of the three-character quote `q`: `q.*?q` under DOTALL. */
  predicate HasTripleQuoted(code: string, q: string)
  {
    exists i, j :: 0 <= i && i + |q| <= j && j + |q| <= |code| && OccursAt(code, j, q) && OccursAt(code, i, q)
  }

  /** `q` occurs at index `i` of `code`. */
  predicate OccursAt(code: string, i: nat, q: string)
  {
    i + |q| <= |code| && code[i..i + |q|] == q
  }

  predicate HasDocstring(code: string)
  {
    HasTripleQuoted(code, "\"\"\"") || HasTripleQuoted(code, "'''")
  }

  /** `http://localhost:\d+` */
  predicate HasLocalhostUrl(code: string)
  {
    exists i :: 0 <= i && i + 17 < |code| && OccursAt(code, i, "http://localhost:") && IsDigit(code[i + 17])
  }

  /** `len(code.strip().split("\n"))` */
  function LineCount(code: string): (n: nat)
    ensures n >= 1
  {
    |Split(Strip(code), '\n')|
  }

  // ---------------------------------------------------------------- the score's parts

  function Min(a: real, b: real): real { if a <= b then a else b }

  function Max(a: real, b: real): real { if a >= b then a else b }

  /** The assertion quality before the status-code penalty. */
  function BaseAssertionQuality(n: nat): (r: real)
    ensures 0.0 <= r <= 1.0
    ensures r == 0.0 <==> n == 0
    ensures r == 1.0 <==> n >= 4
  {
    if n == 0 then 0.0 else if n == 1 then 0.5 else Min(1.0, n as real / 4.0)
  }

  /** An api test without a status-code check keeps 70% of its assertion quality. */
  function AssertionQuality(n: nat, isApi: bool, hasStatus: bool): (r: real)
    ensures 0.0 <= r <= 1.0
    ensures !hasStatus && isApi ==> r == BaseAssertionQuality(n) * 0.7 && r <= 0.7
    ensures hasStatus || !isApi ==> r == BaseAssertionQuality(n)
  {
    var q := BaseAssertionQuality(n);
    if !hasStatus && isApi then q * 0.7 else q
  }

  /** A signal counted as a number, as Python sums booleans. */
  function Ind(b: bool): nat { if b then 1 else 0 }

  /** Readability before the clamp: 0.7, +0.1 for a docstring, -0.1 when long, -0.2 when short. */
  function RawReadability(hasDocstring: bool, lineCount: nat): real
  {
    0.7 + (if hasDocstring then 0.1 else 0.0) - (if lineCount > 30 then 0.1 else 0.0) - (if lineCount < 3 then 0.2 else 0.0)
  }

  /** `max(0.0, min(1.0, readability))` */
  function Readability(hasDocstring: bool, lineCount: nat): real
  {
    Max(0.0, Min(1.0, RawReadability(hasDocstring, lineCount)))
  }

  /** Readability always lies in [0.5, 0.8], so the clamp never changes it. */
  lemma ReadabilityRange(hasDocstring: bool, lineCount: nat)
    ensures 0.5 <= RawReadability(hasDocstring, lineCount) <= 0.8
    ensures Readability(hasDocstring, lineCount) == RawReadability(hasDocstring, lineCount)
  {
  }

  /** The weighted sum 0.4 a + 0.3 c + 0.3 r. */
  function Overall(a: real, c: real, r: real): real
  {
    a * 0.4 + c * 0.3 + r * 0.3
  }

  /** With every part in range, the overall score lies in [0, 0.94]. */
  lemma OverallRange(a: real, c: real, r: real)
    requires 0.0 <= a <= 1.0 && 0.0 <= c <= 1.0 && 0.5 <= r <= 0.8
    ensures 0.15 <= Overall(a, c, r) <= 0.94
  {
  }

  /** What the regular-expression searches report about a test's source. */
  datatype CodeFacts = CodeFacts(
    assertions: nat,
    hasStatusCheck: bool,
    hasBodyCheck: bool,
    hasHeadersCheck: bool,
    hasErrorCheck: bool,
    hasDocstring: bool,
    lineCount: nat,
    hasLocalhostUrl: bool)

  function FactsOf(code: string): CodeFacts
  {
    CodeFacts(AssertionCount(code), HasStatusCheck(code), HasBodyCheck(code), HasHeadersCheck(code),
      HasErrorCheck(code), HasDocstring(code), LineCount(code), HasLocalhostUrl(code))
  }

  /** `sum(breadth_signals) / len(breadth_signals)` over the four signals. */
  function CoverageBreadth(f: CodeFacts): (r: real)
    ensures r == 0.0 || r == 0.25 || r == 0.5 || r == 0.75 || r == 1.0
  {
    (Ind(f.hasStatusCheck) + Ind(f.hasBodyCheck) + Ind(f.hasHeadersCheck) + Ind(f.hasErrorCheck)) as real / 4.0
  }

  /** The issues raised while judging the assertions. */
  function AssertionIssues(isApi: bool, f: CodeFacts): seq<string>
  {
    (if f.assertions == 0 then ["No assertions found"] else [])
    + (if !f.hasStatusCheck && isApi then ["Missing status code assertion"] else [])
  }

  /** The suggestions made while judging the assertions. */
  function AssertionSuggestions(isApi: bool, f: CodeFacts): seq<string>
  {
    (if f.assertions == 1 then ["Consider adding more assertions"] else [])
    + (if !f.hasBodyCheck && isApi then ["Consider asserting response body content"] else [])
  }

  /** The issues, in the order they are raised. */
  function Issues(isApi: bool, f: CodeFacts): seq<string>
  {
    AssertionIssues(isApi, f) + (if f.lineCount < 3 then ["Test seems too short"] else [])
  }

  /** The suggestions, in the order they are raised. */
  function Suggestions(isApi: bool, f: CodeFacts): seq<string>
  {
    AssertionSuggestions(isApi, f)
    + (if f.lineCount > 30 then ["Test is quite long, consider splitting"] else [])
    + (if f.hasLocalhostUrl then ["Consider using a base_url fixture instead of hardcoded URL"] else [])
  }

  /** The score of a test with the given name, type and source facts. */
  function ScoreFrom(name: string, testType: TestType, f: CodeFacts): QualityScore
  {
    var isApi := testType == Api;
    var a := AssertionQuality(f.assertions, isApi, f.hasStatusCheck);
    var c := CoverageBreadth(f);
    var r := Readability(f.hasDocstring, f.lineCount);
    ReadabilityRange(f.hasDocstring, f.lineCount);
    OverallRange(a, c, r);
    QualityScore(name, f.assertions, a, c, r, Overall(a, c, r), Issues(isApi, f), Suggestions(isApi, f))
  }

  /** The score `_score_test` assigns. */
  function ScoreOf(test: GeneratedTest): QualityScore
  {
    ScoreFrom(test.name, test.testType, FactsOf(test.sourceCode))
  }

  // ---------------------------------------------------------------- what the score promises

  /**
   * No assertion gives quality 0 and the issue "No assertions found"; exactly one gives 0.5
   * (before the penalty) and a suggestion; two or more give min(1, n/4).
   */
  lemma AssertionRule(name: string, testType: TestType, f: CodeFacts)
    ensures var s := ScoreFrom(name, testType, f); var n := f.assertions;
      s.assertionCount == n
      && (n == 0 <==> s.assertionQuality == 0.0)
      && (n == 0 <==> "No assertions found" in s.issues)
      && (n == 1 <==> "Consider adding more assertions" in s.suggestions)
      && (n == 1 ==> BaseAssertionQuality(n) == 0.5)
      && (n >= 2 ==> BaseAssertionQuality(n) == Min(1.0, n as real / 4.0))
  {
  }

  /**
   * The status-code penalty: the issue is raised and the quality multiplied by 0.7 exactly for
   * an api test whose source never mentions `status_code`; other tests never get it.
   */
  lemma StatusCodeRule(name: string, testType: TestType, f: CodeFacts)
    ensures var s := ScoreFrom(name, testType, f); var penalised := testType == Api && !f.hasStatusCheck;
      ("Missing status code assertion" in s.issues <==> penalised)
      && (penalised ==> s.assertionQuality == BaseAssertionQuality(f.assertions) * 0.7)
      && (!penalised ==> s.assertionQuality == BaseAssertionQuality(f.assertions))
  {
  }

  /** Readability lies in [0.5, 0.8], coverage in {0, .25, .5, .75, 1}, and the overall score in [0, 0.94]. */
  lemma ScoreRanges(name: string, testType: TestType, f: CodeFacts)
    ensures var s := ScoreFrom(name, testType, f);
      0.5 <= s.readability <= 0.8 && 0.0 <= s.overallScore <= 0.94
      && (s.coverageBreadth == 0.0 || s.coverageBreadth == 0.25 || s.coverageBreadth == 0.5 || s.coverageBreadth == 0.75 || s.coverageBreadth == 1.0)
  {
    ReadabilityRange(f.hasDocstring, f.lineCount);
  }

  /**
   * Four or more assertions, only the status and body signals, a docstring and 3 to 30 lines
   * score 0.79: even a well-formed test stays below 0.8.
   */
  lemma TypicalGoodTest(name: string, testType: TestType, f: CodeFacts)
    requires f.assertions >= 4 && f.hasStatusCheck && f.hasBodyCheck && !f.hasHeadersCheck && !f.hasErrorCheck
    requires f.hasDocstring && 3 <= f.lineCount <= 30
    ensures ScoreFrom(name, testType, f).overallScore == 0.79
  {
  }

  /** A literal `http://localhost:<digits>` adds the base_url-fixture suggestion, and nothing else does. */
  lemma LocalhostRule(name: string, testType: TestType, f: CodeFacts)
    ensures "Consider using a base_url fixture instead of hardcoded URL" in ScoreFrom(name, testType, f).suggestions <==> f.hasLocalhostUrl
  {
  }

  // ---------------------------------------------------------------- the imperative scorer

  /** `_score_test`: the parts are computed and the issues and suggestions appended step by step. */
  method ScoreTest(test: GeneratedTest) returns (score: QualityScore)
    ensures score == ScoreOf(test)
  {
    var f := FactsOf(test.sourceCode);
    score := ScoreWith(test.name, test.testType, f);
  }

  /** The scoring steps of `_score_test` once the searches have been made. */
  method ScoreWith(name: string, testType: TestType, f: CodeFacts) returns (score: QualityScore)
    ensures score == ScoreFrom(name, testType, f)
  {
    var isApi := testType == Api;
    var assertionQuality, issues, suggestions := JudgeAssertions(isApi, f);

    var signalCount := Ind(f.hasStatusCheck) + Ind(f.hasBodyCheck) + Ind(f.hasHeadersCheck) + Ind(f.hasErrorCheck);
    var coverageBreadth := signalCount as real / 4.0;
    assert coverageBreadth == CoverageBreadth(f);

    var readability, moreIssues, moreSuggestions := JudgeReadability(f.hasDocstring, f.lineCount);
    issues := issues + moreIssues;
    suggestions := suggestions + moreSuggestions;

    if f.hasLocalhostUrl {
      suggestions := suggestions + ["Consider using a base_url fixture instead of hardcoded URL"];
    }

    var overall := assertionQuality * 0.4 + coverageBreadth * 0.3 + readability * 0.3;
    assert issues == Issues(isApi, f);
    assert suggestions == Suggestions(isApi, f);
    ReadabilityRange(f.hasDocstring, f.lineCount);
    OverallRange(assertionQuality, coverageBreadth, readability);
    score := QualityScore(name, f.assertions, assertionQuality, coverageBreadth, readability, overall, issues, suggestions);
  }

  /** The assertion checks of `_score_test`: count, quality, status-code penalty, body suggestion. */
  method JudgeAssertions(isApi: bool, f: CodeFacts) returns (quality: real, issues: seq<string>, suggestions: seq<string>)
    ensures quality == AssertionQuality(f.assertions, isApi, f.hasStatusCheck)
    ensures issues == AssertionIssues(isApi, f)
    ensures suggestions == AssertionSuggestions(isApi, f)
  {
    issues := [];
    suggestions := [];
    if f.assertions == 0 {
      issues := issues + ["No assertions found"];
      quality := 0.0;
    } else if f.assertions == 1 {
      quality := 0.5;
      suggestions := suggestions + ["Consider adding more assertions"];
    } else {
      quality := Min(1.0, f.assertions as real / 4.0);
    }

    if !f.hasStatusCheck && isApi {
      issues := issues + ["Missing status code assertion"];
      quality := quality * 0.7;
    }

    if !f.hasBodyCheck && isApi {
      suggestions := suggestions + ["Consider asserting response body content"];
    }
  }

  /** The readability checks of `_score_test`: docstring bonus, length penalties, clamp. */
  method JudgeReadability(hasDocstring: bool, lineCount: nat) returns (readability: real, issues: seq<string>, suggestions: seq<string>)
    ensures readability == Readability(hasDocstring, lineCount)
    ensures issues == (if lineCount < 3 then ["Test seems too short"] else [])
    ensures suggestions == (if lineCount > 30 then ["Test is quite long, consider splitting"] else [])
  {
    issues := [];
    suggestions := [];
    readability := 0.7;
    if hasDocstring {
      readability := readability + 0.1;
    }
    if lineCount > 30 {
      readability := readability - 0.1;
      suggestions := suggestions + ["Test is quite long, consider splitting"];
    }
    if lineCount < 3 {
      readability := readability - 0.2;
      issues := issues + ["Test seems too short"];
    }
    readability := Max(0.0, Min(1.0, readability));
  }

  // ---------------------------------------------------------------- the suite verdict

  /** The sum of the overall scores. */
  function TotalOverall(scores: seq<QualityScore>): real
  {
    if scores == [] then 0.0 else TotalOverall(scores[..|scores| - 1]) + scores[|scores| - 1].overallScore
  }

  /** The mean overall score, 0 with no tests. */
  function Average(scores: seq<QualityScore>): real
  {
    if scores == [] then 0.0 else TotalOverall(scores) / |scores| as real
  }

  /** A sum of scores each at most `hi` is at most `hi` times their number. */
  lemma {:induction false} TotalOverallBound(scores: seq<QualityScore>, hi: real)
    requires 0.0 <= hi
    requires forall i :: 0 <= i < |scores| ==> scores[i].overallScore <= hi
    ensures 0.0 <= TotalOverall(scores) <= hi * |scores| as real
    decreases |scores|
  {
    if scores != [] {
      TotalOverallBound(scores[..|scores| - 1], hi);
    }
  }

  /** The scores of a suite's tests, in order. */
  function ScoresOf(tests: seq<GeneratedTest>): (r: seq<QualityScore>)
    ensures |r| == |tests|
  {
    if tests == [] then [] else ScoresOf(tests[..|tests| - 1]) + [ScoreOf(tests[|tests| - 1])]
  }

  /** The `i`-th score is the score of the `i`-th test. */
  lemma {:induction false} ScoresOfAt(tests: seq<GeneratedTest>, i: nat)
    requires i < |tests|
    ensures ScoresOf(tests)[i] == ScoreOf(tests[i])
    decreases |tests|
  {
    if i < |tests| - 1 {
      ScoresOfAt(tests[..|tests| - 1], i);
    }
  }

  /** A total of at most `hi` per item, divided by the number of items, is at most `hi`. */
  lemma MeanBound(total: real, n: real, hi: real)
    requires 0.0 < n && 0.0 <= total <= hi * n
    ensures 0.0 <= total / n <= hi
  {
    assert total / n * n == total;
  }

  /** The average of a suite's scores lies in [0, 0.94], and is 0 for a suite with no tests. */
  lemma AverageRange(tests: seq<GeneratedTest>)
    ensures 0.0 <= Average(ScoresOf(tests)) <= 0.94
    ensures tests == [] ==> Average(ScoresOf(tests)) == 0.0
  {
    var scores := ScoresOf(tests);
    forall i | 0 <= i < |scores|
      ensures scores[i].overallScore <= 0.94
    {
      ScoresOfAt(tests, i);
      ScoreRanges(tests[i].name, tests[i].testType, FactsOf(tests[i].sourceCode));
    }
    TotalOverallBound(scores, 0.94);
    if scores != [] {
      MeanBound(TotalOverall(scores), |scores| as real, 0.94);
    }
  }

  /**
   * The parts of the summary line: the test count and the average, then the passed count and
   * pass rate only when an execution result is present. Number formatting is given by `fmt`
   * (two decimals) and `pct` (a whole percentage).
   */
  function SummaryParts(suite: TestSuite, avg: real, er: Option<ExecutionResult>, fmt: real -> string, pct: real -> string): seq<string>
  {
    ["Tests: " + NatToString(|suite.tests|), "Avg quality: " + fmt(avg)]
    + match er
      case Some(e) =>
        ["Passed: " + NatToString(PassedCount(e)) + "/" + NatToString(|e.testResults|), "Pass rate: " + pct(PassRate(e))]
      case None => []
  }

  /** The validator's result for a suite. */
  function ValidationOf(suite: TestSuite, er: Option<ExecutionResult>, fmt: real -> string, pct: real -> string): ValidationResult
  {
    var scores := ScoresOf(suite.tests);
    var avg := Average(scores);
    ValidationResult(suite.name, er, scores, [], avg, Join(SummaryParts(suite, avg, er, fmt, pct), " | "))
  }

  /**
   * The summary starts with the test count and has two parts, or four when an execution
   * result is present, the third then giving passed over total.
   */
  lemma SummaryShape(suite: TestSuite, avg: real, er: Option<ExecutionResult>, fmt: real -> string, pct: real -> string)
    ensures var parts := SummaryParts(suite, avg, er, fmt, pct);
      |parts| == (if er.Some? then 4 else 2)
      && parts[0] == "Tests: " + NatToString(|suite.tests|)
      && (er.Some? ==> parts[2] == "Passed: " + NatToString(PassedCount(er.value)) + "/" + NatToString(|er.value.testResults|))
  {
  }

  /** The scoring loop of `ValidatorAgent.run`: one score per test, in order. */
  method ScoreAll(tests: seq<GeneratedTest>) returns (scores: seq<QualityScore>)
    ensures scores == ScoresOf(tests)
  {
    scores := [];
    var i := 0;
    while i < |tests|
      invariant 0 <= i <= |tests|
      invariant scores == ScoresOf(tests[..i])
    {
      var s := ScoreTest(tests[i]);
      assert tests[..i + 1][..i] == tests[..i];
      scores := scores + [s];
      i := i + 1;
    }
    assert tests[..i] == tests;
  }

  /** `ValidatorAgent.run`: score every test in order, average, and build the summary. */
  method Run(suite: TestSuite, er: Option<ExecutionResult>, fmt: real -> string, pct: real -> string) returns (vr: ValidationResult)
    ensures vr == ValidationOf(suite, er, fmt, pct)
  {
    var scores := ScoreAll(suite.tests);
    var avgScore := 0.0;
    if |scores| > 0 {
      avgScore := TotalOverall(scores) / |scores| as real;
    }
    var summaryParts := ["Tests: " + NatToString(|suite.tests|), "Avg quality: " + fmt(avgScore)];
    if er.Some? {
      var e := er.value;
      summaryParts := summaryParts + ["Passed: " + NatToString(PassedCount(e)) + "/" + NatToString(|e.testResults|), "Pass rate: " + pct(PassRate(e))];
    }
    assert avgScore == Average(scores);
    assert summaryParts == SummaryParts(suite, avgScore, er, fmt, pct);
    vr := ValidationResult(suite.name, er, scores, [], avgScore, Join(summaryParts, " | "));
  }
}
