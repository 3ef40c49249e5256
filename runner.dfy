/**
 * The executor's reading of a pytest run: the three-pass parser of the verbose console
 * transcript, and the shaping of a finished, timed-out or failed-to-launch run into an
 * execution result. Launching the process is not modelled: its outcome is an input.
 */
module Runner {

  import opened Wrappers
  import opened Text
  import opened PyValues
  import opened Results
  import opened FirstWins
  import opened Search
  import opened FailureSection

  // ---------------------------------------------------------------- the status-line pattern

  /** `(PASSED|FAILED|ERROR|SKIPPED)` at the start of `s`. */
  function StatusToken(s: string): (r: Option<Status>)
    ensures r.Some? ==> r.value != Timeout
  {
    if StartsWith(s, "PASSED") then Some(Passed)
    else if StartsWith(s, "FAILED") then Some(Failed)
    else if StartsWith(s, "ERROR") then Some(Error)
    else if StartsWith(s, "SKIPPED") then Some(Skipped)
    else None
  }

  /**
   * `::(\w+)\s+(PASSED|FAILED|ERROR|SKIPPED)` at index `p`. A word character is never
   * whitespace, so both runs are matched maximally; the optional `\s*(\[.*\])?` tail always matches.
   */
  function StatusMatchAt(line: string, p: nat): (r: Option<(string, Status)>)
    requires p <= |line|
    ensures r.Some? ==> r.value.0 != [] && AllWordChars(r.value.0) && r.value.1 != Timeout
  {
    var rest := line[p..];
    if !StartsWith(rest, "::") then None
    else
      var name := TakeWord(rest[2..]);
      var after := rest[2 + |name|..];
      var gap := TakeSpace(after);
      if name == [] || gap == [] then None
      else
        match StatusToken(after[|gap|..])
        case Some(st) => Some((name, st))
        case None => None
  }

  /** The status pattern tried at each index of the line. */
  function StatusAt(line: string): nat -> Option<(string, Status)>
  {
    (q: nat) => if q <= |line| then StatusMatchAt(line, q) else None
  }

  /** `re.match(r".*?::(\w+)\s+(PASSED|FAILED|ERROR|SKIPPED)\s*(\[.*\])?", line)`: the lazy prefix lets the leftmost index win. */
  function StatusMatch(line: string): Option<(string, Status)>
  {
    FirstFrom(|line|, StatusAt(line), 0)
  }

  /**
   * A line matches exactly when the pattern matches at some index; the name and status are then
   * those found at the leftmost such index, the name is a non-empty word and the status is never
   * a timeout.
   */
  lemma StatusMatchSpec(line: string)
    ensures StatusMatch(line).Some? <==> exists q :: 0 <= q <= |line| && StatusMatchAt(line, q).Some?
    ensures StatusMatch(line).Some? ==>
      exists q :: 0 <= q <= |line| && StatusMatchAt(line, q) == StatusMatch(line)
        && forall q' :: 0 <= q' < q ==> StatusMatchAt(line, q').None?
    ensures StatusMatch(line).Some? ==>
      StatusMatch(line).value.0 != [] && AllWordChars(StatusMatch(line).value.0) && StatusMatch(line).value.1 != Timeout
  {
    var at := StatusAt(line);
    if StatusMatch(line).Some? {
      var q := FirstFromWitness(|line|, at, 0);
      assert StatusMatchAt(line, q) == StatusMatch(line);
      forall q' | 0 <= q' < q
        ensures StatusMatchAt(line, q').None?
      {
        assert at(q').None?;
      }
    } else {
      FirstFromNone(|line|, at, 0);
      forall q | 0 <= q <= |line|
        ensures StatusMatchAt(line, q).None?
      {
        assert at(q).None?;
      }
    }
  }

  // ---------------------------------------------------------------- the short-summary pattern

  /** `::(\w+)` at index `p`: the whole word after the colons. */
  function SummaryMatchAt(line: string, p: nat): (r: Option<string>)
    requires p <= |line|
    ensures r.Some? ==> r.value != [] && AllWordChars(r.value)
  {
    if p + 2 <= |line| && line[p..p + 2] == "::" && TakeWord(line[p + 2..]) != [] then Some(TakeWord(line[p + 2..]))
    else None
  }

  /** The summary pattern's tail tried at each index of the line. */
  function SummaryAt(line: string): nat -> Option<string>
  {
    (q: nat) => if q <= |line| then SummaryMatchAt(line, q) else None
  }

  /**
   * `re.match(r"FAILED\s+.*?::(\w+)", line)`: "FAILED", whitespace, then the first `::word` after
   * it. The whitespace run cannot hold `::`, so the search may start right after its first character.
   */
  function SummaryMatch(line: string): Option<string>
  {
    if |line| >= 7 && line[..6] == "FAILED" && IsSpace(line[6]) then FirstFrom(|line|, SummaryAt(line), 7) else None
  }

  /** A summary line names a non-empty word that follows `::` somewhere after "FAILED" and a space. */
  lemma SummaryMatchSpec(line: string)
    ensures SummaryMatch(line).Some? <==>
      StartsWith(line, "FAILED") && |line| >= 7 && IsSpace(line[6])
      && exists q :: 7 <= q <= |line| && SummaryMatchAt(line, q).Some?
    ensures SummaryMatch(line).Some? ==> SummaryMatch(line).value != [] && AllWordChars(SummaryMatch(line).value)
  {
    if |line| >= 7 && line[..6] == "FAILED" && IsSpace(line[6]) {
      var at := SummaryAt(line);
      if SummaryMatch(line).Some? {
        var q := FirstFromWitness(|line|, at, 7);
        assert SummaryMatchAt(line, q) == SummaryMatch(line);
      } else {
        FirstFromNone(|line|, at, 7);
        forall q | 7 <= q <= |line|
          ensures SummaryMatchAt(line, q).None?
        {
          assert at(q).None?;
        }
      }
    }
  }

  // ---------------------------------------------------------------- the three passes

  function TestName(r: TestResult): string { r.testName }

  /** The result a status line yields; the failure block is attached to failed results only. */
  function StatusResult(name: string, status: Status, stdout: string, stderr: string, details: Dict<string>): TestResult
  {
    var errorMsg := Get(details, name).GetOr("");
    TestResult(name, status, 0.0, stdout, stderr, Some(if status == Failed then errorMsg else ""), None)
  }

  /** The status pattern applied to every stripped line. */
  function StatusLines(lines: seq<string>): (r: seq<Option<(string, Status)>>)
    ensures |r| == |lines|
  {
    if lines == [] then [] else StatusLines(lines[..|lines| - 1]) + [StatusMatch(Strip(lines[|lines| - 1]))]
  }

  /** Entry `i` of `StatusLines` is the status match of line `i`, stripped. */
  lemma {:induction false} StatusLinesAt(lines: seq<string>, i: nat)
    requires i < |lines|
    ensures StatusLines(lines)[i] == StatusMatch(Strip(lines[i]))
  {
    if i < |lines| - 1 {
      StatusLinesAt(lines[..|lines| - 1], i);
    }
  }

  /** The summary pattern applied to every stripped line. */
  function SummaryLines(lines: seq<string>): (r: seq<Option<string>>)
    ensures |r| == |lines|
  {
    if lines == [] then [] else SummaryLines(lines[..|lines| - 1]) + [SummaryMatch(Strip(lines[|lines| - 1]))]
  }

  /** Entry `i` of `SummaryLines` is the summary match of line `i`, stripped. */
  lemma {:induction false} SummaryLinesAt(lines: seq<string>, i: nat)
    requires i < |lines|
    ensures SummaryLines(lines)[i] == SummaryMatch(Strip(lines[i]))
  {
    if i < |lines| - 1 {
      SummaryLinesAt(lines[..|lines| - 1], i);
    }
  }

  /** What pass one makes of a line's status match. */
  function StatusPick(stdout: string, stderr: string, details: Dict<string>): Option<(string, Status)> -> Option<TestResult>
  {
    (m: Option<(string, Status)>) =>
      match m
      case Some(x) => Some(StatusResult(x.0, x.1, stdout, stderr, details))
      case None => None
  }

  /** What pass two makes of a line's summary match: a failed result without a message. */
  function SummaryPick(stdout: string, stderr: string): Option<string> -> Option<TestResult>
  {
    (m: Option<string>) =>
      match m
      case Some(name) => Some(TestResult(name, Failed, 0.0, stdout, stderr, None, None))
      case None => None
  }

  /** The last-resort result: failed iff "FAILED" or "ERROR" occurs anywhere in the output. */
  function SuiteResult(stdout: string, stderr: string): TestResult
  {
    var hasFailures := Contains(stdout, "FAILED") || Contains(stdout, "ERROR");
    TestResult("<suite>", if hasFailures then Failed else Passed, 0.0, stdout, stderr, None, None)
  }

  /**
   * `_parse_pytest_output`: the name-to-body dict read from the FAILURES section, then the three
   * passes over the lines. Only stdout is scanned.
   */
  function ParseOutput(stdout: string, stderr: string): seq<TestResult>
  {
    var fromStatus := Collect(StatusMatches(stdout), StatusPick(stdout, stderr, FailureDetails(stdout)), TestName);
    if fromStatus != [] then fromStatus
    else
      var fromSummary := Collect(SummaryMatches(stdout), SummaryPick(stdout, stderr), TestName);
      if fromSummary != [] then fromSummary else [SuiteResult(stdout, stderr)]
  }

  /** The status match of every line of the output (see `StatusLinesAt`). */
  function StatusMatches(stdout: string): seq<Option<(string, Status)>>
  {
    StatusLines(Split(stdout, '\n'))
  }

  /** The summary match of every line of the output (see `SummaryLinesAt`). */
  function SummaryMatches(stdout: string): seq<Option<string>>
  {
    SummaryLines(Split(stdout, '\n'))
  }

  /** No line reads as a timeout: the pattern has no such status. */
  lemma StatusMatchesNoTimeout(stdout: string, i: nat)
    requires i < |StatusMatches(stdout)|
    ensures StatusMatches(stdout)[i].Some? ==> StatusMatches(stdout)[i].value.1 != Timeout
  {
    StatusLinesAt(Split(stdout, '\n'), i);
    StatusMatchSpec(Strip(Split(stdout, '\n')[i]));
  }

  /** Some line of the output is a status line. */
  predicate HasStatusLine(stdout: string)
  {
    exists i :: 0 <= i < |StatusMatches(stdout)| && StatusMatches(stdout)[i].Some?
  }

  /** Some line of the output is a short-summary FAILED line. */
  predicate HasSummaryLine(stdout: string)
  {
    exists i :: 0 <= i < |SummaryMatches(stdout)| && SummaryMatches(stdout)[i].Some?
  }

  /** The parser never returns an empty list. */
  lemma ParseOutputNonEmpty(stdout: string, stderr: string)
    ensures |ParseOutput(stdout, stderr)| >= 1
  {
    ParseOutputCases(stdout, stderr);
  }

  /** The names the parser returns are distinct. */
  lemma ParseOutputDistinct(stdout: string, stderr: string)
    ensures DistinctNames(ParseOutput(stdout, stderr), TestName)
  {
    var fromStatus := Collect(StatusMatches(stdout), StatusPick(stdout, stderr, FailureDetails(stdout)), TestName);
    var fromSummary := Collect(SummaryMatches(stdout), SummaryPick(stdout, stderr), TestName);
    CollectDistinct(StatusMatches(stdout), StatusPick(stdout, stderr, FailureDetails(stdout)), TestName);
    CollectDistinct(SummaryMatches(stdout), SummaryPick(stdout, stderr), TestName);
    ParseOutputCases(stdout, stderr);
  }

  /** The three passes, each consulted only when the ones before it yielded nothing. */
  lemma ParseOutputCases(stdout: string, stderr: string)
    ensures var fromStatus := Collect(StatusMatches(stdout), StatusPick(stdout, stderr, FailureDetails(stdout)), TestName);
      var fromSummary := Collect(SummaryMatches(stdout), SummaryPick(stdout, stderr), TestName);
      ParseOutput(stdout, stderr)
        == if fromStatus != [] then fromStatus else if fromSummary != [] then fromSummary else [SuiteResult(stdout, stderr)]
  {
  }

  /** Every result carries the whole stdout and stderr verbatim. */
  lemma ParseOutputStreams(stdout: string, stderr: string, a: nat)
    requires a < |ParseOutput(stdout, stderr)|
    ensures ParseOutput(stdout, stderr)[a].stdout == stdout
    ensures ParseOutput(stdout, stderr)[a].stderr == stderr
  {
    if HasStatusLine(stdout) {
      var i := StatusPassWitness(stdout, stderr, a);
    } else if HasSummaryLine(stdout) {
      var i := SummaryPassWitness(stdout, stderr, a);
    } else {
      FallbackSpec(stdout, stderr);
    }
  }

  /** Pass one makes a result of exactly the lines that match. */
  lemma StatusPickSome(m: Option<(string, Status)>, stdout: string, stderr: string, details: Dict<string>)
    ensures StatusPick(stdout, stderr, details)(m).Some? <==> m.Some?
    ensures m.Some? ==> StatusPick(stdout, stderr, details)(m).value == StatusResult(m.value.0, m.value.1, stdout, stderr, details)
  {
  }

  /** Pass one yields something exactly when some line is a status line. */
  lemma StatusPassEmpty(stdout: string, stderr: string)
    ensures Collect(StatusMatches(stdout), StatusPick(stdout, stderr, FailureDetails(stdout)), TestName) != [] <==> HasStatusLine(stdout)
  {
    var ms := StatusMatches(stdout);
    var p := StatusPick(stdout, stderr, FailureDetails(stdout));
    CollectEmpty(ms, p, TestName);
    forall i | 0 <= i < |ms|
      ensures p(ms[i]).Some? <==> ms[i].Some?
    {
      StatusPickSome(ms[i], stdout, stderr, FailureDetails(stdout));
    }
  }

  /** Pass two makes a failed result of exactly the lines that match. */
  lemma SummaryPickSome(m: Option<string>, stdout: string, stderr: string)
    ensures SummaryPick(stdout, stderr)(m).Some? <==> m.Some?
    ensures m.Some? ==> SummaryPick(stdout, stderr)(m).value == TestResult(m.value, Failed, 0.0, stdout, stderr, None, None)
  {
  }

  /** Pass two yields something exactly when some line is a summary line. */
  lemma SummaryPassEmpty(stdout: string, stderr: string)
    ensures Collect(SummaryMatches(stdout), SummaryPick(stdout, stderr), TestName) != [] <==> HasSummaryLine(stdout)
  {
    var ms := SummaryMatches(stdout);
    var p := SummaryPick(stdout, stderr);
    CollectEmpty(ms, p, TestName);
    forall i | 0 <= i < |ms|
      ensures p(ms[i]).Some? <==> ms[i].Some?
    {
      SummaryPickSome(ms[i], stdout, stderr);
    }
  }

  /** The line a status-pass result comes from: the first status line with its name. */
  lemma StatusPassWitness(stdout: string, stderr: string, a: nat) returns (i: nat)
    requires HasStatusLine(stdout) && a < |ParseOutput(stdout, stderr)|
    ensures var ms := StatusMatches(stdout); var r := ParseOutput(stdout, stderr)[a];
      i < |ms| && ms[i].Some? && r == StatusResult(ms[i].value.0, ms[i].value.1, stdout, stderr, FailureDetails(stdout))
      && forall j :: 0 <= j < i && ms[j].Some? ==> ms[j].value.0 != r.testName
  {
    var ms := StatusMatches(stdout);
    var p := StatusPick(stdout, stderr, FailureDetails(stdout));
    StatusPassEmpty(stdout, stderr);
    CollectFirst(ms, p, TestName, a);
    var r := ParseOutput(stdout, stderr)[a];
    i :| FirstWithName(ms, p, TestName, i) && p(ms[i]) == Some(r);
    StatusPickSome(ms[i], stdout, stderr, FailureDetails(stdout));
    forall j | 0 <= j < i && ms[j].Some?
      ensures ms[j].value.0 != r.testName
    {
      StatusPickSome(ms[j], stdout, stderr, FailureDetails(stdout));
    }
  }

  /**
   * When some line is a status line, each result is the name and status of the first status
   * line naming it; a failed result carries what the FAILURES section holds under its name (or
   * "") and any other result "".
   */
  lemma StatusPassSpec(stdout: string, stderr: string, a: nat)
    requires HasStatusLine(stdout) && a < |ParseOutput(stdout, stderr)|
    ensures var ms := StatusMatches(stdout); var r := ParseOutput(stdout, stderr)[a];
      (exists i :: 0 <= i < |ms| && ms[i] == Some((r.testName, r.status))
        && forall j :: 0 <= j < i && ms[j].Some? ==> ms[j].value.0 != r.testName)
      && r.status != Timeout
      && r.errorMessage == Some(if r.status == Failed then Get(FailureDetails(stdout), r.testName).GetOr("") else "")
  {
    var i := StatusPassWitness(stdout, stderr, a);
    StatusMatchesNoTimeout(stdout, i);
  }

  /** When some line is a status line, the result names are exactly the status lines' names. */
  lemma StatusPassNames(stdout: string, stderr: string, name: string)
    requires HasStatusLine(stdout)
    ensures var ms := StatusMatches(stdout);
      name in NamesOf(ParseOutput(stdout, stderr), TestName) <==>
      exists i :: 0 <= i < |ms| && ms[i].Some? && ms[i].value.0 == name
  {
    var ms := StatusMatches(stdout);
    var details := FailureDetails(stdout);
    var p := StatusPick(stdout, stderr, details);
    StatusPassEmpty(stdout, stderr);
    ParseOutputCases(stdout, stderr);
    assert ParseOutput(stdout, stderr) == Collect(ms, p, TestName);
    CollectNames(ms, p, TestName, name);
    if name in NamesOf(ParseOutput(stdout, stderr), TestName) {
      var i :| 0 <= i < |ms| && p(ms[i]).Some? && TestName(p(ms[i]).value) == name;
      StatusPickSome(ms[i], stdout, stderr, details);
    }
    if exists i :: 0 <= i < |ms| && ms[i].Some? && ms[i].value.0 == name {
      var i :| 0 <= i < |ms| && ms[i].Some? && ms[i].value.0 == name;
      StatusPickSome(ms[i], stdout, stderr, details);
    }
  }

  /** A failed status-line result carries the stripped body of the last FAILURES match naming it. */
  lemma FailedMessageLast(stdout: string, stderr: string, ms: seq<(string, string)>, a: nat, i: nat)
    requires FailureDetails(stdout) == Details(ms)
    requires HasStatusLine(stdout) && a < |ParseOutput(stdout, stderr)|
    requires i < |ms| && ms[i].0 == ParseOutput(stdout, stderr)[a].testName
    requires forall j :: i < j < |ms| ==> ms[j].0 != ms[i].0
    ensures ParseOutput(stdout, stderr)[a].status == Failed ==> ParseOutput(stdout, stderr)[a].errorMessage == Some(Strip(ms[i].1))
  {
    StatusPassSpec(stdout, stderr, a);
    DetailsLast(ms, i);
  }

  /** A failed status-line result that no FAILURES match names carries "". */
  lemma FailedMessageAbsent(stdout: string, stderr: string, ms: seq<(string, string)>, a: nat)
    requires FailureDetails(stdout) == Details(ms)
    requires HasStatusLine(stdout) && a < |ParseOutput(stdout, stderr)|
    requires forall j :: 0 <= j < |ms| ==> ms[j].0 != ParseOutput(stdout, stderr)[a].testName
    ensures ParseOutput(stdout, stderr)[a].status == Failed ==> ParseOutput(stdout, stderr)[a].errorMessage == Some("")
  {
    StatusPassSpec(stdout, stderr, a);
    DetailsAbsent(ms, ParseOutput(stdout, stderr)[a].testName);
  }

  /**
   * On output as pytest prints it (the run, the `=== FAILURES ===` banner, then one
   * `___ name ___` header and body per failure), a failed status-line result carries the
   * stripped body printed under its name, the last one if the name is printed twice.
   */
  lemma FailedMessageFromLayout(pre: string, left: nat, right: nat, lead: string, fs: seq<Failure>, stderr: string, a: nat, i: nat)
    requires !Contains(pre, "FAILURES") && (pre == [] || pre[|pre| - 1] != '=') && left >= 3 && right >= 3
    requires '_' !in lead && (lead == [] || lead[0] != '=')
    requires forall k :: 0 <= k < |fs| ==> WellFormed(fs[k])
    requires !Contains(lead + Layout(fs), "FAILURES")
    requires HasStatusLine(pre + Banner(left, right) + lead + Layout(fs))
    requires a < |ParseOutput(pre + Banner(left, right) + lead + Layout(fs), stderr)|
    requires i < |fs| && fs[i].name == ParseOutput(pre + Banner(left, right) + lead + Layout(fs), stderr)[a].testName
    requires forall j :: i < j < |fs| ==> fs[j].name != fs[i].name
    ensures var r := ParseOutput(pre + Banner(left, right) + lead + Layout(fs), stderr)[a];
      r.status == Failed ==> r.errorMessage == Some(Strip(fs[i].body))
  {
    FailureDetailsRead(pre, left, right, lead, fs);
    FailedMessageLast(pre + Banner(left, right) + lead + Layout(fs), stderr, Pairs(fs), a, i);
  }

  /** On the same output, a failed status-line result whose name no failure is printed under carries "". */
  lemma FailedMessageNotInLayout(pre: string, left: nat, right: nat, lead: string, fs: seq<Failure>, stderr: string, a: nat)
    requires !Contains(pre, "FAILURES") && (pre == [] || pre[|pre| - 1] != '=') && left >= 3 && right >= 3
    requires '_' !in lead && (lead == [] || lead[0] != '=')
    requires forall k :: 0 <= k < |fs| ==> WellFormed(fs[k])
    requires !Contains(lead + Layout(fs), "FAILURES")
    requires HasStatusLine(pre + Banner(left, right) + lead + Layout(fs))
    requires a < |ParseOutput(pre + Banner(left, right) + lead + Layout(fs), stderr)|
    requires forall j :: 0 <= j < |fs| ==> fs[j].name != ParseOutput(pre + Banner(left, right) + lead + Layout(fs), stderr)[a].testName
    ensures var r := ParseOutput(pre + Banner(left, right) + lead + Layout(fs), stderr)[a];
      r.status == Failed ==> r.errorMessage == Some("")
  {
    FailureDetailsRead(pre, left, right, lead, fs);
    FailedMessageAbsent(pre + Banner(left, right) + lead + Layout(fs), stderr, Pairs(fs), a);
  }

  /** Without "FAILURES" in the output there is no dict to read, so every failed status-line result carries "". */
  lemma FailedMessageWithoutBanner(stdout: string, stderr: string, a: nat)
    requires !Contains(stdout, "FAILURES") && HasStatusLine(stdout) && a < |ParseOutput(stdout, stderr)|
    ensures ParseOutput(stdout, stderr)[a].status == Failed ==> ParseOutput(stdout, stderr)[a].errorMessage == Some("")
  {
    FailureDetailsNone(stdout);
    StatusPassSpec(stdout, stderr, a);
  }

  /** The line a summary-pass result comes from: the first summary line with its name. */
  lemma SummaryPassWitness(stdout: string, stderr: string, a: nat) returns (i: nat)
    requires !HasStatusLine(stdout) && HasSummaryLine(stdout) && a < |ParseOutput(stdout, stderr)|
    ensures var ms := SummaryMatches(stdout); var r := ParseOutput(stdout, stderr)[a];
      i < |ms| && ms[i].Some? && r == TestResult(ms[i].value, Failed, 0.0, stdout, stderr, None, None)
      && forall j :: 0 <= j < i && ms[j].Some? ==> ms[j].value != r.testName
  {
    var ms := SummaryMatches(stdout);
    var p := SummaryPick(stdout, stderr);
    StatusPassEmpty(stdout, stderr);
    SummaryPassEmpty(stdout, stderr);
    CollectFirst(ms, p, TestName, a);
    var r := ParseOutput(stdout, stderr)[a];
    i :| FirstWithName(ms, p, TestName, i) && p(ms[i]) == Some(r);
    SummaryPickSome(ms[i], stdout, stderr);
    forall j | 0 <= j < i && ms[j].Some?
      ensures ms[j].value != r.testName
    {
      SummaryPickSome(ms[j], stdout, stderr);
    }
  }

  /**
   * Summary lines are read only when no line is a status line; then, if some line is a summary
   * line, every result is failed, has no message, and is named by the first summary line naming it.
   */
  lemma SummaryPassSpec(stdout: string, stderr: string, a: nat)
    requires !HasStatusLine(stdout) && HasSummaryLine(stdout) && a < |ParseOutput(stdout, stderr)|
    ensures var ms := SummaryMatches(stdout); var r := ParseOutput(stdout, stderr)[a];
      r.status == Failed && r.errorMessage.None?
      && exists i :: (0 <= i < |ms| && ms[i] == Some(r.testName)
        && forall j :: 0 <= j < i && ms[j].Some? ==> ms[j].value != r.testName)
  {
    var i := SummaryPassWitness(stdout, stderr, a);
    var ms := SummaryMatches(stdout);
    assert ms[i] == Some(ParseOutput(stdout, stderr)[a].testName);
  }

  /** With neither kind of line, the one result is `<suite>`, failed iff "FAILED" or "ERROR" occurs in stdout. */
  lemma FallbackSpec(stdout: string, stderr: string)
    requires !HasStatusLine(stdout) && !HasSummaryLine(stdout)
    ensures ParseOutput(stdout, stderr) == [SuiteResult(stdout, stderr)]
    ensures SuiteResult(stdout, stderr).status == Failed <==> Contains(stdout, "FAILED") || Contains(stdout, "ERROR")
    ensures SuiteResult(stdout, stderr).status == Passed <==> !Contains(stdout, "FAILED") && !Contains(stdout, "ERROR")
  {
    StatusPassEmpty(stdout, stderr);
    SummaryPassEmpty(stdout, stderr);
  }

  /** `_parse_pytest_output`: the FAILURES dict, then the three passes over the lines of stdout, with `seen_names`. */
  method ParsePytestOutput(stdout: string, stderr: string) returns (results: seq<TestResult>)
    ensures results == ParseOutput(stdout, stderr)
  {
    var details := ReadFailureDetails(stdout);
    var lines := Split(stdout, '\n');
    var seen: set<string> := {};
    results, seen := StatusPass(lines, stdout, stderr, details);
    if results == [] {
      results := SummaryPass(lines, stdout, stderr);
    }
    if results == [] {
      var hasFailures := Contains(stdout, "FAILED") || Contains(stdout, "ERROR");
      results := [TestResult("<suite>", if hasFailures then Failed else Passed, 0.0, stdout, stderr, None, None)];
    }
  }

  /** Appending an item adds its name. */
  lemma NamesOfSnoc(rs: seq<TestResult>, r: TestResult)
    ensures NamesOf(rs + [r], TestName) == NamesOf(rs, TestName) + [r.testName]
  {
  }

  /** The first pass: status lines, first occurrence of a name winning. */
  method StatusPass(lines: seq<string>, stdout: string, stderr: string, details: Dict<string>)
    returns (results: seq<TestResult>, seen: set<string>)
    ensures results == Collect(StatusLines(lines), StatusPick(stdout, stderr, details), TestName)
    ensures forall s :: s in seen <==> s in NamesOf(results, TestName)
  {
    ghost var ms := StatusLines(lines);
    results := [];
    seen := {};
    var i := 0;
    while i < |lines|
      invariant 0 <= i <= |lines|
      invariant results == Collect(ms[..i], StatusPick(stdout, stderr, details), TestName)
      invariant forall s :: s in seen <==> s in NamesOf(results, TestName)
    {
      CollectSnoc(ms, i, StatusPick(stdout, stderr, details), TestName);
      var line := Strip(lines[i]);
      var m := StatusMatch(line);
      StatusLinesAt(lines, i);
      if m.Some? {
        var name := m.value.0;
        var status := m.value.1;
        if name !in seen {
          seen := seen + {name};
          var errorMsg := Get(details, name).GetOr("");
          var r := TestResult(name, status, 0.0, stdout, stderr, Some(if status == Failed then errorMsg else ""), None);
          NamesOfSnoc(results, r);
          results := results + [r];
        }
      }
      i := i + 1;
    }
    assert ms[..i] == ms;
  }

  /** The second pass, run on an empty result list: short-summary FAILED lines. */
  method SummaryPass(lines: seq<string>, stdout: string, stderr: string) returns (results: seq<TestResult>)
    ensures results == Collect(SummaryLines(lines), SummaryPick(stdout, stderr), TestName)
  {
    ghost var ms := SummaryLines(lines);
    results := [];
    var seen: set<string> := {};
    var i := 0;
    while i < |lines|
      invariant 0 <= i <= |lines|
      invariant results == Collect(ms[..i], SummaryPick(stdout, stderr), TestName)
      invariant forall s :: s in seen <==> s in NamesOf(results, TestName)
    {
      CollectSnoc(ms, i, SummaryPick(stdout, stderr), TestName);
      var m := SummaryMatch(Strip(lines[i]));
      SummaryLinesAt(lines, i);
      if m.Some? {
        var name := m.value;
        if name !in seen {
          seen := seen + {name};
          var r := TestResult(name, Failed, 0.0, stdout, stderr, None, None);
          NamesOfSnoc(results, r);
          results := results + [r];
        }
      }
      i := i + 1;
    }
    assert ms[..i] == ms;
  }

  // ---------------------------------------------------------------- run outcomes

  /** How the pytest process ended: finished with its output, timed out, or could not run. */
  datatype Outcome =
    | Finished(stdout: string, stderr: string)
    | TimedOut
    | LaunchFailed(message: string)

  /** The text after the last "/" of `s` (all of `s` when it holds none). */
  function AfterLastSlash(s: string): (r: string)
    ensures '/' !in r && |r| <= |s| && r == s[|s| - |r|..]
    ensures '/' !in s ==> r == s
  {
    if s == [] then []
    else if s[|s| - 1] == '/' then []
    else
      var prev := AfterLastSlash(s[..|s| - 1]);
      assert s[..|s| - 1][|s| - 1 - |prev|..] + [s[|s| - 1]] == s[|s| - 1 - |prev|..];
      prev + [s[|s| - 1]]
  }

  /**
   * `(Path(dir) / f"test_{name}.py").stem`: the last path component without its ".py" suffix.
   * That component is the text after the last "/" of `test_<name>` followed by ".py"; when the
   * text is empty the component is ".py" itself, which has no suffix and is its own stem.
   */
  function SuiteStem(suiteName: string): (r: string)
    ensures r != [] && '/' !in r
  {
    var base := AfterLastSlash("test_" + suiteName);
    if base == [] then ".py" else base
  }

  /** A suite name without "/" gives the stem `test_<name>`. */
  lemma SuiteStemPlain(suiteName: string)
    requires '/' !in suiteName
    ensures SuiteStem(suiteName) == "test_" + suiteName
  {
    var file := "test_" + suiteName;
    forall i | 0 <= i < |file|
      ensures file[i] != '/'
    {
      if 5 <= i {
        assert file[i] == suiteName[i - 5];
      }
    }
  }

  /** The single synthetic result of a run that produced no output to parse. */
  function SyntheticResult(status: Status, message: string): TestResult
  {
    TestResult("<suite>", status, 0.0, "", "", Some(message), None)
  }

  /** `_run_pytest` after the process is gone: parse, or report the timeout or the launch error. */
  function RunResult(suiteName: string, timeout: int, outcome: Outcome): ExecutionResult
  {
    var results :=
      match outcome
      case Finished(stdout, stderr) => ParseOutput(stdout, stderr)
      case TimedOut => [SyntheticResult(Timeout, "Test execution timed out after " + IntToString(timeout) + "s")]
      case LaunchFailed(message) => [SyntheticResult(Error, message)];
    ExecutionResult(SuiteStem(suiteName), results, 0.0, [])
  }

  /** Parsing never produces a timeout status: only the runner's own timeout does. */
  lemma ParseNeverTimeout(stdout: string, stderr: string, a: nat)
    requires a < |ParseOutput(stdout, stderr)|
    ensures ParseOutput(stdout, stderr)[a].status != Timeout
  {
    if HasStatusLine(stdout) {
      StatusPassSpec(stdout, stderr, a);
    } else if HasSummaryLine(stdout) {
      SummaryPassSpec(stdout, stderr, a);
    } else {
      FallbackSpec(stdout, stderr);
    }
  }

  /**
   * Every run yields at least one result under the suite's stem; a timeout yields exactly one
   * `<suite>` result with status timeout and the timeout in its message, a launch failure exactly
   * one with status error and the exception text, and a timeout status never comes out of parsing.
   */
  lemma RunResultSpec(suiteName: string, timeout: int, outcome: Outcome)
    ensures var er := RunResult(suiteName, timeout, outcome);
      er.suiteName == SuiteStem(suiteName) && |er.testResults| >= 1
      && (outcome.TimedOut? ==>
            |er.testResults| == 1 && er.testResults[0].testName == "<suite>" && er.testResults[0].status == Timeout
            && er.testResults[0].errorMessage == Some("Test execution timed out after " + IntToString(timeout) + "s"))
      && (outcome.LaunchFailed? ==>
            er.testResults == [TestResult("<suite>", Error, 0.0, "", "", Some(outcome.message), None)])
      && (outcome.Finished? ==> forall a :: 0 <= a < |er.testResults| ==> er.testResults[a].status != Timeout)
  {
    if outcome.Finished? {
      var rs := ParseOutput(outcome.stdout, outcome.stderr);
      ParseOutputNonEmpty(outcome.stdout, outcome.stderr);
      forall a | 0 <= a < |rs|
        ensures rs[a].status != Timeout
      {
        ParseNeverTimeout(outcome.stdout, outcome.stderr, a);
      }
    }
  }

  /** `_run_pytest` with the process abstracted: nothing escapes, every outcome becomes a result. */
  method RunPytest(suiteName: string, timeout: int, outcome: Outcome) returns (er: ExecutionResult)
    ensures er == RunResult(suiteName, timeout, outcome)
  {
    var stem := SuiteStem(suiteName);
    match outcome {
      case Finished(stdout, stderr) =>
        var results := ParsePytestOutput(stdout, stderr);
        er := ExecutionResult(stem, results, 0.0, []);
      case TimedOut =>
        er := ExecutionResult(stem, [SyntheticResult(Timeout, "Test execution timed out after " + IntToString(timeout) + "s")], 0.0, []);
      case LaunchFailed(message) =>
        er := ExecutionResult(stem, [SyntheticResult(Error, message)], 0.0, []);
    }
  }
}
