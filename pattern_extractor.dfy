/**
 * The analyzer agent: it collects the golden examples (parsed files first, then uploaded sources)
 * and folds them into a style guide — framework, HTTP client, the imports used often enough, the
 * fixtures by first name, the five most common assertion styles and decorators, and averages.
 */
module PatternExtractor {

  import opened Wrappers
  import opened Text
  import opened StyleGuide
  import opened Counting
  import opened FirstWins
  import AstAnalyzer

  // ---------------------------------------------------------------- what the examples hold

  /** `all_imports`: every example's imports, example by example. */
  function AllImports(exs: seq<GoldenExample>): seq<ImportPattern>
    decreases |exs|
  {
    if exs == [] then [] else AllImports(exs[..|exs| - 1]) + exs[|exs| - 1].imports
  }

  /** `all_fixtures`: every example's fixtures, example by example. */
  function AllFixtures(exs: seq<GoldenExample>): seq<FixturePattern>
    decreases |exs|
  {
    if exs == [] then [] else AllFixtures(exs[..|exs| - 1]) + exs[|exs| - 1].fixtures
  }

  /** Every example's test functions, example by example. */
  function AllTests(exs: seq<GoldenExample>): seq<TestFunctionPattern>
    decreases |exs|
  {
    if exs == [] then [] else AllTests(exs[..|exs| - 1]) + exs[|exs| - 1].testFunctions
  }

  /** `if example.class_names: has_classes = True` over all examples. */
  predicate HasClasses(exs: seq<GoldenExample>)
  {
    exists i :: 0 <= i < |exs| && exs[i].classNames != []
  }

  /** `all_assertions`: every test's assertions, test by test. */
  function TestAssertions(tests: seq<TestFunctionPattern>): seq<AssertionPattern>
    decreases |tests|
  {
    if tests == [] then [] else TestAssertions(tests[..|tests| - 1]) + tests[|tests| - 1].assertions
  }

  /** `all_decorators`: every test's decorators, test by test. */
  function TestDecorators(tests: seq<TestFunctionPattern>): seq<string>
    decreases |tests|
  {
    if tests == [] then [] else TestDecorators(tests[..|tests| - 1]) + tests[|tests| - 1].decorators
  }

  /** `total_assertions`: the sum of `len(func.assertions)`. */
  function AssertionTotal(tests: seq<TestFunctionPattern>): nat
    decreases |tests|
  {
    if tests == [] then 0 else AssertionTotal(tests[..|tests| - 1]) + |tests[|tests| - 1].assertions|
  }

  /** `total_lines`: the sum of `func.line_count`. */
  function LineTotal(tests: seq<TestFunctionPattern>): int
    decreases |tests|
  {
    if tests == [] then 0 else LineTotal(tests[..|tests| - 1]) + tests[|tests| - 1].lineCount
  }

  /** `if func.docstring:` — a docstring that is present and non-empty. */
  predicate HasDocstring(t: TestFunctionPattern)
  {
    t.docstring.Some? && t.docstring.value != ""
  }

  /** `any("parametrize" in d for d in func.decorators)` */
  predicate IsParametrized(t: TestFunctionPattern)
  {
    exists k :: 0 <= k < |t.decorators| && Contains(t.decorators[k], "parametrize")
  }

  /** `has_docstrings`: how many tests have a docstring. */
  function DocstringCount(tests: seq<TestFunctionPattern>): (r: nat)
    ensures r <= |tests|
    decreases |tests|
  {
    if tests == [] then 0
    else DocstringCount(tests[..|tests| - 1]) + (if HasDocstring(tests[|tests| - 1]) then 1 else 0)
  }

  /** `has_parametrize`: how many tests are parametrized. */
  function ParametrizeCount(tests: seq<TestFunctionPattern>): (r: nat)
    ensures r <= |tests|
    decreases |tests|
  {
    if tests == [] then 0
    else ParametrizeCount(tests[..|tests| - 1]) + (if IsParametrized(tests[|tests| - 1]) then 1 else 0)
  }

  // ---------------------------------------------------------------- framework and client

  /** `framework`: "unittest" when some import's module is exactly `unittest`, else "pytest". */
  function FrameworkOf(imps: seq<ImportPattern>): Framework
  {
    if exists k :: 0 <= k < |imps| && imps[k].moduleName == "unittest" then Unittest else Pytest
  }

  predicate IsHttpx(imp: ImportPattern)
  {
    imp.moduleName == "httpx" || (imp.isFromImport && Contains(imp.moduleName, "httpx"))
  }

  predicate IsAiohttp(imp: ImportPattern)
  {
    imp.moduleName == "aiohttp" || (imp.isFromImport && Contains(imp.moduleName, "aiohttp"))
  }

  /** The client named by the imports: the first httpx or aiohttp import decides, else requests. */
  function ClientOf(imps: seq<ImportPattern>): HttpClient
    decreases |imps|
  {
    if imps == [] then Requests
    else if IsHttpx(imps[0]) then Httpx
    else if IsAiohttp(imps[0]) then Aiohttp
    else ClientOf(imps[1..])
  }

  /** The sources of the examples, in order. */
  function SourcesOf(exs: seq<GoldenExample>): (r: seq<string>)
    ensures |r| == |exs| && forall i :: 0 <= i < |exs| ==> r[i] == exs[i].sourceCode
  {
    seq(|exs|, i requires 0 <= i < |exs| => exs[i].sourceCode)
  }

  /** `"test_client" in all_source or "TestClient" in all_source` */
  predicate UsesTestClient(exs: seq<GoldenExample>)
  {
    var allSource := Join(SourcesOf(exs), " ");
    Contains(allSource, "test_client") || Contains(allSource, "TestClient")
  }

  /** `http_client`: the imports' client, overridden by a test client seen in any source. */
  function HttpClientOf(exs: seq<GoldenExample>): HttpClient
  {
    if UsesTestClient(exs) then TestClient else ClientOf(AllImports(exs))
  }

  // ---------------------------------------------------------------- common imports and fixtures

  /** The counter key of an import: `module:a,b` for a `from` import, else the module. */
  function ImportKey(imp: ImportPattern): string
  {
    if imp.isFromImport then imp.moduleName + ":" + Join(imp.names, ",") else imp.moduleName
  }

  /** `max(1, len(examples) // 2)` */
  function Threshold(n: nat): (r: nat)
    ensures r >= 1
  {
    if n / 2 > 1 then n / 2 else 1
  }

  /** Keeps an item whose key occurs at least `t` times among `keys`. */
  function Frequent<T>(keys: seq<string>, key: T -> string, t: nat): T -> Option<T>
  {
    x => if Count(keys, key(x)) >= t then Some(x) else None
  }

  /** The frequent items, one per key, in order of first occurrence. */
  function FrequentFirst<T>(xs: seq<T>, key: T -> string, t: nat): seq<T>
  {
    Collect(xs, Frequent(NamesOf(xs, key), key, t), key)
  }

  /** Scanning one more item: it is kept when its key is frequent and not yet kept. */
  lemma FrequentStep<T>(xs: seq<T>, keys: seq<string>, key: T -> string, t: nat, i: nat)
    requires i < |xs|
    ensures var prev := Collect(xs[..i], Frequent(keys, key, t), key);
      Collect(xs[..i + 1], Frequent(keys, key, t), key)
      == if Count(keys, key(xs[i])) >= t && key(xs[i]) !in NamesOf(prev, key) then prev + [xs[i]] else prev
  {
    CollectSnoc(xs, i, Frequent(keys, key, t), key);
  }

  /** `common_imports`: the frequent imports, one per key, in order of first occurrence. */
  function CommonImports(imps: seq<ImportPattern>, t: nat): seq<ImportPattern>
  {
    FrequentFirst(imps, ImportKey, t)
  }

  function SomeFixture(f: FixturePattern): Option<FixturePattern> { Some(f) }

  function FixtureName(f: FixturePattern): string { f.name }

  /** `common_fixtures`: one fixture per name, the first seen, in order. */
  function CommonFixtures(fixtures: seq<FixturePattern>): seq<FixturePattern>
  {
    Collect(fixtures, SomeFixture, FixtureName)
  }

  // ---------------------------------------------------------------- common assertions and decorators

  /** The style of each assertion, in order. */
  function StylesOf(assertions: seq<AssertionPattern>): (r: seq<AssertionStyle>)
    ensures |r| == |assertions| && forall i :: 0 <= i < |r| ==> r[i] == assertions[i].style
  {
    seq(|assertions|, i requires 0 <= i < |assertions| => assertions[i].style)
  }

  /** `[AssertionPattern(style=s, pattern=s, frequency=c) for s, c in counter.most_common(5)]` */
  function CommonAssertions(styles: seq<AssertionStyle>): seq<AssertionPattern>
  {
    var mc := MostCommon(styles, 5);
    seq(|mc|, j requires 0 <= j < |mc| => AssertionPattern(mc[j].0, StyleName(mc[j].0), mc[j].1))
  }

  /** `[d for d, _ in dec_counter.most_common(5)]` */
  function CommonDecorators(decorators: seq<string>): seq<string>
  {
    MostCommonKeys(decorators, 5)
  }

  // ---------------------------------------------------------------- the style guide

  /** `total / max(test_count, 1)` */
  function Average(total: int, count: nat): real
  {
    total as real / (if count > 1 then count else 1) as real
  }

  /** `_build_style_guide` */
  function StyleGuideOf(exs: seq<GoldenExample>): TestStyleGuide
  {
    var imps := AllImports(exs);
    var tests := AllTests(exs);
    TestStyleGuide(
      FrameworkOf(imps), HttpClientOf(exs), "snake_case", "test_", HasClasses(exs),
      CommonImports(imps, Threshold(|exs|)), CommonFixtures(AllFixtures(exs)),
      CommonAssertions(StylesOf(TestAssertions(tests))), CommonDecorators(TestDecorators(tests)),
      Average(AssertionTotal(tests), |tests|), Average(LineTotal(tests), |tests|),
      DocstringCount(tests) as real > |tests| as real / 2.0, ParametrizeCount(tests) > 0,
      exs)
  }

  // ---------------------------------------------------------------- the loops of `_build_style_guide`

  /** Everything the first loop of `_build_style_guide` accumulates. */
  datatype Totals = Totals(
    imports: seq<ImportPattern>,
    fixtures: seq<FixturePattern>,
    assertions: seq<AssertionPattern>,
    decorators: seq<string>,
    totalAssertions: nat,
    totalLines: int,
    testCount: nat,
    docstrings: nat,
    parametrized: nat,
    hasClasses: bool)

  /** What the test loop has accumulated once it has seen `tests`. */
  predicate TestsSeen(acc: Totals, tests: seq<TestFunctionPattern>)
  {
    acc.assertions == TestAssertions(tests) && acc.decorators == TestDecorators(tests)
    && acc.totalAssertions == AssertionTotal(tests) && acc.totalLines == LineTotal(tests)
    && acc.testCount == |tests| && acc.docstrings == DocstringCount(tests)
    && acc.parametrized == ParametrizeCount(tests)
  }

  /** What the example loop has accumulated once it has seen `exs`. */
  predicate ExamplesSeen(acc: Totals, exs: seq<GoldenExample>)
  {
    acc.imports == AllImports(exs) && acc.fixtures == AllFixtures(exs)
    && TestsSeen(acc, AllTests(exs)) && acc.hasClasses == HasClasses(exs)
  }

  /** One more test seen. */
  lemma TestsSnoc(tests: seq<TestFunctionPattern>, t: TestFunctionPattern)
    ensures TestAssertions(tests + [t]) == TestAssertions(tests) + t.assertions
    ensures TestDecorators(tests + [t]) == TestDecorators(tests) + t.decorators
    ensures AssertionTotal(tests + [t]) == AssertionTotal(tests) + |t.assertions|
    ensures LineTotal(tests + [t]) == LineTotal(tests) + t.lineCount
    ensures DocstringCount(tests + [t]) == DocstringCount(tests) + (if HasDocstring(t) then 1 else 0)
    ensures ParametrizeCount(tests + [t]) == ParametrizeCount(tests) + (if IsParametrized(t) then 1 else 0)
  {
    assert (tests + [t])[..|tests|] == tests;
  }

  /** One more example seen. */
  lemma ExamplesSnoc(exs: seq<GoldenExample>, i: nat)
    requires i < |exs|
    ensures AllImports(exs[..i + 1]) == AllImports(exs[..i]) + exs[i].imports
    ensures AllFixtures(exs[..i + 1]) == AllFixtures(exs[..i]) + exs[i].fixtures
    ensures AllTests(exs[..i + 1]) == AllTests(exs[..i]) + exs[i].testFunctions
    ensures HasClasses(exs[..i + 1]) <==> HasClasses(exs[..i]) || exs[i].classNames != []
  {
    assert exs[..i + 1][..i] == exs[..i];
    if HasClasses(exs[..i]) {
      var k :| 0 <= k < i && exs[..i][k].classNames != [];
      assert exs[..i + 1][k] == exs[..i][k];
    }
    if HasClasses(exs[..i + 1]) && exs[i].classNames == [] {
      var k :| 0 <= k < i + 1 && exs[..i + 1][k].classNames != [];
      assert exs[..i][k] == exs[..i + 1][k];
    }
  }

  /** The inner loop `for func in example.test_functions`. */
  method AccumulateTests(acc: Totals, ghost seen: seq<TestFunctionPattern>, tests: seq<TestFunctionPattern>)
    returns (r: Totals)
    requires TestsSeen(acc, seen)
    ensures TestsSeen(r, seen + tests)
    ensures r.imports == acc.imports && r.fixtures == acc.fixtures && r.hasClasses == acc.hasClasses
  {
    r := acc;
    assert seen + tests[..0] == seen;
    for j := 0 to |tests|
      invariant TestsSeen(r, seen + tests[..j])
      invariant r.imports == acc.imports && r.fixtures == acc.fixtures && r.hasClasses == acc.hasClasses
    {
      var func := tests[j];
      TestsSnoc(seen + tests[..j], func);
      assert seen + tests[..j + 1] == (seen + tests[..j]) + [func];
      var docstring := if HasDocstring(func) then 1 else 0;
      var parametrize := if IsParametrized(func) then 1 else 0;
      r := r.(
        testCount := r.testCount + 1,
        totalAssertions := r.totalAssertions + |func.assertions|,
        totalLines := r.totalLines + func.lineCount,
        assertions := r.assertions + func.assertions,
        decorators := r.decorators + func.decorators,
        docstrings := r.docstrings + docstring,
        parametrized := r.parametrized + parametrize);
    }
    assert tests[..|tests|] == tests;
  }

  /** The loop `for example in examples` of `_build_style_guide`. */
  method Accumulate(examples: seq<GoldenExample>) returns (acc: Totals)
    ensures ExamplesSeen(acc, examples)
  {
    acc := Totals([], [], [], [], 0, 0, 0, 0, 0, false);
    for i := 0 to |examples|
      invariant ExamplesSeen(acc, examples[..i])
    {
      var example := examples[i];
      ExamplesSnoc(examples, i);
      acc := acc.(imports := acc.imports + example.imports, fixtures := acc.fixtures + example.fixtures);
      if example.classNames != [] {
        acc := acc.(hasClasses := true);
      }
      acc := AccumulateTests(acc, AllTests(examples[..i]), example.testFunctions);
    }
    assert examples[..|examples|] == examples;
  }

  /** The framework loop, which stops at the first `unittest` import. */
  method DetectFramework(imps: seq<ImportPattern>) returns (framework: Framework)
    ensures framework == FrameworkOf(imps)
  {
    framework := Pytest;
    var i := 0;
    while i < |imps|
      invariant 0 <= i <= |imps|
      invariant forall k :: 0 <= k < i ==> imps[k].moduleName != "unittest"
    {
      if imps[i].moduleName == "unittest" {
        framework := Unittest;
        break;
      }
      i := i + 1;
    }
  }

  /** The HTTP client loop, which stops at the first httpx or aiohttp import. */
  method DetectClient(imps: seq<ImportPattern>) returns (client: HttpClient)
    ensures client == ClientOf(imps)
  {
    client := Requests;
    var i := 0;
    while i < |imps|
      invariant 0 <= i <= |imps|
      invariant ClientOf(imps) == ClientOf(imps[i..])
    {
      assert imps[i..][1..] == imps[i + 1..];
      if IsHttpx(imps[i]) {
        client := Httpx;
        break;
      } else if IsAiohttp(imps[i]) {
        client := Aiohttp;
        break;
      }
      i := i + 1;
    }
  }

  /**
   * The two import loops, for any key: count every key, then keep the first item of each key
   * counted at least `threshold` times.
   */
  method SelectFrequent<T>(xs: seq<T>, key: T -> string, threshold: nat) returns (common: seq<T>)
    ensures common == FrequentFirst(xs, key, threshold)
  {
    var keys := NamesOf(xs, key);
    var counter := Tally(keys);
    common := [];
    var seen: set<string> := {};
    ghost var names: seq<string> := [];
    for i := 0 to |xs|
      invariant common == Collect(xs[..i], Frequent(keys, key, threshold), key)
      invariant names == NamesOf(common, key)
      invariant forall s :: s in seen <==> s in names
    {
      FrequentStep(xs, keys, key, threshold, i);
      var x := xs[i];
      var k := key(x);
      assert keys[i] == k;
      if counter[k] >= threshold && k !in seen {
        common := common + [x];
        seen := seen + {k};
        names := names + [k];
      }
    }
    assert xs[..|xs|] == xs;
  }

  /** The fixture loop: keep the first fixture of each name. */
  method SelectCommonFixtures(fixtures: seq<FixturePattern>) returns (common: seq<FixturePattern>)
    ensures common == CommonFixtures(fixtures)
  {
    common := [];
    var seen: set<string> := {};
    for i := 0 to |fixtures|
      invariant common == Collect(fixtures[..i], SomeFixture, FixtureName)
      invariant forall s :: s in seen <==> s in NamesOf(common, FixtureName)
    {
      CollectSnoc(fixtures, i, SomeFixture, FixtureName);
      var fix := fixtures[i];
      assert NamesOf(common + [fix], FixtureName) == NamesOf(common, FixtureName) + [fix.name];
      if fix.name !in seen {
        common := common + [fix];
        seen := seen + {fix.name};
      }
    }
    assert fixtures[..|fixtures|] == fixtures;
  }

  /** `_build_style_guide` */
  method BuildStyleGuide(examples: seq<GoldenExample>) returns (guide: TestStyleGuide)
    ensures guide == StyleGuideOf(examples)
  {
    var acc := Accumulate(examples);
    var framework := DetectFramework(acc.imports);
    var httpClient := DetectClient(acc.imports);
    var allSource := Join(SourcesOf(examples), " ");
    if Contains(allSource, "test_client") || Contains(allSource, "TestClient") {
      httpClient := TestClient;
    }
    var threshold := if |examples| / 2 > 1 then |examples| / 2 else 1;
    var commonImports := SelectFrequent(acc.imports, ImportKey, threshold);
    var commonFixtures := SelectCommonFixtures(acc.fixtures);
    var commonAssertions := CommonAssertions(StylesOf(acc.assertions));
    var commonDecs := CommonDecorators(acc.decorators);
    var denominator := if acc.testCount > 1 then acc.testCount else 1;
    guide := TestStyleGuide(
      framework, httpClient, "snake_case", "test_", acc.hasClasses,
      commonImports, commonFixtures, commonAssertions, commonDecs,
      acc.totalAssertions as real / denominator as real, acc.totalLines as real / denominator as real,
      acc.docstrings as real > acc.testCount as real / 2.0, acc.parametrized > 0,
      examples);
  }

  // ---------------------------------------------------------------- `AnalyzerAgent.run`

  datatype AnalyzerOutput = AnalyzerOutput(styleGuide: TestStyleGuide, goldenExamples: seq<GoldenExample>)

  const NoExamples: string := "No golden examples provided or found"

  /** The file path given to the `i`-th uploaded source. */
  function UploadedName(i: nat): string
  {
    "<uploaded_" + NatToString(i) + ".py>"
  }

  /** The examples parsed from the uploaded sources, with `parse` standing for the syntax-tree parser. */
  function UploadedExamples(sources: seq<string>, parse: string -> AstAnalyzer.Node): (r: seq<GoldenExample>)
    ensures |r| == |sources|
  {
    seq(|sources|, i requires 0 <= i < |sources| => AstAnalyzer.GoldenExampleOf(sources[i], UploadedName(i), parse(sources[i])))
  }

  /** `AnalyzerAgent.run`, given the examples already parsed from the file paths. */
  function AnalyzeOf(fileExamples: seq<GoldenExample>, sources: seq<string>, parse: string -> AstAnalyzer.Node): Result<AnalyzerOutput>
  {
    var examples := fileExamples + UploadedExamples(sources, parse);
    if examples == [] then Failure(NoExamples)
    else Success(AnalyzerOutput(StyleGuideOf(examples), examples))
  }

  /** Extending by the next element of `s`. */
  lemma AppendSlice<T>(pre: seq<T>, s: seq<T>, i: nat)
    requires i < |s|
    ensures (pre + s[..i]) + [s[i]] == pre + s[..i + 1]
  {
    assert s[..i + 1] == s[..i] + [s[i]];
  }

  /** The example collection of `AnalyzerAgent.run`: the file examples, then each uploaded source parsed. */
  method CollectExamples(fileExamples: seq<GoldenExample>, sources: seq<string>, parse: string -> AstAnalyzer.Node)
    returns (examples: seq<GoldenExample>)
    ensures examples == fileExamples + UploadedExamples(sources, parse)
  {
    ghost var uploaded := UploadedExamples(sources, parse);
    examples := fileExamples;
    for i := 0 to |sources|
      invariant examples == fileExamples + uploaded[..i]
    {
      var example := AstAnalyzer.ParsePythonFile(sources[i], UploadedName(i), parse(sources[i]));
      assert uploaded[i] == example;
      AppendSlice(fileExamples, uploaded, i);
      examples := examples + [example];
    }
    assert uploaded[..|sources|] == uploaded;
  }

  /** `AnalyzerAgent.run`: collect the examples, refuse an empty collection, then build the guide. */
  method Analyze(fileExamples: seq<GoldenExample>, sources: seq<string>, parse: string -> AstAnalyzer.Node)
    returns (r: Result<AnalyzerOutput>)
    ensures r == AnalyzeOf(fileExamples, sources, parse)
  {
    var examples := CollectExamples(fileExamples, sources, parse);
    if examples == [] {
      return Failure(NoExamples);
    }
    var styleGuide := BuildStyleGuide(examples);
    r := Success(AnalyzerOutput(styleGuide, examples));
  }

  // ---------------------------------------------------------------- what the examples hold, element-wise

  /** An import is collected exactly when some example has it. */
  lemma {:induction false} AllImportsMember(exs: seq<GoldenExample>, imp: ImportPattern)
    ensures imp in AllImports(exs) <==> exists i :: 0 <= i < |exs| && imp in exs[i].imports
    decreases |exs|
  {
    if exs != [] {
      var n := |exs| - 1;
      AllImportsMember(exs[..n], imp);
      assert forall i :: 0 <= i < n ==> exs[..n][i] == exs[i];
    }
  }

  /** A test function is collected exactly when some example has it. */
  lemma {:induction false} AllTestsMember(exs: seq<GoldenExample>, t: TestFunctionPattern)
    ensures t in AllTests(exs) <==> exists i :: 0 <= i < |exs| && t in exs[i].testFunctions
    decreases |exs|
  {
    if exs != [] {
      var n := |exs| - 1;
      AllTestsMember(exs[..n], t);
      assert forall i :: 0 <= i < n ==> exs[..n][i] == exs[i];
    }
  }

  /** `total_assertions` is the number of collected assertions. */
  lemma {:induction false} AssertionTotalIsCount(tests: seq<TestFunctionPattern>)
    ensures AssertionTotal(tests) == |TestAssertions(tests)|
    decreases |tests|
  {
    if tests != [] {
      AssertionTotalIsCount(tests[..|tests| - 1]);
    }
  }

  /** Some test has a parametrize decorator exactly when the count of such tests is positive. */
  lemma {:induction false} ParametrizeCountPositive(tests: seq<TestFunctionPattern>)
    ensures ParametrizeCount(tests) > 0 <==> exists k :: 0 <= k < |tests| && IsParametrized(tests[k])
    decreases |tests|
  {
    if tests != [] {
      var n := |tests| - 1;
      ParametrizeCountPositive(tests[..n]);
      assert forall k :: 0 <= k < n ==> tests[..n][k] == tests[k];
    }
  }

  // ---------------------------------------------------------------- framework and client

  /** The framework is unittest exactly when some example imports the module `unittest`. */
  lemma FrameworkRule(exs: seq<GoldenExample>)
    ensures StyleGuideOf(exs).framework == Unittest
      <==> exists i, k :: 0 <= i < |exs| && 0 <= k < |exs[i].imports| && exs[i].imports[k].moduleName == "unittest"
    ensures StyleGuideOf(exs).framework != Unittest ==> StyleGuideOf(exs).framework == Pytest
  {
    var imps := AllImports(exs);
    if exists k :: 0 <= k < |imps| && imps[k].moduleName == "unittest" {
      var k :| 0 <= k < |imps| && imps[k].moduleName == "unittest";
      AllImportsMember(exs, imps[k]);
    }
    if exists i, k :: 0 <= i < |exs| && 0 <= k < |exs[i].imports| && exs[i].imports[k].moduleName == "unittest" {
      var i, k :| 0 <= i < |exs| && 0 <= k < |exs[i].imports| && exs[i].imports[k].moduleName == "unittest";
      AllImportsMember(exs, exs[i].imports[k]);
    }
  }

  /** Without httpx or aiohttp imports the client is requests, and only then. */
  lemma {:induction false} ClientDefault(imps: seq<ImportPattern>)
    ensures ClientOf(imps) == Requests <==> forall k :: 0 <= k < |imps| ==> !IsHttpx(imps[k]) && !IsAiohttp(imps[k])
    decreases |imps|
  {
    if imps != [] {
      ClientDefault(imps[1..]);
      assert forall k :: 1 <= k < |imps| ==> imps[k] == imps[1..][k - 1];
    }
  }

  /** The first httpx or aiohttp import decides the client. */
  lemma {:induction false} ClientDecidedAt(imps: seq<ImportPattern>, i: nat)
    requires i < |imps| && (IsHttpx(imps[i]) || IsAiohttp(imps[i]))
    requires forall k :: 0 <= k < i ==> !IsHttpx(imps[k]) && !IsAiohttp(imps[k])
    ensures ClientOf(imps) == if IsHttpx(imps[i]) then Httpx else Aiohttp
    decreases i
  {
    if i > 0 {
      assert !IsHttpx(imps[0]) && !IsAiohttp(imps[0]);
      assert forall k :: 0 <= k < i - 1 ==> imps[1..][k] == imps[k + 1];
      ClientDecidedAt(imps[1..], i - 1);
    }
  }

  /** A source that mentions a test client overrides whatever the imports say. */
  lemma TestClientOverride(exs: seq<GoldenExample>, i: nat)
    requires i < |exs|
    requires Contains(exs[i].sourceCode, "test_client") || Contains(exs[i].sourceCode, "TestClient")
    ensures StyleGuideOf(exs).httpClient == TestClient
  {
    var sources := SourcesOf(exs);
    if Contains(exs[i].sourceCode, "test_client") {
      JoinContains(sources, " ", i, "test_client");
    } else {
      JoinContains(sources, " ", i, "TestClient");
    }
  }

  // ---------------------------------------------------------------- common imports and fixtures

  /** No two common imports share a key. */
  lemma CommonImportsDistinct(imps: seq<ImportPattern>, t: nat)
    ensures DistinctNames(CommonImports(imps, t), ImportKey)
  {
    CollectDistinct(imps, Frequent(NamesOf(imps, ImportKey), ImportKey, t), ImportKey);
  }

  /** A key is among the common imports exactly when it occurs at least `t` times. */
  lemma CommonImportsKeys(imps: seq<ImportPattern>, t: nat, s: string)
    requires t >= 1
    ensures s in NamesOf(CommonImports(imps, t), ImportKey) <==> Count(NamesOf(imps, ImportKey), s) >= t
  {
    var keys := NamesOf(imps, ImportKey);
    CollectNames(imps, Frequent(keys, ImportKey, t), ImportKey, s);
    if Count(keys, s) >= t {
      var i :| 0 <= i < |keys| && keys[i] == s;
      assert Frequent(keys, ImportKey, t)(imps[i]) == Some(imps[i]);
    }
  }

  /** Each common import is the first import with its key. */
  lemma CommonImportsFirst(imps: seq<ImportPattern>, t: nat, a: nat)
    requires a < |CommonImports(imps, t)|
    ensures exists i ::
      0 <= i < |imps| && imps[i] == CommonImports(imps, t)[a]
      && (forall j :: 0 <= j < i ==> ImportKey(imps[j]) != ImportKey(imps[i]))
  {
    var keys := NamesOf(imps, ImportKey);
    var pick := Frequent(keys, ImportKey, t);
    CollectFirst(imps, pick, ImportKey, a);
    var i :| FirstWithName(imps, pick, ImportKey, i) && pick(imps[i]) == Some(Collect(imps, pick, ImportKey)[a]);
    assert forall j :: 0 <= j < i ==> ImportKey(imps[j]) != ImportKey(imps[i]);
  }

  /** With at most three examples the threshold is 1, so every import seen is common. */
  lemma FewExamplesKeepAll(exs: seq<GoldenExample>, k: nat)
    requires |exs| <= 3 && k < |AllImports(exs)|
    ensures ImportKey(AllImports(exs)[k]) in NamesOf(StyleGuideOf(exs).commonImports, ImportKey)
  {
    var imps := AllImports(exs);
    assert NamesOf(imps, ImportKey)[k] == ImportKey(imps[k]);
    CommonImportsKeys(imps, 1, ImportKey(imps[k]));
  }

  /** One fixture per name, each name seen, each the first fixture of its name. */
  lemma CommonFixturesSpec(fixtures: seq<FixturePattern>, s: string)
    ensures DistinctNames(CommonFixtures(fixtures), FixtureName)
    ensures s in NamesOf(CommonFixtures(fixtures), FixtureName) <==> exists i :: 0 <= i < |fixtures| && fixtures[i].name == s
  {
    CollectDistinct(fixtures, SomeFixture, FixtureName);
    CollectNames(fixtures, SomeFixture, FixtureName, s);
  }

  /** Each common fixture is the first fixture of its name. */
  lemma CommonFixturesFirst(fixtures: seq<FixturePattern>, a: nat)
    requires a < |CommonFixtures(fixtures)|
    ensures exists i ::
      0 <= i < |fixtures| && fixtures[i] == CommonFixtures(fixtures)[a]
      && (forall j :: 0 <= j < i ==> fixtures[j].name != fixtures[i].name)
  {
    CollectFirst(fixtures, SomeFixture, FixtureName, a);
    var i :| FirstWithName(fixtures, SomeFixture, FixtureName, i) && SomeFixture(fixtures[i]) == Some(CommonFixtures(fixtures)[a]);
    assert forall j :: 0 <= j < i ==> SomeFixture(fixtures[j]).Some?;
  }

  // ---------------------------------------------------------------- common assertions and decorators

  /**
   * At most five assertion patterns, one per style, each with its style's literal and its count,
   * by descending count with ties in order of first sighting.
   */
  lemma CommonAssertionsSpec(styles: seq<AssertionStyle>)
    ensures |CommonAssertions(styles)| <= 5
    ensures forall j :: 0 <= j < |CommonAssertions(styles)| ==>
      var p := CommonAssertions(styles)[j];
      p.style in styles && p.pattern == StyleName(p.style) && p.frequency == Count(styles, p.style)
    ensures forall j, l :: 0 <= j < l < |CommonAssertions(styles)| ==>
      var a := CommonAssertions(styles)[j];
      var b := CommonAssertions(styles)[l];
      a.style != b.style
      && (a.frequency > b.frequency
          || (a.frequency == b.frequency && a.style in styles && b.style in styles
              && FirstIndex(styles, a.style) < FirstIndex(styles, b.style)))
  {
    MostCommonCounts(styles, 5);
    MostCommonDistinct(styles, 5);
    MostCommonOrder(styles, 5);
  }

  /** At most five decorators, distinct, each seen, by descending count with ties in order of first sighting. */
  lemma CommonDecoratorsSpec(decorators: seq<string>)
    ensures |CommonDecorators(decorators)| <= 5
    ensures forall j :: 0 <= j < |CommonDecorators(decorators)| ==> CommonDecorators(decorators)[j] in decorators
    ensures forall j, l :: 0 <= j < l < |CommonDecorators(decorators)| ==>
      var a := CommonDecorators(decorators)[j];
      var b := CommonDecorators(decorators)[l];
      a != b
      && (Count(decorators, a) > Count(decorators, b)
          || (Count(decorators, a) == Count(decorators, b) && a in decorators && b in decorators
              && FirstIndex(decorators, a) < FirstIndex(decorators, b)))
  {
    MostCommonCounts(decorators, 5);
    MostCommonDistinct(decorators, 5);
    MostCommonOrder(decorators, 5);
  }

  // ---------------------------------------------------------------- averages and flags

  /** `total / max(count, 1)`: the total itself without items, otherwise the mean. */
  lemma AverageRule(total: int, count: nat)
    ensures count == 0 ==> Average(total, count) == total as real
    ensures count > 0 ==> Average(total, count) * count as real == total as real
  {
  }

  /** The averages are the mean number of assertions and of lines per test, or 0 without tests. */
  lemma StyleGuideAverages(exs: seq<GoldenExample>)
    ensures var g := StyleGuideOf(exs);
      var tests := AllTests(exs);
      g.avgAssertionsPerTest == Average(|TestAssertions(tests)|, |tests|)
      && g.avgTestLines == Average(LineTotal(tests), |tests|)
      && (tests == [] ==> g.avgAssertionsPerTest == 0.0 && g.avgTestLines == 0.0)
  {
    var tests := AllTests(exs);
    var g := StyleGuideOf(exs);
    assert g.avgAssertionsPerTest == Average(AssertionTotal(tests), |tests|);
    assert g.avgTestLines == Average(LineTotal(tests), |tests|);
    AssertionTotalIsCount(tests);
  }

  /**
   * Docstrings are the convention only when strictly more than half the tests have one;
   * parametrize when any test has it.
   */
  lemma StyleGuideFlags(exs: seq<GoldenExample>)
    ensures var g := StyleGuideOf(exs);
      var tests := AllTests(exs);
      (g.usesDocstrings <==> 2 * DocstringCount(tests) > |tests|)
      && (g.usesParametrize <==> exists t :: t in tests && IsParametrized(t))
  {
    var tests := AllTests(exs);
    var g := StyleGuideOf(exs);
    assert g.usesDocstrings == (DocstringCount(tests) as real > |tests| as real / 2.0);
    assert g.usesParametrize == (ParametrizeCount(tests) > 0);
    ParametrizeCountPositive(tests);
    if exists t :: t in tests && IsParametrized(t) {
      var t :| t in tests && IsParametrized(t);
      var k :| 0 <= k < |tests| && tests[k] == t;
    }
  }

  /** The guide uses parametrize exactly when some example has a parametrized test. */
  lemma UsesParametrizeRule(exs: seq<GoldenExample>)
    ensures StyleGuideOf(exs).usesParametrize
      <==> exists i, t :: 0 <= i < |exs| && t in exs[i].testFunctions && IsParametrized(t)
  {
    var tests := AllTests(exs);
    StyleGuideFlags(exs);
    if exists i, t :: 0 <= i < |exs| && t in exs[i].testFunctions && IsParametrized(t) {
      var i, t :| 0 <= i < |exs| && t in exs[i].testFunctions && IsParametrized(t);
      AllTestsMember(exs, t);
    }
    if exists t :: t in tests && IsParametrized(t) {
      var t :| t in tests && IsParametrized(t);
      AllTestsMember(exs, t);
    }
  }

  // ---------------------------------------------------------------- `AnalyzerAgent.run`

  /**
   * The run fails, with its one message, exactly when there are neither file examples nor sources;
   * otherwise the file examples come first, then the `i`-th source as `<uploaded_i.py>`.
   */
  lemma AnalyzeSpec(fileExamples: seq<GoldenExample>, sources: seq<string>, parse: string -> AstAnalyzer.Node)
    ensures AnalyzeOf(fileExamples, sources, parse).Failure? <==> fileExamples == [] && sources == []
    ensures AnalyzeOf(fileExamples, sources, parse).Failure? ==> AnalyzeOf(fileExamples, sources, parse).error == NoExamples
    ensures AnalyzeOf(fileExamples, sources, parse).Success? ==>
      var out := AnalyzeOf(fileExamples, sources, parse).value;
      var exs := out.goldenExamples;
      |exs| == |fileExamples| + |sources| && exs[..|fileExamples|] == fileExamples
      && out.styleGuide.goldenExamples == exs
      && forall i :: 0 <= i < |sources| ==>
           exs[|fileExamples| + i].filePath == UploadedName(i) && exs[|fileExamples| + i].sourceCode == sources[i]
  {
    var uploaded := UploadedExamples(sources, parse);
    var exs := fileExamples + uploaded;
    forall i | 0 <= i < |sources|
      ensures exs[|fileExamples| + i].filePath == UploadedName(i) && exs[|fileExamples| + i].sourceCode == sources[i]
    {
      assert exs[|fileExamples| + i] == uploaded[i];
    }
  }

  /** Distinct uploads get distinct names. */
  lemma UploadedNamesDistinct(i: nat, j: nat)
    requires i != j
    ensures UploadedName(i) != UploadedName(j)
  {
    var pre := "<uploaded_";
    if UploadedName(i) == UploadedName(j) {
      var a := NatToString(i);
      var b := NatToString(j);
      assert UploadedName(i)[|pre|..|UploadedName(i)| - 4] == a;
      assert UploadedName(j)[|pre|..|UploadedName(j)| - 4] == b;
      NatToStringRoundTrip(i);
      NatToStringRoundTrip(j);
    }
  }
}
