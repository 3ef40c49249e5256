/**
 * The records that describe golden examples and the style guide aggregated from them
 * (`models/style_guide.py`). They carry no behaviour of their own.
 */
module StyleGuide {

  import opened Wrappers

  /** An import: `import m [as a]`, or `from m import x, y` with the names listed. */
  datatype ImportPattern = ImportPattern(moduleName: string, names: seq<string>, alias: Option<string>, isFromImport: bool)

  /** A pytest fixture. */
  datatype FixturePattern = FixturePattern(
    name: string,
    scope: string,
    params: seq<string>,
    usesYield: bool,
    docstring: Option<string>,
    bodySummary: string)

  /** The four assertion styles the analyzer can report. */
  datatype AssertionStyle = AssertStatement | AssertEqual | PytestRaises | CustomAssertion

  /** The literal each style is written as. */
  function StyleName(s: AssertionStyle): string
  {
    match s
    case AssertStatement => "assert"
    case AssertEqual => "assertEqual"
    case PytestRaises => "pytest.raises"
    case CustomAssertion => "custom"
  }

  /** One observed assertion: its style, its text, and how often it was seen. */
  datatype AssertionPattern = AssertionPattern(style: AssertionStyle, pattern: string, frequency: int)

  /** What the analyzer reports about one test function. */
  datatype TestFunctionPattern = TestFunctionPattern(
    name: string,
    docstring: Option<string>,
    decorators: seq<string>,
    fixturesUsed: seq<string>,
    httpMethod: Option<string>,
    endpoint: Option<string>,
    assertions: seq<AssertionPattern>,
    setupSteps: seq<string>,
    bodySummary: string,
    lineCount: int)

  /** One parsed golden test file. */
  datatype GoldenExample = GoldenExample(
    filePath: string,
    sourceCode: string,
    imports: seq<ImportPattern>,
    fixtures: seq<FixturePattern>,
    testFunctions: seq<TestFunctionPattern>,
    helperFunctions: seq<string>,
    classNames: seq<string>)

  datatype Framework = Pytest | Unittest | OtherFramework

  datatype HttpClient = Requests | Httpx | Aiohttp | TestClient | OtherClient

  /** The conventions aggregated over all golden examples. */
  datatype TestStyleGuide = TestStyleGuide(
    framework: Framework,
    httpClient: HttpClient,
    namingConvention: string,
    testPrefix: string,
    classBased: bool,
    commonImports: seq<ImportPattern>,
    commonFixtures: seq<FixturePattern>,
    commonAssertions: seq<AssertionPattern>,
    commonDecorators: seq<string>,
    avgAssertionsPerTest: real,
    avgTestLines: real,
    usesDocstrings: bool,
    usesParametrize: bool,
    goldenExamples: seq<GoldenExample>)

  /** `TestStyleGuide()` with every field at its declared default. */
  function DefaultStyleGuide(): TestStyleGuide
  {
    TestStyleGuide(Pytest, Requests, "snake_case", "test_", false, [], [], [], [], 0.0, 0.0, false, false, [])
  }
}
