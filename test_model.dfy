/** Generated tests, suites and endpoint maps, and the rendering of a suite into one test file. */
module TestModel {

  import opened Wrappers
  import opened Text
  import opened PyValues

  /** One value of an inferred request/response schema: a type name, or a nested object schema. */
  datatype SchemaValue =
    | SString
    | SBoolean
    | SInteger
    | SNumber
    | SArray
    | SNullable
    | SObject(fields: Dict<SchemaValue>)

  /** A discovered endpoint; samples are `JNull` when none was seen. */
  datatype EndpointInfo = EndpointInfo(
    httpMethod: string,
    path: string,
    description: string,
    requestSchema: Option<Dict<SchemaValue>>,
    responseSchema: Option<Dict<SchemaValue>>,
    authRequired: bool,
    authType: Option<string>,
    queryParams: seq<string>,
    pathParams: seq<string>,
    observedStatusCodes: seq<int>,
    sampleRequest: Json,
    sampleResponse: Json)

  /** All endpoints of one application, with the cross-endpoint findings. */
  datatype EndpointMap = EndpointMap(
    appName: string,
    baseUrl: string,
    endpoints: seq<EndpointInfo>,
    authPatterns: seq<string>,
    commonHeaders: Dict<string>,
    dependencies: Dict<seq<string>>)
  {
    function EndpointCount(): (n: nat)
      ensures n == |endpoints|
    {
      |endpoints|
    }
  }

  datatype TestType = Api | Ui | Integration | Unit

  /** A confidence score, declared to lie in [0, 1]. */
  type Confidence = r: real | 0.0 <= r <= 1.0

  datatype GeneratedTest = GeneratedTest(
    id: string,
    name: string,
    description: string,
    sourceCode: string,
    testType: TestType,
    targetEndpoint: Option<string>,
    targetMethod: Option<string>,
    confidenceScore: Confidence)

  datatype TestSuite = TestSuite(
    name: string,
    description: string,
    tests: seq<GeneratedTest>,
    setupCode: string,
    importsCode: string,
    conftestCode: string,
    targetApp: string,
    baseUrl: string)
  {
    function TestCount(): (n: nat)
      ensures n == |tests|
    {
      |tests|
    }
  }

  /** The blank-line separator between file parts: two empty lines. */
  const PartSeparator: string := "\n\n\n"

  /** The stripped test sources, in suite order. */
  function TestParts(tests: seq<GeneratedTest>): (r: seq<string>)
    ensures |r| == |tests|
    ensures forall i :: 0 <= i < |tests| ==> r[i] == Strip(tests[i].sourceCode)
  {
    seq(|tests|, i requires 0 <= i < |tests| => Strip(tests[i].sourceCode))
  }

  /** The parts of the file: stripped imports and setup when they are non-empty, then one part per test. */
  function FileParts(suite: TestSuite): seq<string>
  {
    HeadParts(suite) + TestParts(suite.tests)
  }

  /** The stripped imports and setup, each only when it is non-empty. */
  function HeadParts(suite: TestSuite): (r: seq<string>)
    ensures |r| == HeadCount(suite)
    ensures suite.importsCode != [] ==> r[0] == Strip(suite.importsCode)
  {
    (if suite.importsCode != [] then [Strip(suite.importsCode)] else [])
    + (if suite.setupCode != [] then [Strip(suite.setupCode)] else [])
  }

  /** How many of the imports and the setup are non-empty. */
  function HeadCount(suite: TestSuite): nat
  {
    (if suite.importsCode != [] then 1 else 0) + (if suite.setupCode != [] then 1 else 0)
  }

  /** `TestSuite.to_file_content` */
  function ToFileContent(suite: TestSuite): string
  {
    Join(FileParts(suite), PartSeparator) + "\n"
  }

  /**
   * Every test contributes exactly one part, in order and even when its source is blank,
   * after at most the imports and setup parts.
   */
  lemma FilePartsShape(suite: TestSuite)
    ensures |FileParts(suite)| == HeadCount(suite) + |suite.tests|
    ensures FileParts(suite)[HeadCount(suite)..] == TestParts(suite.tests)
    ensures suite.importsCode != [] ==> FileParts(suite)[0] == Strip(suite.importsCode)
  {
    assert FileParts(suite)[|HeadParts(suite)|..] == TestParts(suite.tests);
  }

  /** The rendered file always ends in a newline; an empty suite renders as just "\n". */
  lemma ToFileContentEnds(suite: TestSuite)
    ensures |ToFileContent(suite)| >= 1 && ToFileContent(suite)[|ToFileContent(suite)| - 1] == '\n'
    ensures suite.tests == [] && suite.importsCode == [] && suite.setupCode == [] ==> ToFileContent(suite) == "\n"
  {
  }

  /** A suite with one test and nothing else renders as that test's stripped source plus a newline. */
  lemma ToFileContentSingle(suite: TestSuite)
    requires |suite.tests| == 1 && suite.importsCode == [] && suite.setupCode == []
    ensures ToFileContent(suite) == Strip(suite.tests[0].sourceCode) + "\n"
  {
    assert FileParts(suite) == [Strip(suite.tests[0].sourceCode)];
  }
}
