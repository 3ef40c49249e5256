/**
 * The workflow engine: one request names a mode, the engine runs the matching pipeline and
 * shapes its result into a response. Only combined mode lets an exception escape: its own
 * analyzer call is not guarded.
 */
module Engine {

  import opened Wrappers
  import opened StyleGuide
  import opened TestModel
  import opened Results
  import opened Interactions
  import opened Stages
  import GP = GoldenPipeline
  import OP = ObserverPipeline

  datatype PipelineRequest = PipelineRequest(
    mode: string,
    goldenFilePaths: seq<string>,
    goldenSourceCodes: seq<string>,
    capturedExchanges: seq<HttpExchange>,
    harFilePath: Option<string>,
    appName: string,
    baseUrl: string,
    appDescription: string,
    numTests: int,
    executeTests: bool,
    workingDir: Option<string>)

  /** The `golden_result` dict. */
  datatype GoldenReport = GoldenReport(testCount: nat, rawResponse: string, testFile: string)

  /** The `observer_result` dict; combined mode leaves out the raw response. */
  datatype ObserverReport = ObserverReport(endpointCount: nat, testCount: nat, rawResponse: Option<string>, testFile: string)

  datatype PipelineResponse = PipelineResponse(
    mode: string,
    success: bool,
    goldenResult: Option<GoldenReport>,
    observerResult: Option<ObserverReport>,
    errors: seq<string>,
    testFilePath: string,
    summary: string)

  /** The number of tests of the suite, 0 without one. */
  function TestCountOf(suite: Option<TestSuite>): nat
  {
    if suite.Some? then suite.value.TestCount() else 0
  }

  /** The rendered test file of the suite, "" without one. */
  function TestFileOf(suite: Option<TestSuite>): string
  {
    if suite.Some? then ToFileContent(suite.value) else ""
  }

  /** The validation summary, "" without a validation result. */
  function SummaryOf(v: Option<ValidationResult>): string
  {
    if v.Some? then v.value.summary else ""
  }

  function GoldenConfigOf(request: PipelineRequest): GP.GoldenConfig
  {
    GP.GoldenConfig(request.baseUrl, request.appDescription, request.numTests, request.executeTests,
                    request.workingDir, None)
  }

  function ObserverConfigOf(request: PipelineRequest, guide: Option<TestStyleGuide>): OP.ObserverConfig
  {
    OP.ObserverConfig(request.appName, request.baseUrl, request.appDescription, request.numTests,
                      request.executeTests, request.workingDir, 8080, guide)
  }

  /** `_run_golden` */
  function RunGolden(request: PipelineRequest, agents: Agents): PipelineResponse
  {
    var o := GP.GoldenRun(request.goldenFilePaths, request.goldenSourceCodes, GoldenConfigOf(request), agents);
    PipelineResponse("golden", GP.Succeeded(o),
                     Some(GoldenReport(TestCountOf(o.testSuite), o.rawLlmResponse, TestFileOf(o.testSuite))),
                     None, o.errors, o.testFilePath, SummaryOf(o.validationResult))
  }

  /** `_run_observer` */
  function RunObserver(request: PipelineRequest, agents: Agents): PipelineResponse
  {
    var o := OP.ObserverRun(request.capturedExchanges, request.harFilePath, ObserverConfigOf(request, None), agents);
    PipelineResponse("observer", OP.Succeeded(o), None,
                     Some(ObserverReport(if o.endpointMap.Some? then o.endpointMap.value.EndpointCount() else 0,
                                         TestCountOf(o.testSuite), Some(o.rawLlmResponse), TestFileOf(o.testSuite))),
                     o.errors, o.testFilePath, SummaryOf(o.validationResult))
  }

  /** `_run_combined`: the analyzer runs only when golden paths or sources are given, and may raise. */
  function RunCombined(request: PipelineRequest, agents: Agents): Result<PipelineResponse>
  {
    var analyzed: Result<Option<TestStyleGuide>> :=
      if request.goldenFilePaths != [] || request.goldenSourceCodes != [] then
        match agents.analyze(AnalyzerInput(request.goldenFilePaths, request.goldenSourceCodes))
        case Success(a) => Success(Some(a.styleGuide))
        case Failure(e) => Failure(e)
      else Success(None);
    match analyzed
    case Failure(e) => Failure(e)
    case Success(guide) =>
      var o := OP.ObserverRun(request.capturedExchanges, request.harFilePath, ObserverConfigOf(request, guide), agents);
      Success(PipelineResponse("combined", OP.Succeeded(o), None,
                               Some(ObserverReport(if o.endpointMap.Some? then o.endpointMap.value.EndpointCount() else 0,
                                                   TestCountOf(o.testSuite), None, TestFileOf(o.testSuite))),
                               o.errors, o.testFilePath, SummaryOf(o.validationResult)))
  }

  /** `run_pipeline`: dispatch on the mode; `Failure` is an exception that escapes the engine. */
  function RunPipeline(request: PipelineRequest, agents: Agents): Result<PipelineResponse>
  {
    if request.mode == "golden" then Success(RunGolden(request, agents))
    else if request.mode == "observer" then Success(RunObserver(request, agents))
    else if request.mode == "combined" then RunCombined(request, agents)
    else Success(PipelineResponse(request.mode, false, None, None, ["Unknown mode: " + request.mode], "", ""))
  }

  // ---------------------------------------------------------------- properties

  /** Any mode but the three known ones fails with one error naming the mode, and runs nothing. */
  lemma UnknownMode(request: PipelineRequest, agents: Agents)
    requires request.mode !in {"golden", "observer", "combined"}
    ensures RunPipeline(request, agents).Success?
    ensures var r := RunPipeline(request, agents).value;
      !r.success && r.errors == ["Unknown mode: " + request.mode] && r.mode == request.mode
      && r.goldenResult.None? && r.observerResult.None? && r.summary == "" && r.testFilePath == ""
  {
  }

  /** Only combined mode can raise, and only through its analyzer, which runs only with golden inputs. */
  lemma OnlyCombinedRaises(request: PipelineRequest, agents: Agents)
    ensures RunPipeline(request, agents).Failure? <==>
      request.mode == "combined" && (request.goldenFilePaths != [] || request.goldenSourceCodes != [])
      && agents.analyze(AnalyzerInput(request.goldenFilePaths, request.goldenSourceCodes)).Failure?
  {
  }

  /** Golden mode copies the pipeline's success, errors and test file path, and shapes the rest. */
  lemma GoldenResponseShape(request: PipelineRequest, agents: Agents)
    requires request.mode == "golden"
    ensures var o := GP.GoldenRun(request.goldenFilePaths, request.goldenSourceCodes, GoldenConfigOf(request), agents);
      var r := RunPipeline(request, agents);
      r.Success? && r.value.mode == "golden"
      && r.value.success == GP.Succeeded(o) && r.value.errors == o.errors && r.value.testFilePath == o.testFilePath
      && r.value.observerResult.None? && r.value.goldenResult.Some?
      && (o.testSuite.None? ==> r.value.goldenResult.value.testCount == 0 && r.value.goldenResult.value.testFile == "")
      && (o.testSuite.Some? ==> r.value.goldenResult.value.testCount == |o.testSuite.value.tests|
                                && r.value.goldenResult.value.testFile == ToFileContent(o.testSuite.value))
      && r.value.summary == (if o.validationResult.Some? then o.validationResult.value.summary else "")
      && r.value.goldenResult.value.rawResponse == o.rawLlmResponse
  {
  }

  /** Observer mode copies the pipeline's success, errors and test file path, and shapes the rest. */
  lemma ObserverResponseShape(request: PipelineRequest, agents: Agents)
    requires request.mode == "observer"
    ensures var o := OP.ObserverRun(request.capturedExchanges, request.harFilePath, ObserverConfigOf(request, None), agents);
      var r := RunPipeline(request, agents);
      r.Success? && r.value.mode == "observer"
      && r.value.success == OP.Succeeded(o) && r.value.errors == o.errors && r.value.testFilePath == o.testFilePath
      && r.value.goldenResult.None? && r.value.observerResult.Some?
      && r.value.observerResult.value.endpointCount == (if o.endpointMap.Some? then |o.endpointMap.value.endpoints| else 0)
      && r.value.observerResult.value.testCount == (if o.testSuite.Some? then |o.testSuite.value.tests| else 0)
      && r.value.observerResult.value.rawResponse == Some(o.rawLlmResponse)
      && r.value.summary == (if o.validationResult.Some? then o.validationResult.value.summary else "")
  {
  }

  /**
   * Combined mode without golden inputs is observer mode under another name: the same outcome,
   * with no raw response in the report.
   */
  lemma CombinedWithoutGolden(request: PipelineRequest, agents: Agents)
    requires request.mode == "combined" && request.goldenFilePaths == [] && request.goldenSourceCodes == []
    ensures var r := RunPipeline(request, agents);
      var asObserver := RunObserver(request, agents);
      r.Success? && r.value == asObserver.(mode := "combined",
        observerResult := Some(asObserver.observerResult.value.(rawResponse := None)))
  {
  }

  /** A successful response reports no error and a suite: `success` never hides a failed stage. */
  lemma SuccessMeansNoErrors(request: PipelineRequest, agents: Agents)
    requires RunPipeline(request, agents).Success? && RunPipeline(request, agents).value.success
    ensures RunPipeline(request, agents).value.errors == []
    ensures request.mode in {"golden", "observer", "combined"}
  {
  }
}
