/**
 * The observer pipeline: observer, mapper, generator, optional executor, validator. The first
 * three stages are fatal, and a capture with no exchange ends the run before the mapper; the
 * executor and the validator are not fatal.
 */
module ObserverPipeline {

  import opened Wrappers
  import opened StyleGuide
  import opened TestModel
  import opened Results
  import opened Interactions
  import opened ApiTestGen
  import opened HttpProxy
  import opened Stages

  datatype ObserverConfig = ObserverConfig(
    appName: string,
    baseUrl: string,
    appDescription: string,
    numTests: int,
    executeTests: bool,
    workingDir: Option<string>,
    proxyPort: int,
    goldenStyleGuide: Option<TestStyleGuide>)

  /** `ObserverPipelineConfig()` */
  const DefaultObserverConfig: ObserverConfig :=
    ObserverConfig("app", "http://localhost:5000", "", 10, true, None, 8080, None)

  /** The fields of an `ObserverPipelineResult`, as a value. */
  datatype ObserverOutcome = ObserverOutcome(
    endpointMap: Option<EndpointMap>,
    testSuite: Option<TestSuite>,
    validationResult: Option<ValidationResult>,
    rawLlmResponse: string,
    testFilePath: string,
    errors: seq<string>)

  /** A fresh result: nothing set, no errors. */
  const NoObserverOutcome: ObserverOutcome := ObserverOutcome(None, None, None, "", "", [])

  const NoExchanges: string := "No HTTP exchanges captured"

  /** `ObserverPipelineResult.success`: a suite was produced and nothing failed. */
  predicate Succeeded(o: ObserverOutcome)
  {
    o.testSuite.Some? && o.errors == []
  }

  /** The style guide built when none is given: pytest with requests, everything else at its default. */
  function MinimalGuide(): TestStyleGuide
  {
    DefaultStyleGuide().(framework := Pytest, httpClient := Requests)
  }

  /** What the observer is given. */
  function CaptureInput(captured: seq<HttpExchange>, harFilePath: Option<string>, cfg: ObserverConfig): ObserverInput
  {
    ObserverInput(cfg.appName, cfg.baseUrl, cfg.proxyPort, captured, harFilePath)
  }

  /**
   * What the generator is given: the golden guide, or the minimal one, with its examples, the
   * mapped endpoints, and the description or, when that is empty, the application name.
   */
  function ObserverGeneratorInput(m: EndpointMap, cfg: ObserverConfig): GeneratorInput
  {
    var guide := if cfg.goldenStyleGuide.Some? then cfg.goldenStyleGuide.value else MinimalGuide();
    GeneratorInput(guide, guide.goldenExamples, Some(m),
                   if cfg.appDescription != [] then cfg.appDescription else cfg.appName,
                   cfg.baseUrl, cfg.numTests, [], [], [], [])
  }

  /** The result `run_observer_pipeline` returns, stage by stage. */
  function ObserverRun(captured: seq<HttpExchange>, harFilePath: Option<string>, cfg: ObserverConfig, agents: Agents)
    : ObserverOutcome
  {
    match agents.observe(CaptureInput(captured, harFilePath, cfg))
    case Failure(e) => NoObserverOutcome.(errors := ["Observer failed: " + e])
    case Success(record) =>
      if record.httpExchanges == [] then NoObserverOutcome.(errors := [NoExchanges])
      else
        match agents.mapEndpoints(record)
        case Failure(e) => NoObserverOutcome.(errors := ["Mapper failed: " + e])
        case Success(m) =>
          var mapped := NoObserverOutcome.(endpointMap := Some(m));
          match agents.generate(ObserverGeneratorInput(m, cfg))
          case Failure(e) => mapped.(errors := ["Generator failed: " + e])
          case Success(generated) =>
            var c := CheckSuite(generated.testSuite, cfg.executeTests, cfg.baseUrl, cfg.workingDir, agents);
            mapped.(testSuite := Some(generated.testSuite), rawLlmResponse := generated.rawLlmResponse,
                    testFilePath := c.testFilePath, validationResult := c.validationResult, errors := c.errors)
  }

  /** `ObserverPipelineResult`, whose fields the pipeline sets stage by stage. */
  class ObserverPipelineResult {
    var endpointMap: Option<EndpointMap>
    var testSuite: Option<TestSuite>
    var validationResult: Option<ValidationResult>
    var rawLlmResponse: string
    var testFilePath: string
    var errors: seq<string>

    constructor()
      ensures Outcome() == NoObserverOutcome
    {
      endpointMap := None;
      testSuite := None;
      validationResult := None;
      rawLlmResponse := "";
      testFilePath := "";
      errors := [];
    }

    function Outcome(): ObserverOutcome
      reads this
    {
      ObserverOutcome(endpointMap, testSuite, validationResult, rawLlmResponse, testFilePath, errors)
    }

    predicate Success()
      reads this
    {
      Succeeded(Outcome())
    }
  }

  /** `run_observer_pipeline`; an absent config is the default one. */
  method RunObserverPipeline(captured: seq<HttpExchange>, harFilePath: Option<string>, config: Option<ObserverConfig>,
                             agents: Agents)
    returns (result: ObserverPipelineResult)
    ensures fresh(result)
    ensures result.Outcome() == ObserverRun(captured, harFilePath, config.GetOr(DefaultObserverConfig), agents)
  {
    var cfg := config.GetOr(DefaultObserverConfig);
    result := new ObserverPipelineResult();

    var observerOutput := agents.observe(CaptureInput(captured, harFilePath, cfg));
    if observerOutput.Failure? {
      result.errors := result.errors + ["Observer failed: " + observerOutput.error];
      return;
    }
    var record := observerOutput.value;
    if record.httpExchanges == [] {
      result.errors := result.errors + [NoExchanges];
      return;
    }

    var mapperOutput := agents.mapEndpoints(record);
    if mapperOutput.Failure? {
      result.errors := result.errors + ["Mapper failed: " + mapperOutput.error];
      return;
    }
    result.endpointMap := Some(mapperOutput.value);

    var generatorOutput := agents.generate(ObserverGeneratorInput(mapperOutput.value, cfg));
    if generatorOutput.Failure? {
      result.errors := result.errors + ["Generator failed: " + generatorOutput.error];
      return;
    }
    var suite := generatorOutput.value.testSuite;
    result.testSuite := Some(suite);
    result.rawLlmResponse := generatorOutput.value.rawLlmResponse;

    var executionResult: Option<ExecutionResult> := None;
    if cfg.executeTests {
      var executorOutput := agents.execute(ExecutorInput(suite, cfg.baseUrl, cfg.workingDir));
      if executorOutput.Success? {
        executionResult := Some(executorOutput.value.executionResult);
        result.testFilePath := executorOutput.value.testFilePath;
      } else {
        result.errors := result.errors + ["Executor failed: " + executorOutput.error];
      }
    }

    var validatorOutput := agents.validate(ValidatorInput(suite, executionResult));
    if validatorOutput.Success? {
      result.validationResult := Some(validatorOutput.value);
    } else {
      result.errors := result.errors + ["Validator failed: " + validatorOutput.error];
    }
  }

  // ---------------------------------------------------------------- properties

  /**
   * The run succeeds exactly when the observer captures some exchange and the mapper, the
   * generator, the executor if enabled and the validator all return.
   */
  lemma ObserverSuccessIff(captured: seq<HttpExchange>, harFilePath: Option<string>, cfg: ObserverConfig, agents: Agents)
    ensures var observed := agents.observe(CaptureInput(captured, harFilePath, cfg));
      Succeeded(ObserverRun(captured, harFilePath, cfg, agents)) <==>
        observed.Success? && observed.value.httpExchanges != []
        && var mapped := agents.mapEndpoints(observed.value);
        mapped.Success?
        && var generated := agents.generate(ObserverGeneratorInput(mapped.value, cfg));
        generated.Success?
        && var suite := generated.value.testSuite;
        var executed := agents.execute(ExecutorInput(suite, cfg.baseUrl, cfg.workingDir));
        var execution := if cfg.executeTests && executed.Success? then Some(executed.value.executionResult) else None;
        (!cfg.executeTests || executed.Success?) && agents.validate(ValidatorInput(suite, execution)).Success?
  {
    var observed := agents.observe(CaptureInput(captured, harFilePath, cfg));
    if observed.Success? && observed.value.httpExchanges != [] {
      var mapped := agents.mapEndpoints(observed.value);
      if mapped.Success? {
        var generated := agents.generate(ObserverGeneratorInput(mapped.value, cfg));
        if generated.Success? {
          var suite := generated.value.testSuite;
          CheckErrors(suite, cfg.executeTests, cfg.baseUrl, cfg.workingDir, agents);
          ValidatorSees(suite, cfg.executeTests, cfg.baseUrl, cfg.workingDir, agents);
        }
      }
    }
  }

  /** A failed observer leaves exactly one error and nothing else. */
  lemma ObserverFailureIsFatal(captured: seq<HttpExchange>, harFilePath: Option<string>, cfg: ObserverConfig, agents: Agents)
    requires agents.observe(CaptureInput(captured, harFilePath, cfg)).Failure?
    ensures ObserverRun(captured, harFilePath, cfg, agents)
      == NoObserverOutcome.(errors := ["Observer failed: " + agents.observe(CaptureInput(captured, harFilePath, cfg)).error])
  {
  }

  /** A capture without exchanges gives the single "No HTTP exchanges captured" error and no mapping. */
  lemma EmptyCaptureStops(captured: seq<HttpExchange>, harFilePath: Option<string>, cfg: ObserverConfig, agents: Agents)
    requires agents.observe(CaptureInput(captured, harFilePath, cfg)).Success?
    requires agents.observe(CaptureInput(captured, harFilePath, cfg)).value.httpExchanges == []
    ensures ObserverRun(captured, harFilePath, cfg, agents) == NoObserverOutcome.(errors := [NoExchanges])
  {
  }

  /** A failed mapper ends the run with its one error and no endpoint map. */
  lemma MapperFailureIsFatal(captured: seq<HttpExchange>, harFilePath: Option<string>, cfg: ObserverConfig, agents: Agents)
    requires agents.observe(CaptureInput(captured, harFilePath, cfg)).Success?
    requires agents.observe(CaptureInput(captured, harFilePath, cfg)).value.httpExchanges != []
    requires agents.mapEndpoints(agents.observe(CaptureInput(captured, harFilePath, cfg)).value).Failure?
    ensures var o := ObserverRun(captured, harFilePath, cfg, agents);
      o.endpointMap.None? && o.testSuite.None?
      && o.errors == ["Mapper failed: " + agents.mapEndpoints(agents.observe(CaptureInput(captured, harFilePath, cfg)).value).error]
  {
  }

  /** Without a golden guide the generator gets the pytest/requests guide; the application name stands in for an empty description. */
  lemma GeneratorDefaults(m: EndpointMap, cfg: ObserverConfig)
    ensures var input := ObserverGeneratorInput(m, cfg);
      (cfg.goldenStyleGuide.None? ==>
         input.styleGuide.framework == Pytest && input.styleGuide.httpClient == Requests && input.goldenExamples == [])
      && (cfg.goldenStyleGuide.Some? ==> input.styleGuide == cfg.goldenStyleGuide.value)
      && input.goldenExamples == input.styleGuide.goldenExamples
      && input.endpointMap == Some(m)
      && input.appDescription == (if cfg.appDescription == [] then cfg.appName else cfg.appDescription)
  {
  }

  /** No run records more than two errors. */
  lemma ObserverErrorsBounded(captured: seq<HttpExchange>, harFilePath: Option<string>, cfg: ObserverConfig, agents: Agents)
    ensures |ObserverRun(captured, harFilePath, cfg, agents).errors| <= 2
  {
    var observed := agents.observe(CaptureInput(captured, harFilePath, cfg));
    if observed.Success? && observed.value.httpExchanges != [] {
      var mapped := agents.mapEndpoints(observed.value);
      if mapped.Success? {
        var generated := agents.generate(ObserverGeneratorInput(mapped.value, cfg));
        if generated.Success? {
          CheckErrors(generated.value.testSuite, cfg.executeTests, cfg.baseUrl, cfg.workingDir, agents);
        }
      }
    }
  }
}
