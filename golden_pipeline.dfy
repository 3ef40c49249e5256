/**
 * The golden-examples pipeline: analyzer, generator, optional executor, validator. The analyzer
 * and the generator are fatal (their failure ends the run), the executor and the validator are not.
 */
module GoldenPipeline {

  import opened Wrappers
  import opened StyleGuide
  import opened TestModel
  import opened Results
  import opened PatternExtractor
  import opened ApiTestGen
  import opened Stages

  datatype GoldenConfig = GoldenConfig(
    baseUrl: string,
    appDescription: string,
    numTests: int,
    executeTests: bool,
    workingDir: Option<string>,
    endpointMap: Option<EndpointMap>)

  /** `GoldenPipelineConfig()` */
  const DefaultGoldenConfig: GoldenConfig := GoldenConfig("http://localhost:5000", "", 10, true, None, None)

  /** The fields of a `GoldenPipelineResult`, as a value. */
  datatype GoldenOutcome = GoldenOutcome(
    styleGuide: Option<TestStyleGuide>,
    testSuite: Option<TestSuite>,
    executionResult: Option<ExecutionResult>,
    validationResult: Option<ValidationResult>,
    rawLlmResponse: string,
    testFilePath: string,
    errors: seq<string>)

  /** A fresh result: nothing set, no errors. */
  const NoGoldenOutcome: GoldenOutcome := GoldenOutcome(None, None, None, None, "", "", [])

  /** `GoldenPipelineResult.success`: a suite was produced and nothing failed. */
  predicate Succeeded(o: GoldenOutcome)
  {
    o.testSuite.Some? && o.errors == []
  }

  /** What the generator is given: the analyzer's guide and examples and the configured context. */
  function GoldenGeneratorInput(analyzed: AnalyzerOutput, cfg: GoldenConfig): GeneratorInput
  {
    GeneratorInput(analyzed.styleGuide, analyzed.goldenExamples, cfg.endpointMap, cfg.appDescription,
                   cfg.baseUrl, cfg.numTests, [], [], [], [])
  }

  /** The result `run_golden_pipeline` returns, stage by stage. */
  function GoldenRun(paths: seq<string>, sources: seq<string>, cfg: GoldenConfig, agents: Agents): GoldenOutcome
  {
    match agents.analyze(AnalyzerInput(paths, sources))
    case Failure(e) => NoGoldenOutcome.(errors := ["Analyzer failed: " + e])
    case Success(analyzed) =>
      var guided := NoGoldenOutcome.(styleGuide := Some(analyzed.styleGuide));
      match agents.generate(GoldenGeneratorInput(analyzed, cfg))
      case Failure(e) => guided.(errors := ["Generator failed: " + e])
      case Success(generated) =>
        var c := CheckSuite(generated.testSuite, cfg.executeTests, cfg.baseUrl, cfg.workingDir, agents);
        guided.(testSuite := Some(generated.testSuite), rawLlmResponse := generated.rawLlmResponse,
                executionResult := c.executionResult, testFilePath := c.testFilePath,
                validationResult := c.validationResult, errors := c.errors)
  }

  /** `GoldenPipelineResult`, whose fields the pipeline sets stage by stage. */
  class GoldenPipelineResult {
    var styleGuide: Option<TestStyleGuide>
    var testSuite: Option<TestSuite>
    var executionResult: Option<ExecutionResult>
    var validationResult: Option<ValidationResult>
    var rawLlmResponse: string
    var testFilePath: string
    var errors: seq<string>

    constructor()
      ensures Outcome() == NoGoldenOutcome
    {
      styleGuide := None;
      testSuite := None;
      executionResult := None;
      validationResult := None;
      rawLlmResponse := "";
      testFilePath := "";
      errors := [];
    }

    function Outcome(): GoldenOutcome
      reads this
    {
      GoldenOutcome(styleGuide, testSuite, executionResult, validationResult, rawLlmResponse, testFilePath, errors)
    }

    predicate Success()
      reads this
    {
      Succeeded(Outcome())
    }
  }

  /** `run_golden_pipeline`; an absent config is the default one. */
  method RunGoldenPipeline(paths: seq<string>, sources: seq<string>, config: Option<GoldenConfig>, agents: Agents)
    returns (result: GoldenPipelineResult)
    ensures fresh(result)
    ensures result.Outcome() == GoldenRun(paths, sources, config.GetOr(DefaultGoldenConfig), agents)
  {
    var cfg := config.GetOr(DefaultGoldenConfig);
    result := new GoldenPipelineResult();

    var analyzerOutput := agents.analyze(AnalyzerInput(paths, sources));
    if analyzerOutput.Failure? {
      result.errors := result.errors + ["Analyzer failed: " + analyzerOutput.error];
      return;
    }
    result.styleGuide := Some(analyzerOutput.value.styleGuide);

    var generatorOutput := agents.generate(GoldenGeneratorInput(analyzerOutput.value, cfg));
    if generatorOutput.Failure? {
      result.errors := result.errors + ["Generator failed: " + generatorOutput.error];
      return;
    }
    var suite := generatorOutput.value.testSuite;
    result.testSuite := Some(suite);
    result.rawLlmResponse := generatorOutput.value.rawLlmResponse;

    var executionResult: Option<ExecutionResult> := None;
    if cfg.executeTests {
      var executorOutput := agents.execute(ExecutorInput(suite, cfg.baseUrl, cfg.workingDir));
      if executorOutput.Success? {
        executionResult := Some(executorOutput.value.executionResult);
        result.executionResult := executionResult;
        result.testFilePath := executorOutput.value.testFilePath;
      } else {
        result.errors := result.errors + ["Executor failed: " + executorOutput.error];
      }
    }

    var validatorOutput := agents.validate(ValidatorInput(suite, executionResult));
    if validatorOutput.Success? {
      result.validationResult := Some(validatorOutput.value);
    } else {
      result.errors := result.errors + ["Validator failed: " + validatorOutput.error];
    }
  }

  // ---------------------------------------------------------------- properties

  /** The run succeeds exactly when the analyzer, the generator, the executor if enabled and the validator all return. */
  lemma GoldenSuccessIff(paths: seq<string>, sources: seq<string>, cfg: GoldenConfig, agents: Agents)
    ensures var analyzed := agents.analyze(AnalyzerInput(paths, sources));
      Succeeded(GoldenRun(paths, sources, cfg, agents)) <==>
        analyzed.Success?
        && var generated := agents.generate(GoldenGeneratorInput(analyzed.value, cfg));
        generated.Success?
        && var suite := generated.value.testSuite;
        var executed := agents.execute(ExecutorInput(suite, cfg.baseUrl, cfg.workingDir));
        var execution := if cfg.executeTests && executed.Success? then Some(executed.value.executionResult) else None;
        (!cfg.executeTests || executed.Success?) && agents.validate(ValidatorInput(suite, execution)).Success?
  {
    var analyzed := agents.analyze(AnalyzerInput(paths, sources));
    if analyzed.Success? {
      var generated := agents.generate(GoldenGeneratorInput(analyzed.value, cfg));
      if generated.Success? {
        var suite := generated.value.testSuite;
        CheckErrors(suite, cfg.executeTests, cfg.baseUrl, cfg.workingDir, agents);
        ValidatorSees(suite, cfg.executeTests, cfg.baseUrl, cfg.workingDir, agents);
      }
    }
  }

  /** A failed analyzer leaves exactly one error, no style guide and no suite: nothing after it ran. */
  lemma AnalyzerFailureIsFatal(paths: seq<string>, sources: seq<string>, cfg: GoldenConfig, agents: Agents)
    requires agents.analyze(AnalyzerInput(paths, sources)).Failure?
    ensures GoldenRun(paths, sources, cfg, agents)
      == NoGoldenOutcome.(errors := ["Analyzer failed: " + agents.analyze(AnalyzerInput(paths, sources)).error])
  {
  }

  /** A failed generator ends the run with its one error, keeping the style guide already set. */
  lemma GeneratorFailureIsFatal(paths: seq<string>, sources: seq<string>, cfg: GoldenConfig, agents: Agents)
    requires agents.analyze(AnalyzerInput(paths, sources)).Success?
    requires agents.generate(GoldenGeneratorInput(agents.analyze(AnalyzerInput(paths, sources)).value, cfg)).Failure?
    ensures var o := GoldenRun(paths, sources, cfg, agents);
      o.styleGuide == Some(agents.analyze(AnalyzerInput(paths, sources)).value.styleGuide)
      && o.testSuite.None? && o.executionResult.None? && o.validationResult.None?
      && o.errors == ["Generator failed: " + agents.generate(GoldenGeneratorInput(agents.analyze(AnalyzerInput(paths, sources)).value, cfg)).error]
  {
  }

  /**
   * Once the generator returns, the suite is kept whatever follows; executor and validator
   * failures only add errors, so the run then fails with its suite set.
   */
  lemma LaterFailuresKeepSuite(paths: seq<string>, sources: seq<string>, cfg: GoldenConfig, agents: Agents)
    requires agents.analyze(AnalyzerInput(paths, sources)).Success?
    requires agents.generate(GoldenGeneratorInput(agents.analyze(AnalyzerInput(paths, sources)).value, cfg)).Success?
    ensures var o := GoldenRun(paths, sources, cfg, agents);
      o.testSuite == Some(agents.generate(GoldenGeneratorInput(agents.analyze(AnalyzerInput(paths, sources)).value, cfg)).value.testSuite)
      && (o.errors != [] ==> !Succeeded(o))
      && (!cfg.executeTests ==> o.executionResult.None? && o.testFilePath == "")
  {
  }

  /** No run records more than two errors: one fatal error, or an executor and a validator error. */
  lemma GoldenErrorsBounded(paths: seq<string>, sources: seq<string>, cfg: GoldenConfig, agents: Agents)
    ensures |GoldenRun(paths, sources, cfg, agents).errors| <= 2
  {
    var analyzed := agents.analyze(AnalyzerInput(paths, sources));
    if analyzed.Success? {
      var generated := agents.generate(GoldenGeneratorInput(analyzed.value, cfg));
      if generated.Success? {
        CheckErrors(generated.value.testSuite, cfg.executeTests, cfg.baseUrl, cfg.workingDir, agents);
      }
    }
  }
}
