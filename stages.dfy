/**
 * The agents as the pipelines see them: each stage is a call that returns its output or raises,
 * and the execute-then-validate tail that both pipelines share. What each agent computes is
 * modelled in its own module; here an agent is a function from its input to `Result`, the
 * `Failure` message being `str(e)` of the exception it raised.
 */
module Stages {

  import opened Wrappers
  import opened StyleGuide
  import opened TestModel
  import opened Results
  import opened Interactions
  import opened PatternExtractor
  import opened ApiTestGen
  import opened HttpProxy

  datatype AnalyzerInput = AnalyzerInput(goldenFilePaths: seq<string>, goldenSourceCodes: seq<string>)

  datatype GeneratorOutput = GeneratorOutput(testSuite: TestSuite, rawLlmResponse: string)

  datatype ExecutorInput = ExecutorInput(testSuite: TestSuite, baseUrl: string, workingDir: Option<string>)

  datatype ExecutorOutput = ExecutorOutput(executionResult: ExecutionResult, testFilePath: string)

  datatype ValidatorInput = ValidatorInput(testSuite: TestSuite, executionResult: Option<ExecutionResult>)

  /** One `run` per agent the pipelines call. */
  datatype Agents = Agents(
    observe: ObserverInput -> Result<InteractionRecord>,
    mapEndpoints: InteractionRecord -> Result<EndpointMap>,
    analyze: AnalyzerInput -> Result<AnalyzerOutput>,
    generate: GeneratorInput -> Result<GeneratorOutput>,
    execute: ExecutorInput -> Result<ExecutorOutput>,
    validate: ValidatorInput -> Result<ValidationResult>)

  /** What the execute and validate stages leave behind. */
  datatype Checked = Checked(
    executionResult: Option<ExecutionResult>,
    testFilePath: string,
    validationResult: Option<ValidationResult>,
    errors: seq<string>)

  /**
   * The optional executor, whose failure is recorded and not fatal, then the validator, which
   * sees the execution result or `None`; a validator failure is recorded too.
   */
  function CheckSuite(suite: TestSuite, executeTests: bool, baseUrl: string, workingDir: Option<string>,
                      agents: Agents): Checked
  {
    var ran: Option<Result<ExecutorOutput>> :=
      if executeTests then Some(agents.execute(ExecutorInput(suite, baseUrl, workingDir))) else None;
    var execution := if ran.Some? && ran.value.Success? then Some(ran.value.value.executionResult) else None;
    var path := if ran.Some? && ran.value.Success? then ran.value.value.testFilePath else "";
    var executorErrors := if ran.Some? && ran.value.Failure? then ["Executor failed: " + ran.value.error] else [];
    match agents.validate(ValidatorInput(suite, execution))
    case Success(v) => Checked(execution, path, Some(v), executorErrors)
    case Failure(e) => Checked(execution, path, None, executorErrors + ["Validator failed: " + e])
  }

  /**
   * The tail records at most one executor and one validator error, in that order, and records none
   * exactly when every stage that ran succeeded.
   */
  lemma CheckErrors(suite: TestSuite, executeTests: bool, baseUrl: string, workingDir: Option<string>, agents: Agents)
    ensures var c := CheckSuite(suite, executeTests, baseUrl, workingDir, agents);
      var executed := agents.execute(ExecutorInput(suite, baseUrl, workingDir));
      |c.errors| <= 2
      && (c.errors == [] <==> (!executeTests || executed.Success?) && c.validationResult.Some?)
      && (executeTests && executed.Failure? ==> c.errors[0] == "Executor failed: " + executed.error)
      && (c.validationResult.None? ==> c.errors[|c.errors| - 1] == "Validator failed: " + agents.validate(ValidatorInput(suite, c.executionResult)).error)
  {
  }

  /** The validator always runs, on the execution result when the executor ran and succeeded, and on `None` otherwise. */
  lemma ValidatorSees(suite: TestSuite, executeTests: bool, baseUrl: string, workingDir: Option<string>, agents: Agents)
    ensures var c := CheckSuite(suite, executeTests, baseUrl, workingDir, agents);
      var executed := agents.execute(ExecutorInput(suite, baseUrl, workingDir));
      (executeTests && executed.Success? ==>
         c.executionResult == Some(executed.value.executionResult) && c.testFilePath == executed.value.testFilePath)
      && (!executeTests || executed.Failure? ==> c.executionResult.None? && c.testFilePath == "")
      && (c.validationResult.Some? <==> agents.validate(ValidatorInput(suite, c.executionResult)).Success?)
      && (c.validationResult.Some? ==> c.validationResult.value == agents.validate(ValidatorInput(suite, c.executionResult)).value)
  {
  }
}
