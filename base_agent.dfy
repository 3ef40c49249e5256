/**
 * The wrapper every agent runs under: validate the input, and only when validation finds nothing
 * run the agent, turning a raised exception into a failed result. An agent's own `run` and
 * `validate_input` are parameters; `run`'s `Failure` carries `str(e)`, its `Success` the dumped output.
 */
module BaseAgent {

  import opened Wrappers
  import opened PyValues

  datatype AgentResult = AgentResult(
    agentName: string,
    success: bool,
    data: Dict<Json>,
    errors: seq<string>,
    warnings: seq<string>)

  /** An agent as the wrapper sees it: its name. */
  datatype Agent = Agent(name: string)

  /** `BaseAgent.__init__`: the given name, unless it is absent or empty, then the class name. */
  function NewAgent(name: Option<string>, className: string): (a: Agent)
    ensures a.name == className || (name.Some? && a.name == name.value)
    ensures a.name == [] ==> className == []
    ensures name.Some? && name.value != [] ==> a.name == name.value
  {
    if name.Some? && name.value != [] then Agent(name.value) else Agent(className)
  }

  /** `BaseAgent.validate_input` as every agent here inherits it: nothing to report. */
  function DefaultValidation<I>(input: I): (errors: seq<string>)
    ensures |errors| == 0
  {
    []
  }

  /** `BaseAgent.execute` */
  function Execute<I>(agent: Agent, input: I, validate: I -> seq<string>, run: I -> Result<Dict<Json>>): (r: AgentResult)
    ensures r.agentName == agent.name && r.warnings == []
    ensures r.success <==> validate(input) == [] && run(input).Success?
    ensures validate(input) != [] ==> r.errors == validate(input) && r.data == []
    ensures validate(input) == [] && run(input).Success? ==> r.data == run(input).value && r.errors == []
    ensures validate(input) == [] && run(input).Failure? ==> r.errors == [run(input).error] && r.data == []
  {
    var errors := validate(input);
    if errors != [] then AgentResult(agent.name, false, [], errors, [])
    else
      match run(input)
      case Success(output) => AgentResult(agent.name, true, output, [], [])
      case Failure(e) => AgentResult(agent.name, false, [], [e], [])
  }

  /**
   * A result is successful exactly when it carries no error: validation errors and the exception
   * message are never empty lists, so a failure always explains itself.
   */
  lemma FailureExplains<I>(agent: Agent, input: I, validate: I -> seq<string>, run: I -> Result<Dict<Json>>)
    ensures Execute(agent, input, validate, run).success <==> Execute(agent, input, validate, run).errors == []
  {
  }

  /** With the inherited validation the wrapper's verdict is the run's. */
  lemma DefaultValidationRuns<I>(agent: Agent, input: I, run: I -> Result<Dict<Json>>)
    ensures var r := Execute(agent, input, DefaultValidation, run);
      (r.success <==> run(input).Success?)
      && (run(input).Failure? ==> r.errors == [run(input).error])
  {
  }
}
