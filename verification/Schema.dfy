/** The workflow definition and the values that steps produce (src/workflow/schema.rs, src/steps/mod.rs). */
module Schema {
  import opened Prelude

  datatype StepType =
    | Cmd | Agent | Chat | Gate | Repeat | Map | Call | Parallel | Template | Script

  function ShowStepType(t: StepType): string {
    match t
    case Cmd => "cmd"
    case Agent => "agent"
    case Chat => "chat"
    case Gate => "gate"
    case Repeat => "repeat"
    case Map => "map"
    case Call => "call"
    case Parallel => "parallel"
    case Template => "template"
    case Script => "script"
  }

  /** A JSON or YAML value. Only null and strings are ever inspected; the rest is kept opaque. */
  datatype Json = JNull | JString(s: string) | JOther(raw: string)

  datatype OutputType = Text | JsonText | Integer | Lines | Boolean

  datatype StepDef = StepDef(
    name: string,
    stepType: StepType,
    run: Option<string>,
    prompt: Option<string>,
    condition: Option<string>,
    onPass: Option<string>,
    onFail: Option<string>,
    message: Option<string>,
    scope: Option<string>,
    maxIterations: Option<nat>,
    initialValue: Option<Json>,
    items: Option<string>,
    parallel: Option<nat>,
    steps: Substeps,
    config: map<string, Json>,
    outputs: Option<string>,
    outputType: Option<OutputType>,
    asyncExec: Option<bool>,
    env: map<string, string>)

  /** The optional nested body of a parallel step. */
  datatype Substeps = NoSubsteps | Substeps(body: seq<StepDef>)

  datatype ScopeDef = ScopeDef(steps: seq<StepDef>, outputs: Option<string>)

  datatype WorkflowDef = WorkflowDef(
    name: string,
    scopes: map<string, ScopeDef>,
    steps: seq<StepDef>,
    chatConfig: map<string, Json>,
    agentConfig: map<string, Json>,
    env: map<string, string>,
    promptsDir: Option<string>)

  /** Result of an executed step. Durations and token statistics are dropped. */
  datatype StepOutput =
    | CmdOut(stdout: string, stderr: string, exitCode: int)
    | AgentOut(response: string, sessionId: Option<string>)
    | ChatOut(reply: string)
    | GateOut(passed: bool, note: Option<string>)
    | ScopeOut(iterations: seq<IterationOutput>, finalValue: Option<StepOutput>)
    | TemplateOut(rendered: string)
    | Empty

  datatype IterationOutput = IterationOutput(index: nat, output: StepOutput)

  /** Main text of an output. */
  function OutputText(o: StepOutput): string {
    match o
    case CmdOut(stdout, _, _) => stdout
    case AgentOut(response, _) => response
    case ChatOut(reply) => reply
    case GateOut(_, note) => UnwrapOr(note, "")
    case ScopeOut(_, finalValue) => if finalValue.Some? then OutputText(finalValue.value) else ""
    case TemplateOut(rendered) => rendered
    case Empty => ""
  }

  /** The innermost final value of nested scope answers. */
  function Final(o: StepOutput): StepOutput {
    if o.ScopeOut? && o.finalValue.Some? then Final(o.finalValue.value) else o
  }

  /** What a command printed or a model answered, and for a scope the text of its innermost final value. */
  lemma {:induction false} TextIsFinal(o: StepOutput)
    ensures OutputText(o) ==
            match Final(o)
            case CmdOut(stdout, stderr, exitCode) => stdout
            case AgentOut(response, sessionId) => response
            case ChatOut(reply) => reply
            case GateOut(passed, Some(note)) => note
            case TemplateOut(rendered) => rendered
            case _ => ""
  {
    if o.ScopeOut? && o.finalValue.Some? {
      TextIsFinal(o.finalValue.value);
    }
  }

  datatype ControlFlow =
    | Skip(reason: string)
    | Abort(reason: string)
    | Break(reason: string, value: Option<StepOutput>)
    | Next(reason: string)

  /** `Other` stands for timeout, template, sandbox, config and foreign errors. */
  datatype StepError = Fail(message: string) | Flow(flow: ControlFlow) | Other(detail: string)

  type Outcome = Result<StepOutput, StepError>

  predicate Skips(outcome: Outcome) {
    outcome.Err? && outcome.error.Flow? && outcome.error.flow.Skip?
  }

  predicate Breaks(outcome: Outcome) {
    outcome.Err? && outcome.error.Flow? && outcome.error.flow.Break?
  }

  predicate Nexts(outcome: Outcome) {
    outcome.Err? && outcome.error.Flow? && outcome.error.flow.Next?
  }

  /** Outcomes that let the engine's loop and the body of a scope go on. */
  predicate GoesOn(outcome: Outcome) {
    outcome.Ok? || Skips(outcome)
  }
}
