/** Translation of a parsed workflow into the form the harness runs (src/cli/harness_adapter.rs). */
module Adapter {
  import opened Prelude
  import opened Schema
  import opened Decimals
  import opened Validator
  import opened ConfigInheritance

  /**
   * Parts that are not modelled: reading the agent and chat fields of a step's config, turning an initial value into
   * JSON, and reading a number out of a config text.
   */
  datatype Readers = Readers(
    agent: StepDef -> Result<map<string, Json>, string>,
    chat: StepDef -> Result<map<string, Json>, string>,
    json: Json -> Result<Json, string>,
    number: string -> Option<Json>)

  /** A step of the harness; `detail` holds the typed agent or chat fields. */
  datatype Step = Step(
    name: string,
    kind: StepType,
    command: Option<string>,
    prompt: Option<string>,
    condition: Option<string>,
    onPass: Option<string>,
    onFail: Option<string>,
    message: Option<string>,
    scope: Option<string>,
    items: Option<string>,
    maxIterations: Option<nat>,
    parallel: Option<nat>,
    initialValue: Option<Json>,
    outputs: Option<string>,
    env: map<string, string>,
    detail: map<string, Json>)

  datatype Scope = Scope(steps: seq<Step>, outputs: Option<string>)

  datatype Workflow = Workflow(
    name: string,
    steps: seq<Step>,
    scopes: map<string, Scope>,
    env: map<string, string>,
    promptsDir: Option<string>)

  datatype AdapterError =
    | UnsupportedStepType(stepType: StepType)
    | CmdMissingRun(name: string)
    | GateMissingCondition(name: string)
    | TopLevelGateUnsupportedAction(name: string, field: string, action: string)
    | ScopedGateUnsupportedAction(name: string, field: string, action: string)
    | ContainerMissingScope(name: string, kind: string)
    | UnknownScope(name: string, kind: string, scope: string)
    | MapMissingItems(name: string)
    | ScriptMissingRun(name: string)
    | AgentMissingPrompt(name: string)
    | ChatMissingPrompt(name: string)
    | ConfigRejected(name: string, reason: string)
    | InitialValueNotJson(name: string, reason: string)
    | NestedScopesNotSupported(scope: string, inner: string, kind: string)
    | ScopedStepUnsupported(scope: string, inner: string, stepType: StepType)
    | ParallelMissingSteps(name: string)
    | ParallelSubStepUnsupported(parent: string, inner: string, stepType: StepType)
    | ParallelSynthScopeCollision(name: string, scope: string)

  datatype StepPosition = TopLevel | Scoped

  type Adapted<T> = Result<T, AdapterError>

  // ---------- single steps ----------

  function ContainerKind(t: StepType): Option<string> {
    match t
    case Call => Some("call")
    case Repeat => Some("repeat")
    case Map => Some("map")
    case Parallel => Some("parallel")
    case _ => None
  }

  predicate ScopeBodyKindSupported(t: StepType) {
    t.Cmd? || t.Gate? || t.Agent? || t.Chat?
  }

  /** An optional text that is not blank. */
  function Filled(text: Option<string>): Option<string> {
    if text.Some? && Trim(text.value) != "" then text else None
  }

  function Bare(s: StepDef): Step {
    Step(s.name, s.stepType, None, None, None, None, None, None, None, None, None, None, None, None, s.env, map[])
  }

  function RequireScopeRef(s: StepDef, kind: string, scopeNames: set<string>): Adapted<string> {
    var scope := Filled(s.scope);
    if scope.None? then Err(ContainerMissingScope(s.name, kind))
    else if scope.value !in scopeNames then Err(AdapterError.UnknownScope(s.name, kind, scope.value))
    else Ok(scope.value)
  }

  /** An action that a gate may take at a position; blank means the default. */
  predicate LegalAction(action: Option<string>, position: StepPosition) {
    var trimmed := Trim(UnwrapOr(action, ""));
    || trimmed == "" || trimmed == "continue" || trimmed == "fail"
    || (position.Scoped? && (trimmed == "skip" || trimmed == "break"))
  }

  function ValidateGateAction(name: string, field: string, action: Option<string>,
      position: StepPosition): Adapted<()> {
    if LegalAction(action, position) then Ok(())
    else if position.TopLevel? then Err(TopLevelGateUnsupportedAction(name, field, Trim(UnwrapOr(action, ""))))
    else Err(ScopedGateUnsupportedAction(name, field, Trim(UnwrapOr(action, ""))))
  }

  /** The fields all containers share. */
  function WithContainerFields(r: Readers, step: Step, s: StepDef): Adapted<Step> {
    var filled := step.(outputs := s.outputs);
    if s.initialValue.None? then Ok(filled)
    else
      match r.json(s.initialValue.value)
      case Ok(v) => Ok(filled.(initialValue := Some(v)))
      case Err(reason) => Err(InitialValueNotJson(s.name, reason))
  }

  function AdaptCmd(s: StepDef): Adapted<Step> {
    if s.run.None? then Err(CmdMissingRun(s.name)) else Ok(Bare(s).(command := s.run))
  }

  function AdaptGate(s: StepDef, position: StepPosition): Adapted<Step> {
    if Filled(s.condition).None? then Err(GateMissingCondition(s.name))
    else if ValidateGateAction(s.name, "on_pass", s.onPass, position).Err? then
      Err(ValidateGateAction(s.name, "on_pass", s.onPass, position).error)
    else if ValidateGateAction(s.name, "on_fail", s.onFail, position).Err? then
      Err(ValidateGateAction(s.name, "on_fail", s.onFail, position).error)
    else Ok(Bare(s).(condition := s.condition, onPass := s.onPass, onFail := s.onFail, message := s.message))
  }

  function AdaptContainer(r: Readers, s: StepDef, scopeNames: set<string>): Adapted<Step> {
    match RequireScopeRef(s, UnwrapOr(ContainerKind(s.stepType), ""), scopeNames)
    case Err(e) => Err(e)
    case Ok(scope) =>
      var step := Bare(s).(scope := Some(scope));
      match s.stepType
      case Repeat => WithContainerFields(r, step.(maxIterations := s.maxIterations), s)
      case Map =>
        if Filled(s.items).None? then Err(MapMissingItems(s.name))
        else WithContainerFields(r, step.(items := s.items, parallel := s.parallel), s)
      case _ => WithContainerFields(r, step, s)
  }

  /** Agent and chat steps: a prompt and the typed form of the config. */
  function AdaptPrompted(s: StepDef, missing: AdapterError, detail: Result<map<string, Json>, string>): Adapted<Step> {
    if Filled(s.prompt).None? then Err(missing)
    else if detail.Err? then Err(ConfigRejected(s.name, detail.error))
    else Ok(Bare(s).(prompt := s.prompt, detail := detail.value))
  }

  function AdaptStep(r: Readers, s: StepDef, scopeNames: set<string>, position: StepPosition): Adapted<Step> {
    match s.stepType
    case Cmd => AdaptCmd(s)
    case Gate => AdaptGate(s, position)
    case Call => AdaptContainer(r, s, scopeNames)
    case Repeat => AdaptContainer(r, s, scopeNames)
    case Map => AdaptContainer(r, s, scopeNames)
    case Template => Ok(Bare(s).(prompt := s.prompt))
    case Script => if Filled(s.run).None? then Err(ScriptMissingRun(s.name)) else Ok(Bare(s).(command := s.run))
    case Agent => AdaptPrompted(s, AgentMissingPrompt(s.name), r.agent(s))
    case Chat => AdaptPrompted(s, ChatMissingPrompt(s.name), r.chat(s))
    case Parallel => Err(UnsupportedStepType(s.stepType))
  }

  /** A step of a user-declared scope body. */
  function AdaptInner(r: Readers, scope: string, s: StepDef, scopeNames: set<string>): Adapted<Step> {
    if ContainerKind(s.stepType).Some? then
      Err(NestedScopesNotSupported(scope, s.name, ContainerKind(s.stepType).value))
    else if !ScopeBodyKindSupported(s.stepType) then Err(ScopedStepUnsupported(scope, s.name, s.stepType))
    else AdaptStep(r, s, scopeNames, Scoped)
  }

  /** A step of a parallel body. */
  function AdaptSub(r: Readers, parent: string, scope: string, s: StepDef): Adapted<Step> {
    if ContainerKind(s.stepType).Some? then
      Err(NestedScopesNotSupported(scope, s.name, ContainerKind(s.stepType).value))
    else if !(s.stepType.Cmd? || s.stepType.Agent? || s.stepType.Chat?) then
      Err(ParallelSubStepUnsupported(parent, s.name, s.stepType))
    else AdaptStep(r, s, {}, Scoped)
  }

  // ---------- lists of steps ----------

  /** The results for the first `n` steps, or the first error. */
  function Each<T>(f: (nat, StepDef) -> Adapted<T>, steps: seq<StepDef>, n: nat): Adapted<seq<T>>
    requires n <= |steps|
  {
    if n == 0 then Ok([])
    else
      var front := Each(f, steps, n - 1);
      if front.Err? then front
      else
        match f(n - 1, steps[n - 1])
        case Ok(x) => Ok(front.value + [x])
        case Err(e) => Err(e)
  }

  lemma {:induction false} EachIs<T>(f: (nat, StepDef) -> Adapted<T>, steps: seq<StepDef>, n: nat)
    requires n <= |steps|
    ensures Each(f, steps, n).Ok? ==>
              && |Each(f, steps, n).value| == n
              && forall k :: 0 <= k < n ==> f(k, steps[k]) == Ok(Each(f, steps, n).value[k])
    ensures Each(f, steps, n).Ok? <==> forall k :: 0 <= k < n ==> f(k, steps[k]).Ok?
  {
    if n > 0 {
      EachIs(f, steps, n - 1);
    }
  }

  /** An error among the first steps is the result for all. */
  lemma {:induction false} EachStops<T>(f: (nat, StepDef) -> Adapted<T>, steps: seq<StepDef>, k: nat, n: nat)
    requires k <= n <= |steps| && Each(f, steps, k).Err?
    ensures Each(f, steps, n) == Each(f, steps, k)
  {
    if k < n {
      EachStops(f, steps, k, n - 1);
    }
  }

  function Inner(r: Readers, scope: string, scopeNames: set<string>): (nat, StepDef) -> Adapted<Step> {
    (k: nat, s: StepDef) => AdaptInner(r, scope, s, scopeNames)
  }

  function Sub(r: Readers, parent: string, scope: string): (nat, StepDef) -> Adapted<Step> {
    (k: nat, s: StepDef) => AdaptSub(r, parent, scope, s)
  }

  function AdaptScope(r: Readers, name: string, scope: ScopeDef, scopeNames: set<string>): Adapted<Scope> {
    match Each(Inner(r, name, scopeNames), scope.steps, |scope.steps|)
    case Ok(body) => Ok(Scope(body, scope.outputs))
    case Err(e) => Err(e)
  }

  function ParallelName(i: nat): string {
    "__parallel_" + Decimal(i)
  }

  /** A top-level step together with the scope that a parallel step brings along. */
  datatype Top = Top(step: Step, synth: Option<Scope>)

  function AdaptParallel(r: Readers, s: StepDef, i: nat): Adapted<Top> {
    if s.steps.NoSubsteps? || s.steps.body == [] then Err(ParallelMissingSteps(s.name))
    else
      match Each(Sub(r, s.name, ParallelName(i)), s.steps.body, |s.steps.body|)
      case Err(e) => Err(e)
      case Ok(body) =>
        match WithContainerFields(r, Bare(s).(scope := Some(ParallelName(i))), s)
        case Err(e) => Err(e)
        case Ok(step) => Ok(Top(step, Some(Scope(body, None))))
  }

  function AdaptTop(r: Readers, s: StepDef, i: nat, scopeNames: set<string>): Adapted<Top> {
    if s.stepType.Parallel? then
      var top := AdaptParallel(r, s, i);
      if top.Ok? && ParallelName(i) in scopeNames then Err(ParallelSynthScopeCollision(s.name, ParallelName(i)))
      else top
    else
      match AdaptStep(r, s, scopeNames, TopLevel)
      case Ok(step) => Ok(Top(step, None))
      case Err(e) => Err(e)
  }

  function Tops(r: Readers, scopeNames: set<string>): (nat, StepDef) -> Adapted<Top> {
    (i: nat, s: StepDef) => AdaptTop(r, s, i, scopeNames)
  }

  /** The scopes brought along by the first `n` steps. */
  function Synthesised(tops: seq<Top>, n: nat): map<string, Scope>
    requires n <= |tops|
  {
    if n == 0 then map[]
    else
      var front := Synthesised(tops, n - 1);
      if tops[n - 1].synth.Some? then front[ParallelName(n - 1) := tops[n - 1].synth.value] else front
  }

  function StepsOf(tops: seq<Top>, n: nat): seq<Step>
    requires n <= |tops|
  {
    if n == 0 then [] else StepsOf(tops, n - 1) + [tops[n - 1].step]
  }

  // ---------- whole workflows ----------

  function AdaptedScope(r: Readers, def: WorkflowDef, name: string): Adapted<Scope>
    requires name in def.scopes
  {
    AdaptScope(r, name, def.scopes[name], def.scopes.Keys)
  }

  function AdaptedTops(r: Readers, def: WorkflowDef): Adapted<seq<Top>> {
    Each(Tops(r, def.scopes.Keys), def.steps, |def.steps|)
  }

  /** All top-level steps and all scope bodies can be translated. */
  predicate Acceptable(r: Readers, def: WorkflowDef) {
    AdaptedTops(r, def).Ok? && forall n :: n in def.scopes ==> AdaptedScope(r, def, n).Ok?
  }

  function UserScopes(r: Readers, def: WorkflowDef): map<string, Scope> {
    map n | n in def.scopes && AdaptedScope(r, def, n).Ok? :: AdaptedScope(r, def, n).value
  }

  function Output(r: Readers, def: WorkflowDef): Workflow
    requires Acceptable(r, def)
  {
    EachIs(Tops(r, def.scopes.Keys), def.steps, |def.steps|);
    var tops := AdaptedTops(r, def).value;
    Workflow(def.name, StepsOf(tops, |tops|), UserScopes(r, def) + Synthesised(tops, |tops|), def.env, def.promptsDir)
  }

  method AdaptSteps<T>(f: (nat, StepDef) -> Adapted<T>, steps: seq<StepDef>) returns (result: Adapted<seq<T>>)
    ensures result == Each(f, steps, |steps|)
  {
    var body: seq<T> := [];
    for i := 0 to |steps|
      invariant Each(f, steps, i) == Ok(body)
    {
      match f(i, steps[i]) {
        case Ok(x) =>
          body := body + [x];
        case Err(e) =>
          EachStops(f, steps, i + 1, |steps|);
          return Err(e);
      }
    }
    return Ok(body);
  }

  /** Translates the top-level steps in order, collecting the scopes that parallel steps bring along. */
  method AdaptTopLevel(r: Readers, def: WorkflowDef) returns (result: Adapted<(seq<Step>, map<string, Scope>)>)
    ensures result.Err? ==> AdaptedTops(r, def) == Err(result.error)
    ensures result.Ok? ==>
              && AdaptedTops(r, def).Ok?
              && var tops := AdaptedTops(r, def).value;
                 result.value == (StepsOf(tops, |tops|), Synthesised(tops, |tops|))
  {
    var f := Tops(r, def.scopes.Keys);
    var steps: seq<Step> := [];
    var synth: map<string, Scope> := map[];
    ghost var tops: seq<Top> := [];
    for i := 0 to |def.steps|
      invariant |tops| == i && Each(f, def.steps, i) == Ok(tops)
      invariant steps == StepsOf(tops, i) && synth == Synthesised(tops, i)
    {
      match f(i, def.steps[i]) {
        case Ok(top) =>
          StepsOfPrefix(tops, [top], i);
          tops := tops + [top];
          steps := steps + [top.step];
          if top.synth.Some? {
            synth := synth[ParallelName(i) := top.synth.value];
          }
        case Err(e) =>
          EachStops(f, def.steps, i + 1, |def.steps|);
          return Err(e);
      }
    }
    return Ok((steps, synth));
  }

  method AdaptOneScope(r: Readers, def: WorkflowDef, name: string) returns (result: Adapted<Scope>)
    requires name in def.scopes
    ensures result == AdaptedScope(r, def, name)
  {
    var body := AdaptSteps(Inner(r, name, def.scopes.Keys), def.scopes[name].steps);
    result := if body.Err? then Err(body.error) else Ok(Scope(body.value, def.scopes[name].outputs));
  }

  lemma {:induction false} StepsOfPrefix(tops: seq<Top>, more: seq<Top>, n: nat)
    requires n <= |tops|
    ensures StepsOf(tops + more, n) == StepsOf(tops, n) && Synthesised(tops + more, n) == Synthesised(tops, n)
  {
    if n > 0 {
      StepsOfPrefix(tops, more, n - 1);
    }
  }

  /**
   * The translation of a workflow after its steps inherited the workflow-level settings. Scope bodies come in no
   * particular order, so of several faulty ones any may be reported, but top-level errors come first.
   */
  method Adapt(r: Readers, given: WorkflowDef) returns (result: Adapted<Workflow>)
    ensures var def := WithInheritedTypeConfig(given, r.number);
            && (result.Ok? <==> Acceptable(r, def))
            && (result.Ok? ==> result.value == Output(r, def))
            && (result.Err? && AdaptedTops(r, def).Err? ==> result.error == AdaptedTops(r, def).error)
            && (result.Err? && AdaptedTops(r, def).Ok? ==>
                  exists n :: n in def.scopes && AdaptedScope(r, def, n) == Err(result.error))
  {
    var def := WithInheritedTypeConfig(given, r.number);
    var top := AdaptTopLevel(r, def);
    if top.Err? {
      return Err(top.error);
    }
    var scopes: map<string, Scope> := map[];
    var left := def.scopes.Keys;
    while left != {}
      invariant left <= def.scopes.Keys && scopes.Keys == def.scopes.Keys - left
      invariant forall n :: n in scopes ==> AdaptedScope(r, def, n) == Ok(scopes[n])
      decreases |left|
    {
      var name :| name in left;
      var scope := AdaptOneScope(r, def, name);
      if scope.Err? {
        return Err(scope.error);
      }
      scopes := scopes[name := scope.value];
      left := left - {name};
    }
    assert scopes == UserScopes(r, def);
    result := Ok(Workflow(def.name, top.value.0, scopes + top.value.1, def.env, def.promptsDir));
  }

  // ---------- what an accepted workflow looks like ----------

  /** Each kind carries its own fields over, and no others; an initial value is carried in the form read as JSON. */
  ghost predicate Carries(r: Readers, s: StepDef, step: Step) {
    && step.command == (if s.stepType.Cmd? || s.stepType.Script? then s.run else None)
    && step.prompt == (if s.stepType.Template? || s.stepType.Agent? || s.stepType.Chat? then s.prompt else None)
    && step.condition == (if s.stepType.Gate? then s.condition else None)
    && (step.onPass, step.onFail, step.message) ==
       (if s.stepType.Gate? then (s.onPass, s.onFail, s.message) else (None, None, None))
    && (s.stepType.Call? || s.stepType.Repeat? || s.stepType.Map? ==> step.scope == s.scope)
    && step.items == (if s.stepType.Map? then s.items else None)
    && step.parallel == (if s.stepType.Map? then s.parallel else None)
    && step.maxIterations == (if s.stepType.Repeat? then s.maxIterations else None)
    && step.outputs == (if ContainerKind(s.stepType).Some? then s.outputs else None)
    && (step.initialValue.Some? <==> ContainerKind(s.stepType).Some? && s.initialValue.Some?)
    && (step.initialValue.Some? ==> r.json(s.initialValue.value) == Ok(step.initialValue.value))
    && step.env == s.env
  }

  /** The typed fields that agent and chat steps get from their config; the other kinds have none. */
  function DetailOf(r: Readers, s: StepDef): Result<map<string, Json>, string> {
    match s.stepType
    case Agent => r.agent(s)
    case Chat => r.chat(s)
    case _ => Ok(map[])
  }

  /**
   * A translated step keeps name, kind and fields and has the typed fields of its config; it has a scope exactly when
   * it is a container; gate actions fit its position.
   */
  ghost predicate Faithful(r: Readers, s: StepDef, step: Step, position: StepPosition) {
    && step.name == s.name && step.kind == s.stepType && Carries(r, s, step) && DetailOf(r, s) == Ok(step.detail)
    && (step.scope.Some? <==> ContainerKind(step.kind).Some?)
    && (step.kind.Gate? ==> LegalAction(step.onPass, position) && LegalAction(step.onFail, position))
  }

  /** What a step must bring along to be accepted at a position. */
  predicate StepOk(r: Readers, s: StepDef, scopeNames: set<string>, position: StepPosition) {
    match s.stepType
    case Cmd => s.run.Some?
    case Script => Filled(s.run).Some?
    case Gate => Filled(s.condition).Some? && LegalAction(s.onPass, position) && LegalAction(s.onFail, position)
    case Agent => Filled(s.prompt).Some? && r.agent(s).Ok?
    case Chat => Filled(s.prompt).Some? && r.chat(s).Ok?
    case Template => true
    case Parallel => false
    case _ =>
      && s.scope.Some? && Trim(s.scope.value) != "" && s.scope.value in scopeNames
      && (s.stepType.Map? ==> Filled(s.items).Some?)
      && InitialValueOk(r, s)
  }

  predicate InitialValueOk(r: Readers, s: StepDef) {
    s.initialValue.Some? ==> r.json(s.initialValue.value).Ok?
  }

  /** A top-level parallel step needs a body of plain command, agent and chat steps and an unused scope name. */
  ghost predicate ParallelOk(r: Readers, s: StepDef, i: nat, scopeNames: set<string>) {
    && s.steps.Substeps? && s.steps.body != [] && InitialValueOk(r, s) && ParallelName(i) !in scopeNames
    && forall k :: 0 <= k < |s.steps.body| ==>
         var inner := s.steps.body[k];
         (inner.stepType.Cmd? || inner.stepType.Agent? || inner.stepType.Chat?) && StepOk(r, inner, {}, Scoped)
  }

  lemma {:induction false} StepOkIff(r: Readers, s: StepDef, scopeNames: set<string>, position: StepPosition)
    ensures AdaptStep(r, s, scopeNames, position).Ok? <==> StepOk(r, s, scopeNames, position)
  {
  }

  lemma {:induction false} ParallelOkIff(r: Readers, s: StepDef, i: nat, scopeNames: set<string>)
    requires s.stepType.Parallel?
    ensures AdaptTop(r, s, i, scopeNames).Ok? <==> ParallelOk(r, s, i, scopeNames)
  {
    if s.steps.Substeps? {
      var f := Sub(r, s.name, ParallelName(i));
      var body := s.steps.body;
      EachIs(f, body, |body|);
      forall k | 0 <= k < |body|
        ensures f(k, body[k]).Ok? <==>
                (body[k].stepType.Cmd? || body[k].stepType.Agent? || body[k].stepType.Chat?) &&
                  StepOk(r, body[k], {}, Scoped)
      {
        StepOkIff(r, body[k], {}, Scoped);
      }
    }
  }

  /** A definition is accepted exactly when all its steps are, each at its position. */
  lemma {:induction false} AcceptableIff(r: Readers, def: WorkflowDef)
    ensures Acceptable(r, def) <==>
            && (forall i :: 0 <= i < |def.steps| ==>
                  if def.steps[i].stepType.Parallel? then ParallelOk(r, def.steps[i], i, def.scopes.Keys)
                  else StepOk(r, def.steps[i], def.scopes.Keys, TopLevel))
            && (forall n :: n in def.scopes ==> BodyOk(r, def.scopes[n].steps, def.scopes.Keys))
  {
    var f := Tops(r, def.scopes.Keys);
    EachIs(f, def.steps, |def.steps|);
    forall i | 0 <= i < |def.steps|
      ensures f(i, def.steps[i]).Ok? <==>
              if def.steps[i].stepType.Parallel? then ParallelOk(r, def.steps[i], i, def.scopes.Keys)
              else StepOk(r, def.steps[i], def.scopes.Keys, TopLevel)
    {
      if def.steps[i].stepType.Parallel? {
        ParallelOkIff(r, def.steps[i], i, def.scopes.Keys);
      } else {
        StepOkIff(r, def.steps[i], def.scopes.Keys, TopLevel);
      }
    }
    forall n | n in def.scopes
      ensures AdaptedScope(r, def, n).Ok? <==> BodyOk(r, def.scopes[n].steps, def.scopes.Keys)
    {
      BodyOkIff(r, n, def.scopes[n], def.scopes.Keys);
    }
  }

  /** A user scope needs a body of plain command, gate, agent and chat steps. */
  ghost predicate BodyOk(r: Readers, steps: seq<StepDef>, scopeNames: set<string>) {
    forall k :: 0 <= k < |steps| ==>
      ScopeBodyKindSupported(steps[k].stepType) && StepOk(r, steps[k], scopeNames, Scoped)
  }

  lemma {:induction false} BodyOkIff(r: Readers, name: string, scope: ScopeDef, scopeNames: set<string>)
    ensures AdaptScope(r, name, scope, scopeNames).Ok? <==> BodyOk(r, scope.steps, scopeNames)
  {
    var f := Inner(r, name, scopeNames);
    EachIs(f, scope.steps, |scope.steps|);
    forall k | 0 <= k < |scope.steps|
      ensures f(k, scope.steps[k]).Ok? <==>
              ScopeBodyKindSupported(scope.steps[k].stepType) && StepOk(r, scope.steps[k], scopeNames, Scoped)
    {
      StepOkIff(r, scope.steps[k], scopeNames, Scoped);
    }
  }

  lemma {:induction false} StepIsFaithful(r: Readers, s: StepDef, scopeNames: set<string>, position: StepPosition)
    requires AdaptStep(r, s, scopeNames, position).Ok?
    ensures var step := AdaptStep(r, s, scopeNames, position).value;
            Faithful(r, s, step, position) && (step.scope.Some? ==> step.scope.value in scopeNames)
  {
    if ContainerKind(s.stepType).Some? {
      ContainerIsFaithful(r, s, scopeNames);
    }
  }

  lemma {:induction false} ContainerIsFaithful(r: Readers, s: StepDef, scopeNames: set<string>)
    requires ContainerKind(s.stepType).Some? && AdaptContainer(r, s, scopeNames).Ok?
    ensures var step := AdaptContainer(r, s, scopeNames).value;
            && step.name == s.name && step.kind == s.stepType && step.scope.Some? && step.scope.value in scopeNames
            && Carries(r, s, step) && DetailOf(r, s) == Ok(step.detail)
  {
  }

  /** A scope body made from a list of steps: faithful, and without containers. */
  ghost predicate FlatBody(r: Readers, steps: seq<StepDef>, body: seq<Step>) {
    && |body| == |steps|
    && forall k :: 0 <= k < |body| ==> Faithful(r, steps[k], body[k], Scoped) && body[k].scope.None?
  }

  lemma {:induction false} UserScopeIsFlat(r: Readers, def: WorkflowDef, n: string)
    requires n in def.scopes && AdaptedScope(r, def, n).Ok?
    ensures FlatBody(r, def.scopes[n].steps, AdaptedScope(r, def, n).value.steps)
    ensures forall k :: 0 <= k < |def.scopes[n].steps| ==> ContainerKind(def.scopes[n].steps[k].stepType).None?
  {
    var steps := def.scopes[n].steps;
    var f := Inner(r, n, def.scopes.Keys);
    EachIs(f, steps, |steps|);
    forall k | 0 <= k < |steps|
      ensures ContainerKind(steps[k].stepType).None? && Faithful(r, steps[k], Each(f, steps, |steps|).value[k], Scoped)
    {
      assert f(k, steps[k]).Ok?;
      StepIsFaithful(r, steps[k], def.scopes.Keys, Scoped);
    }
  }

  lemma {:induction false} ParallelIsFlat(r: Readers, s: StepDef, i: nat)
    requires s.stepType.Parallel? && AdaptParallel(r, s, i).Ok?
    ensures s.steps.Substeps?
    ensures var top := AdaptParallel(r, s, i).value;
            && Faithful(r, s, top.step, TopLevel) && top.step.scope == Some(ParallelName(i))
            && top.synth.Some? && FlatBody(r, s.steps.body, top.synth.value.steps)
  {
    var steps := s.steps.body;
    var f := Sub(r, s.name, ParallelName(i));
    EachIs(f, steps, |steps|);
    forall k | 0 <= k < |steps| ensures Faithful(r, steps[k], Each(f, steps, |steps|).value[k], Scoped) {
      assert f(k, steps[k]).Ok?;
      StepIsFaithful(r, steps[k], {}, Scoped);
    }
  }

  lemma {:induction false} TopIsFaithful(r: Readers, s: StepDef, i: nat, scopeNames: set<string>)
    requires AdaptTop(r, s, i, scopeNames).Ok?
    ensures var top := AdaptTop(r, s, i, scopeNames).value;
            && Faithful(r, s, top.step, TopLevel)
            && (top.synth.Some? <==> s.stepType.Parallel?)
            && (top.synth.Some? ==>
                  && ParallelName(i) !in scopeNames && top.step.scope == Some(ParallelName(i))
                  && s.steps.Substeps? && FlatBody(r, s.steps.body, top.synth.value.steps))
            && (top.synth.None? && top.step.scope.Some? ==> top.step.scope.value in scopeNames)
  {
    if s.stepType.Parallel? {
      ParallelIsFlat(r, s, i);
    } else {
      StepIsFaithful(r, s, scopeNames, TopLevel);
    }
  }

  lemma {:induction false} StepsOfAt(tops: seq<Top>, n: nat)
    requires n <= |tops|
    ensures |StepsOf(tops, n)| == n && forall k :: 0 <= k < n ==> StepsOf(tops, n)[k] == tops[k].step
  {
    if n > 0 {
      StepsOfAt(tops, n - 1);
    }
  }

  lemma {:induction false} ParallelNameInjective(i: nat, j: nat)
    requires ParallelName(i) == ParallelName(j)
    ensures i == j
  {
    assert Decimal(i) == ParallelName(i)[11..] == ParallelName(j)[11..] == Decimal(j);
    DecimalInjective(i, j);
  }

  lemma {:induction false} SynthesisedOnly(tops: seq<Top>, n: nat)
    requires n <= |tops|
    ensures forall name :: name in Synthesised(tops, n) ==>
            exists i :: 0 <= i < n && tops[i].synth.Some? && name == ParallelName(i)
  {
    if n > 0 {
      SynthesisedOnly(tops, n - 1);
    }
  }

  lemma {:induction false} NextNameIsNew(tops: seq<Top>, n: nat)
    requires n <= |tops|
    ensures ParallelName(n) !in Synthesised(tops, n)
  {
    SynthesisedOnly(tops, n);
    if i :| 0 <= i < n && ParallelName(i) == ParallelName(n) {
      ParallelNameInjective(i, n);
    }
  }

  lemma {:induction false} SynthesisedCount(tops: seq<Top>, n: nat)
    requires n <= |tops|
    ensures |Synthesised(tops, n)| == ParallelCount(tops, n)
  {
    if n > 0 {
      SynthesisedCount(tops, n - 1);
      NextNameIsNew(tops, n - 1);
      var front := Synthesised(tops, n - 1);
      assert tops[n - 1].synth.Some? ==> Synthesised(tops, n).Keys == front.Keys + {ParallelName(n - 1)};
    }
  }

  /** Each scope brought along is found under the name of its own step. */
  lemma {:induction false} SynthesisedAt(tops: seq<Top>, n: nat, i: nat)
    requires i < n <= |tops| && tops[i].synth.Some?
    ensures Lookup(Synthesised(tops, n), ParallelName(i)) == tops[i].synth
  {
    if i < n - 1 {
      SynthesisedAt(tops, n - 1, i);
      if ParallelName(i) == ParallelName(n - 1) {
        ParallelNameInjective(i, n - 1);
      }
    }
  }

  function ParallelCount(tops: seq<Top>, n: nat): nat
    requires n <= |tops|
  {
    if n == 0 then 0 else ParallelCount(tops, n - 1) + if tops[n - 1].synth.Some? then 1 else 0
  }

  /** Top-level names, kinds and order are kept, and every container's scope exists in the result. */
  lemma {:induction false} TopLevelKept(r: Readers, def: WorkflowDef)
    requires Acceptable(r, def)
    ensures var wf := Output(r, def);
            && |wf.steps| == |def.steps|
            && forall k :: 0 <= k < |wf.steps| ==>
                 && Faithful(r, def.steps[k], wf.steps[k], TopLevel)
                 && (wf.steps[k].scope.Some? ==> wf.steps[k].scope.value in wf.scopes)
  {
    var f := Tops(r, def.scopes.Keys);
    EachIs(f, def.steps, |def.steps|);
    var tops := AdaptedTops(r, def).value;
    StepsOfAt(tops, |tops|);
    forall k | 0 <= k < |tops|
      ensures Faithful(r, def.steps[k], tops[k].step, TopLevel)
      ensures tops[k].step.scope.Some? ==> tops[k].step.scope.value in Output(r, def).scopes
    {
      assert f(k, def.steps[k]) == Ok(tops[k]);
      TopIsFaithful(r, def.steps[k], k, def.scopes.Keys);
      if tops[k].synth.Some? {
        SynthesisedAt(tops, |tops|, k);
      }
    }
  }

  predicate IsParallelAt(steps: seq<StepDef>, i: nat) {
    i < |steps| && steps[i].stepType.Parallel?
  }

  function ParallelSteps(steps: seq<StepDef>): nat {
    if steps == [] then 0 else ParallelSteps(steps[..|steps| - 1]) + if Last(steps).stepType.Parallel? then 1 else 0
  }

  lemma {:induction false} TopsAt(r: Readers, def: WorkflowDef, k: nat)
    requires AdaptedTops(r, def).Ok? && k < |def.steps|
    ensures |AdaptedTops(r, def).value| == |def.steps|
    ensures AdaptTop(r, def.steps[k], k, def.scopes.Keys) == Ok(AdaptedTops(r, def).value[k])
  {
    var f := Tops(r, def.scopes.Keys);
    EachIs(f, def.steps, |def.steps|);
    assert f(k, def.steps[k]) == Ok(AdaptedTops(r, def).value[k]);
  }

  lemma {:induction false} CountsAgree(r: Readers, def: WorkflowDef, n: nat)
    requires AdaptedTops(r, def).Ok? && n <= |def.steps| == |AdaptedTops(r, def).value|
    ensures ParallelCount(AdaptedTops(r, def).value, n) == ParallelSteps(def.steps[..n])
  {
    if n > 0 {
      CountsAgree(r, def, n - 1);
      assert def.steps[..n][..n - 1] == def.steps[..n - 1];
      TopsAt(r, def, n - 1);
      TopIsFaithful(r, def.steps[n - 1], n - 1, def.scopes.Keys);
    }
  }

  /** Each parallel step got a scope of its own name, which no user scope has, holding its flat body. */
  lemma {:induction false} ParallelScope(r: Readers, def: WorkflowDef, i: nat)
    requires Acceptable(r, def) && IsParallelAt(def.steps, i)
    ensures var wf := Output(r, def);
            && |wf.steps| == |def.steps| && wf.steps[i].scope == Some(ParallelName(i))
            && ParallelName(i) !in def.scopes && ParallelName(i) in wf.scopes
            && def.steps[i].steps.Substeps? && FlatBody(r, def.steps[i].steps.body, wf.scopes[ParallelName(i)].steps)
  {
    var tops := AdaptedTops(r, def).value;
    TopsAt(r, def, i);
    TopIsFaithful(r, def.steps[i], i, def.scopes.Keys);
    StepsOfAt(tops, |tops|);
    SynthesisedAt(tops, |tops|, i);
  }

  /** User scopes are translated under their own names. */
  lemma {:induction false} UserScope(r: Readers, def: WorkflowDef, n: string)
    requires Acceptable(r, def) && n in def.scopes
    ensures n in Output(r, def).scopes && FlatBody(r, def.scopes[n].steps, Output(r, def).scopes[n].steps)
    ensures Output(r, def).scopes[n].outputs == def.scopes[n].outputs
  {
    var tops := AdaptedTops(r, def).value;
    UserScopeIsFlat(r, def, n);
    SynthesisedNotUser(r, def, n);
  }

  lemma {:induction false} SynthesisedNotUser(r: Readers, def: WorkflowDef, n: string)
    requires AdaptedTops(r, def).Ok? && n in def.scopes
    ensures var tops := AdaptedTops(r, def).value; n !in Synthesised(tops, |tops|)
  {
    var tops := AdaptedTops(r, def).value;
    SynthesisedOnly(tops, |tops|);
    EachIs(Tops(r, def.scopes.Keys), def.steps, |def.steps|);
    if i :| 0 <= i < |tops| && tops[i].synth.Some? && n == ParallelName(i) {
      TopsAt(r, def, i);
      TopIsFaithful(r, def.steps[i], i, def.scopes.Keys);
      assert false;
    }
  }

  lemma {:induction false} SynthesisedIsParallel(r: Readers, def: WorkflowDef, n: string)
    requires AdaptedTops(r, def).Ok? && var tops := AdaptedTops(r, def).value; n in Synthesised(tops, |tops|)
    ensures exists i :: IsParallelAt(def.steps, i) && n == ParallelName(i)
  {
    var tops := AdaptedTops(r, def).value;
    SynthesisedOnly(tops, |tops|);
    EachIs(Tops(r, def.scopes.Keys), def.steps, |def.steps|);
    var i :| 0 <= i < |tops| && tops[i].synth.Some? && n == ParallelName(i);
    TopsAt(r, def, i);
    TopIsFaithful(r, def.steps[i], i, def.scopes.Keys);
    assert IsParallelAt(def.steps, i);
  }

  /** The number of scopes: none is lost and none counted twice. */
  lemma {:induction false} ScopeCount(r: Readers, def: WorkflowDef)
    requires Acceptable(r, def)
    ensures |Output(r, def).scopes| == |def.scopes| + ParallelSteps(def.steps)
  {
    var tops := AdaptedTops(r, def).value;
    EachIs(Tops(r, def.scopes.Keys), def.steps, |def.steps|);
    SynthesisedCount(tops, |tops|);
    CountsAgree(r, def, |def.steps|);
    assert def.steps[..|def.steps|] == def.steps;
    forall n | n in def.scopes ensures n !in Synthesised(tops, |tops|) {
      SynthesisedNotUser(r, def, n);
    }
    assert UserScopes(r, def).Keys == def.scopes.Keys;
    UnionSize(UserScopes(r, def), Synthesised(tops, |tops|));
  }

  lemma {:induction false} UnionSize(a: map<string, Scope>, b: map<string, Scope>)
    requires forall n :: n in a ==> n !in b
    ensures |a + b| == |a| + |b|
  {
    assert (a + b).Keys == a.Keys + b.Keys && a.Keys !! b.Keys;
  }

  /** The scopes of the result: the user's and one per parallel step, all different. */
  lemma {:induction false} ScopesExactly(r: Readers, def: WorkflowDef)
    requires Acceptable(r, def)
    ensures var wf := Output(r, def);
            && (forall n :: n in wf.scopes <==>
                  n in def.scopes || exists i :: IsParallelAt(def.steps, i) && n == ParallelName(i))
            && (forall i :: IsParallelAt(def.steps, i) ==> ParallelName(i) !in def.scopes)
            && |wf.scopes| == |def.scopes| + ParallelSteps(def.steps)
  {
    var wf := Output(r, def);
    var tops := AdaptedTops(r, def).value;
    ScopeCount(r, def);
    forall i | IsParallelAt(def.steps, i) ensures ParallelName(i) !in def.scopes && ParallelName(i) in wf.scopes {
      ParallelScope(r, def, i);
    }
    forall n | n in def.scopes ensures n in wf.scopes {
      UserScope(r, def, n);
    }
    forall n | n in wf.scopes && n !in def.scopes
      ensures exists i :: IsParallelAt(def.steps, i) && n == ParallelName(i)
    {
      SynthesisedIsParallel(r, def, n);
    }
  }

  /** No scope of the result refers to another scope, so the accepted workflow is one level deep. */
  lemma {:induction false} DepthOne(r: Readers, def: WorkflowDef, n: string)
    requires Acceptable(r, def) && n in Output(r, def).scopes
    ensures forall k :: 0 <= k < |Output(r, def).scopes[n].steps| ==>
              var step := Output(r, def).scopes[n].steps[k]; step.scope.None? && ContainerKind(step.kind).None?
  {
    ScopesExactly(r, def);
    if n in def.scopes {
      UserScope(r, def, n);
    } else {
      var i :| IsParallelAt(def.steps, i) && n == ParallelName(i);
      ParallelScope(r, def, i);
    }
  }

  lemma {:induction false} NoRefs(steps: seq<StepDef>)
    requires forall k :: 0 <= k < |steps| ==> ContainerKind(steps[k].stepType).None?
    ensures Refs(steps) == []
    decreases |steps|
  {
    if steps != [] {
      NoRefs(steps[1..]);
    }
  }

  /** Only workflows that the validator finds free of circular references are accepted. */
  lemma {:induction false} AcceptedIsAcyclic(r: Readers, def: WorkflowDef)
    requires Acceptable(r, def)
    ensures !Cyclic(def.scopes)
  {
    forall c ensures !ClosedWalk(def.scopes, c) {
      if ClosedWalk(def.scopes, c) {
        assert Edge(def.scopes, c[0], c[1]);
        UserScopeIsFlat(r, def, c[0]);
        NoRefs(def.scopes[c[0]].steps);
      }
    }
  }

  // ---------- which errors are reported ----------

  /** The name of a container's kind. */
  ghost predicate ContainerNamed(t: StepType, kind: string) {
    match t
    case Call => kind == "call"
    case Repeat => kind == "repeat"
    case Map => kind == "map"
    case Parallel => kind == "parallel"
    case _ => false
  }

  /** The action written in a field, without white space around it, is none of the legal ones. */
  ghost predicate Refused(s: StepDef, field: string, action: string, legal: seq<string>) {
    && action !in legal
    && ((field == "on_pass" && s.onPass.Some? && action == Trim(s.onPass.value)) ||
        (field == "on_fail" && s.onFail.Some? && action == Trim(s.onFail.value)))
  }

  /** What an error says is true of this step, at this position. */
  ghost predicate TrueOf(r: Readers, s: StepDef, scopeNames: set<string>, position: StepPosition, e: AdapterError) {
    match e
    case CmdMissingRun(name) => name == s.name && s.stepType.Cmd? && s.run.None?
    case ScriptMissingRun(name) => name == s.name && s.stepType.Script? && NoText(s.run)
    case AgentMissingPrompt(name) => name == s.name && s.stepType.Agent? && NoText(s.prompt)
    case ChatMissingPrompt(name) => name == s.name && s.stepType.Chat? && NoText(s.prompt)
    case ConfigRejected(name, reason) =>
      name == s.name && ((s.stepType.Agent? && r.agent(s) == Err(reason)) ||
                         (s.stepType.Chat? && r.chat(s) == Err(reason)))
    case UnsupportedStepType(t) => t == s.stepType == Parallel
    case _ => TrueOfGate(s, position, e) || (!s.stepType.Parallel? && TrueOfContainer(r, s, scopeNames, e))
  }

  ghost predicate TrueOfGate(s: StepDef, position: StepPosition, e: AdapterError) {
    s.stepType.Gate? &&
    match e
    case GateMissingCondition(name) => name == s.name && NoText(s.condition)
    case TopLevelGateUnsupportedAction(name, field, action) =>
      name == s.name && position.TopLevel? && Refused(s, field, action, ["", "continue", "fail"])
    case ScopedGateUnsupportedAction(name, field, action) =>
      name == s.name && position.Scoped? && Refused(s, field, action, ["", "continue", "fail", "skip", "break"])
    case _ => false
  }

  ghost predicate TrueOfContainer(r: Readers, s: StepDef, scopeNames: set<string>, e: AdapterError) {
    match e
    case ContainerMissingScope(name, kind) => name == s.name && ContainerNamed(s.stepType, kind) && NoText(s.scope)
    case UnknownScope(name, kind, scope) =>
      && name == s.name && ContainerNamed(s.stepType, kind)
      && s.scope == Some(scope) && !NoText(s.scope) && scope !in scopeNames
    case MapMissingItems(name) => name == s.name && s.stepType.Map? && NoText(s.items)
    case InitialValueNotJson(name, reason) =>
      && name == s.name && (exists kind :: ContainerNamed(s.stepType, kind))
      && s.initialValue.Some? && r.json(s.initialValue.value) == Err(reason)
    case _ => false
  }

  lemma {:induction false} FilledIff(text: Option<string>)
    ensures Filled(text).None? <==> NoText(text)
  {
    if text.Some? {
      TrimEmptyIff(text.value);
    }
  }

  lemma {:induction false} GateError(r: Readers, s: StepDef, scopeNames: set<string>, position: StepPosition)
    requires s.stepType.Gate?
    ensures match AdaptStep(r, s, scopeNames, position)
            case Ok(_) => forall e :: !TrueOfGate(s, position, e)
            case Err(e) => TrueOfGate(s, position, e)
  {
    FilledIff(s.condition);
  }

  lemma {:induction false} ContainerError(r: Readers, s: StepDef, scopeNames: set<string>, position: StepPosition)
    requires s.stepType.Call? || s.stepType.Repeat? || s.stepType.Map?
    ensures match AdaptStep(r, s, scopeNames, position)
            case Ok(_) => forall e :: !TrueOfContainer(r, s, scopeNames, e)
            case Err(e) => TrueOfContainer(r, s, scopeNames, e)
  {
    FilledIff(s.scope);
    FilledIff(s.items);
    assert ContainerNamed(s.stepType, ContainerKind(s.stepType).value);
  }

  lemma {:induction false} PlainError(r: Readers, s: StepDef, scopeNames: set<string>, position: StepPosition)
    requires !s.stepType.Gate? && !s.stepType.Call? && !s.stepType.Repeat? && !s.stepType.Map?
    ensures match AdaptStep(r, s, scopeNames, position)
            case Ok(_) => forall e :: !TrueOf(r, s, scopeNames, position, e)
            case Err(e) => TrueOf(r, s, scopeNames, position, e)
  {
    FilledIff(s.run);
    FilledIff(s.prompt);
  }

  /** A step is refused exactly when there is a true error, and one that is true is reported. */
  lemma {:induction false} StepErrorIs(r: Readers, s: StepDef, scopeNames: set<string>, position: StepPosition)
    ensures match AdaptStep(r, s, scopeNames, position)
            case Ok(_) => forall e :: !TrueOf(r, s, scopeNames, position, e)
            case Err(e) => TrueOf(r, s, scopeNames, position, e)
  {
    match s.stepType {
      case Gate => GateError(r, s, scopeNames, position);
      case Call => ContainerError(r, s, scopeNames, position);
      case Repeat => ContainerError(r, s, scopeNames, position);
      case Map => ContainerError(r, s, scopeNames, position);
      case _ => PlainError(r, s, scopeNames, position);
    }
  }

  /** The error of a list is that of its first step that cannot be translated. */
  lemma {:induction false} EachFirst<T>(f: (nat, StepDef) -> Adapted<T>, steps: seq<StepDef>, n: nat) returns (k: nat)
    requires n <= |steps| && Each(f, steps, n).Err?
    ensures k < n && f(k, steps[k]) == Err(Each(f, steps, n).error) && forall j: nat :: j < k ==> f(j, steps[j]).Ok?
  {
    if Each(f, steps, n - 1).Err? {
      k := EachFirst(f, steps, n - 1);
    } else {
      k := n - 1;
      EachIs(f, steps, n - 1);
    }
  }

  /** What an error says is true of this step of a user scope. */
  ghost predicate TrueOfInner(r: Readers, scope: string, s: StepDef, scopeNames: set<string>, e: AdapterError) {
    match e
    case NestedScopesNotSupported(outer, inner, kind) =>
      outer == scope && inner == s.name && ContainerNamed(s.stepType, kind)
    case ScopedStepUnsupported(outer, inner, t) =>
      outer == scope && inner == s.name && t == s.stepType && (t.Template? || t.Script?)
    case _ => (s.stepType.Cmd? || s.stepType.Gate? || s.stepType.Agent? || s.stepType.Chat?) &&
              TrueOf(r, s, scopeNames, Scoped, e)
  }

  /** What an error says is true of this step of a parallel body. */
  ghost predicate TrueOfSub(r: Readers, parent: string, scope: string, s: StepDef, e: AdapterError) {
    match e
    case NestedScopesNotSupported(outer, inner, kind) =>
      outer == scope && inner == s.name && ContainerNamed(s.stepType, kind)
    case ParallelSubStepUnsupported(outer, inner, t) =>
      outer == parent && inner == s.name && t == s.stepType && (t.Gate? || t.Template? || t.Script?)
    case _ => (s.stepType.Cmd? || s.stepType.Agent? || s.stepType.Chat?) && TrueOf(r, s, {}, Scoped, e)
  }

  lemma {:induction false} InnerErrorIs(r: Readers, scope: string, s: StepDef, scopeNames: set<string>)
    ensures match AdaptInner(r, scope, s, scopeNames)
            case Ok(_) => forall e :: !TrueOfInner(r, scope, s, scopeNames, e)
            case Err(e) => TrueOfInner(r, scope, s, scopeNames, e)
  {
    StepErrorIs(r, s, scopeNames, Scoped);
  }

  lemma {:induction false} SubErrorIs(r: Readers, parent: string, scope: string, s: StepDef)
    ensures match AdaptSub(r, parent, scope, s)
            case Ok(_) => forall e :: !TrueOfSub(r, parent, scope, s, e)
            case Err(e) => TrueOfSub(r, parent, scope, s, e)
  {
    StepErrorIs(r, s, {}, Scoped);
  }

  /** What an error says is true of this parallel step, the `i`th of the workflow. */
  ghost predicate TrueOfParallel(r: Readers, s: StepDef, i: nat, scopeNames: set<string>, e: AdapterError) {
    match e
    case ParallelMissingSteps(name) => name == s.name && (s.steps.NoSubsteps? || s.steps.body == [])
    case InitialValueNotJson(name, reason) =>
      name == s.name && s.initialValue.Some? && r.json(s.initialValue.value) == Err(reason)
    case ParallelSynthScopeCollision(name, scope) =>
      name == s.name && scope == "__parallel_" + Decimal(i) && scope in scopeNames
    case _ => false
  }

  /** Some step of the body has this error, and those in front of it have none. */
  ghost predicate FirstInBody(r: Readers, s: StepDef, i: nat, k: nat, e: AdapterError) {
    && s.steps.Substeps? && k < |s.steps.body|
    && TrueOfSub(r, s.name, "__parallel_" + Decimal(i), s.steps.body[k], e)
    && forall j: nat, e' :: j < k ==> !TrueOfSub(r, s.name, "__parallel_" + Decimal(i), s.steps.body[j], e')
  }

  lemma {:induction false} ParallelErrorIs(r: Readers, s: StepDef, i: nat, scopeNames: set<string>)
    requires s.stepType.Parallel? && AdaptTop(r, s, i, scopeNames).Err?
    ensures var e := AdaptTop(r, s, i, scopeNames).error;
            TrueOfParallel(r, s, i, scopeNames, e) || exists k: nat :: FirstInBody(r, s, i, k, e)
  {
    var e := AdaptTop(r, s, i, scopeNames).error;
    if s.steps.Substeps? && s.steps.body != [] {
      var f, body := Sub(r, s.name, ParallelName(i)), s.steps.body;
      if Each(f, body, |body|).Err? {
        var k := EachFirst(f, body, |body|);
        SubErrorIs(r, s.name, ParallelName(i), body[k]);
        forall j: nat, e' | j < k ensures !TrueOfSub(r, s.name, ParallelName(i), body[j], e') {
          assert f(j, body[j]).Ok?;
          SubErrorIs(r, s.name, ParallelName(i), body[j]);
        }
        assert FirstInBody(r, s, i, k, e);
      }
    }
  }

  /** A top-level error is that of the first step that is not acceptable, and true of it. */
  lemma {:induction false} TopErrorIs(r: Readers, def: WorkflowDef) returns (k: nat)
    requires AdaptedTops(r, def).Err?
    ensures k < |def.steps|
    ensures var e, names := AdaptedTops(r, def).error, def.scopes.Keys;
            && (if def.steps[k].stepType.Parallel? then
                  TrueOfParallel(r, def.steps[k], k, names, e) || exists j: nat :: FirstInBody(r, def.steps[k], k, j, e)
                else TrueOf(r, def.steps[k], names, TopLevel, e))
            && forall j: nat :: j < k ==>
                 if def.steps[j].stepType.Parallel? then ParallelOk(r, def.steps[j], j, names)
                 else StepOk(r, def.steps[j], names, TopLevel)
  {
    var f := Tops(r, def.scopes.Keys);
    k := EachFirst(f, def.steps, |def.steps|);
    if def.steps[k].stepType.Parallel? {
      ParallelErrorIs(r, def.steps[k], k, def.scopes.Keys);
    } else {
      StepErrorIs(r, def.steps[k], def.scopes.Keys, TopLevel);
    }
    forall j: nat | j < k
      ensures if def.steps[j].stepType.Parallel? then ParallelOk(r, def.steps[j], j, def.scopes.Keys)
              else StepOk(r, def.steps[j], def.scopes.Keys, TopLevel)
    {
      assert f(j, def.steps[j]).Ok?;
      if def.steps[j].stepType.Parallel? {
        ParallelOkIff(r, def.steps[j], j, def.scopes.Keys);
      } else {
        StepOkIff(r, def.steps[j], def.scopes.Keys, TopLevel);
      }
    }
  }

  /** The same for the body of a user scope. */
  lemma {:induction false} ScopeErrorIs(r: Readers, def: WorkflowDef, n: string) returns (k: nat)
    requires n in def.scopes && AdaptedScope(r, def, n).Err?
    ensures k < |def.scopes[n].steps|
    ensures TrueOfInner(r, n, def.scopes[n].steps[k], def.scopes.Keys, AdaptedScope(r, def, n).error)
    ensures forall j: nat, e :: j < k ==> !TrueOfInner(r, n, def.scopes[n].steps[j], def.scopes.Keys, e)
  {
    var f, steps := Inner(r, n, def.scopes.Keys), def.scopes[n].steps;
    k := EachFirst(f, steps, |steps|);
    InnerErrorIs(r, n, steps[k], def.scopes.Keys);
    forall j: nat, e | j < k ensures !TrueOfInner(r, n, steps[j], def.scopes.Keys, e) {
      assert f(j, steps[j]).Ok?;
      InnerErrorIs(r, n, steps[j], def.scopes.Keys);
    }
  }

  // ---------- back to the given definition ----------

  lemma {:induction false} SameRefs(a: seq<StepDef>, b: seq<StepDef>)
    requires SameStepsButConfig(a, b)
    ensures Refs(a) == Refs(b) && ParallelSteps(a) == ParallelSteps(b)
    ensures forall i: nat :: IsParallelAt(a, i) <==> IsParallelAt(b, i)
    decreases |b|
  {
    if b != [] {
      var n := |b| - 1;
      SameRefsOnly(a, b);
      SameRefs(a[..n], b[..n]);
      assert SameButConfig(a[n], b[n]);
      assert forall i: nat :: i < |b| ==> SameButConfig(a[i], b[i]);
    }
  }

  lemma {:induction false} SameRefsOnly(a: seq<StepDef>, b: seq<StepDef>)
    requires SameStepsButConfig(a, b)
    ensures Refs(a) == Refs(b)
    decreases |b|
  {
    if b != [] {
      assert SameButConfig(a[0], b[0]);
      SameRefsOnly(a[1..], b[1..]);
    }
  }

  lemma {:induction false} SameCycles(a: WorkflowDef, b: WorkflowDef)
    requires SameShape(a, b)
    ensures Cyclic(a.scopes) <==> Cyclic(b.scopes)
  {
    forall n | n in b.scopes ensures Refs(a.scopes[n].steps) == Refs(b.scopes[n].steps) {
      SameRefs(a.scopes[n].steps, b.scopes[n].steps);
    }
    assert forall x, y :: Edge(a.scopes, x, y) <==> Edge(b.scopes, x, y);
    forall c ensures ClosedWalk(a.scopes, c) <==> ClosedWalk(b.scopes, c) {
    }
  }

  lemma {:induction false} CarriesSame(r: Readers, a: StepDef, b: StepDef, step: Step)
    requires SameButConfig(a, b) && Carries(r, a, step)
    ensures Carries(r, b, step)
  {
    assert a.(config := b.config, steps := b.steps) == b;
  }

  /** Name, kind and fields of each definition, in order. */
  ghost predicate CarriesAll(r: Readers, steps: seq<StepDef>, result: seq<Step>) {
    && |result| == |steps|
    && forall k :: 0 <= k < |steps| ==>
         result[k].name == steps[k].name && result[k].kind == steps[k].stepType && Carries(r, steps[k], result[k])
  }

  lemma {:induction false} CarriesAllSame(r: Readers, a: seq<StepDef>, b: seq<StepDef>, result: seq<Step>)
    requires SameStepsButConfig(a, b) && CarriesAll(r, a, result)
    ensures CarriesAll(r, b, result)
  {
    forall k | 0 <= k < |b|
      ensures result[k].name == b[k].name && result[k].kind == b[k].stepType && Carries(r, b[k], result[k])
    {
      assert SameButConfig(a[k], b[k]);
      CarriesSame(r, a[k], b[k], result[k]);
    }
  }

  /** The typed fields of a step were read from its config as completed from the workflow-level settings. */
  ghost predicate ReadFrom(r: Readers, l: Layer, given: StepDef, step: Step) {
    exists s :: SameButConfig(s, given) && TakesOver(given, l, s.config) && DetailOf(r, s) == Ok(step.detail)
  }

  ghost predicate AllReadFrom(r: Readers, l: Layer, given: seq<StepDef>, result: seq<Step>) {
    |result| == |given| && forall k :: 0 <= k < |given| ==> ReadFrom(r, l, given[k], result[k])
  }

  lemma {:induction false} ReadFromAll(r: Readers, l: Layer, given: seq<StepDef>, def: seq<StepDef>, result: seq<Step>)
    requires SameStepsButConfig(def, given) && AllTakeOver(given, l, def) && |result| == |def|
    requires forall k :: 0 <= k < |def| ==> DetailOf(r, def[k]) == Ok(result[k].detail)
    ensures AllReadFrom(r, l, given, result)
  {
    forall k | 0 <= k < |given| ensures ReadFrom(r, l, given[k], result[k]) {
      assert SameButConfig(def[k], given[k]) && StepTakesOver(given[k], l, def[k]);
    }
  }

  /** So it is for every step of an accepted definition: at the top, in user scopes and in parallel bodies. */
  lemma {:induction false} GivenIsRead(r: Readers, given: WorkflowDef)
    requires Acceptable(r, WithInheritedTypeConfig(given, r.number))
    ensures var wf := Output(r, WithInheritedTypeConfig(given, r.number));
            var l := Layer(given.chatConfig, given.agentConfig, r.number);
            && AllReadFrom(r, l, given.steps, wf.steps)
            && (forall n :: n in given.scopes ==>
                  n in wf.scopes && AllReadFrom(r, l, given.scopes[n].steps, wf.scopes[n].steps))
            && forall i: nat :: IsParallelAt(given.steps, i) ==>
                 && given.steps[i].steps.Substeps? && ParallelName(i) in wf.scopes
                 && AllReadFrom(r, l, given.steps[i].steps.body, wf.scopes[ParallelName(i)].steps)
  {
    var def := WithInheritedTypeConfig(given, r.number);
    var l := Layer(given.chatConfig, given.agentConfig, r.number);
    var wf := Output(r, def);
    PassKeepsShape(given, r.number);
    PassTakesOver(given, r.number);
    TopLevelKept(r, def);
    ReadFromAll(r, l, given.steps, def.steps, wf.steps);
    forall n | n in given.scopes
      ensures n in wf.scopes && AllReadFrom(r, l, given.scopes[n].steps, wf.scopes[n].steps)
    {
      UserScope(r, def, n);
      ReadFromAll(r, l, given.scopes[n].steps, def.scopes[n].steps, wf.scopes[n].steps);
    }
    forall i: nat | IsParallelAt(given.steps, i)
      ensures given.steps[i].steps.Substeps? && ParallelName(i) in wf.scopes
      ensures AllReadFrom(r, l, given.steps[i].steps.body, wf.scopes[ParallelName(i)].steps)
    {
      assert SameButConfig(def.steps[i], given.steps[i]) && StepTakesOver(given.steps[i], l, def.steps[i]);
      ParallelScope(r, def, i);
      ReadFromAll(r, l, given.steps[i].steps.body, def.steps[i].steps.body, wf.scopes[ParallelName(i)].steps);
    }
  }

  lemma {:induction false} LikeGiven(r: Readers, def: WorkflowDef, given: WorkflowDef)
    requires SameShape(def, given) && Acceptable(r, def)
    ensures CarriesAll(r, given.steps, Output(r, def).steps)
    ensures forall n :: n in Output(r, def).scopes <==>
              n in given.scopes || exists i :: IsParallelAt(given.steps, i) && n == ParallelName(i)
    ensures |Output(r, def).scopes| == |given.scopes| + ParallelSteps(given.steps)
  {
    TopLevelKept(r, def);
    CarriesAllSame(r, def.steps, given.steps, Output(r, def).steps);
    ScopesExactly(r, def);
    SameRefs(def.steps, given.steps);
    assert |def.scopes.Keys| == |given.scopes.Keys|;
  }

  lemma {:induction false} ScopeLikeGiven(r: Readers, def: WorkflowDef, given: WorkflowDef, n: string)
    requires SameShape(def, given) && Acceptable(r, def) && n in given.scopes
    ensures n in Output(r, def).scopes && Output(r, def).scopes[n].outputs == given.scopes[n].outputs
    ensures CarriesAll(r, given.scopes[n].steps, Output(r, def).scopes[n].steps)
  {
    UserScope(r, def, n);
    CarriesAllSame(r, def.scopes[n].steps, given.scopes[n].steps, Output(r, def).scopes[n].steps);
  }

  /**
   * An accepted definition, before its steps inherited any settings, against what comes out: name, environment and
   * prompts directory, each step with all its fields at its place, the user's scopes with their outputs, one more
   * scope per parallel step, and no circular reference.
   */
  lemma {:induction false} GivenIsKept(r: Readers, given: WorkflowDef)
    requires Acceptable(r, WithInheritedTypeConfig(given, r.number))
    ensures var wf := Output(r, WithInheritedTypeConfig(given, r.number));
            && wf.name == given.name && wf.env == given.env && wf.promptsDir == given.promptsDir
            && CarriesAll(r, given.steps, wf.steps)
            && (forall n :: n in wf.scopes <==>
                  n in given.scopes || exists i :: IsParallelAt(given.steps, i) && n == ParallelName(i))
            && |wf.scopes| == |given.scopes| + ParallelSteps(given.steps)
            && forall n :: n in given.scopes ==>
                 wf.scopes[n].outputs == given.scopes[n].outputs &&
                   CarriesAll(r, given.scopes[n].steps, wf.scopes[n].steps)
    ensures !Cyclic(given.scopes)
  {
    var def := WithInheritedTypeConfig(given, r.number);
    PassKeepsShape(given, r.number);
    LikeGiven(r, def, given);
    forall n | n in given.scopes
      ensures Output(r, def).scopes[n].outputs == given.scopes[n].outputs
      ensures CarriesAll(r, given.scopes[n].steps, Output(r, def).scopes[n].steps)
    {
      ScopeLikeGiven(r, def, given, n);
    }
    AcceptedIsAcyclic(r, def);
    SameCycles(def, given);
  }
}
