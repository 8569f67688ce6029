/** The engine's executors put together from the modelled ones (src/engine/mod.rs). */
module EngineExecutors {
  import opened Prelude
  import opened Schema
  import opened ContextStore
  import opened Validator
  import opened ScopeExecution
  import opened ParallelMap
  import opened ParallelStep
  import opened ScopeLaws
  import opened EngineRun
  import opened ChatStep
  import opened Resume
  import opened ResumeGuard

  /**
   * The parts that are not modelled: those of the chat executor; the outcomes of the other leaf executors; reading the
   * items of a map; the order in which the `n` tasks of a map or parallel step are joined, and which tasks of a
   * parallel step a failure cancels; the `collect` and `reduce` transformations of a map; and, as `base`, the parser,
   * the spawned tasks and the references.
   */
  datatype Assembly = Assembly(
    chatting: Chatting,
    other: (StepDef, Visible) -> Outcome,
    splitItems: string -> seq<string>,
    arrivals: (StepDef, nat) -> seq<nat>,
    cancelled: StepDef -> set<nat>,
    finish: (StepDef, StepOutput) -> Outcome,
    base: Runtime)

  /** Every task is joined once. */
  ghost predicate JoinsAll(a: Assembly) {
    forall step, n: nat :: JoinOrder(a.arrivals(step, n), n)
  }

  function Around(a: Assembly): World {
    World(Leaves(a.chatting, a.other), a.chatting.render, a.splitItems)
  }

  /** A map step: the answer for its items and their join order, then its transformation. */
  function MapRun(a: Assembly, scopes: Scopes, step: StepDef, ctx: CtxView): Outcome
    requires Layered(scopes) && ctx.frames != []
  {
    match MapItems(Around(a), scopes, step, ctx)
    case Err(e) => Err(e)
    case Ok(items) =>
      var item := Items(Around(a), scopes, step.scope.value, ctx, items);
      var answer :=
        if UnwrapOr(step.parallel, 0) == 0 then LoopOutcome(Serial(item, 0, |items|))
        else JoinedMap(item, |items|, a.arrivals(step, |items|));
      if answer.Ok? then a.finish(step, answer.value) else answer
  }

  /** A sub-step of a parallel step, in a fresh context that inherits the target only. */
  function SubTask(a: Assembly, sub: StepDef, target: string): TaskResult {
    if IsLeaf(sub.stepType) then Returned(Around(a).leaf(sub, RootView(target, map[])).outcome)
    else Returned(Err(Fail("Step type '" + ShowStepType(sub.stepType) + "' not supported in parallel")))
  }

  function SubTasks(a: Assembly, body: seq<StepDef>, target: string): seq<TaskResult> {
    seq(|body|, k requires 0 <= k < |body| => SubTask(a, body[k], target))
  }

  function SubNames(body: seq<StepDef>): seq<string> {
    seq(|body|, k requires 0 <= k < |body| => body[k].name)
  }

  function ParallelRun(a: Assembly, step: StepDef, ctx: CtxView): Outcome
    requires JoinsAll(a)
  {
    if step.steps.NoSubsteps? then Err(Fail("parallel step missing 'steps' field"))
    else
      var body := step.steps.body;
      assert JoinOrder(a.arrivals(step, |body|), |body|);
      JoinedAnswer(SubNames(body), SubTasks(a, body, TargetOf(ctx.frames)), a.arrivals(step, |body|), a.cancelled(step))
  }

  /** How one top-level step is executed. */
  function Execute(a: Assembly, scopes: Scopes, step: StepDef, ctx: CtxView): LeafRun
    requires Layered(scopes) && JoinsAll(a) && ctx.frames != []
  {
    match step.stepType
    case Call =>
      var run := Dispatch(Around(a), scopes, step, ctx);
      LeafRun(run.outcome, run.chats)
    case Repeat =>
      var run := Dispatch(Around(a), scopes, step, ctx);
      LeafRun(run.outcome, run.chats)
    case Map => LeafRun(MapRun(a, scopes, step, ctx), ctx.chats)
    case Parallel => LeafRun(ParallelRun(a, step, ctx), ctx.chats)
    case _ => Around(a).leaf(step, ctx)
  }

  /** The engine's runtime over these executors. */
  function Assembled(a: Assembly, scopes: Scopes): Runtime
    requires Layered(scopes) && JoinsAll(a)
  {
    a.base.(exec := (step: StepDef, ctx: CtxView) =>
              if ctx.frames == [] then LeafRun(Err(Other("")), ctx.chats) else Execute(a, scopes, step, ctx))
  }

  /** Before its transformation a map step gives an answer that its items allow. */
  lemma {:induction false} MapRunIsAllowed(a: Assembly, scopes: Scopes, step: StepDef, ctx: CtxView)
    requires Layered(scopes) && JoinsAll(a) && ctx.frames != [] && MapItems(Around(a), scopes, step, ctx).Ok?
    ensures var items := MapItems(Around(a), scopes, step, ctx).value;
            var item := Items(Around(a), scopes, step.scope.value, ctx, items);
            exists answer :: MapAnswer(item, |items|, answer) &&
                             MapRun(a, scopes, step, ctx) == if answer.Ok? then a.finish(step, answer.value) else answer
  {
    var items := MapItems(Around(a), scopes, step, ctx).value;
    var item := Items(Around(a), scopes, step.scope.value, ctx, items);
    var order := a.arrivals(step, |items|);
    SerialIsMapAnswer(item, |items|);
    MapAnswerIffJoined(item, |items|, JoinedMap(item, |items|, order));
    assert MapAnswer(item, |items|, JoinedMap(item, |items|, order));
    assert MapAnswer(item, |items|, LoopOutcome(Serial(item, 0, |items|)));
  }

  // ---------- parallel steps ----------

  /** A sub-step runs in a context that holds the target only, unless steps of its kind are refused. */
  ghost predicate SubRuns(a: Assembly, sub: StepDef, ctx: CtxView, r: TaskResult) {
    match sub.stepType
    case Repeat => r == Returned(Err(Fail("Step type '" + "repeat" + "' not supported in parallel")))
    case Map => r == Returned(Err(Fail("Step type '" + "map" + "' not supported in parallel")))
    case Call => r == Returned(Err(Fail("Step type '" + "call" + "' not supported in parallel")))
    case Parallel => r == Returned(Err(Fail("Step type '" + "parallel" + "' not supported in parallel")))
    case Template => r == Returned(Err(Fail("Step type '" + "template" + "' not supported in parallel")))
    case Script => r == Returned(Err(Fail("Step type '" + "script" + "' not supported in parallel")))
    case _ => exists v :: CallContext(ctx, v) && r == Returned(Leaves(a.chatting, a.other)(sub, v).outcome)
  }

  lemma {:induction false} SubRunsAlways(a: Assembly, sub: StepDef, ctx: CtxView)
    ensures SubRuns(a, sub, ctx, SubTask(a, sub, TargetOf(ctx.frames)))
  {
    CallViewIs(ctx);
  }

  /** The output that a parallel step answers: of the last sub-step joined that carries the name of the last one. */
  ghost predicate LastNamed(body: seq<StepDef>, tasks: seq<TaskResult>, order: seq<nat>, k: nat, output: StepOutput)
    requires |tasks| == |body| > 0 && Within(order, |tasks|) && k < |order|
  {
    && body[order[k]].name == Last(body).name && Gives(tasks[order[k]], output)
    && forall j: nat :: k < j < |order| ==> body[order[j]].name != Last(body).name
  }

  /** A parallel step, given by the results of its sub-steps. */
  ghost predicate ParallelRuns(a: Assembly, step: StepDef, ctx: CtxView, tasks: seq<TaskResult>, outcome: Outcome)
    requires step.steps.Substeps?
  {
    var body := step.steps.body;
    var order := a.arrivals(step, |body|);
    && |tasks| == |body| && Within(order, |body|)
    && (forall k :: 0 <= k < |body| ==> SubRuns(a, body[k], ctx, tasks[k]))
    && match outcome
       case Ok(output) =>
         && !FailedBefore(tasks, order, |order|)
         && (body == [] ==> output == Empty)
         && (body != [] ==> exists k: nat :: k < |order| && LastNamed(body, tasks, order, k, output))
       case Err(e) => exists k: nat :: k < |order| && DecidesError(tasks, order, a.cancelled(step), k, e)
  }

  lemma {:induction false} LastHolder(body: seq<StepDef>, order: seq<nat>, n: nat) returns (k: nat)
    requires Within(order, |body|) && body != [] && n <= |order|
    requires exists j: nat :: j < n && body[order[j]].name == Last(body).name
    ensures k < n && body[order[k]].name == Last(body).name
    ensures forall j: nat :: k < j < n ==> body[order[j]].name != Last(body).name
  {
    k := n - 1;
    if body[order[k]].name != Last(body).name {
      k := LastHolder(body, order, n - 1);
    }
  }

  lemma {:induction false} ParallelOutput(body: seq<StepDef>, tasks: seq<TaskResult>, order: seq<nat>,
      cancelled: set<nat>)
    requires |tasks| == |body| > 0 && JoinOrder(order, |body|)
    requires JoinedAnswer(SubNames(body), tasks, order, cancelled).Ok?
    ensures var output := JoinedAnswer(SubNames(body), tasks, order, cancelled).value;
            exists k: nat :: k < |order| && LastNamed(body, tasks, order, k, output)
  {
    JoinedOutputs(SubNames(body), tasks, order, cancelled);
    var last: nat := |body| - 1;
    assert last in order;
    var k := LastHolder(body, order, |order|);
    RecordedAt(SubNames(body), Outs(tasks), order, k);
    assert LastNamed(body, tasks, order, k, Outs(tasks)[order[k]]);
  }

  /** A parallel step without `steps` fails; any other one runs like that. */
  lemma {:induction false} ParallelRunIs(a: Assembly, step: StepDef, ctx: CtxView) returns (tasks: seq<TaskResult>)
    requires JoinsAll(a)
    ensures step.steps.NoSubsteps? ==>
              ParallelRun(a, step, ctx) == Err(Fail("parallel step missing 'steps' field"))
    ensures step.steps.Substeps? ==> ParallelRuns(a, step, ctx, tasks, ParallelRun(a, step, ctx))
  {
    tasks := [];
    if step.steps.Substeps? {
      var body := step.steps.body;
      tasks := SubTasks(a, body, TargetOf(ctx.frames));
      var order := a.arrivals(step, |body|);
      assert JoinOrder(order, |body|);
      forall k | 0 <= k < |body| ensures SubRuns(a, body[k], ctx, tasks[k]) {
        SubRunsAlways(a, body[k], ctx);
      }
      var k := ErrorIs(SubNames(body), tasks, order, a.cancelled(step));
      if ParallelRun(a, step, ctx).Ok? && body != [] {
        ParallelOutput(body, tasks, order, a.cancelled(step));
      }
    }
  }

  // ---------- the chat store ----------

  lemma {:induction false} SameChain(a: (Json, nat) -> Pass, b: (Json, nat) -> Pass, value: Json, index: nat, max: nat)
    requires index <= max && forall seen, i :: a(seen, i) == b(seen, i)
    ensures Chain(a, value, index, max) == Chain(b, value, index, max)
    decreases max - index
  {
    if index < max {
      SameChain(a, b, JString(OutputText(a(value, index).output)), index + 1, max);
    }
  }

  /**
   * A call or repeat starts from fresh contexts, so it neither sees nor changes the chats of the context it runs in.
   */
  lemma {:induction false} DispatchIgnoresChats(w: World, scopes: Scopes, step: StepDef, a: CtxView, b: CtxView)
    requires Layered(scopes) && a.frames != [] && SameButChats(a, b) && (step.stepType.Call? || step.stepType.Repeat?)
    ensures Dispatch(w, scopes, step, a).outcome == Dispatch(w, scopes, step, b).outcome
    ensures Dispatch(w, scopes, step, a).chats == a.chats
  {
    if step.stepType.Repeat? && step.scope.Some? && step.scope.value in scopes {
      var name := step.scope.value;
      var passA, passB := Passes(w, scopes, name, a), Passes(w, scopes, name, b);
      forall seen, i: nat ensures passA(seen, i) == passB(seen, i) {
        assert ChildView(a, seen, i) == ChildView(b, seen, i);
        assert passA(seen, i) == PassOf(w, scopes, name, a, seen, i) == PassOf(w, scopes, name, b, seen, i);
      }
      SameChain(passA, passB, UnwrapOr(step.initialValue, JNull), 0, MaxIterations(step));
    }
  }

  lemma {:induction false} FirstErrorSame(a: nat -> Outcome, b: nat -> Outcome, order: seq<nat>)
    requires forall k: nat :: a(k) == b(k)
    ensures FirstError(a, order) == FirstError(b, order)
    decreases |order|
  {
    if order != [] {
      FirstErrorSame(a, b, order[1..]);
    }
  }

  lemma {:induction false} ItemsIgnoreChats(w: World, scopes: Scopes, name: string, a: CtxView, b: CtxView,
      items: seq<string>, k: nat)
    requires Layered(scopes) && a.frames != [] && name in scopes && SameButChats(a, b)
    ensures Items(w, scopes, name, a, items)(k) == Items(w, scopes, name, b, items)(k)
  {
    if k < |items| {
      assert ChildView(a, JString(items[k]), k) == ChildView(b, JString(items[k]), k);
    }
  }

  /** The items of a map run in contexts of their own, too. */
  lemma {:induction false} MapIgnoresChats(x: Assembly, scopes: Scopes, step: StepDef, a: CtxView, b: CtxView)
    requires Layered(scopes) && a.frames != [] && SameButChats(a, b)
    ensures MapRun(x, scopes, step, a) == MapRun(x, scopes, step, b)
  {
    var w := Around(x);
    assert MapItems(w, scopes, step, a) == MapItems(w, scopes, step, b);
    if MapItems(w, scopes, step, a).Ok? {
      var items := MapItems(w, scopes, step, a).value;
      var itemA, itemB := Items(w, scopes, step.scope.value, a, items), Items(w, scopes, step.scope.value, b, items);
      forall k: nat ensures itemA(k) == itemB(k) {
        ItemsIgnoreChats(w, scopes, step.scope.value, a, b, items, k);
      }
      SerialSame(itemA, itemB, 0, |items|);
      FirstErrorSame(itemA, itemB, x.arrivals(step, |items|));
    }
  }

  /**
   * All executors of the engine together keep to the chat law: only a chat step with a session that completes Ok adds
   * an exchange to the chat store, and no outcome depends on more of it than the history of the step's own session.
   */
  lemma {:induction false} EngineIsLawful(x: Assembly, scopes: Scopes)
    requires Layered(scopes) && JoinsAll(x)
    ensures ChatLaw(Assembled(x, scopes), x.chatting.sessions)
  {
    var sessions, w := x.chatting.sessions, Assembled(x, scopes);
    forall step, ctx: CtxView ensures Writes(sessions, step, ctx.chats, w.exec(step, ctx)) {
      LeavesWrite(x.chatting, x.other, step, ctx);
      if ctx.frames != [] && (step.stepType.Call? || step.stepType.Repeat?) {
        DispatchIgnoresChats(Around(x), scopes, step, ctx, ctx);
      }
    }
    forall step, a, b | SameButChats(a, b) && Hears(sessions, step, a.chats, b.chats)
      ensures w.exec(step, a).outcome == w.exec(step, b).outcome
    {
      ExecuteHears(x, scopes, step, a, b);
    }
  }

  lemma {:induction false} ExecuteHears(x: Assembly, scopes: Scopes, step: StepDef, a: CtxView, b: CtxView)
    requires Layered(scopes) && JoinsAll(x)
    requires SameButChats(a, b) && Hears(x.chatting.sessions, step, a.chats, b.chats)
    ensures Assembled(x, scopes).exec(step, a).outcome == Assembled(x, scopes).exec(step, b).outcome
  {
    if a.frames != [] {
      match step.stepType {
        case Call => DispatchIgnoresChats(Around(x), scopes, step, a, b);
        case Repeat => DispatchIgnoresChats(Around(x), scopes, step, a, b);
        case Map => MapIgnoresChats(x, scopes, step, a, b);
        case Parallel =>
        case _ => LeavesHear(x.chatting, x.other, step, a, b);
      }
    }
  }

  /** So for the engine itself the guard decides whether a resume ends like the uninterrupted run. */
  lemma {:induction false} EngineResumeIffSafe(x: Assembly, scopes: Scopes, p: seq<StepDef>,
      loaded: map<string, StepOutput>, s: RunState)
    requires Layered(scopes) && JoinsAll(x) && Interrupted(Assembled(x, scopes), p, loaded, s)
    ensures var w, sessions := Assembled(x, scopes), x.chatting.sessions;
            (forall w', sessions', q :: Lawful(w, sessions, p, w', sessions', q) ==> EndAlike(w', p, q, loaded, s))
            <==> Safe(sessions, p, loaded)
  {
    EngineIsLawful(x, scopes);
    ResumeIffSafe(Assembled(x, scopes), x.chatting.sessions, p, loaded, s);
  }

  // ---------- leaf executions of a whole workflow ----------

  /** Sub-steps among the first `n` of a parallel step that start a leaf executor, of those started at all. */
  function SubLeaves(body: seq<StepDef>, started: nat -> bool, n: nat): nat
    requires n <= |body|
  {
    if n == 0 then 0
    else SubLeaves(body, started, n - 1) + if started(n - 1) && IsLeaf(body[n - 1].stepType) then 1 else 0
  }

  /** Leaf executors that a top-level step starts; `started` says which items or sub-steps got that far. */
  function TopLeaves(w: World, scopes: Scopes, step: StepDef, ctx: CtxView, started: nat -> bool): nat
    requires Layered(scopes) && ctx.frames != []
  {
    match step.stepType
    case Call => Dispatch(w, scopes, step, ctx).leaves
    case Repeat => Dispatch(w, scopes, step, ctx).leaves
    case Map =>
      (match MapItems(w, scopes, step, ctx)
       case Err(_) => 0
       case Ok(items) => MapLeaves(w, scopes, step.scope.value, ctx, items, started, |items|))
    case Parallel => if step.steps.Substeps? then SubLeaves(step.steps.body, started, |step.steps.body|) else 0
    case _ => 1
  }

  /** The context in which a synchronous step runs, unless a task it awaits fails. */
  function ContextFor(rt: Runtime, step: StepDef, s: RunState): Option<CtxView>
    requires s.ctx.frames != []
    ensures ContextFor(rt, step, s).Some? ==> ContextFor(rt, step, s).value.frames != []
  {
    var (s1, failed) := AwaitAll(s, Wanted(References(rt, step), s.pending, []));
    if failed.Some? then None else Some(s1.ctx)
  }

  /** A spawned task runs a single command, agent or script. */
  predicate Spawnable(t: StepType) {
    t.Cmd? || t.Agent? || t.Script?
  }

  /** Leaf executors that one iteration of the run loop starts. */
  function StepLeaves(rt: Runtime, w: World, scopes: Scopes, step: StepDef, s: RunState, started: nat -> bool): nat
    requires Layered(scopes) && s.ctx.frames != []
  {
    if IsAsync(step) then if Spawnable(step.stepType) then 1 else 0
    else
      var ctx := ContextFor(rt, step, s);
      if ctx.None? then 0 else TopLeaves(w, scopes, step, ctx.value, started)
  }

  function LoopLeaves(rt: Runtime, w: World, scopes: Scopes, steps: seq<StepDef>, s: RunState,
      started: StepDef -> nat -> bool): nat
    requires Layered(scopes) && s.ctx.frames != []
  {
    if steps == [] then 0
    else
      var one := OneStep(rt, steps[0], s);
      StepLeaves(rt, w, scopes, steps[0], s, started(steps[0])) +
      if one.ending.Completed? then LoopLeaves(rt, w, scopes, steps[1..], one.s, started) else 0
  }

  /** Number of items over which a step maps in a context. */
  function ItemCount(w: World, scopes: Scopes, step: StepDef, ctx: CtxView): nat {
    if step.stepType.Map? && MapItems(w, scopes, step, ctx).Ok? then |MapItems(w, scopes, step, ctx).value| else 0
  }

  function StepItems(rt: Runtime, w: World, scopes: Scopes, step: StepDef, s: RunState): nat
    requires s.ctx.frames != []
  {
    if IsAsync(step) || ContextFor(rt, step, s).None? then 0
    else ItemCount(w, scopes, step, ContextFor(rt, step, s).value)
  }

  /** The item count of each step in this run, each at its own state; zero for steps that are not reached. */
  function RunItems(rt: Runtime, w: World, scopes: Scopes, steps: seq<StepDef>, s: RunState): (r: seq<nat>)
    requires s.ctx.frames != []
    ensures |r| == |steps|
  {
    if steps == [] then []
    else
      var one := OneStep(rt, steps[0], s);
      [StepItems(rt, w, scopes, steps[0], s)] +
      if one.ending.Completed? then RunItems(rt, w, scopes, steps[1..], one.s) else seq(|steps| - 1, _ => 0)
  }

  function LeafSteps(body: seq<StepDef>, n: nat): nat
    requires n <= |body|
  {
    if n == 0 then 0 else LeafSteps(body, n - 1) + if IsLeaf(body[n - 1].stepType) then 1 else 0
  }

  /** Most leaf executors that a top-level step can start when it maps over at most so many items. */
  function TopBound(scopes: Scopes, step: StepDef, items: nat): nat
    requires Layered(scopes)
  {
    if IsAsync(step) then if Spawnable(step.stepType) then 1 else 0
    else
      match step.stepType
      case Call => StepBound(scopes, step)
      case Repeat => StepBound(scopes, step)
      case Map =>
        if step.scope.None? || step.scope.value !in scopes then 0
        else items * BodyBound(scopes, scopes[step.scope.value].steps)
      case Parallel => if step.steps.Substeps? then LeafSteps(step.steps.body, |step.steps.body|) else 0
      case _ => 1
  }

  function WorkflowBound(scopes: Scopes, steps: seq<StepDef>, items: seq<nat>): nat
    requires Layered(scopes) && |items| == |steps|
  {
    if steps == [] then 0 else TopBound(scopes, steps[0], items[0]) + WorkflowBound(scopes, steps[1..], items[1..])
  }

  lemma {:induction false} SubBounded(body: seq<StepDef>, started: nat -> bool, n: nat)
    requires n <= |body|
    ensures SubLeaves(body, started, n) <= LeafSteps(body, n)
    ensures (forall k: nat :: k < n ==> started(k)) ==> SubLeaves(body, started, n) == LeafSteps(body, n)
  {
    if n > 0 {
      SubBounded(body, started, n - 1);
    }
  }

  lemma {:induction false} TopBounded(w: World, scopes: Scopes, step: StepDef, ctx: CtxView, started: nat -> bool)
    requires Layered(scopes) && ctx.frames != [] && !IsAsync(step)
    ensures TopLeaves(w, scopes, step, ctx, started) <= TopBound(scopes, step, ItemCount(w, scopes, step, ctx))
  {
    match step.stepType {
      case Call => DispatchBounded(w, scopes, step, ctx);
      case Repeat => DispatchBounded(w, scopes, step, ctx);
      case Map =>
        var read := MapItems(w, scopes, step, ctx);
        if read.Ok? {
          MapBounded(w, scopes, step.scope.value, ctx, read.value, started, |read.value|);
        }
      case Parallel =>
        if step.steps.Substeps? {
          SubBounded(step.steps.body, started, |step.steps.body|);
        }
      case _ =>
    }
  }

  lemma {:induction false} StepBounded(rt: Runtime, w: World, scopes: Scopes, step: StepDef, s: RunState,
      started: nat -> bool)
    requires Layered(scopes) && s.ctx.frames != []
    ensures StepLeaves(rt, w, scopes, step, s, started) <= TopBound(scopes, step, StepItems(rt, w, scopes, step, s))
  {
    if !IsAsync(step) && ContextFor(rt, step, s).Some? {
      TopBounded(w, scopes, step, ContextFor(rt, step, s).value, started);
    }
  }

  /**
   * A run of a whole workflow starts at most so many leaf executors: one for each plain step and each parallel
   * sub-step, those of the body for each item that a map finds when the run gets to it, and of the body times the
   * iterations for a repeat, all the way down.
   */
  lemma {:induction false} WorkflowBounded(rt: Runtime, w: World, scopes: Scopes, steps: seq<StepDef>, s: RunState,
      started: StepDef -> nat -> bool)
    requires Layered(scopes) && s.ctx.frames != []
    ensures LoopLeaves(rt, w, scopes, steps, s, started) <=
            WorkflowBound(scopes, steps, RunItems(rt, w, scopes, steps, s))
    decreases |steps|
  {
    if steps != [] {
      StepBounded(rt, w, scopes, steps[0], s, started(steps[0]));
      var one := OneStep(rt, steps[0], s);
      assert RunItems(rt, w, scopes, steps, s)[0] == StepItems(rt, w, scopes, steps[0], s);
      if one.ending.Completed? {
        WorkflowBounded(rt, w, scopes, steps[1..], one.s, started);
        assert RunItems(rt, w, scopes, steps, s)[1..] == RunItems(rt, w, scopes, steps[1..], one.s);
      }
    }
  }

  lemma {:induction false} MoreItems(scopes: Scopes, steps: seq<StepDef>, few: seq<nat>, many: seq<nat>)
    requires Layered(scopes) && |few| == |many| == |steps| && forall k :: 0 <= k < |few| ==> few[k] <= many[k]
    ensures WorkflowBound(scopes, steps, few) <= WorkflowBound(scopes, steps, many)
    decreases |steps|
  {
    if steps != [] {
      MoreItems(scopes, steps[1..], few[1..], many[1..]);
      if steps[0].scope.Some? && steps[0].scope.value in scopes {
        Times(few[0], many[0], BodyBound(scopes, scopes[steps[0].scope.value].steps));
      }
    }
  }

  lemma {:induction false} Times(n: nat, most: nat, bound: nat)
    requires n <= most
    ensures n * bound <= most * bound
  {
  }

  /** The bound from limits on the item counts of the maps that the run reaches. */
  lemma {:induction false} WorkflowLimited(rt: Runtime, w: World, scopes: Scopes, steps: seq<StepDef>, s: RunState,
      started: StepDef -> nat -> bool, limits: seq<nat>)
    requires Layered(scopes) && s.ctx.frames != [] && |limits| == |steps|
    requires forall k :: 0 <= k < |steps| ==> RunItems(rt, w, scopes, steps, s)[k] <= limits[k]
    ensures LoopLeaves(rt, w, scopes, steps, s, started) <= WorkflowBound(scopes, steps, limits)
  {
    WorkflowBounded(rt, w, scopes, steps, s, started);
    MoreItems(scopes, steps, RunItems(rt, w, scopes, steps, s), limits);
  }

  // ---------- the bound is met ----------

  lemma {:induction false} TopAttained(w: World, scopes: Scopes, step: StepDef, ctx: CtxView, started: nat -> bool)
    requires Layered(scopes) && ctx.frames != [] && !IsAsync(step) && LeavesSucceed(w)
    requires (forall n :: n in scopes ==> Dispatchable(scopes, scopes[n].steps)) && forall k :: started(k)
    ensures TopLeaves(w, scopes, step, ctx, started) == TopBound(scopes, step, ItemCount(w, scopes, step, ctx))
  {
    if step.stepType.Call? || step.stepType.Repeat? {
      if step.scope.Some? && step.scope.value in scopes {
        DispatchAttained(w, scopes, step, ctx);
      } else {
        DispatchBounded(w, scopes, step, ctx);
      }
    } else if step.stepType.Map? {
      var read := MapItems(w, scopes, step, ctx);
      if read.Ok? {
        MapAttained(w, scopes, step.scope.value, ctx, read.value, started, |read.value|);
      }
    } else if step.stepType.Parallel? && step.steps.Substeps? {
      SubBounded(step.steps.body, started, |step.steps.body|);
    }
  }

  lemma {:induction false} StepAttained(rt: Runtime, w: World, scopes: Scopes, step: StepDef, s: RunState,
      started: nat -> bool)
    requires Layered(scopes) && s.ctx.frames != [] && LeavesSucceed(w) && OneStep(rt, step, s).ending.Completed?
    requires (forall n :: n in scopes ==> Dispatchable(scopes, scopes[n].steps)) && forall k :: started(k)
    ensures StepLeaves(rt, w, scopes, step, s, started) == TopBound(scopes, step, StepItems(rt, w, scopes, step, s))
  {
    if !IsAsync(step) {
      TopAttained(w, scopes, step, ContextFor(rt, step, s).value, started);
    }
  }

  /**
   * The bound is met by every run that gets through all its steps, when the leaf executors succeed, every item and
   * sub-step is started and every step of a scope can be dispatched.
   */
  lemma {:induction false} WorkflowAttained(rt: Runtime, w: World, scopes: Scopes, steps: seq<StepDef>, s: RunState,
      started: StepDef -> nat -> bool)
    requires Layered(scopes) && s.ctx.frames != [] && LeavesSucceed(w) && Loop(rt, steps, s).ending.Completed?
    requires (forall n :: n in scopes ==> Dispatchable(scopes, scopes[n].steps)) && forall step, k :: started(step)(k)
    ensures LoopLeaves(rt, w, scopes, steps, s, started) ==
            WorkflowBound(scopes, steps, RunItems(rt, w, scopes, steps, s))
    decreases |steps|
  {
    if steps != [] {
      StepAttained(rt, w, scopes, steps[0], s, started(steps[0]));
      var one := OneStep(rt, steps[0], s);
      WorkflowAttained(rt, w, scopes, steps[1..], one.s, started);
      assert RunItems(rt, w, scopes, steps, s)[0] == StepItems(rt, w, scopes, steps[0], s);
      assert RunItems(rt, w, scopes, steps, s)[1..] == RunItems(rt, w, scopes, steps[1..], one.s);
    }
  }
}
