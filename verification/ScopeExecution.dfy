/** Execution of scope bodies: call, repeat and serial map (src/steps/call.rs, repeat.rs, map.rs). */
module ScopeExecution {
  import opened Prelude
  import opened Schema
  import opened ContextStore
  import opened Validator

  /**
   * The parts that are not modelled: `leaf` runs a cmd, agent, gate or chat step (with its resolved
   * configuration), `render` renders a template, `splitItems` reads the item list of a map step.
   */
  datatype World = World(
    leaf: (StepDef, CtxView) -> LeafRun,
    render: (string, Visible) -> Result<string, StepError>,
    splitItems: string -> seq<string>)

  // ---------- the termination measure ----------

  /**
   * The steps of a body without its `map` steps, which are refused inside a scope before their own scope is looked at.
   */
  function WithoutMaps(steps: seq<StepDef>): seq<StepDef> {
    if steps == [] then []
    else (if steps[0].stepType.Map? then [] else [steps[0]]) + WithoutMaps(steps[1..])
  }

  /** The scopes with only those references that execution follows. */
  function Followed(scopes: Scopes): Scopes {
    map n | n in scopes :: scopes[n].(steps := WithoutMaps(scopes[n].steps))
  }

  /** Every chain of `call` and `repeat` references ends. */
  ghost predicate Layered(scopes: Scopes) {
    forall n :: !CycleFrom(Followed(scopes), {}, n)
  }

  lemma {:induction false} FollowedRefs(steps: seq<StepDef>, t: string)
    ensures t in Refs(WithoutMaps(steps)) ==> t in Refs(steps)
    ensures (exists i :: 0 <= i < |steps| && Enters(steps[i]) && steps[i].scope.value == t) ==>
            t in Refs(WithoutMaps(steps))
    decreases |steps|
  {
    if steps != [] {
      FollowedRefs(steps[1..], t);
      RefsAppend(if steps[0].stepType.Map? then [] else [steps[0]], WithoutMaps(steps[1..]));
      if i :| 0 < i < |steps| && Enters(steps[i]) && steps[i].scope.value == t {
        assert Enters(steps[1..][i - 1]);
      }
      assert steps[0] == [steps[0]][0] && [steps[0]][1..] == [];
    }
  }

  lemma {:induction false} RefsAppend(a: seq<StepDef>, b: seq<StepDef>)
    ensures Refs(a + b) == Refs(a) + Refs(b)
    decreases |a|
  {
    if a == [] {
      assert a + b == b;
    } else {
      assert (a + b)[1..] == a[1..] + b;
      RefsAppend(a[1..], b);
    }
  }

  /** Chains end exactly when the references that execution follows have no closed walk. */
  lemma {:induction false} LayeredIffAcyclic(scopes: Scopes)
    ensures Layered(scopes) <==> !Cyclic(Followed(scopes))
  {
    ReportedIffCyclic(Followed(scopes));
  }

  /** A workflow that the validator finds free of circular references can be executed. */
  lemma {:induction false} AcyclicIsLayered(scopes: Scopes)
    requires !Cyclic(scopes)
    ensures Layered(scopes)
  {
    LayeredIffAcyclic(scopes);
    if c :| ClosedWalk(Followed(scopes), c) {
      forall i | 0 <= i < |c| - 1 ensures Edge(scopes, c[i], c[i + 1]) {
        assert Edge(Followed(scopes), c[i], c[i + 1]);
        FollowedRefs(scopes[c[i]].steps, c[i + 1]);
      }
      assert ClosedWalk(scopes, c);
    }
  }

  /** The converse fails: a scope that maps over itself is circular, yet its execution ends. */
  lemma {:induction false} CircularMapIsLayered(step: StepDef, outputs: Option<string>)
    requires step.stepType.Map? && step.scope == Some("a")
    ensures var scopes := map["a" := ScopeDef([step], outputs)]; Cyclic(scopes) && Layered(scopes)
  {
    var scopes := map["a" := ScopeDef([step], outputs)];
    assert Refs([step]) == ["a"] by {
      assert [step][1..] == [];
    }
    assert ClosedWalk(scopes, ["a", "a"]);
    LayeredIffAcyclic(scopes);
    assert WithoutMaps([step]) == [] by {
      assert [step][1..] == [];
    }
    forall c ensures !ClosedWalk(Followed(scopes), c) {
      assert |c| >= 2 ==> !Edge(Followed(scopes), c[0], c[0 + 1]);
    }
  }

  ghost function ScopeRank(scopes: Scopes, name: string): nat
    requires Layered(scopes)
  {
    Rank(Followed(scopes), {}, name)
  }

  /** A step that runs the steps of a scope. */
  predicate Enters(step: StepDef) {
    (step.stepType.Call? || step.stepType.Repeat?) && step.scope.Some?
  }

  ghost function StepRank(scopes: Scopes, step: StepDef): nat
    requires Layered(scopes)
  {
    if Enters(step) then ScopeRank(scopes, step.scope.value) else 0
  }

  ghost function BodyRank(scopes: Scopes, steps: seq<StepDef>): nat
    requires Layered(scopes)
  {
    if steps == [] then 0 else Max(StepRank(scopes, steps[0]), BodyRank(scopes, steps[1..]))
  }

  lemma {:induction false} BodyRankBelow(scopes: Scopes, steps: seq<StepDef>, bound: nat)
    requires Layered(scopes) && 0 < bound
    requires forall i :: 0 <= i < |steps| ==> StepRank(scopes, steps[i]) < bound
    ensures BodyRank(scopes, steps) < bound
  {
    if steps != [] {
      BodyRankBelow(scopes, steps[1..], bound);
    }
  }

  lemma {:induction false} StepRankWithin(scopes: Scopes, steps: seq<StepDef>, i: nat)
    requires Layered(scopes) && i < |steps|
    ensures StepRank(scopes, steps[i]) <= BodyRank(scopes, steps)
  {
    if i > 0 {
      StepRankWithin(scopes, steps[1..], i - 1);
    }
  }

  /** The body of a declared scope ranks strictly below the scope. */
  lemma {:induction false} ScopeBodyRank(scopes: Scopes, name: string)
    requires Layered(scopes) && name in scopes
    ensures BodyRank(scopes, scopes[name].steps) < ScopeRank(scopes, name)
  {
    var steps := scopes[name].steps;
    forall i | 0 <= i < |steps| ensures StepRank(scopes, steps[i]) < ScopeRank(scopes, name) {
      if Enters(steps[i]) {
        FollowedRefs(steps, steps[i].scope.value);
        assert Edge(Followed(scopes), name, steps[i].scope.value);
        RankDescends(Followed(scopes), name, steps[i].scope.value);
      }
    }
    BodyRankBelow(scopes, steps, ScopeRank(scopes, name));
  }

  // ---------- the fold that all body loops compute ----------

  /** A dispatched step: outcome, chat store of the context it ran in, number of leaf executors started. */
  datatype StepRun = StepRun(outcome: Outcome, chats: ChatMap, leaves: nat)

  datatype BodyEnd = Completed | Broke | Nexted | Failed(error: StepError)

  datatype BodyRun = BodyRun(end: BodyEnd, ctx: CtxView, last: StepOutput, leaves: nat)

  /** Where a body goes after one step: on with a new context and last output, or to its end. */
  datatype Move = Go(ctx: CtxView, last: StepOutput) | Halt(end: BodyEnd, ctx: CtxView, last: StepOutput)

  /** One pass of a repeat: how its body ended and the output it contributes. */
  datatype Pass = Pass(end: BodyEnd, output: StepOutput, leaves: nat)

  /** Iterations of a loop so far; `error` when one of them failed. Leaves are counted for a repeat only. */
  datatype LoopRun = LoopRun(iterations: seq<IterationOutput>, error: Option<StepError>, leaves: nat)

  function MissingScopeField(kind: string): StepError {
    Fail(kind + " step missing 'scope' field")
  }

  function ScopeNotFound(name: string): StepError {
    Fail("scope '" + name + "' not found")
  }

  function NotSupportedInScope(t: StepType): StepError {
    Fail("Step type '" + ShowStepType(t) + "' not supported in scope")
  }

  /** Context of one repeat or map iteration: all parent variables, but no parent steps, session or chats. */
  function ChildView(ctx: CtxView, value: Json, index: nat): CtxView
    requires ctx.frames != []
  {
    var root := RootView(TargetOf(ctx.frames), AllVariables(ctx.frames));
    root.(frames := [root.frames[0].(scopeValue := Some(value), scopeIndex := index,
                                     stackInfo := GetStackInfo(ctx.frames), promptsDir := ctx.frames[0].promptsDir)])
  }

  /** The scope's `outputs` template when it renders, otherwise the last output. */
  function ScopeResult(w: World, scope: ScopeDef, ctx: CtxView, last: StepOutput): StepOutput {
    if scope.outputs.Some? && w.render(scope.outputs.value, Seen(ctx)).Ok?
    then CmdOut(w.render(scope.outputs.value, Seen(ctx)).value, "", 0)
    else last
  }

  /** The outer loop of a repeat: passes `index..max`, each seeing the text of the output before it. */
  function Chain(pass: (Json, nat) -> Pass, value: Json, index: nat, max: nat): LoopRun
    requires index <= max
    decreases max - index
  {
    if index == max then LoopRun([], None, 0)
    else
      var p := pass(value, index);
      if p.end.Failed? then LoopRun([], Some(p.end.error), p.leaves)
      else if p.end.Broke? then LoopRun([IterationOutput(index, p.output)], None, p.leaves)
      else
        var rest := Chain(pass, JString(OutputText(p.output)), index + 1, max);
        LoopRun([IterationOutput(index, p.output)] + rest.iterations, rest.error, p.leaves + rest.leaves)
  }

  /** The outer loop of a serial map: items `index..count` until one fails. */
  function Serial(item: nat -> Outcome, index: nat, count: nat): LoopRun
    requires index <= count
    decreases count - index
  {
    if index == count then LoopRun([], None, 0)
    else
      match item(index)
      case Err(e) => LoopRun([], Some(e), 0)
      case Ok(output) =>
        var rest := Serial(item, index + 1, count);
        LoopRun([IterationOutput(index, output)] + rest.iterations, rest.error, 0)
  }

  function LastOutput(iterations: seq<IterationOutput>): Option<StepOutput> {
    if iterations == [] then None else Some(Last(iterations).output)
  }

  function LoopOutcome(run: LoopRun): Outcome {
    if run.error.Some? then Err(run.error.value)
    else Ok(ScopeOut(run.iterations, LastOutput(run.iterations)))
  }

  /** Ok stores and goes on, Skip stores an empty output, Break may replace the last output, Next just ends the pass. */
  function After(run: StepRun, name: string, ctx: CtxView, last: StepOutput): (m: Move)
    requires ctx.frames != []
    ensures m.ctx.frames != []
  {
    var ctx' := ctx.(chats := run.chats);
    if run.outcome.Ok? then Go(Stored(ctx', name, run.outcome.value), run.outcome.value)
    else if run.outcome.error.Flow? then
      match run.outcome.error.flow
      case Break(_, value) => Halt(Broke, ctx', UnwrapOr(value, last))
      case Skip(_) => Go(Stored(ctx', name, Empty), last)
      case Next(_) => Halt(Nexted, ctx', last)
      case Abort(_) => Halt(Failed(run.outcome.error), ctx', last)
    else Halt(Failed(run.outcome.error), ctx', last)
  }

  function Dispatch(w: World, scopes: Scopes, step: StepDef, ctx: CtxView): StepRun
    requires Layered(scopes) && ctx.frames != []
    decreases StepRank(scopes, step), 1, 0
  {
    match step.stepType
    case Cmd => var r := w.leaf(step, ctx); StepRun(r.outcome, r.chats, 1)
    case Agent => var r := w.leaf(step, ctx); StepRun(r.outcome, r.chats, 1)
    case Gate => var r := w.leaf(step, ctx); StepRun(r.outcome, r.chats, 1)
    case Chat => var r := w.leaf(step, ctx); StepRun(r.outcome, r.chats, 1)
    case Repeat => RepeatRun(w, scopes, step, ctx)
    case Call => Called(w, scopes, step, ctx)
    case _ => StepRun(Err(NotSupportedInScope(step.stepType)), ctx.chats, 0)
  }

  /** Steps run in order against one context until one of them stops the body. */
  function Body(w: World, scopes: Scopes, steps: seq<StepDef>, ctx: CtxView, last: StepOutput): (r: BodyRun)
    requires Layered(scopes) && ctx.frames != []
    ensures r.ctx.frames != []
    decreases BodyRank(scopes, steps), 2, |steps|
  {
    if steps == [] then BodyRun(Completed, ctx, last, 0)
    else
      var run := Dispatch(w, scopes, steps[0], ctx);
      match After(run, steps[0].name, ctx, last)
      case Halt(end, ctx', last') => BodyRun(end, ctx', last', run.leaves)
      case Go(ctx', last') =>
        var rest := Body(w, scopes, steps[1..], ctx', last');
        rest.(leaves := run.leaves + rest.leaves)
  }

  function Called(w: World, scopes: Scopes, step: StepDef, ctx: CtxView): StepRun
    requires Layered(scopes) && ctx.frames != [] && step.stepType.Call?
    decreases StepRank(scopes, step), 0, 0
  {
    if step.scope.None? then StepRun(Err(MissingScopeField("call")), ctx.chats, 0)
    else if step.scope.value !in scopes then StepRun(Err(ScopeNotFound(step.scope.value)), ctx.chats, 0)
    else
      ScopeBodyRank(scopes, step.scope.value);
      var scope := scopes[step.scope.value];
      var body := Body(w, scopes, scope.steps, RootView(TargetOf(ctx.frames), map[]), Empty);
      if body.end.Failed? then StepRun(Err(body.end.error), ctx.chats, body.leaves)
      else
        var output := ScopeResult(w, scope, body.ctx, body.last);
        StepRun(Ok(ScopeOut([IterationOutput(0, output)], Some(output))), ctx.chats, body.leaves)
  }

  function MaxIterations(step: StepDef): nat {
    UnwrapOr(step.maxIterations, 3)
  }

  function RepeatRun(w: World, scopes: Scopes, step: StepDef, ctx: CtxView): StepRun
    requires Layered(scopes) && ctx.frames != [] && step.stepType.Repeat?
    decreases StepRank(scopes, step), 0, 2
  {
    if step.scope.None? then StepRun(Err(MissingScopeField("repeat")), ctx.chats, 0)
    else if step.scope.value !in scopes then StepRun(Err(ScopeNotFound(step.scope.value)), ctx.chats, 0)
    else
      var run := Chain(Passes(w, scopes, step.scope.value, ctx),
        UnwrapOr(step.initialValue, JNull), 0, MaxIterations(step));
      StepRun(LoopOutcome(run), ctx.chats, run.leaves)
  }

  function Passes(w: World, scopes: Scopes, name: string, ctx: CtxView): (Json, nat) -> Pass
    requires Layered(scopes) && ctx.frames != [] && name in scopes
    decreases ScopeRank(scopes, name), 0, 1
  {
    (seen: Json, index: nat) => PassOf(w, scopes, name, ctx, seen, index)
  }

  /** One pass over a declared scope with its own child context. */
  function PassOf(w: World, scopes: Scopes, name: string, ctx: CtxView, value: Json, index: nat): Pass
    requires Layered(scopes) && ctx.frames != [] && name in scopes
    decreases ScopeRank(scopes, name), 0, 0
  {
    ScopeBodyRank(scopes, name);
    var body := Body(w, scopes, scopes[name].steps, ChildView(ctx, value, index), Empty);
    Pass(body.end, ScopeResult(w, scopes[name], body.ctx, body.last), body.leaves)
  }

  /** What one map item yields. */
  function ItemOutcome(w: World, scopes: Scopes, name: string, ctx: CtxView, item: string, index: nat): Outcome
    requires Layered(scopes) && ctx.frames != [] && name in scopes
  {
    var p := PassOf(w, scopes, name, ctx, JString(item), index);
    if p.end.Failed? then Err(p.end.error) else Ok(p.output)
  }

  /** The items of a map, by index. */
  function Items(w: World, scopes: Scopes, name: string, ctx: CtxView, items: seq<string>): nat -> Outcome
    requires Layered(scopes) && ctx.frames != [] && name in scopes
  {
    (k: nat) => if k < |items| then ItemOutcome(w, scopes, name, ctx, items[k], k) else Ok(Empty)
  }

  // ---------- laws of the loops ----------

  /** Scope value that iteration `k` sees: the initial value, then the text of the previous output. */
  function SeenValue(value: Json, iterations: seq<IterationOutput>, k: nat): Json
    requires k <= |iterations|
  {
    if k == 0 then value else JString(OutputText(iterations[k - 1].output))
  }

  /** Pass number `k` of a repeat that starts at `index` with scope value `value`. */
  function PassAt(pass: (Json, nat) -> Pass, value: Json, index: nat, iterations: seq<IterationOutput>, k: nat): Pass
    requires k <= |iterations|
  {
    pass(SeenValue(value, iterations, k), index + k)
  }

  lemma {:induction false} PassAtTail(pass: (Json, nat) -> Pass, value: Json, index: nat,
      its: seq<IterationOutput>, k: nat)
    requires 1 <= k <= |its|
    ensures PassAt(pass, value, index, its, k) == PassAt(pass, SeenValue(value, its, 1), index + 1, its[1..], k - 1)
  {
    assert index + k == index + 1 + (k - 1);
    assert SeenValue(value, its, k) == SeenValue(SeenValue(value, its, 1), its[1..], k - 1);
  }

  /** Every repeat entry is the result of one pass, and each pass saw the text of the entry before it. */
  lemma {:induction false} RepeatEntries(pass: (Json, nat) -> Pass, value: Json, index: nat, max: nat, k: nat)
    requires index <= max && k < |Chain(pass, value, index, max).iterations|
    ensures var its := Chain(pass, value, index, max).iterations;
            its[k] == IterationOutput(index + k, PassAt(pass, value, index, its, k).output)
    decreases max - index
  {
    var its := Chain(pass, value, index, max).iterations;
    if k > 0 {
      var next := SeenValue(value, its, 1);
      assert Chain(pass, next, index + 1, max).iterations == its[1..];
      RepeatEntries(pass, next, index + 1, max, k - 1);
      PassAtTail(pass, value, index, its, k);
    }
  }

  /**
   * A repeat makes at most `max` entries, all from passes that did not fail. No entry but the last comes from
   * a pass that broke. It stops short only because the last pass broke or the next one failed, and that
   * failure is what it reports.
   */
  lemma {:induction false} RepeatStops(pass: (Json, nat) -> Pass, value: Json, index: nat, max: nat)
    requires index <= max
    ensures var run := Chain(pass, value, index, max);
            var n := |run.iterations|;
            && n <= max - index
            && (forall k :: 0 <= k < n ==> !PassAt(pass, value, index, run.iterations, k).end.Failed?)
            && (forall k :: 0 <= k < n && PassAt(pass, value, index, run.iterations, k).end.Broke? ==>
                  k == n - 1 && run.error == None)
            && (run.error.None? && n < max - index ==>
                  n > 0 && PassAt(pass, value, index, run.iterations, n - 1).end.Broke?)
            && (run.error.Some? ==>
                  n < max - index && PassAt(pass, value, index, run.iterations, n).end == Failed(run.error.value))
    decreases max - index
  {
    if index < max && !pass(value, index).end.Failed? && !pass(value, index).end.Broke? {
      var run := Chain(pass, value, index, max);
      var next := SeenValue(value, run.iterations, 1);
      ChainNext(pass, value, index, max);
      assert Chain(pass, next, index + 1, max).iterations == run.iterations[1..];
      RepeatStops(pass, next, index + 1, max);
      forall k | 1 <= k <= |run.iterations|
        ensures PassAt(pass, value, index, run.iterations, k) ==
                PassAt(pass, next, index + 1, run.iterations[1..], k - 1)
      {
        PassAtTail(pass, value, index, run.iterations, k);
      }
    }
  }

  /** Serial map, index by index: outputs of the items before the first failing one, and that item's error. */
  lemma {:induction false} SerialShape(item: nat -> Outcome, index: nat, count: nat)
    requires index <= count
    ensures var run := Serial(item, index, count);
            var n := |run.iterations|;
            && index + n <= count
            && (forall k :: 0 <= k < n ==>
                  run.iterations[k].index == index + k && item(index + k) == Ok(run.iterations[k].output))
            && (run.error.None? ==> index + n == count)
            && (run.error.Some? ==> index + n < count && item(index + n) == Err(run.error.value))
    decreases count - index
  {
    if index < count {
      SerialShape(item, index + 1, count);
    }
  }

  /** Items `0..|done|` ran without failing, and these are their entries. */
  ghost predicate Succeeded(item: nat -> Outcome, done: seq<IterationOutput>) {
    forall k: nat :: k < |done| ==> done[k].index == k && item(k) == Ok(done[k].output)
  }

  /** A serial map that has run without failing so far continues at the next index. */
  lemma {:induction false} SerialUnroll(item: nat -> Outcome, done: seq<IterationOutput>, count: nat)
    requires |done| <= count && Succeeded(item, done)
    ensures var rest := Serial(item, |done|, count);
            Serial(item, 0, count) == LoopRun(done + rest.iterations, rest.error, 0)
    decreases |done|
  {
    if done == [] {
      assert [] + Serial(item, 0, count).iterations == Serial(item, 0, count).iterations;
    } else {
      var n := |done| - 1;
      SerialUnroll(item, done[..n], count);
      assert done == done[..n] + [IterationOutput(n, done[n].output)];
    }
  }

  /** Outcome of a serial map from the items that succeeded before it stopped. */
  lemma {:induction false} SerialOutcome(item: nat -> Outcome, done: seq<IterationOutput>, count: nat)
    requires |done| <= count && Succeeded(item, done)
    requires |done| < count ==> item(|done|).Err?
    ensures LoopOutcome(Serial(item, 0, count)) ==
            if |done| < count then Err(item(|done|).error) else Ok(ScopeOut(done, LastOutput(done)))
  {
    SerialUnroll(item, done, count);
    assert done + [] == done;
  }

  /** Passes `0..|done|` ran, none failed or broke, and these are their entries. */
  ghost predicate Unbroken(pass: (Json, nat) -> Pass, value: Json, done: seq<IterationOutput>) {
    forall k: nat :: k < |done| ==>
      var p := PassAt(pass, value, 0, done, k);
      done[k] == IterationOutput(k, p.output) && !p.end.Failed? && !p.end.Broke?
  }

  lemma {:induction false} UnbrokenPrefix(pass: (Json, nat) -> Pass, value: Json, done: seq<IterationOutput>, n: nat)
    requires n <= |done|
    ensures forall k: nat :: k <= n ==> PassAt(pass, value, 0, done, k) == PassAt(pass, value, 0, done[..n], k)
  {
    assert forall k: nat :: k <= n ==> SeenValue(value, done, k) == SeenValue(value, done[..n], k);
  }

  lemma {:induction false} ChainNext(pass: (Json, nat) -> Pass, value: Json, index: nat, max: nat)
    requires index < max && !pass(value, index).end.Failed? && !pass(value, index).end.Broke?
    ensures var p := pass(value, index);
            var run, rest := Chain(pass, value, index, max), Chain(pass, JString(OutputText(p.output)), index + 1, max);
            run.iterations == [IterationOutput(index, p.output)] + rest.iterations && run.error == rest.error
  {
  }

  /** A repeat whose passes neither failed nor broke so far continues with the text of its last entry. */
  lemma {:induction false} ChainUnroll(pass: (Json, nat) -> Pass, value: Json, done: seq<IterationOutput>, max: nat)
    requires |done| <= max && Unbroken(pass, value, done)
    ensures var run := Chain(pass, value, 0, max);
            var rest := Chain(pass, SeenValue(value, done, |done|), |done|, max);
            run.iterations == done + rest.iterations && run.error == rest.error
    decreases |done|
  {
    if done == [] {
      assert [] + Chain(pass, value, 0, max).iterations == Chain(pass, value, 0, max).iterations;
    } else {
      var n := |done| - 1;
      var p := PassAt(pass, value, 0, done, n);
      UnbrokenPrefix(pass, value, done, n);
      ChainUnroll(pass, value, done[..n], max);
      ChainNext(pass, SeenValue(value, done, n), n, max);
      Assoc(done[..n], [IterationOutput(n, p.output)],
        Chain(pass, SeenValue(value, done, n + 1), n + 1, max).iterations);
      assert done == done[..n] + [IterationOutput(n, p.output)];
    }
  }

  lemma {:induction false} UnbrokenExtends(pass: (Json, nat) -> Pass, value: Json, done: seq<IterationOutput>)
    requires Unbroken(pass, value, done)
    ensures var p := pass(SeenValue(value, done, |done|), |done|);
            !p.end.Failed? && !p.end.Broke? ==> Unbroken(pass, value, done + [IterationOutput(|done|, p.output)])
  {
    var p := pass(SeenValue(value, done, |done|), |done|);
    var more := done + [IterationOutput(|done|, p.output)];
    assert more[..|done|] == done;
    UnbrokenPrefix(pass, value, more, |done|);
  }

  /** Outcome of a repeat from its unbroken passes and, if it stopped early, the pass that stopped it. */
  lemma {:induction false} ChainOutcome(pass: (Json, nat) -> Pass, value: Json, done: seq<IterationOutput>, max: nat)
    requires |done| <= max && Unbroken(pass, value, done)
    ensures var p := pass(SeenValue(value, done, |done|), |done|);
            var all := done + [IterationOutput(|done|, p.output)];
            var outcome := LoopOutcome(Chain(pass, value, 0, max));
            && (|done| < max && p.end.Failed? ==> outcome == Err(p.end.error))
            && (|done| < max && p.end.Broke? ==> outcome == Ok(ScopeOut(all, LastOutput(all))))
            && (|done| == max ==> outcome == Ok(ScopeOut(done, LastOutput(done))))
  {
    ChainUnroll(pass, value, done, max);
    assert done + [] == done;
  }

  // ---------- a bound on leaf executions ----------

  predicate IsLeaf(t: StepType) {
    t.Cmd? || t.Agent? || t.Gate? || t.Chat?
  }

  /** Most leaf executors that dispatching a step can start, whatever the leaves answer. */
  function StepBound(scopes: Scopes, step: StepDef): nat
    requires Layered(scopes)
    decreases StepRank(scopes, step), 1, 0
  {
    if IsLeaf(step.stepType) then 1
    else if Enters(step) && step.scope.value in scopes then
      ScopeBodyRank(scopes, step.scope.value);
      (if step.stepType.Call? then 1 else MaxIterations(step)) * BodyBound(scopes, scopes[step.scope.value].steps)
    else 0
  }

  function BodyBound(scopes: Scopes, steps: seq<StepDef>): nat
    requires Layered(scopes)
    decreases BodyRank(scopes, steps), 2, |steps|
  {
    if steps == [] then 0 else StepBound(scopes, steps[0]) + BodyBound(scopes, steps[1..])
  }

  lemma {:induction false} OneMore(n: nat, bound: nat)
    ensures (n + 1) * bound == n * bound + bound
  {
  }

  lemma {:induction false} DispatchBounded(w: World, scopes: Scopes, step: StepDef, ctx: CtxView)
    requires Layered(scopes) && ctx.frames != []
    ensures Dispatch(w, scopes, step, ctx).leaves <= StepBound(scopes, step)
    decreases StepRank(scopes, step), 1, 0
  {
    if Enters(step) && step.scope.value in scopes {
      var name := step.scope.value;
      ScopeBodyRank(scopes, name);
      if step.stepType.Call? {
        BodyBounded(w, scopes, scopes[name].steps, RootView(TargetOf(ctx.frames), map[]), Empty);
      } else {
        var pass := Passes(w, scopes, name, ctx);
        forall seen, i: nat ensures pass(seen, i).leaves <= BodyBound(scopes, scopes[name].steps) {
          BodyBounded(w, scopes, scopes[name].steps, ChildView(ctx, seen, i), Empty);
          assert pass(seen, i) == PassOf(w, scopes, name, ctx, seen, i);
        }
        ChainBounded(pass, UnwrapOr(step.initialValue, JNull), 0, MaxIterations(step),
          BodyBound(scopes, scopes[name].steps));
      }
    }
  }

  lemma {:induction false} BodyBounded(w: World, scopes: Scopes, steps: seq<StepDef>, ctx: CtxView, last: StepOutput)
    requires Layered(scopes) && ctx.frames != []
    ensures Body(w, scopes, steps, ctx, last).leaves <= BodyBound(scopes, steps)
    decreases BodyRank(scopes, steps), 2, |steps|
  {
    if steps != [] {
      DispatchBounded(w, scopes, steps[0], ctx);
      var move := After(Dispatch(w, scopes, steps[0], ctx), steps[0].name, ctx, last);
      if move.Go? {
        BodyBounded(w, scopes, steps[1..], move.ctx, move.last);
      }
    }
  }

  lemma {:induction false} ChainBounded(pass: (Json, nat) -> Pass, value: Json, index: nat, max: nat, bound: nat)
    requires index <= max && forall seen, i :: pass(seen, i).leaves <= bound
    ensures Chain(pass, value, index, max).leaves <= (max - index) * bound
    decreases max - index
  {
    if index < max {
      ChainBounded(pass, JString(OutputText(pass(value, index).output)), index + 1, max, bound);
      OneMore(max - (index + 1), bound);
    }
  }

  /** Nothing in the list or in any scope is refused by `Dispatch`. */
  predicate Dispatchable(scopes: Scopes, steps: seq<StepDef>) {
    forall s :: s in steps ==>
      IsLeaf(s.stepType) || (Enters(s) && s.scope.value in scopes)
  }

  ghost predicate LeavesSucceed(w: World) {
    forall step, ctx :: w.leaf(step, ctx).outcome.Ok?
  }

  /**
   * The bound is attained: with leaves that all succeed, a body that dispatches everywhere starts exactly that many.
   */
  lemma {:induction false} BoundAttained(w: World, scopes: Scopes, steps: seq<StepDef>, ctx: CtxView, last: StepOutput)
    requires Layered(scopes) && ctx.frames != [] && LeavesSucceed(w)
    requires Dispatchable(scopes, steps) && forall n :: n in scopes ==> Dispatchable(scopes, scopes[n].steps)
    ensures var r := Body(w, scopes, steps, ctx, last); r.end.Completed? && r.leaves == BodyBound(scopes, steps)
    decreases BodyRank(scopes, steps), 2, |steps|
  {
    if steps != [] {
      assert steps[0] in steps;
      DispatchAttained(w, scopes, steps[0], ctx);
      var run := Dispatch(w, scopes, steps[0], ctx);
      var ctx' := Stored(ctx.(chats := run.chats), steps[0].name, run.outcome.value);
      BoundAttained(w, scopes, steps[1..], ctx', run.outcome.value);
    }
  }

  lemma {:induction false} DispatchAttained(w: World, scopes: Scopes, step: StepDef, ctx: CtxView)
    requires Layered(scopes) && ctx.frames != [] && LeavesSucceed(w)
    requires Dispatchable(scopes, [step]) && forall n :: n in scopes ==> Dispatchable(scopes, scopes[n].steps)
    ensures var r := Dispatch(w, scopes, step, ctx); r.outcome.Ok? && r.leaves == StepBound(scopes, step)
    decreases StepRank(scopes, step), 1, 0
  {
    assert step in [step];
    if IsLeaf(step.stepType) {
      assert w.leaf(step, ctx).outcome.Ok?;
    } else {
      var name := step.scope.value;
      ScopeBodyRank(scopes, name);
      if step.stepType.Call? {
        BoundAttained(w, scopes, scopes[name].steps, RootView(TargetOf(ctx.frames), map[]), Empty);
      } else {
        var pass := Passes(w, scopes, name, ctx);
        forall seen, i: nat
          ensures pass(seen, i).leaves == BodyBound(scopes, scopes[name].steps) && pass(seen, i).end.Completed?
        {
          BoundAttained(w, scopes, scopes[name].steps, ChildView(ctx, seen, i), Empty);
          assert pass(seen, i) == PassOf(w, scopes, name, ctx, seen, i);
        }
        ChainAttained(pass, UnwrapOr(step.initialValue, JNull), 0,
          MaxIterations(step), BodyBound(scopes, scopes[name].steps));
      }
    }
  }

  lemma {:induction false} ChainAttained(pass: (Json, nat) -> Pass, value: Json, index: nat, max: nat, bound: nat)
    requires index <= max && forall seen, i :: pass(seen, i).leaves == bound && pass(seen, i).end.Completed?
    ensures var r := Chain(pass, value, index, max); r.error.None? && r.leaves == (max - index) * bound
    decreases max - index
  {
    if index < max {
      ChainAttained(pass, JString(OutputText(pass(value, index).output)), index + 1, max, bound);
      OneMore(max - (index + 1), bound);
    }
  }

  /** Leaf executors that the started items among the first `n` of a map have started. */
  function MapLeaves(w: World, scopes: Scopes, name: string, ctx: CtxView, items: seq<string>,
      started: nat -> bool, n: nat): nat
    requires Layered(scopes) && ctx.frames != [] && name in scopes && n <= |items|
  {
    if n == 0 then 0
    else
      MapLeaves(w, scopes, name, ctx, items, started, n - 1) +
      if started(n - 1) then PassOf(w, scopes, name, ctx, JString(items[n - 1]), n - 1).leaves else 0
  }

  /** A map starts at most the bound of its scope's body for each item, whichever items it starts and in any order. */
  lemma {:induction false} MapBounded(w: World, scopes: Scopes, name: string, ctx: CtxView, items: seq<string>,
      started: nat -> bool, n: nat)
    requires Layered(scopes) && ctx.frames != [] && name in scopes && n <= |items|
    ensures MapLeaves(w, scopes, name, ctx, items, started, n) <= n * BodyBound(scopes, scopes[name].steps)
  {
    if n > 0 {
      MapBounded(w, scopes, name, ctx, items, started, n - 1);
      BodyBounded(w, scopes, scopes[name].steps, ChildView(ctx, JString(items[n - 1]), n - 1), Empty);
      OneMore(n - 1, BodyBound(scopes, scopes[name].steps));
    }
  }

  /** The bound is met when every item starts, all leaves succeed and every step can be dispatched. */
  lemma {:induction false} MapAttained(w: World, scopes: Scopes, name: string, ctx: CtxView, items: seq<string>,
      started: nat -> bool, n: nat)
    requires Layered(scopes) && ctx.frames != [] && name in scopes && n <= |items| && LeavesSucceed(w)
    requires forall s :: s in scopes ==> Dispatchable(scopes, scopes[s].steps)
    requires forall k: nat :: k < n ==> started(k)
    ensures MapLeaves(w, scopes, name, ctx, items, started, n) == n * BodyBound(scopes, scopes[name].steps)
  {
    if n > 0 {
      MapAttained(w, scopes, name, ctx, items, started, n - 1);
      BoundAttained(w, scopes, scopes[name].steps, ChildView(ctx, JString(items[n - 1]), n - 1), Empty);
      OneMore(n - 1, BodyBound(scopes, scopes[name].steps));
    }
  }

  // ---------- the executors ----------

  /** Two body runs agree on everything but the number of leaves counted so far. */
  predicate SameEnd(a: BodyRun, b: BodyRun) {
    a.end == b.end && a.ctx == b.ctx && a.last == b.last
  }

  /** How the fold moves past step `i`. */
  lemma {:induction false} BodyStep(w: World, scopes: Scopes, steps: seq<StepDef>, i: nat, ctx: CtxView,
      last: StepOutput)
    requires Layered(scopes) && ctx.frames != [] && i < |steps|
    ensures var here := Body(w, scopes, steps[i..], ctx, last);
            match After(Dispatch(w, scopes, steps[i], ctx), steps[i].name, ctx, last)
            case Go(ctx', last') => SameEnd(here, Body(w, scopes, steps[i + 1..], ctx', last'))
            case Halt(end, ctx', last') => here.end == end && here.ctx == ctx' && here.last == last'
  {
    assert steps[i..][0] == steps[i] && steps[i..][1..] == steps[i + 1..];
  }

  /** Runs one scope step in the given context. Only the context's chat store can change. */
  method DispatchStep(w: World, scopes: Scopes, step: StepDef, ctx: Context) returns (outcome: Outcome)
    requires Layered(scopes) && ctx.Valid()
    modifies ctx.chats
    ensures ctx.Valid()
    ensures var run := Dispatch(w, scopes, step, old(ctx.View()));
            outcome == run.outcome && ctx.View() == old(ctx.View()).(chats := run.chats)
    decreases StepRank(scopes, step), 1, 0
  {
    match step.stepType {
      case Cmd | Agent | Gate | Chat =>
        var r := w.leaf(step, ctx.View());
        ctx.chats.messages := r.chats;
        outcome := r.outcome;
      case Repeat =>
        outcome := RepeatExecute(w, scopes, step, ctx);
      case Call =>
        outcome := CallExecute(w, scopes, step, ctx);
      case _ =>
        outcome := Err(NotSupportedInScope(step.stepType));
    }
  }

  /** One iteration of a body loop: runs the step, stores its output, and says whether and how the body ends here. */
  method RunScopeStep(w: World, scopes: Scopes, step: StepDef, child: Context, last: StepOutput)
    returns (end: Option<BodyEnd>, last': StepOutput)
    requires Layered(scopes) && child.Valid()
    modifies child, child.session, child.chats
    ensures child.Valid()
    ensures var before := old(child.View());
            var m := After(Dispatch(w, scopes, step, before), step.name, before, last);
            child.View() == m.ctx && last' == m.last && end == if m.Halt? then Some(m.end) else None
    decreases StepRank(scopes, step), 1, 1
  {
    end, last' := None, last;
    var result := DispatchStep(w, scopes, step, child);
    match result {
      case Ok(output) =>
        child.Store(step.name, output);
        last' := output;
      case Err(Flow(Break(_, value))) =>
        end, last' := Some(Broke), UnwrapOr(value, last);
      case Err(Flow(Skip(_))) =>
        child.Store(step.name, Empty);
      case Err(Flow(Next(_))) =>
        end := Some(Nexted);
      case Err(e) =>
        end := Some(Failed(e));
    }
  }

  /** The call executor's body loop. */
  method CallBody(w: World, scopes: Scopes, name: string, child: Context)
    returns (error: Option<StepError>, last: StepOutput)
    requires Layered(scopes) && child.Valid() && name in scopes
    modifies child, child.session, child.chats
    ensures child.Valid()
    ensures var body := Body(w, scopes, scopes[name].steps, old(child.View()), Empty);
            && error == (if body.end.Failed? then Some(body.end.error) else None)
            && (error.None? ==> last == body.last && child.View() == body.ctx)
    decreases ScopeRank(scopes, name), 0, 0
  {
    var steps := scopes[name].steps;
    ScopeBodyRank(scopes, name);
    last := Empty;
    ghost var whole := Body(w, scopes, steps, child.View(), Empty);
    assert steps[0..] == steps;
    for i := 0 to |steps|
      invariant child.Valid() && SameEnd(whole, Body(w, scopes, steps[i..], child.View(), last))
    {
      StepRankWithin(scopes, steps, i);
      BodyStep(w, scopes, steps, i, child.View(), last);
      var end;
      end, last := RunScopeStep(w, scopes, steps[i], child, last);
      if end.Some? {
        return if end.value.Failed? then Some(end.value.error) else None, last;
      }
    }
    return None, last;
  }

  /** The call executor: one pass in a context that inherits only the target. */
  method CallExecute(w: World, scopes: Scopes, step: StepDef, ctx: Context) returns (outcome: Outcome)
    requires Layered(scopes) && ctx.Valid() && step.stepType.Call?
    ensures outcome == Called(w, scopes, step, ctx.View()).outcome
    decreases StepRank(scopes, step), 0, 1
  {
    if step.scope.None? {
      return Err(MissingScopeField("call"));
    }
    if step.scope.value !in scopes {
      return Err(ScopeNotFound(step.scope.value));
    }
    var scope := scopes[step.scope.value];
    var child := new Context(TargetOf(ctx.Frames()), map[]);
    var error, last := CallBody(w, scopes, step.scope.value, child);
    if error.Some? {
      return Err(error.value);
    }
    var output := ScopeResult(w, scope, child.View(), last);
    return Ok(ScopeOut([IterationOutput(0, output)], Some(output)));
  }

  /** Fresh context of one repeat or map iteration. */
  method MakeChildContext(ctx: Context, value: Json, index: nat) returns (child: Context)
    requires ctx.Valid()
    ensures child.Valid() && fresh(child) && fresh(child.session) && fresh(child.chats)
    ensures child.View() == ChildView(ctx.View(), value, index)
  {
    ghost var view := ctx.View();
    child := new Context(TargetOf(ctx.Frames()), AllVariables(ctx.Frames()));
    assert child.Frames() == [child.Top()];
    child.scopeValue, child.scopeIndex := Some(value), index;
    child.stackInfo, child.promptsDir := GetStackInfo(ctx.Frames()), ctx.promptsDir;
    assert child.Frames() == [child.Top()] && ctx.View() == view;
  }

  /** The map executor's body loop, over a context owned by the caller. */
  method ExecuteScopeSteps(w: World, scopes: Scopes, name: string, child: Context) returns (outcome: Outcome)
    requires Layered(scopes) && child.Valid() && name in scopes
    modifies child, child.session, child.chats
    ensures var body := Body(w, scopes, scopes[name].steps, old(child.View()), Empty);
            && (body.end.Failed? ==> outcome == Err(body.end.error))
            && (!body.end.Failed? ==> outcome == Ok(ScopeResult(w, scopes[name], body.ctx, body.last)))
    decreases ScopeRank(scopes, name), 0, 0
  {
    var steps := scopes[name].steps;
    ScopeBodyRank(scopes, name);
    var last := Empty;
    ghost var whole := Body(w, scopes, steps, child.View(), Empty);
    assert steps[0..] == steps;
    for i := 0 to |steps|
      invariant child.Valid() && SameEnd(whole, Body(w, scopes, steps[i..], child.View(), last))
    {
      StepRankWithin(scopes, steps, i);
      BodyStep(w, scopes, steps, i, child.View(), last);
      var end;
      end, last := RunScopeStep(w, scopes, steps[i], child, last);
      if end.Some? {
        if end.value.Failed? {
          return Err(end.value.error);
        }
        break;
      }
    }
    return Ok(ScopeResult(w, scopes[name], child.View(), last));
  }

  /** The repeat executor's body loop, which also remembers whether the pass broke. */
  method RepeatBody(w: World, scopes: Scopes, name: string, child: Context)
    returns (error: Option<StepError>, output: StepOutput, shouldBreak: bool)
    requires Layered(scopes) && child.Valid() && name in scopes
    modifies child, child.session, child.chats
    ensures var body := Body(w, scopes, scopes[name].steps, old(child.View()), Empty);
            && error == (if body.end.Failed? then Some(body.end.error) else None)
            && (error.None? ==>
                  output == ScopeResult(w, scopes[name], body.ctx, body.last) && shouldBreak == body.end.Broke?)
    decreases ScopeRank(scopes, name), 0, 0
  {
    var steps := scopes[name].steps;
    ScopeBodyRank(scopes, name);
    output, shouldBreak := Empty, false;
    var last := Empty;
    ghost var whole := Body(w, scopes, steps, child.View(), Empty);
    assert steps[0..] == steps;
    for i := 0 to |steps|
      invariant child.Valid() && !shouldBreak
      invariant SameEnd(whole, Body(w, scopes, steps[i..], child.View(), last))
    {
      StepRankWithin(scopes, steps, i);
      BodyStep(w, scopes, steps, i, child.View(), last);
      var end;
      end, last := RunScopeStep(w, scopes, steps[i], child, last);
      if end.Some? {
        if end.value.Failed? {
          return Some(end.value.error), Empty, false;
        }
        shouldBreak := end.value.Broke?;
        break;
      }
    }
    return None, ScopeResult(w, scopes[name], child.View(), last), shouldBreak;
  }

  /** One iteration of the repeat executor, in a fresh child context. */
  method RepeatPass(w: World, scopes: Scopes, name: string, ctx: Context, value: Json, index: nat)
    returns (error: Option<StepError>, output: StepOutput, shouldBreak: bool)
    requires Layered(scopes) && ctx.Valid() && name in scopes
    ensures var p := PassOf(w, scopes, name, ctx.View(), value, index);
            && error == (if p.end.Failed? then Some(p.end.error) else None)
            && (error.None? ==> output == p.output && shouldBreak == p.end.Broke?)
    decreases ScopeRank(scopes, name), 0, 1
  {
    var child := MakeChildContext(ctx, value, index);
    error, output, shouldBreak := RepeatBody(w, scopes, name, child);
  }

  /** The repeat executor. */
  method RepeatExecute(w: World, scopes: Scopes, step: StepDef, ctx: Context) returns (outcome: Outcome)
    requires Layered(scopes) && ctx.Valid() && step.stepType.Repeat?
    ensures outcome == RepeatRun(w, scopes, step, old(ctx.View())).outcome
    decreases StepRank(scopes, step), 0, 2
  {
    if step.scope.None? {
      return Err(MissingScopeField("repeat"));
    }
    if step.scope.value !in scopes {
      return Err(ScopeNotFound(step.scope.value));
    }
    var name := step.scope.value;
    var max := MaxIterations(step);
    var initial := UnwrapOr(step.initialValue, JNull);
    var iterations: seq<IterationOutput> := [];
    var scopeValue := initial;
    ghost var pass := Passes(w, scopes, name, ctx.View());
    for i := 0 to max
      invariant |iterations| == i && scopeValue == SeenValue(initial, iterations, i)
      invariant Unbroken(pass, initial, iterations)
    {
      var error, output, shouldBreak := RepeatPass(w, scopes, name, ctx, scopeValue, i);
      ghost var p := pass(scopeValue, i);
      ChainOutcome(pass, initial, iterations, max);
      if error.Some? {
        return Err(error.value);
      }
      scopeValue := JString(OutputText(output));
      UnbrokenExtends(pass, initial, iterations);
      iterations := iterations + [IterationOutput(i, output)];
      if shouldBreak {
        return Ok(ScopeOut(iterations, LastOutput(iterations)));
      }
    }
    ChainOutcome(pass, initial, iterations, max);
    return Ok(ScopeOut(iterations, LastOutput(iterations)));
  }

  /** One item of a map, in a fresh child context. */
  method RunItem(w: World, scopes: Scopes, name: string, ctx: Context, item: string, index: nat)
    returns (outcome: Outcome)
    requires Layered(scopes) && ctx.Valid() && name in scopes
    ensures outcome == ItemOutcome(w, scopes, name, ctx.View(), item, index)
  {
    var child := MakeChildContext(ctx, JString(item), index);
    outcome := ExecuteScopeSteps(w, scopes, name, child);
  }

  /** The serial map executor. */
  method SerialExecute(w: World, scopes: Scopes, name: string, ctx: Context, items: seq<string>)
    returns (outcome: Outcome)
    requires Layered(scopes) && ctx.Valid() && name in scopes
    ensures outcome == LoopOutcome(Serial(Items(w, scopes, name, old(ctx.View()), items), 0, |items|))
  {
    var iterations: seq<IterationOutput> := [];
    ghost var item := Items(w, scopes, name, ctx.View(), items);
    for i := 0 to |items|
      invariant |iterations| == i
      invariant Succeeded(item, iterations)
    {
      var result := RunItem(w, scopes, name, ctx, items[i], i);
      assert item(i) == result;
      if result.Err? {
        SerialOutcome(item, iterations, |items|);
        return Err(result.error);
      }
      iterations := iterations + [IterationOutput(i, result.value)];
    }
    SerialOutcome(item, iterations, |items|);
    return Ok(ScopeOut(iterations, LastOutput(iterations)));
  }
}
