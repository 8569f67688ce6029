/**
 * What the bodies of scopes compute, from the outcomes of the steps they reach and the contexts these are handed
 * (src/steps/call.rs, repeat.rs, map.rs).
 */
module ScopeLaws {
  import opened Prelude
  import opened Schema
  import opened ContextStore
  import opened Validator
  import opened ScopeExecution
  import opened ParallelMap

  // ---------- the contexts of bodies ----------

  /** The target as text: empty when there is none or it is not a string. */
  ghost predicate IsTarget(ctx: CtxView, target: string) {
    match GetVar(ctx.frames, "target")
    case Some(JString(text)) => target == text
    case _ => target == ""
  }

  /** A context of its own: no outputs or typed values, no session id, no chats. */
  ghost predicate OwnContext(v: CtxView) {
    && |v.frames| == 1 && v.frames[0].steps == map[] && v.frames[0].parsed == map[]
    && v.session == None && v.chats == map[]
  }

  /** The body of a call sees the target and no other variable. */
  ghost predicate CallContext(ctx: CtxView, v: CtxView) {
    && OwnContext(v)
    && (exists target :: IsTarget(ctx, target) && v.frames[0].variables == map["target" := JString(target)])
    && v.frames[0].scopeValue == None && v.frames[0].scopeIndex == 0
    && v.frames[0].stackInfo == None && v.frames[0].promptsDir == "prompts"
  }

  /**
   * The body of a repeat or map sees its scope value and index, all variables of the outer context with the target as
   * text, the nearest stack and the prompts directory.
   */
  ghost predicate IterationContext(ctx: CtxView, value: Json, index: nat, v: CtxView)
    requires ctx.frames != []
  {
    && OwnContext(v)
    && (forall n :: n != "target" ==> Lookup(v.frames[0].variables, n) == GetVar(ctx.frames, n))
    && (exists target :: IsTarget(ctx, target) && Lookup(v.frames[0].variables, "target") == Some(JString(target)))
    && v.frames[0].scopeValue == Some(value) && v.frames[0].scopeIndex == index
    && v.frames[0].stackInfo == GetStackInfo(ctx.frames) && v.frames[0].promptsDir == ctx.frames[0].promptsDir
  }

  lemma {:induction false} CallViewIs(ctx: CtxView)
    ensures CallContext(ctx, RootView(TargetOf(ctx.frames), map[]))
  {
    assert IsTarget(ctx, TargetOf(ctx.frames));
  }

  lemma {:induction false} ChildViewIs(ctx: CtxView, value: Json, index: nat)
    requires ctx.frames != []
    ensures IterationContext(ctx, value, index, ChildView(ctx, value, index))
  {
    assert IsTarget(ctx, TargetOf(ctx.frames));
    forall n | n != "target"
      ensures Lookup(ChildView(ctx, value, index).frames[0].variables, n) == GetVar(ctx.frames, n)
    {
      AllVariablesIsNearestFirst(ctx.frames, n);
    }
  }

  // ---------- one step of a body ----------

  /** Which executor runs a step of a scope, and what is refused. */
  lemma {:induction false} DispatchIs(w: World, scopes: Scopes, step: StepDef, ctx: CtxView)
    requires Layered(scopes) && ctx.frames != []
    ensures var run := Dispatch(w, scopes, step, ctx);
            match step.stepType
            case Cmd => (run.outcome, run.chats) == (w.leaf(step, ctx).outcome, w.leaf(step, ctx).chats)
            case Agent => (run.outcome, run.chats) == (w.leaf(step, ctx).outcome, w.leaf(step, ctx).chats)
            case Gate => (run.outcome, run.chats) == (w.leaf(step, ctx).outcome, w.leaf(step, ctx).chats)
            case Chat => (run.outcome, run.chats) == (w.leaf(step, ctx).outcome, w.leaf(step, ctx).chats)
            case Map => run.outcome == Err(Fail("Step type '" + "map" + "' not supported in scope"))
            case Parallel => run.outcome == Err(Fail("Step type '" + "parallel" + "' not supported in scope"))
            case Template => run.outcome == Err(Fail("Step type '" + "template" + "' not supported in scope"))
            case Script => run.outcome == Err(Fail("Step type '" + "script" + "' not supported in scope"))
            case _ => run.chats == ctx.chats
  {
  }

  /** An Ok output, or an empty one for a skip, is stored under the step's name; nothing else in the context changes. */
  ghost predicate Advances(v: CtxView, run: StepRun, name: string, v': CtxView)
    requires v.frames != [] && v'.frames != []
  {
    && GoesOn(run.outcome) && SameSetting(v', v) && v'.chats == run.chats
    && (forall n :: Out(v', n) ==
                    if n != name then Out(v, n) else if run.outcome.Ok? then Some(run.outcome.value) else Some(Empty))
    && (forall n :: Typed(v', n) == Typed(v, n))
    && v'.session ==
       (if v.session.None? && run.outcome.Ok? && run.outcome.value.AgentOut? then run.outcome.value.sessionId
        else v.session)
  }

  // ---------- a whole body ----------

  function OutcomeOf(w: World, scopes: Scopes, steps: seq<StepDef>, views: seq<CtxView>, k: nat): Outcome
    requires Layered(scopes) && k < |steps| && k < |views| && views[k].frames != []
  {
    Dispatch(w, scopes, steps[k], views[k]).outcome
  }

  ghost predicate AllFramed(views: seq<CtxView>) {
    forall k :: 0 <= k < |views| ==> views[k].frames != []
  }

  ghost predicate LastOkAt(w: World, scopes: Scopes, steps: seq<StepDef>, views: seq<CtxView>, m: nat, j: nat,
      last: StepOutput)
    requires Layered(scopes) && j < m <= |steps| && m <= |views| && AllFramed(views)
  {
    && OutcomeOf(w, scopes, steps, views, j) == Ok(last)
    && forall i: nat :: j < i < m ==> OutcomeOf(w, scopes, steps, views, i).Err?
  }

  /** The output of the last Ok step among the first `m`, or the one before all of them. */
  ghost predicate LastOkAmong(w: World, scopes: Scopes, steps: seq<StepDef>, views: seq<CtxView>, m: nat,
      first: StepOutput, last: StepOutput)
    requires Layered(scopes) && m <= |steps| && m <= |views| && AllFramed(views)
  {
    || (exists j: nat :: j < m && LastOkAt(w, scopes, steps, views, m, j, last))
    || (last == first && forall i: nat :: i < m ==> OutcomeOf(w, scopes, steps, views, i).Err?)
  }

  /** How a body ends at a step whose outcome does not let it go on, and the value the step's break carries, if any. */
  function EndOf(outcome: Outcome): BodyEnd
    requires outcome.Err?
  {
    if Breaks(outcome) then Broke else if Nexts(outcome) then Nexted else Failed(outcome.error)
  }

  ghost predicate BreaksWith(outcome: Outcome, value: StepOutput) {
    Breaks(outcome) && outcome.error.flow.value == Some(value)
  }

  /**
   * A run of a body, given by the contexts in which its steps are reached: each step lets the body go on to the next
   * context, except the last one reached when the body does not complete. That one leaves no output, and decides the
   * end. The last output is that of the last Ok step before, unless a break carries a value.
   */
  ghost predicate BodyRuns(w: World, scopes: Scopes, steps: seq<StepDef>, views: seq<CtxView>, first: StepOutput,
      r: BodyRun)
    requires Layered(scopes)
  {
    && 1 <= |views| <= |steps| + 1 && AllFramed(views)
    && (forall k :: 0 <= k < |views| - 1 ==>
          Advances(views[k], Dispatch(w, scopes, steps[k], views[k]), steps[k].name, views[k + 1]))
    && var m := |views| - 1;
       if m == |steps| then
         r.end == Completed && r.ctx == views[m] && LastOkAmong(w, scopes, steps, views, m, first, r.last)
       else
         var run := Dispatch(w, scopes, steps[m], views[m]);
         && !GoesOn(run.outcome) && r.end == EndOf(run.outcome) && r.ctx == views[m].(chats := run.chats)
         && (BreaksWith(run.outcome, r.last) ||
             ((Breaks(run.outcome) ==> run.outcome.error.flow.value == None) &&
              LastOkAmong(w, scopes, steps, views, m, first, r.last)))
  }

  lemma {:induction false} FirstAdvances(w: World, scopes: Scopes, step: StepDef, ctx: CtxView, last: StepOutput)
    requires Layered(scopes) && ctx.frames != []
    ensures var run := Dispatch(w, scopes, step, ctx);
            var m := After(run, step.name, ctx, last);
            if GoesOn(run.outcome) then
              && m.Go? && Advances(ctx, run, step.name, m.ctx)
              && m.last == (if run.outcome.Ok? then run.outcome.value else last)
            else
              && m.Halt? && m.end == EndOf(run.outcome) && m.ctx == ctx.(chats := run.chats)
              && m.last == if Breaks(run.outcome) then UnwrapOr(run.outcome.error.flow.value, last) else last
  {
  }

  lemma {:induction false} OutcomeBehind(w: World, scopes: Scopes, steps: seq<StepDef>, views: seq<CtxView>,
      ctx: CtxView, i: nat)
    requires Layered(scopes) && i + 1 < |steps| && i < |views| && views[i].frames != []
    ensures OutcomeOf(w, scopes, steps, [ctx] + views, i + 1) == OutcomeOf(w, scopes, steps[1..], views, i)
  {
  }

  lemma {:induction false} OkBehind(w: World, scopes: Scopes, steps: seq<StepDef>, views: seq<CtxView>, ctx: CtxView,
      m: nat, j: nat, last: StepOutput)
    requires Layered(scopes) && ctx.frames != [] && AllFramed(views) && j < m <= |views| && m < |steps|
    requires LastOkAt(w, scopes, steps[1..], views, m, j, last)
    ensures LastOkAt(w, scopes, steps, [ctx] + views, m + 1, j + 1, last)
  {
    OutcomeBehind(w, scopes, steps, views, ctx, j);
    forall i: nat | j + 1 < i < m + 1 ensures OutcomeOf(w, scopes, steps, [ctx] + views, i).Err? {
      OutcomeBehind(w, scopes, steps, views, ctx, i - 1);
    }
  }

  lemma {:induction false} NoOkBehind(w: World, scopes: Scopes, steps: seq<StepDef>, views: seq<CtxView>, ctx: CtxView,
      m: nat, first: StepOutput, last: StepOutput)
    requires Layered(scopes) && ctx.frames != [] && AllFramed(views) && m <= |views| && m < |steps|
    requires forall i: nat :: i < m ==> OutcomeOf(w, scopes, steps[1..], views, i).Err?
    requires var outcome := Dispatch(w, scopes, steps[0], ctx).outcome;
             last == if outcome.Ok? then outcome.value else first
    ensures LastOkAmong(w, scopes, steps, [ctx] + views, m + 1, first, last)
  {
    var all := [ctx] + views;
    forall i: nat | 0 < i < m + 1 ensures OutcomeOf(w, scopes, steps, all, i).Err? {
      OutcomeBehind(w, scopes, steps, views, ctx, i - 1);
    }
    if OutcomeOf(w, scopes, steps, all, 0).Ok? {
      assert LastOkAt(w, scopes, steps, all, m + 1, 0, last);
    }
  }

  lemma {:induction false} MoreOk(w: World, scopes: Scopes, steps: seq<StepDef>, views: seq<CtxView>, ctx: CtxView,
      m: nat, first: StepOutput, last: StepOutput)
    requires Layered(scopes) && ctx.frames != [] && AllFramed(views) && m <= |views| && m < |steps|
    requires var outcome := Dispatch(w, scopes, steps[0], ctx).outcome;
             LastOkAmong(w, scopes, steps[1..], views, m, if outcome.Ok? then outcome.value else first, last)
    ensures LastOkAmong(w, scopes, steps, [ctx] + views, m + 1, first, last)
  {
    if j: nat :| j < m && LastOkAt(w, scopes, steps[1..], views, m, j, last) {
      OkBehind(w, scopes, steps, views, ctx, m, j, last);
    } else {
      NoOkBehind(w, scopes, steps, views, ctx, m, first, last);
    }
  }

  /** The run of a body from its first step and the run of the others. */
  lemma {:induction false} BodyRunsOn(w: World, scopes: Scopes, steps: seq<StepDef>, ctx: CtxView, views: seq<CtxView>,
      first: StepOutput, r: BodyRun)
    requires Layered(scopes) && steps != [] && ctx.frames != [] && views != [] && views[0].frames != []
    requires var run := Dispatch(w, scopes, steps[0], ctx);
             && Advances(ctx, run, steps[0].name, views[0])
             && BodyRuns(w, scopes, steps[1..], views, if run.outcome.Ok? then run.outcome.value else first, r)
    ensures BodyRuns(w, scopes, steps, [ctx] + views, first, r)
  {
    var outcome := Dispatch(w, scopes, steps[0], ctx).outcome;
    var m := |views| - 1;
    if LastOkAmong(w, scopes, steps[1..], views, m, if outcome.Ok? then outcome.value else first, r.last) {
      MoreOk(w, scopes, steps, views, ctx, m, first, r.last);
    }
    var all := [ctx] + views;
    forall k | 0 <= k < |all| - 1
      ensures Advances(all[k], Dispatch(w, scopes, steps[k], all[k]), steps[k].name, all[k + 1])
    {
      assert k > 0 ==> all[k] == views[k - 1] && steps[k] == steps[1..][k - 1] && all[k + 1] == views[k];
    }
  }

  /** A body without steps, or whose first step ends it. */
  lemma {:induction false} BodyEndsAtOnce(w: World, scopes: Scopes, steps: seq<StepDef>, ctx: CtxView,
      first: StepOutput)
    requires Layered(scopes) && ctx.frames != []
    requires steps != [] ==> !GoesOn(Dispatch(w, scopes, steps[0], ctx).outcome)
    ensures BodyRuns(w, scopes, steps, [ctx], first, Body(w, scopes, steps, ctx, first))
  {
    if steps != [] {
      FirstAdvances(w, scopes, steps[0], ctx, first);
    }
  }

  /** Every body runs like that. */
  lemma {:induction false} BodyIs(w: World, scopes: Scopes, steps: seq<StepDef>, ctx: CtxView, first: StepOutput)
    returns (views: seq<CtxView>)
    requires Layered(scopes) && ctx.frames != []
    ensures BodyRuns(w, scopes, steps, views, first, Body(w, scopes, steps, ctx, first)) && views[0] == ctx
    decreases |steps|
  {
    if steps == [] || !GoesOn(Dispatch(w, scopes, steps[0], ctx).outcome) {
      BodyEndsAtOnce(w, scopes, steps, ctx, first);
      views := [ctx];
    } else {
      FirstAdvances(w, scopes, steps[0], ctx, first);
      var m := After(Dispatch(w, scopes, steps[0], ctx), steps[0].name, ctx, first);
      var rest := BodyIs(w, scopes, steps[1..], m.ctx, m.last);
      var r := Body(w, scopes, steps[1..], m.ctx, m.last);
      BodyRunsOn(w, scopes, steps, ctx, rest, first, r);
      BodyGoesOn(w, scopes, steps, ctx, first);
      views := [ctx] + rest;
    }
  }

  lemma {:induction false} BodyGoesOn(w: World, scopes: Scopes, steps: seq<StepDef>, ctx: CtxView, first: StepOutput)
    requires Layered(scopes) && steps != [] && ctx.frames != []
    requires GoesOn(Dispatch(w, scopes, steps[0], ctx).outcome)
    ensures var m := After(Dispatch(w, scopes, steps[0], ctx), steps[0].name, ctx, first);
            m.Go? && SameEnd(Body(w, scopes, steps, ctx, first), Body(w, scopes, steps[1..], m.ctx, m.last))
  {
  }

  // ---------- scopes ----------

  /** The scope's answer: its last output, unless it has an `outputs` template that renders behind the body. */
  ghost predicate ResultOf(w: World, scope: ScopeDef, r: BodyRun, output: StepOutput) {
    match scope.outputs
    case None => output == r.last
    case Some(template) =>
      match w.render(template, Seen(r.ctx))
      case Ok(text) => output == CmdOut(text, "", 0)
      case Err(_) => output == r.last
  }

  /** The body of a scope, run from a context with nothing as its last output, ends like this with this answer. */
  ghost predicate Answers(w: World, scopes: Scopes, name: string, v: CtxView, end: BodyEnd, output: StepOutput)
    requires Layered(scopes)
  {
    name in scopes &&
    exists views, r ::
      && BodyRuns(w, scopes, scopes[name].steps, views, Empty, r) && views[0] == v
      && r.end == end && ResultOf(w, scopes[name], r, output)
  }

  lemma {:induction false} BodyAnswers(w: World, scopes: Scopes, name: string, v: CtxView)
    requires Layered(scopes) && name in scopes && v.frames != []
    ensures var r := Body(w, scopes, scopes[name].steps, v, Empty);
            Answers(w, scopes, name, v, r.end, ScopeResult(w, scopes[name], r.ctx, r.last))
  {
    var views := BodyIs(w, scopes, scopes[name].steps, v, Empty);
  }

  /** A call runs the scope once, with the target only, and answers with a single entry; it leaves chats alone. */
  lemma {:induction false} CallIs(w: World, scopes: Scopes, step: StepDef, ctx: CtxView)
    returns (v: CtxView, end: BodyEnd, output: StepOutput)
    requires Layered(scopes) && ctx.frames != [] && step.stepType.Call?
    ensures var run := Dispatch(w, scopes, step, ctx);
            && run.chats == ctx.chats
            && (step.scope.None? ==> run.outcome == Err(Fail("call" + " step missing 'scope' field")))
            && (step.scope.Some? && step.scope.value !in scopes ==>
                  run.outcome == Err(Fail("scope '" + step.scope.value + "' not found")))
            && (step.scope.Some? && step.scope.value in scopes ==>
                  && CallContext(ctx, v) && Answers(w, scopes, step.scope.value, v, end, output)
                  && run.outcome == if end.Failed? then Err(end.error)
                                    else Ok(ScopeOut([IterationOutput(0, output)], Some(output))))
  {
    v, end, output := RootView(TargetOf(ctx.frames), map[]), Completed, Empty;
    CallViewIs(ctx);
    if step.scope.Some? && step.scope.value in scopes {
      var name := step.scope.value;
      var r := Body(w, scopes, scopes[name].steps, v, Empty);
      end, output := r.end, ScopeResult(w, scopes[name], r.ctx, r.last);
      BodyAnswers(w, scopes, name, v);
    }
  }

  /** A pass over a scope runs its body in the context of that iteration. */
  lemma {:induction false} PassIs(w: World, scopes: Scopes, name: string, ctx: CtxView, value: Json, index: nat)
    returns (v: CtxView)
    requires Layered(scopes) && ctx.frames != [] && name in scopes
    ensures IterationContext(ctx, value, index, v)
    ensures var p := PassOf(w, scopes, name, ctx, value, index); Answers(w, scopes, name, v, p.end, p.output)
  {
    v := ChildView(ctx, value, index);
    ChildViewIs(ctx, value, index);
    BodyAnswers(w, scopes, name, v);
  }

  // ---------- the items of a map ----------

  /** A map without a list, without a scope or over an unknown one has no items; else they are read off the text. */
  lemma {:induction false} MapItemsIs(w: World, scopes: Scopes, step: StepDef, ctx: CtxView)
    ensures MapItems(w, scopes, step, ctx) ==
            match (step.items, step.scope)
            case (None, _) => Err(Fail("map step missing 'items' field"))
            case (_, None) => Err(Fail("map" + " step missing 'scope' field"))
            case (Some(template), Some(name)) =>
              if name !in scopes then Err(Fail("scope '" + name + "' not found"))
              else
                match w.render(template, Visible(ctx.frames, ctx.session))
                case Ok(text) => Ok(w.splitItems(text))
                case Err(e) => Err(e)
  {
  }

  /** Item `k` of a map: the body runs with that item as its scope value and `k` as its index. */
  lemma {:induction false} ItemIs(w: World, scopes: Scopes, name: string, ctx: CtxView, items: seq<string>, k: nat)
    returns (v: CtxView, end: BodyEnd, output: StepOutput)
    requires Layered(scopes) && ctx.frames != [] && name in scopes && k < |items|
    ensures IterationContext(ctx, JString(items[k]), k, v) && Answers(w, scopes, name, v, end, output)
    ensures Items(w, scopes, name, ctx, items)(k) == if end.Failed? then Err(end.error) else Ok(output)
  {
    v := PassIs(w, scopes, name, ctx, JString(items[k]), k);
    var p := PassOf(w, scopes, name, ctx, JString(items[k]), k);
    end, output := p.end, p.output;
  }

  /** When the body is one leaf step and the scope has no `outputs`, an item answers what that leaf does. */
  lemma {:induction false} LeafItemIs(w: World, scopes: Scopes, name: string, ctx: CtxView, items: seq<string>, k: nat)
    returns (v: CtxView)
    requires Layered(scopes) && ctx.frames != [] && name in scopes && k < |items|
    requires |scopes[name].steps| == 1 && IsLeaf(scopes[name].steps[0].stepType) && scopes[name].outputs.None?
    ensures IterationContext(ctx, JString(items[k]), k, v)
    ensures var outcome := w.leaf(scopes[name].steps[0], v).outcome;
            outcome.Ok? ==> Items(w, scopes, name, ctx, items)(k) == outcome
  {
    var end, output;
    v, end, output := ItemIs(w, scopes, name, ctx, items, k);
    if w.leaf(scopes[name].steps[0], v).outcome.Ok? {
      LeafAnswers(w, scopes, name, v, end, output);
    }
  }

  lemma {:induction false} LeafAnswers(w: World, scopes: Scopes, name: string, v: CtxView, end: BodyEnd,
      output: StepOutput)
    requires Layered(scopes) && name in scopes && Answers(w, scopes, name, v, end, output)
    requires |scopes[name].steps| == 1 && IsLeaf(scopes[name].steps[0].stepType) && scopes[name].outputs.None?
    requires w.leaf(scopes[name].steps[0], v).outcome.Ok?
    ensures end == Completed && w.leaf(scopes[name].steps[0], v).outcome == Ok(output)
  {
    var steps := scopes[name].steps;
    var views, r :| BodyRuns(w, scopes, steps, views, Empty, r) && views[0] == v &&
                    r.end == end && ResultOf(w, scopes[name], r, output);
    DispatchIs(w, scopes, steps[0], v);
    assert OutcomeOf(w, scopes, steps, views, 0).Ok?;
  }

  /** What a map answers when all its items succeed: one entry per item, in order, the last of them as its value. */
  lemma {:induction false} MapEntries(item: nat -> Outcome, count: nat, outcome: Outcome)
    requires MapAnswer(item, count, outcome)
    ensures outcome.Ok? ==>
              && outcome.value.ScopeOut? && |outcome.value.iterations| == count
              && (forall k: nat :: k < count ==>
                    outcome.value.iterations[k].index == k && item(k) == Ok(outcome.value.iterations[k].output))
              && outcome.value.finalValue == if count == 0 then None else Some(item(count - 1).value)
    ensures outcome.Err? ==> exists k: nat :: k < count && item(k) == outcome
  {
    SerialEntries(item, count);
    if outcome.Ok? {
      var its := Serial(item, 0, count).iterations;
      assert count > 0 ==> its[count - 1] == Last(its);
    }
  }

  lemma {:induction false} SerialEntries(item: nat -> Outcome, count: nat)
    ensures var run := Serial(item, 0, count);
            run.error.None? ==>
              && |run.iterations| == count
              && forall k: nat :: k < count ==> run.iterations[k].index == k && item(k) == Ok(run.iterations[k].output)
  {
    SerialShape(item, 0, count);
    var run := Serial(item, 0, count);
    forall k: nat | k < |run.iterations|
      ensures run.iterations[k].index == k && item(k) == Ok(run.iterations[k].output)
    {
      var i := 0 + k;
      assert run.iterations[k].index == i && item(i) == Ok(run.iterations[k].output);
    }
  }

  // ---------- the passes of a repeat ----------

  /** The value that pass `k` of a repeat sees: the initial value, or the text of the output before it. */
  ghost predicate SeesValue(step: StepDef, outs: seq<StepOutput>, k: nat, value: Json)
    requires k <= |outs|
  {
    value ==
      if k > 0 then JString(OutputText(outs[k - 1]))
      else if step.initialValue.Some? then step.initialValue.value
      else JNull
  }

  /** Pass `k` runs the scope with that value and its number, and ends like this with this answer. */
  ghost predicate PassRuns(w: World, scopes: Scopes, step: StepDef, ctx: CtxView, outs: seq<StepOutput>, k: nat,
      end: BodyEnd, output: StepOutput)
    requires Layered(scopes) && ctx.frames != [] && step.scope.Some? && k <= |outs|
  {
    exists value, v ::
      && SeesValue(step, outs, k, value) && IterationContext(ctx, value, k, v)
      && Answers(w, scopes, step.scope.value, v, end, output)
  }

  /** A pass that is in the answer: it did not fail, and only the last one may have broken. */
  ghost predicate PassCounts(w: World, scopes: Scopes, step: StepDef, ctx: CtxView, outs: seq<StepOutput>, k: nat)
    requires Layered(scopes) && ctx.frames != [] && step.scope.Some? && k < |outs|
  {
    exists end ::
      PassRuns(w, scopes, step, ctx, outs, k, end, outs[k]) && !end.Failed? && (end.Broke? ==> k == |outs| - 1)
  }

  function Entries(outs: seq<StepOutput>): seq<IterationOutput> {
    seq(|outs|, k requires 0 <= k < |outs| => IterationOutput(k, outs[k]))
  }

  /** Iterations of a repeat when it says nothing, and otherwise as many as it says. */
  function Limit(step: StepDef): nat {
    match step.maxIterations
    case Some(n) => n
    case None => 3
  }

  /**
   * A repeat, given by the outputs of its passes: at most as many as it allows. It answers with one entry for each
   * pass, and stops early only behind a pass that broke; or it fails with the error of the pass behind them.
   */
  ghost predicate RepeatRuns(w: World, scopes: Scopes, step: StepDef, ctx: CtxView, outs: seq<StepOutput>,
      outcome: Outcome)
    requires Layered(scopes) && ctx.frames != [] && step.scope.Some?
  {
    && |outs| <= Limit(step)
    && (forall k :: 0 <= k < |outs| ==> PassCounts(w, scopes, step, ctx, outs, k))
    && match outcome
       case Ok(output) =>
         && output == ScopeOut(Entries(outs), if outs == [] then None else Some(Last(outs)))
         && (|outs| < Limit(step) ==>
               outs != [] && PassRuns(w, scopes, step, ctx, outs, |outs| - 1, Broke, Last(outs)))
       case Err(e) =>
         |outs| < Limit(step) && exists output :: PassRuns(w, scopes, step, ctx, outs, |outs|, Failed(e), output)
  }

  lemma {:induction false} PassAtRuns(w: World, scopes: Scopes, step: StepDef, ctx: CtxView, outs: seq<StepOutput>,
      k: nat)
    requires Layered(scopes) && ctx.frames != [] && step.scope.Some? && step.scope.value in scopes && k <= |outs|
    ensures var initial := UnwrapOr(step.initialValue, JNull);
            var p := PassAt(Passes(w, scopes, step.scope.value, ctx), initial, 0, Entries(outs), k);
            PassRuns(w, scopes, step, ctx, outs, k, p.end, p.output)
  {
    var value := SeenValue(UnwrapOr(step.initialValue, JNull), Entries(outs), k);
    var v := PassIs(w, scopes, step.scope.value, ctx, value, k);
    assert SeesValue(step, outs, k, value);
  }

  /** Every repeat over a declared scope runs like that. */
  lemma {:induction false} RepeatIs(w: World, scopes: Scopes, step: StepDef, ctx: CtxView)
    returns (outs: seq<StepOutput>)
    requires Layered(scopes) && ctx.frames != [] && step.stepType.Repeat?
    ensures var run := Dispatch(w, scopes, step, ctx);
            && run.chats == ctx.chats
            && (step.scope.None? ==> run.outcome == Err(Fail("repeat" + " step missing 'scope' field")))
            && (step.scope.Some? && step.scope.value !in scopes ==>
                  run.outcome == Err(Fail("scope '" + step.scope.value + "' not found")))
            && (step.scope.Some? && step.scope.value in scopes ==>
                  RepeatRuns(w, scopes, step, ctx, outs, run.outcome))
  {
    outs := [];
    if step.scope.Some? && step.scope.value in scopes {
      var pass, initial := Passes(w, scopes, step.scope.value, ctx), UnwrapOr(step.initialValue, JNull);
      var its := PassesOf(w, scopes, step, ctx).iterations;
      outs := seq(|its|, k requires 0 <= k < |its| => its[k].output);
      forall k: nat | k < |its| ensures its[k] == IterationOutput(k, PassAt(pass, initial, 0, its, k).output) {
        RepeatEntries(pass, initial, 0, MaxIterations(step), k);
      }
      assert Entries(outs) == its;
      RepeatSummary(w, scopes, step, ctx, outs);
    }
  }

  /** The passes of a repeat over a declared scope. */
  function PassesOf(w: World, scopes: Scopes, step: StepDef, ctx: CtxView): LoopRun
    requires Layered(scopes) && ctx.frames != [] && step.scope.Some? && step.scope.value in scopes
  {
    Chain(Passes(w, scopes, step.scope.value, ctx), UnwrapOr(step.initialValue, JNull), 0, MaxIterations(step))
  }

  lemma {:induction false} EntriesCount(w: World, scopes: Scopes, step: StepDef, ctx: CtxView, outs: seq<StepOutput>,
      k: nat)
    requires Layered(scopes) && ctx.frames != [] && step.scope.Some? && step.scope.value in scopes && k < |outs|
    requires PassesOf(w, scopes, step, ctx).iterations == Entries(outs)
    ensures |outs| <= Limit(step) && PassCounts(w, scopes, step, ctx, outs, k)
  {
    var pass, initial := Passes(w, scopes, step.scope.value, ctx), UnwrapOr(step.initialValue, JNull);
    RepeatStops(pass, initial, 0, MaxIterations(step));
    RepeatEntries(pass, initial, 0, MaxIterations(step), k);
    PassAtRuns(w, scopes, step, ctx, outs, k);
  }

  lemma {:induction false} RepeatFails(w: World, scopes: Scopes, step: StepDef, ctx: CtxView, outs: seq<StepOutput>,
      e: StepError)
    requires Layered(scopes) && ctx.frames != [] && step.scope.Some? && step.scope.value in scopes
    requires PassesOf(w, scopes, step, ctx).iterations == Entries(outs)
    requires PassesOf(w, scopes, step, ctx).error == Some(e)
    ensures |outs| < Limit(step) && exists output :: PassRuns(w, scopes, step, ctx, outs, |outs|, Failed(e), output)
  {
    var pass, initial := Passes(w, scopes, step.scope.value, ctx), UnwrapOr(step.initialValue, JNull);
    RepeatStops(pass, initial, 0, MaxIterations(step));
    PassAtRuns(w, scopes, step, ctx, outs, |outs|);
    var p := PassAt(pass, initial, 0, Entries(outs), |outs|);
    assert PassRuns(w, scopes, step, ctx, outs, |outs|, p.end, p.output) && p.end == Failed(e);
  }

  lemma {:induction false} LastPassBroke(pass: (Json, nat) -> Pass, initial: Json, max: nat, outs: seq<StepOutput>)
    requires Chain(pass, initial, 0, max).iterations == Entries(outs)
    requires Chain(pass, initial, 0, max).error == None && |outs| < max
    ensures outs != []
    ensures var p := PassAt(pass, initial, 0, Entries(outs), |outs| - 1); p.end == Broke && p.output == Last(outs)
  {
    RepeatStops(pass, initial, 0, max);
    RepeatEntries(pass, initial, 0, max, |outs| - 1);
  }

  lemma {:induction false} RepeatEndsEarly(w: World, scopes: Scopes, step: StepDef, ctx: CtxView, outs: seq<StepOutput>)
    requires Layered(scopes) && ctx.frames != [] && step.scope.Some? && step.scope.value in scopes
    requires PassesOf(w, scopes, step, ctx).iterations == Entries(outs)
    requires PassesOf(w, scopes, step, ctx).error == None && |outs| < Limit(step)
    ensures outs != [] && PassRuns(w, scopes, step, ctx, outs, |outs| - 1, Broke, Last(outs))
  {
    var pass, initial := Passes(w, scopes, step.scope.value, ctx), UnwrapOr(step.initialValue, JNull);
    LastPassBroke(pass, initial, MaxIterations(step), outs);
    PassAtRuns(w, scopes, step, ctx, outs, |outs| - 1);
  }

  lemma {:induction false} RepeatSummary(w: World, scopes: Scopes, step: StepDef, ctx: CtxView, outs: seq<StepOutput>)
    requires Layered(scopes) && ctx.frames != [] && step.scope.Some? && step.scope.value in scopes
    requires PassesOf(w, scopes, step, ctx).iterations == Entries(outs)
    ensures RepeatRuns(w, scopes, step, ctx, outs, LoopOutcome(PassesOf(w, scopes, step, ctx)))
  {
    var run := PassesOf(w, scopes, step, ctx);
    forall k: nat | k < |outs| ensures |outs| <= Limit(step) && PassCounts(w, scopes, step, ctx, outs, k) {
      EntriesCount(w, scopes, step, ctx, outs, k);
    }
    assert outs != [] ==> PassCounts(w, scopes, step, ctx, outs, 0);
    if run.error.Some? {
      RepeatFails(w, scopes, step, ctx, outs, run.error.value);
    } else if |outs| < Limit(step) {
      RepeatEndsEarly(w, scopes, step, ctx, outs);
    }
  }
}
