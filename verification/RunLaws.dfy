/** What the run loop does, step by step and over whole runs, from the executors' outcomes (src/engine/mod.rs). */
module RunLaws {
  import opened Prelude
  import opened Schema
  import opened ContextStore
  import opened Validator
  import opened EngineRun

  // ---------- what the executor of a step is handed ----------

  /**
   * The listed tasks are consumed: their outputs are in the context, their handles gone, and nothing else has changed.
   * A session id that was there stays, and a new one comes from one of the tasks.
   */
  ghost predicate Consumed(s: RunState, listed: string -> bool, r: RunState)
    requires s.ctx.frames != []
  {
    && SameSetting(r.ctx, s.ctx) && r.ctx.chats == s.ctx.chats && r.ctx.frames[0].parsed == s.ctx.frames[0].parsed
    && (forall n :: Lookup(r.pending, n) == if listed(n) then None else Lookup(s.pending, n))
    && (forall n :: Out(r.ctx, n) ==
                    if listed(n) && n in s.pending && Succeeds(s.pending[n]) then Some(s.pending[n].outcome.value)
                    else Out(s.ctx, n))
    && (s.ctx.session.Some? ==> r.ctx.session == s.ctx.session)
    && (r.last, r.saved, r.spawned) == (s.last, s.saved, s.spawned)
  }

  lemma {:induction false} ConsumedFirst(s: RunState, names: seq<string>, r: RunState)
    requires s.ctx.frames != [] && names != [] && names[0] in s.pending && Succeeds(s.pending[names[0]])
    requires Consumed(Awaited(s, names[0], "async"), n => n in names[1..], r)
    ensures Consumed(s, n => n in names, r)
  {
    assert forall n :: n in names <==> n == names[0] || n in names[1..];
  }

  lemma {:induction false} AwaitAllConsumes(s: RunState, names: seq<string>)
    requires s.ctx.frames != [] && FirstFailing(names, s.pending).None?
    ensures AwaitAll(s, names).1.None? && Consumed(s, n => n in names, AwaitAll(s, names).0)
    decreases |names|
  {
    if names != [] {
      assert forall n :: n in names <==> n == names[0] || n in names[1..];
      if names[0] in s.pending {
        var next := Awaited(s, names[0], "async");
        FirstFailingWithout(names[1..], s.pending, names[0]);
        AwaitAllConsumes(next, names[1..]);
        ConsumedFirst(s, names, AwaitAll(next, names[1..]).0);
      } else {
        AwaitAllConsumes(s, names[1..]);
      }
    }
  }

  /** The state in which a synchronous step is executed, when no task it refers to fails. */
  ghost function Awaiting(w: Runtime, step: StepDef, s: RunState): (r: RunState)
    requires s.ctx.frames != []
    ensures r.ctx.frames != []
  {
    AwaitAll(s, Wanted(References(w, step), s.pending, [])).0
  }

  /** No pending task that the step's command, prompt or condition refers to fails. */
  ghost predicate Unhindered(w: Runtime, step: StepDef, s: RunState) {
    forall n :: Names(w, step, n) ==> !Fails(s.pending, n)
  }

  /**
   * When the executor of a synchronous step is called, no task that its command, prompt or condition refers to is still
   * pending, and their outputs are in the context; every other handle is still pending.
   */
  lemma {:induction false} ExecutorSees(w: Runtime, step: StepDef, s: RunState)
    requires s.ctx.frames != []
    ensures AwaitAll(s, Wanted(References(w, step), s.pending, [])).1.None? <==> Unhindered(w, step, s)
    ensures Unhindered(w, step, s) ==> Consumed(s, n => Names(w, step, n), Awaiting(w, step, s))
  {
    var names := Wanted(References(w, step), s.pending, []);
    NamesAreReferences(w, step);
    WantedFromRefs(References(w, step), s.pending, []);
    AwaitAllBlames(s, names);
    FirstFailingNone(names, s.pending);
    if Unhindered(w, step, s) {
      AwaitAllConsumes(s, names);
    }
  }

  // ---------- one step ----------

  /**
   * The outcome of a step from that of its executor: only an Ok output of a step with an output type other than text is
   * looked at again, and refused when its trimmed text does not parse.
   */
  ghost predicate Settled(w: Runtime, step: StepDef, raw: Outcome, outcome: Outcome) {
    if raw.Ok? && step.outputType.Some? && step.outputType != Some(Text) then
      match w.parse(Trim(OutputText(raw.value)), step.outputType.value)
      case Ok(_) => outcome == raw
      case Err(e) => outcome == Err(e)
    else outcome == raw
  }

  /** What is stored beside an Ok output: nothing without an output type, the trimmed text, or what it parses as. */
  ghost predicate TypedAs(w: Runtime, step: StepDef, output: StepOutput, before: Option<ParsedValue>,
      after: Option<ParsedValue>)
  {
    if step.outputType.None? then after == before
    else if step.outputType == Some(Text) then after == Some(ParsedText(Trim(OutputText(output))))
    else
      match w.parse(Trim(OutputText(output)), step.outputType.value)
      case Ok(v) => after == Some(v)
      case Err(_) => after == before
  }

  /**
   * What a step leaves behind: an Ok output under its name with its typed value, an empty output for a skip, and
   * nothing otherwise. Only an Ok output is saved and becomes the last output.
   */
  ghost predicate LeftBehind(w: Runtime, step: StepDef, s: RunState, outcome: Outcome, r: RunState)
    requires s.ctx.frames != []
  {
    && SameSetting(r.ctx, s.ctx) && r.pending == s.pending && r.spawned == s.spawned && r.awaited == s.awaited
    && (forall n :: n != step.name ==> Out(r.ctx, n) == Out(s.ctx, n) && Typed(r.ctx, n) == Typed(s.ctx, n))
    && r.ctx.session ==
       (if s.ctx.session.None? && outcome.Ok? && outcome.value.AgentOut? then outcome.value.sessionId
        else s.ctx.session)
    && (outcome.Ok? ==>
          && Out(r.ctx, step.name) == Some(outcome.value)
          && TypedAs(w, step, outcome.value, Typed(s.ctx, step.name), Typed(r.ctx, step.name))
          && r.last == outcome.value && r.saved == s.saved[step.name := outcome.value]
          && r.records == s.records + [Record(step.name, ShowStepType(step.stepType), "ok")])
    && (outcome.Err? ==>
          && Out(r.ctx, step.name) == (if Skips(outcome) then Some(Empty) else Out(s.ctx, step.name))
          && Typed(r.ctx, step.name) == Typed(s.ctx, step.name)
          && r.last == s.last && r.saved == s.saved
          && r.records == s.records +
             (if Skips(outcome) then [Record(step.name, ShowStepType(step.stepType), "skipped")]
              else if outcome.error.Flow? then []
              else [Record(step.name, ShowStepType(step.stepType), "failed")]))
  }

  /** Ok and Skip let the loop go on, Break leaves it, anything else stops the run with the step's name and error. */
  ghost predicate EndsLike(step: StepDef, outcome: Outcome, ending: Ending) {
    && (GoesOn(outcome) ==> ending == Completed)
    && (Breaks(outcome) ==> ending == Broken)
    && (!GoesOn(outcome) && !Breaks(outcome) ==> ending == Stopped(StepFailed(step.name, outcome.error)))
  }

  /** A synchronous step whose tasks have all succeeded, from the outcome of its executor. */
  lemma {:induction false} SyncStepIs(w: Runtime, step: StepDef, s: RunState)
    requires s.ctx.frames != [] && step.asyncExec != Some(true) && Unhindered(w, step, s)
    ensures var at := Awaiting(w, step, s);
            var run := w.exec(step, at.ctx);
            var r, outcome := OneStep(w, step, s), StepOutcome(w, step, at.ctx);
            && Settled(w, step, run.outcome, outcome) && EndsLike(step, outcome, r.ending)
            && LeftBehind(w, step, at, outcome, r.s) && r.s.ctx.chats == run.chats
  {
    ExecutorSees(w, step, s);
    ExecutedIs(w, step, Awaiting(w, step, s));
  }

  lemma {:induction false} ExecutedIs(w: Runtime, step: StepDef, s: RunState)
    requires s.ctx.frames != []
    ensures var run := w.exec(step, s.ctx);
            var r, outcome := RunSync(w, step, s), StepOutcome(w, step, s.ctx);
            && Settled(w, step, run.outcome, outcome) && EndsLike(step, outcome, r.ending)
            && LeftBehind(w, step, s, outcome, r.s) && r.s.ctx.chats == run.chats
  {
    if StepOutcome(w, step, s.ctx).Ok? {
      OkIs(w, step, s);
    } else {
      ErrIs(w, step, s);
    }
  }

  lemma {:induction false} OkIs(w: Runtime, step: StepDef, s: RunState)
    requires s.ctx.frames != [] && StepOutcome(w, step, s.ctx).Ok?
    ensures var r, outcome := RunSync(w, step, s), StepOutcome(w, step, s.ctx);
            r.ending == Completed && LeftBehind(w, step, s, outcome, r.s) && r.s.ctx.chats == w.exec(step, s.ctx).chats
  {
  }

  lemma {:induction false} ErrIs(w: Runtime, step: StepDef, s: RunState)
    requires s.ctx.frames != [] && StepOutcome(w, step, s.ctx).Err?
    ensures var r, outcome := RunSync(w, step, s), StepOutcome(w, step, s.ctx);
            && EndsLike(step, outcome, r.ending) && LeftBehind(w, step, s, outcome, r.s)
            && r.s.ctx.chats == w.exec(step, s.ctx).chats
  {
    if Skips(StepOutcome(w, step, s.ctx)) {
      SkipIs(w, step, s);
    } else {
      StopIs(w, step, s);
    }
  }

  lemma {:induction false} StopIs(w: Runtime, step: StepDef, s: RunState)
    requires s.ctx.frames != [] && !GoesOn(StepOutcome(w, step, s.ctx))
    ensures var r, outcome := RunSync(w, step, s), StepOutcome(w, step, s.ctx);
            && EndsLike(step, outcome, r.ending) && LeftBehind(w, step, s, outcome, r.s)
            && r.s.ctx.chats == w.exec(step, s.ctx).chats
  {
    assert RunSync(w, step, s).s == Executed(w, step, s);
  }

  lemma {:induction false} SkipIs(w: Runtime, step: StepDef, s: RunState)
    requires s.ctx.frames != [] && Skips(StepOutcome(w, step, s.ctx))
    ensures var r := RunSync(w, step, s);
            && r.ending == Completed && LeftBehind(w, step, s, StepOutcome(w, step, s.ctx), r.s)
            && r.s.ctx.chats == w.exec(step, s.ctx).chats
  {
  }

  /** An asynchronous step is only spawned; the loop goes on at once. */
  lemma {:induction false} AsyncStepIs(w: Runtime, step: StepDef, s: RunState)
    requires s.ctx.frames != [] && step.asyncExec == Some(true)
    ensures var r, h := OneStep(w, step, s), w.spawn(step, TargetOf(s.ctx.frames));
            && r.ending == Completed
            && r.s == s.(pending := s.pending[step.name := h], spawned := s.spawned[step.name := h])
  {
  }

  // ---------- whole runs ----------

  /** Step `k` is reached, and its executor is called. */
  ghost predicate Executes(w: Runtime, steps: seq<StepDef>, s: RunState, k: nat)
    requires s.ctx.frames != []
  {
    Reaches(w, steps, s, k) && steps[k].asyncExec != Some(true) && Unhindered(w, steps[k], StateAt(w, steps, s, k))
  }

  /** The outcome of step `k` in the context that its executor is handed. */
  ghost function OutcomeAt(w: Runtime, steps: seq<StepDef>, s: RunState, k: nat): Outcome
    requires s.ctx.frames != [] && Executes(w, steps, s, k)
  {
    StepOutcome(w, steps[k], Awaiting(w, steps[k], StateAt(w, steps, s, k)).ctx)
  }

  ghost predicate ExecutesOk(w: Runtime, steps: seq<StepDef>, s: RunState, k: nat, output: StepOutput)
    requires s.ctx.frames != []
  {
    Executes(w, steps, s, k) && OutcomeAt(w, steps, s, k) == Ok(output)
  }

  ghost predicate ExecutesErr(w: Runtime, steps: seq<StepDef>, s: RunState, k: nat, e: StepError)
    requires s.ctx.frames != []
  {
    Executes(w, steps, s, k) && OutcomeAt(w, steps, s, k) == Err(e)
  }

  lemma {:induction false} Later(w: Runtime, steps: seq<StepDef>, s: RunState, k: nat)
    requires s.ctx.frames != [] && steps != [] && OneStep(w, steps[0], s).ending.Completed?
    ensures var rest, next := steps[1..], OneStep(w, steps[0], s).s;
            && (Reaches(w, steps, s, k + 1) <==> Reaches(w, rest, next, k))
            && (Reaches(w, rest, next, k) ==>
                  rest[k] == steps[k + 1] && StateAt(w, steps, s, k + 1) == StateAt(w, rest, next, k))
            && (Executes(w, steps, s, k + 1) <==> Executes(w, rest, next, k))
            && (Executes(w, rest, next, k) ==> OutcomeAt(w, steps, s, k + 1) == OutcomeAt(w, rest, next, k))
  {
  }

  /** Only the first step is reached when it does not let the loop go on. */
  lemma {:induction false} StopsHere(w: Runtime, steps: seq<StepDef>, s: RunState, k: nat)
    requires s.ctx.frames != [] && steps != [] && !OneStep(w, steps[0], s).ending.Completed?
    ensures Reaches(w, steps, s, k) <==> k == 0
  {
  }

  lemma {:induction false} FirstStepIs(w: Runtime, steps: seq<StepDef>, s: RunState)
    requires s.ctx.frames != [] && steps != []
    ensures Reaches(w, steps, s, 0) && StateAt(w, steps, s, 0) == s
    ensures var ending := OneStep(w, steps[0], s).ending;
            && (Executes(w, steps, s, 0) ==> EndsLike(steps[0], OutcomeAt(w, steps, s, 0), ending))
            && (steps[0].asyncExec == Some(true) ==> ending == Completed)
            && (!Executes(w, steps, s, 0) && steps[0].asyncExec != Some(true) ==> Culprit(ending).Some?)
  {
    if Executes(w, steps, s, 0) {
      SyncStepIs(w, steps[0], s);
    } else if steps[0].asyncExec == Some(true) {
      AsyncStepIs(w, steps[0], s);
    } else {
      ExecutorSees(w, steps[0], s);
    }
  }

  /** Step `k` lets the loop go on: it is spawned, or executed with an Ok outcome or a skip. */
  ghost predicate Passes(w: Runtime, steps: seq<StepDef>, s: RunState, k: nat)
    requires s.ctx.frames != [] && k < |steps|
  {
    if steps[k].asyncExec == Some(true) then Reaches(w, steps, s, k)
    else Executes(w, steps, s, k) && GoesOn(OutcomeAt(w, steps, s, k))
  }

  /** The step `m` at which a run ends: all before it let the loop go on, and its outcome decides the ending. */
  ghost predicate EndsAt(w: Runtime, steps: seq<StepDef>, s: RunState, m: nat, ending: Ending)
    requires s.ctx.frames != [] && m <= |steps|
  {
    && (forall k: nat :: Reaches(w, steps, s, k) <==> k < |steps| && k <= m)
    && (forall k: nat :: k < m ==> Passes(w, steps, s, k))
    && (m == |steps| <==> ending == Completed)
    && (m < |steps| ==> steps[m].asyncExec != Some(true))
    && (m < |steps| && Executes(w, steps, s, m) ==>
          EndsLike(steps[m], OutcomeAt(w, steps, s, m), ending) && !GoesOn(OutcomeAt(w, steps, s, m)))
    && (m < |steps| && !Executes(w, steps, s, m) ==> Culprit(ending).Some?)
  }

  /** Every run ends at some step, or behind the last. */
  lemma {:induction false} RunEnds(w: Runtime, steps: seq<StepDef>, s: RunState) returns (m: nat)
    requires s.ctx.frames != []
    ensures m <= |steps| && EndsAt(w, steps, s, m, Loop(w, steps, s).ending)
    decreases |steps|
  {
    m := 0;
    if steps != [] {
      var one := OneStep(w, steps[0], s);
      FirstStepIs(w, steps, s);
      if one.ending.Completed? {
        var n := RunEnds(w, steps[1..], one.s);
        m := n + 1;
        LaterEnds(w, steps, s, n, Loop(w, steps, s).ending);
      } else {
        forall k: nat ensures Reaches(w, steps, s, k) <==> k == 0 {
          StopsHere(w, steps, s, k);
        }
      }
    }
  }

  lemma {:induction false} LaterEnds(w: Runtime, steps: seq<StepDef>, s: RunState, n: nat, ending: Ending)
    requires s.ctx.frames != [] && steps != [] && OneStep(w, steps[0], s).ending.Completed? && n < |steps|
    requires EndsAt(w, steps[1..], OneStep(w, steps[0], s).s, n, ending)
    ensures EndsAt(w, steps, s, n + 1, ending)
  {
    var next := OneStep(w, steps[0], s).s;
    FirstStepIs(w, steps, s);
    forall k: nat ensures Reaches(w, steps, s, k) <==> k < |steps| && k <= n + 1 {
      if k > 0 {
        Later(w, steps, s, k - 1);
      }
    }
    forall k: nat | k < n + 1 ensures Passes(w, steps, s, k) {
      if k > 0 {
        Later(w, steps, s, k - 1);
        assert Passes(w, steps[1..], next, k - 1);
      }
    }
    Later(w, steps, s, n);
  }

  /** How a run ends, from the outcomes of the steps it executes. */
  lemma {:induction false} RunEndings(w: Runtime, steps: seq<StepDef>, s: RunState)
    requires s.ctx.frames != []
    ensures var ending := Loop(w, steps, s).ending;
            && (forall name, e :: ending == Stopped(StepFailed(name, e)) <==>
                  exists k: nat :: ExecutesErr(w, steps, s, k, e) && steps[k].name == name &&
                                   !Skips(Err(e)) && !Breaks(Err(e)))
            && (ending == Broken <==> exists k: nat, e :: ExecutesErr(w, steps, s, k, e) && Breaks(Err(e)))
            && (ending == Completed <==> forall k: nat :: k < |steps| ==> Passes(w, steps, s, k))
    ensures forall k: nat, e, j: nat ::
              ExecutesErr(w, steps, s, k, e) && !Skips(Err(e)) && Reaches(w, steps, s, j) ==> j <= k
  {
    var ending := Loop(w, steps, s).ending;
    var m := RunEnds(w, steps, s);
    forall k: nat, e | ExecutesErr(w, steps, s, k, e) && !Skips(Err(e)) ensures k == m {
      assert Passes(w, steps, s, k) <==> GoesOn(OutcomeAt(w, steps, s, k));
    }
    if m < |steps| && Executes(w, steps, s, m) {
      assert ExecutesErr(w, steps, s, m, OutcomeAt(w, steps, s, m).error);
    }
    assert m < |steps| ==> !Passes(w, steps, s, m);
  }

  // ---------- what a run returns ----------

  lemma {:induction false} LaterOk(w: Runtime, steps: seq<StepDef>, s: RunState)
    requires s.ctx.frames != [] && steps != [] && OneStep(w, steps[0], s).ending.Completed?
    ensures forall k: nat, o :: ExecutesOk(w, steps, s, k + 1, o) <==>
                                ExecutesOk(w, steps[1..], OneStep(w, steps[0], s).s, k, o)
  {
    forall k: nat, o
      ensures ExecutesOk(w, steps, s, k + 1, o) <==> ExecutesOk(w, steps[1..], OneStep(w, steps[0], s).s, k, o)
    {
      Later(w, steps, s, k);
    }
  }

  /** The first step's part in the last output. */
  lemma {:induction false} FirstLast(w: Runtime, steps: seq<StepDef>, s: RunState)
    requires s.ctx.frames != [] && steps != []
    ensures forall o :: ExecutesOk(w, steps, s, 0, o) ==> OneStep(w, steps[0], s).s.last == o
    ensures (forall o :: !ExecutesOk(w, steps, s, 0, o)) ==> OneStep(w, steps[0], s).s.last == s.last
  {
    FirstStepIs(w, steps, s);
    ExecutorSees(w, steps[0], s);
    if Executes(w, steps, s, 0) {
      SyncStepIs(w, steps[0], s);
      if OutcomeAt(w, steps, s, 0).Ok? {
        assert ExecutesOk(w, steps, s, 0, OutcomeAt(w, steps, s, 0).value);
      }
    } else if steps[0].asyncExec != Some(true) {
      AwaitAllKeeps(s, Wanted(References(w, steps[0]), s.pending, []));
    }
  }

  lemma {:induction false} AwaitAllKeeps(s: RunState, names: seq<string>)
    requires s.ctx.frames != []
    ensures var r := AwaitAll(s, names).0; r.last == s.last && r.saved == s.saved && r.spawned == s.spawned
    decreases |names|
  {
    if names != [] {
      AwaitAllKeeps(if names[0] in s.pending then Awaited(s, names[0], "async") else s, names[1..]);
    }
  }

  /** Without an Ok step the last output is the one the run started with. */
  lemma {:induction false} NoOutputYet(w: Runtime, steps: seq<StepDef>, s: RunState)
    requires s.ctx.frames != [] && forall k: nat, o :: !ExecutesOk(w, steps, s, k, o)
    ensures Loop(w, steps, s).s.last == s.last
    decreases |steps|
  {
    if steps != [] {
      FirstLast(w, steps, s);
      var one := OneStep(w, steps[0], s);
      if one.ending.Completed? {
        LaterOk(w, steps, s);
        NoOutputYet(w, steps[1..], one.s);
      }
    }
  }

  /** The last output is that of the last Ok step. */
  lemma {:induction false} LastOkDecides(w: Runtime, steps: seq<StepDef>, s: RunState, k: nat, output: StepOutput)
    requires s.ctx.frames != [] && ExecutesOk(w, steps, s, k, output)
    requires forall j: nat, o :: k < j ==> !ExecutesOk(w, steps, s, j, o)
    ensures Loop(w, steps, s).s.last == output
    decreases |steps|
  {
    FirstLast(w, steps, s);
    var one := OneStep(w, steps[0], s);
    if one.ending.Completed? {
      LaterOk(w, steps, s);
      if k == 0 {
        NoOutputYet(w, steps[1..], one.s);
      } else {
        LastOkDecides(w, steps[1..], one.s, k - 1, output);
      }
    } else {
      StopsHere(w, steps, s, k);
    }
  }

  /** An error names the step that failed, or the awaited task and the step that asked for it. */
  ghost predicate ReturnsErr(w: Runtime, steps: seq<StepDef>, s: RunState, cause: Cause)
    requires s.ctx.frames != []
  {
    match cause
    case StepFailed(name, e) =>
      !Skips(Err(e)) && !Breaks(Err(e)) && exists k: nat :: ExecutesErr(w, steps, s, k, e) && steps[k].name == name
    case AwaitFailed(name, requester) =>
      exists k: nat :: Blames(w, steps, s, k, name) && steps[k].name == requester
    case _ => false
  }

  /** The output is that of the last Ok step, or the one the run started with. */
  ghost predicate ReturnsOk(w: Runtime, steps: seq<StepDef>, s: RunState, output: StepOutput)
    requires s.ctx.frames != []
  {
    && (forall k: nat, o :: ExecutesOk(w, steps, s, k, o) && NoneLater(w, steps, s, k) ==> output == o)
    && ((forall k: nat, o :: !ExecutesOk(w, steps, s, k, o)) ==> output == s.last)
  }

  ghost predicate NoneLater(w: Runtime, steps: seq<StepDef>, s: RunState, k: nat)
    requires s.ctx.frames != []
  {
    forall j: nat, o :: k < j ==> !ExecutesOk(w, steps, s, j, o)
  }

  lemma {:induction false} LastIs(w: Runtime, steps: seq<StepDef>, s: RunState)
    requires s.ctx.frames != []
    ensures ReturnsOk(w, steps, s, Loop(w, steps, s).s.last)
  {
    forall k: nat, o | ExecutesOk(w, steps, s, k, o) && NoneLater(w, steps, s, k)
      ensures Loop(w, steps, s).s.last == o
    {
      LastOkDecides(w, steps, s, k, o);
    }
    if forall k: nat, o :: !ExecutesOk(w, steps, s, k, o) {
      NoOutputYet(w, steps, s);
    }
  }

  lemma {:induction false} StepFailureIs(w: Runtime, steps: seq<StepDef>, s: RunState, name: string, e: StepError)
    requires s.ctx.frames != []
    ensures Loop(w, steps, s).ending == Stopped(StepFailed(name, e)) <==> ReturnsErr(w, steps, s, StepFailed(name, e))
  {
    RunEndings(w, steps, s);
  }

  lemma {:induction false} NoOtherCause(w: Runtime, steps: seq<StepDef>, s: RunState)
    requires s.ctx.frames != []
    ensures var ending := Loop(w, steps, s).ending;
            ending.Stopped? ==> ending.cause.StepFailed? || ending.cause.AwaitFailed?
  {
    var m := RunEnds(w, steps, s);
  }

  /**
   * What a run returns: the failure of the step or awaited task that stopped it, exactly; and for a run that completes
   * or breaks the output of its last Ok step, or what it started with.
   */
  lemma {:induction false} RunReturns(w: Runtime, steps: seq<StepDef>, s: RunState)
    requires s.ctx.frames != []
    ensures var r := Loop(w, steps, s);
            && ReturnsOk(w, steps, s, r.s.last)
            && forall cause :: r.ending == Stopped(cause) <==> ReturnsErr(w, steps, s, cause)
  {
    var ending := Loop(w, steps, s).ending;
    LastIs(w, steps, s);
    forall cause ensures ending == Stopped(cause) <==> ReturnsErr(w, steps, s, cause) {
      match cause {
        case StepFailed(name, e) => StepFailureIs(w, steps, s, name, e);
        case AwaitFailed(name, requester) => AwaitFailedIs(w, steps, s, name, requester);
        case _ => NoOtherCause(w, steps, s);
      }
    }
  }

  // ---------- what stays in the context ----------

  /** Nothing under this name has changed, and no task of that name is pending. */
  ghost predicate Unchanged(s: RunState, name: string, r: RunState)
    requires s.ctx.frames != [] && r.ctx.frames != []
  {
    && Lookup(r.pending, name) == Lookup(s.pending, name) && Lookup(r.saved, name) == Lookup(s.saved, name)
    && Out(r.ctx, name) == Out(s.ctx, name) && Typed(r.ctx, name) == Typed(s.ctx, name)
  }

  /** The pending task of this name was consumed: its output is stored if it succeeded, and nothing otherwise. */
  ghost predicate TakenIn(s: RunState, name: string, r: RunState)
    requires s.ctx.frames != [] && r.ctx.frames != []
  {
    && name in s.pending && name !in r.pending && Lookup(r.saved, name) == Lookup(s.saved, name)
    && Out(r.ctx, name) ==
       (if Succeeds(s.pending[name]) then Some(s.pending[name].outcome.value) else Out(s.ctx, name))
    && Typed(r.ctx, name) == Typed(s.ctx, name)
  }

  lemma {:induction false} AwaitAllOne(s: RunState, names: seq<string>, name: string)
    requires s.ctx.frames != []
    ensures var r := AwaitAll(s, names).0; Unchanged(s, name, r) || TakenIn(s, name, r)
    decreases |names|
  {
    if names != [] {
      if names[0] in s.pending {
        var next := Awaited(s, names[0], "async");
        assert if name == names[0] then TakenIn(s, name, next) else Unchanged(s, name, next);
        if Succeeds(s.pending[names[0]]) {
          AwaitAllOne(next, names[1..], name);
        }
      } else {
        AwaitAllOne(s, names[1..], name);
      }
    }
  }

  /** A step touches no other name, except that it may consume a pending task. */
  lemma {:induction false} OtherName(w: Runtime, step: StepDef, s: RunState, name: string)
    requires s.ctx.frames != [] && step.name != name
    ensures var r := OneStep(w, step, s).s; Unchanged(s, name, r) || TakenIn(s, name, r)
  {
    if step.asyncExec != Some(true) {
      AwaitAllOne(s, Wanted(References(w, step), s.pending, []), name);
      ExecutorSees(w, step, s);
      if Unhindered(w, step, s) {
        SyncStepIs(w, step, s);
      }
    }
  }

  lemma {:induction false} OtherNames(w: Runtime, steps: seq<StepDef>, s: RunState, name: string)
    requires s.ctx.frames != [] && forall k :: 0 <= k < |steps| ==> steps[k].name != name
    ensures var r := Loop(w, steps, s).s; Unchanged(s, name, r) || TakenIn(s, name, r)
    decreases |steps|
  {
    if steps != [] {
      OtherName(w, steps[0], s, name);
      var one := OneStep(w, steps[0], s);
      if one.ending.Completed? {
        OtherNames(w, steps[1..], one.s, name);
      }
    }
  }

  /** What a synchronous step leaves under its own name. */
  ghost predicate OwnTrace(w: Runtime, steps: seq<StepDef>, s: RunState, k: nat, r: RunState)
    requires s.ctx.frames != [] && r.ctx.frames != [] && k < |steps|
  {
    var name := steps[k].name;
    if Executes(w, steps, s, k) && OutcomeAt(w, steps, s, k).Ok? then
      var output := OutcomeAt(w, steps, s, k).value;
      && Out(r.ctx, name) == Some(output) && Lookup(r.saved, name) == Some(output)
      && TypedAs(w, steps[k], output, Typed(s.ctx, name), Typed(r.ctx, name))
    else
      && Out(r.ctx, name) ==
         (if Executes(w, steps, s, k) && Skips(OutcomeAt(w, steps, s, k)) then Some(Empty) else Out(s.ctx, name))
      && Typed(r.ctx, name) == Typed(s.ctx, name) && Lookup(r.saved, name) == Lookup(s.saved, name)
  }

  /** A spawned step leaves its handle, or what consuming it gave. */
  ghost predicate SpawnTrace(w: Runtime, steps: seq<StepDef>, s: RunState, k: nat, r: RunState)
    requires s.ctx.frames != [] && r.ctx.frames != [] && k < |steps| && Reaches(w, steps, s, k)
  {
    var name, h := steps[k].name, w.spawn(steps[k], TargetOf(StateAt(w, steps, s, k).ctx.frames));
    && Typed(r.ctx, name) == Typed(s.ctx, name) && Lookup(r.saved, name) == Lookup(s.saved, name)
    && (Lookup(r.pending, name) == Some(h) ==> Out(r.ctx, name) == Out(s.ctx, name))
    && (Lookup(r.pending, name) != Some(h) ==>
          name !in r.pending && Out(r.ctx, name) == if Succeeds(h) then Some(h.outcome.value) else Out(s.ctx, name))
  }

  /** What each step of a run leaves under its name at the end of the loop; unreached steps leave nothing. */
  ghost predicate Trace(w: Runtime, steps: seq<StepDef>, s: RunState, k: nat, r: RunState)
    requires s.ctx.frames != [] && r.ctx.frames != [] && k < |steps|
  {
    if steps[k].asyncExec == Some(true) then
      if Reaches(w, steps, s, k) then SpawnTrace(w, steps, s, k, r) else Unchanged(s, steps[k].name, r)
    else OwnTrace(w, steps, s, k, r)
  }

  lemma {:induction false} FirstTrace(w: Runtime, steps: seq<StepDef>, s: RunState)
    requires s.ctx.frames != [] && steps != [] && steps[0].name !in s.pending
    ensures Trace(w, steps, s, 0, OneStep(w, steps[0], s).s)
    ensures steps[0].asyncExec != Some(true) ==> steps[0].name !in OneStep(w, steps[0], s).s.pending
  {
    var step := steps[0];
    FirstStepIs(w, steps, s);
    if step.asyncExec != Some(true) {
      AwaitAllOne(s, Wanted(References(w, step), s.pending, []), step.name);
      ExecutorSees(w, step, s);
      if Unhindered(w, step, s) {
        SyncStepIs(w, step, s);
      }
    }
  }

  lemma {:induction false} LaterTrace(w: Runtime, steps: seq<StepDef>, s: RunState, k: nat, r: RunState)
    requires s.ctx.frames != [] && r.ctx.frames != [] && k + 1 < |steps| && OneStep(w, steps[0], s).ending.Completed?
    requires Unchanged(s, steps[k + 1].name, OneStep(w, steps[0], s).s)
    requires Trace(w, steps[1..], OneStep(w, steps[0], s).s, k, r)
    ensures Trace(w, steps, s, k + 1, r)
  {
    Later(w, steps, s, k);
    assert steps[1..][k] == steps[k + 1];
  }

  /** No task is pending under the name of a step. */
  ghost predicate NonePending(steps: seq<StepDef>, s: RunState) {
    forall j :: 0 <= j < |steps| ==> steps[j].name !in s.pending
  }

  /** The first step leaves the names of the later ones alone. */
  lemma {:induction false} LaterNames(w: Runtime, steps: seq<StepDef>, s: RunState)
    requires s.ctx.frames != [] && UniqueNames(steps) && steps != [] && NonePending(steps, s)
    ensures UniqueNames(steps[1..]) && NonePending(steps[1..], OneStep(w, steps[0], s).s)
  {
    forall j | 1 <= j < |steps| ensures steps[j].name !in OneStep(w, steps[0], s).s.pending {
      OtherName(w, steps[0], s, steps[j].name);
    }
  }

  /** With unique names, what each step of a run leaves under its name. */
  lemma {:induction false} RunTraces(w: Runtime, steps: seq<StepDef>, s: RunState, k: nat)
    requires s.ctx.frames != [] && UniqueNames(steps) && k < |steps|
    requires NonePending(steps, s)
    ensures Trace(w, steps, s, k, Loop(w, steps, s).s)
    decreases |steps|
  {
    var one, rest := OneStep(w, steps[0], s), steps[1..];
    LaterNames(w, steps, s);
    if !one.ending.Completed? {
      UnreachedTrace(w, steps, s, k);
    } else if k == 0 {
      FirstStays(w, steps, s);
    } else {
      OtherName(w, steps[0], s, steps[k].name);
      RunTraces(w, rest, one.s, k - 1);
      LaterTrace(w, steps, s, k - 1, Loop(w, steps, s).s);
    }
  }

  lemma {:induction false} UnreachedTrace(w: Runtime, steps: seq<StepDef>, s: RunState, k: nat)
    requires s.ctx.frames != [] && UniqueNames(steps) && NonePending(steps, s) && k < |steps|
    requires !OneStep(w, steps[0], s).ending.Completed?
    ensures Trace(w, steps, s, k, OneStep(w, steps[0], s).s)
  {
    FirstTrace(w, steps, s);
    StopsHere(w, steps, s, k);
    if k > 0 {
      OtherName(w, steps[0], s, steps[k].name);
    }
  }

  lemma {:induction false} FirstStays(w: Runtime, steps: seq<StepDef>, s: RunState)
    requires s.ctx.frames != [] && UniqueNames(steps) && NonePending(steps, s) && steps != []
    requires OneStep(w, steps[0], s).ending.Completed?
    ensures Trace(w, steps, s, 0, Loop(w, steps[1..], OneStep(w, steps[0], s).s).s)
  {
    FirstTrace(w, steps, s);
    assert forall j :: 0 <= j < |steps| - 1 ==> steps[1..][j].name == steps[j + 1].name;
    OtherNames(w, steps[1..], OneStep(w, steps[0], s).s, steps[0].name);
  }

  // ---------- the final drain ----------

  /** A drained handle: output stored if the task succeeded, and one record of the step's type either way. */
  lemma {:induction false} DrainedIs(s: RunState, name: string, kind: string)
    requires s.ctx.frames != [] && name in s.pending
    ensures var r := Drained(s, name, kind);
            && TakenIn(s, name, r) && (forall n :: n != name ==> Unchanged(s, n, r)) && r.last == s.last
            && r.records == s.records + [Record(name, kind, if Succeeds(s.pending[name]) then "ok" else "failed")]
  {
  }

  lemma {:induction false} DrainAllTakesIn(s: RunState, order: seq<string>, kinds: string -> string, name: string)
    requires s.ctx.frames != [] && Distinct(order) && forall n :: n in order ==> n in s.pending
    ensures var r := DrainAll(s, order, kinds);
            if name in order then TakenIn(s, name, r) else Unchanged(s, name, r)
    decreases |order|
  {
    if order != [] {
      var next := Drained(s, order[0], kinds(order[0]));
      DrainedIs(s, order[0], kinds(order[0]));
      assert name in order <==> name == order[0] || name in order[1..];
      assert forall n :: n in order[1..] ==> n != order[0] && n in next.pending;
      DrainAllTakesIn(next, order[1..], kinds, name);
    }
  }

  /** The record of a drained task carries the type of the step that spawned it. */
  lemma {:induction false} KindIs(steps: seq<StepDef>, k: nat)
    requires UniqueNames(steps) && k < |steps|
    ensures Kinds(steps)(steps[k].name) == ShowStepType(steps[k].stepType)
    decreases |steps|
  {
    if k > 0 {
      KindIs(steps[1..], k - 1);
    }
  }

  /** After the drain every spawned step that succeeded has its output in the context, like the synchronous ones. */
  lemma {:induction false} FinalOutputs(w: Runtime, steps: seq<StepDef>, s: RunState, order: seq<string>,
      kinds: string -> string, k: nat)
    requires s.ctx.frames != [] && UniqueNames(steps) && k < |steps| && s.pending == map[]
    requires Drains(Loop(w, steps, s).s, order)
    ensures var r := DrainAll(Loop(w, steps, s).s, order, kinds);
            var name := steps[k].name;
            if steps[k].asyncExec != Some(true) then OwnTrace(w, steps, s, k, r)
            else if !Reaches(w, steps, s, k) then Out(r.ctx, name) == Out(s.ctx, name)
            else
              var h := w.spawn(steps[k], TargetOf(StateAt(w, steps, s, k).ctx.frames));
              Out(r.ctx, name) == if Succeeds(h) then Some(h.outcome.value) else Out(s.ctx, name)
  {
    var mid := Loop(w, steps, s).s;
    RunTraces(w, steps, s, k);
    DrainAllTakesIn(mid, order, kinds, steps[k].name);
    if steps[k].asyncExec != Some(true) {
      SyncLeavesNoHandle(w, steps, s, k);
    }
  }

  /** No handle is pending under the name of a synchronous step. */
  lemma {:induction false} SyncLeavesNoHandle(w: Runtime, steps: seq<StepDef>, s: RunState, k: nat)
    requires s.ctx.frames != [] && UniqueNames(steps) && k < |steps| && steps[k].asyncExec != Some(true)
    requires NonePending(steps, s)
    ensures steps[k].name !in Loop(w, steps, s).s.pending
    decreases |steps|
  {
    var one, rest := OneStep(w, steps[0], s), steps[1..];
    FirstTrace(w, steps, s);
    LaterNames(w, steps, s);
    if one.ending.Completed? {
      if k == 0 {
        assert forall j :: 0 <= j < |rest| ==> rest[j].name == steps[j + 1].name;
        OtherNames(w, rest, one.s, steps[0].name);
      } else {
        SyncLeavesNoHandle(w, rest, one.s, k - 1);
      }
    }
  }

  // ---------- resumed runs ----------

  /** A resumed run returns in the same way, from its resume point on. */
  lemma {:induction false} ResumedRunReturns(w: Runtime, steps: seq<StepDef>, resume: Option<string>,
      loaded: map<string, StepOutput>, s: RunState)
    requires s.ctx.frames != []
    ensures var n := Skipped(steps, resume);
            var q, start := steps[n..], RestoredAll(steps[..n], loaded, s);
            var r := LoopFrom(w, steps, resume, loaded, s);
            && ReturnsOk(w, q, start, r.s.last)
            && forall cause :: r.ending == Stopped(cause) <==> ReturnsErr(w, q, start, cause)
  {
    var n := Skipped(steps, resume);
    LoopFromIs(w, steps, resume, loaded, s);
    RunReturns(w, steps[n..], RestoredAll(steps[..n], loaded, s));
  }

  /** A restored step: its saved output goes back under its name with a record of its own, and nothing else changes. */
  lemma {:induction false} RestoredIs(step: StepDef, loaded: map<string, StepOutput>, s: RunState)
    requires s.ctx.frames != []
    ensures var r := Restored(step, loaded, s);
            && (forall n :: n != step.name ==> Unchanged(s, n, r)) && r.last == s.last && r.saved == s.saved
            && Out(r.ctx, step.name) == (if step.name in loaded then Some(loaded[step.name]) else Out(s.ctx, step.name))
            && r.records == s.records +
               (if step.name in loaded then [Record(step.name, ShowStepType(step.stepType), "skipped_resume")] else [])
  {
  }
}
