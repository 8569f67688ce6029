/** The engine's run loop: resume, asynchronous steps and the final drain (src/engine/mod.rs). */
module EngineRun {
  import opened Prelude
  import opened Schema
  import opened ContextStore
  import opened Validator

  /** Result of a spawned task. */
  datatype Handle = Finishes(outcome: Outcome) | Panics

  /**
   * The parts that are not modelled. `exec` is the executor chosen by the step type; `parse` reads the text of an
   * output as a declared type other than text; `spawn` is what the task of an asynchronous step (which only sees
   * the target) ends with; `references` lists the step names that the pattern `steps.NAME.` finds in a text.
   */
  datatype Runtime = Runtime(
    exec: (StepDef, CtxView) -> LeafRun,
    parse: (string, OutputType) -> Result<ParsedValue, StepError>,
    spawn: (StepDef, string) -> Handle,
    references: string -> seq<string>)

  datatype Record = Record(name: string, kind: string, status: string)

  /** Why a run failed. */
  datatype Cause =
    | NoStateFile
    | ResumeStepMissing(step: string)
    | AwaitFailed(dependency: string, requester: string)
    | StepFailed(step: string, error: StepError)

  /** State of a run. `spawned` and `awaited` only record which tasks were started and which handles were consumed. */
  datatype RunState = RunState(
    ctx: CtxView,
    records: seq<Record>,
    pending: map<string, Handle>,
    last: StepOutput,
    saved: map<string, StepOutput>,
    spawned: map<string, Handle>,
    awaited: seq<string>)

  datatype Ending = Completed | Broken | Stopped(cause: Cause)

  datatype RunEnd = RunEnd(s: RunState, ending: Ending)

  predicate IsAsync(step: StepDef) {
    step.asyncExec == Some(true)
  }

  // ---------- one synchronous step ----------

  /** Outcome of an execution after output parsing. */
  function Parsed(w: Runtime, step: StepDef, outcome: Outcome): Outcome {
    if outcome.Ok? && step.outputType.Some? && !step.outputType.value.Text? then
      match w.parse(Trim(OutputText(outcome.value)), step.outputType.value)
      case Ok(_) => outcome
      case Err(e) => Err(e)
    else outcome
  }

  /** The typed value stored beside a successful output. */
  function ParsedValueOf(w: Runtime, step: StepDef, output: StepOutput): Option<ParsedValue> {
    if step.outputType.None? then None
    else if step.outputType.value.Text? then Some(ParsedText(Trim(OutputText(output))))
    else
      match w.parse(Trim(OutputText(output)), step.outputType.value)
      case Ok(v) => Some(v)
      case Err(_) => None
  }

  function StepOutcome(w: Runtime, step: StepDef, ctx: CtxView): Outcome {
    Parsed(w, step, w.exec(step, ctx).outcome)
  }

  function IsFlow(outcome: Outcome): bool {
    outcome.Err? && outcome.error.Flow?
  }

  /** Context and records after executing a step: output, typed value and record are stored together. */
  function Executed(w: Runtime, step: StepDef, s: RunState): (r: RunState)
    requires s.ctx.frames != []
    ensures r.ctx.frames != []
  {
    var run := w.exec(step, s.ctx);
    var ctx := s.ctx.(chats := run.chats);
    var outcome := Parsed(w, step, run.outcome);
    if outcome.Ok? then
      var stored := Stored(ctx, step.name, outcome.value);
      var typed := ParsedValueOf(w, step, outcome.value);
      s.(ctx := if typed.Some? then StoredParsed(stored, step.name, typed.value) else stored,
         records := s.records + [Record(step.name, ShowStepType(step.stepType), "ok")])
    else if IsFlow(outcome) then s.(ctx := ctx)
    else s.(ctx := ctx, records := s.records + [Record(step.name, ShowStepType(step.stepType), "failed")])
  }

  // ---------- dependencies ----------

  function FieldReferences(w: Runtime, field: Option<string>): seq<string> {
    if field.Some? then w.references(field.value) else []
  }

  /** Template fields that are searched for references. */
  function References(w: Runtime, step: StepDef): seq<string> {
    FieldReferences(w, step.run) + FieldReferences(w, step.prompt) + FieldReferences(w, step.condition)
  }

  /** Referenced names that are pending, without repetition, in order. */
  function Wanted(refs: seq<string>, pending: map<string, Handle>, chosen: seq<string>): seq<string> {
    if refs == [] then chosen
    else Wanted(refs[1..], pending, if refs[0] in pending && refs[0] !in chosen then chosen + [refs[0]] else chosen)
  }

  predicate Succeeds(h: Handle) {
    h.Finishes? && h.outcome.Ok?
  }

  /** Consuming a pending handle: success is stored and recorded, failure leaves no record. */
  function Awaited(s: RunState, name: string, kind: string): (r: RunState)
    requires s.ctx.frames != [] && name in s.pending
    ensures r.ctx.frames != []
  {
    var s' := s.(pending := s.pending - {name}, awaited := s.awaited + [name]);
    if Succeeds(s.pending[name]) then
      s'.(ctx := Stored(s.ctx, name, s.pending[name].outcome.value), records := s.records + [Record(name, kind, "ok")])
    else s'
  }

  /** Awaits the listed dependencies until one fails. */
  function AwaitAll(s: RunState, names: seq<string>): (r: (RunState, Option<string>))
    requires s.ctx.frames != []
    ensures r.0.ctx.frames != []
    decreases |names|
  {
    if names == [] then (s, None)
    else if names[0] !in s.pending then AwaitAll(s, names[1..])
    else
      var s' := Awaited(s, names[0], "async");
      if Succeeds(s.pending[names[0]]) then AwaitAll(s', names[1..]) else (s', Some(names[0]))
  }

  // ---------- the loop ----------

  /** Executing a synchronous step and reacting to its outcome. */
  function RunSync(w: Runtime, step: StepDef, s: RunState): (r: RunEnd)
    requires s.ctx.frames != []
    ensures r.s.ctx.frames != []
  {
    var s' := Executed(w, step, s);
    match StepOutcome(w, step, s.ctx)
    case Ok(output) => RunEnd(s'.(saved := s'.saved[step.name := output], last := output), Completed)
    case Err(e) =>
      if e.Flow? && e.flow.Skip? then
        RunEnd(s'.(ctx := Stored(s'.ctx, step.name, Empty),
                   records := s'.records + [Record(step.name, ShowStepType(step.stepType), "skipped")]), Completed)
      else if e.Flow? && e.flow.Break? then RunEnd(s', Broken)
      else RunEnd(s', Stopped(StepFailed(step.name, e)))
  }

  /** One iteration for a step that is not skipped by a resume. */
  function OneStep(w: Runtime, step: StepDef, s: RunState): (r: RunEnd)
    requires s.ctx.frames != []
    ensures r.s.ctx.frames != []
  {
    if IsAsync(step) then
      var h := w.spawn(step, TargetOf(s.ctx.frames));
      RunEnd(s.(pending := s.pending[step.name := h], spawned := s.spawned[step.name := h]), Completed)
    else
      var (s1, failed) := AwaitAll(s, Wanted(References(w, step), s.pending, []));
      if failed.Some? then RunEnd(s1, Stopped(AwaitFailed(failed.value, step.name)))
      else
        RunSync(w, step, s1)
  }

  function Loop(w: Runtime, steps: seq<StepDef>, s: RunState): (r: RunEnd)
    requires s.ctx.frames != []
    ensures r.s.ctx.frames != []
  {
    if steps == [] then RunEnd(s, Completed)
    else
      var one := OneStep(w, steps[0], s);
      if one.ending.Completed? then Loop(w, steps[1..], one.s) else one
  }

  /** A step before the resume point: its saved output, if there is one, goes back into the context. */
  function Restored(step: StepDef, loaded: map<string, StepOutput>, s: RunState): (r: RunState)
    requires s.ctx.frames != []
    ensures r.ctx.frames != []
  {
    if step.name in loaded then
      s.(ctx := Stored(s.ctx, step.name, loaded[step.name]),
         records := s.records + [Record(step.name, ShowStepType(step.stepType), "skipped_resume")])
    else s
  }

  /** The whole loop, with an optional resume point. */
  function LoopFrom(w: Runtime, steps: seq<StepDef>, resume: Option<string>, loaded: map<string, StepOutput>,
      s: RunState): (r: RunEnd)
    requires s.ctx.frames != []
    ensures r.s.ctx.frames != []
    decreases steps
  {
    if resume.None? then Loop(w, steps, s)
    else if steps == [] then RunEnd(s, Completed)
    else if steps[0].name == resume.value then Loop(w, steps, s)
    else LoopFrom(w, steps[1..], resume, loaded, Restored(steps[0], loaded, s))
  }

  /** Draining one leftover handle: a failure is recorded but fails nothing. */
  function Drained(s: RunState, name: string, kind: string): (r: RunState)
    requires s.ctx.frames != [] && name in s.pending
    ensures r.ctx.frames != []
  {
    var s' := Awaited(s, name, kind);
    if Succeeds(s.pending[name]) then s' else s'.(records := s'.records + [Record(name, kind, "failed")])
  }

  /** The final drain over the leftover handles in some order. */
  function DrainAll(s: RunState, order: seq<string>, kinds: string -> string): (r: RunState)
    requires s.ctx.frames != [] && Distinct(order) && forall n :: n in order ==> n in s.pending
    ensures r.ctx.frames != []
    decreases |order|
  {
    if order == [] then s
    else
      assert forall n :: n in order[1..] ==> n != order[0];
      DrainAll(Drained(s, order[0], kinds(order[0])), order[1..], kinds)
  }

  // ---------- conservation of asynchronous steps ----------

  function Count(records: seq<Record>, name: string): nat {
    if records == [] then 0
    else Count(records[..|records| - 1], name) + (if Last(records).name == name then 1 else 0)
  }

  lemma CountPush(records: seq<Record>, r: Record)
    ensures forall n :: Count(records + [r], n) == Count(records, n) + (if r.name == n then 1 else 0)
  {
    assert (records + [r])[..|records|] == records;
  }

  /** The task whose failure ended the loop, if that is how it ended. */
  function Culprit(e: Ending): Option<string> {
    if e.Stopped? && e.cause.AwaitFailed? then Some(e.cause.dependency) else None
  }

  /**
   * The books balance: a handle is pending exactly when it was spawned and not yet awaited, no handle is awaited
   * twice, every awaited task but the culprit has exactly one record, and all others have none.
   */
  ghost predicate Balanced(s: RunState, culprit: Option<string>) {
    && Distinct(s.awaited)
    && (forall n :: n in s.awaited ==> n in s.spawned)
    && (forall n :: n in s.pending <==> n in s.spawned && n !in s.awaited)
    && (forall n :: n in s.pending ==> s.pending[n] == s.spawned[n])
    && (culprit.Some? ==> culprit.value in s.awaited && !Succeeds(s.spawned[culprit.value]))
    && (forall n :: n in s.spawned ==>
          Count(s.records, n) == if n in s.awaited && Some(n) != culprit then 1 else 0)
  }

  /** Names of the steps still to come have left no trace yet. */
  ghost predicate Unseen(steps: seq<StepDef>, s: RunState) {
    && UniqueNames(steps)
    && (forall k :: 0 <= k < |steps| ==> steps[k].name !in s.spawned && Count(s.records, steps[k].name) == 0)
  }

  /** Every handle consumed so far belonged to a task that succeeded. */
  ghost predicate OnlySuccesses(s: RunState) {
    forall n :: n in s.awaited && n in s.spawned ==> Succeeds(s.spawned[n])
  }

  /** Records were added for the given names only, and at most for those. */
  lemma {:induction false} AwaitAllBalanced(s: RunState, names: seq<string>)
    requires s.ctx.frames != [] && Balanced(s, None) && OnlySuccesses(s)
    ensures var (s', failed) := AwaitAll(s, names);
            && Balanced(s', failed) && s'.spawned == s.spawned
            && (failed.None? ==> OnlySuccesses(s'))
            && (failed.Some? ==> failed.value in names)
            && forall n :: n !in s.spawned ==> Count(s'.records, n) == Count(s.records, n)
    decreases |names|
  {
    if names != [] {
      if names[0] in s.pending {
        var s' := Awaited(s, names[0], "async");
        AwaitedBalanced(s, names[0], "async");
        if Succeeds(s.pending[names[0]]) {
          AwaitAllBalanced(s', names[1..]);
        }
      } else {
        AwaitAllBalanced(s, names[1..]);
      }
    }
  }

  lemma {:induction false} AwaitedBalanced(s: RunState, name: string, kind: string)
    requires s.ctx.frames != [] && Balanced(s, None) && name in s.pending
    ensures var s' := Awaited(s, name, kind);
            && Balanced(s', if Succeeds(s.pending[name]) then None else Some(name))
            && s'.spawned == s.spawned && s'.awaited == s.awaited + [name]
            && forall n :: n != name ==> Count(s'.records, n) == Count(s.records, n)
  {
    CountPush(s.records, Record(name, kind, "ok"));
  }

  lemma {:induction false} WantedFromRefs(refs: seq<string>, pending: map<string, Handle>, chosen: seq<string>)
    ensures forall n :: n in Wanted(refs, pending, chosen) <==> n in chosen || (n in refs && n in pending)
    decreases |refs|
  {
    if refs != [] {
      var isNew := refs[0] in pending && refs[0] !in chosen;
      WantedFromRefs(refs[1..], pending, if isNew then chosen + [refs[0]] else chosen);
    }
  }

  /** The books are as before, except that records of one name may have been added. */
  ghost predicate OnlyRecords(s: RunState, s': RunState, name: string) {
    && s'.pending == s.pending && s'.spawned == s.spawned && s'.awaited == s.awaited
    && forall n :: n != name ==> Count(s'.records, n) == Count(s.records, n)
  }

  lemma {:induction false} BalancedKept(s: RunState, s': RunState, name: string)
    requires Balanced(s, None) && OnlyRecords(s, s', name) && name !in s.spawned
    ensures Balanced(s', None)
  {
  }

  lemma {:induction false} ExecutedOnlyRecords(w: Runtime, step: StepDef, s: RunState)
    requires s.ctx.frames != []
    ensures OnlyRecords(s, Executed(w, step, s), step.name)
  {
    CountPush(s.records, Record(step.name, ShowStepType(step.stepType), "ok"));
    CountPush(s.records, Record(step.name, ShowStepType(step.stepType), "failed"));
  }

  /** The synchronous part of a step once its dependencies are there. */
  lemma {:induction false} SyncOnlyRecords(w: Runtime, step: StepDef, s: RunState)
    requires s.ctx.frames != []
    ensures OnlyRecords(s, RunSync(w, step, s).s, step.name) && Culprit(RunSync(w, step, s).ending).None?
  {
    ExecutedOnlyRecords(w, step, s);
    CountPush(Executed(w, step, s).records, Record(step.name, ShowStepType(step.stepType), "skipped"));
  }

  /** What one step does to the books; only its own name can gain a spawn, and names of other steps gain no record. */
  lemma {:induction false} OneStepBalanced(w: Runtime, step: StepDef, s: RunState)
    requires s.ctx.frames != [] && Balanced(s, None) && OnlySuccesses(s)
    requires step.name !in s.spawned && Count(s.records, step.name) == 0
    ensures var r := OneStep(w, step, s);
            && Balanced(r.s, Culprit(r.ending))
            && (Culprit(r.ending).None? ==> OnlySuccesses(r.s))
            && r.s.spawned.Keys == s.spawned.Keys + (if IsAsync(step) then {step.name} else {})
            && (forall n :: n !in s.spawned && n != step.name ==> Count(r.s.records, n) == Count(s.records, n))
  {
    if !IsAsync(step) {
      var wanted := Wanted(References(w, step), s.pending, []);
      AwaitAllBalanced(s, wanted);
      var (s1, failed) := AwaitAll(s, wanted);
      if failed.None? {
        SyncOnlyRecords(w, step, s1);
        BalancedKept(s1, RunSync(w, step, s1).s, step.name);
      }
    }
  }

  lemma {:induction false} LoopBalanced(w: Runtime, steps: seq<StepDef>, s: RunState)
    requires s.ctx.frames != [] && Balanced(s, None) && OnlySuccesses(s) && Unseen(steps, s)
    ensures var r := Loop(w, steps, s);
            Balanced(r.s, Culprit(r.ending)) && (Culprit(r.ending).None? ==> OnlySuccesses(r.s))
    decreases |steps|
  {
    if steps != [] {
      OneStepBalanced(w, steps[0], s);
      var one := OneStep(w, steps[0], s);
      if one.ending.Completed? {
        assert forall k :: 0 <= k < |steps[1..]| ==> steps[1..][k].name != steps[0].name;
        LoopBalanced(w, steps[1..], one.s);
      }
    }
  }

  lemma {:induction false} LoopFromBalanced(w: Runtime, steps: seq<StepDef>, resume: Option<string>,
      loaded: map<string, StepOutput>, s: RunState)
    requires s.ctx.frames != [] && Balanced(s, None) && OnlySuccesses(s) && Unseen(steps, s)
    ensures var r := LoopFrom(w, steps, resume, loaded, s);
            Balanced(r.s, Culprit(r.ending)) && (Culprit(r.ending).None? ==> OnlySuccesses(r.s))
    decreases |steps|
  {
    if resume.None? || steps == [] || steps[0].name == resume.value {
      LoopBalanced(w, steps, s);
    } else {
      CountPush(s.records, Record(steps[0].name, ShowStepType(steps[0].stepType), "skipped_resume"));
      assert forall k :: 0 <= k < |steps[1..]| ==> steps[1..][k].name != steps[0].name;
      LoopFromBalanced(w, steps[1..], resume, loaded, Restored(steps[0], loaded, s));
    }
  }

  /** Balanced books in the drain: leftover failures are awaited and recorded too. */
  ghost predicate Settled(s: RunState, culprit: Option<string>) {
    && Distinct(s.awaited)
    && (forall n :: n in s.awaited <==> n in s.spawned && n !in s.pending)
    && (forall n :: n in s.spawned ==> Count(s.records, n) == if n in s.awaited && Some(n) != culprit then 1 else 0)
    && (culprit.Some? ==> culprit.value in s.awaited)
  }

  lemma {:induction false} DrainedSettles(s: RunState, name: string, kind: string, culprit: Option<string>)
    requires s.ctx.frames != [] && Settled(s, culprit) && name in s.pending && name in s.spawned
    ensures var r := Drained(s, name, kind);
            Settled(r, culprit) && r.pending == s.pending - {name} && r.spawned == s.spawned
  {
    var record := Record(name, kind, if Succeeds(s.pending[name]) then "ok" else "failed");
    CountPush(s.records, record);
    var r := Drained(s, name, kind);
    assert r.records == s.records + [record] && r.awaited == s.awaited + [name];
  }

  lemma {:induction false} DrainSettles(s: RunState, order: seq<string>, kinds: string -> string,
      culprit: Option<string>)
    requires s.ctx.frames != [] && Settled(s, culprit)
    requires Distinct(order) && (forall n :: n in order <==> n in s.pending) &&
             (forall n :: n in s.pending ==> n in s.spawned)
    ensures var r := DrainAll(s, order, kinds);
            Settled(r, culprit) && r.pending == map[] && r.spawned == s.spawned
    decreases |order|
  {
    if order == [] {
      assert s.pending == map[];
    } else {
      var name, kind := order[0], kinds(order[0]);
      assert name in order;
      var next := Drained(s, name, kind);
      DrainedSettles(s, name, kind, culprit);
      assert forall n :: n in order <==> n == name || n in order[1..];
      assert forall n :: n in order[1..] ==> n != name;
      DrainSettles(next, order[1..], kinds, culprit);
    }
  }

  /** A run starts with nothing recorded, spawned or awaited. */
  ghost predicate Started(s: RunState) {
    s.ctx.frames != [] && s.records == [] && s.pending == map[] && s.spawned == map[] && s.awaited == []
  }

  /**
   * Conservation: with unique step names, whatever the loop did and in whatever order the leftovers are drained,
   * nothing stays pending, every spawned handle has been awaited exactly once, and every spawned step has exactly
   * one record, except the one whose failure stopped the loop, which has none.
   */
  lemma {:induction false} AsyncConservation(w: Runtime, steps: seq<StepDef>, resume: Option<string>,
      loaded: map<string, StepOutput>, s: RunState, order: seq<string>, kinds: string -> string)
    requires Started(s) && UniqueNames(steps)
    requires var r := LoopFrom(w, steps, resume, loaded, s).s;
             Distinct(order) && forall n :: n in order <==> n in r.pending
    ensures var loop := LoopFrom(w, steps, resume, loaded, s);
            var r := DrainAll(loop.s, order, kinds);
            && r.pending == map[] && r.spawned == loop.s.spawned
            && Distinct(r.awaited) && (forall n :: n in r.awaited <==> n in r.spawned)
            && (forall n :: n in r.spawned ==> Count(r.records, n) == if Some(n) == Culprit(loop.ending) then 0 else 1)
  {
    LoopFromBalanced(w, steps, resume, loaded, s);
    var loop := LoopFrom(w, steps, resume, loaded, s);
    DrainSettles(loop.s, order, kinds, Culprit(loop.ending));
  }

  // ---------- asynchronous failures ----------

  /** The loop reaches step `k`: all steps before it let the loop go on. */
  ghost predicate Reaches(w: Runtime, steps: seq<StepDef>, s: RunState, k: nat)
    requires s.ctx.frames != []
    decreases k
  {
    k < |steps| &&
    (k > 0 ==> OneStep(w, steps[0], s).ending.Completed? && Reaches(w, steps[1..], OneStep(w, steps[0], s).s, k - 1))
  }

  /** State in which a reached step starts. */
  ghost function StateAt(w: Runtime, steps: seq<StepDef>, s: RunState, k: nat): (r: RunState)
    requires s.ctx.frames != [] && Reaches(w, steps, s, k)
    ensures r.ctx.frames != []
    decreases k
  {
    if k == 0 then s else StateAt(w, steps[1..], OneStep(w, steps[0], s).s, k - 1)
  }

  /** The step's command, prompt or condition refers to a name. */
  predicate Names(w: Runtime, step: StepDef, name: string) {
    || (step.run.Some? && name in w.references(step.run.value))
    || (step.prompt.Some? && name in w.references(step.prompt.value))
    || (step.condition.Some? && name in w.references(step.condition.value))
  }

  lemma {:induction false} NamesAreReferences(w: Runtime, step: StepDef)
    ensures forall n :: n in References(w, step) <==> Names(w, step, n)
  {
  }

  /** A pending task that has not succeeded. */
  predicate Fails(pending: map<string, Handle>, name: string) {
    name in pending && !Succeeds(pending[name])
  }

  /** Step `k` is synchronous, and its command, prompt or condition refers to a pending task that fails. */
  ghost predicate MeetsFailure(w: Runtime, steps: seq<StepDef>, s: RunState, k: nat)
    requires s.ctx.frames != []
  {
    && Reaches(w, steps, s, k) && !IsAsync(steps[k])
    && exists n :: Names(w, steps[k], n) && Fails(StateAt(w, steps, s, k).pending, n)
  }

  lemma {:induction false} AwaitAllFails(s: RunState, names: seq<string>)
    requires s.ctx.frames != []
    ensures AwaitAll(s, names).1.Some? <==> exists n :: n in names && n in s.pending && !Succeeds(s.pending[n])
    decreases |names|
  {
    if names != [] {
      if names[0] in s.pending {
        if Succeeds(s.pending[names[0]]) {
          AwaitAllFails(Awaited(s, names[0], "async"), names[1..]);
          assert forall n :: n in names && n != names[0] ==> n in names[1..];
        } else {
          assert names[0] in names;
        }
      } else {
        AwaitAllFails(s, names[1..]);
        assert forall n :: n in names && n != names[0] ==> n in names[1..];
      }
    }
  }

  lemma {:induction false} StepMeetsFailure(w: Runtime, steps: seq<StepDef>, s: RunState)
    requires s.ctx.frames != [] && steps != []
    ensures Culprit(OneStep(w, steps[0], s).ending).Some? <==> MeetsFailure(w, steps, s, 0)
  {
    var refs := References(w, steps[0]);
    NamesAreReferences(w, steps[0]);
    WantedFromRefs(refs, s.pending, []);
    AwaitAllFails(s, Wanted(refs, s.pending, []));
    assert StateAt(w, steps, s, 0) == s;
  }

  lemma {:induction false} MeetsLater(w: Runtime, steps: seq<StepDef>, s: RunState, k: nat)
    requires s.ctx.frames != [] && steps != [] && OneStep(w, steps[0], s).ending.Completed?
    ensures MeetsFailure(w, steps[1..], OneStep(w, steps[0], s).s, k) <==> MeetsFailure(w, steps, s, k + 1)
  {
    var next := OneStep(w, steps[0], s).s;
    assert Reaches(w, steps, s, k + 1) <==> Reaches(w, steps[1..], next, k);
    if Reaches(w, steps[1..], next, k) {
      assert StateAt(w, steps, s, k + 1) == StateAt(w, steps[1..], next, k) && steps[1..][k] == steps[k + 1];
    }
  }

  /** A failing asynchronous task stops the loop exactly when a synchronous step that the loop reaches refers to it. */
  lemma {:induction false} AsyncFailureNeedsReference(w: Runtime, steps: seq<StepDef>, s: RunState)
    requires s.ctx.frames != []
    ensures Culprit(Loop(w, steps, s).ending).Some? <==> exists k: nat :: MeetsFailure(w, steps, s, k)
    decreases |steps|
  {
    if steps != [] {
      var one := OneStep(w, steps[0], s);
      StepMeetsFailure(w, steps, s);
      if one.ending.Completed? {
        AsyncFailureNeedsReference(w, steps[1..], one.s);
        if k: nat :| MeetsFailure(w, steps[1..], one.s, k) {
          MeetsLater(w, steps, s, k);
        }
        if k: nat :| MeetsFailure(w, steps, s, k) && k > 0 {
          MeetsLater(w, steps, s, k - 1);
        }
      }
    }
  }

  /** The first of these names whose pending task fails. */
  function FirstFailing(names: seq<string>, pending: map<string, Handle>): Option<string> {
    if names == [] then None
    else if Fails(pending, names[0]) then Some(names[0])
    else FirstFailing(names[1..], pending)
  }

  /** Tasks that succeed may be missing without changing which one fails first. */
  lemma {:induction false} FirstFailingWithout(names: seq<string>, pending: map<string, Handle>, name: string)
    requires name in pending && Succeeds(pending[name])
    ensures FirstFailing(names, pending - {name}) == FirstFailing(names, pending)
    decreases |names|
  {
    if names != [] {
      FirstFailingWithout(names[1..], pending, name);
    }
  }

  lemma {:induction false} AwaitAllBlames(s: RunState, names: seq<string>)
    requires s.ctx.frames != []
    ensures AwaitAll(s, names).1 == FirstFailing(names, s.pending)
    decreases |names|
  {
    if names != [] {
      if names[0] in s.pending {
        if Succeeds(s.pending[names[0]]) {
          AwaitAllBlames(Awaited(s, names[0], "async"), names[1..]);
          FirstFailingWithout(names[1..], s.pending, names[0]);
        }
      } else {
        AwaitAllBlames(s, names[1..]);
      }
    }
  }

  lemma {:induction false} FirstFailingNone(names: seq<string>, pending: map<string, Handle>)
    ensures FirstFailing(names, pending).None? <==> forall n :: n in names ==> !Fails(pending, n)
    decreases |names|
  {
    if names != [] {
      FirstFailingNone(names[1..], pending);
      assert forall n :: n in names <==> n == names[0] || n in names[1..];
    }
  }

  lemma {:induction false} FirstFailingAppend(a: seq<string>, b: seq<string>, pending: map<string, Handle>)
    ensures FirstFailing(a + b, pending) == OrElse(FirstFailing(a, pending), FirstFailing(b, pending))
    decreases |a|
  {
    if a == [] {
      assert a + b == b;
    } else {
      assert (a + b)[1..] == a[1..] + b && (a + b)[0] == a[0];
      FirstFailingAppend(a[1..], b, pending);
    }
  }

  lemma {:induction false} FirstWanted(refs: seq<string>, pending: map<string, Handle>, chosen: seq<string>)
    ensures FirstFailing(Wanted(refs, pending, chosen), pending) ==
            OrElse(FirstFailing(chosen, pending), FirstFailing(refs, pending))
    decreases |refs|
  {
    if refs != [] {
      var isNew := refs[0] in pending && refs[0] !in chosen;
      FirstWanted(refs[1..], pending, if isNew then chosen + [refs[0]] else chosen);
      if isNew {
        FirstFailingAppend(chosen, [refs[0]], pending);
        assert [refs[0]][1..] == [];
      } else if Fails(pending, refs[0]) {
        FirstFailingNone(chosen, pending);
      }
    }
  }

  /** The first name in a field whose pending task fails. */
  function FirstIn(w: Runtime, field: Option<string>, pending: map<string, Handle>): Option<string> {
    if field.None? then None else FirstFailing(w.references(field.value), pending)
  }

  /** The first failing task that the step refers to, in its command, then its prompt, then its condition. */
  function FirstNamed(w: Runtime, step: StepDef, pending: map<string, Handle>): Option<string> {
    OrElse(FirstIn(w, step.run, pending), OrElse(FirstIn(w, step.prompt, pending), FirstIn(w, step.condition, pending)))
  }

  lemma {:induction false} FirstNamedIsAwaited(w: Runtime, step: StepDef, pending: map<string, Handle>)
    ensures FirstFailing(Wanted(References(w, step), pending, []), pending) == FirstNamed(w, step, pending)
  {
    var run, prompt := FieldReferences(w, step.run), FieldReferences(w, step.prompt);
    FirstWanted(References(w, step), pending, []);
    FirstFailingAppend(run + prompt, FieldReferences(w, step.condition), pending);
    FirstFailingAppend(run, prompt, pending);
  }

  /** Step `k` is reached and synchronous, and `name` is the first task it refers to that fails. */
  ghost predicate Blames(w: Runtime, steps: seq<StepDef>, s: RunState, k: nat, name: string)
    requires s.ctx.frames != []
  {
    && Reaches(w, steps, s, k) && !IsAsync(steps[k])
    && FirstNamed(w, steps[k], StateAt(w, steps, s, k).pending) == Some(name)
  }

  lemma {:induction false} BlamesLater(w: Runtime, steps: seq<StepDef>, s: RunState, k: nat, name: string)
    requires s.ctx.frames != [] && steps != [] && OneStep(w, steps[0], s).ending.Completed?
    ensures Blames(w, steps[1..], OneStep(w, steps[0], s).s, k, name) <==> Blames(w, steps, s, k + 1, name)
  {
    var next := OneStep(w, steps[0], s).s;
    assert Reaches(w, steps, s, k + 1) <==> Reaches(w, steps[1..], next, k);
    if Reaches(w, steps[1..], next, k) {
      assert StateAt(w, steps, s, k + 1) == StateAt(w, steps[1..], next, k) && steps[1..][k] == steps[k + 1];
    }
  }

  lemma {:induction false} StepBlames(w: Runtime, steps: seq<StepDef>, s: RunState, name: string, requester: string)
    requires s.ctx.frames != [] && steps != []
    ensures OneStep(w, steps[0], s).ending == Stopped(AwaitFailed(name, requester)) <==>
            Blames(w, steps, s, 0, name) && requester == steps[0].name
  {
    AwaitAllBlames(s, Wanted(References(w, steps[0]), s.pending, []));
    FirstNamedIsAwaited(w, steps[0], s.pending);
    assert StateAt(w, steps, s, 0) == s;
  }

  /** A step that blames a task is the last one reached. */
  lemma {:induction false} BlameIsLast(w: Runtime, steps: seq<StepDef>, s: RunState, k: nat, name: string)
    requires s.ctx.frames != [] && Blames(w, steps, s, k, name)
    ensures forall j: nat :: Reaches(w, steps, s, j) ==> j <= k
    decreases k
  {
    if k == 0 {
      StepBlames(w, steps, s, name, steps[0].name);
    } else {
      var next := OneStep(w, steps[0], s).s;
      BlamesLater(w, steps, s, k - 1, name);
      BlameIsLast(w, steps[1..], next, k - 1, name);
      assert forall j: nat :: Reaches(w, steps, s, j) && j > 0 ==> Reaches(w, steps[1..], next, j - 1);
    }
  }

  /**
   * The failure names task and step: the loop stops for `name` at the request of `requester` exactly when a step of
   * that name, which is then the last one reached, refers to `name` as its first task that fails.
   */
  lemma {:induction false} AwaitFailedIs(w: Runtime, steps: seq<StepDef>, s: RunState, name: string, requester: string)
    requires s.ctx.frames != []
    ensures Loop(w, steps, s).ending == Stopped(AwaitFailed(name, requester)) <==>
            exists k: nat :: Blames(w, steps, s, k, name) && requester == steps[k].name
    ensures forall k: nat, j: nat :: Blames(w, steps, s, k, name) && Reaches(w, steps, s, j) ==> j <= k
    decreases |steps|
  {
    forall k: nat, j: nat | Blames(w, steps, s, k, name) && Reaches(w, steps, s, j) ensures j <= k {
      BlameIsLast(w, steps, s, k, name);
    }
    if steps != [] {
      var one := OneStep(w, steps[0], s);
      StepBlames(w, steps, s, name, requester);
      if one.ending.Completed? {
        AwaitFailedIs(w, steps[1..], one.s, name, requester);
        if k: nat :| Blames(w, steps[1..], one.s, k, name) && requester == steps[1..][k].name {
          BlamesLater(w, steps, s, k, name);
        }
        if k: nat :| Blames(w, steps, s, k, name) && requester == steps[k].name && k > 0 {
          BlamesLater(w, steps, s, k - 1, name);
        }
      }
    }
  }

  // ---------- where a resumed loop starts ----------

  function RestoredAll(steps: seq<StepDef>, loaded: map<string, StepOutput>, s: RunState): (r: RunState)
    requires s.ctx.frames != []
    ensures r.ctx.frames != []
    decreases |steps|
  {
    if steps == [] then s else RestoredAll(steps[1..], loaded, Restored(steps[0], loaded, s))
  }

  /** Number of steps in front of the resume point. */
  function Skipped(steps: seq<StepDef>, resume: Option<string>): (n: nat)
    ensures n <= |steps|
  {
    if resume.None? || steps == [] || steps[0].name == resume.value then 0 else 1 + Skipped(steps[1..], resume)
  }

  /** A resumed loop restores the steps in front of the resume point and runs the others. */
  lemma {:induction false} LoopFromIs(w: Runtime, steps: seq<StepDef>, resume: Option<string>,
      loaded: map<string, StepOutput>, s: RunState)
    requires s.ctx.frames != []
    ensures var n := Skipped(steps, resume);
            LoopFrom(w, steps, resume, loaded, s) == Loop(w, steps[n..], RestoredAll(steps[..n], loaded, s))
    decreases |steps|
  {
    var n := Skipped(steps, resume);
    if n == 0 {
      assert steps[0..] == steps && steps[..0] == [];
    } else {
      LoopFromIs(w, steps[1..], resume, loaded, Restored(steps[0], loaded, s));
      assert steps[..n][1..] == steps[1..][..n - 1] && steps[n..] == steps[1..][n - 1..];
    }
  }

  /**
   * The same with a resume point: what counts are the steps from there on, in the state rebuilt from the saved
   * outputs.
   */
  lemma {:induction false} ResumedFailureNeedsReference(w: Runtime, steps: seq<StepDef>, resume: Option<string>,
      loaded: map<string, StepOutput>, s: RunState)
    requires s.ctx.frames != []
    ensures var n := Skipped(steps, resume);
            Culprit(LoopFrom(w, steps, resume, loaded, s).ending).Some? <==>
            exists k: nat :: MeetsFailure(w, steps[n..], RestoredAll(steps[..n], loaded, s), k)
  {
    var n := Skipped(steps, resume);
    LoopFromIs(w, steps, resume, loaded, s);
    AsyncFailureNeedsReference(w, steps[n..], RestoredAll(steps[..n], loaded, s));
  }

  /** Task and step are named in the same way by a resumed loop. */
  lemma {:induction false} ResumedAwaitFailedIs(w: Runtime, steps: seq<StepDef>, resume: Option<string>,
      loaded: map<string, StepOutput>, s: RunState, name: string, requester: string)
    requires s.ctx.frames != []
    ensures var n := Skipped(steps, resume);
            var q, start := steps[n..], RestoredAll(steps[..n], loaded, s);
            LoopFrom(w, steps, resume, loaded, s).ending == Stopped(AwaitFailed(name, requester)) <==>
            exists k: nat :: Blames(w, q, start, k, name) && requester == q[k].name
  {
    var n := Skipped(steps, resume);
    LoopFromIs(w, steps, resume, loaded, s);
    AwaitFailedIs(w, steps[n..], RestoredAll(steps[..n], loaded, s), name, requester);
  }

  // ---------- the engine ----------

  /** `order` lists the pending names, each once. */
  ghost predicate Drains(s: RunState, order: seq<string>) {
    Distinct(order) && forall n :: n in order <==> n in s.pending
  }

  /** Part of a drain: what was pending at the start is either listed or still pending, never both. */
  ghost predicate Draining(s: RunState, order: seq<string>, pending: map<string, Handle>) {
    && Distinct(order)
    && (forall n :: n in s.pending <==> n in order || n in pending)
    && (forall n :: n in order ==> n !in pending)
  }

  lemma {:induction false} DrainingNext(s: RunState, order: seq<string>, pending: map<string, Handle>, name: string)
    requires Draining(s, order, pending) && name in pending
    ensures Draining(s, order + [name], pending - {name}) && |pending - {name}| < |pending|
    ensures forall n :: n in order + [name] ==> n in s.pending
  {
    assert (pending - {name}).Keys == pending.Keys - {name};
    assert |pending.Keys - {name}| < |pending.Keys|;
  }

  class Engine {
    const w: Runtime
    const steps: seq<StepDef>
    const context: Context
    var stepRecords: seq<Record>
    var pendingFutures: map<string, Handle>
    var saved: map<string, StepOutput>
    ghost var spawned: map<string, Handle>
    ghost var awaited: seq<string>

    constructor (w: Runtime, steps: seq<StepDef>, target: string, vars: map<string, Json>)
      ensures Ready() && this.w == w && this.steps == steps
      ensures context.View() == RootView(target, vars)
      ensures fresh(context) && fresh(context.session) && fresh(context.chats)
      ensures Started(State(Empty)) && saved == map[]
    {
      this.w, this.steps := w, steps;
      context := new Context(target, vars);
      stepRecords, pendingFutures, saved := [], map[], map[];
      spawned, awaited := map[], [];
    }

    ghost predicate Ready()
      reads this, context
    {
      context.Chain == {context} && context.parent == null
    }

    lemma ReadyIsValid()
      requires Ready()
      ensures context.Valid()
    {
    }

    ghost function State(last: StepOutput): (s: RunState)
      requires Ready()
      reads this, context, context.session, context.chats
      ensures s.ctx.frames != []
    {
      ReadyIsValid();
      RunState(context.View(), stepRecords, pendingFutures, last, saved, spawned, awaited)
    }

    /** Awaits one pending step; false when it failed. */
    method AwaitPendingStep(name: string, ghost last: StepOutput) returns (ok: bool)
      requires Ready() && name in pendingFutures
      modifies this, context, context.session
      ensures Ready() && State(last) == Awaited(old(State(last)), name, "async")
      ensures ok == Succeeds(old(pendingFutures)[name]) && saved == old(saved)
    {
      ReadyIsValid();
      var handle := pendingFutures[name];
      pendingFutures := pendingFutures - {name};
      awaited := awaited + [name];
      match handle {
        case Finishes(Ok(output)) =>
          context.Store(name, output);
          stepRecords := stepRecords + [Record(name, "async", "ok")];
          return true;
        case _ =>
          return false;
      }
    }

    /** Awaits every pending step that the given one refers to; the name of the first failing one, if any. */
    method AwaitPendingDeps(step: StepDef, ghost last: StepOutput) returns (failed: Option<string>)
      requires Ready()
      modifies this, context, context.session
      ensures Ready() && saved == old(saved)
      ensures (State(last), failed) == AwaitAll(old(State(last)), Wanted(References(w, step), old(pendingFutures), []))
    {
      var deps := Wanted(References(w, step), pendingFutures, []);
      ghost var before := State(last);
      for i := 0 to |deps|
        invariant Ready() && saved == old(saved)
        invariant AwaitAll(before, deps) == AwaitAll(State(last), deps[i..])
      {
        assert deps[i..][1..] == deps[i + 1..];
        if deps[i] in pendingFutures {
          var ok := AwaitPendingStep(deps[i], last);
          if !ok {
            return Some(deps[i]);
          }
        }
      }
      return None;
    }

    /** Runs one step and stores its output, typed value and record. */
    method ExecuteStep(step: StepDef, ghost last: StepOutput) returns (outcome: Outcome)
      requires Ready()
      modifies this, context, context.session, context.chats
      ensures Ready() && State(last) == Executed(w, step, old(State(last)))
      ensures outcome == StepOutcome(w, step, old(context.View()))
    {
      ReadyIsValid();
      var run := w.exec(step, context.View());
      context.chats.messages := run.chats;
      outcome := Parsed(w, step, run.outcome);
      var kind := ShowStepType(step.stepType);
      match outcome {
        case Ok(output) =>
          context.Store(step.name, output);
          var typed := ParsedValueOf(w, step, output);
          if typed.Some? {
            context.StoreParsed(step.name, typed.value);
          }
          stepRecords := stepRecords + [Record(step.name, kind, "ok")];
        case Err(Flow(_)) =>
        case Err(_) =>
          stepRecords := stepRecords + [Record(step.name, kind, "failed")];
      }
    }

    /** Runs a synchronous step whose dependencies are met and reacts to its outcome. */
    method RunSyncStep(step: StepDef, last: StepOutput) returns (last': StepOutput, ending: Ending)
      requires Ready()
      modifies this, context, context.session, context.chats
      ensures Ready() && RunEnd(State(last'), ending) == RunSync(w, step, old(State(last)))
    {
      ReadyIsValid();
      var outcome := ExecuteStep(step, last);
      match outcome {
        case Ok(output) =>
          saved := saved[step.name := output];
          return output, Completed;
        case Err(Flow(Skip(_))) =>
          context.Store(step.name, Empty);
          stepRecords := stepRecords + [Record(step.name, ShowStepType(step.stepType), "skipped")];
          return last, Completed;
        case Err(Flow(Break(_, _))) =>
          return last, Broken;
        case Err(e) =>
          return last, Stopped(StepFailed(step.name, e));
      }
    }

    /** One iteration of the run loop for a step that is not skipped by a resume. */
    method RunStep(step: StepDef, last: StepOutput) returns (last': StepOutput, ending: Ending)
      requires Ready()
      modifies this, context, context.session, context.chats
      ensures Ready() && RunEnd(State(last'), ending) == OneStep(w, step, old(State(last)))
    {
      ReadyIsValid();
      if IsAsync(step) {
        var handle := w.spawn(step, TargetOf(context.Frames()));
        pendingFutures := pendingFutures[step.name := handle];
        spawned := spawned[step.name := handle];
        return last, Completed;
      }
      var failed := AwaitPendingDeps(step, last);
      if failed.Some? {
        return last, Stopped(AwaitFailed(failed.value, step.name));
      }
      last', ending := RunSyncStep(step, last);
    }

    /** Puts back the saved output of a step before the resume point. */
    method RestoreStep(step: StepDef, loaded: map<string, StepOutput>, ghost last: StepOutput)
      requires Ready()
      modifies this, context, context.session
      ensures Ready() && State(last) == Restored(step, loaded, old(State(last)))
    {
      ReadyIsValid();
      if step.name in loaded {
        context.Store(step.name, loaded[step.name]);
        stepRecords := stepRecords + [Record(step.name, ShowStepType(step.stepType), "skipped_resume")];
      }
    }

    /** Awaits one leftover handle; its record carries the type of the step that spawned it. */
    method DrainOne(name: string, ghost last: StepOutput)
      requires Ready() && name in pendingFutures
      modifies this, context, context.session
      ensures Ready() && State(last) == Drained(old(State(last)), name, Kinds(steps)(name))
      ensures pendingFutures == old(pendingFutures) - {name}
    {
      ReadyIsValid();
      var handle := pendingFutures[name];
      var kind := KindOf(steps, name);
      pendingFutures := pendingFutures - {name};
      awaited := awaited + [name];
      match handle {
        case Finishes(Ok(output)) =>
          context.Store(name, output);
          stepRecords := stepRecords + [Record(name, kind, "ok")];
        case _ =>
          stepRecords := stepRecords + [Record(name, kind, "failed")];
      }
    }

    /** Awaits every leftover handle in an arbitrary order. */
    method Drain(ghost last: StepOutput) returns (ghost order: seq<string>)
      requires Ready()
      modifies this, context, context.session
      ensures Ready() && Drains(old(State(last)), order) && pendingFutures == map[]
      ensures State(last) == DrainAll(old(State(last)), order, Kinds(steps))
    {
      order := [];
      ghost var start := State(last);
      while pendingFutures != map[]
        invariant Ready() && Draining(start, order, pendingFutures)
        invariant State(last) == DrainAll(start, order, Kinds(steps))
        decreases |pendingFutures|
      {
        var name :| name in pendingFutures;
        DrainSnoc(start, order, name, Kinds(steps));
        DrainingNext(start, order, pendingFutures, name);
        DrainOne(name, last);
        order := order + [name];
      }
    }

    /** The run loop; steps before the resume point are restored instead of run. */
    method RunSteps(resumeFrom: Option<string>, loaded: map<string, StepOutput>)
      returns (last: StepOutput, ending: Ending)
      requires Ready()
      modifies this, context, context.session, context.chats
      ensures Ready() && RunEnd(State(last), ending) == LoopFrom(w, steps, resumeFrom, loaded, old(State(Empty)))
    {
      last, ending := Empty, Completed;
      var resuming := resumeFrom.Some?;
      ghost var end := LoopFrom(w, steps, resumeFrom, loaded, State(Empty));
      var i := 0;
      while i < |steps| && ending.Completed?
        invariant 0 <= i <= |steps| && Ready()
        invariant resuming ==> resumeFrom.Some? && ending.Completed?
        invariant ending.Completed? && resuming ==> end == LoopFrom(w, steps[i..], resumeFrom, loaded, State(last))
        invariant ending.Completed? && !resuming ==> end == Loop(w, steps[i..], State(last))
        invariant !ending.Completed? ==> end == RunEnd(State(last), ending)
        decreases |steps| - i, ending.Completed?
      {
        assert steps[i..][0] == steps[i] && steps[i..][1..] == steps[i + 1..];
        if resuming && steps[i].name != resumeFrom.value {
          RestoreStep(steps[i], loaded, last);
        } else {
          resuming := false;
          last, ending := RunStep(steps[i], last);
        }
        i := i + 1;
      }
    }

    /**
     * A whole run. A resume needs a saved state and a step of that name; then the loop runs, the leftovers are
     * drained whatever the loop's ending, and the loop's failure, if any, is the run's failure.
     */
    method Run(resumeFrom: Option<string>, loadedState: Option<map<string, StepOutput>>)
      returns (result: Result<StepOutput, Cause>, ghost order: seq<string>)
      requires Ready()
      modifies this, context, context.session, context.chats
      ensures Ready()
      ensures resumeFrom.Some? && loadedState.None? ==> result == Err(NoStateFile)
      ensures resumeFrom.Some? && loadedState.Some? && !HasStep(steps, resumeFrom.value) ==>
                result == Err(ResumeStepMissing(resumeFrom.value))
      ensures (resumeFrom.Some? ==> loadedState.Some? && HasStep(steps, resumeFrom.value)) ==>
                var start := old(State(Empty)).(saved := map[]);
                var end := LoopFrom(w, steps, resumeFrom, UnwrapOr(loadedState, map[]), start);
                && Drains(end.s, order)
                && State(end.s.last) == DrainAll(end.s, order, Kinds(steps))
                && result == if end.ending.Stopped? then Err(end.ending.cause) else Ok(end.s.last)
    {
      ReadyIsValid();
      order := [];
      if resumeFrom.Some? {
        if loadedState.None? {
          return Err(NoStateFile), order;
        }
        var declared := HasStep(steps, resumeFrom.value);
        if !declared {
          return Err(ResumeStepMissing(resumeFrom.value)), order;
        }
      }
      var loaded := UnwrapOr(loadedState, map[]);
      saved := map[];
      var last, ending := RunSteps(resumeFrom, loaded);
      order := Drain(last);
      result := if ending.Stopped? then Err(ending.cause) else Ok(last);
    }
  }

  predicate HasStep(steps: seq<StepDef>, name: string) {
    exists k :: 0 <= k < |steps| && steps[k].name == name
  }

  /** Record type of a drained step: that of the first step of the name. */
  function KindOf(steps: seq<StepDef>, name: string): string {
    if steps == [] then "async"
    else if steps[0].name == name then ShowStepType(steps[0].stepType)
    else KindOf(steps[1..], name)
  }

  function Kinds(steps: seq<StepDef>): string -> string {
    name => KindOf(steps, name)
  }

  lemma {:induction false} DrainSnoc(s: RunState, order: seq<string>, name: string, kinds: string -> string)
    requires s.ctx.frames != [] && Distinct(order + [name]) && forall n :: n in order + [name] ==> n in s.pending
    ensures (forall n :: n in order ==> n in s.pending) && Distinct(order)
    ensures var r := DrainAll(s, order, kinds);
            name in r.pending && DrainAll(s, order + [name], kinds) == Drained(r, name, kinds(name))
    decreases |order|
  {
    forall n | n in order ensures n in s.pending { assert n in order + [name]; }
    forall i, j | 0 <= i < j < |order| ensures order[i] != order[j] {
      assert (order + [name])[i] != (order + [name])[j];
    }
    if order != [] {
      assert (order + [name])[1..] == order[1..] + [name];
      assert (order + [name])[0] == order[0];
      forall n | n in order[1..] + [name] ensures n in s.pending && n != order[0] {
        var k :| 0 <= k < |order[1..] + [name]| && (order[1..] + [name])[k] == n;
        assert (order + [name])[k + 1] == n && (order + [name])[0] != (order + [name])[k + 1];
      }
      DrainSnoc(Drained(s, order[0], kinds(order[0])), order[1..], name, kinds);
    } else {
      assert name in order + [name];
      assert (order + [name])[1..] == [];
    }
  }
}
