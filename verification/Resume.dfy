/** What a resumed run has in common with the uninterrupted one (src/engine/mod.rs). */
module Resume {
  import opened Prelude
  import opened Schema
  import opened ContextStore
  import opened Validator
  import opened EngineRun

  // ---------- comparing runs ----------

  /** The same context up to chats, and the same handles still pending. */
  ghost predicate Agree(a: RunState, b: RunState) {
    a.ctx.frames != [] && SameButChats(a.ctx, b.ctx) && a.pending == b.pending
  }

  /** The same ending in states that agree. */
  ghost predicate SameRun(a: RunEnd, b: RunEnd) {
    a.ending == b.ending && Agree(a.s, b.s)
  }

  /** No step of the list looks at the chat history when it decides its outcome. */
  ghost predicate ChatFree(w: Runtime, steps: seq<StepDef>) {
    forall step, a, b :: step in steps && SameButChats(a, b) ==> w.exec(step, a).outcome == w.exec(step, b).outcome
  }

  /** States from which the given steps run alike. */
  ghost predicate Interchangeable(w: Runtime, steps: seq<StepDef>, a: RunState, b: RunState) {
    Agree(a, b) && (a.ctx.chats == b.ctx.chats || ChatFree(w, steps))
  }

  /** The output of a step when it completes Ok. */
  function Produced(w: Runtime, step: StepDef, s: RunState): Option<StepOutput>
    requires s.ctx.frames != []
  {
    if IsAsync(step) then None
    else
      var (s1, failed) := AwaitAll(s, Wanted(References(w, step), s.pending, []));
      if failed.None? && StepOutcome(w, step, s1.ctx).Ok? then Some(StepOutcome(w, step, s1.ctx).value) else None
  }

  /** The last output that the loop produces, if any. */
  function LastOk(w: Runtime, steps: seq<StepDef>, s: RunState): Option<StepOutput>
    requires s.ctx.frames != []
  {
    if steps == [] then None
    else
      var one := OneStep(w, steps[0], s);
      var here := Produced(w, steps[0], s);
      if one.ending.Completed? then OrElse(LastOk(w, steps[1..], one.s), here) else here
  }

  // ---------- equal states run alike ----------

  lemma {:induction false} SameStored(a: CtxView, b: CtxView, name: string, output: StepOutput)
    requires SameButChats(a, b) && a.frames != []
    ensures SameButChats(Stored(a, name, output), Stored(b, name, output))
  {
  }

  lemma {:induction false} SameStoredParsed(a: CtxView, b: CtxView, name: string, value: ParsedValue)
    requires SameButChats(a, b) && a.frames != []
    ensures SameButChats(StoredParsed(a, name, value), StoredParsed(b, name, value))
  {
  }

  lemma {:induction false} AwaitedAgree(a: RunState, b: RunState, name: string)
    requires Agree(a, b) && name in a.pending
    ensures var x, y := Awaited(a, name, "async"), Awaited(b, name, "async");
            && Agree(x, y) && x.last == a.last && y.last == b.last
            && x.ctx.chats == a.ctx.chats && y.ctx.chats == b.ctx.chats
  {
    if Succeeds(a.pending[name]) {
      SameStored(a.ctx, b.ctx, name, a.pending[name].outcome.value);
    }
  }

  lemma {:induction false} AwaitAllAgree(a: RunState, b: RunState, names: seq<string>)
    requires Agree(a, b)
    ensures var (x, failedA) := AwaitAll(a, names);
            var (y, failedB) := AwaitAll(b, names);
            && failedA == failedB && Agree(x, y) && x.last == a.last && y.last == b.last
            && x.ctx.chats == a.ctx.chats && y.ctx.chats == b.ctx.chats
    decreases |names|
  {
    if names != [] {
      if names[0] in a.pending {
        AwaitedAgree(a, b, names[0]);
        if Succeeds(a.pending[names[0]]) {
          AwaitAllAgree(Awaited(a, names[0], "async"), Awaited(b, names[0], "async"), names[1..]);
        }
      } else {
        AwaitAllAgree(a, b, names[1..]);
      }
    }
  }

  lemma {:induction false} ExecutedAgree(w: Runtime, step: StepDef, a: RunState, b: RunState)
    requires Agree(a, b) && w.exec(step, a.ctx).outcome == w.exec(step, b.ctx).outcome
    ensures Agree(Executed(w, step, a), Executed(w, step, b))
  {
    var x, y := a.ctx.(chats := w.exec(step, a.ctx).chats), b.ctx.(chats := w.exec(step, b.ctx).chats);
    var outcome := StepOutcome(w, step, a.ctx);
    if outcome.Ok? {
      SameStored(x, y, step.name, outcome.value);
      var typed := ParsedValueOf(w, step, outcome.value);
      if typed.Some? {
        SameStoredParsed(Stored(x, step.name, outcome.value),
          Stored(y, step.name, outcome.value), step.name, typed.value);
      }
    }
  }

  lemma {:induction false} ExecutedKeeps(w: Runtime, step: StepDef, s: RunState)
    requires s.ctx.frames != []
    ensures Executed(w, step, s).last == s.last && Executed(w, step, s).ctx.chats == w.exec(step, s.ctx).chats
  {
  }

  lemma {:induction false} RunSyncAgree(w: Runtime, step: StepDef, a: RunState, b: RunState)
    requires Agree(a, b) && w.exec(step, a.ctx).outcome == w.exec(step, b.ctx).outcome
    ensures SameRun(RunSync(w, step, a), RunSync(w, step, b))
    ensures StepOutcome(w, step, a.ctx) == StepOutcome(w, step, b.ctx)
    ensures RunSync(w, step, a).s.ctx.chats == w.exec(step, a.ctx).chats
    ensures var outcome := StepOutcome(w, step, a.ctx);
            && RunSync(w, step, a).s.last == (if outcome.Ok? then outcome.value else a.last)
            && RunSync(w, step, b).s.last == (if outcome.Ok? then outcome.value else b.last)
  {
    ExecutedAgree(w, step, a, b);
    ExecutedKeeps(w, step, a);
    ExecutedKeeps(w, step, b);
  }

  lemma {:induction false} SymmetricAgree(a: RunState, b: RunState)
    requires Agree(a, b)
    ensures Agree(b, a)
  {
  }

  lemma {:induction false} StepAgrees(w: Runtime, steps: seq<StepDef>, a: RunState, b: RunState)
    requires steps != [] && Interchangeable(w, steps, a, b)
    ensures var x, y := OneStep(w, steps[0], a), OneStep(w, steps[0], b);
            && SameRun(x, y) && (a.ctx.chats == b.ctx.chats ==> x.s.ctx.chats == y.s.ctx.chats)
            && Produced(w, steps[0], a) == Produced(w, steps[0], b)
            && x.s.last == UnwrapOr(Produced(w, steps[0], a), a.last)
            && y.s.last == UnwrapOr(Produced(w, steps[0], b), b.last)
  {
    var step := steps[0];
    assert step in steps;
    if !IsAsync(step) {
      var names := Wanted(References(w, step), a.pending, []);
      AwaitAllAgree(a, b, names);
      var a1, b1 := AwaitAll(a, names).0, AwaitAll(b, names).0;
      if AwaitAll(a, names).1.None? {
        assert a1.ctx.chats == b1.ctx.chats ==> a1.ctx == b1.ctx;
        assert w.exec(step, a1.ctx).outcome == w.exec(step, b1.ctx).outcome;
        RunSyncAgree(w, step, a1, b1);
        SymmetricAgree(a1, b1);
        RunSyncAgree(w, step, b1, a1);
      }
    }
  }

  /** Interchangeable states: the same run, and the same outputs on the way. */
  lemma {:induction false} LoopsAgree(w: Runtime, steps: seq<StepDef>, a: RunState, b: RunState)
    requires Interchangeable(w, steps, a, b)
    ensures var x, y := Loop(w, steps, a), Loop(w, steps, b);
            && SameRun(x, y) && LastOk(w, steps, a) == LastOk(w, steps, b)
            && x.s.last == UnwrapOr(LastOk(w, steps, a), a.last)
            && y.s.last == UnwrapOr(LastOk(w, steps, b), b.last)
    decreases |steps|
  {
    if steps != [] {
      StepAgrees(w, steps, a, b);
      if OneStep(w, steps[0], a).ending.Completed? {
        LoopsAgree(w, steps[1..], OneStep(w, steps[0], a).s, OneStep(w, steps[0], b).s);
      }
    }
  }

  // ---------- the traces that steps leave ----------

  /** Names of the outputs and typed values that a context holds in its own maps. */
  function OutputNames(s: RunState): set<string>
    requires s.ctx.frames != []
  {
    s.ctx.frames[0].steps.Keys
  }

  function TypedNames(s: RunState): set<string>
    requires s.ctx.frames != []
  {
    s.ctx.frames[0].parsed.Keys
  }

  /** A name that has an output or a pending handle. */
  predicate Held(s: RunState, name: string)
    requires s.ctx.frames != []
  {
    name in OutputNames(s) || name in s.pending
  }

  /** A name that a run still shows at its end, be it as the task that stopped it. */
  predicate Traced(r: RunEnd, name: string)
    requires r.s.ctx.frames != []
  {
    Held(r.s, name) || Culprit(r.ending) == Some(name)
  }

  predicate NotNamed(steps: seq<StepDef>, name: string) {
    forall k :: 0 <= k < |steps| ==> steps[k].name != name
  }

  lemma {:induction false} AwaitAllTraces(s: RunState, names: seq<string>)
    requires s.ctx.frames != []
    ensures var (r, failed) := AwaitAll(s, names);
            && r.saved == s.saved && TypedNames(r) == TypedNames(s)
            && forall n :: Held(s, n) <==> Held(r, n) || failed == Some(n)
    decreases |names|
  {
    if names != [] {
      if names[0] in s.pending {
        var next := Awaited(s, names[0], "async");
        assert next.pending.Keys == s.pending.Keys - {names[0]};
        if Succeeds(s.pending[names[0]]) {
          assert OutputNames(next) == OutputNames(s) + {names[0]};
          AwaitAllTraces(next, names[1..]);
        }
      } else {
        AwaitAllTraces(s, names[1..]);
      }
    }
  }

  lemma {:induction false} ExecutedTraces(w: Runtime, step: StepDef, s: RunState)
    requires s.ctx.frames != []
    ensures var r := Executed(w, step, s);
            var outcome := StepOutcome(w, step, s.ctx);
            && r.pending == s.pending && r.saved == s.saved
            && OutputNames(r) == OutputNames(s) + (if outcome.Ok? then {step.name} else {})
            && TypedNames(r) == TypedNames(s) + (if outcome.Ok? && step.outputType.Some? then {step.name} else {})
  {
    var ctx := s.ctx.(chats := w.exec(step, s.ctx).chats);
    if StepOutcome(w, step, s.ctx).Ok? {
      var stored := Stored(ctx, step.name, StepOutcome(w, step, s.ctx).value);
      assert stored.frames[0].steps.Keys == OutputNames(s) + {step.name} &&
             stored.frames[0].parsed.Keys == TypedNames(s);
    }
  }

  lemma {:induction false} RunSyncTraces(w: Runtime, step: StepDef, s: RunState)
    requires s.ctx.frames != []
    ensures var r := RunSync(w, step, s);
            var outcome := StepOutcome(w, step, s.ctx);
            && r.s.pending == s.pending && Culprit(r.ending).None?
            && OutputNames(r.s) == OutputNames(s) + (if r.ending.Completed? then {step.name} else {})
            && TypedNames(r.s) == TypedNames(s) + (if outcome.Ok? && step.outputType.Some? then {step.name} else {})
            && r.s.saved == if outcome.Ok? then s.saved[step.name := outcome.value] else s.saved
  {
    ExecutedTraces(w, step, s);
    var s' := Executed(w, step, s);
    assert Stored(s'.ctx, step.name, Empty).frames[0].steps.Keys == OutputNames(s') + {step.name};
    assert Stored(s'.ctx, step.name, Empty).frames[0].parsed.Keys == TypedNames(s');
  }

  /** One iteration adds traces of its own step only, and loses none of the others. */
  lemma {:induction false} StepTraces(w: Runtime, step: StepDef, s: RunState)
    requires s.ctx.frames != []
    ensures var r := OneStep(w, step, s);
            var produced := Produced(w, step, s);
            && (forall n :: n != step.name ==> (Traced(r, n) <==> Held(s, n)))
            && (forall n :: n != step.name ==> (n in TypedNames(r.s) <==> n in TypedNames(s)))
            && r.s.saved == (if produced.Some? then s.saved[step.name := produced.value] else s.saved)
            && (r.ending.Completed? ==> Held(r.s, step.name))
            && (produced.Some? && step.outputType.Some? ==> step.name in TypedNames(r.s))
  {
    if !IsAsync(step) {
      var names := Wanted(References(w, step), s.pending, []);
      AwaitAllTraces(s, names);
      var s1 := AwaitAll(s, names).0;
      if AwaitAll(s, names).1.None? {
        RunSyncTraces(w, step, s1);
      }
    }
  }

  /** A name that no step of the list bears is traced after the loop exactly when it was before. */
  lemma {:induction false} LoopTraces(w: Runtime, steps: seq<StepDef>, s: RunState, name: string)
    requires s.ctx.frames != [] && NotNamed(steps, name)
    ensures var r := Loop(w, steps, s);
            && (Traced(r, name) <==> Held(s, name))
            && (name in TypedNames(r.s) <==> name in TypedNames(s))
            && Lookup(r.s.saved, name) == Lookup(s.saved, name)
    decreases |steps|
  {
    if steps != [] {
      StepTraces(w, steps[0], s);
      var one := OneStep(w, steps[0], s);
      if one.ending.Completed? {
        assert forall k :: 0 <= k < |steps[1..]| ==> steps[1..][k].name != name;
        LoopTraces(w, steps[1..], one.s, name);
      }
    }
  }

  lemma {:induction false} RestoredTraces(steps: seq<StepDef>, loaded: map<string, StepOutput>, s: RunState,
      name: string)
    requires s.ctx.frames != []
    ensures var r := RestoredAll(steps, loaded, s);
            && TypedNames(r) == TypedNames(s) && r.saved == s.saved && r.pending == s.pending && r.last == s.last
            && r.ctx.chats == s.ctx.chats
            && (name !in loaded && name !in OutputNames(s) ==> name !in OutputNames(r))
    decreases |steps|
  {
    if steps != [] {
      RestoredTraces(steps[1..], loaded, Restored(steps[0], loaded, s), name);
    }
  }

  // ---------- what restoring rebuilds ----------

  /** Every step is synchronous, completes Ok and declares no output type. */
  ghost predicate Restorable(w: Runtime, steps: seq<StepDef>, s: RunState)
    requires s.ctx.frames != []
    decreases |steps|
  {
    steps != [] ==>
      && Produced(w, steps[0], s).Some? && steps[0].outputType.None?
      && Restorable(w, steps[1..], OneStep(w, steps[0], s).s)
  }

  /** No step of the list has left an output, typed value or saved entry yet. */
  ghost predicate NoTrace(steps: seq<StepDef>, s: RunState)
    requires s.ctx.frames != []
  {
    forall k :: 0 <= k < |steps| ==>
      steps[k].name !in OutputNames(s) && steps[k].name !in TypedNames(s) && steps[k].name !in s.saved
  }

  /** `loaded` holds exactly the saved outputs of these steps (it may hold those of later steps too). */
  ghost predicate StateOf(steps: seq<StepDef>, saved: map<string, StepOutput>, loaded: map<string, StepOutput>) {
    forall k :: 0 <= k < |steps| ==> Lookup(loaded, steps[k].name) == Lookup(saved, steps[k].name)
  }

  /**
   * A finished prefix `p` of a run from `s`, in front of the resume point, and the outputs saved for it. Nothing is
   * asked of the steps of `p`: they may be asynchronous, be skipped, declare types or talk to a chat.
   */
  ghost predicate Interrupted(w: Runtime, p: seq<StepDef>, loaded: map<string, StepOutput>, s: RunState) {
    && s.ctx.frames != [] && s.pending == map[] && UniqueNames(p) && NoTrace(p, s)
    && Loop(w, p, s).ending.Completed? && StateOf(p, Loop(w, p, s).s.saved, loaded)
  }

  lemma {:induction false} NothingWanted(refs: seq<string>)
    ensures Wanted(refs, map[], []) == []
  {
    if refs != [] {
      NothingWanted(refs[1..]);
    }
  }

  /** Restoring the output of such a step does what running it did, except to the chat store. */
  lemma {:induction false} RestoreOne(w: Runtime, step: StepDef, loaded: map<string, StepOutput>, s: RunState,
      r: RunState)
    requires Agree(s, r) && s.pending == map[] && Produced(w, step, s).Some? && step.outputType.None?
    requires Lookup(loaded, step.name) == Produced(w, step, s)
    ensures Agree(OneStep(w, step, s).s, Restored(step, loaded, r)) && OneStep(w, step, s).s.pending == map[]
    ensures OneStep(w, step, s).ending.Completed?
  {
    NothingWanted(References(w, step));
    var ctx := s.ctx.(chats := w.exec(step, s.ctx).chats);
    SameStored(ctx, r.ctx, step.name, Produced(w, step, s).value);
  }

  lemma {:induction false} RestorableAgrees(w: Runtime, p: seq<StepDef>, loaded: map<string, StepOutput>,
      s: RunState, r: RunState)
    requires Agree(s, r) && s.pending == map[] && UniqueNames(p) && Restorable(w, p, s)
    requires StateOf(p, Loop(w, p, s).s.saved, loaded)
    ensures Agree(Loop(w, p, s).s, RestoredAll(p, loaded, r))
    decreases |p|
  {
    if p != [] {
      var step, rest := p[0], p[1..];
      StepTraces(w, step, s);
      var s1 := OneStep(w, step, s).s;
      assert forall k :: 0 <= k < |rest| ==> rest[k].name == p[k + 1].name != step.name;
      assert OneStep(w, step, s).ending.Completed? by {
        NothingWanted(References(w, step));
      }
      LoopTraces(w, rest, s1, step.name);
      assert Lookup(loaded, step.name) == Lookup(s1.saved, step.name) == Produced(w, step, s);
      RestoreOne(w, step, loaded, s, r);
      RestorableAgrees(w, rest, loaded, s1, Restored(step, loaded, r));
    }
  }

  /** A step that is not restorable leaves a typed value, or an output or handle that no saved entry accounts for. */
  lemma {:induction false} MarkLeft(w: Runtime, p: seq<StepDef>, s: RunState) returns (k: nat)
    requires s.ctx.frames != [] && UniqueNames(p) && NoSaved(p, s)
    requires Loop(w, p, s).ending.Completed? && !Restorable(w, p, s)
    ensures k < |p|
    ensures var mid := Loop(w, p, s).s;
            p[k].name in TypedNames(mid) || (p[k].name !in mid.saved && Held(mid, p[k].name))
    decreases |p|
  {
    var step, rest := p[0], p[1..];
    var s1 := OneStep(w, step, s).s;
    StepTraces(w, step, s);
    assert forall k :: 0 <= k < |rest| ==> rest[k].name == p[k + 1].name != step.name;
    LoopTraces(w, rest, s1, step.name);
    if Produced(w, step, s).Some? && step.outputType.None? {
      k := MarkLeft(w, rest, s1);
      k := k + 1;
    } else {
      k := 0;
      assert step.name !in s.saved;
      assert Culprit(Loop(w, rest, s1).ending).None?;
    }
  }

  ghost predicate NoSaved(steps: seq<StepDef>, s: RunState) {
    forall k :: 0 <= k < |steps| ==> steps[k].name !in s.saved
  }

  /** The mark is missing after restoring. */
  lemma {:induction false} MarkMissing(w: Runtime, p: seq<StepDef>, loaded: map<string, StepOutput>, s: RunState)
    returns (name: string)
    requires Interrupted(w, p, loaded, s) && !Restorable(w, p, s)
    ensures exists k :: 0 <= k < |p| && p[k].name == name
    ensures var mid, r := Loop(w, p, s).s, RestoredAll(p, loaded, s);
            (name in TypedNames(mid) && name !in TypedNames(r)) || (Held(mid, name) && !Held(r, name))
  {
    var k := MarkLeft(w, p, s);
    name := p[k].name;
    RestoredTraces(p, loaded, s, name);
    assert Lookup(loaded, name) == Lookup(Loop(w, p, s).s.saved, name);
  }

  /**
   * Restoring the saved outputs of a finished prefix rebuilds the state of the uninterrupted run, up to chats, exactly
   * when every prefix step was synchronous, completed Ok and declared no output type; and all of it exactly when the
   * prefix also left the chat store as it was.
   */
  lemma {:induction false} RestoreIff(w: Runtime, p: seq<StepDef>, loaded: map<string, StepOutput>, s: RunState)
    requires Interrupted(w, p, loaded, s)
    ensures var mid, r := Loop(w, p, s).s, RestoredAll(p, loaded, s);
            && (Agree(mid, r) <==> Restorable(w, p, s))
            && (mid.ctx == r.ctx && mid.pending == r.pending <==> Restorable(w, p, s) && mid.ctx.chats == s.ctx.chats)
  {
    RestoredTraces(p, loaded, s, "");
    if Restorable(w, p, s) {
      RestorableAgrees(w, p, loaded, s, s);
    } else {
      var name := MarkMissing(w, p, loaded, s);
    }
  }

  // ---------- whole runs ----------

  lemma {:induction false} LoopAppend(w: Runtime, p: seq<StepDef>, q: seq<StepDef>, s: RunState)
    requires s.ctx.frames != [] && Loop(w, p, s).ending.Completed?
    ensures Loop(w, p + q, s) == Loop(w, q, Loop(w, p, s).s)
    decreases |p|
  {
    if p == [] {
      assert p + q == q;
    } else {
      assert (p + q)[1..] == p[1..] + q;
      LoopAppend(w, p[1..], q, OneStep(w, p[0], s).s);
    }
  }

  lemma {:induction false} SkippedIs(p: seq<StepDef>, q: seq<StepDef>)
    requires q != [] && NotNamed(p, q[0].name)
    ensures Skipped(p + q, Some(q[0].name)) == |p|
    decreases |p|
  {
    if p == [] {
      assert p + q == q;
    } else {
      assert (p + q)[1..] == p[1..] + q;
      assert forall k :: 0 <= k < |p[1..]| ==> p[1..][k].name == p[k + 1].name;
      SkippedIs(p[1..], q);
    }
  }

  /** The uninterrupted run of `p + q`, and the one resumed at the first step of `q`. */
  function Whole(w: Runtime, p: seq<StepDef>, q: seq<StepDef>, s: RunState): (r: RunEnd)
    requires s.ctx.frames != []
    ensures r.s.ctx.frames != []
  {
    Loop(w, p + q, s)
  }

  function Resumed(w: Runtime, p: seq<StepDef>, q: seq<StepDef>, loaded: map<string, StepOutput>,
      s: RunState): (r: RunEnd)
    requires s.ctx.frames != [] && q != []
    ensures r.s.ctx.frames != []
  {
    LoopFrom(w, p + q, Some(q[0].name), loaded, s)
  }

  lemma {:induction false} ResumedIs(w: Runtime, p: seq<StepDef>, q: seq<StepDef>,
      loaded: map<string, StepOutput>, s: RunState)
    requires s.ctx.frames != [] && q != [] && UniqueNames(p + q)
    ensures Resumed(w, p, q, loaded, s) == Loop(w, q, RestoredAll(p, loaded, s))
    ensures forall k :: 0 <= k < |p| ==> NotNamed(q, p[k].name)
  {
    assert forall k :: 0 <= k < |p| ==> p[k] == (p + q)[k];
    assert forall k :: 0 <= k < |q| ==> q[k] == (p + q)[|p| + k];
    SkippedIs(p, q);
    LoopFromIs(w, p + q, Some(q[0].name), loaded, s);
    assert (p + q)[|p|..] == q && (p + q)[..|p|] == p;
  }

  /** Both runs of the steps `p + q`, as runs of `q` from the state after `p` and from the restored one. */
  lemma {:induction false} BothRuns(w: Runtime, p: seq<StepDef>, q: seq<StepDef>,
      loaded: map<string, StepOutput>, s: RunState)
    requires Interrupted(w, p, loaded, s) && q != [] && UniqueNames(p + q)
    ensures Whole(w, p, q, s) == Loop(w, q, Loop(w, p, s).s)
    ensures Resumed(w, p, q, loaded, s) == Loop(w, q, RestoredAll(p, loaded, s))
    ensures forall k :: 0 <= k < |p| ==> NotNamed(q, p[k].name)
  {
    LoopAppend(w, p, q, s);
    ResumedIs(w, p, q, loaded, s);
  }

  /** The prefix ran without changing the chat store. */
  predicate ChatsKept(w: Runtime, p: seq<StepDef>, s: RunState)
    requires s.ctx.frames != []
  {
    Loop(w, p, s).s.ctx.chats == s.ctx.chats
  }

  /** A prefix that is not restorable shows in every continuation. */
  lemma {:induction false} UnrestorableShows(w: Runtime, p: seq<StepDef>, q: seq<StepDef>,
      loaded: map<string, StepOutput>, s: RunState)
    requires Interrupted(w, p, loaded, s) && q != [] && UniqueNames(p + q) && !Restorable(w, p, s)
    ensures !SameRun(Whole(w, p, q, s), Resumed(w, p, q, loaded, s))
  {
    BothRuns(w, p, q, loaded, s);
    var name := MarkMissing(w, p, loaded, s);
    LoopTraces(w, q, Loop(w, p, s).s, name);
    LoopTraces(w, q, RestoredAll(p, loaded, s), name);
  }

  /**
   * A resumed run ends like the uninterrupted one, with the same outputs, typed values, session id and pending handles,
   * only if the prefix is restorable; and exactly then, when the prefix left the chat store as it was or the remaining
   * steps do not look at chats. The final output is then the same exactly when some remaining step produces one, or the
   * last output before already was the empty one that a run starts with.
   */
  lemma {:induction false} ResumeEqualsRun(w: Runtime, p: seq<StepDef>, q: seq<StepDef>,
      loaded: map<string, StepOutput>, s: RunState)
    requires Interrupted(w, p, loaded, s) && q != [] && UniqueNames(p + q)
    ensures SameRun(Whole(w, p, q, s), Resumed(w, p, q, loaded, s)) ==> Restorable(w, p, s)
    ensures ChatsKept(w, p, s) || ChatFree(w, q) ==>
              && (SameRun(Whole(w, p, q, s), Resumed(w, p, q, loaded, s)) <==> Restorable(w, p, s))
              && (Restorable(w, p, s) ==>
                    var mid := Loop(w, p, s).s;
                    Whole(w, p, q, s).s.last == Resumed(w, p, q, loaded, s).s.last <==>
                      LastOk(w, q, mid).Some? || mid.last == s.last)
  {
    BothRuns(w, p, q, loaded, s);
    RestoreIff(w, p, loaded, s);
    RestoredTraces(p, loaded, s, "");
    if !Restorable(w, p, s) {
      UnrestorableShows(w, p, q, loaded, s);
    } else if ChatsKept(w, p, s) || ChatFree(w, q) {
      LoopsAgree(w, q, Loop(w, p, s).s, RestoredAll(p, loaded, s));
    }
  }

  /**
   * The state that a resumed run saves holds no output of the steps it skipped, so a second resume cannot restore
   * them.
   */
  lemma {:induction false} ResumedStateForgets(w: Runtime, p: seq<StepDef>, q: seq<StepDef>,
      loaded: map<string, StepOutput>, s: RunState)
    requires s.ctx.frames != [] && s.saved == map[] && q != [] && UniqueNames(p + q)
    ensures forall k :: 0 <= k < |p| ==> p[k].name !in Resumed(w, p, q, loaded, s).s.saved
  {
    ResumedIs(w, p, q, loaded, s);
    forall k | 0 <= k < |p| ensures p[k].name !in Resumed(w, p, q, loaded, s).s.saved {
      RestoredTraces(p, loaded, s, p[k].name);
      LoopTraces(w, q, RestoredAll(p, loaded, s), p[k].name);
    }
  }

  // ---------- the exact condition, over all continuations ----------

  /** Remaining steps `q` and a runtime for them that treats the prefix like `w` does. */
  ghost predicate Continues(w: Runtime, p: seq<StepDef>, w': Runtime, q: seq<StepDef>) {
    && q != [] && UniqueNames(p + q)
    && w'.parse == w.parse && w'.spawn == w.spawn && w'.references == w.references
    && forall step, ctx :: step in p ==> w'.exec(step, ctx) == w.exec(step, ctx)
  }

  lemma {:induction false} SamePrefix(w: Runtime, w': Runtime, p: seq<StepDef>, s: RunState)
    requires s.ctx.frames != []
    requires w'.parse == w.parse && w'.spawn == w.spawn && w'.references == w.references
    requires forall step, ctx :: step in p ==> w'.exec(step, ctx) == w.exec(step, ctx)
    ensures Loop(w', p, s) == Loop(w, p, s) && (Restorable(w', p, s) <==> Restorable(w, p, s))
    decreases |p|
  {
    if p != [] {
      SameStep(w, w', p[0], s);
      SamePrefix(w, w', p[1..], OneStep(w, p[0], s).s);
    }
  }

  lemma {:induction false} SameStep(w: Runtime, w': Runtime, step: StepDef, s: RunState)
    requires s.ctx.frames != []
    requires w'.parse == w.parse && w'.spawn == w.spawn && w'.references == w.references
    requires forall ctx :: w'.exec(step, ctx) == w.exec(step, ctx)
    ensures OneStep(w', step, s) == OneStep(w, step, s) && Produced(w', step, s) == Produced(w, step, s)
  {
    assert References(w', step) == References(w, step);
    SameSync(w, w', step, AwaitAll(s, Wanted(References(w, step), s.pending, [])).0);
  }

  lemma {:induction false} SameSync(w: Runtime, w': Runtime, step: StepDef, s: RunState)
    requires s.ctx.frames != [] && w'.parse == w.parse && w'.exec(step, s.ctx) == w.exec(step, s.ctx)
    ensures RunSync(w', step, s) == RunSync(w, step, s) && StepOutcome(w', step, s.ctx) == StepOutcome(w, step, s.ctx)
  {
    assert Executed(w', step, s) == Executed(w, step, s);
  }

  /** A plain step of a kind. */
  function Plain(name: string, stepType: StepType): StepDef {
    StepDef(name, stepType, None, None, None, None, None, None, None, None, None, None, None, NoSubsteps, map[], None,
            None, None, map[])
  }

  /** A name that is longer than those of all listed steps. */
  function NewName(steps: seq<StepDef>): string {
    if steps == [] then "p" else NewName(steps[..|steps| - 1]) + Last(steps).name
  }

  lemma {:induction false} NewNameIsLonger(steps: seq<StepDef>)
    ensures |NewName(steps)| >= 1 && forall k :: 0 <= k < |steps| ==> |steps[k].name| < |NewName(steps)|
    decreases |steps|
  {
    if steps != [] {
      NewNameIsLonger(steps[..|steps| - 1]);
      assert forall k :: 0 <= k < |steps| - 1 ==> steps[..|steps| - 1][k] == steps[k];
    }
  }

  /** Like `w`, except for what one step does. */
  function Overriding(w: Runtime, probe: StepDef, run: CtxView -> LeafRun): Runtime {
    w.(exec := (step: StepDef, ctx: CtxView) => if step == probe then run(ctx) else w.exec(step, ctx))
  }

  /** Tells whether it sees a certain chat store. */
  function Probe(chats: ChatMap): CtxView -> LeafRun {
    (ctx: CtxView) => LeafRun(Ok(ChatOut(if ctx.chats == chats then "same" else "other")), ctx.chats)
  }

  function Skipping(): CtxView -> LeafRun {
    (ctx: CtxView) => LeafRun(Err(Flow(Skip(""))), ctx.chats)
  }

  /** A run of a single plain step. */
  lemma {:induction false} RunsAlone(w: Runtime, name: string, stepType: StepType, run: CtxView -> LeafRun, a: RunState)
    requires a.ctx.frames != []
    ensures var step := Plain(name, stepType);
            var w' := Overriding(w, step, run);
            && Loop(w', [step], a) == OneStep(w', step, a) == RunSync(w', step, a)
            && StepOutcome(w', step, a.ctx) == run(a.ctx).outcome
            && LastOk(w', [step], a) == Produced(w', step, a)
            && Produced(w', step, a) == (if run(a.ctx).outcome.Ok? then Some(run(a.ctx).outcome.value) else None)
  {
    var step := Plain(name, stepType);
    assert References(Overriding(w, step, run), step) == [];
    assert [step][1..] == [];
  }

  lemma {:induction false} ProbeShows(w: Runtime, name: string, chats: ChatMap, a: RunState)
    requires a.ctx.frames != []
    ensures var r := Loop(Overriding(w, Plain(name, Chat), Probe(chats)), [Plain(name, Chat)], a);
            Lookup(r.s.ctx.frames[0].steps, name) == Some(ChatOut(if a.ctx.chats == chats then "same" else "other"))
  {
    RunsAlone(w, name, Chat, Probe(chats), a);
  }

  lemma {:induction false} OverridingContinues(w: Runtime, p: seq<StepDef>, stepType: StepType, run: CtxView -> LeafRun)
    requires UniqueNames(p)
    ensures var probe := Plain(NewName(p), stepType);
            Continues(w, p, Overriding(w, probe, run), [probe]) && probe !in p
  {
    NewNameIsLonger(p);
    var probe := Plain(NewName(p), stepType);
    assert forall k :: 0 <= k < |p| ==> (p + [probe])[k] == p[k];
  }

  /** The last output before the resume point; a resumed run starts with that of `s` instead. */
  function LastBefore(w: Runtime, p: seq<StepDef>, s: RunState): StepOutput
    requires s.ctx.frames != []
  {
    Loop(w, p, s).s.last
  }

  /** Whole and resumed run return the same final output. */
  predicate SameAnswer(w: Runtime, p: seq<StepDef>, q: seq<StepDef>, loaded: map<string, StepOutput>, s: RunState)
    requires s.ctx.frames != [] && q != []
  {
    Whole(w, p, q, s).s.last == Resumed(w, p, q, loaded, s).s.last
  }

  /**
   * Both runs end alike: the same ending, outputs, typed values, session id and pending handles. The final output is
   * the same too, exactly when a remaining step produces one or the last output before was the one a run starts with.
   */
  ghost predicate EndAlike(w: Runtime, p: seq<StepDef>, q: seq<StepDef>, loaded: map<string, StepOutput>, s: RunState)
    requires s.ctx.frames != [] && q != []
  {
    && SameRun(Whole(w, p, q, s), Resumed(w, p, q, loaded, s))
    && (SameAnswer(w, p, q, loaded, s) <==>
          LastOk(w, q, Loop(w, p, s).s).Some? || LastBefore(w, p, s) == s.last)
  }

  /**
   * The exact condition: whatever steps follow and however they behave, a resumed run ends like the uninterrupted one,
   * if and only if every prefix step was synchronous, completed Ok and declared no output type, and the prefix left the
   * chat store as it was. Even then the final output may differ, when no remaining step produces one.
   */
  lemma {:induction false} ResumeExactly(w: Runtime, p: seq<StepDef>, loaded: map<string, StepOutput>, s: RunState)
    requires Interrupted(w, p, loaded, s)
    ensures (forall w', q :: Continues(w, p, w', q) ==> EndAlike(w', p, q, loaded, s))
            <==> Restorable(w, p, s) && ChatsKept(w, p, s)
  {
    if Restorable(w, p, s) && ChatsKept(w, p, s) {
      forall w', q | Continues(w, p, w', q) ensures EndAlike(w', p, q, loaded, s) {
        SamePrefix(w, w', p, s);
        ResumeEqualsRun(w', p, q, loaded, s);
      }
    } else {
      ProbeTells(w, p, loaded, s);
    }
  }

  lemma {:induction false} ProbeTells(w: Runtime, p: seq<StepDef>, loaded: map<string, StepOutput>, s: RunState)
    requires Interrupted(w, p, loaded, s) && !(Restorable(w, p, s) && ChatsKept(w, p, s))
    ensures exists w', q :: Continues(w, p, w', q) && !SameRun(Whole(w', p, q, s), Resumed(w', p, q, loaded, s))
  {
    var chats, name := Loop(w, p, s).s.ctx.chats, NewName(p);
    var w', q := Overriding(w, Plain(name, Chat), Probe(chats)), [Plain(name, Chat)];
    OverridingContinues(w, p, Chat, Probe(chats));
    SamePrefix(w, w', p, s);
    BothRuns(w', p, q, loaded, s);
    RestoredTraces(p, loaded, s, "");
    if Restorable(w, p, s) {
      ProbeShows(w, name, chats, Loop(w, p, s).s);
      ProbeShows(w, name, chats, RestoredAll(p, loaded, s));
    } else {
      UnrestorableShows(w', p, q, loaded, s);
    }
    assert Continues(w, p, w', q) && !SameRun(Whole(w', p, q, s), Resumed(w', p, q, loaded, s));
  }

  /**
   * The final output is the same as well, whatever follows, if and only if in addition the last output before the
   * resume point was the one a run starts with.
   */
  lemma {:induction false} AnswerExactly(w: Runtime, p: seq<StepDef>, loaded: map<string, StepOutput>, s: RunState)
    requires Interrupted(w, p, loaded, s)
    ensures (forall w', q :: Continues(w, p, w', q) ==>
               EndAlike(w', p, q, loaded, s) && SameAnswer(w', p, q, loaded, s))
            <==> Restorable(w, p, s) && ChatsKept(w, p, s) && LastBefore(w, p, s) == s.last
  {
    ResumeExactly(w, p, loaded, s);
    if Restorable(w, p, s) && ChatsKept(w, p, s) {
      if LastBefore(w, p, s) == s.last {
        forall w', q | Continues(w, p, w', q) ensures SameAnswer(w', p, q, loaded, s) {
          SamePrefix(w, w', p, s);
          ResumeEqualsRun(w', p, q, loaded, s);
        }
      } else {
        SkipTells(w, p, loaded, s);
      }
    }
  }

  lemma {:induction false} SkipTells(w: Runtime, p: seq<StepDef>, loaded: map<string, StepOutput>, s: RunState)
    requires Interrupted(w, p, loaded, s) && Restorable(w, p, s) && ChatsKept(w, p, s)
    requires LastBefore(w, p, s) != s.last
    ensures exists w', q :: Continues(w, p, w', q) && !SameAnswer(w', p, q, loaded, s)
  {
    SkipDiffers(w, p, loaded, s);
    var probe := Plain(NewName(p), Gate);
    assert Continues(w, p, Overriding(w, probe, Skipping()), [probe]);
  }

  /** A gate that skips leaves the final output as it was before. */
  lemma {:induction false} SkipDiffers(w: Runtime, p: seq<StepDef>, loaded: map<string, StepOutput>, s: RunState)
    requires Interrupted(w, p, loaded, s) && Restorable(w, p, s) && ChatsKept(w, p, s)
    requires LastBefore(w, p, s) != s.last
    ensures var probe := Plain(NewName(p), Gate);
            var w' := Overriding(w, probe, Skipping());
            Continues(w, p, w', [probe]) && !SameAnswer(w', p, [probe], loaded, s)
  {
    var name := NewName(p);
    var w', q := Overriding(w, Plain(name, Gate), Skipping()), [Plain(name, Gate)];
    OverridingContinues(w, p, Gate, Skipping());
    SamePrefix(w, w', p, s);
    ResumeEqualsRun(w', p, q, loaded, s);
    RunsAlone(w, name, Gate, Skipping(), Loop(w, p, s).s);
  }
}
