/** Inputs on which a resumed run differs from the uninterrupted one (src/engine/mod.rs, src/steps/chat.rs). */
module ResumeExamples {
  import opened Prelude
  import opened Schema
  import opened ContextStore
  import opened Validator
  import opened EngineRun
  import opened ChatStep
  import opened Resume
  import opened ResumeGuard

  /** Every chat step talks to one session. */
  function OneSession(): Sessions {
    (step: StepDef) => if step.stepType.Chat? then Some("s") else None
  }

  /** Chat steps tell whether anything was said in their session before, gates skip, and other steps print `done`. */
  function Talking(): Runtime {
    Runtime(
      (step: StepDef, ctx: CtxView) =>
        if step.stepType.Chat? then
          LeafRun(Ok(ChatOut(if MessagesOf(ctx.chats, "s") == [] then "first" else "again")),
                  Appended(ctx.chats, "s", Exchange("hi", "hi")))
        else if step.stepType.Gate? then LeafRun(Err(Flow(Skip(""))), ctx.chats)
        else LeafRun(Ok(CmdOut("done", "", 0)), ctx.chats),
      (text: string, outputType: OutputType) => Err(Other("")),
      (step: StepDef, target: string) => Finishes(Ok(CmdOut("later", "", 0))),
      (text: string) => [])
  }

  lemma {:induction false} TalkingIsLawful()
    ensures ChatLaw(Talking(), OneSession())
  {
    forall step, a: CtxView ensures Writes(OneSession(), step, a.chats, Talking().exec(step, a)) {
      if step.stepType.Chat? {
        assert Talking().exec(step, a).chats == Appended(a.chats, "s", Exchange("hi", "hi"));
      }
    }
  }

  function Fresh(): (s: RunState)
    ensures s.ctx.frames != []
  {
    RunState(RootView("", map[]), [], map[], Empty, map[], map[], [])
  }

  lemma {:induction false} Single(w: Runtime, step: StepDef, loaded: map<string, StepOutput>, s: RunState)
    requires s.ctx.frames != []
    ensures Loop(w, [step], s) == OneStep(w, step, s) && RestoredAll([step], loaded, s) == Restored(step, loaded, s)
  {
    assert [step][1..] == [];
  }

  /** Both runs of two steps. */
  lemma {:induction false} TwoSteps(w: Runtime, a: StepDef, b: StepDef, loaded: map<string, StepOutput>, s: RunState)
    requires Interrupted(w, [a], loaded, s) && a.name != b.name
    ensures UniqueNames([a] + [b])
    ensures Whole(w, [a], [b], s) == OneStep(w, b, OneStep(w, a, s).s)
    ensures Resumed(w, [a], [b], loaded, s) == OneStep(w, b, Restored(a, loaded, s))
  {
    Single(w, a, loaded, s);
    BothRuns(w, [a], [b], loaded, s);
    Single(w, b, loaded, OneStep(w, a, s).s);
    Single(w, b, loaded, Restored(a, loaded, s));
  }

  lemma {:induction false} PlainRunsAtOnce(name: string, stepType: StepType, s: RunState)
    requires s.ctx.frames != []
    ensures var w, step := Talking(), Plain(name, stepType);
            && OneStep(w, step, s) == RunSync(w, step, s)
            && Produced(w, step, s) == if stepType.Gate? then None else Some(w.exec(step, s.ctx).outcome.value)
  {
    assert References(Talking(), Plain(name, stepType)) == [];
  }

  /** A first step named `a` in a fresh run, and what is saved for it. */
  lemma {:induction false} FirstStep(stepType: StepType)
    requires !stepType.Gate?
    ensures var w, a, s := Talking(), Plain("a", stepType), Fresh();
            var loaded := Loop(w, [a], s).s.saved;
            && Interrupted(w, [a], loaded, s) && Restorable(w, [a], s)
            && loaded == map["a" := w.exec(a, s.ctx).outcome.value]
            && OneStep(w, a, s).s.last == w.exec(a, s.ctx).outcome.value
            && OneStep(w, a, s).s.ctx.chats == w.exec(a, s.ctx).chats
  {
    var w, a, s := Talking(), Plain("a", stepType), Fresh();
    PlainRunsAtOnce("a", stepType, s);
    Single(w, a, map[], s);
    assert [a][1..] == [];
  }

  /**
   * Two chat steps on one session: the first is saved and untyped, yet the resumed run talks as if nothing had been
   * said.
   */
  lemma {:induction false} ChatHistoryIsLost()
    ensures var w, p, q, s := Talking(), [Plain("a", Chat)], [Plain("b", Chat)], Fresh();
            var loaded := Loop(w, p, s).s.saved;
            && ChatLaw(w, OneSession()) && Interrupted(w, p, loaded, s) && UniqueNames(p + q) && SavedUntyped(p, loaded)
            && Whole(w, p, q, s).s.last == ChatOut("again") && Resumed(w, p, q, loaded, s).s.last == ChatOut("first")
  {
    var w, a, b, s := Talking(), Plain("a", Chat), Plain("b", Chat), Fresh();
    var loaded := Loop(w, [a], s).s.saved;
    TalkingIsLawful();
    FirstStep(Chat);
    TwoSteps(w, a, b, loaded, s);
    PlainRunsAtOnce("b", Chat, OneStep(w, a, s).s);
    PlainRunsAtOnce("b", Chat, Restored(a, loaded, s));
  }

  /** A command and a skipped gate: the run returns the command's output, the one resumed at the gate returns none. */
  lemma {:induction false} LastOutputIsLost()
    ensures var w, p, q, s := Talking(), [Plain("a", Cmd)], [Plain("b", Gate)], Fresh();
            var loaded := Loop(w, p, s).s.saved;
            && ChatLaw(w, OneSession()) && Interrupted(w, p, loaded, s) &&
               UniqueNames(p + q) && Safe(OneSession(), p, loaded)
            && Whole(w, p, q, s).s.last == CmdOut("done", "", 0) && Resumed(w, p, q, loaded, s).s.last == Empty
  {
    var w, a, b, s := Talking(), Plain("a", Cmd), Plain("b", Gate), Fresh();
    var loaded := Loop(w, [a], s).s.saved;
    TalkingIsLawful();
    FirstStep(Cmd);
    TwoSteps(w, a, b, loaded, s);
    Single(w, a, loaded, s);
    PlainRunsAtOnce("b", Gate, OneStep(w, a, s).s);
    PlainRunsAtOnce("b", Gate, Restored(a, loaded, s));
  }

  /** A step that is spawned first, and what is saved for it. */
  lemma {:induction false} FirstIsSpawned(a: StepDef)
    requires IsAsync(a) && a.name == "a"
    ensures var w, s := Talking(), Fresh();
            var loaded := Loop(w, [a], s).s.saved;
            && Interrupted(w, [a], loaded, s) && "a" in OneStep(w, a, s).s.pending && Restored(a, loaded, s) == s
  {
    Single(Talking(), a, map[], Fresh());
  }

  /** A plain command leaves handles of other steps alone and adds none. */
  lemma {:induction false} CommandKeepsHandle(s: RunState)
    requires s.ctx.frames != []
    ensures OneStep(Talking(), Plain("b", Cmd), s).s.pending == s.pending
    ensures !Held(s, "a") ==> !Held(OneStep(Talking(), Plain("b", Cmd), s).s, "a")
  {
    PlainRunsAtOnce("b", Cmd, s);
    StepTraces(Talking(), Plain("b", Cmd), s);
  }

  /** An asynchronous step before the resume point: nothing is saved for it, so its handle is gone after a resume. */
  lemma {:induction false} AsyncStepIsLost()
    ensures var w, p, q, s := Talking(), [Plain("a", Cmd).(asyncExec := Some(true))], [Plain("b", Cmd)], Fresh();
            var loaded := Loop(w, p, s).s.saved;
            && ChatLaw(w, OneSession()) && Interrupted(w, p, loaded, s) && UniqueNames(p + q) && Silent(OneSession(), p)
            && "a" in Whole(w, p, q, s).s.pending && !Held(Resumed(w, p, q, loaded, s).s, "a")
  {
    var w, a, b, s := Talking(), Plain("a", Cmd).(asyncExec := Some(true)), Plain("b", Cmd), Fresh();
    var loaded := Loop(w, [a], s).s.saved;
    TalkingIsLawful();
    FirstIsSpawned(a);
    TwoSteps(w, a, b, loaded, s);
    CommandKeepsHandle(OneStep(w, a, s).s);
    CommandKeepsHandle(s);
  }
}
