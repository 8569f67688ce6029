/**
 * When a resume is faithful, as anyone can tell from the workflow and the state file (src/engine/mod.rs,
 * src/steps/chat.rs).
 */
module ResumeGuard {
  import opened Prelude
  import opened Schema
  import opened ContextStore
  import opened Validator
  import opened EngineRun
  import opened ChatStep
  import opened Resume

  // ---------- how executors use the chat store ----------

  /** The executors write as stated, and depend on no other part of the chat store than the history of their session. */
  ghost predicate ChatLaw(w: Runtime, sessions: Sessions) {
    && (forall step, ctx: CtxView :: Writes(sessions, step, ctx.chats, w.exec(step, ctx)))
    && (forall step, a, b :: SameButChats(a, b) && Hears(sessions, step, a.chats, b.chats) ==>
          w.exec(step, a).outcome == w.exec(step, b).outcome)
  }

  predicate Silent(sessions: Sessions, steps: seq<StepDef>) {
    forall k :: 0 <= k < |steps| ==> !Talks(sessions, steps[k])
  }

  /** Steps without a session do not look at chats. */
  lemma {:induction false} SilentIsChatFree(w: Runtime, sessions: Sessions, steps: seq<StepDef>)
    requires ChatLaw(w, sessions) && Silent(sessions, steps)
    ensures ChatFree(w, steps)
  {
  }

  /** No session has lost messages. */
  ghost predicate Grows(a: ChatMap, b: ChatMap) {
    forall session :: |MessagesOf(a, session)| <= |MessagesOf(b, session)|
  }

  lemma {:induction false} StepChats(w: Runtime, sessions: Sessions, step: StepDef, s: RunState)
    requires s.ctx.frames != [] && ChatLaw(w, sessions)
    ensures var chats := OneStep(w, step, s).s.ctx.chats;
            && Grows(s.ctx.chats, chats)
            && (!Talks(sessions, step) ==> chats == s.ctx.chats)
            && (Talks(sessions, step) && Produced(w, step, s).Some? ==>
                  |MessagesOf(s.ctx.chats, sessions(step).value)| < |MessagesOf(chats, sessions(step).value)|)
  {
    if !IsAsync(step) {
      var names := Wanted(References(w, step), s.pending, []);
      AwaitAllAgree(s, s, names);
      var s1 := AwaitAll(s, names).0;
      if AwaitAll(s, names).1.None? {
        RunSyncAgree(w, step, s1, s1);
        assert Writes(sessions, step, s1.ctx.chats, w.exec(step, s1.ctx));
      }
    }
  }

  lemma {:induction false} LoopChats(w: Runtime, sessions: Sessions, steps: seq<StepDef>, s: RunState)
    requires s.ctx.frames != [] && ChatLaw(w, sessions)
    ensures Grows(s.ctx.chats, Loop(w, steps, s).s.ctx.chats)
    ensures Silent(sessions, steps) ==> Loop(w, steps, s).s.ctx.chats == s.ctx.chats
    decreases |steps|
  {
    if steps != [] {
      StepChats(w, sessions, steps[0], s);
      LoopChats(w, sessions, steps[1..], OneStep(w, steps[0], s).s);
      assert Silent(sessions, steps) ==> Silent(sessions, steps[1..]);
    }
  }

  /** A session that a finished step of the list talked to has more messages at the end. */
  lemma {:induction false} TalkShows(w: Runtime, sessions: Sessions, steps: seq<StepDef>, s: RunState, k: nat)
    requires s.ctx.frames != [] && ChatLaw(w, sessions)
    requires Restorable(w, steps, s) && k < |steps| && Talks(sessions, steps[k])
    requires Loop(w, steps, s).ending.Completed?
    ensures var session := sessions(steps[k]).value;
            |MessagesOf(s.ctx.chats, session)| < |MessagesOf(Loop(w, steps, s).s.ctx.chats, session)|
    decreases |steps|
  {
    var one := OneStep(w, steps[0], s);
    StepChats(w, sessions, steps[0], s);
    LoopChats(w, sessions, steps[1..], one.s);
    if k > 0 {
      TalkShows(w, sessions, steps[1..], one.s, k - 1);
    }
  }

  // ---------- the guards ----------

  /** Each step has a saved output and declares no output type. */
  predicate SavedUntyped(p: seq<StepDef>, loaded: map<string, StepOutput>) {
    forall k :: 0 <= k < |p| ==> p[k].outputType.None? && p[k].name in loaded
  }

  lemma {:induction false} RestorableIfSaved(w: Runtime, p: seq<StepDef>, s: RunState)
    requires s.ctx.frames != [] && UniqueNames(p) && NoSaved(p, s) && Loop(w, p, s).ending.Completed?
    ensures Restorable(w, p, s) <==> SavedUntyped(p, Loop(w, p, s).s.saved)
    decreases |p|
  {
    if p != [] {
      var rest, s1 := p[1..], OneStep(w, p[0], s).s;
      var saved := Loop(w, p, s).s.saved;
      StepTraces(w, p[0], s);
      assert forall k :: 0 <= k < |rest| ==> rest[k].name == p[k + 1].name != p[0].name;
      LoopTraces(w, rest, s1, p[0].name);
      RestorableIfSaved(w, rest, s1);
      assert p[0].name in saved <==> Produced(w, p[0], s).Some?;
      SavedUntypedFirst(p, saved);
    }
  }

  lemma {:induction false} SavedUntypedFirst(p: seq<StepDef>, loaded: map<string, StepOutput>)
    requires p != []
    ensures SavedUntyped(p, loaded) <==> p[0].outputType.None? && p[0].name in loaded && SavedUntyped(p[1..], loaded)
  {
    assert forall k :: 1 <= k < |p| ==> p[k] == p[1..][k - 1];
  }

  /** The prefix is restorable exactly when the state file holds an output of each of its steps and none is typed. */
  lemma {:induction false} RestorableIffSaved(w: Runtime, p: seq<StepDef>, loaded: map<string, StepOutput>, s: RunState)
    requires Interrupted(w, p, loaded, s)
    ensures Restorable(w, p, s) <==> SavedUntyped(p, loaded)
  {
    RestorableIfSaved(w, p, s);
    var saved := Loop(w, p, s).s.saved;
    assert forall k :: 0 <= k < |p| ==> (p[k].name in loaded <==> p[k].name in saved);
  }

  /** Such a prefix has left the chat store as it was exactly when none of its steps is a chat step with a session. */
  lemma {:induction false} KeptIffSilent(w: Runtime, sessions: Sessions, p: seq<StepDef>, s: RunState)
    requires s.ctx.frames != [] && ChatLaw(w, sessions) && Restorable(w, p, s) && Loop(w, p, s).ending.Completed?
    ensures ChatsKept(w, p, s) <==> Silent(sessions, p)
  {
    LoopChats(w, sessions, p, s);
    if k :| 0 <= k < |p| && Talks(sessions, p[k]) {
      TalkShows(w, sessions, p, s, k);
    }
  }

  lemma {:induction false} LastIsSaved(w: Runtime, p: seq<StepDef>, s: RunState)
    requires s.ctx.frames != [] && UniqueNames(p) && Restorable(w, p, s) && p != []
    requires Loop(w, p, s).ending.Completed?
    ensures Lookup(Loop(w, p, s).s.saved, Last(p).name) == Some(LastBefore(w, p, s))
    decreases |p|
  {
    var step, rest, one := p[0], p[1..], OneStep(w, p[0], s);
    StepTraces(w, step, s);
    StepAgrees(w, p, s, s);
    assert forall k :: 0 <= k < |rest| ==> rest[k].name == p[k + 1].name != step.name;
    if rest != [] {
      LastIsSaved(w, rest, one.s);
    }
  }

  /** The last output before the resume point, as the state file tells it. */
  predicate EndsAsBegun(p: seq<StepDef>, loaded: map<string, StepOutput>, begun: StepOutput) {
    p != [] ==> Lookup(loaded, Last(p).name) == Some(begun)
  }

  /** What to check before a resume at the step behind `p`. */
  predicate Safe(sessions: Sessions, p: seq<StepDef>, loaded: map<string, StepOutput>) {
    SavedUntyped(p, loaded) && Silent(sessions, p)
  }

  lemma {:induction false} SafeIff(w: Runtime, sessions: Sessions, p: seq<StepDef>, loaded: map<string, StepOutput>,
      s: RunState)
    requires Interrupted(w, p, loaded, s) && ChatLaw(w, sessions)
    ensures Restorable(w, p, s) <==> SavedUntyped(p, loaded)
    ensures Restorable(w, p, s) && ChatsKept(w, p, s) <==> Safe(sessions, p, loaded)
    ensures Restorable(w, p, s) ==> (LastBefore(w, p, s) == s.last <==> EndsAsBegun(p, loaded, s.last))
  {
    RestorableIffSaved(w, p, loaded, s);
    if Restorable(w, p, s) {
      KeptIffSilent(w, sessions, p, s);
      if p != [] {
        LastIsSaved(w, p, s);
        assert p[|p| - 1] == Last(p);
      }
    }
  }

  /** For steps that are known: when only one side of the resume point talks, saved and untyped outputs decide. */
  lemma {:induction false} ResumeKnownSteps(w: Runtime, sessions: Sessions, p: seq<StepDef>, q: seq<StepDef>,
      loaded: map<string, StepOutput>, s: RunState)
    requires Interrupted(w, p, loaded, s) && q != [] && UniqueNames(p + q)
    requires ChatLaw(w, sessions) && (Silent(sessions, p) || Silent(sessions, q))
    ensures EndAlike(w, p, q, loaded, s) <==> SavedUntyped(p, loaded)
  {
    RestorableIffSaved(w, p, loaded, s);
    LoopChats(w, sessions, p, s);
    if Silent(sessions, q) {
      SilentIsChatFree(w, sessions, q);
    }
    ResumeEqualsRun(w, p, q, loaded, s);
  }

  // ---------- the exact condition ----------

  /** A continuation that uses the chat store as the executors do. */
  ghost predicate Lawful(w: Runtime, sessions: Sessions, p: seq<StepDef>, w': Runtime, sessions': Sessions,
      q: seq<StepDef>) {
    && Continues(w, p, w', q) && ChatLaw(w', sessions')
    && forall step :: step in p ==> sessions'(step) == sessions(step)
  }

  /**
   * Whatever steps follow a finished prefix and however they behave, as long as they keep to the chat law, a resumed
   * run ends like the uninterrupted one if and only if the state file holds an output of every prefix step, none of
   * them declares an output type, and none is a chat step with a session.
   */
  lemma {:induction false} ResumeIffSafe(w: Runtime, sessions: Sessions, p: seq<StepDef>,
      loaded: map<string, StepOutput>, s: RunState)
    requires Interrupted(w, p, loaded, s) && ChatLaw(w, sessions)
    ensures (forall w', sessions', q :: Lawful(w, sessions, p, w', sessions', q) ==> EndAlike(w', p, q, loaded, s))
            <==> Safe(sessions, p, loaded)
  {
    SafeIff(w, sessions, p, loaded, s);
    ResumeExactly(w, p, loaded, s);
    if !SavedUntyped(p, loaded) {
      GateTells(w, sessions, p, loaded, s);
    } else if !Silent(sessions, p) {
      ListenerTells(w, sessions, p, loaded, s);
    }
  }

  lemma {:induction false} GateTells(w: Runtime, sessions: Sessions, p: seq<StepDef>,
      loaded: map<string, StepOutput>, s: RunState)
    requires Interrupted(w, p, loaded, s) && ChatLaw(w, sessions) && !Restorable(w, p, s)
    ensures exists w', sessions', q ::
              Lawful(w, sessions, p, w', sessions', q) && !SameRun(Whole(w', p, q, s), Resumed(w', p, q, loaded, s))
  {
    var probe := Plain(NewName(p), Gate);
    var w' := Overriding(w, probe, Skipping());
    LawfulSkip(w, sessions, p);
    SamePrefix(w, w', p, s);
    UnrestorableShows(w', p, [probe], loaded, s);
    assert Lawful(w, sessions, p, w', sessions, [probe]);
  }

  /**
   * The final output is the same too, whatever follows, if and only if in addition the output saved for the last prefix
   * step is the one that a run starts with, the empty one.
   */
  lemma {:induction false} AnswerIffSafe(w: Runtime, sessions: Sessions, p: seq<StepDef>,
      loaded: map<string, StepOutput>, s: RunState)
    requires Interrupted(w, p, loaded, s) && ChatLaw(w, sessions)
    ensures (forall w', sessions', q :: Lawful(w, sessions, p, w', sessions', q) ==>
               EndAlike(w', p, q, loaded, s) && SameAnswer(w', p, q, loaded, s))
            <==> Safe(sessions, p, loaded) && EndsAsBegun(p, loaded, s.last)
  {
    SafeIff(w, sessions, p, loaded, s);
    ResumeIffSafe(w, sessions, p, loaded, s);
    if Safe(sessions, p, loaded) {
      AnswerExactly(w, p, loaded, s);
      if LastBefore(w, p, s) != s.last {
        LawfulSkip(w, sessions, p);
        SkipDiffers(w, p, loaded, s);
      }
    }
  }

  /** A gate that skips keeps to the law. */
  lemma {:induction false} LawfulSkip(w: Runtime, sessions: Sessions, p: seq<StepDef>)
    requires UniqueNames(p) && ChatLaw(w, sessions)
    ensures var probe := Plain(NewName(p), Gate);
            Lawful(w, sessions, p, Overriding(w, probe, Skipping()), sessions, [probe])
  {
    OverridingContinues(w, p, Gate, Skipping());
  }

  /** A chat step on one session that tells whether it hears a certain number of messages. */
  function Listener(session: string, count: nat): CtxView -> LeafRun {
    (ctx: CtxView) =>
      LeafRun(Ok(ChatOut(if |MessagesOf(ctx.chats, session)| == count then "same" else "other")),
              Appended(ctx.chats, session, Exchange("", "")))
  }

  function WithSession(sessions: Sessions, probe: StepDef, session: string): Sessions {
    (step: StepDef) => if step == probe then Some(session) else sessions(step)
  }

  lemma {:induction false} LawfulListener(w: Runtime, sessions: Sessions, p: seq<StepDef>, session: string, count: nat)
    requires UniqueNames(p) && ChatLaw(w, sessions)
    ensures var probe := Plain(NewName(p), Chat);
            Lawful(w, sessions, p, Overriding(w, probe, Listener(session, count)),
              WithSession(sessions, probe, session), [probe])
  {
    var probe := Plain(NewName(p), Chat);
    OverridingContinues(w, p, Chat, Listener(session, count));
    var w', sessions' := Overriding(w, probe, Listener(session, count)), WithSession(sessions, probe, session);
    forall step, ctx: CtxView ensures Writes(sessions', step, ctx.chats, w'.exec(step, ctx)) {
      assert Writes(sessions, step, ctx.chats, w.exec(step, ctx));
    }
    forall step, a, b | SameButChats(a, b) && Hears(sessions', step, a.chats, b.chats)
      ensures w'.exec(step, a).outcome == w'.exec(step, b).outcome
    {
      assert step != probe ==> Hears(sessions, step, a.chats, b.chats);
    }
  }

  /** Behind a prefix that talked, a chat step on the same session tells the runs apart. */
  lemma {:induction false} ListenerTells(w: Runtime, sessions: Sessions, p: seq<StepDef>,
      loaded: map<string, StepOutput>, s: RunState)
    requires Interrupted(w, p, loaded, s) && ChatLaw(w, sessions) && Restorable(w, p, s) && !Silent(sessions, p)
    ensures exists w', sessions', q ::
              Lawful(w, sessions, p, w', sessions', q) && !SameRun(Whole(w', p, q, s), Resumed(w', p, q, loaded, s))
  {
    var k :| 0 <= k < |p| && Talks(sessions, p[k]);
    var session := sessions(p[k]).value;
    TalkShows(w, sessions, p, s, k);
    var count := |MessagesOf(s.ctx.chats, session)|;
    var probe := Plain(NewName(p), Chat);
    LawfulListener(w, sessions, p, session, count);
    ListenerDiffers(w, p, loaded, s, session);
    assert Lawful(w, sessions, p, Overriding(w, probe, Listener(session, count)),
           WithSession(sessions, probe, session), [probe]);
  }

  lemma {:induction false} ListenerDiffers(w: Runtime, p: seq<StepDef>, loaded: map<string, StepOutput>, s: RunState,
      session: string)
    requires Interrupted(w, p, loaded, s)
    requires |MessagesOf(s.ctx.chats, session)| < |MessagesOf(Loop(w, p, s).s.ctx.chats, session)|
    ensures var probe := Plain(NewName(p), Chat);
            var w' := Overriding(w, probe, Listener(session, |MessagesOf(s.ctx.chats, session)|));
            !SameRun(Whole(w', p, [probe], s), Resumed(w', p, [probe], loaded, s))
  {
    var count, name := |MessagesOf(s.ctx.chats, session)|, NewName(p);
    var w' := Overriding(w, Plain(name, Chat), Listener(session, count));
    OverridingContinues(w, p, Chat, Listener(session, count));
    SamePrefix(w, w', p, s);
    BothRuns(w', p, [Plain(name, Chat)], loaded, s);
    RestoredTraces(p, loaded, s, "");
    ListenerSays(w, name, session, count, Loop(w, p, s).s);
    ListenerSays(w, name, session, count, RestoredAll(p, loaded, s));
  }

  lemma {:induction false} ListenerSays(w: Runtime, name: string, session: string, count: nat, a: RunState)
    requires a.ctx.frames != []
    ensures var probe := Plain(name, Chat);
            var r := Loop(Overriding(w, probe, Listener(session, count)), [probe], a);
            Lookup(r.s.ctx.frames[0].steps, name) ==
              Some(ChatOut(if |MessagesOf(a.ctx.chats, session)| == count then "same" else "other"))
  {
    RunsAlone(w, name, Chat, Listener(session, count), a);
  }
}
