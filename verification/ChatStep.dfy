/** The chat executor and what it does to the chat store (src/steps/chat.rs). */
module ChatStep {
  import opened Prelude
  import opened Schema
  import opened ContextStore
  import opened Truncation

  // ---------- the rules of the chat store ----------

  /** The `session` entry of a step's resolved config, if there is one. */
  type Sessions = StepDef -> Option<string>

  /** A chat step with a session. */
  predicate Talks(sessions: Sessions, step: StepDef) {
    step.stepType.Chat? && sessions(step).Some?
  }

  function Exchange(prompt: string, reply: string): seq<ChatMessage> {
    [ChatMessage("user", prompt), ChatMessage("assistant", reply)]
  }

  /** An Ok chat step with a session adds one exchange to it; nothing else changes the chat store. */
  ghost predicate Writes(sessions: Sessions, step: StepDef, before: ChatMap, run: LeafRun) {
    if Talks(sessions, step) && run.outcome.Ok? then
      exists prompt, reply :: run.chats == Appended(before, sessions(step).value, Exchange(prompt, reply))
    else run.chats == before
  }

  /** The same history of the session that the step talks to, if it talks. */
  predicate Hears(sessions: Sessions, step: StepDef, a: ChatMap, b: ChatMap) {
    Talks(sessions, step) ==> MessagesOf(a, sessions(step).value) == MessagesOf(b, sessions(step).value)
  }

  // ---------- the executor ----------

  /**
   * The parts that are not modelled: `sessions` and `strategy` read the step's resolved config, `ready` is the lookup
   * of the API key, `render` renders a template, `provider` answers a prompt behind some messages, and `estimate` is
   * the token heuristic.
   */
  datatype Chatting = Chatting(
    sessions: Sessions,
    strategy: StepDef -> Strategy,
    ready: StepDef -> Result<(), StepError>,
    render: (string, Visible) -> Result<string, StepError>,
    provider: (StepDef, seq<ChatMessage>, string) -> Outcome,
    estimate: string -> nat)

  const MISSING_PROMPT: StepError := Fail("chat step missing 'prompt' field")

  /** The messages sent along with a prompt: the shortened history of the session, or none without a session. */
  function Sent(c: Chatting, step: StepDef, chats: ChatMap): seq<ChatMessage> {
    var session := c.sessions(step);
    if session.Some? then Shortened(MessagesOf(chats, session.value), c.strategy(step), c.estimate) else []
  }

  /** What a chat step does: an answer is added to its session together with the prompt; a failure leaves no trace. */
  function ChatRun(c: Chatting, step: StepDef, ctx: CtxView): LeafRun {
    if c.ready(step).Err? then LeafRun(Err(c.ready(step).error), ctx.chats)
    else if step.prompt.None? then LeafRun(Err(MISSING_PROMPT), ctx.chats)
    else
      match c.render(step.prompt.value, Seen(ctx))
      case Err(e) => LeafRun(Err(e), ctx.chats)
      case Ok(prompt) =>
        match c.provider(step, Sent(c, step, ctx.chats), prompt)
        case Err(e) => LeafRun(Err(e), ctx.chats)
        case Ok(output) =>
          var session := c.sessions(step);
          LeafRun(Ok(output),
                  if session.None? then ctx.chats
                  else Appended(ctx.chats, session.value, Exchange(prompt, OutputText(output))))
  }

  /** The chat executor: reads and shortens the history, asks the provider, and appends the exchange. */
  method ChatExecute(c: Chatting, step: StepDef, ctx: Context) returns (outcome: Outcome)
    requires ctx.Valid()
    modifies ctx.chats
    ensures ctx.Valid()
    ensures var run := ChatRun(c, step, old(ctx.View()));
            outcome == run.outcome && ctx.View() == old(ctx.View()).(chats := run.chats)
  {
    var ready := c.ready(step);
    if ready.Err? {
      return Err(ready.error);
    }
    if step.prompt.None? {
      return Err(MISSING_PROMPT);
    }
    var rendered := c.render(step.prompt.value, Seen(ctx.View()));
    if rendered.Err? {
      return Err(rendered.error);
    }
    var prompt := rendered.value;
    var session := c.sessions(step);
    var messages: seq<ChatMessage> := [];
    if session.Some? {
      var history := MessagesOf(ctx.chats.messages, session.value);
      messages := TruncateMessages(history, c.strategy(step), c.estimate);
      TruncatedUnique(history, c.strategy(step), c.estimate, messages,
        Shortened(history, c.strategy(step), c.estimate));
    }
    outcome := c.provider(step, messages, prompt);
    if outcome.Ok? && session.Some? {
      ctx.chats.Append(session.value, Exchange(prompt, OutputText(outcome.value)));
    }
  }

  /** A prompt that was sent: its history, shortened as the step demands, comes along, and an answer is kept. */
  ghost predicate Converses(c: Chatting, step: StepDef, chats: ChatMap, prompt: string, run: LeafRun) {
    match c.sessions(step)
    case None => run == LeafRun(c.provider(step, [], prompt), chats)
    case Some(session) =>
      exists history, sent ::
        && history == (if session in chats then chats[session] else [])
        && Truncated(history, c.strategy(step), c.estimate, sent)
        && run.outcome == c.provider(step, sent, prompt) && run.chats == Kept(chats, session, history, prompt, run)
  }

  /** The store afterwards: an answer puts the prompt and itself behind the history. */
  function Kept(chats: ChatMap, session: string, history: seq<ChatMessage>, prompt: string, run: LeafRun): ChatMap {
    match run.outcome
    case Err(_) => chats
    case Ok(answer) =>
      chats[session := history + [ChatMessage("user", prompt), ChatMessage("assistant", OutputText(answer))]]
  }

  /** A chat step fails without its key, its prompt or a prompt that renders; otherwise it converses. */
  lemma {:induction false} ChatRunIs(c: Chatting, step: StepDef, ctx: CtxView)
    ensures var run := ChatRun(c, step, ctx);
            match (c.ready(step), step.prompt)
            case (Err(e), _) => run == LeafRun(Err(e), ctx.chats)
            case (_, None) => run == LeafRun(Err(Fail("chat step missing 'prompt' field")), ctx.chats)
            case (Ok(_), Some(template)) =>
              match c.render(template, Visible(ctx.frames, ctx.session))
              case Err(e) => run == LeafRun(Err(e), ctx.chats)
              case Ok(prompt) => Converses(c, step, ctx.chats, prompt, run)
  {
    var session := c.sessions(step);
    if session.Some? {
      var history := MessagesOf(ctx.chats, session.value);
      assert Truncated(history, c.strategy(step), c.estimate, Sent(c, step, ctx.chats));
    }
  }

  /** The executors of all leaf steps: those of other kinds do not use the chat store. */
  function Leaves(c: Chatting, other: (StepDef, Visible) -> Outcome): (StepDef, CtxView) -> LeafRun {
    (step: StepDef, ctx: CtxView) =>
      if step.stepType.Chat? then ChatRun(c, step, ctx) else LeafRun(other(step, Seen(ctx)), ctx.chats)
  }

  /** A leaf adds one exchange to its session exactly when it is an Ok chat step with a session. */
  lemma {:induction false} LeavesWrite(c: Chatting, other: (StepDef, Visible) -> Outcome, step: StepDef, ctx: CtxView)
    ensures Writes(c.sessions, step, ctx.chats, Leaves(c, other)(step, ctx))
  {
    var run := ChatRun(c, step, ctx);
    if Talks(c.sessions, step) && run.outcome.Ok? {
      var prompt := c.render(step.prompt.value, Seen(ctx)).value;
      assert run.chats == Appended(ctx.chats, c.sessions(step).value, Exchange(prompt, OutputText(run.outcome.value)));
    }
  }

  lemma {:induction false} ChatHears(c: Chatting, step: StepDef, a: CtxView, b: CtxView)
    requires step.stepType.Chat? && SameButChats(a, b) && Hears(c.sessions, step, a.chats, b.chats)
    ensures ChatRun(c, step, a).outcome == ChatRun(c, step, b).outcome
  {
    assert Sent(c, step, a.chats) == Sent(c, step, b.chats);
  }

  /** Its outcome depends on no other part of the chat store than the history of its session. */
  lemma {:induction false} LeavesHear(c: Chatting, other: (StepDef, Visible) -> Outcome, step: StepDef, a: CtxView,
      b: CtxView)
    requires SameButChats(a, b) && Hears(c.sessions, step, a.chats, b.chats)
    ensures Leaves(c, other)(step, a).outcome == Leaves(c, other)(step, b).outcome
  {
    if step.stepType.Chat? {
      assert Leaves(c, other)(step, a) == ChatRun(c, step, a) && Leaves(c, other)(step, b) == ChatRun(c, step, b);
      ChatHears(c, step, a, b);
    }
  }
}
