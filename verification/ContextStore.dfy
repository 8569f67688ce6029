/** The tree-structured step context (src/engine/context.rs, src/claude/session.rs). */
module ContextStore {
  import opened Prelude
  import opened Schema

  datatype ParsedValue =
    | ParsedText(text: string)
    | ParsedJson(value: Json)
    | ParsedInteger(n: int)
    | ParsedLines(lines: seq<string>)
    | ParsedBoolean(b: bool)

  datatype ChatMessage = ChatMessage(role: string, content: string)

  datatype StackInfo = StackInfo(name: string, parentChain: seq<string>, tools: map<string, string>)

  type ChatMap = map<string, seq<ChatMessage>>

  /** One level of the context tree. */
  datatype Frame = Frame(
    steps: map<string, StepOutput>,
    parsed: map<string, ParsedValue>,
    variables: map<string, Json>,
    scopeValue: Option<Json>,
    scopeIndex: nat,
    stackInfo: Option<StackInfo>,
    promptsDir: string)

  /** The value of a context: its frames from the innermost outwards, and the state all frames share. */
  datatype CtxView = CtxView(frames: seq<Frame>, session: Option<string>, chats: ChatMap)

  /** What templates and all executors but the chat executor see of a context. */
  datatype Visible = Visible(frames: seq<Frame>, session: Option<string>)

  function Seen(ctx: CtxView): Visible {
    Visible(ctx.frames, ctx.session)
  }

  /** Equal step outputs, typed values, variables and session id; the chat history may differ. */
  predicate SameButChats(a: CtxView, b: CtxView) {
    Seen(a) == Seen(b)
  }

  /** What one executor call does: its outcome and the chat store it leaves behind. */
  datatype LeafRun = LeafRun(outcome: Outcome, chats: ChatMap)

  // ---------- lookups along the parent chain ----------

  function GetStep(frames: seq<Frame>, name: string): Option<StepOutput> {
    if frames == [] then None else OrElse(Lookup(frames[0].steps, name), GetStep(frames[1..], name))
  }

  function GetVar(frames: seq<Frame>, name: string): Option<Json> {
    if frames == [] then None else OrElse(Lookup(frames[0].variables, name), GetVar(frames[1..], name))
  }

  function GetParsed(frames: seq<Frame>, name: string): Option<ParsedValue> {
    if frames == [] then None else OrElse(Lookup(frames[0].parsed, name), GetParsed(frames[1..], name))
  }

  function GetStackInfo(frames: seq<Frame>): Option<StackInfo> {
    if frames == [] then None else OrElse(frames[0].stackInfo, GetStackInfo(frames[1..]))
  }

  /** All variables, outer frames first so that inner frames override. */
  function AllVariables(frames: seq<Frame>): map<string, Json> {
    if frames == [] then map[] else AllVariables(frames[1..]) + frames[0].variables
  }

  /** The flattened map answers exactly like the nearest-first lookup. */
  lemma {:induction false} AllVariablesIsNearestFirst(frames: seq<Frame>, name: string)
    ensures Lookup(AllVariables(frames), name) == GetVar(frames, name)
  {
    if frames != [] {
      AllVariablesIsNearestFirst(frames[1..], name);
    }
  }

  /** Value of a step for `from("name")`: nearest step, and independently nearest parsed value. */
  function GetFromValue<V>(frames: seq<Frame>, name: string,
      render: (StepOutput, Option<ParsedValue>) -> V): Option<V> {
    var step := GetStep(frames, name);
    if step.None? then None else Some(render(step.value, GetParsed(frames, name)))
  }

  /** The `steps` map handed to templates: outer frames first, each step with the parsed value of its own frame. */
  function StepsMap<V>(frames: seq<Frame>, render: (StepOutput, Option<ParsedValue>) -> V): map<string, V> {
    if frames == [] then map[]
    else
      StepsMap(frames[1..], render) +
      (map n | n in frames[0].steps :: render(frames[0].steps[n], Lookup(frames[0].parsed, n)))
  }

  /** Parsed value stored beside the nearest step of that name. */
  function OwnParsed(frames: seq<Frame>, name: string): Option<ParsedValue> {
    if frames == [] then None
    else if name in frames[0].steps then Lookup(frames[0].parsed, name)
    else OwnParsed(frames[1..], name)
  }

  lemma {:induction false} StepsMapAt<V>(frames: seq<Frame>, name: string,
      render: (StepOutput, Option<ParsedValue>) -> V)
    ensures Lookup(StepsMap(frames, render), name) ==
            if GetStep(frames, name).None? then None
            else Some(render(GetStep(frames, name).value, OwnParsed(frames, name)))
  {
    if frames != [] {
      StepsMapAt(frames[1..], name, render);
    }
  }

  /**
   * `from("x")` and `steps.x` show the same value, whatever the rendering, exactly when the two parsed-value
   * lookups agree for an existing step. They differ when an inner step without a parsed value shadows an outer
   * one that has one.
   */
  lemma FromAgreesWithSteps(frames: seq<Frame>, name: string)
    ensures (forall render: (StepOutput, Option<ParsedValue>) -> (StepOutput, Option<ParsedValue>) ::
               GetFromValue(frames, name, render) == Lookup(StepsMap(frames, render), name))
            <==> (GetStep(frames, name).Some? ==> GetParsed(frames, name) == OwnParsed(frames, name))
  {
    forall render: (StepOutput, Option<ParsedValue>) -> (StepOutput, Option<ParsedValue>) {
      StepsMapAt(frames, name, render);
    }
    var pair := (o: StepOutput, p: Option<ParsedValue>) => (o, p);
    StepsMapAt(frames, name, pair);
    assert GetFromValue(frames, name, pair) == Lookup(StepsMap(frames, pair), name) ==>
        (GetStep(frames, name).Some? ==> GetParsed(frames, name) == OwnParsed(frames, name));
  }

  function Bare(): Frame {
    Frame(map[], map[], map[], None, 0, None, "prompts")
  }

  /** An inner `a` without parsed value over an outer `a` parsed as 7: the two accessors disagree. */
  lemma FromDiffersFromSteps()
    ensures var inner := Bare().(steps := map["a" := CmdOut("x", "", 0)]);
            var outer := Bare().(steps := map["a" := CmdOut("7", "", 0)], parsed := map["a" := ParsedInteger(7)]);
            var pair := (o: StepOutput, p: Option<ParsedValue>) => (o, p);
            GetFromValue([inner, outer], "a", pair) != Lookup(StepsMap([inner, outer], pair), "a")
  {
    var inner := Bare().(steps := map["a" := CmdOut("x", "", 0)]);
    var outer := Bare().(steps := map["a" := CmdOut("7", "", 0)], parsed := map["a" := ParsedInteger(7)]);
    var pair := (o: StepOutput, p: Option<ParsedValue>) => (o, p);
    assert [inner, outer][1..] == [outer];
    StepsMapAt([inner, outer], "a", pair);
    assert GetParsed([inner, outer], "a") == Some(ParsedInteger(7));
  }

  /** In a context without parent, as the program builds them all, the two accessors show the same value. */
  lemma {:induction false} RootsAgree<V>(frame: Frame, name: string, render: (StepOutput, Option<ParsedValue>) -> V)
    ensures GetFromValue([frame], name, render) == Lookup(StepsMap([frame], render), name)
  {
    assert [frame][1..] == [] && GetStep([], name).None? && GetParsed([], name).None?;
    StepsMapAt([frame], name, render);
  }

  // ---------- what a context holds itself ----------

  /** The output that a context holds for a name in its own map. */
  function Out(ctx: CtxView, name: string): Option<StepOutput>
    requires ctx.frames != []
  {
    Lookup(ctx.frames[0].steps, name)
  }

  function Typed(ctx: CtxView, name: string): Option<ParsedValue>
    requires ctx.frames != []
  {
    Lookup(ctx.frames[0].parsed, name)
  }

  /** Two contexts that differ at most in outputs and typed values, in the session id and in the chat store. */
  ghost predicate SameSetting(a: CtxView, b: CtxView)
    requires b.frames != []
  {
    a.frames != [] && a.frames[1..] == b.frames[1..]
    && a.frames[0].(steps := map[], parsed := map[]) == b.frames[0].(steps := map[], parsed := map[])
  }

  // ---------- updates on values ----------

  /** First-wins capture of a session id. */
  function Captured(session: Option<string>, id: Option<string>): Option<string> {
    OrElse(session, id)
  }

  function AfterStore(session: Option<string>, output: StepOutput): Option<string> {
    if output.AgentOut? then Captured(session, output.sessionId) else session
  }

  /** A context after storing a step output. */
  function Stored(view: CtxView, name: string, output: StepOutput): CtxView
    requires view.frames != []
  {
    view.(frames := view.frames[0 := view.frames[0].(steps := view.frames[0].steps[name := output])],
          session := AfterStore(view.session, output))
  }

  function StoredParsed(view: CtxView, name: string, value: ParsedValue): CtxView
    requires view.frames != []
  {
    view.(frames := view.frames[0 := view.frames[0].(parsed := view.frames[0].parsed[name := value])])
  }

  /** The messages of one chat session. */
  function MessagesOf(chats: ChatMap, session: string): seq<ChatMessage> {
    UnwrapOr(Lookup(chats, session), [])
  }

  /** A chat store after messages were added to one session. */
  function Appended(chats: ChatMap, session: string, added: seq<ChatMessage>): ChatMap {
    chats[session := MessagesOf(chats, session) + added]
  }

  /** A fresh root context. */
  function RootView(target: string, vars: map<string, Json>): CtxView {
    CtxView([Frame(map[], map[], vars["target" := JString(target)], None, 0, None, "prompts")], None, map[])
  }

  /** The `target` variable as text, empty when absent or not a string. */
  function TargetOf(frames: seq<Frame>): string {
    var v := GetVar(frames, "target");
    if v.Some? && v.value.JString? then v.value.s else ""
  }

  // ---------- the mutable context ----------

  class SessionManager {
    var id: Option<string>

    constructor ()
      ensures id == None
    {
      id := None;
    }

    method Capture(session: Option<string>)
      modifies this
      ensures id == Captured(old(id), session)
    {
      if id.None? {
        id := session;
      }
    }
  }

  class ChatSessions {
    var messages: ChatMap

    constructor ()
      ensures messages == map[]
    {
      messages := map[];
    }

    method Append(session: string, added: seq<ChatMessage>)
      modifies this
      ensures messages == Appended(old(messages), session, added)
    {
      var history := if session in messages then messages[session] else [];
      messages := messages[session := history + added];
    }
  }

  /** A context. A child shares its parent's session manager and chat store, and nothing else is shared. */
  class Context {
    var steps: map<string, StepOutput>
    var parsed: map<string, ParsedValue>
    var variables: map<string, Json>
    const parent: Context?
    var scopeValue: Option<Json>
    var scopeIndex: nat
    const session: SessionManager
    const chats: ChatSessions
    var stackInfo: Option<StackInfo>
    var promptsDir: string

    /** This context and its ancestors. */
    ghost const Chain: set<Context>

    ghost predicate Valid()
      reads Chain
      decreases Chain
    {
      && this in Chain
      && (parent != null ==>
            && parent in Chain && parent.Chain <= Chain && this !in parent.Chain
            && parent.session == session && parent.chats == chats
            && parent.Valid())
    }

    function Top(): Frame
      reads this
    {
      Frame(steps, parsed, variables, scopeValue, scopeIndex, stackInfo, promptsDir)
    }

    function Frames(): (f: seq<Frame>)
      requires Valid()
      reads Chain
      ensures f != [] && f[0] == Top()
      decreases Chain
    {
      [Top()] + (if parent == null then [] else parent.Frames())
    }

    function View(): (v: CtxView)
      requires Valid()
      reads Chain, session, chats
      ensures v.frames != []
    {
      CtxView(Frames(), session.id, chats.messages)
    }

    constructor (target: string, vars: map<string, Json>)
      ensures Valid() && Chain == {this} && fresh(session) && fresh(chats) && parent == null
      ensures View() == RootView(target, vars)
    {
      steps, parsed := map[], map[];
      variables := vars["target" := JString(target)];
      parent := null;
      scopeValue, scopeIndex := None, 0;
      session := new SessionManager();
      chats := new ChatSessions();
      stackInfo, promptsDir := None, "prompts";
      Chain := {this};
    }

    /** A child context: empty maps, inherited stack info and prompts directory, shared session and chats. */
    constructor Child(parent: Context, scopeValue: Option<Json>, index: nat)
      requires parent.Valid()
      ensures Valid() && Chain == {this} + parent.Chain && this.parent == parent
      ensures session == parent.session && chats == parent.chats
      ensures Frames() == [Frame(map[], map[], map[], scopeValue, index, parent.stackInfo, parent.promptsDir)] +
              parent.Frames()
    {
      steps, parsed, variables := map[], map[], map[];
      this.parent := parent;
      this.scopeValue, this.scopeIndex := scopeValue, index;
      session, chats := parent.session, parent.chats;
      stackInfo, promptsDir := parent.stackInfo, parent.promptsDir;
      Chain := {this} + parent.Chain;
    }

    /** Stores an output; an agent output offers its session id to the shared manager first. */
    method Store(name: string, output: StepOutput)
      requires Valid()
      modifies this, session
      ensures Valid() && View() == Stored(old(View()), name, output)
      ensures parent != null ==> parent.Valid() && parent.Frames() == old(parent.Frames())
    {
      if output.AgentOut? {
        session.Capture(output.sessionId);
      }
      steps := steps[name := output];
      assert parent != null ==> parent.Valid() && parent.Frames() == old(parent.Frames());
      assert Frames() == old(Frames())[0 := old(Top()).(steps := steps)];
    }

    method StoreParsed(name: string, value: ParsedValue)
      requires Valid()
      modifies this
      ensures Valid() && View() == StoredParsed(old(View()), name, value)
    {
      parsed := parsed[name := value];
    }
  }
}
