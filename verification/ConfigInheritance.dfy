/** Workflow-level chat and agent settings that steps inherit before translation (src/cli/harness_adapter.rs). */
module ConfigInheritance {
  import opened Prelude
  import opened Schema

  type Config = map<string, Json>

  const INHERITED_CHAT_KEYS := ["provider", "model", "api_key_env", "base_url", "temperature", "max_tokens", "timeout"]
  const PROVIDER_BOUND_CHAT_KEYS := ["model", "api_key_env", "base_url"]
  const INHERITED_AGENT_KEYS := ["model", "command"]

  /** The workflow-level settings, and how a number is read out of a text, if it holds one. */
  datatype Layer = Layer(chat: Config, agent: Config, number: string -> Option<Json>)

  /** Numeric chat settings that were written as texts become numbers again. */
  function CoerceNumericString(number: string -> Option<Json>, key: string, value: Json): Json {
    if (key == "temperature" || key == "max_tokens") && value.JString? then UnwrapOr(number(Trim(value.s)), value)
    else value
  }

  /** Does a chat step choose another provider than the layer (or than the default, when the layer has none)? */
  predicate ProviderDiffers(own: Config, chat: Config) {
    "provider" in own &&
    if "provider" in chat then own["provider"] != chat["provider"] else own["provider"] != JString("anthropic")
  }

  /** Chat keys that a step of another provider does not take over. */
  function Barred(step: StepDef, l: Layer): seq<string> {
    if ProviderDiffers(step.config, l.chat) then PROVIDER_BOUND_CHAT_KEYS else []
  }

  /** A config completed from a layer: the listed keys that are offered, not barred and not set yet. */
  function Completed(config: Config, keys: seq<string>, barred: seq<string>, layer: Config,
      adjust: (string, Json) -> Json): Config {
    config + map key | key in layer && key in keys && key !in barred && key !in config :: adjust(key, layer[key])
  }

  function Coerced(l: Layer): (string, Json) -> Json {
    (key: string, value: Json) => CoerceNumericString(l.number, key, value)
  }

  function AsIs(): (string, Json) -> Json {
    (key: string, value: Json) => value
  }

  function InheritedConfig(step: StepDef, l: Layer): Config {
    match step.stepType
    case Chat => Completed(step.config, INHERITED_CHAT_KEYS, Barred(step, l), l.chat, Coerced(l))
    case Agent => Completed(step.config, INHERITED_AGENT_KEYS, [], l.agent, AsIs())
    case _ => step.config
  }

  function InheritedBody(body: Substeps, l: Layer): Substeps
    decreases body, 1
  {
    match body
    case NoSubsteps => body
    case Substeps(steps) => Substeps(InheritedSteps(steps, l))
  }

  function Inherited(step: StepDef, l: Layer): StepDef
    decreases step, 0
  {
    step.(config := InheritedConfig(step, l), steps := InheritedBody(step.steps, l))
  }

  function InheritedSteps(steps: seq<StepDef>, l: Layer): (r: seq<StepDef>)
    ensures |r| == |steps|
    decreases steps, 0
  {
    if steps == [] then [] else [Inherited(steps[0], l)] + InheritedSteps(steps[1..], l)
  }

  function WithInheritedTypeConfig(def: WorkflowDef, number: string -> Option<Json>): WorkflowDef {
    var l := Layer(def.chatConfig, def.agentConfig, number);
    if l.chat == map[] && l.agent == map[] then def
    else
      def.(steps := InheritedSteps(def.steps, l),
           scopes := map n | n in def.scopes :: def.scopes[n].(steps := InheritedSteps(def.scopes[n].steps, l)))
  }

  // ---------- the pass over one step ----------

  /** Adds the keys of a list that are offered, not barred and not set yet. */
  method InsertMissing(config: Config, keys: seq<string>, barred: seq<string>, layer: Config,
      adjust: (string, Json) -> Json) returns (r: Config)
    ensures r == Completed(config, keys, barred, layer, adjust)
  {
    r := config;
    for i := 0 to |keys|
      invariant r == Completed(config, keys[..i], barred, layer, adjust)
    {
      var key := keys[i];
      assert keys[..i + 1] == keys[..i] + [key];
      CompletedMore(config, keys[..i], key, barred, layer, adjust);
      if key in barred {
        continue;
      }
      if key in layer && key !in r {
        r := r[key := adjust(key, layer[key])];
      }
    }
    assert keys[..|keys|] == keys;
  }

  lemma {:induction false} CompletedAt(config: Config, keys: seq<string>, barred: seq<string>, layer: Config,
      adjust: (string, Json) -> Json, key: string)
    ensures Lookup(Completed(config, keys, barred, layer, adjust), key) ==
            if key in config then Some(config[key])
            else if key in layer && key in keys && key !in barred then Some(adjust(key, layer[key]))
            else None
  {
  }

  lemma {:induction false} CompletedMore(config: Config, keys: seq<string>, key: string, barred: seq<string>,
      layer: Config,
      adjust: (string, Json) -> Json)
    ensures var before := Completed(config, keys, barred, layer, adjust);
            Completed(config, keys + [key], barred, layer, adjust) ==
              if key in layer && key !in barred && key !in before then before[key := adjust(key, layer[key])]
              else before
  {
    var before, after := Completed(config, keys, barred, layer, adjust),
                         Completed(config, keys + [key], barred, layer, adjust);
    forall k ensures k != key ==> Lookup(after, k) == Lookup(before, k) {
      CompletedAt(config, keys, barred, layer, adjust, k);
      CompletedAt(config, keys + [key], barred, layer, adjust, k);
    }
    CompletedAt(config, keys, barred, layer, adjust, key);
    CompletedAt(config, keys + [key], barred, layer, adjust, key);
    if key in layer && key !in barred && key !in before {
      SameBut(before, after, key, adjust(key, layer[key]));
    } else {
      SameLookups(before, after);
    }
  }

  lemma {:induction false} SameLookups(a: Config, b: Config)
    requires forall k :: Lookup(a, k) == Lookup(b, k)
    ensures a == b
  {
    assert forall k :: k in a <==> Lookup(a, k).Some?;
    assert forall k :: k in b <==> Lookup(b, k).Some?;
    assert forall k :: k in a ==> Lookup(a, k) == Some(a[k]);
    assert forall k :: k in b ==> Lookup(b, k) == Some(b[k]);
  }

  lemma {:induction false} SameBut(a: Config, b: Config, key: string, value: Json)
    requires Lookup(b, key) == Some(value) && forall k :: k != key ==> Lookup(b, k) == Lookup(a, k)
    ensures b == a[key := value]
  {
    SameLookups(b, a[key := value]);
  }

  method InheritConfig(step: StepDef, l: Layer) returns (config: Config)
    ensures config == InheritedConfig(step, l)
  {
    config := step.config;
    match step.stepType {
      case Chat =>
        config := InsertMissing(step.config, INHERITED_CHAT_KEYS, Barred(step, l), l.chat, Coerced(l));
      case Agent =>
        config := InsertMissing(step.config, INHERITED_AGENT_KEYS, [], l.agent, AsIs());
      case _ =>
    }
  }

  method InheritStepConfig(step: StepDef, l: Layer) returns (r: StepDef)
    ensures r == Inherited(step, l)
    decreases step, 0
  {
    var children := NoSubsteps;
    match step.steps {
      case NoSubsteps =>
      case Substeps(body) =>
        var inherited := InheritSteps(body, l);
        children := Substeps(inherited);
    }
    var config := InheritConfig(step, l);
    r := step.(config := config, steps := children);
  }

  method InheritSteps(steps: seq<StepDef>, l: Layer) returns (r: seq<StepDef>)
    ensures r == InheritedSteps(steps, l)
    decreases steps, 0
  {
    if steps == [] {
      return [];
    }
    var first := InheritStepConfig(steps[0], l);
    var rest := InheritSteps(steps[1..], l);
    r := [first] + rest;
  }

  // ---------- what the pass keeps ----------

  lemma {:induction false} InheritedAt(steps: seq<StepDef>, l: Layer, k: nat)
    requires k < |steps|
    ensures InheritedSteps(steps, l)[k] == Inherited(steps[k], l)
    decreases |steps|
  {
    if k > 0 {
      InheritedAt(steps[1..], l, k - 1);
    }
  }

  // ---------- which keys a step takes over, and with what values ----------

  /** The step has a provider of its own, and it is not the one it would have had otherwise. */
  ghost predicate OtherProvider(own: Config, layer: Config) {
    var provider := Lookup(own, "provider");
    provider.Some? && provider.value != UnwrapOr(Lookup(layer, "provider"), JString("anthropic"))
  }

  /** Keys that a step may take over from the layer. */
  ghost predicate Inheritable(step: StepDef, l: Layer, key: string) {
    match step.stepType
    case Chat =>
      && key in l.chat
      && (key in ["provider", "temperature", "max_tokens", "timeout"] ||
          (key in ["model", "api_key_env", "base_url"] && !OtherProvider(step.config, l.chat)))
    case Agent => key in l.agent && key in ["model", "command"]
    case _ => false
  }

  /** The own value of a key, and else that of the layer. */
  function OwnOrElse(own: Config, layer: Config, key: string): Option<Json> {
    OrElse(Lookup(own, key), Lookup(layer, key))
  }

  /** A number where the layer has a text that holds one; any other value of the layer as it is. */
  ghost predicate ReadsAs(number: string -> Option<Json>, given: Option<Json>, read: Option<Json>) {
    match given
    case Some(JString(text)) => read == if number(Trim(text)).Some? then number(Trim(text)) else given
    case _ => read == given
  }

  /**
   * The config of a chat step against its own: seven keys come from the layer where the step has none, three of them
   * not when it has chosen another provider; two are read as numbers; every other key is as it was.
   */
  ghost predicate ChatConfig(own: Config, l: Layer, got: Config) {
    && Lookup(got, "provider") == OwnOrElse(own, l.chat, "provider")
    && Lookup(got, "timeout") == OwnOrElse(own, l.chat, "timeout")
    && BoundConfig(own, l, got, "model") && BoundConfig(own, l, got, "api_key_env")
    && BoundConfig(own, l, got, "base_url")
    && NumericConfig(own, l, got, "temperature") && NumericConfig(own, l, got, "max_tokens")
    && forall key ::
         key !in ["provider", "timeout", "model", "api_key_env", "base_url", "temperature", "max_tokens"] ==>
           Lookup(got, key) == Lookup(own, key)
  }

  ghost predicate BoundConfig(own: Config, l: Layer, got: Config, key: string) {
    Lookup(got, key) == if OtherProvider(own, l.chat) then Lookup(own, key) else OwnOrElse(own, l.chat, key)
  }

  ghost predicate NumericConfig(own: Config, l: Layer, got: Config, key: string) {
    if key in own then Lookup(got, key) == Some(own[key])
    else ReadsAs(l.number, Lookup(l.chat, key), Lookup(got, key))
  }

  /** The config of an agent step against its own. */
  ghost predicate AgentConfig(own: Config, l: Layer, got: Config) {
    && Lookup(got, "model") == OwnOrElse(own, l.agent, "model")
    && Lookup(got, "command") == OwnOrElse(own, l.agent, "command")
    && forall key :: key !in ["model", "command"] ==> Lookup(got, key) == Lookup(own, key)
  }

  ghost predicate TakesOver(step: StepDef, l: Layer, got: Config) {
    match step.stepType
    case Chat => ChatConfig(step.config, l, got)
    case Agent => AgentConfig(step.config, l, got)
    case _ => got == step.config
  }

  lemma {:induction false} OtherProviderDiffers(own: Config, layer: Config)
    ensures OtherProvider(own, layer) <==> ProviderDiffers(own, layer)
  {
  }

  lemma {:induction false} ChatKeyAt(step: StepDef, l: Layer, key: string)
    requires step.stepType.Chat?
    ensures Lookup(InheritedConfig(step, l), key) ==
            if key in step.config then Some(step.config[key])
            else if key in l.chat && key in INHERITED_CHAT_KEYS && key !in Barred(step, l) then
              Some(CoerceNumericString(l.number, key, l.chat[key]))
            else None
  {
    CompletedAt(step.config, INHERITED_CHAT_KEYS, Barred(step, l), l.chat, Coerced(l), key);
  }

  lemma {:induction false} FreeKey(step: StepDef, l: Layer, key: string)
    requires step.stepType.Chat? && key in ["provider", "timeout"]
    ensures Lookup(InheritedConfig(step, l), key) == OwnOrElse(step.config, l.chat, key)
  {
    ChatKeyAt(step, l, key);
  }

  lemma {:induction false} BoundKey(step: StepDef, l: Layer, key: string)
    requires step.stepType.Chat? && key in ["model", "api_key_env", "base_url"]
    ensures BoundConfig(step.config, l, InheritedConfig(step, l), key)
  {
    ChatKeyAt(step, l, key);
    OtherProviderDiffers(step.config, l.chat);
  }

  lemma {:induction false} NumericKey(step: StepDef, l: Layer, key: string)
    requires step.stepType.Chat? && key in ["temperature", "max_tokens"]
    ensures NumericConfig(step.config, l, InheritedConfig(step, l), key)
  {
    ChatKeyAt(step, l, key);
  }

  lemma {:induction false} ChatTakesOver(step: StepDef, l: Layer)
    requires step.stepType.Chat?
    ensures ChatConfig(step.config, l, InheritedConfig(step, l))
  {
    FreeKey(step, l, "provider");
    FreeKey(step, l, "timeout");
    BoundKey(step, l, "model");
    BoundKey(step, l, "api_key_env");
    BoundKey(step, l, "base_url");
    NumericKey(step, l, "temperature");
    NumericKey(step, l, "max_tokens");
    forall key | key !in ["provider", "timeout", "model", "api_key_env", "base_url", "temperature", "max_tokens"]
      ensures Lookup(InheritedConfig(step, l), key) == Lookup(step.config, key)
    {
      ChatKeyAt(step, l, key);
    }
  }

  lemma {:induction false} ConfigTakesOver(step: StepDef, l: Layer)
    ensures TakesOver(step, l, InheritedConfig(step, l))
  {
    if step.stepType.Chat? {
      ChatTakesOver(step, l);
    }
  }

  /** Every step of a list, and of the bodies nested in it, has the config of the given one completed from the layer. */
  ghost predicate AllTakeOver(steps: seq<StepDef>, l: Layer, got: seq<StepDef>)
    decreases steps, 0
  {
    |got| == |steps| && forall k :: 0 <= k < |steps| ==> StepTakesOver(steps[k], l, got[k])
  }

  ghost predicate StepTakesOver(step: StepDef, l: Layer, got: StepDef)
    decreases step, 0
  {
    && TakesOver(step, l, got.config)
    && got.steps.Substeps? == step.steps.Substeps?
    && (step.steps.Substeps? ==> AllTakeOver(step.steps.body, l, got.steps.body))
  }

  lemma {:induction false} InheritedTakesOver(step: StepDef, l: Layer)
    ensures StepTakesOver(step, l, Inherited(step, l))
    decreases step, 0
  {
    ConfigTakesOver(step, l);
    match step.steps {
      case NoSubsteps =>
      case Substeps(body) => InheritedStepsTakeOver(body, l);
    }
  }

  lemma {:induction false} InheritedStepsTakeOver(steps: seq<StepDef>, l: Layer)
    ensures AllTakeOver(steps, l, InheritedSteps(steps, l))
    decreases steps, 0
  {
    forall k | 0 <= k < |steps| ensures StepTakesOver(steps[k], l, InheritedSteps(steps, l)[k]) {
      InheritedAt(steps, l, k);
      InheritedTakesOver(steps[k], l);
    }
  }

  /** With nothing in the layer there is nothing to take over. */
  lemma {:induction false} NothingToInherit(step: StepDef, l: Layer)
    requires l.chat == map[] && l.agent == map[]
    ensures StepTakesOver(step, l, step)
    decreases step, 0
  {
    if step.steps.Substeps? {
      forall k | 0 <= k < |step.steps.body| ensures StepTakesOver(step.steps.body[k], l, step.steps.body[k]) {
        NothingToInherit(step.steps.body[k], l);
      }
    }
  }

  lemma {:induction false} StepsTakeOver(steps: seq<StepDef>, l: Layer)
    ensures AllTakeOver(steps, l, if l.chat == map[] && l.agent == map[] then steps else InheritedSteps(steps, l))
  {
    if l.chat == map[] && l.agent == map[] {
      forall k | 0 <= k < |steps| ensures StepTakesOver(steps[k], l, steps[k]) {
        NothingToInherit(steps[k], l);
      }
    } else {
      InheritedStepsTakeOver(steps, l);
    }
  }

  /** The pass completes the config of every step of the workflow: at the top, in scopes and in nested bodies. */
  lemma {:induction false} PassTakesOver(def: WorkflowDef, number: string -> Option<Json>)
    ensures var l, out := Layer(def.chatConfig, def.agentConfig, number), WithInheritedTypeConfig(def, number);
            && AllTakeOver(def.steps, l, out.steps)
            && forall n :: n in def.scopes ==>
                 n in out.scopes && AllTakeOver(def.scopes[n].steps, l, out.scopes[n].steps)
  {
    var l, out := Layer(def.chatConfig, def.agentConfig, number), WithInheritedTypeConfig(def, number);
    StepsTakeOver(def.steps, l);
    forall n | n in def.scopes
      ensures n in out.scopes && AllTakeOver(def.scopes[n].steps, l, out.scopes[n].steps)
    {
      StepsTakeOver(def.scopes[n].steps, l);
    }
  }

  /** Own keys keep their values, and exactly the inheritable keys are added; `permissions` is never among them. */
  lemma {:induction false} OwnKeysWin(step: StepDef, l: Layer)
    ensures forall key :: key in step.config ==> Lookup(Inherited(step, l).config, key) == Some(step.config[key])
    ensures forall key :: key in Inherited(step, l).config <==> key in step.config || Inheritable(step, l, key)
    ensures !Inheritable(step, l, "permissions")
  {
    OtherProviderDiffers(step.config, l.chat);
  }

  /** A second pass finds nothing more to add, at any depth. */
  lemma {:induction false} InheritTwice(step: StepDef, l: Layer)
    ensures Inherited(Inherited(step, l), l) == Inherited(step, l)
    decreases step, 0
  {
    ConfigSettled(step, l);
    match step.steps {
      case NoSubsteps =>
      case Substeps(children) => InheritStepsTwice(children, l);
    }
  }

  lemma {:induction false} InheritStepsTwice(steps: seq<StepDef>, l: Layer)
    ensures InheritedSteps(InheritedSteps(steps, l), l) == InheritedSteps(steps, l)
    decreases steps, 0
  {
    if steps != [] {
      InheritTwice(steps[0], l);
      InheritStepsTwice(steps[1..], l);
      assert InheritedSteps(steps, l)[1..] == InheritedSteps(steps[1..], l);
    }
  }

  lemma {:induction false} ConfigSettled(step: StepDef, l: Layer)
    ensures InheritedConfig(Inherited(step, l), l) == InheritedConfig(step, l)
  {
    var next := Inherited(step, l);
    if step.stepType.Chat? {
      CompletedTwice(step.config, INHERITED_CHAT_KEYS, Barred(step, l), Barred(next, l), l.chat, Coerced(l));
    } else if step.stepType.Agent? {
      CompletedTwice(step.config, INHERITED_AGENT_KEYS, [], [], l.agent, AsIs());
    }
  }

  lemma {:induction false} CompletedTwice(config: Config, keys: seq<string>, barred: seq<string>,
      barred': seq<string>, layer: Config,
      adjust: (string, Json) -> Json)
    requires forall k :: k in barred ==> k in barred'
    ensures var once := Completed(config, keys, barred, layer, adjust);
            Completed(once, keys, barred', layer, adjust) == once
  {
  }

  /** The whole pass is idempotent. */
  lemma {:induction false} PassTwice(def: WorkflowDef, number: string -> Option<Json>)
    ensures var once := WithInheritedTypeConfig(def, number); WithInheritedTypeConfig(once, number) == once
  {
    var l := Layer(def.chatConfig, def.agentConfig, number);
    InheritStepsTwice(def.steps, l);
    forall n | n in def.scopes
      ensures InheritedSteps(InheritedSteps(def.scopes[n].steps, l), l) == InheritedSteps(def.scopes[n].steps, l)
    {
      InheritStepsTwice(def.scopes[n].steps, l);
    }
  }

  /** The same step up to the config of chat and agent steps, at every depth. */
  ghost predicate SameButConfig(a: StepDef, b: StepDef)
    decreases b, 0
  {
    && a.(config := b.config, steps := b.steps) == b
    && (b.stepType.Chat? || b.stepType.Agent? || a.config == b.config)
    && a.steps.Substeps? == b.steps.Substeps?
    && (b.steps.Substeps? ==> SameStepsButConfig(a.steps.body, b.steps.body))
  }

  ghost predicate SameStepsButConfig(a: seq<StepDef>, b: seq<StepDef>)
    decreases b, 0
  {
    |a| == |b| && forall k :: 0 <= k < |b| ==> SameButConfig(a[k], b[k])
  }

  lemma {:induction false} InheritedSame(step: StepDef, l: Layer)
    ensures SameButConfig(Inherited(step, l), step)
    decreases step, 0
  {
    match step.steps {
      case NoSubsteps =>
      case Substeps(body) => InheritedStepsSame(body, l);
    }
  }

  lemma {:induction false} InheritedStepsSame(steps: seq<StepDef>, l: Layer)
    ensures SameStepsButConfig(InheritedSteps(steps, l), steps)
    decreases steps, 0
  {
    forall k | 0 <= k < |steps| ensures SameButConfig(InheritedSteps(steps, l)[k], steps[k]) {
      InheritedAt(steps, l, k);
      InheritedSame(steps[k], l);
    }
  }

  lemma {:induction false} SameAsItself(step: StepDef)
    ensures SameButConfig(step, step)
    decreases step
  {
    if step.steps.Substeps? {
      forall k | 0 <= k < |step.steps.body| {
        SameAsItself(step.steps.body[k]);
      }
    }
  }

  /** Nothing but the configs of chat and agent steps differs: not at the top, not in scopes, not in nested bodies. */
  ghost predicate SameShape(a: WorkflowDef, b: WorkflowDef) {
    && a.(steps := b.steps, scopes := b.scopes) == b
    && SameStepsButConfig(a.steps, b.steps)
    && a.scopes.Keys == b.scopes.Keys
    && forall n :: n in b.scopes ==>
         a.scopes[n].outputs == b.scopes[n].outputs && SameStepsButConfig(a.scopes[n].steps, b.scopes[n].steps)
  }

  /** The pass keeps the shape of a workflow. */
  lemma {:induction false} PassKeepsShape(def: WorkflowDef, number: string -> Option<Json>)
    ensures SameShape(WithInheritedTypeConfig(def, number), def)
  {
    var l := Layer(def.chatConfig, def.agentConfig, number);
    var out := WithInheritedTypeConfig(def, number);
    InheritedStepsSame(def.steps, l);
    forall k | 0 <= k < |def.steps| {
      SameAsItself(def.steps[k]);
    }
    forall n | n in def.scopes ensures SameStepsButConfig(out.scopes[n].steps, def.scopes[n].steps) {
      InheritedStepsSame(def.scopes[n].steps, l);
      forall k | 0 <= k < |def.scopes[n].steps| {
        SameAsItself(def.scopes[n].steps[k]);
      }
    }
  }
}
