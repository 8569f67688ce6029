/** The template preprocessor that runs before the template engine (src/engine/template.rs). */
module TemplatePreprocessor {
  import opened Prelude
  import opened Schema
  import opened FromCalls

  datatype Preprocessed = Preprocessed(template: string, injected: Injected)

  type Rewriting = Result<Preprocessed, TemplateError>

  // ---------- the shape of a template ----------

  /** A stretch of text that is passed on as it is, and the inside of the closed `{{ }}` behind it, if there is one. */
  datatype Piece = Piece(text: string, expr: Option<string>)

  /** Does a `{%` come before the next `{{`? */
  predicate TagFirst(brace: Option<nat>, tag: Option<nat>) {
    tag.Some? && (brace.None? || tag.value < brace.value)
  }

  /**
   * The first piece of a template and what follows it. An unclosed `{{` is text; all behind an unclosed `{%` is text.
   */
  function NextPiece(s: string): (r: (Piece, string))
    requires s != []
    ensures |r.1| < |s|
  {
    var brace, tag := Find(s, "{{"), Find(s, "{%");
    if brace.None? && tag.None? then (Piece(s, None), "")
    else if TagFirst(brace, tag) then
      var end := Find(s[tag.value..], "%}");
      if end.None? then (Piece(s, None), "")
      else
        var cut := tag.value + end.value + 2;
        (Piece(s[..cut], None), s[cut..])
    else
      var rest := s[brace.value + 2..];
      var end := Find(rest, "}}");
      if end.None? then (Piece(s[..brace.value] + "{{", None), rest)
      else (Piece(s[..brace.value], Some(rest[..end.value])), rest[end.value + 2..])
  }

  function Lex(s: string): seq<Piece>
    decreases |s|
  {
    if s == [] then [] else [NextPiece(s).0] + Lex(NextPiece(s).1)
  }

  function Spell(p: Piece): string {
    p.text + (if p.expr.Some? then "{{" + p.expr.value + "}}" else "")
  }

  function Unlex(pieces: seq<Piece>): string {
    if pieces == [] then "" else Spell(pieces[0]) + Unlex(pieces[1..])
  }

  /** A piece spells the text it was cut from, and the braces of its expression close at the first `}}`. */
  lemma {:induction false} NextPieceSpells(s: string)
    requires s != []
    ensures var (p, rest) := NextPiece(s);
            && s == Spell(p) + rest
            && (p.expr.Some? ==> Closed(p.expr.value))
  {
    var brace, tag := Find(s, "{{"), Find(s, "{%");
    if brace.Some? && !TagFirst(brace, tag) {
      FindFromFirst(s, "{{", 0);
      var rest := s[brace.value + 2..];
      var end := Find(rest, "}}");
      if end.Some? {
        FindFromFirst(rest, "}}", 0);
        SpellExpression(s, brace.value, rest, end.value);
        ClosedPrefix(rest, end.value);
      } else {
        Split(s, brace.value, "{{");
      }
    }
  }

  lemma {:induction false} SpellExpression(s: string, i: nat, rest: string, end: nat)
    requires MatchesAt(s, "{{", i) && rest == s[i + 2..] && MatchesAt(rest, "}}", end)
    ensures s == Spell(Piece(s[..i], Some(rest[..end]))) + rest[end + 2..]
  {
    Split(s, i, "{{");
    Split(rest, end, "}}");
    var a, b, e, t := s[..i], "{{", rest[..end], rest[end + 2..];
    assert a + b + (e + "}}" + t) == (a + (b + e + "}}")) + t;
  }

  lemma {:induction false} Split(s: string, i: nat, pattern: string)
    requires MatchesAt(s, pattern, i)
    ensures s == s[..i] + pattern + s[i + |pattern|..]
  {
  }

  /** No `}}` starts inside the text when two closing braces are put behind it. */
  ghost predicate Closed(expr: string) {
    forall j :: 0 <= j < |expr| ==> !MatchesAt(expr + "}}", "}}", j)
  }

  lemma {:induction false} ClosedPrefix(s: string, i: nat)
    requires MatchesAt(s, "}}", i) && forall j :: 0 <= j < i ==> !MatchesAt(s, "}}", j)
    ensures Closed(s[..i])
  {
    forall j | 0 <= j < i ensures !MatchesAt(s[..i] + "}}", "}}", j) {
      assert s[..i] + "}}" == s[..i + 2];
      assert s[..i + 2][j..j + 2] == s[j..j + 2];
      assert !MatchesAt(s, "}}", j);
    }
  }

  ghost predicate Opens(s: string, i: int) {
    0 <= i && (MatchesAt(s, "{{", i) || MatchesAt(s, "{%", i))
  }

  /**
   * The first piece, by what opens first. Nothing: all of the text. An expression: the text in front of it and its
   * inside, or the text with the opening braces when it is never closed. A tag: all up to the first `%}` behind it, or
   * all of the text when it is never closed.
   */
  lemma {:induction false} NextPieceIs(s: string) returns (i: nat)
    requires s != []
    ensures i <= |s| && (forall j :: 0 <= j < i ==> !Opens(s, j)) && (i < |s| ==> Opens(s, i))
    ensures i == |s| ==> NextPiece(s) == (Piece(s, None), "")
    ensures MatchesAt(s, "{{", i) ==>
              var end := Find(s[i + 2..], "}}");
              NextPiece(s) ==
                if end.Some? then (Piece(s[..i], Some(s[i + 2..][..end.value])), s[i + 2..][end.value + 2..])
                else (Piece(s[..i] + "{{", None), s[i + 2..])
    ensures MatchesAt(s, "{%", i) ==>
              var end := Find(s[i..], "%}");
              NextPiece(s) ==
                if end.Some? then (Piece(s[..i + end.value + 2], None), s[i + end.value + 2..])
                else (Piece(s, None), "")
  {
    var brace, tag := Find(s, "{{"), Find(s, "{%");
    FindFromFirst(s, "{{", 0);
    FindFromFirst(s, "{%", 0);
    i := if TagFirst(brace, tag) then tag.value else if brace.Some? then brace.value else |s|;
    if i < |s| {
      assert s[i..i + 2][1] == s[i + 1];
    }
  }

  /** Cutting loses nothing. */
  lemma {:induction false} UnlexLex(s: string)
    ensures Unlex(Lex(s)) == s
    ensures forall k :: 0 <= k < |Lex(s)| && Lex(s)[k].expr.Some? ==> Closed(Lex(s)[k].expr.value)
    decreases |s|
  {
    if s != [] {
      NextPieceSpells(s);
      UnlexLex(NextPiece(s).1);
      assert Lex(s)[1..] == Lex(NextPiece(s).1);
    }
  }

  // ---------- one expression ----------

  /** What an expression asks for: the parts behind `?` and `!` or in front of them, already trimmed. */
  datatype Accessor =
    | Safe(inner: string)
    | Strict(inner: string)
    | PromptOf(name: string)
    | Plain(inner: string)

  function Classify(expr: string): Accessor {
    var trimmed := Trim(expr);
    if trimmed != [] && Last(trimmed) == '?' then Safe(Trim(trimmed[..|trimmed| - 1]))
    else if trimmed != [] && Last(trimmed) == '!' then Strict(Trim(trimmed[..|trimmed| - 1]))
    else if "prompts." <= trimmed then PromptOf(Trim(trimmed[8..]))
    else Plain(trimmed)
  }

  function WithDefault(inner: string): string {
    " " + inner + " | default(value=\"\") "
  }

  function Spaced(inner: string): string {
    " " + inner + " "
  }

  /** What replaces the inside of the braces, and the variables afterwards. */
  function Processed(c: TemplateContext, expr: string, injected: Injected): Rewriting {
    match Classify(expr)
    case Safe(inner) =>
      Ok(Preprocessed(WithDefault(Rewritten(c, inner)), InjectAll(c, Calls(inner), injected)))
    case Strict(inner) =>
      (match Transformed(c, inner, false)
       case Ok(path) =>
         if VarExists(c, path) then Ok(Preprocessed(Spaced(path), InjectAll(c, Calls(inner), injected)))
         else Err(OutputMissing(inner))
       case Err(e) => Err(e))
    case PromptOf(name) =>
      var v := PromptVar(c, name);
      if v in injected then Ok(Preprocessed(Spaced(v), injected))
      else
        (match c.prompt(name)
         case Ok(content) => Ok(Preprocessed(Spaced(v), injected[v := JString(content)]))
         case Err(e) => Err(PromptFailed(e)))
    case Plain(inner) =>
      match Transformed(c, inner, false)
      case Ok(text) =>
        Ok(Preprocessed(if text == inner then expr else Spaced(text), InjectAll(c, Calls(inner), injected)))
      case Err(e) => Err(e)
  }

  function Prepend(text: string, r: Rewriting): Rewriting {
    if r.Ok? then Ok(r.value.(template := text + r.value.template)) else r
  }

  /** The rewriting of a whole template, piece by piece. */
  function Rewrite(c: TemplateContext, pieces: seq<Piece>, injected: Injected): Rewriting {
    if pieces == [] then Ok(Preprocessed("", injected))
    else if pieces[0].expr.None? then Prepend(pieces[0].text, Rewrite(c, pieces[1..], injected))
    else
      match Processed(c, pieces[0].expr.value, injected)
      case Ok(one) => Prepend(pieces[0].text + ("{{" + one.template + "}}"), Rewrite(c, pieces[1..], one.injected))
      case Err(e) => Err(e)
  }

  lemma {:induction false} PrependTwice(a: string, b: string, r: Rewriting)
    ensures Prepend(a, Prepend(b, r)) == Prepend(a + b, r)
  {
    if r.Ok? {
      assert a + (b + r.value.template) == a + b + r.value.template;
    }
  }

  lemma {:induction false} PrependNothing(r: Rewriting)
    ensures Prepend("", r) == r
  {
    if r.Ok? {
      assert "" + r.value.template == r.value.template;
    }
  }

  method ProcessExpression(c: TemplateContext, expr: string, injected: Injected)
    returns (r: Result<string, TemplateError>, injected': Injected)
    ensures r.Ok? ==> Processed(c, expr, injected) == Ok(Preprocessed(r.value, injected'))
    ensures r.Err? ==> Processed(c, expr, injected) == Err(r.error)
  {
    injected' := injected;
    match Classify(expr) {
      case Safe(inner) =>
        r, injected' := TransformFromCalls(c, inner, true, injected);
        r := Ok(WithDefault(r.value));
      case Strict(inner) =>
        r, injected' := TransformFromCalls(c, inner, false, injected);
        if r.Ok? {
          r := if VarExists(c, r.value) then Ok(Spaced(r.value)) else Err(OutputMissing(inner));
        }
      case PromptOf(name) =>
        var v := PromptVar(c, name);
        r := Ok(Spaced(v));
        if v !in injected {
          match c.prompt(name) {
            case Ok(content) => injected' := injected[v := JString(content)];
            case Err(e) => r := Err(PromptFailed(e));
          }
        }
      case Plain(inner) =>
        r, injected' := TransformFromCalls(c, inner, false, injected);
        if r.Ok? {
          r := Ok(if r.value == inner then expr else Spaced(r.value));
        }
    }
  }

  /** Rewrites a template from left to right, collecting the variables to inject. */
  method PreprocessTemplate(c: TemplateContext, template: string) returns (r: Rewriting)
    ensures r == Rewrite(c, Lex(template), map[])
  {
    var result := "";
    var injected: Injected := map[];
    var remaining := template;
    ghost var whole := Rewrite(c, Lex(template), map[]);
    PrependNothing(whole);
    while remaining != ""
      invariant whole == Prepend(result, Rewrite(c, Lex(remaining), injected))
      decreases |remaining|
    {
      var (piece, rest) := NextPiece(remaining);
      assert Lex(remaining)[1..] == Lex(rest);
      if piece.expr.None? {
        PrependTwice(result, piece.text, Rewrite(c, Lex(rest), injected));
        result, remaining := result + piece.text, rest;
      } else {
        var processed, injected' := ProcessExpression(c, piece.expr.value, injected);
        if processed.Err? {
          return Err(processed.error);
        }
        var text := piece.text + ("{{" + processed.value + "}}");
        PrependTwice(result, text, Rewrite(c, Lex(rest), injected'));
        result, remaining, injected := result + text, rest, injected';
      }
    }
    assert result + "" == result;
    return Ok(Preprocessed(result, injected));
  }

  // ---------- the four kinds of expression ----------

  /** White space surrounds the stretch from `i` to `j`, which neither begins nor ends with any. */
  ghost predicate Core(expr: string, i: nat, j: nat) {
    && i <= j <= |expr|
    && (forall k :: 0 <= k < i || j <= k < |expr| ==> IsWhitespace(expr[k]))
    && (i < j ==> !IsWhitespace(expr[i]) && !IsWhitespace(expr[j - 1]))
  }

  lemma {:induction false} CoreIsTrimmed(expr: string, i: nat, j: nat)
    requires Core(expr, i, j)
    ensures Trim(expr) == expr[i..j]
  {
    var a, b := TrimIs(expr);
    if i < j {
      assert !IsWhitespace(expr[i]) && a < b;
    }
  }

  lemma {:induction false} CoreWithoutLast(expr: string, i: nat, j: nat)
    requires Core(expr, i, j) && i < j
    ensures Trim(expr) != [] && Last(Trim(expr)) == expr[j - 1]
    ensures Trim(expr)[..|Trim(expr)| - 1] == expr[i..j - 1]
  {
    CoreIsTrimmed(expr, i, j);
  }

  /** Some called step does not exist. */
  ghost predicate MissesCall(c: TemplateContext, inner: string, e: TemplateError) {
    exists n :: n in Calls(inner) && c.fromValue(n).None? && e == StepMissing(n)
  }

  /** `inner?` falls back to the empty text. */
  lemma {:induction false} SafeExpression(c: TemplateContext, expr: string, i: nat, j: nat, injected: Injected)
    requires Core(expr, i, j) && i < j && expr[j - 1] == '?'
    ensures var inner := Trim(expr[i..j - 1]);
            Processed(c, expr, injected) ==
              Ok(Preprocessed(" " + Rewritten(c, inner) + " | default(value=\"\") ",
                              InjectAll(c, Calls(inner), injected)))
  {
    CoreWithoutLast(expr, i, j);
  }

  /** `inner!` must exist. */
  lemma {:induction false} StrictExpression(c: TemplateContext, expr: string, i: nat, j: nat, injected: Injected)
    requires Core(expr, i, j) && i < j && expr[j - 1] == '!'
    ensures var inner := Trim(expr[i..j - 1]);
            match Processed(c, expr, injected)
            case Ok(one) =>
              && AllFound(c, Calls(inner)) && VarExists(c, Rewritten(c, inner))
              && one == Preprocessed(" " + Rewritten(c, inner) + " ", InjectAll(c, Calls(inner), injected))
            case Err(e) =>
              MissesCall(c, inner, e) ||
              (AllFound(c, Calls(inner)) && !VarExists(c, Rewritten(c, inner)) && e == OutputMissing(inner))
  {
    CoreWithoutLast(expr, i, j);
    NoneMissing(c, Calls(Trim(expr[i..j - 1])));
  }

  /** `prompts.name` stands for the text of a prompt file, which is resolved once for each variable. */
  lemma {:induction false} PromptExpression(c: TemplateContext, expr: string, i: nat, j: nat, injected: Injected)
    requires Core(expr, i, j) && i + 8 <= j && expr[i..i + 8] == "prompts."
    requires expr[j - 1] != '?' && expr[j - 1] != '!'
    ensures var name := Trim(expr[i + 8..j]);
            var v := "__prompt_" + Sanitize(c, name) + "__";
            Processed(c, expr, injected) ==
              if v in injected then Ok(Preprocessed(" " + v + " ", injected))
              else
                match c.prompt(name)
                case Ok(content) => Ok(Preprocessed(" " + v + " ", injected[v := JString(content)]))
                case Err(e) => Err(PromptFailed(e))
  {
    CoreIsTrimmed(expr, i, j);
    CoreWithoutLast(expr, i, j);
    var t := Trim(expr);
    assert t[..8] == expr[i..i + 8] && t[8..] == expr[i + 8..j];
  }

  /** Any other expression is copied, unless it holds calls. */
  lemma {:induction false} PlainExpression(c: TemplateContext, expr: string, i: nat, j: nat, injected: Injected)
    requires Core(expr, i, j) && (i < j ==> expr[j - 1] != '?' && expr[j - 1] != '!')
    requires !("prompts." <= expr[i..j])
    ensures var inner := expr[i..j];
            match Processed(c, expr, injected)
            case Ok(one) =>
              && AllFound(c, Calls(inner))
              && one == Preprocessed(if HasCall(inner) then " " + Rewritten(c, inner) + " " else expr,
                                     InjectAll(c, Calls(inner), injected))
            case Err(e) => MissesCall(c, inner, e)
  {
    CoreIsTrimmed(expr, i, j);
    if i < j {
      CoreWithoutLast(expr, i, j);
    }
    NoneMissing(c, Calls(expr[i..j]));
    RewrittenSameIffNoCall(c, expr[i..j]);
  }

  // ---------- which templates are accepted ----------

  /** Names that an expression calls with `from`. */
  function CalledBy(expr: string): seq<string> {
    match Classify(expr)
    case Safe(inner) => Calls(inner)
    case Strict(inner) => Calls(inner)
    case PromptOf(_) => []
    case Plain(inner) => Calls(inner)
  }

  function TemplateCalls(pieces: seq<Piece>): seq<string> {
    if pieces == [] then []
    else (if pieces[0].expr.Some? then CalledBy(pieces[0].expr.value) else []) + TemplateCalls(pieces[1..])
  }

  /** The prompt variable that a piece needs. */
  function PromptVarOf(c: TemplateContext, p: Piece): Option<string> {
    if p.expr.Some? && Classify(p.expr.value).PromptOf? then Some(PromptVar(c, Classify(p.expr.value).name)) else None
  }

  predicate AllFound(c: TemplateContext, names: seq<string>) {
    forall n :: n in names ==> c.fromValue(n).Some?
  }

  /**
   * Piece `k` can be rewritten: its prompt, for one, resolves or the same variable was already needed further in
   * front.
   */
  predicate Acceptable(c: TemplateContext, pieces: seq<Piece>, injected: Injected, k: nat)
    requires k < |pieces|
  {
    pieces[k].expr.Some? ==>
      match Classify(pieces[k].expr.value)
      case Safe(_) => true
      case Strict(inner) => AllFound(c, Calls(inner)) && VarExists(c, Rewritten(c, inner))
      case PromptOf(name) =>
        || c.prompt(name).Ok?
        || PromptVar(c, name) in injected
        || exists j :: 0 <= j < k && PromptVarOf(c, pieces[j]) == Some(PromptVar(c, name))
      case Plain(inner) => AllFound(c, Calls(inner))
  }

  lemma {:induction false} InjectAllKeys(c: TemplateContext, names: seq<string>, injected: Injected)
    ensures forall v :: v in InjectAll(c, names, injected) <==>
            v in injected || exists n :: n in names && StepVar(c, n) == v
    decreases |names|
  {
    if names != [] {
      var front := names[..|names| - 1];
      InjectAllKeys(c, front, injected);
      assert names == front + [Last(names)];
    }
  }

  /** A step variable is never a prompt variable. */
  lemma {:induction false} VarsApart(c: TemplateContext, step: string, prompt: string)
    ensures StepVar(c, step) != PromptVar(c, prompt)
  {
    assert StepVar(c, step)[2] == 'f' && PromptVar(c, prompt)[2] == 'p';
  }

  lemma {:induction false} ProcessedPrompts(c: TemplateContext, p: Piece, injected: Injected, name: string)
    requires p.expr.Some? && Processed(c, p.expr.value, injected).Ok?
    ensures var v := PromptVar(c, name);
            v in Processed(c, p.expr.value, injected).value.injected <==> v in injected || PromptVarOf(c, p) == Some(v)
  {
    InjectAllKeys(c, CalledBy(p.expr.value), injected);
    forall n ensures StepVar(c, n) != PromptVar(c, name) {
      VarsApart(c, n, name);
    }
  }

  /** A template is rewritten exactly when each of its closed expressions is acceptable. */
  lemma {:induction false} AcceptedIff(c: TemplateContext, pieces: seq<Piece>, injected: Injected)
    ensures Rewrite(c, pieces, injected).Ok? <==> forall k :: 0 <= k < |pieces| ==> Acceptable(c, pieces, injected, k)
    decreases |pieces|
  {
    if pieces != [] {
      var rest := pieces[1..];
      if pieces[0].expr.None? {
        AcceptedIff(c, rest, injected);
        AcceptableTail(c, pieces, injected, injected);
      } else {
        var one := Processed(c, pieces[0].expr.value, injected);
        NoneMissing(c, CalledBy(pieces[0].expr.value));
        assert one.Ok? <==> Acceptable(c, pieces, injected, 0);
        if one.Ok? {
          AcceptedIff(c, rest, one.value.injected);
          forall name ensures PromptVar(c, name) in one.value.injected <==>
                              PromptVar(c, name) in injected || PromptVarOf(c, pieces[0]) == Some(PromptVar(c, name)) {
            ProcessedPrompts(c, pieces[0], injected, name);
          }
          AcceptableTail(c, pieces, injected, one.value.injected);
        }
      }
    }
  }

  lemma {:induction false} AcceptableTail(c: TemplateContext, pieces: seq<Piece>, injected: Injected,
      injected': Injected)
    requires pieces != []
    requires forall name :: PromptVar(c, name) in injected' <==>
                            PromptVar(c, name) in injected || PromptVarOf(c, pieces[0]) == Some(PromptVar(c, name))
    ensures (forall k :: 0 <= k < |pieces[1..]| ==> Acceptable(c, pieces[1..], injected', k))
            <==> forall k :: 1 <= k < |pieces| ==> Acceptable(c, pieces, injected, k)
  {
    var rest := pieces[1..];
    forall k | 0 <= k < |rest| ensures Acceptable(c, rest, injected', k) <==> Acceptable(c, pieces, injected, k + 1) {
      if rest[k].expr.Some? && Classify(rest[k].expr.value).PromptOf? {
        var v := PromptVar(c, Classify(rest[k].expr.value).name);
        forall j | 0 <= j < k ensures PromptVarOf(c, rest[j]) == PromptVarOf(c, pieces[j + 1]) {
        }
        if j :| 0 <= j < k + 1 && PromptVarOf(c, pieces[j]) == Some(v) {
          assert j > 0 ==> PromptVarOf(c, rest[j - 1]) == Some(v);
        }
      }
    }
    forall k | 1 <= k < |pieces| && forall i :: 0 <= i < |rest| ==> Acceptable(c, rest, injected', i)
      ensures Acceptable(c, pieces, injected, k)
    {
      assert Acceptable(c, rest, injected', k - 1);
    }
  }

  // ---------- what is injected ----------

  /** The last call that finds its step and whose name turns into the given variable. */
  function LastFound(c: TemplateContext, names: seq<string>, v: string): Option<string> {
    if names == [] then None
    else if StepVar(c, Last(names)) == v && c.fromValue(Last(names)).Some? then Some(Last(names))
    else LastFound(c, names[..|names| - 1], v)
  }

  predicate Called(c: TemplateContext, names: seq<string>, v: string) {
    names != [] && (StepVar(c, Last(names)) == v || Called(c, names[..|names| - 1], v))
  }

  /**
   * The value of a variable after some calls: the last step found, else what was there, else a sentinel if it was
   * called.
   */
  function Settled(c: TemplateContext, names: seq<string>, v: string, before: Option<Json>): Option<Json> {
    var found := LastFound(c, names, v);
    if found.Some? then c.fromValue(found.value)
    else if before.None? && Called(c, names, v) then Some(SENTINEL)
    else before
  }

  lemma {:induction false} LastFoundIs(c: TemplateContext, names: seq<string>, v: string)
    ensures LastFound(c, names, v).Some? <==> exists n :: n in names && StepVar(c, n) == v && c.fromValue(n).Some?
    ensures var found := LastFound(c, names, v);
            found.Some? ==> found.value in names && StepVar(c, found.value) == v && c.fromValue(found.value).Some?
    decreases |names|
  {
    if names != [] {
      LastFoundIs(c, names[..|names| - 1], v);
      assert names == names[..|names| - 1] + [Last(names)];
    }
  }

  lemma {:induction false} CalledIs(c: TemplateContext, names: seq<string>, name: string)
    requires name in names
    ensures Called(c, names, StepVar(c, name))
    decreases |names|
  {
    assert names == names[..|names| - 1] + [Last(names)];
    if name != Last(names) {
      CalledIs(c, names[..|names| - 1], name);
    }
  }

  /** What one call does to the value of a variable. */
  function AfterCall(c: TemplateContext, name: string, v: string, before: Option<Json>): Option<Json> {
    if StepVar(c, name) != v then before
    else if c.fromValue(name).Some? then c.fromValue(name)
    else if before.None? then Some(SENTINEL)
    else before
  }

  lemma {:induction false} InjectAt(c: TemplateContext, name: string, injected: Injected, v: string)
    ensures Lookup(Inject(c, name, injected), v) == AfterCall(c, name, v, Lookup(injected, v))
  {
  }

  lemma {:induction false} SettledLast(c: TemplateContext, names: seq<string>, v: string, before: Option<Json>)
    requires names != []
    ensures Settled(c, names, v, before) == AfterCall(c, Last(names), v, Settled(c, names[..|names| - 1], v, before))
  {
    LastFoundIs(c, names[..|names| - 1], v);
  }

  lemma {:induction false} InjectAllAt(c: TemplateContext, names: seq<string>, injected: Injected, v: string)
    ensures Lookup(InjectAll(c, names, injected), v) == Settled(c, names, v, Lookup(injected, v))
    decreases |names|
  {
    if names != [] {
      var front := names[..|names| - 1];
      InjectAllAt(c, front, injected, v);
      InjectAt(c, Last(names), InjectAll(c, front, injected), v);
      SettledLast(c, names, v, Lookup(injected, v));
    }
  }

  lemma {:induction false} InjectAllAppend(c: TemplateContext, a: seq<string>, b: seq<string>, injected: Injected)
    ensures InjectAll(c, a + b, injected) == InjectAll(c, b, InjectAll(c, a, injected))
    decreases |b|
  {
    if b == [] {
      assert a + b == a;
    } else {
      assert (a + b)[..|a + b| - 1] == a + b[..|b| - 1];
      InjectAllAppend(c, a, b[..|b| - 1], injected);
    }
  }

  lemma {:induction false} ProcessedInjects(c: TemplateContext, expr: string, injected: Injected, name: string)
    requires Processed(c, expr, injected).Ok?
    ensures Lookup(Processed(c, expr, injected).value.injected, StepVar(c, name))
            == Lookup(InjectAll(c, CalledBy(expr), injected), StepVar(c, name))
  {
    if Classify(expr).PromptOf? {
      VarsApart(c, name, Classify(expr).name);
    }
  }

  /** The step variables of an accepted template are those of its calls, injected in order. */
  lemma {:induction false} RewriteInjects(c: TemplateContext, pieces: seq<Piece>, injected: Injected, name: string)
    requires Rewrite(c, pieces, injected).Ok?
    ensures Lookup(Rewrite(c, pieces, injected).value.injected, StepVar(c, name))
            == Settled(c, TemplateCalls(pieces), StepVar(c, name), Lookup(injected, StepVar(c, name)))
    decreases |pieces|
  {
    if pieces != [] {
      var calls, rest := TemplateCalls(pieces[1..]), pieces[1..];
      if pieces[0].expr.None? {
        RewriteInjects(c, rest, injected, name);
        assert [] + calls == calls;
      } else {
        var expr := pieces[0].expr.value;
        var v := StepVar(c, name);
        RewriteInjects(c, rest, Processed(c, expr, injected).value.injected, name);
        ProcessedInjects(c, expr, injected, name);
        InjectAllAppend(c, CalledBy(expr), calls, injected);
        InjectAllAt(c, calls, InjectAll(c, CalledBy(expr), injected), v);
        InjectAllAt(c, CalledBy(expr) + calls, injected, v);
      }
    }
  }

  /**
   * In an accepted template every called step that exists leaves the value of its variable at the last found step
   * that shares the variable; so it is its own value exactly when that step's value is the same, and always when the
   * called names turn into distinct variables.
   */
  lemma {:induction false} EachCallSeesItsStep(c: TemplateContext, pieces: seq<Piece>, name: string)
    requires Rewrite(c, pieces, map[]).Ok? && name in TemplateCalls(pieces) && c.fromValue(name).Some?
    ensures var calls := TemplateCalls(pieces);
            var injected := Rewrite(c, pieces, map[]).value.injected;
            var last := LastFound(c, calls, StepVar(c, name));
            && last.Some? && last.value in calls && StepVar(c, last.value) == StepVar(c, name)
            && (Lookup(injected, StepVar(c, name)) == c.fromValue(name) <==>
               c.fromValue(last.value) == c.fromValue(name))
            && ((forall n :: n in calls && StepVar(c, n) == StepVar(c, name) ==> n == name) ==>
                  Lookup(injected, StepVar(c, name)) == c.fromValue(name))
  {
    RewriteInjects(c, pieces, map[], name);
    LastFoundIs(c, TemplateCalls(pieces), StepVar(c, name));
  }

  /**
   * A called step that does not exist, which only a safe expression survives, ends up as the sentinel unless it
   * shares its variable with a found one.
   */
  lemma {:induction false} MissingCallSeesSentinel(c: TemplateContext, pieces: seq<Piece>, name: string)
    requires Rewrite(c, pieces, map[]).Ok? && name in TemplateCalls(pieces)
    requires LastFound(c, TemplateCalls(pieces), StepVar(c, name)).None?
    ensures Lookup(Rewrite(c, pieces, map[]).value.injected, StepVar(c, name)) == Some(SENTINEL)
  {
    RewriteInjects(c, pieces, map[], name);
    CalledIs(c, TemplateCalls(pieces), name);
  }

  /** `a-b` and `a_b` turn into the same variable, so calling both leaves only the value of the second. */
  lemma {:induction false} CollidingNames(c: TemplateContext)
    requires c.fromValue("a-b").Some? && c.fromValue("a_b").Some?
    ensures StepVar(c, "a-b") == StepVar(c, "a_b") == "__from_a_b__"
    ensures InjectAll(c, ["a-b", "a_b"], map[]) == map["__from_a_b__" := c.fromValue("a_b").value]
  {
    assert Sanitize(c, "a-b") == "a_b" == Sanitize(c, "a_b");
    assert ["a-b", "a_b"] == ["a-b"] + ["a_b"] && ["a-b"] == [] + ["a-b"];
    InjectSnoc(c, ["a-b"], "a_b", map[]);
    InjectSnoc(c, [], "a-b", map[]);
    var v := "__from_a_b__";
    assert map[v := c.fromValue("a-b").value][v := c.fromValue("a_b").value] == map[v := c.fromValue("a_b").value];
  }

  // ---------- when nothing changes ----------

  /** A closed expression without `?`, `!`, `prompts.` or a call. */
  ghost predicate Untouched(expr: string) {
    Classify(expr).Plain? && !HasCall(Trim(expr))
  }

  ghost predicate AllUntouched(pieces: seq<Piece>) {
    forall k :: 0 <= k < |pieces| && pieces[k].expr.Some? ==> Untouched(pieces[k].expr.value)
  }

  /** Braces that close at the first `}}` determine the text between them. */
  lemma {:induction false} ClosedUnique(x: string, a: string, y: string, b: string)
    requires Closed(x) && Closed(y) && x + "}}" + a == y + "}}" + b
    ensures x == y && a == b
  {
    ClosedNoLonger(x, a, y, b);
    ClosedNoLonger(y, b, x, a);
    assert x == (x + "}}" + a)[..|x|] && y == (y + "}}" + b)[..|y|];
    assert a == (x + "}}" + a)[|x| + 2..] && b == (y + "}}" + b)[|y| + 2..];
  }

  lemma {:induction false} ClosedNoLonger(x: string, a: string, y: string, b: string)
    requires Closed(y) && x + "}}" + a == y + "}}" + b
    ensures |y| <= |x|
  {
    var whole := x + "}}" + a;
    assert whole[|x|] == '}' && whole[|x| + 1] == '}';
    if |x| < |y| {
      assert (y + "}}")[|x|..|x| + 2] == whole[|x|..|x| + 2] == "}}";
      assert MatchesAt(y + "}}", "}}", |x|);
    }
  }

  /** Part of a closed expression, with a space in front and a brace-free tail behind, is closed as well. */
  lemma {:induction false} ClosedAround(expr: string, a: nat, b: nat, tail: string)
    requires Closed(expr) && a <= b <= |expr|
    requires tail != [] && forall k :: 0 <= k < |tail| ==> tail[k] != '}'
    ensures Closed(" " + expr[a..b] + tail)
  {
    var inner := expr[a..b];
    var body := " " + inner + tail;
    var whole := body + "}}";
    forall j | 0 <= j < |body| ensures !MatchesAt(whole, "}}", j) {
      BracesAt(whole, j);
      if 1 <= j < |inner| {
        assert !MatchesAt(expr + "}}", "}}", a + j - 1);
        BracesAt(expr + "}}", a + j - 1);
        assert whole[j] == inner[j - 1] == expr[a + j - 1] && whole[j + 1] == inner[j] == expr[a + j];
      } else if j == |inner| && j > 0 {
        assert whole[j + 1] == tail[0];
      } else if j > |inner| {
        assert whole[j] == tail[j - 1 - |inner|];
      }
    }
  }

  lemma {:induction false} BracesAt(s: string, j: nat)
    requires j + 2 <= |s|
    ensures MatchesAt(s, "}}", j) <==> s[j] == '}' && s[j + 1] == '}'
  {
    assert s[j..j + 2] == [s[j], s[j + 1]];
  }

  lemma {:induction false} ProcessedGrows(c: TemplateContext, expr: string, injected: Injected)
    requires Processed(c, expr, injected).Ok?
    ensures injected.Keys <= Processed(c, expr, injected).value.injected.Keys
    ensures CalledBy(expr) != [] || Classify(expr).PromptOf? ==> Processed(c, expr, injected).value.injected != map[]
  {
    InjectAllKeys(c, CalledBy(expr), injected);
    if CalledBy(expr) != [] {
      assert CalledBy(expr)[0] in CalledBy(expr);
      assert StepVar(c, CalledBy(expr)[0]) in InjectAll(c, CalledBy(expr), injected);
    }
    if Classify(expr).PromptOf? {
      assert PromptVar(c, Classify(expr).name) in Processed(c, expr, injected).value.injected;
    }
  }

  lemma {:induction false} RewriteGrows(c: TemplateContext, pieces: seq<Piece>, injected: Injected)
    requires Rewrite(c, pieces, injected).Ok?
    ensures injected.Keys <= Rewrite(c, pieces, injected).value.injected.Keys
    decreases |pieces|
  {
    if pieces != [] {
      if pieces[0].expr.None? {
        RewriteGrows(c, pieces[1..], injected);
      } else {
        ProcessedGrows(c, pieces[0].expr.value, injected);
        RewriteGrows(c, pieces[1..], Processed(c, pieces[0].expr.value, injected).value.injected);
      }
    }
  }

  lemma {:induction false} SliceOfSlice(s: string, i: nat, j: nat, a: nat, b: nat)
    requires i <= j <= |s| && a <= b <= j - i
    ensures s[i..j][a..b] == s[i + a..i + b]
  {
    assert |s[i..j][a..b]| == |s[i + a..i + b]|;
    forall k | 0 <= k < b - a ensures s[i..j][a..b][k] == s[i + a..i + b][k] {
    }
  }

  /** Trimming once more what is left of a trimmed text without its last character, in positions of the original. */
  lemma {:induction false} TrimWithoutLast(s: string) returns (a: nat, b: nat, j: nat)
    requires Trim(s) != []
    ensures a <= b < j <= |s| && Trim(Trim(s)[..|Trim(s)| - 1]) == s[a..b] && Last(Trim(s)) == s[j - 1]
    ensures forall k :: j <= k < |s| ==> IsWhitespace(s[k])
    ensures b - a + 2 == |s| ==> !IsWhitespace(s[0]) || !IsWhitespace(s[|s| - 1])
  {
    var i: nat;
    i, j := TrimIs(s);
    var t := Trim(s);
    var n := |t| - 1;
    assert t[n] == s[i + n];
    var c, d := TrimIs(t[..n]);
    a, b := i + c, i + d;
    assert t[..n] == t[0..n];
    SliceOfSlice(s, i, j, 0, n);
    SliceOfSlice(s, i, j - 1, c, d);
  }

  /** Where the inner part of a `?` or `!` expression and its accessor character, at `j - 1`, lie. */
  lemma {:induction false} InnerOf(expr: string) returns (a: nat, b: nat, j: nat)
    requires Classify(expr).Safe? || Classify(expr).Strict?
    ensures a <= b < j <= |expr| && Classify(expr).inner == expr[a..b]
    ensures expr[j - 1] == if Classify(expr).Safe? then '?' else '!'
    ensures forall k :: j <= k < |expr| ==> IsWhitespace(expr[k])
    ensures b - a + 2 == |expr| ==> !IsWhitespace(expr[0]) || !IsWhitespace(expr[|expr| - 1])
  {
    a, b, j := TrimWithoutLast(expr);
  }

  /** A `?` or `!` expression without calls is replaced by another text, again closed at its first `}}`. */
  lemma {:induction false} AccessorChanges(expr: string)
    requires Closed(expr) && (Classify(expr).Safe? || Classify(expr).Strict?)
    ensures var inner := Classify(expr).inner;
            && Spaced(inner) != expr && Closed(Spaced(inner))
            && (Classify(expr).Safe? ==> WithDefault(inner) != expr && Closed(WithDefault(inner)))
  {
    var a, b, j := InnerOf(expr);
    var inner := Classify(expr).inner;
    ClosedAround(expr, a, b, " ");
    var spaced := Spaced(inner);
    assert spaced[0] == ' ' && spaced[|spaced| - 1] == ' ';
    if Classify(expr).Safe? {
      var tail := " | default(value=\"\") ";
      ClosedAround(expr, a, b, tail);
      assert WithDefault(inner) == " " + inner + tail;
      var defaulted := WithDefault(inner);
      assert defaulted[|defaulted| - 1] == ' ' && defaulted[|defaulted| - 2] == ')';
    }
  }

  /** An untouched expression is copied; any other one that is accepted changes the text or injects something. */
  lemma {:induction false} ProcessedSameIff(c: TemplateContext, expr: string)
    requires Closed(expr)
    ensures Untouched(expr) <==> Processed(c, expr, map[]) == Ok(Preprocessed(expr, map[]))
    ensures var one := Processed(c, expr, map[]);
            !Untouched(expr) && one.Ok? && one.value.injected == map[] ==>
              one.value.template != expr && Closed(one.value.template)
  {
    var one := Processed(c, expr, map[]);
    if one.Ok? {
      ProcessedGrows(c, expr, map[]);
    }
    match Classify(expr) {
      case Safe(inner) =>
        RewrittenSameIffNoCall(c, inner);
        AccessorChanges(expr);
      case Strict(inner) =>
        RewrittenSameIffNoCall(c, inner);
        AccessorChanges(expr);
      case PromptOf(_) =>
      case Plain(inner) =>
        RewrittenSameIffNoCall(c, inner);
    }
  }

  lemma {:induction false} RewriteSameIff(c: TemplateContext, pieces: seq<Piece>)
    requires forall k :: 0 <= k < |pieces| && pieces[k].expr.Some? ==> Closed(pieces[k].expr.value)
    ensures AllUntouched(pieces) <==> Rewrite(c, pieces, map[]) == Ok(Preprocessed(Unlex(pieces), map[]))
    decreases |pieces|
  {
    if pieces != [] {
      var rest := pieces[1..];
      RewriteSameIff(c, rest);
      assert AllUntouched(pieces) <==> (pieces[0].expr.Some? ==> Untouched(pieces[0].expr.value)) && AllUntouched(rest);
      if pieces[0].expr.None? {
        assert Spell(pieces[0]) == pieces[0].text;
        SameBehind(pieces[0].text, Rewrite(c, rest, map[]), Unlex(rest));
      } else {
        ProcessedSameIff(c, pieces[0].expr.value);
        RewriteSameStep(c, pieces);
      }
    }
  }

  lemma {:induction false} SameBehind(text: string, r: Rewriting, expected: string)
    ensures Prepend(text, r) == Ok(Preprocessed(text + expected, map[])) <==> r == Ok(Preprocessed(expected, map[]))
  {
    if r.Ok? && text + r.value.template == text + expected {
      assert r.value.template == (text + r.value.template)[|text|..] == (text + expected)[|text|..] == expected;
    }
  }

  lemma {:induction false} RewriteSameStep(c: TemplateContext, pieces: seq<Piece>)
    requires pieces != [] && pieces[0].expr.Some? && Closed(pieces[0].expr.value)
    ensures Rewrite(c, pieces, map[]) == Ok(Preprocessed(Unlex(pieces), map[])) <==>
            Untouched(pieces[0].expr.value) &&
              Rewrite(c, pieces[1..], map[]) == Ok(Preprocessed(Unlex(pieces[1..]), map[]))
  {
    var expr, text, rest := pieces[0].expr.value, pieces[0].text, pieces[1..];
    var one := Processed(c, expr, map[]);
    ProcessedSameIff(c, expr);
    if Untouched(expr) {
      SameBehind(Spell(pieces[0]), Rewrite(c, rest, map[]), Unlex(rest));
    } else if one.Ok? && Rewrite(c, rest, one.value.injected).Ok? {
      RewriteGrows(c, rest, one.value.injected);
      if one.value.injected == map[] {
        var out := Rewrite(c, rest, map[]).value.template;
        if Rewrite(c, pieces, map[]).value.template == Unlex(pieces) {
          SameBraces(text, one.value.template, out, expr, Unlex(rest));
        }
      }
    }
  }

  lemma {:induction false} SameBraces(text: string, x: string, a: string, y: string, b: string)
    requires Closed(x) && Closed(y) && text + ("{{" + x + "}}") + a == text + ("{{" + y + "}}") + b
    ensures x == y
  {
    var n := |text| + 2;
    assert (text + ("{{" + x + "}}") + a)[n..] == x + "}}" + a;
    assert (text + ("{{" + y + "}}") + b)[n..] == y + "}}" + b;
    ClosedUnique(x, a, y, b);
  }

  /**
   * The preprocessor returns a template unchanged and injects nothing exactly when all its closed expressions are
   * untouched.
   */
  lemma {:induction false} IdentityIffUntouched(c: TemplateContext, template: string)
    ensures AllUntouched(Lex(template)) <==> Rewrite(c, Lex(template), map[]) == Ok(Preprocessed(template, map[]))
  {
    UnlexLex(template);
    RewriteSameIff(c, Lex(template));
  }
}
