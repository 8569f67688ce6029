/** Strict access to the value of a `from` call in a template (src/engine/template.rs). */
module StrictCalls {
  import opened Prelude
  import opened FromCalls
  import opened TemplatePreprocessor

  lemma {:induction false} RootOfWord(v: string, t: string)
    requires forall k :: 0 <= k < |v| ==> v[k] != '.'
    ensures Root(v + t) == v + Root(t)
    decreases |v|
  {
    if v == [] {
      assert v + t == t;
    } else {
      assert (v + t)[1..] == v[1..] + t;
      RootOfWord(v[1..], t);
    }
  }

  /**
   * The name that decides about strict access to a path which begins with a call: the call's variable up to the
   * first dot.
   */
  function CallRoot(c: TemplateContext, path: string): string
    requires NextCall(path).Some?
  {
    StepVar(c, NextCall(path).value.name) + Root(Rewritten(c, path[NextCall(path).value.end..]))
  }

  lemma {:induction false} CallRootIs(c: TemplateContext, path: string)
    requires NextCall(path).Some? && NextCall(path).value.at == 0
    ensures Root(Rewritten(c, path)) == CallRoot(c, path) && "__from_" <= CallRoot(c, path)
  {
    var call := NextCall(path).value;
    var v, tail := StepVar(c, call.name), Rewritten(c, path[call.end..]);
    StepVarClean(c, call.name);
    RootOfWord(v, tail);
    assert path[..0] + v + tail == v + tail;
  }

  /**
   * Strict access looks the rewritten path up among steps and variables, where injected variables are not. So an
   * expression that begins with a call is accepted exactly when all called steps exist and there also is a step or
   * variable named like the call's variable, in whose value the rest of the path leads somewhere.
   */
  lemma {:induction false} StrictCallIff(c: TemplateContext, expr: string, injected: Injected)
    requires Classify(expr).Strict?
    requires var call := NextCall(Classify(expr).inner); call.Some? && call.value.at == 0
    ensures var inner := Classify(expr).inner;
            var path := Rewritten(c, inner);
            && (Processed(c, expr, injected).Ok? <==>
                AllFound(c, Calls(inner)) && c.known(CallRoot(c, inner)) &&
                  (CallRoot(c, inner) == path || c.resolves(path)))
            && "__from_" <= CallRoot(c, inner)
  {
    CallRootIs(c, Classify(expr).inner);
    NoneMissing(c, Calls(Classify(expr).inner));
  }

  /**
   * So a template with such an expression is refused when no step or variable has a name that begins with `__from_`.
   */
  lemma {:induction false} StrictCallAlwaysFails(c: TemplateContext, pieces: seq<Piece>, injected: Injected, k: nat)
    requires k < |pieces| && pieces[k].expr.Some? && Classify(pieces[k].expr.value).Strict?
    requires var call := NextCall(Classify(pieces[k].expr.value).inner); call.Some? && call.value.at == 0
    requires forall name :: "__from_" <= name ==> !c.known(name)
    ensures Rewrite(c, pieces, injected).Err?
  {
    AcceptedIff(c, pieces, injected);
    CallRootIs(c, Classify(pieces[k].expr.value).inner);
    assert !Acceptable(c, pieces, injected, k);
  }

  // ---------- the template {{ from("x").output! }} ----------

  lemma {:induction false} TrimBetweenBlanks(word: string)
    requires word != "" && !IsWhitespace(word[0]) && !IsWhitespace(Last(word))
    ensures Trim(" " + word + " ") == word
  {
    var expr := " " + word + " ";
    assert expr[1..] == word + " ";
    assert TrimStart(word + " ") == word + " ";
    assert TrimStart(expr) == word + " ";
    assert (word + " ")[..|word|] == word && Last(word + " ") == ' ';
    assert TrimEnd(word) == word;
  }

  /** A path between blanks with an exclamation mark behind it asks strictly for the path. */
  lemma {:induction false} StrictOf(path: string)
    requires path != "" && !IsWhitespace(path[0]) && !IsWhitespace(Last(path))
    ensures Classify(" " + (path + "!") + " ") == Strict(path)
  {
    var word := path + "!";
    TrimBetweenBlanks(word);
    assert word[..|word| - 1] == path && Last(word) == '!';
    assert TrimStart(path) == path && TrimEnd(path) == path;
  }

  /** A template that is one expression. */
  lemma {:induction false} LexOne(expr: string)
    requires forall k :: 0 <= k < |expr| ==> expr[k] != '}'
    ensures Lex("{{" + expr + "}}") == [Piece("", Some(expr))]
  {
    var s := "{{" + expr + "}}";
    assert s[0..2] == "{{";
    var i := NextPieceIs(s);
    assert Opens(s, 0);
    var rest := s[2..];
    assert rest == expr + "}}";
    assert rest[|expr|..|expr| + 2] == "}}";
    forall j | 0 <= j < |expr| ensures !MatchesAt(rest, "}}", j) {
      assert rest[j..j + 2][0] == expr[j] != '}';
    }
    FindIs(rest, "}}", |expr|);
    assert rest[..|expr|] == expr && rest[|expr| + 2..] == "" && s[..0] == "";
  }

  /** A text without quotes calls nothing. */
  lemma {:induction false} NoQuoteNoCall(c: TemplateContext, s: string)
    requires forall k :: 0 <= k < |s| ==> s[k] != '"'
    ensures NextCall(s).None? && Calls(s) == [] && Rewritten(c, s) == s
  {
    FindFromFirst(s, FROM, 0);
    forall j: nat ensures !MatchesAt(s, FROM, j) {
      if j + 6 <= |s| {
        assert s[j..j + 6][5] == s[j + 5];
      }
    }
  }

  /** A call in front of a path without quotes. */
  lemma {:induction false} CallInFront(c: TemplateContext, name: string, tail: string)
    requires forall k :: 0 <= k < |name| ==> name[k] != '"'
    requires forall k :: 0 <= k < |tail| ==> tail[k] != '"'
    ensures var path := FROM + (name + ("\")" + tail));
            && NextCall(path) == Some(FromCall(0, name, |name| + 8)) && path[|name| + 8..] == tail
            && Calls(path) == [name] && CallRoot(c, path) == StepVar(c, name) + Root(tail)
  {
    var rest := name + ("\")" + tail);
    var path := FROM + rest;
    assert path[0..6] == FROM && path[6..] == rest;
    FindIs(path, FROM, 0);
    assert rest[|name|..|name| + 1] == "\"";
    forall j | 0 <= j < |name| ensures !MatchesAt(rest, "\"", j) {
      assert rest[j..j + 1][0] == name[j];
    }
    FindIs(rest, "\"", |name|);
    assert rest[..|name|] == name;
    assert path[|name| + 7] == ')' && path[|name| + 8..] == tail;
    NoQuoteNoCall(c, tail);
  }

  lemma {:induction false} RefusedIf(c: TemplateContext, expr: string, path: string)
    requires Classify(expr) == Strict(path)
    requires NextCall(path).Some? && NextCall(path).value.at == 0
    requires AllFound(c, Calls(path)) && !c.known(CallRoot(c, path))
    ensures Rewrite(c, [Piece("", Some(expr))], map[]) == Err(OutputMissing(path))
  {
    CallRootIs(c, path);
    NoneMissing(c, Calls(path));
  }

  predicate Neither(s: string, a: char, b: char) {
    forall k :: 0 <= k < |s| ==> s[k] != a && s[k] != b
  }

  lemma {:induction false} FieldPath(name: string, tail: string, path: string)
    requires path == FROM + (name + ("\")" + tail)) && tail != ""
    requires Neither(name, '"', '}') && Neither(tail, '"', '}')
    ensures path != "" && path[0] == 'f' && Last(path) == Last(tail)
    ensures forall k :: 0 <= k < |path| + 3 ==> (" " + (path + "!") + " ")[k] != '}'
  {
  }

  /** Strict access to a field of an existing step is refused unless a step or variable is named like its variable. */
  lemma {:induction false} FieldOfStepRefused(c: TemplateContext, name: string, tail: string, path: string)
    requires path == FROM + (name + ("\")" + tail))
    requires Neither(name, '"', '}') && Neither(tail, '"', '}')
    requires tail != "" && tail[0] == '.' && !IsWhitespace(Last(tail))
    requires c.fromValue(name).Some? && !c.known(StepVar(c, name))
    ensures Rewrite(c, Lex("{{" + (" " + (path + "!") + " ") + "}}"), map[]) == Err(OutputMissing(path))
  {
    FieldPath(name, tail, path);
    StrictOf(path);
    var expr := " " + (path + "!") + " ";
    LexOne(expr);
    CallInFront(c, name, tail);
    assert StepVar(c, name) + Root(tail) == StepVar(c, name);
    RefusedIf(c, expr, path);
  }

  lemma {:induction false} Spelled(path: string)
    requires path == "from(\"x\").output"
    ensures FROM + ("x" + ("\")" + ".output")) == path
    ensures "{{" + (" " + (path + "!") + " ") + "}}" == "{{ from(\"x\").output! }}"
  {
  }

  /** The step `x` exists, and yet strict access to its output is refused. */
  lemma {:induction false} StrictOutputOfXIsRefused(c: TemplateContext)
    requires c.fromValue("x").Some? && !c.known("__from_x__")
    ensures Rewrite(c, Lex("{{ from(\"x\").output! }}"), map[]) == Err(OutputMissing("from(\"x\").output"))
  {
    var path := "from(\"x\").output";
    Spelled(path);
    VarOfX(c);
    FieldOfStepRefused(c, "x", ".output", path);
  }

  lemma {:induction false} VarOfX(c: TemplateContext)
    ensures StepVar(c, "x") == "__from_x__"
  {
    assert Sanitize(c, "x") == "x";
  }
}
