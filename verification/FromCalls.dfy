/** Rewriting of `from("name")` calls in a template expression (src/engine/template.rs). */
module FromCalls {
  import opened Prelude
  import opened Schema

  /**
   * What the preprocessor asks of its context. `fromValue` is the value of a step for `from("name")`; `known` says
   * whether a name is a step or a variable; `resolves` whether a dotted path leads somewhere inside its root's
   * value; `prompt` finds and renders a prompt file; `letter` says which characters beyond ASCII are alphanumeric.
   */
  datatype TemplateContext = TemplateContext(
    fromValue: string -> Option<Json>,
    known: string -> bool,
    resolves: string -> bool,
    prompt: string -> Result<string, StepError>,
    letter: char -> bool)

  datatype TemplateError = StepMissing(name: string) | OutputMissing(path: string) | PromptFailed(error: StepError)

  type Injected = map<string, Json>

  const FROM := "from(\""

  const SENTINEL := JOther("{\"output\":null}")

  // ---------- names ----------

  /** The part of a dotted path before its first dot. */
  function Root(path: string): string {
    if path == [] || path[0] == '.' then "" else [path[0]] + Root(path[1..])
  }

  /** A path exists when its root is a step or a variable and the rest of it leads somewhere in the root's value. */
  predicate VarExists(c: TemplateContext, path: string) {
    c.known(Root(path)) && (Root(path) == path || c.resolves(path))
  }

  predicate IsAlphanumeric(c: TemplateContext, ch: char) {
    if ch < '\U{80}' then '0' <= ch <= '9' || 'a' <= ch <= 'z' || 'A' <= ch <= 'Z' else c.letter(ch)
  }

  function Sanitize(c: TemplateContext, name: string): (r: string)
    ensures |r| == |name|
    ensures forall k :: 0 <= k < |r| ==> if IsAlphanumeric(c, name[k]) then r[k] == name[k] else r[k] == '_'
  {
    seq(|name|, k requires 0 <= k < |name| => if IsAlphanumeric(c, name[k]) || name[k] == '_' then name[k] else '_')
  }

  function StepVar(c: TemplateContext, name: string): string {
    "__from_" + Sanitize(c, name) + "__"
  }

  function PromptVar(c: TemplateContext, name: string): string {
    "__prompt_" + Sanitize(c, name) + "__"
  }

  // ---------- from("name") calls ----------

  /** A call `from("name"`, with or without the closing parenthesis: where it starts, its name, where it ends. */
  datatype FromCall = FromCall(at: nat, name: string, end: nat)

  function NextCall(s: string): (r: Option<FromCall>)
    ensures r.Some? ==> r.value.at + 6 + |r.value.name| < r.value.end <= |s|
  {
    var at := Find(s, FROM);
    if at.None? then None
    else
      var quote := Find(s[at.value + 6..], "\"");
      if quote.None? then None
      else
        var close := at.value + 6 + quote.value + 1;
        Some(FromCall(at.value, s[at.value + 6..][..quote.value],
                      if close < |s| && s[close] == ')' then close + 1 else close))
  }

  /** The called names, in order. */
  function Calls(s: string): seq<string>
    decreases |s|
  {
    var call := NextCall(s);
    if call.None? then [] else [call.value.name] + Calls(s[call.value.end..])
  }

  /** The text with each call replaced by its variable. */
  function Rewritten(c: TemplateContext, s: string): string
    decreases |s|
  {
    var call := NextCall(s);
    if call.None? then s
    else s[..call.value.at] + StepVar(c, call.value.name) + Rewritten(c, s[call.value.end..])
  }

  /** The first called step that does not exist. */
  function FirstMissing(c: TemplateContext, names: seq<string>): Option<string> {
    if names == [] then None
    else if c.fromValue(names[0]).None? then Some(names[0])
    else FirstMissing(c, names[1..])
  }

  /** A found step overwrites its variable; a missing one only fills in a sentinel. */
  function Inject(c: TemplateContext, name: string, injected: Injected): Injected {
    var v := StepVar(c, name);
    if c.fromValue(name).Some? then injected[v := c.fromValue(name).value]
    else if v in injected then injected
    else injected[v := SENTINEL]
  }

  function InjectAll(c: TemplateContext, names: seq<string>, injected: Injected): Injected {
    if names == [] then injected else Inject(c, Last(names), InjectAll(c, names[..|names| - 1], injected))
  }

  /** Result of rewriting the calls of an expression; only a safe one tolerates missing steps. */
  function Transformed(c: TemplateContext, s: string, isSafe: bool): Result<string, TemplateError> {
    var missing := FirstMissing(c, Calls(s));
    if isSafe || missing.None? then Ok(Rewritten(c, s)) else Err(StepMissing(missing.value))
  }

  lemma {:induction false} FirstMissingAppend(c: TemplateContext, a: seq<string>, b: seq<string>)
    ensures FirstMissing(c, a + b) == OrElse(FirstMissing(c, a), FirstMissing(c, b))
    decreases |a|
  {
    if a == [] {
      assert a + b == b;
    } else {
      assert (a + b)[1..] == a[1..] + b;
      FirstMissingAppend(c, a[1..], b);
    }
  }

  lemma {:induction false} NoneMissing(c: TemplateContext, names: seq<string>)
    ensures FirstMissing(c, names).None? <==> forall n :: n in names ==> c.fromValue(n).Some?
    ensures FirstMissing(c, names).Some? ==>
            c.fromValue(FirstMissing(c, names).value).None? && FirstMissing(c, names).value in names
    decreases |names|
  {
    if names != [] {
      NoneMissing(c, names[1..]);
    }
  }

  lemma {:induction false} InjectSnoc(c: TemplateContext, names: seq<string>, name: string, injected: Injected)
    ensures InjectAll(c, names + [name], injected) == Inject(c, name, InjectAll(c, names, injected))
  {
    assert (names + [name])[..|names|] == names;
  }

  /** Replaces a part of a text that lies behind `done`. */
  method Splice(text: string, from: nat, to: nat, v: string, ghost done: string, ghost rest: string) returns (r: string)
    requires text == done + rest && |done| <= from <= to <= |text|
    ensures r == (done + rest[..from - |done|] + v) + rest[to - |done|..]
    ensures |done + rest[..from - |done|] + v| == from + |v|
  {
    assert text[..from] == done + rest[..from - |done|];
    assert text[to..] == rest[to - |done|..];
    r := text[..from] + v + text[to..];
  }

  lemma {:induction false} Suffix(a: string, b: string)
    ensures (a + b)[|a|..] == b
  {
  }

  lemma {:induction false} Regroup<T>(a: seq<T>, b: seq<T>, c: seq<T>, d: seq<T>)
    ensures a + (b + c + d) == a + b + c + d && a + (b + c) == a + b + c
  {
  }

  /**
   * How far a rewriting scan has come: `done` is rewritten, `rest` is still to be scanned, `seen` are the calls so
   * far.
   */
  ghost predicate Scanned(c: TemplateContext, expr: string, done: string, rest: string, seen: seq<string>) {
    Rewritten(c, expr) == done + Rewritten(c, rest) && Calls(expr) == seen + Calls(rest)
  }

  lemma {:induction false} ScanNext(c: TemplateContext, expr: string, done: string, rest: string,
      seen: seq<string>, call: FromCall)
    requires Scanned(c, expr, done, rest, seen) && NextCall(rest) == Some(call)
    ensures Scanned(c, expr, done + rest[..call.at] + StepVar(c, call.name), rest[call.end..], seen + [call.name])
    ensures FirstMissing(c, Calls(expr)) ==
            OrElse(FirstMissing(c, seen),
                   if c.fromValue(call.name).None? then Some(call.name) else FirstMissing(c, Calls(rest[call.end..])))
    ensures FirstMissing(c, seen + [call.name]) ==
            OrElse(FirstMissing(c, seen), if c.fromValue(call.name).None? then Some(call.name) else None)
  {
    var tail := rest[call.end..];
    FirstMissingAppend(c, seen, [call.name] + Calls(tail));
    FirstMissingAppend(c, seen, [call.name]);
    Regroup(done, rest[..call.at], StepVar(c, call.name), Rewritten(c, tail));
    Regroup(seen, [call.name], Calls(tail), []);
  }

  lemma {:induction false} ScanEnds(c: TemplateContext, expr: string, done: string, rest: string, seen: seq<string>)
    requires Scanned(c, expr, done, rest, seen) && NextCall(rest).None?
    ensures Rewritten(c, expr) == done + rest && Calls(expr) == seen
  {
  }

  /** Replaces the next call behind `searchFrom` and moves behind the replacement; no name when no call is left. */
  method ReplaceNext(c: TemplateContext, result: string, searchFrom: nat,
      ghost expr: string, ghost done: string, ghost rest: string, ghost seen: seq<string>)
    returns (name: Option<string>, result': string, searchFrom': nat, ghost done': string, ghost rest': string)
    requires searchFrom == |done| && result == done + rest && Scanned(c, expr, done, rest, seen)
    ensures name.None? ==> Rewritten(c, expr) == result' && Calls(expr) == seen
    ensures name.Some? ==>
              && searchFrom' == |done'| && result' == done' + rest' && |rest'| < |rest|
              && Scanned(c, expr, done', rest', seen + [name.value])
              && FirstMissing(c, seen + [name.value]) ==
                   OrElse(FirstMissing(c, seen), if c.fromValue(name.value).None? then name else None)
              && (c.fromValue(name.value).None? ==> FirstMissing(c, Calls(expr)) == OrElse(FirstMissing(c, seen), name))
  {
    Suffix(done, rest);
    name, result', searchFrom', done', rest' := None, result, searchFrom, done, rest;
    var found := NextCall(result[searchFrom..]);
    if found.None? {
      ScanEnds(c, expr, done, rest, seen);
      return;
    }
    var call := found.value;
    ScanNext(c, expr, done, rest, seen, call);
    var varName := StepVar(c, call.name);
    name := Some(call.name);
    result' := Splice(result, searchFrom + call.at, searchFrom + call.end, varName, done, rest);
    searchFrom' := searchFrom + call.at + |varName|;
    done', rest' := done + rest[..call.at] + varName, rest[call.end..];
  }

  /** Rewrites the calls of one expression, scanning on behind each replacement. */
  method TransformFromCalls(c: TemplateContext, expr: string, isSafe: bool, injected: Injected)
    returns (r: Result<string, TemplateError>, injected': Injected)
    ensures r == Transformed(c, expr, isSafe)
    ensures r.Ok? ==> injected' == InjectAll(c, Calls(expr), injected)
  {
    injected' := injected;
    var result := expr;
    var searchFrom := 0;
    ghost var done, rest := "", expr;
    ghost var seen: seq<string> := [];
    while true
      invariant searchFrom == |done| && result == done + rest
      invariant Scanned(c, expr, done, rest, seen)
      invariant injected' == InjectAll(c, seen, injected)
      invariant isSafe || FirstMissing(c, seen).None?
      decreases |rest|
    {
      var name;
      name, result, searchFrom, done, rest := ReplaceNext(c, result, searchFrom, expr, done, rest, seen);
      if name.None? {
        return Ok(result), injected';
      }
      if !isSafe && c.fromValue(name.value).None? {
        return Err(StepMissing(name.value)), injected';
      }
      injected' := Inject(c, name.value, injected');
      InjectSnoc(c, seen, name.value, injected);
      seen := seen + [name.value];
    }
  }

  /** A call is left in a text when `from("` occurs in it with a quote somewhere behind. */
  ghost predicate HasCall(s: string) {
    exists i: nat, j: nat :: MatchesAt(s, FROM, i) && i + 6 <= j < |s| && s[j] == '"'
  }

  lemma {:induction false} QuoteBehind(s: string, i: nat)
    requires i <= |s|
    ensures Find(s[i..], "\"").Some? <==> exists j :: i <= j < |s| && s[j] == '"'
    ensures var found := Find(s[i..], "\"");
            found.Some? ==> s[i + found.value] == '"' && forall j :: i <= j < i + found.value ==> s[j] != '"'
  {
    var rest := s[i..];
    FindFromFirst(rest, "\"", 0);
    var found := Find(rest, "\"");
    var bound := if found.Some? then i + found.value else |s|;
    if found.Some? {
      assert rest[found.value..found.value + 1][0] == rest[found.value] == s[i + found.value];
    }
    forall j | i <= j < bound ensures s[j] != '"' {
      assert !MatchesAt(rest, "\"", j - i);
      assert rest[j - i..j - i + 1] == [s[j]];
    }
  }

  /**
   * The next call is the first `from("`; its name reaches to the first quote, and a parenthesis right behind is
   * taken along.
   */
  lemma {:induction false} NextCallIs(s: string)
    ensures NextCall(s).Some? <==> HasCall(s)
    ensures NextCall(s).Some? ==>
              var call := NextCall(s).value;
              var close := call.at + 6 + |call.name|;
              && MatchesAt(s, FROM, call.at) && (forall i: nat :: i < call.at ==> !MatchesAt(s, FROM, i))
              && call.name == s[call.at + 6..close] && '"' !in call.name && s[close] == '"'
              && call.end == if close + 1 < |s| && s[close + 1] == ')' then close + 2 else close + 1
  {
    FindFromFirst(s, FROM, 0);
    var at := Find(s, FROM);
    if at.Some? {
      QuoteBehind(s, at.value + 6);
      var quote := Find(s[at.value + 6..], "\"");
      if quote.Some? {
        assert s[at.value + 6..][..quote.value] == s[at.value + 6..at.value + 6 + quote.value];
      }
    }
  }

  lemma {:induction false} StepVarClean(c: TemplateContext, name: string)
    ensures var v := StepVar(c, name);
            && |v| == |name| + 9 && v[0] == v[|v| - 1] == '_'
            && forall k :: 0 <= k < |v| ==> v[k] != '"' && v[k] != '.'
  {
    var v := StepVar(c, name);
    assert v[|v| - 1] == '_' && v[0] == '_';
    forall k | 0 <= k < |v| ensures v[k] != '"' && v[k] != '.' {
      if k < 7 {
        assert v[k] == "__from_"[k];
      } else if k < 7 + |name| {
        assert v[k] == Sanitize(c, name)[k - 7];
      } else {
        assert v[k] == "__"[k - 7 - |name|];
      }
    }
  }

  /** Gluing a clean word between two texts makes no new occurrence of `from("` . */
  lemma {:induction false} NoStraddle(p: string, v: string, t: string, i: nat)
    requires |v| > 0 && v[0] == v[|v| - 1] == '_' && forall k :: 0 <= k < |v| ==> v[k] != '"'
    requires MatchesAt(p + v + t, FROM, i)
    ensures MatchesAt(p, FROM, i) || (i >= |p| + |v| && MatchesAt(t, FROM, i - |p| - |v|))
  {
    var r := p + v + t;
    assert forall m :: i <= m < i + 6 ==> r[m] == r[i..i + 6][m - i] == FROM[m - i] != '_';
    assert r[i + 5] == FROM[5] == '"';
    assert r[|p|] == v[0] && r[|p| + |v| - 1] == v[|v| - 1];
    assert forall m :: |p| <= m < |p| + |v| ==> r[m] == v[m - |p|] != '"';
    if i + 6 <= |p| {
      assert r[i..i + 6] == p[i..i + 6];
    } else if i >= |p| + |v| {
      assert r[i..i + 6] == t[i - |p| - |v|..][..6];
      assert t[i - |p| - |v|..][..6] == t[i - |p| - |v|..i - |p| - |v| + 6];
    }
  }

  lemma {:induction false} GluedHasNoCall(p: string, v: string, t: string)
    requires |v| > 0 && v[0] == v[|v| - 1] == '_' && forall k :: 0 <= k < |v| ==> v[k] != '"'
    requires !HasCall(t) && forall i: nat :: !MatchesAt(p, FROM, i)
    ensures !HasCall(p + v + t)
  {
    var r := p + v + t;
    forall i: nat, j: nat | MatchesAt(r, FROM, i) && i + 6 <= j < |r| ensures r[j] != '"' {
      NoStraddle(p, v, t, i);
      assert r[j] == t[j - |p| - |v|];
    }
  }

  /** After rewriting, no `from("` with a later quote is left. */
  lemma {:induction false} NoCallLeft(c: TemplateContext, s: string)
    ensures !HasCall(Rewritten(c, s))
    decreases |s|
  {
    NextCallIs(s);
    var call := NextCall(s);
    if call.Some? {
      var p, v, t := s[..call.value.at], StepVar(c, call.value.name), Rewritten(c, s[call.value.end..]);
      NoCallLeft(c, s[call.value.end..]);
      StepVarClean(c, call.value.name);
      forall i: nat ensures !MatchesAt(p, FROM, i) {
        if i + 6 <= |p| {
          assert !MatchesAt(s, FROM, i) && p[i..i + 6] == s[i..i + 6];
        }
      }
      GluedHasNoCall(p, v, t);
    }
  }

  /** Rewriting leaves a text as it is exactly when it holds no call. */
  lemma {:induction false} RewrittenSameIffNoCall(c: TemplateContext, s: string)
    ensures Rewritten(c, s) == s <==> !HasCall(s)
    ensures Calls(s) == [] <==> !HasCall(s)
  {
    NoCallLeft(c, s);
    NextCallIs(s);
  }
}
