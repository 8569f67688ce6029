/** The scope-reference graph and its cycle check (src/workflow/validator.rs). */
module Validator {
  import opened Prelude
  import opened Schema

  type Scopes = map<string, ScopeDef>

  // ---------- the scope graph ----------

  predicate IsScopeRef(step: StepDef) {
    (step.stepType.Call? || step.stepType.Repeat? || step.stepType.Map?) && step.scope.Some?
  }

  /** Scope names a step list refers to, in order. */
  function Refs(steps: seq<StepDef>): seq<string> {
    if steps == [] then []
    else (if IsScopeRef(steps[0]) then [steps[0].scope.value] else []) + Refs(steps[1..])
  }

  predicate Edge(scopes: Scopes, a: string, b: string) {
    a in scopes && b in Refs(scopes[a].steps)
  }

  /** A non-empty walk along scope references. */
  ghost predicate Walk(scopes: Scopes, p: seq<string>) {
    |p| > 0 && forall i :: 0 <= i < |p| - 1 ==> Edge(scopes, p[i], p[i + 1])
  }

  /** A walk from `name` whose last node lies on `path` or was already visited by the walk itself. */
  ghost predicate Lasso(scopes: Scopes, path: set<string>, name: string, p: seq<string>) {
    Walk(scopes, p) && p[0] == name && (Last(p) in path || Last(p) in p[..|p| - 1])
  }

  ghost predicate ClosedWalk(scopes: Scopes, c: seq<string>) {
    Walk(scopes, c) && |c| >= 2 && c[0] == Last(c)
  }

  /** The scope graph has a cycle somewhere. */
  ghost predicate Cyclic(scopes: Scopes) {
    exists c :: ClosedWalk(scopes, c)
  }

  /** What the depth-first search decides: `path` is the set of names on the current path. */
  ghost predicate CycleFrom(scopes: Scopes, path: set<string>, name: string)
    decreases scopes.Keys - path
  {
    name in path ||
    (name in scopes && exists t | t in Refs(scopes[name].steps) :: CycleFrom(scopes, path + {name}, t))
  }

  lemma RefsOf(steps: seq<StepDef>, t: string)
    ensures t in Refs(steps) <==> exists i :: 0 <= i < |steps| && IsScopeRef(steps[i]) && steps[i].scope.value == t
  {
    if steps != [] {
      RefsOf(steps[1..], t);
      if t in Refs(steps[1..]) {
        var i :| 0 <= i < |steps[1..]| && IsScopeRef(steps[1..][i]) && steps[1..][i].scope.value == t;
        assert IsScopeRef(steps[i + 1]) && steps[i + 1].scope.value == t;
      }
      if i :| 0 <= i < |steps| && IsScopeRef(steps[i]) && steps[i].scope.value == t {
        if i > 0 { assert IsScopeRef(steps[1..][i - 1]) && steps[1..][i - 1].scope.value == t; }
      }
    }
  }

  lemma WalkSuffix(scopes: Scopes, p: seq<string>, k: nat)
    requires Walk(scopes, p) && k < |p|
    ensures Walk(scopes, p[k..])
  {
    forall i | 0 <= i < |p[k..]| - 1 ensures Edge(scopes, p[k..][i], p[k..][i + 1]) {
      assert Edge(scopes, p[k + i], p[k + i + 1]);
    }
  }

  /** The search finds a cycle exactly when a lasso leads out of the node. */
  lemma {:induction false} CycleFromExact(scopes: Scopes, path: set<string>, name: string)
    ensures CycleFrom(scopes, path, name) <==> exists p :: Lasso(scopes, path, name, p)
  {
    if CycleFrom(scopes, path, name) {
      var p := LassoOf(scopes, path, name);
    }
    if p :| Lasso(scopes, path, name, p) {
      LassoFound(scopes, path, name, p);
    }
  }

  lemma {:induction false} LassoOf(scopes: Scopes, path: set<string>, name: string) returns (p: seq<string>)
    requires CycleFrom(scopes, path, name)
    ensures Lasso(scopes, path, name, p)
    decreases scopes.Keys - path
  {
    p := [name];
    if name !in path {
      var t :| t in Refs(scopes[name].steps) && CycleFrom(scopes, path + {name}, t);
      var q := LassoOf(scopes, path + {name}, t);
      p := [name] + q;
      assert Edge(scopes, p[0], p[1]);
      assert forall i :: 1 <= i < |p| - 1 ==> Edge(scopes, q[i - 1], q[i]);
      if Last(q) in q[..|q| - 1] {
        var k :| 0 <= k < |q| - 1 && q[k] == Last(q);
        assert p[..|p| - 1][k + 1] == Last(p);
      } else if Last(q) == name {
        assert p[..|p| - 1][0] == name;
      }
    }
  }

  lemma {:induction false} LassoFound(scopes: Scopes, path: set<string>, name: string, p: seq<string>)
    requires Lasso(scopes, path, name, p)
    ensures CycleFrom(scopes, path, name)
    decreases |p|
  {
    if name !in path {
      var q := p[1..];
      assert Edge(scopes, p[0], p[1]);
      WalkSuffix(scopes, p, 1);
      if Last(p) in p[..|p| - 1] {
        var k :| 0 <= k < |p| - 1 && p[k] == Last(p);
        if k > 0 { assert q[..|q| - 1][k - 1] == Last(q); }
      }
      LassoFound(scopes, path + {name}, p[1], q);
    }
  }

  /** Some declared scope is reported exactly when the graph has a cycle. */
  lemma ReportedIffCyclic(scopes: Scopes)
    ensures (exists n :: n in scopes && CycleFrom(scopes, {}, n)) <==> Cyclic(scopes)
  {
    if n :| n in scopes && CycleFrom(scopes, {}, n) {
      var p := LassoOf(scopes, {}, n);
      var k :| 0 <= k < |p| - 1 && p[k] == Last(p);
      var c := p[k..];
      WalkSuffix(scopes, p, k);
      assert ClosedWalk(scopes, c);
    }
    if c :| ClosedWalk(scopes, c) {
      assert Edge(scopes, c[0], c[1]);
      assert c[..|c| - 1][0] == Last(c);
      LassoFound(scopes, {}, c[0], c);
    }
  }

  // ---------- ranks: the termination measure an acyclic graph provides ----------

  /** Length of the longest reference chain below a scope. */
  ghost function Rank(scopes: Scopes, path: set<string>, name: string): nat
    requires !CycleFrom(scopes, path, name)
    decreases scopes.Keys - path, 0
  {
    if name in scopes then 1 + MaxRank(scopes, path + {name}, Refs(scopes[name].steps)) else 0
  }

  ghost function MaxRank(scopes: Scopes, path: set<string>, targets: seq<string>): (m: nat)
    requires forall t :: t in targets ==> !CycleFrom(scopes, path, t)
    ensures forall t :: t in targets ==> Rank(scopes, path, t) <= m
    decreases scopes.Keys - path, |targets| + 1
  {
    if targets == [] then 0
    else Max(Rank(scopes, path, targets[0]), MaxRank(scopes, path, targets[1..]))
  }

  lemma {:induction false} RankIgnoresPath(scopes: Scopes, small: set<string>, path: set<string>, name: string)
    requires small <= path && !CycleFrom(scopes, path, name)
    ensures !CycleFrom(scopes, small, name) && Rank(scopes, small, name) == Rank(scopes, path, name)
    decreases scopes.Keys - path, 0
  {
    if name in scopes {
      MaxRankIgnoresPath(scopes, small + {name}, path + {name}, Refs(scopes[name].steps));
    }
  }

  lemma {:induction false} MaxRankIgnoresPath(scopes: Scopes, small: set<string>, path: set<string>,
      targets: seq<string>)
    requires small <= path && forall t :: t in targets ==> !CycleFrom(scopes, path, t)
    ensures forall t :: t in targets ==> !CycleFrom(scopes, small, t)
    ensures MaxRank(scopes, small, targets) == MaxRank(scopes, path, targets)
    decreases scopes.Keys - path, |targets| + 1
  {
    if targets != [] {
      RankIgnoresPath(scopes, small, path, targets[0]);
      MaxRankIgnoresPath(scopes, small, path, targets[1..]);
    }
  }

  /** Every reference of an accepted graph leads to a scope of smaller rank. */
  lemma RankDescends(scopes: Scopes, a: string, b: string)
    requires Edge(scopes, a, b) && !CycleFrom(scopes, {}, a)
    ensures !CycleFrom(scopes, {}, b) && Rank(scopes, {}, b) < Rank(scopes, {}, a)
  {
    RankIgnoresPath(scopes, {}, {} + {a}, b);
  }

  // ---------- the search itself ----------

  /** The `visited` set that the search inserts into and removes from. */
  class PathSet {
    var names: set<string>

    constructor ()
      ensures names == {}
    {
      names := {};
    }

    method Insert(name: string) returns (added: bool)
      modifies this
      ensures added == (name !in old(names)) && names == old(names) + {name}
    {
      added := name !in names;
      names := names + {name};
    }

    method Remove(name: string)
      modifies this
      ensures names == old(names) - {name}
    {
      names := names - {name};
    }
  }

  /** Depth-first search over a shared path set. It answers exactly, and a negative answer restores the set. */
  method HasCycle(scopeName: string, scopes: Scopes, visited: PathSet) returns (cyclic: bool)
    modifies visited
    ensures cyclic == CycleFrom(scopes, old(visited.names), scopeName)
    ensures !cyclic ==> visited.names == old(visited.names)
    ensures old(visited.names) <= visited.names
    decreases scopes.Keys - visited.names
  {
    ghost var entry := visited.names;
    var added := visited.Insert(scopeName);
    if !added {
      return true;
    }
    if scopeName in scopes {
      var steps := scopes[scopeName].steps;
      for i := 0 to |steps|
        invariant visited.names == entry + {scopeName}
        invariant forall k :: 0 <= k < i && IsScopeRef(steps[k]) ==>
                    !CycleFrom(scopes, entry + {scopeName}, steps[k].scope.value)
      {
        if IsScopeRef(steps[i]) {
          var found := HasCycle(steps[i].scope.value, scopes, visited);
          if found {
            RefsOf(steps, steps[i].scope.value);
            return true;
          }
        }
      }
      forall t | t in Refs(steps) ensures !CycleFrom(scopes, entry + {scopeName}, t) {
        RefsOf(steps, t);
      }
    }
    visited.Remove(scopeName);
    return false;
  }

  // ---------- validate ----------

  /** One reported problem. The message texts of the program are carried by these fields. */
  datatype Issue =
    | CircularScope(scope: string)
    | DuplicateStep(step: string)
    | DuplicateScopeStep(inScope: string, step: string)
    | UnknownScope(step: string, target: string)
    | MissingField(step: string, field: string)
    | ZeroIterations(step: string)

  /** Absent or only white space. */
  predicate Blank(text: Option<string>) {
    text.None? || Trim(text.value) == ""
  }

  function Need(missing: bool, step: StepDef, field: string): seq<Issue> {
    if missing then [MissingField(step.name, field)] else []
  }

  /** Field checks of one step; a parallel step checks its nested steps too. */
  function StepIssues(step: StepDef, declared: set<string>): seq<Issue> {
    match step.stepType
    case Cmd => Need(Blank(step.run), step, "run")
    case Script => Need(Blank(step.run), step, "run")
    case Agent => Need(Blank(step.prompt), step, "prompt")
    case Chat => Need(Blank(step.prompt), step, "prompt")
    case Gate => Need(Blank(step.condition), step, "condition")
    case Template => []
    case Parallel =>
      Need(step.steps.NoSubsteps? || step.steps.body == [], step, "steps") +
      (if step.steps.Substeps? then StepsIssues(step.steps.body, declared) else [])
    case _ =>
      (if step.scope.None? then [MissingField(step.name, "scope")]
       else if step.scope.value !in declared then [UnknownScope(step.name, step.scope.value)]
       else []) +
      (if step.stepType.Repeat? && step.maxIterations == Some(0) then [ZeroIterations(step.name)] else []) +
      Need(step.stepType.Map? && step.items.None?, step, "items")
  }

  function StepsIssues(steps: seq<StepDef>, declared: set<string>): seq<Issue> {
    if steps == [] then []
    else StepIssues(steps[0], declared) + StepsIssues(steps[1..], declared)
  }

  // ---------- which field problems are reported ----------

  /** A step of the list, or of the body of a parallel step among them, however deep. */
  ghost predicate Among(steps: seq<StepDef>, s: StepDef)
    decreases steps
  {
    exists k :: 0 <= k < |steps| && (steps[k] == s || NestedIn(steps[k], s))
  }

  ghost predicate NestedIn(step: StepDef, s: StepDef)
    decreases step
  {
    step.stepType.Parallel? && step.steps.Substeps? && Among(step.steps.body, s)
  }

  /** Nothing but white space, if anything. */
  ghost predicate NoText(text: Option<string>) {
    text.None? || forall k :: 0 <= k < |text.value| ==> IsWhitespace(text.value[k])
  }

  predicate RefersToScope(s: StepDef) {
    s.stepType.Call? || s.stepType.Repeat? || s.stepType.Map?
  }

  /** The fields that a step of this kind needs and lacks. */
  ghost predicate Lacks(s: StepDef, field: string) {
    || ((s.stepType.Cmd? || s.stepType.Script?) && NoText(s.run) && field == "run")
    || ((s.stepType.Agent? || s.stepType.Chat?) && NoText(s.prompt) && field == "prompt")
    || (s.stepType.Gate? && NoText(s.condition) && field == "condition")
    || (s.stepType.Parallel? && (s.steps.NoSubsteps? || s.steps.body == []) && field == "steps")
    || (RefersToScope(s) && s.scope.None? && field == "scope")
    || (s.stepType.Map? && s.items.None? && field == "items")
  }

  /** The problem that an issue reports is one of this very step. */
  ghost predicate Faulty(s: StepDef, declared: set<string>, e: Issue) {
    match e
    case MissingField(step, field) => step == s.name && Lacks(s, field)
    case UnknownScope(step, target) =>
      step == s.name && RefersToScope(s) && s.scope == Some(target) && target !in declared
    case ZeroIterations(step) => step == s.name && s.stepType.Repeat? && s.maxIterations == Some(0)
    case _ => false
  }

  lemma {:induction false} BlankIff(text: Option<string>)
    ensures Blank(text) <==> NoText(text)
  {
    if text.Some? {
      TrimEmptyIff(text.value);
    }
  }

  lemma {:induction false} OwnIssues(step: StepDef, declared: set<string>, e: Issue)
    ensures e in StepIssues(step, declared) <==>
            Faulty(step, declared, e) ||
            (step.stepType.Parallel? && step.steps.Substeps? && e in StepsIssues(step.steps.body, declared))
  {
    if RefersToScope(step) {
      ReferenceIssues(step, declared, e);
    } else {
      BlankIff(step.run);
      BlankIff(step.prompt);
      BlankIff(step.condition);
    }
  }

  lemma {:induction false} ReferenceIssues(step: StepDef, declared: set<string>, e: Issue)
    requires RefersToScope(step)
    ensures e in StepIssues(step, declared) <==> Faulty(step, declared, e)
  {
  }

  /** A field problem is reported exactly when some step, at any depth, has it. */
  lemma {:induction false} FieldIssueIff(steps: seq<StepDef>, declared: set<string>, e: Issue)
    ensures e in StepsIssues(steps, declared) <==> exists s :: Among(steps, s) && Faulty(s, declared, e)
    decreases steps
  {
    if steps != [] {
      OwnIssues(steps[0], declared, e);
      if steps[0].stepType.Parallel? && steps[0].steps.Substeps? {
        FieldIssueIff(steps[0].steps.body, declared, e);
      }
      FieldIssueIff(steps[1..], declared, e);
      forall s ensures Among(steps, s) <==> steps[0] == s || NestedIn(steps[0], s) || Among(steps[1..], s) {
        AmongFirst(steps, s);
      }
    }
  }

  lemma {:induction false} AmongFirst(steps: seq<StepDef>, s: StepDef)
    requires steps != []
    ensures Among(steps, s) <==> steps[0] == s || NestedIn(steps[0], s) || Among(steps[1..], s)
  {
    if k :| 0 <= k < |steps| && (steps[k] == s || NestedIn(steps[k], s)) {
      assert k > 0 ==> steps[1..][k - 1] == steps[k];
    }
    if k :| 0 <= k < |steps[1..]| && (steps[1..][k] == s || NestedIn(steps[1..][k], s)) {
      assert steps[k + 1] == steps[1..][k];
    }
  }

  /** `name` is carried by two different steps of the list. */
  ghost predicate Repeated(steps: seq<StepDef>, name: string) {
    exists i, j :: 0 <= i < j < |steps| && steps[i].name == name && steps[j].name == name
  }

  /** Names already seen, in order of a second sighting. */
  method DuplicateNames(steps: seq<StepDef>) returns (dups: seq<string>)
    ensures forall n :: n in dups <==> Repeated(steps, n)
  {
    var seen: set<string> := {};
    dups := [];
    for i := 0 to |steps|
      invariant forall n :: n in seen <==> exists k :: 0 <= k < i && steps[k].name == n
      invariant forall n :: n in dups <==> Repeated(steps[..i], n)
    {
      var name := steps[i].name;
      assert forall n :: Repeated(steps[..i], n) ==> Repeated(steps[..i + 1], n) by {
        forall n | Repeated(steps[..i], n) ensures Repeated(steps[..i + 1], n) {
          var a, b :| 0 <= a < b < i && steps[..i][a].name == n && steps[..i][b].name == n;
          assert steps[..i + 1][a].name == n && steps[..i + 1][b].name == n;
        }
      }
      if name in seen {
        var k :| 0 <= k < i && steps[k].name == name;
        assert steps[..i + 1][k].name == name && steps[..i + 1][i].name == name;
        dups := dups + [name];
      } else {
        seen := seen + {name};
      }
    }
    assert steps[..|steps|] == steps;
  }

  ghost predicate UniqueNames(steps: seq<StepDef>) {
    forall i, j :: 0 <= i < j < |steps| ==> steps[i].name != steps[j].name
  }

  lemma UniqueIffNoneRepeated(steps: seq<StepDef>)
    ensures UniqueNames(steps) <==> forall n :: !Repeated(steps, n)
  {
    if !UniqueNames(steps) {
      var i, j :| 0 <= i < j < |steps| && steps[i].name == steps[j].name;
      assert Repeated(steps, steps[i].name);
    }
  }

  predicate IsFieldIssue(e: Issue) {
    e.UnknownScope? || e.MissingField? || e.ZeroIterations?
  }

  lemma FieldIssuesOnly(steps: seq<StepDef>, declared: set<string>)
    ensures forall e :: e in StepsIssues(steps, declared) ==> IsFieldIssue(e)
  {
    if steps != [] {
      if steps[0].stepType.Parallel? && steps[0].steps.Substeps? {
        FieldIssuesOnly(steps[0].steps.body, declared);
      }
      FieldIssuesOnly(steps[1..], declared);
    }
  }

  /** An issue of the steps of one of these scopes. */
  ghost predicate InSomeBody(scopes: Scopes, names: set<string>, e: Issue) {
    exists s :: s in scopes && s in names && e in StepsIssues(scopes[s].steps, scopes.Keys)
  }

  /** Duplicate names and field problems of every scope body, scopes in arbitrary order. */
  method ScopeProblems(scopes: Scopes) returns (errors: seq<Issue>)
    ensures forall s, n :: DuplicateScopeStep(s, n) in errors <==> s in scopes && Repeated(scopes[s].steps, n)
    ensures forall e :: IsFieldIssue(e) ==> (e in errors <==> InSomeBody(scopes, scopes.Keys, e))
    ensures forall e :: e in errors ==> IsFieldIssue(e) || e.DuplicateScopeStep?
  {
    errors := [];
    var todo := scopes.Keys;
    while todo != {}
      invariant todo <= scopes.Keys
      invariant forall s, n :: DuplicateScopeStep(s, n) in errors <==>
                  s in scopes.Keys - todo && Repeated(scopes[s].steps, n)
      invariant forall e :: IsFieldIssue(e) ==> (e in errors <==> InSomeBody(scopes, scopes.Keys - todo, e))
      invariant forall e :: e in errors ==> IsFieldIssue(e) || e.DuplicateScopeStep?
    {
      var s :| s in todo;
      var dups := DuplicateNames(scopes[s].steps);
      var found := seq(|dups|, i requires 0 <= i < |dups| => DuplicateScopeStep(s, dups[i]));
      assert forall n :: DuplicateScopeStep(s, n) in found <==> n in dups by {
        forall n | n in dups ensures DuplicateScopeStep(s, n) in found {
          var k :| 0 <= k < |dups| && dups[k] == n;
          assert found[k] == DuplicateScopeStep(s, n);
        }
      }
      FieldIssuesOnly(scopes[s].steps, scopes.Keys);
      errors := errors + found + StepsIssues(scopes[s].steps, scopes.Keys);
      todo := todo - {s};
    }
  }

  lemma {:induction false} HasElement<T>(s: seq<T>)
    ensures s != [] ==> exists e :: e in s
  {
    if s != [] {
      assert s[0] in s;
    }
  }

  lemma {:induction false} NoDuplicates(steps: seq<StepDef>, dups: seq<string>)
    requires forall n :: n in dups <==> Repeated(steps, n)
    ensures dups == [] <==> UniqueNames(steps)
  {
    HasElement(dups);
    UniqueIffNoneRepeated(steps);
  }

  /** No problem is reported for the scope bodies exactly when all are free of duplicate names and field problems. */
  lemma {:induction false} NoBodyProblems(scopes: Scopes, errors: seq<Issue>)
    requires forall s, n :: DuplicateScopeStep(s, n) in errors <==> s in scopes && Repeated(scopes[s].steps, n)
    requires forall e :: IsFieldIssue(e) ==> (e in errors <==> InSomeBody(scopes, scopes.Keys, e))
    requires forall e :: e in errors ==> IsFieldIssue(e) || e.DuplicateScopeStep?
    ensures errors == [] <==>
            forall s :: s in scopes ==> UniqueNames(scopes[s].steps) && StepsIssues(scopes[s].steps, scopes.Keys) == []
  {
    forall s | s in scopes
      ensures UniqueNames(scopes[s].steps) <==> forall n :: !Repeated(scopes[s].steps, n)
      ensures forall e :: e in StepsIssues(scopes[s].steps, scopes.Keys) ==> IsFieldIssue(e)
    {
      UniqueIffNoneRepeated(scopes[s].steps);
      FieldIssuesOnly(scopes[s].steps, scopes.Keys);
    }
    if errors == [] {
      forall s | s in scopes ensures StepsIssues(scopes[s].steps, scopes.Keys) == [] {
        HasElement(StepsIssues(scopes[s].steps, scopes.Keys));
        assert forall e :: e in StepsIssues(scopes[s].steps, scopes.Keys) ==> InSomeBody(scopes, scopes.Keys, e);
      }
    } else {
      var e := errors[0];
      assert e in errors;
      assert e.DuplicateScopeStep? ==> e == DuplicateScopeStep(e.inScope, e.step);
    }
  }

  /** One fresh search per declared scope, in arbitrary order. */
  method CircularProblems(scopes: Scopes) returns (errors: seq<Issue>)
    ensures forall e :: e in errors <==> e.CircularScope? && e.scope in scopes && CycleFrom(scopes, {}, e.scope)
    ensures errors == [] <==> !Cyclic(scopes)
  {
    errors := [];
    var todo := scopes.Keys;
    while todo != {}
      invariant todo <= scopes.Keys
      invariant forall e :: e in errors <==>
                  e.CircularScope? && e.scope in scopes.Keys - todo && CycleFrom(scopes, {}, e.scope)
    {
      var s :| s in todo;
      var visited := new PathSet();
      var cyclic := HasCycle(s, scopes, visited);
      if cyclic {
        errors := errors + [CircularScope(s)];
      }
      todo := todo - {s};
    }
    HasElement(errors);
    ReportedIffCyclic(scopes);
    assert forall n :: n in scopes && CycleFrom(scopes, {}, n) ==> CircularScope(n) in errors;
  }

  function Flagged(names: seq<string>): (r: seq<Issue>)
    ensures |r| == |names| && forall e :: e in r <==> e.DuplicateStep? && e.step in names
  {
    if names == [] then [] else [DuplicateStep(names[0])] + Flagged(names[1..])
  }

  /** Each kind of issue comes from one of the four lists, field issues from the first two. */
  lemma {:induction false} Gathered(fields: seq<Issue>, bodies: seq<Issue>, dups: seq<Issue>, cycles: seq<Issue>)
    requires forall e :: e in fields ==> IsFieldIssue(e)
    requires forall e :: e in bodies ==> IsFieldIssue(e) || e.DuplicateScopeStep?
    requires forall e :: e in dups ==> e.DuplicateStep?
    requires forall e :: e in cycles ==> e.CircularScope?
    ensures var errors := fields + bodies + dups + cycles;
            && (forall n :: CircularScope(n) in errors <==> CircularScope(n) in cycles)
            && (forall n :: DuplicateStep(n) in errors <==> DuplicateStep(n) in dups)
            && (forall s, n :: DuplicateScopeStep(s, n) in errors <==> DuplicateScopeStep(s, n) in bodies)
            && (forall e :: IsFieldIssue(e) ==> (e in errors <==> e in fields || e in bodies))
            && (errors == [] <==> fields == [] && bodies == [] && dups == [] && cycles == [])
  {
  }

  /**
   * All problems of a workflow. Scopes are visited in an arbitrary order, so only membership is promised:
   * circularity and duplicate names are reported exactly where they occur.
   */
  method Validate(workflow: WorkflowDef) returns (errors: seq<Issue>)
    ensures forall n :: CircularScope(n) in errors <==>
              n in workflow.scopes && exists p :: Lasso(workflow.scopes, {}, n, p)
    ensures (exists n :: CircularScope(n) in errors) <==> Cyclic(workflow.scopes)
    ensures forall n :: DuplicateStep(n) in errors <==> Repeated(workflow.steps, n)
    ensures forall s, n :: DuplicateScopeStep(s, n) in errors <==>
              s in workflow.scopes && Repeated(workflow.scopes[s].steps, n)
    ensures forall e :: IsFieldIssue(e) ==>
              (e in errors <==>
                 e in StepsIssues(workflow.steps, workflow.scopes.Keys) ||
                   InSomeBody(workflow.scopes, workflow.scopes.Keys, e))
    ensures errors == [] <==>
              && !Cyclic(workflow.scopes)
              && UniqueNames(workflow.steps)
              && StepsIssues(workflow.steps, workflow.scopes.Keys) == []
              && forall s :: s in workflow.scopes ==>
                   UniqueNames(workflow.scopes[s].steps) &&
                     StepsIssues(workflow.scopes[s].steps, workflow.scopes.Keys) == []
  {
    var scopes := workflow.scopes;
    var fields := StepsIssues(workflow.steps, scopes.Keys);
    FieldIssuesOnly(workflow.steps, scopes.Keys);
    var bodies := ScopeProblems(scopes);
    var names := DuplicateNames(workflow.steps);
    var dups := Flagged(names);
    var cycles := CircularProblems(scopes);
    errors := fields + bodies + dups + cycles;
    Gathered(fields, bodies, dups, cycles);
    NoBodyProblems(scopes, bodies);
    NoDuplicates(workflow.steps, names);
    forall n {
      CycleFromExact(scopes, {}, n);
    }
    ReportedIffCyclic(scopes);
  }
}
