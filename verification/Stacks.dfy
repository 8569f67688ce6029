/** Technology stacks: inheritance along parent links, and the prompt file picked for a stack (src/prompts). */
module Stacks {
  import opened Prelude
  import opened ContextStore

  datatype StackDef = StackDef(parent: Option<string>, tools: map<string, string>)

  type Registry = map<string, StackDef>

  // ---------- parent links ----------

  function Parent(registry: Registry, name: string): Option<string> {
    if name in registry then registry[name].parent else None
  }

  /** The ancestor `n` links up, if the links go that far. */
  function Ancestor(registry: Registry, name: string, n: nat): Option<string> {
    if n == 0 then Some(name)
    else
      var below := Ancestor(registry, name, n - 1);
      if below.None? then None else Parent(registry, below.value)
  }

  /** No ancestor comes back. */
  ghost predicate Acyclic(registry: Registry, name: string) {
    forall i: nat, j: nat :: i < j && Ancestor(registry, name, i).Some? ==>
      Ancestor(registry, name, i) != Ancestor(registry, name, j)
  }

  lemma {:induction false} AncestorOfAncestor(registry: Registry, name: string, i: nat, k: nat)
    requires Ancestor(registry, name, i).Some?
    ensures Ancestor(registry, name, i + k) == Ancestor(registry, Ancestor(registry, name, i).value, k)
  {
    if k > 0 {
      AncestorOfAncestor(registry, name, i, k - 1);
    }
  }

  lemma {:induction false} AboveTheTop(registry: Registry, name: string, n: nat, m: nat)
    requires Ancestor(registry, name, n).None? && n <= m
    ensures Ancestor(registry, name, m).None?
  {
    if n < m {
      AboveTheTop(registry, name, n, m - 1);
    }
  }

  /** When the links end, no ancestor comes back: it would end earlier and earlier. */
  lemma {:induction false} EndingIsAcyclic(registry: Registry, name: string, n: nat, i: nat, j: nat)
    requires Ancestor(registry, name, n).None? && i < j && Ancestor(registry, name, i).Some?
    ensures Ancestor(registry, name, i) != Ancestor(registry, name, j)
    decreases n
  {
    if Ancestor(registry, name, i) == Ancestor(registry, name, j) {
      if n <= j {
        AboveTheTop(registry, name, n, j);
      } else {
        AncestorOfAncestor(registry, name, i, n - j);
        AncestorOfAncestor(registry, name, j, n - j);
        EndingIsAcyclic(registry, name, i + (n - j), i, j);
      }
    }
  }

  /** The first `i` ancestors. */
  ghost function Passed(registry: Registry, name: string, i: nat): set<string> {
    if i == 0 then {}
    else
      var below := Ancestor(registry, name, i - 1);
      Passed(registry, name, i - 1) + (if below.Some? then {below.value} else {})
  }

  lemma {:induction false} PassedAt(registry: Registry, name: string, i: nat, x: string) returns (k: nat)
    requires x in Passed(registry, name, i)
    ensures k < i && Ancestor(registry, name, k) == Some(x)
  {
    k := i - 1;
    if Ancestor(registry, name, i - 1) != Some(x) {
      k := PassedAt(registry, name, i - 1, x);
    }
  }

  /**
   * Ancestors that have a parent have entries of their own, all different; so there are not more of them than
   * entries.
   */
  lemma {:induction false} AcyclicEnds(registry: Registry, name: string, i: nat) returns (n: nat)
    requires Acyclic(registry, name) && Passed(registry, name, i) <= registry.Keys
    ensures Ancestor(registry, name, n).None? && n <= i + 1 + |registry.Keys - Passed(registry, name, i)|
    decreases registry.Keys - Passed(registry, name, i)
  {
    n := i + 1;
    if Ancestor(registry, name, n).Some? {
      var x := Ancestor(registry, name, i).value;
      if x in Passed(registry, name, i) {
        var k := PassedAt(registry, name, i, x);
        assert false;
      }
      var left := registry.Keys - Passed(registry, name, i);
      assert registry.Keys - Passed(registry, name, i + 1) == left - {x} && x in left;
      n := AcyclicEnds(registry, name, i + 1);
    }
  }

  /** The parent walk of a stack ends exactly when no ancestor comes back; on a cycle it would go on for ever. */
  lemma {:induction false} WalkEndsIffAcyclic(registry: Registry, name: string)
    ensures (exists n: nat :: Ancestor(registry, name, n).None?) <==> Acyclic(registry, name)
  {
    if n: nat :| Ancestor(registry, name, n).None? {
      forall i: nat, j: nat | i < j && Ancestor(registry, name, i).Some?
        ensures Ancestor(registry, name, i) != Ancestor(registry, name, j)
      {
        EndingIsAcyclic(registry, name, n, i, j);
      }
    }
    if Acyclic(registry, name) {
      var n := AcyclicEnds(registry, name, 0);
    }
  }

  /** As many links as there are stacks are enough to find out whether the walk ends. */
  lemma {:induction false} EnoughLinks(registry: Registry, name: string, links: nat)
    requires |registry| <= links
    ensures Ancestor(registry, name, links + 1).None? <==> Acyclic(registry, name)
  {
    if Acyclic(registry, name) {
      var n := AcyclicEnds(registry, name, 0);
      assert registry.Keys - {} == registry.Keys && |registry.Keys| == |registry|;
      AboveTheTop(registry, name, n, links + 1);
    } else {
      WalkEndsIffAcyclic(registry, name);
    }
  }

  // ---------- building the stack info ----------

  /** The whole line of ancestors, the stack itself first. */
  ghost predicate IsLine(registry: Registry, name: string, line: seq<string>) {
    && (forall k :: 0 <= k < |line| ==> Ancestor(registry, name, k) == Some(line[k]))
    && Ancestor(registry, name, |line|) == None
  }

  function Tools(registry: Registry, name: string): map<string, string> {
    if name in registry then registry[name].tools else map[]
  }

  /** The tool of the nearest stack in the line that defines it. */
  function NearestTool(registry: Registry, line: seq<string>, tool: string): Option<string> {
    if line == [] then None
    else OrElse(Lookup(Tools(registry, line[0]), tool), NearestTool(registry, line[1..], tool))
  }

  function Reversed(s: seq<string>): seq<string> {
    if s == [] then [] else Reversed(s[1..]) + [s[0]]
  }

  /** Tools merged one stack after the other; later ones win. */
  function Merged(registry: Registry, stacks: seq<string>): map<string, string> {
    if stacks == [] then map[] else Merged(registry, stacks[..|stacks| - 1]) + Tools(registry, Last(stacks))
  }

  /** Merging from the root down answers like the lookup from the nearest stack up. */
  lemma {:induction false} MergedIsNearest(registry: Registry, line: seq<string>, tool: string)
    ensures Lookup(Merged(registry, Reversed(line)), tool) == NearestTool(registry, line, tool)
    decreases |line|
  {
    if line != [] {
      var stacks := Reversed(line[1..]) + [line[0]];
      assert stacks[..|stacks| - 1] == Reversed(line[1..]) && Last(stacks) == line[0];
      MergedIsNearest(registry, line[1..], tool);
    }
  }

  lemma {:induction false} LineIsDistinct(registry: Registry, name: string, line: seq<string>)
    requires IsLine(registry, name, line)
    ensures Distinct(line)
  {
    forall i, j | 0 <= i < j < |line| ensures line[i] != line[j] {
      EndingIsAcyclic(registry, name, |line|, i, j);
    }
  }

  /**
   * Walks up the parent links, then merges the tools from the root down. The walk has no end of its own on a cycle, so
   * it is given a number of links to follow, and there is no result when it would still be walking then. Given at least
   * as many links as there are stacks, that happens exactly when the walk would never end.
   */
  method BuildStackInfo(registry: Registry, name: string, links: nat) returns (result: Option<StackInfo>)
    ensures result.None? <==> Ancestor(registry, name, links + 1).Some?
    ensures |registry| <= links ==> (result.None? <==> !Acyclic(registry, name))
    ensures result.Some? ==>
              var info := result.value;
              && info.name == name && IsLine(registry, name, [name] + info.parentChain) &&
                 Distinct([name] + info.parentChain)
              && forall tool :: Lookup(info.tools, tool) == NearestTool(registry, [name] + info.parentChain, tool)
  {
    var walked := WalkParents(registry, name, links);
    if |registry| <= links {
      EnoughLinks(registry, name, links);
    }
    if walked.None? {
      return None;
    }
    var parentChain := walked.value;
    var line := [name] + parentChain;
    LineIsDistinct(registry, name, line);
    var fullChain := Reversed(line);
    var tools: map<string, string> := map[];
    for i := 0 to |fullChain|
      invariant tools == Merged(registry, fullChain[..i])
    {
      assert fullChain[..i + 1][..i] == fullChain[..i] && Last(fullChain[..i + 1]) == fullChain[i];
      if fullChain[i] in registry {
        tools := tools + registry[fullChain[i]].tools;
      }
    }
    assert fullChain[..|fullChain|] == fullChain;
    forall tool ensures Lookup(tools, tool) == NearestTool(registry, line, tool) {
      MergedIsNearest(registry, line, tool);
    }
    result := Some(StackInfo(name, parentChain, tools));
  }

  method WalkParents(registry: Registry, name: string, links: nat) returns (result: Option<seq<string>>)
    ensures result.None? <==> Ancestor(registry, name, links + 1).Some?
    ensures result.Some? ==> IsLine(registry, name, [name] + result.value)
  {
    var parentChain: seq<string> := [];
    var current := Parent(registry, name);
    assert Ancestor(registry, name, 0) == Some(name);
    while current.Some?
      invariant forall k :: 0 <= k <= |parentChain| ==> Ancestor(registry, name, k) == Some(([name] + parentChain)[k])
      invariant current == Ancestor(registry, name, |parentChain| + 1) && |parentChain| <= links
      decreases links - |parentChain|
    {
      if |parentChain| == links {
        return None;
      }
      parentChain := parentChain + [current.value];
      current := Parent(registry, current.value);
    }
    AboveTheTop(registry, name, |parentChain| + 1, links + 1);
    return Some(parentChain);
  }

  /** A stack that is its own parent: the walk is never over, however far it is followed. */
  lemma {:induction false} OwnParentNeverEnds(tools: map<string, string>, n: nat)
    ensures Ancestor(map["a" := StackDef(Some("a"), tools)], "a", n) == Some("a")
    ensures !Acyclic(map["a" := StackDef(Some("a"), tools)], "a")
  {
    var registry := map["a" := StackDef(Some("a"), tools)];
    assert Ancestor(registry, "a", 0) == Some("a") && Ancestor(registry, "a", 1) == Some("a");
    if n > 0 {
      OwnParentNeverEnds(tools, n - 1);
    }
  }

  // ---------- picking a prompt file ----------

  datatype PromptError = CircularChain(candidates: seq<string>) | NoPrompt

  type Resolved = Result<string, PromptError>

  function PromptPath(dir: string, fn: string, name: string): string {
    dir + "/" + fn + "/" + name + ".md.tera"
  }

  /** The first candidate whose file exists, else the default file. */
  function Pick(dir: string, fn: string, candidates: seq<string>, isFile: string -> bool): Resolved {
    if candidates == [] then
      (if isFile(PromptPath(dir, fn, "_default")) then Ok(PromptPath(dir, fn, "_default")) else Err(NoPrompt))
    else if isFile(PromptPath(dir, fn, candidates[0])) then Ok(PromptPath(dir, fn, candidates[0]))
    else Pick(dir, fn, candidates[1..], isFile)
  }

  /** The file of the `k`th candidate; the default file comes behind all of them. */
  function FileOf(dir: string, fn: string, candidates: seq<string>, k: nat): string
    requires k <= |candidates|
  {
    dir + "/" + fn + "/" + (if k < |candidates| then candidates[k] else "_default") + ".md.tera"
  }

  /** The pick is the first of these files that exists; it fails exactly when none does. */
  lemma {:induction false} PickIs(dir: string, fn: string, candidates: seq<string>, isFile: string -> bool)
    returns (k: nat)
    ensures k <= |candidates| && forall j: nat :: j < k ==> !isFile(FileOf(dir, fn, candidates, j))
    ensures match Pick(dir, fn, candidates, isFile)
            case Ok(path) => path == FileOf(dir, fn, candidates, k) && isFile(path)
            case Err(e) => k == |candidates| && !isFile(FileOf(dir, fn, candidates, k)) && e == NoPrompt
    decreases |candidates|
  {
    k := 0;
    if candidates != [] && !isFile(PromptPath(dir, fn, candidates[0])) {
      var i := PickIs(dir, fn, candidates[1..], isFile);
      k := i + 1;
      assert FileOf(dir, fn, candidates, k) == FileOf(dir, fn, candidates[1..], i);
      forall j: nat | j < k ensures !isFile(FileOf(dir, fn, candidates, j)) {
        if j > 0 {
          assert FileOf(dir, fn, candidates, j) == FileOf(dir, fn, candidates[1..], j - 1);
        }
      }
    }
  }

  /** Picking after a check for repeated candidates. */
  ghost function Checked(dir: string, fn: string, candidates: seq<string>, isFile: string -> bool): Resolved {
    if Distinct(candidates) then Pick(dir, fn, candidates, isFile) else Err(CircularChain(candidates))
  }

  method FirstExisting(dir: string, fn: string, candidates: seq<string>, isFile: string -> bool) returns (r: Resolved)
    ensures r == Pick(dir, fn, candidates, isFile)
  {
    for i := 0 to |candidates|
      invariant Pick(dir, fn, candidates, isFile) == Pick(dir, fn, candidates[i..], isFile)
    {
      assert candidates[i..][1..] == candidates[i + 1..];
      var path := PromptPath(dir, fn, candidates[i]);
      if isFile(path) {
        return Ok(path);
      }
    }
    var path := PromptPath(dir, fn, "_default");
    r := if isFile(path) then Ok(path) else Err(NoPrompt);
  }

  /** The resolver of the prompt module: it looks for repeated candidates before it looks for files. */
  method Resolve(fn: string, stack: StackInfo, dir: string, isFile: string -> bool) returns (r: Resolved)
    ensures r == Checked(dir, fn, [stack.name] + stack.parentChain, isFile)
  {
    var candidates := [stack.name] + stack.parentChain;
    var seen: set<string> := {};
    for i := 0 to |candidates|
      invariant Distinct(candidates[..i]) && forall x :: x in seen <==> x in candidates[..i]
    {
      if candidates[i] in seen {
        var j :| 0 <= j < i && candidates[..i][j] == candidates[i];
        assert candidates[j] == candidates[i];
        return Err(CircularChain(candidates));
      }
      assert candidates[..i + 1] == candidates[..i] + [candidates[i]];
      seen := seen + {candidates[i]};
    }
    assert candidates[..|candidates|] == candidates;
    r := FirstExisting(dir, fn, candidates, isFile);
  }

  /** The synchronous resolver of the template preprocessor: no check, the same search. */
  method ResolveSync(fn: string, stack: StackInfo, dir: string, isFile: string -> bool) returns (r: Resolved)
    ensures r == Pick(dir, fn, [stack.name] + stack.parentChain, isFile)
  {
    var candidates := [stack.name];
    for i := 0 to |stack.parentChain|
      invariant candidates == [stack.name] + stack.parentChain[..i]
    {
      assert stack.parentChain[..i + 1] == stack.parentChain[..i] + [stack.parentChain[i]];
      candidates := candidates + [stack.parentChain[i]];
    }
    assert stack.parentChain[..|stack.parentChain|] == stack.parentChain;
    r := FirstExisting(dir, fn, candidates, isFile);
  }

  lemma {:induction false} PickNeverCircular(dir: string, fn: string, candidates: seq<string>, isFile: string -> bool)
    ensures var r := Pick(dir, fn, candidates, isFile); r.Err? ==> r.error == NoPrompt
    decreases |candidates|
  {
    if candidates != [] {
      PickNeverCircular(dir, fn, candidates[1..], isFile);
    }
  }

  /** The two resolvers give the same answer, for any set of files, exactly when no candidate is repeated. */
  lemma {:induction false} ResolversAgreeIff(fn: string, stack: StackInfo, dir: string, isFile: string -> bool)
    ensures Checked(dir, fn, [stack.name] + stack.parentChain, isFile) ==
            Pick(dir, fn, [stack.name] + stack.parentChain, isFile)
            <==> Distinct([stack.name] + stack.parentChain)
  {
    PickNeverCircular(dir, fn, [stack.name] + stack.parentChain, isFile);
  }

  /** For a stack that was built from the registry they always agree, and no circular chain is ever reported. */
  lemma {:induction false} DetectedNeverCircular(registry: Registry, fn: string, stack: StackInfo, dir: string,
      isFile: string -> bool)
    requires IsLine(registry, stack.name, [stack.name] + stack.parentChain)
    ensures var candidates := [stack.name] + stack.parentChain;
            && Checked(dir, fn, candidates, isFile) == Pick(dir, fn, candidates, isFile)
            && Checked(dir, fn, candidates, isFile) != Err(CircularChain(candidates))
  {
    LineIsDistinct(registry, stack.name, [stack.name] + stack.parentChain);
    PickNeverCircular(dir, fn, [stack.name] + stack.parentChain, isFile);
  }
}
