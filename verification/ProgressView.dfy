/** The incremental progress view over session-log snapshots (src/cli/commands.rs). */
module ProgressView {
  import opened Prelude

  datatype Streams = Streams(stdout: string, stderr: string)

  datatype ScopeContext = ScopeContext(container: string, iteration: nat)

  /** A session event; `Other` is any kind that the view ignores, `Unreadable` a payload that does not decode. */
  datatype Event =
    | StepCompleted(name: string, stepType: string, output: Option<Streams>,
      scope: Option<ScopeContext>, gate: Option<string>)
    | Other
    | Unreadable

  datatype Entry = Entry(number: int, event: Event)

  datatype Line =
    | IterationHeader(n: nat)
    | GateLine(name: string, outcome: string)
    | StepLine(name: string)
    | OutputLine(output: Streams)

  datatype View = View(lastSeq: int, iteration: Option<ScopeContext>, pending: Option<Streams>)

  // ---------- one event ----------

  function Header(iteration: Option<ScopeContext>, scope: ScopeContext): seq<Line> {
    if iteration == Some(scope) then [] else [IterationHeader(scope.iteration)]
  }

  function Shown(verbose: bool, v: View, event: Event): seq<Line> {
    if event.StepCompleted? && event.scope.Some? then
      Header(v.iteration, event.scope.value) +
      [if event.gate.Some? then GateLine(event.name, event.gate.value) else StepLine(event.name)] +
      (if verbose && event.output.Some? then [OutputLine(event.output.value)] else [])
    else []
  }

  function Next(verbose: bool, v: View, e: Entry): View {
    var w := v.(lastSeq := e.number);
    if !e.event.StepCompleted? then w
    else if e.event.scope.Some? then w.(iteration := e.event.scope)
    else w.(iteration := None, pending := if verbose && e.event.stepType == "cmd" then e.event.output else w.pending)
  }

  /** The view after some entries, and the lines they print. */
  function Pass(verbose: bool, v: View, entries: seq<Entry>): (View, seq<Line>) {
    if entries == [] then (v, [])
    else
      var (w, lines) := Pass(verbose, v, entries[..|entries| - 1]);
      (Next(verbose, w, Last(entries)), lines + Shown(verbose, w, Last(entries).event))
  }

  /** Entries numbered above a bound. */
  function Above(entries: seq<Entry>, bound: int): seq<Entry> {
    if entries == [] then []
    else Above(entries[..|entries| - 1], bound) + (if Last(entries).number > bound then [Last(entries)] else [])
  }

  lemma {:induction false} PassMore(verbose: bool, v: View, entries: seq<Entry>, e: Entry)
    ensures var (w, lines) := Pass(verbose, v, entries);
            Pass(verbose, v, entries + [e]) == (Next(verbose, w, e), lines + Shown(verbose, w, e.event))
  {
    assert (entries + [e])[..|entries|] == entries;
  }

  class ScopeProgressView {
    const verbose: bool
    var lastSeq: int
    var currentIteration: Option<ScopeContext>
    var pendingTopLevel: Option<Streams>

    constructor (verbose: bool)
      ensures this.verbose == verbose && State() == View(0, None, None)
    {
      this.verbose := verbose;
      lastSeq, currentIteration, pendingTopLevel := 0, None, None;
    }

    function State(): View
      reads this
    {
      View(lastSeq, currentIteration, pendingTopLevel)
    }

    method PrintIterationHeader(scope: ScopeContext) returns (lines: seq<Line>)
      modifies this
      ensures State() == old(State()).(iteration := Some(scope)) && lines == Header(old(currentIteration), scope)
    {
      lines := [];
      if currentIteration != Some(scope) {
        lines := [IterationHeader(scope.iteration)];
        currentIteration := Some(scope);
      }
    }

    method RenderEntry(e: Entry) returns (lines: seq<Line>)
      modifies this
      ensures State() == Next(verbose, old(State()), e) && lines == Shown(verbose, old(State()), e.event)
    {
      lines := [];
      lastSeq := e.number;
      match e.event {
        case StepCompleted(name, stepType, output, scope, gate) =>
          if scope.Some? {
            lines := PrintIterationHeader(scope.value);
            lines := lines + [if gate.Some? then GateLine(name, gate.value) else StepLine(name)];
            if verbose && output.Some? {
              lines := lines + [OutputLine(output.value)];
            }
          } else {
            currentIteration := None;
            if verbose && stepType == "cmd" {
              pendingTopLevel := output;
            }
          }
        case _ =>
      }
    }

    /** Prints what is new in a snapshot of the log. */
    method RenderNew(snapshot: seq<Entry>) returns (lines: seq<Line>)
      modifies this
      ensures (State(), lines) == Pass(verbose, old(State()), Above(snapshot, old(lastSeq)))
    {
      lines := [];
      var seen := lastSeq;
      for i := 0 to |snapshot|
        invariant (State(), lines) == Pass(verbose, old(State()), Above(snapshot[..i], seen))
      {
        assert snapshot[..i + 1][..i] == snapshot[..i] && Last(snapshot[..i + 1]) == snapshot[i];
        assert Above(snapshot[..i], seen) + [] == Above(snapshot[..i], seen);
        if snapshot[i].number > seen {
          PassMore(verbose, old(State()), Above(snapshot[..i], seen), snapshot[i]);
          var more := RenderEntry(snapshot[i]);
          lines := lines + more;
        }
      }
      assert snapshot[..|snapshot|] == snapshot;
    }

    /** Prints the output kept back for the last top-level command, once. */
    method FlushTopLevelOutput() returns (lines: seq<Line>)
      modifies this
      ensures State() == old(State()).(pending := None)
      ensures lines == if old(pendingTopLevel).Some? then [OutputLine(old(pendingTopLevel).value)] else []
    {
      lines := [];
      if pendingTopLevel.Some? {
        lines := [OutputLine(pendingTopLevel.value)];
        pendingTopLevel := None;
      }
    }
  }

  // ---------- what one pass shows ----------

  /** The last completed step among the first `k` entries ran in this scope; before the first one there is none. */
  ghost predicate LastScope(entries: seq<Entry>, k: nat, scope: Option<ScopeContext>)
    requires k <= |entries|
  {
    || (scope.None? && forall j: nat :: j < k ==> !entries[j].event.StepCompleted?)
    || exists j: nat :: j < k && LastStepAt(entries, k, j) && entries[j].event.scope == scope
  }

  ghost predicate LastStepAt(entries: seq<Entry>, k: nat, j: nat)
    requires j < k <= |entries|
  {
    entries[j].event.StepCompleted? && forall i: nat :: j < i < k ==> !entries[i].event.StepCompleted?
  }

  /** The output kept back: that of the last command at the top level, and only in verbose mode. */
  ghost predicate KeptBack(verbose: bool, entries: seq<Entry>, k: nat, pending: Option<Streams>)
    requires k <= |entries|
  {
    || (pending.None? && forall j: nat :: j < k ==> !KeepsBack(verbose, entries[j].event))
    || exists j: nat ::
         j < k && LastCommandAt(verbose, entries, k, j) && entries[j].event.output == pending
  }

  ghost predicate KeepsBack(verbose: bool, event: Event) {
    verbose && event.StepCompleted? && event.scope.None? && event.stepType == "cmd"
  }

  ghost predicate LastCommandAt(verbose: bool, entries: seq<Entry>, k: nat, j: nat)
    requires j < k <= |entries|
  {
    KeepsBack(verbose, entries[j].event) && forall i: nat :: j < i < k ==> !KeepsBack(verbose, entries[i].event)
  }

  /** The lines of one event behind a step in `before`. */
  ghost predicate Prints(verbose: bool, before: Option<ScopeContext>, event: Event, lines: seq<Line>) {
    match event
    case StepCompleted(name, _, output, Some(scope), gate) =>
      exists header, text ::
        && lines == header + [text] + (if verbose && output.Some? then [OutputLine(output.value)] else [])
        && header == (if before == Some(scope) then [] else [IterationHeader(scope.iteration)])
        && (match gate case Some(outcome) => text == GateLine(name, outcome) case None => text == StepLine(name))
    case _ => lines == []
  }

  lemma {:induction false} ShownPrints(verbose: bool, v: View, event: Event)
    ensures Prints(verbose, v.iteration, event, Shown(verbose, v, event))
  {
    if event.StepCompleted? && event.scope.Some? {
      var text := if event.gate.Some? then GateLine(event.name, event.gate.value) else StepLine(event.name);
      var output := if verbose && event.output.Some? then [OutputLine(event.output.value)] else [];
      assert Shown(verbose, v, event) == Header(v.iteration, event.scope.value) + [text] + output;
    }
  }

  /** The state of a view that has gone through the first `k` entries. */
  ghost predicate Followed(verbose: bool, entries: seq<Entry>, k: nat, v: View)
    requires k <= |entries|
  {
    && v.lastSeq == (if k == 0 then 0 else entries[k - 1].number)
    && LastScope(entries, k, v.iteration) && KeptBack(verbose, entries, k, v.pending)
  }

  lemma {:induction false} ScopeFollows(verbose: bool, entries: seq<Entry>, k: nat, v: View)
    requires k < |entries| && LastScope(entries, k, v.iteration)
    ensures LastScope(entries, k + 1, Next(verbose, v, entries[k]).iteration)
  {
    if entries[k].event.StepCompleted? {
      assert LastStepAt(entries, k + 1, k);
    } else if j: nat :| j < k && LastStepAt(entries, k, j) && entries[j].event.scope == v.iteration {
      assert LastStepAt(entries, k + 1, j);
    }
  }

  lemma {:induction false} PendingFollows(verbose: bool, entries: seq<Entry>, k: nat, v: View)
    requires k < |entries| && KeptBack(verbose, entries, k, v.pending)
    ensures KeptBack(verbose, entries, k + 1, Next(verbose, v, entries[k]).pending)
  {
    if KeepsBack(verbose, entries[k].event) {
      assert LastCommandAt(verbose, entries, k + 1, k);
    } else if j: nat :| j < k && LastCommandAt(verbose, entries, k, j) && entries[j].event.output == v.pending {
      assert LastCommandAt(verbose, entries, k + 1, j);
    }
  }

  /** One pass of a fresh view: its state behind each entry, and what each entry adds to the lines. */
  lemma {:induction false} PassFollows(verbose: bool, entries: seq<Entry>, k: nat)
    requires k <= |entries|
    ensures Followed(verbose, entries, k, Pass(verbose, View(0, None, None), entries[..k]).0)
  {
    if k > 0 {
      var v := Pass(verbose, View(0, None, None), entries[..k - 1]).0;
      PassFollows(verbose, entries, k - 1);
      assert entries[..k][..k - 1] == entries[..k - 1] && Last(entries[..k]) == entries[k - 1];
      ScopeFollows(verbose, entries, k - 1, v);
      PendingFollows(verbose, entries, k - 1, v);
    }
  }

  /**
   * One pass of a fresh view prints each completed step of a scope behind a header, unless the last completed step
   * before was of the same iteration of the same container.
   */
  lemma {:induction false} PassPrints(verbose: bool, entries: seq<Entry>, k: nat)
    returns (before: Option<ScopeContext>, lines: seq<Line>)
    requires k < |entries|
    ensures LastScope(entries, k, before) && Prints(verbose, before, entries[k].event, lines)
    ensures Pass(verbose, View(0, None, None), entries[..k + 1]).1 ==
            Pass(verbose, View(0, None, None), entries[..k]).1 + lines
  {
    var v := Pass(verbose, View(0, None, None), entries[..k]).0;
    PassFollows(verbose, entries, k);
    ShownPrints(verbose, v, entries[k].event);
    assert entries[..k + 1][..k] == entries[..k] && Last(entries[..k + 1]) == entries[k];
    before, lines := v.iteration, Shown(verbose, v, entries[k].event);
  }

  // ---------- incremental equals one pass ----------

  /** What the run loop does with the view: render a snapshot, that is a prefix of the log, or flush. */
  datatype Op = Render(upTo: nat) | Flush

  predicate UpTo(ops: seq<Op>, n: nat) {
    forall k :: 0 <= k < |ops| && ops[k].Render? ==> ops[k].upTo <= n
  }

  /** Length of the longest snapshot rendered. */
  function Longest(ops: seq<Op>): nat {
    if ops == [] then 0
    else
      var front := Longest(ops[..|ops| - 1]);
      if Last(ops).Render? then Max(front, Last(ops).upTo) else front
  }

  /** Entries that a series of operations renders, and the number of the last one. */
  function Rendered(log: seq<Entry>, ops: seq<Op>): (r: (int, seq<Entry>))
    requires UpTo(ops, |log|)
  {
    if ops == [] then (0, [])
    else
      var (last, entries) := Rendered(log, ops[..|ops| - 1]);
      if Last(ops).Flush? then (last, entries)
      else
        var unseen := Above(log[..Last(ops).upTo], last);
        (if unseen == [] then last else Last(unseen).number, entries + unseen)
  }

  /** The view after a series of operations and the lines its renderings print. */
  function Run(verbose: bool, log: seq<Entry>, ops: seq<Op>): (View, seq<Line>)
    requires UpTo(ops, |log|)
  {
    if ops == [] then (View(0, None, None), [])
    else
      var (v, lines) := Run(verbose, log, ops[..|ops| - 1]);
      if Last(ops).Flush? then (v.(pending := None), lines)
      else
        var (w, more) := Pass(verbose, v, Above(log[..Last(ops).upTo], v.lastSeq));
        (w, lines + more)
  }

  /** The positive numbers of the log strictly increase. */
  ghost predicate Ordered(log: seq<Entry>) {
    forall i, j :: 0 <= i < j < |log| && log[i].number > 0 && log[j].number > 0 ==> log[i].number < log[j].number
  }

  lemma {:induction false} AboveAppend(a: seq<Entry>, b: seq<Entry>, bound: int)
    ensures Above(a + b, bound) == Above(a, bound) + Above(b, bound)
    decreases |b|
  {
    if b == [] {
      assert a + b == a;
    } else {
      assert (a + b)[..|a + b| - 1] == a + b[..|b| - 1];
      AboveAppend(a, b[..|b| - 1], bound);
    }
  }

  lemma {:induction false} AboveAll(entries: seq<Entry>, bound: int, bound': int)
    requires forall k :: 0 <= k < |entries| ==> (entries[k].number > bound <==> entries[k].number > bound')
    ensures Above(entries, bound) == Above(entries, bound')
    decreases |entries|
  {
    if entries != [] {
      AboveAll(entries[..|entries| - 1], bound, bound');
    }
  }

  lemma {:induction false} AboveNone(entries: seq<Entry>, bound: int)
    requires forall k :: 0 <= k < |entries| ==> entries[k].number <= bound
    ensures Above(entries, bound) == []
    decreases |entries|
  {
    if entries != [] {
      AboveNone(entries[..|entries| - 1], bound);
    }
  }

  /** The number of the last positive entry, 0 without one. */
  function LastPositive(entries: seq<Entry>): (n: int)
    ensures n >= 0
  {
    if entries == [] then 0
    else if Last(entries).number > 0 then Last(entries).number
    else LastPositive(entries[..|entries| - 1])
  }

  lemma {:induction false} LastPositiveIs(entries: seq<Entry>)
    ensures Above(entries, 0) == [] <==> LastPositive(entries) == 0
    ensures Above(entries, 0) != [] ==> Last(Above(entries, 0)).number == LastPositive(entries)
    ensures LastPositive(entries) > 0 ==> exists k :: 0 <= k < |entries| && entries[k].number == LastPositive(entries)
    ensures Ordered(entries) ==> forall k :: 0 <= k < |entries| ==> entries[k].number <= LastPositive(entries)
    decreases |entries|
  {
    if entries != [] {
      LastPositiveIs(entries[..|entries| - 1]);
    }
  }

  /** No number of a snapshot exceeds its last positive one. */
  lemma {:induction false} SnapshotBounded(log: seq<Entry>, m: nat, i: nat)
    requires Ordered(log) && i < m <= |log|
    ensures log[i].number <= LastPositive(log[..m])
  {
    assert Ordered(log[..m]);
    LastPositiveIs(log[..m]);
    assert log[..m][i] == log[i];
  }

  /** A positive number behind a snapshot exceeds all numbers in it. */
  lemma {:induction false} RestExceeds(log: seq<Entry>, m: nat, i: nat)
    requires Ordered(log) && m <= i < |log| && log[i].number > 0
    ensures log[i].number > LastPositive(log[..m])
  {
    LastPositiveIs(log[..m]);
    if LastPositive(log[..m]) > 0 {
      var k :| 0 <= k < m && log[..m][k].number == LastPositive(log[..m]);
      assert log[..m][k] == log[k];
    }
  }

  /** After a snapshot of length `m`, a snapshot of length `k` brings the positive entries in between. */
  lemma {:induction false} FreshIsTheRest(log: seq<Entry>, m: nat, k: nat)
    requires Ordered(log) && m <= |log| && k <= |log|
    ensures Above(log[..k], LastPositive(log[..m])) == if k <= m then [] else Above(log[m..k], 0)
  {
    var bound := LastPositive(log[..m]);
    forall i: nat | i < m ensures log[i].number <= bound {
      SnapshotBounded(log, m, i);
    }
    if k <= m {
      AboveNone(log[..k], bound);
    } else {
      assert log[..k] == log[..m] + log[m..k];
      AboveAppend(log[..m], log[m..k], bound);
      AboveNone(log[..m], bound);
      forall i | 0 <= i < k - m ensures log[m..k][i].number > 0 <==> log[m..k][i].number > bound {
        if log[m + i].number > 0 {
          RestExceeds(log, m, m + i);
        }
      }
      AboveAll(log[m..k], bound, 0);
    }
  }

  lemma {:induction false} RenderStep(log: seq<Entry>, m: nat, k: nat)
    requires Ordered(log) && m <= |log| && k <= |log|
    ensures var last, n := LastPositive(log[..m]), Max(m, k);
            var unseen := Above(log[..k], last);
            && (if unseen == [] then last else Last(unseen).number) == LastPositive(log[..n])
            && Above(log[..m], 0) + unseen == Above(log[..n], 0)
  {
    FreshIsTheRest(log, m, k);
    if k > m {
      assert log[..k] == log[..m] + log[m..k];
      AboveAppend(log[..m], log[m..k], 0);
      LastPositiveIs(log[..m]);
      LastPositiveIs(log[..k]);
      LastOfAppend(Above(log[..m], 0), Above(log[m..k], 0));
    }
  }

  lemma {:induction false} LastOfAppend<T>(a: seq<T>, b: seq<T>)
    ensures b != [] ==> Last(a + b) == Last(b)
    ensures b == [] ==> a + b == a
  {
  }

  lemma {:induction false} OrderedRendered(log: seq<Entry>, ops: seq<Op>)
    requires Ordered(log) && UpTo(ops, |log|)
    ensures Longest(ops) <= |log|
    ensures Rendered(log, ops) == (LastPositive(log[..Longest(ops)]), Above(log[..Longest(ops)], 0))
    decreases |ops|
  {
    if ops != [] {
      var front := ops[..|ops| - 1];
      OrderedRendered(log, front);
      if Last(ops).Render? {
        RenderStep(log, Longest(front), Last(ops).upTo);
      }
    }
  }

  /** Two entries out of order are told apart by rendering up to the second one first. */
  lemma {:induction false} DisorderShows(log: seq<Entry>, i: nat, j: nat)
    requires i < j < |log| && log[i].number > 0 && log[j].number > 0 && log[i].number >= log[j].number
    requires Ordered(log[..j])
    ensures Rendered(log, [Render(j), Render(j + 1)]).1 != Above(log[..j + 1], 0)
  {
    var ops := [Render(j), Render(j + 1)];
    var before := log[..j];
    var first := Above(before, 0);
    LastPositiveIs(before);
    assert before[i] == log[i];
    var bound := LastPositive(before);
    assert ops[..1] == [Render(j)] && [Render(j)][..0] == [];
    assert Rendered(log, [Render(j)]) == (bound, first) by {
      assert Rendered(log, []) == (0, []) && [] + first == first;
    }
    assert log[..j + 1] == before + [log[j]];
    AboveAppend(before, [log[j]], bound);
    AboveAppend(before, [log[j]], 0);
    AboveNone(before, bound);
    AboveNone([log[j]], bound);
    assert [log[j]][..0] == [];
    assert Rendered(log, ops).1 == first + [];
    assert |Above(log[..j + 1], 0)| == |first| + 1;
  }

  /**
   * The incremental view renders exactly the entries of one pass over the longest snapshot, whatever snapshots it is
   * given, if and only if the positive numbers of the log strictly increase.
   */
  lemma {:induction false} IncrementalIffOrdered(log: seq<Entry>)
    ensures (forall ops :: UpTo(ops, |log|) ==>
            Longest(ops) <= |log| && Rendered(log, ops).1 == Above(log[..Longest(ops)], 0))
            <==> Ordered(log)
  {
    if Ordered(log) {
      forall ops | UpTo(ops, |log|)
        ensures Longest(ops) <= |log| && Rendered(log, ops).1 == Above(log[..Longest(ops)], 0)
      {
        OrderedRendered(log, ops);
      }
    } else {
      var i, j := FirstDisorder(log, |log|);
      DisorderShows(log, i, j);
      LongestOfTwo(j);
      assert UpTo([Render(j), Render(j + 1)], |log|);
    }
  }

  lemma {:induction false} LongestOfTwo(j: nat)
    ensures Longest([Render(j), Render(j + 1)]) == j + 1
  {
    var ops := [Render(j), Render(j + 1)];
    assert ops[..1] == [Render(j)] && [Render(j)][..0] == [];
    assert Longest([Render(j)]) == j;
  }

  lemma {:induction false} FirstDisorder(log: seq<Entry>, n: nat) returns (i: nat, j: nat)
    requires n <= |log| && !Ordered(log[..n])
    ensures i < j < n && log[i].number > 0 && log[j].number > 0 && log[i].number >= log[j].number && Ordered(log[..j])
  {
    if Ordered(log[..n - 1]) {
      assert forall k :: 0 <= k < n - 1 ==> log[..n - 1][k] == log[..n][k];
      i, j :| 0 <= i < j < n && log[..n][i].number > 0 && log[..n][j].number > 0 &&
        log[..n][i].number >= log[..n][j].number;
    } else {
      i, j := FirstDisorder(log, n - 1);
    }
  }

  lemma {:induction false} PassAppend(verbose: bool, v: View, a: seq<Entry>, b: seq<Entry>)
    ensures var (w, lines) := Pass(verbose, v, a);
            Pass(verbose, v, a + b) == (Pass(verbose, w, b).0, lines + Pass(verbose, w, b).1)
    decreases |b|
  {
    if b == [] {
      assert a + b == a && Pass(verbose, v, a).1 + [] == Pass(verbose, v, a).1;
    } else {
      var front := b[..|b| - 1];
      assert (a + b)[..|a + b| - 1] == a + front && Last(a + b) == Last(b);
      PassAppend(verbose, v, a, front);
      var (w, lines) := Pass(verbose, v, a);
      var (x, more) := Pass(verbose, w, front);
      Assoc(lines, more, Shown(verbose, x, Last(b).event));
    }
  }

  /** The kept-back output influences neither the lines nor the rest of the state. */
  lemma {:induction false} PendingIrrelevant(verbose: bool, v: View, w: View, entries: seq<Entry>)
    requires v.(pending := None) == w.(pending := None)
    ensures Pass(verbose, v, entries).1 == Pass(verbose, w, entries).1
    ensures Pass(verbose, v, entries).0.(pending := None) == Pass(verbose, w, entries).0.(pending := None)
    decreases |entries|
  {
    if entries != [] {
      PendingIrrelevant(verbose, v, w, entries[..|entries| - 1]);
    }
  }

  lemma {:induction false} PassNumbers(verbose: bool, v: View, entries: seq<Entry>)
    ensures Pass(verbose, v, entries).0.lastSeq == if entries == [] then v.lastSeq else Last(entries).number
  {
  }

  /** The lines printed are those of one pass over the entries rendered, flushes or not. */
  lemma {:induction false} RunIsPass(verbose: bool, log: seq<Entry>, ops: seq<Op>)
    requires UpTo(ops, |log|)
    ensures var (last, entries) := Rendered(log, ops);
            var (v, lines) := Pass(verbose, View(0, None, None), entries);
            && Run(verbose, log, ops).0.(pending := None) == v.(pending := None)
            && Run(verbose, log, ops).0.lastSeq == last && Run(verbose, log, ops).1 == lines
    decreases |ops|
  {
    if ops != [] {
      var front := ops[..|ops| - 1];
      RunIsPass(verbose, log, front);
      if Last(ops).Render? {
        var (last, entries) := Rendered(log, front);
        var unseen := Above(log[..Last(ops).upTo], last);
        PassAppend(verbose, View(0, None, None), entries, unseen);
        PendingIrrelevant(verbose, Run(verbose, log, front).0, Pass(verbose, View(0, None, None), entries).0, unseen);
        PassNumbers(verbose, Run(verbose, log, front).0, unseen);
      }
    }
  }

  /**
   * For an append-only log with increasing positive numbers, the lines printed over any series of snapshots, repeated
   * and stale ones and flushes included, are those of one pass over the longest snapshot.
   */
  lemma {:induction false} IncrementalEqualsOnePass(verbose: bool, log: seq<Entry>, ops: seq<Op>)
    requires UpTo(ops, |log|) && forall i, j :: 0 <= i < j < |log| ==> 0 < log[i].number < log[j].number
    ensures Longest(ops) <= |log|
    ensures Run(verbose, log, ops).1 == Pass(verbose, View(0, None, None), Above(log[..Longest(ops)], 0)).1
  {
    OrderedRendered(log, ops);
    RunIsPass(verbose, log, ops);
  }
}
