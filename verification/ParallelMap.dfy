/** Concurrent map execution as a step machine, and its refinement of the serial map (src/steps/map.rs). */
module ParallelMap {
  import opened Prelude
  import opened Schema
  import opened ContextStore
  import opened Validator
  import opened ScopeExecution

  /** How a spawned task ends. */
  datatype TaskResult = Returned(outcome: Outcome) | Panicked

  const PANICKED: StepError := Fail("Task panicked")

  /** What joining the task contributes: a panic is reported as a failure. */
  function Joined(r: TaskResult): Outcome {
    if r.Returned? then r.outcome else Err(PANICKED)
  }

  /** A parallel map: number of items, semaphore size, and what each item's task does. */
  datatype Config = Config(count: nat, permits: nat, task: nat -> TaskResult) {
    function Item(): nat -> Outcome {
      (k: nat) => Joined(task(k))
    }
  }

  datatype Phase = Unspawned | Queued | Running | Finished | Collected | Aborted

  datatype State = State(
    permits: nat,
    phases: seq<Phase>,
    spawned: nat,
    results: seq<Option<StepOutput>>,
    verdict: Option<Outcome>)

  ghost predicate Init(c: Config, s: State) {
    && s.permits == c.permits && s.spawned == 0 && s.verdict == None
    && |s.phases| == |s.results| == c.count
    && (forall i :: 0 <= i < c.count ==> s.phases[i] == Unspawned && s.results[i] == None)
  }

  /** The spawning loop creates the next task. */
  ghost predicate Spawn(c: Config, s: State, s': State) {
    && s.verdict == None && s.spawned < c.count == |s.phases|
    && s' == s.(phases := s.phases[s.spawned := Queued], spawned := s.spawned + 1)
  }

  /** A queued task obtains a permit of the semaphore. */
  ghost predicate Acquire(c: Config, s: State, s': State, i: nat) {
    && s.verdict == None && i < |s.phases| && s.phases[i] == Queued && s.permits > 0
    && s' == s.(phases := s.phases[i := Running], permits := s.permits - 1)
  }

  /** A running task returns or panics; either way its permit is dropped. */
  ghost predicate Complete(c: Config, s: State, s': State, i: nat) {
    && s.verdict == None && i < |s.phases| && s.phases[i] == Running
    && s' == s.(phases := s.phases[i := Finished], permits := s.permits + 1)
  }

  function Abort(p: Phase): Phase {
    if p == Queued || p == Running then Aborted else p
  }

  function AbortAll(phases: seq<Phase>): seq<Phase> {
    seq(|phases|, k requires 0 <= k < |phases| => Abort(phases[k]))
  }

  /** State after joining task `i`. */
  function AfterJoin(c: Config, s: State, i: nat): State
    requires i < |s.phases| == |s.results|
  {
    var joined := s.phases[i := Collected];
    match Joined(c.task(i))
    case Ok(output) => s.(phases := joined, results := s.results[i := Some(output)])
    case Err(e) => s.(phases := AbortAll(joined), verdict := Some(Err(e)))
  }

  /** The join loop receives some finished task; a failure aborts the rest and is returned. */
  ghost predicate Join(c: Config, s: State, s': State, i: nat) {
    && s.verdict == None && s.spawned == c.count == |s.phases| == |s.results| && i < c.count && s.phases[i] == Finished
    && s' == AfterJoin(c, s, i)
  }

  /** Results by index, an absent one read as empty. */
  function Collect(results: seq<Option<StepOutput>>): seq<IterationOutput> {
    seq(|results|, i requires 0 <= i < |results| => IterationOutput(i, UnwrapOr(results[i], Empty)))
  }

  /** The join set is empty: the results are assembled. */
  ghost predicate Finish(c: Config, s: State, s': State) {
    && s.verdict == None && s.spawned == c.count == |s.phases|
    && (forall i :: 0 <= i < c.count ==> s.phases[i] == Collected)
    && s' == s.(verdict := Some(Ok(ScopeOut(Collect(s.results), LastOutput(Collect(s.results))))))
  }

  ghost predicate Step(c: Config, s: State, s': State) {
    || Spawn(c, s, s')
    || (exists i: nat :: Acquire(c, s, s', i))
    || (exists i: nat :: Complete(c, s, s', i))
    || (exists i: nat :: Join(c, s, s', i))
    || Finish(c, s, s')
  }

  /** Any interleaving of spawns, permits, completions and joins, up to some point. */
  ghost predicate Run(c: Config, run: seq<State>) {
    |run| > 0 && Init(c, run[0]) && forall k :: 0 <= k < |run| - 1 ==> Step(c, run[k], run[k + 1])
  }

  // ---------- invariant ----------

  /** What a map may answer: the serial outcome when all items succeed, otherwise some failing item's error. */
  ghost predicate MapAnswer(item: nat -> Outcome, count: nat, outcome: Outcome) {
    && (outcome.Ok? <==> forall i: nat :: i < count ==> item(i).Ok?)
    && (outcome.Ok? ==> outcome == LoopOutcome(Serial(item, 0, count)))
    && (outcome.Err? ==> exists i: nat :: i < count && item(i) == outcome)
  }

  function RunningCount(phases: seq<Phase>): nat {
    if phases == [] then 0 else (if phases[0] == Running then 1 else 0) + RunningCount(phases[1..])
  }

  lemma {:induction false} RunningCountUpdate(phases: seq<Phase>, i: nat, p: Phase)
    requires i < |phases|
    ensures RunningCount(phases[i := p]) + (if phases[i] == Running then 1 else 0) ==
            RunningCount(phases) + (if p == Running then 1 else 0)
  {
    if i == 0 {
      assert phases[i := p][1..] == phases[1..];
    } else {
      assert phases[i := p][1..] == phases[1..][i - 1 := p];
      RunningCountUpdate(phases[1..], i - 1, p);
    }
  }

  lemma {:induction false} NoneRunning(phases: seq<Phase>)
    requires forall i :: 0 <= i < |phases| ==> phases[i] != Running
    ensures RunningCount(phases) == 0
  {
    if phases != [] {
      NoneRunning(phases[1..]);
    }
  }

  ghost predicate Inv(c: Config, s: State) {
    && |s.phases| == |s.results| == c.count && s.spawned <= c.count
    && (forall i :: 0 <= i < c.count ==> (s.phases[i] == Unspawned <==> s.spawned <= i))
    && (s.verdict.None? ==>
          && s.permits + RunningCount(s.phases) == c.permits
          && (forall i: nat :: i < c.count ==> s.phases[i] != Aborted)
          && (forall i: nat :: i < c.count ==> s.results[i].Some? == (s.phases[i] == Collected))
          && (forall i: nat :: i < c.count && s.results[i].Some? ==> Joined(c.task(i)) == Ok(s.results[i].value)))
    && (s.verdict.Some? ==> RunningCount(s.phases) == 0 && MapAnswer(c.Item(), c.count, s.verdict.value))
  }

  lemma InitInv(c: Config, s: State)
    requires Init(c, s)
    ensures Inv(c, s)
  {
    NoneRunning(s.phases);
  }

  lemma {:induction false} JoinInv(c: Config, s: State, s': State, i: nat)
    requires Inv(c, s) && Join(c, s, s', i)
    ensures Inv(c, s')
  {
    RunningCountUpdate(s.phases, i, Collected);
    if Joined(c.task(i)).Err? {
      NoneRunning(s'.phases);
      assert c.Item()(i) == s'.verdict.value;
    }
  }

  lemma {:induction false} SpawnInv(c: Config, s: State, s': State)
    requires Inv(c, s) && Spawn(c, s, s')
    ensures Inv(c, s')
  {
    RunningCountUpdate(s.phases, s.spawned, Queued);
  }

  lemma {:induction false} AcquireInv(c: Config, s: State, s': State, i: nat)
    requires Inv(c, s) && Acquire(c, s, s', i)
    ensures Inv(c, s')
  {
    RunningCountUpdate(s.phases, i, Running);
  }

  lemma {:induction false} CompleteInv(c: Config, s: State, s': State, i: nat)
    requires Inv(c, s) && Complete(c, s, s', i)
    ensures Inv(c, s')
  {
    RunningCountUpdate(s.phases, i, Finished);
  }

  /** Every step keeps the invariant. */
  lemma {:induction false} StepInv(c: Config, s: State, s': State)
    requires Inv(c, s) && Step(c, s, s')
    ensures Inv(c, s')
  {
    if Spawn(c, s, s') {
      SpawnInv(c, s, s');
    } else if i: nat :| Acquire(c, s, s', i) {
      AcquireInv(c, s, s', i);
    } else if i: nat :| Complete(c, s, s', i) {
      CompleteInv(c, s, s', i);
    } else if i: nat :| Join(c, s, s', i) {
      JoinInv(c, s, s', i);
    } else {
      FinishIsSerial(c, s);
      NoneRunning(s.phases);
    }
  }

  /** Once every task is collected, the assembled results are those of the serial map. */
  lemma {:induction false} FinishIsSerial(c: Config, s: State)
    requires Inv(c, s) && s.verdict == None && forall i :: 0 <= i < c.count ==> s.phases[i] == Collected
    ensures MapAnswer(c.Item(), c.count, Ok(ScopeOut(Collect(s.results), LastOutput(Collect(s.results)))))
  {
    var done := Collect(s.results);
    assert Succeeded(c.Item(), done);
    SerialOutcome(c.Item(), done, c.count);
  }

  // ---------- progress and termination ----------

  /** While no verdict is reached, some step is enabled. */
  lemma {:induction false} Progress(c: Config, s: State)
    requires Inv(c, s) && s.verdict == None && c.permits > 0
    ensures exists s' :: Step(c, s, s')
  {
    var s';
    if s.spawned < c.count {
      s' := s.(phases := s.phases[s.spawned := Queued], spawned := s.spawned + 1);
      assert Spawn(c, s, s');
    } else if i: nat :| i < c.count && s.phases[i] == Finished {
      s' := AfterJoin(c, s, i);
      assert Join(c, s, s', i);
    } else if i: nat :| i < c.count && s.phases[i] == Running {
      s' := s.(phases := s.phases[i := Finished], permits := s.permits + 1);
      assert Complete(c, s, s', i);
    } else if i: nat :| i < c.count && s.phases[i] == Queued {
      NoneRunning(s.phases);
      s' := s.(phases := s.phases[i := Running], permits := s.permits - 1);
      assert Acquire(c, s, s', i);
    } else {
      s' := s.(verdict := Some(Ok(ScopeOut(Collect(s.results), LastOutput(Collect(s.results))))));
      assert Finish(c, s, s');
    }
    assert Step(c, s, s');
  }

  function Left(p: Phase): nat {
    match p
    case Unspawned => 4
    case Queued => 3
    case Running => 2
    case Finished => 1
    case Collected => 0
    case Aborted => 0
  }

  function Work(phases: seq<Phase>): nat {
    if phases == [] then 0 else Left(phases[0]) + Work(phases[1..])
  }

  function Fuel(s: State): nat {
    Work(s.phases) + (if s.verdict.None? then 1 else 0)
  }

  lemma {:induction false} WorkUpdate(phases: seq<Phase>, i: nat, p: Phase)
    requires i < |phases|
    ensures Work(phases[i := p]) + Left(phases[i]) == Work(phases) + Left(p)
  {
    if i == 0 {
      assert phases[i := p][1..] == phases[1..];
    } else {
      assert phases[i := p][1..] == phases[1..][i - 1 := p];
      WorkUpdate(phases[1..], i - 1, p);
    }
  }

  lemma {:induction false} WorkShrinks(small: seq<Phase>, big: seq<Phase>)
    requires |small| == |big| && forall i :: 0 <= i < |big| ==> Left(small[i]) <= Left(big[i])
    ensures Work(small) <= Work(big)
  {
    if big != [] {
      WorkShrinks(small[1..], big[1..]);
    }
  }

  /** Every step uses up work, so every run is finite. */
  lemma {:induction false} StepShrinks(c: Config, s: State, s': State)
    requires Inv(c, s) && Step(c, s, s')
    ensures Fuel(s') < Fuel(s)
  {
    if Spawn(c, s, s') {
      WorkUpdate(s.phases, s.spawned, Queued);
    } else if i: nat :| Acquire(c, s, s', i) {
      WorkUpdate(s.phases, i, Running);
    } else if i: nat :| Complete(c, s, s', i) {
      WorkUpdate(s.phases, i, Finished);
    } else if i: nat :| Join(c, s, s', i) {
      JoinShrinks(c, s, s', i);
    }
  }

  lemma {:induction false} JoinShrinks(c: Config, s: State, s': State, i: nat)
    requires Join(c, s, s', i)
    ensures Fuel(s') < Fuel(s)
  {
    WorkUpdate(s.phases, i, Collected);
    WorkShrinks(s'.phases, s.phases[i := Collected]);
  }

  lemma {:induction false} UnspawnedWork(phases: seq<Phase>)
    requires forall i :: 0 <= i < |phases| ==> phases[i] == Unspawned
    ensures Work(phases) == 4 * |phases|
  {
    if phases != [] {
      UnspawnedWork(phases[1..]);
    }
  }

  // ---------- whole runs ----------

  lemma {:induction false} RunInv(c: Config, run: seq<State>)
    requires Run(c, run)
    ensures Inv(c, Last(run)) && Fuel(Last(run)) + |run| <= 4 * c.count + 2
    decreases |run|
  {
    if |run| == 1 {
      InitInv(c, run[0]);
      UnspawnedWork(run[0].phases);
    } else {
      var n := |run| - 1;
      assert Run(c, run[..n]);
      RunInv(c, run[..n]);
      assert Step(c, run[n - 1], run[n - 1 + 1]);
      StepInv(c, run[n - 1], run[n]);
      StepShrinks(c, run[n - 1], run[n]);
    }
  }

  /**
   * Safety over every run: never more than `permits` items run at once; a verdict is Ok exactly when all items
   * succeed, and then it is the serial outcome, otherwise it is the error of some failing item. Liveness: a run
   * without a verdict can always go on, and no run has more than 4 * count + 1 steps.
   */
  lemma ParallelRefinesSerial(c: Config, run: seq<State>)
    requires Run(c, run) && c.permits > 0
    ensures forall k :: 0 <= k < |run| ==> RunningCount(run[k].phases) <= c.permits
    ensures var v := Last(run).verdict;
            && (v.Some? ==> MapAnswer(c.Item(), c.count, v.value))
            && (v.None? ==> exists s' :: Run(c, run + [s']))
    ensures |run| <= 4 * c.count + 2
  {
    forall k | 0 <= k < |run| ensures RunningCount(run[k].phases) <= c.permits {
      assert Last(run[..k + 1]) == run[k];
      RunInv(c, run[..k + 1]);
    }
    RunInv(c, run);
    if Last(run).verdict.None? {
      Progress(c, Last(run));
      var s' :| Step(c, Last(run), s');
      var more := run + [s'];
      forall k | 0 <= k < |more| - 1 ensures Step(c, more[k], more[k + 1]) {
        if k < |run| - 1 { assert Step(c, run[k], run[k + 1]); }
      }
      assert Run(c, more);
    }
  }

  // ---------- the machine of a map step ----------

  /** The tasks of a map over rendered items: each runs the scope in a context of its own. */
  function MapConfig(w: World, scopes: Scopes, name: string, ctx: CtxView, items: seq<string>, permits: nat): Config
    requires Layered(scopes) && ctx.frames != [] && name in scopes
  {
    var item := Items(w, scopes, name, ctx, items);
    Config(|items|, permits, (k: nat) => Returned(item(k)))
  }

  lemma {:induction false} SerialSame(a: nat -> Outcome, b: nat -> Outcome, index: nat, count: nat)
    requires index <= count && forall k: nat :: a(k) == b(k)
    ensures Serial(a, index, count) == Serial(b, index, count)
    decreases count - index
  {
    if index < count {
      SerialSame(a, b, index + 1, count);
    }
  }

  /**
   * A map step over `permits` permits, whatever the interleaving: at most that many items run at once, a verdict is an
   * answer that the step's items allow, and a run without one can go on.
   */
  lemma {:induction false} MapStepRuns(w: World, scopes: Scopes, name: string, ctx: CtxView,
      items: seq<string>, permits: nat,
      run: seq<State>)
    requires Layered(scopes) && ctx.frames != [] && name in scopes && permits > 0
    requires Run(MapConfig(w, scopes, name, ctx, items, permits), run)
    ensures forall k :: 0 <= k < |run| ==> RunningCount(run[k].phases) <= permits
    ensures var v := Last(run).verdict;
            && (v.Some? ==> MapAnswer(Items(w, scopes, name, ctx, items), |items|, v.value))
            && (v.None? ==> exists s' :: Run(MapConfig(w, scopes, name, ctx, items, permits), run + [s']))
    ensures |run| <= 4 * |items| + 2
  {
    var c := MapConfig(w, scopes, name, ctx, items, permits);
    var item := Items(w, scopes, name, ctx, items);
    ParallelRefinesSerial(c, run);
    forall k: nat ensures c.Item()(k) == item(k) {
      assert c.task(k) == Returned(item(k));
    }
    SerialSame(c.Item(), item, 0, |items|);
  }

  // ---------- the answer by join order ----------

  predicate Within(order: seq<nat>, n: nat) {
    forall k :: 0 <= k < |order| ==> order[k] < n
  }

  /** `order` lists each of the first `n` indices exactly once. */
  ghost predicate JoinOrder(order: seq<nat>, n: nat) {
    && Distinct(order) && Within(order, n)
    && (forall i: nat :: i < n ==> i in order)
  }

  /** The error of the first task in the order that fails. */
  function FirstError(item: nat -> Outcome, order: seq<nat>): Option<StepError> {
    if order == [] then None
    else if item(order[0]).Err? then Some(item(order[0]).error)
    else FirstError(item, order[1..])
  }

  /** What a map answers when its tasks are joined in this order: the first failure, or the results by index. */
  function JoinedMap(item: nat -> Outcome, count: nat, order: seq<nat>): Outcome {
    if FirstError(item, order).Some? then Err(FirstError(item, order).value) else LoopOutcome(Serial(item, 0, count))
  }

  lemma {:induction false} FirstErrorIs(item: nat -> Outcome, order: seq<nat>)
    ensures FirstError(item, order).None? <==> forall k :: k in order ==> item(k).Ok?
    ensures FirstError(item, order).Some? ==> exists k :: k in order && item(k) == Err(FirstError(item, order).value)
    decreases |order|
  {
    if order != [] {
      FirstErrorIs(item, order[1..]);
      assert forall k :: k in order <==> k == order[0] || k in order[1..];
    }
  }

  /** The first `n` indices with `i` brought to the front. */
  function IndexFirst(n: nat, i: nat): seq<nat>
    requires i < n
  {
    seq(n, k requires 0 <= k < n => if k == 0 then i else if k <= i then k - 1 else k)
  }

  lemma {:induction false} IndexFirstIsOrder(n: nat, i: nat)
    requires i < n
    ensures JoinOrder(IndexFirst(n, i), n)
  {
    var order := IndexFirst(n, i);
    forall x: nat | x < n ensures x in order {
      if x < i { assert order[x + 1] == x; }
      else if x == i { assert order[0] == x; }
      else { assert order[x] == x; }
    }
  }

  /** The answers a map may give are exactly those for some join order. */
  lemma {:induction false} MapAnswerIffJoined(item: nat -> Outcome, count: nat, outcome: Outcome)
    ensures MapAnswer(item, count, outcome) <==>
            exists order: seq<nat> :: JoinOrder(order, count) && outcome == JoinedMap(item, count, order)
  {
    if order: seq<nat> :| JoinOrder(order, count) && outcome == JoinedMap(item, count, order) {
      FirstErrorIs(item, order);
      SerialIsMapAnswer(item, count);
      assert forall i: nat :: i < count <==> i in order;
    }
    if MapAnswer(item, count, outcome) {
      var i: nat := if count == 0 then 0 else count - 1;
      if outcome.Err? {
        i :| i < count && item(i) == outcome;
      }
      var order := if count == 0 then [] else IndexFirst(count, i);
      if count > 0 {
        IndexFirstIsOrder(count, i);
      }
      FirstErrorIs(item, order);
      assert JoinOrder(order, count) && outcome == JoinedMap(item, count, order);
    }
  }

  // ---------- the executor ----------

  /**
   * The parallel map executor. The tasks share nothing, so the order in which the join set hands them over
   * is the only freedom left: it is resolved here by an arbitrary choice.
   */
  method ParallelExecute(w: World, scopes: Scopes, name: string, ctx: Context, items: seq<string>)
    returns (outcome: Outcome)
    requires Layered(scopes) && ctx.Valid() && name in scopes
    ensures MapAnswer(Items(w, scopes, name, old(ctx.View()), items), |items|, outcome)
  {
    var n := |items|;
    ghost var item := Items(w, scopes, name, ctx.View(), items);
    var pending: set<nat> := {};
    for i := 0 to n
      invariant forall k: nat :: k in pending <==> k < i
    {
      pending := pending + {i};
    }
    var results := new Option<StepOutput>[n](_ => None);
    while pending != {}
      invariant forall k: nat :: k in pending ==> k < n
      invariant forall i: nat :: i < n && i !in pending ==> results[i].Some? && item(i) == Ok(results[i].value)
    {
      var i: nat :| i in pending;
      pending := pending - {i};
      var result := RunItem(w, scopes, name, ctx, items[i], i);
      assert item(i) == result;
      if result.Err? {
        return result;
      }
      results[i] := Some(result.value);
    }
    var iterations := Collect(results[..]);
    assert Succeeded(item, iterations);
    SerialOutcome(item, iterations, n);
    return Ok(ScopeOut(iterations, LastOutput(iterations)));
  }

  function MissingItems(): StepError {
    Fail("map step missing 'items' field")
  }

  /** Items that a map step runs over, or the error that stops it before any item. */
  function MapItems(w: World, scopes: Scopes, step: StepDef, ctx: CtxView): Result<seq<string>, StepError> {
    if step.items.None? then Err(MissingItems())
    else if step.scope.None? then Err(MissingScopeField("map"))
    else if step.scope.value !in scopes then Err(ScopeNotFound(step.scope.value))
    else
      match w.render(step.items.value, Seen(ctx))
      case Err(e) => Err(e)
      case Ok(text) => Ok(w.splitItems(text))
  }

  /** The map executor before collect and reduce: serial when `parallel` is absent or 0, concurrent otherwise. */
  method MapExecute(w: World, scopes: Scopes, step: StepDef, ctx: Context) returns (outcome: Outcome)
    requires Layered(scopes) && ctx.Valid()
    ensures var view := old(ctx.View());
            match MapItems(w, scopes, step, view)
            case Err(e) => outcome == Err(e)
            case Ok(items) =>
              var item := Items(w, scopes, step.scope.value, view, items);
              && MapAnswer(item, |items|, outcome)
              && (UnwrapOr(step.parallel, 0) == 0 ==> outcome == LoopOutcome(Serial(item, 0, |items|)))
  {
    if step.items.None? {
      return Err(MissingItems());
    }
    if step.scope.None? {
      return Err(MissingScopeField("map"));
    }
    if step.scope.value !in scopes {
      return Err(ScopeNotFound(step.scope.value));
    }
    var rendered := w.render(step.items.value, Seen(ctx.View()));
    if rendered.Err? {
      return Err(rendered.error);
    }
    var items := w.splitItems(rendered.value);
    if UnwrapOr(step.parallel, 0) == 0 {
      outcome := SerialExecute(w, scopes, step.scope.value, ctx, items);
      SerialIsMapAnswer(Items(w, scopes, step.scope.value, old(ctx.View()), items), |items|);
    } else {
      outcome := ParallelExecute(w, scopes, step.scope.value, ctx, items);
    }
  }

  /** The serial outcome is one of the answers a map may give. */
  lemma SerialIsMapAnswer(item: nat -> Outcome, count: nat)
    ensures MapAnswer(item, count, LoopOutcome(Serial(item, 0, count)))
  {
    SerialShape(item, 0, count);
    var run := Serial(item, 0, count);
    forall k: nat | k < |run.iterations| ensures item(k).Ok? {
      assert item(0 + k) == Ok(run.iterations[k].output);
    }
  }
}
