/** The join loop of a parallel step (src/steps/parallel.rs). */
module ParallelStep {
  import opened Prelude
  import opened Schema
  import opened ParallelMap

  /** What a joined sub-step contributes: a skip counts as an empty success, a panic as a failure. */
  function Contribution(r: TaskResult): Outcome {
    match r
    case Panicked => Err(Fail("Parallel task panicked"))
    case Returned(outcome) =>
      if outcome.Err? && outcome.error.Flow? && outcome.error.flow.Skip? then Ok(Empty) else outcome
  }

  /** Outputs by name after joining the given sub-steps in this order; a later join overwrites an earlier one. */
  function Outputs(names: seq<string>, outs: seq<StepOutput>, order: seq<nat>): map<string, StepOutput>
    requires |names| == |outs| && Within(order, |names|)
  {
    if order == [] then map[]
    else Outputs(names, outs, order[..|order| - 1])[names[Last(order)] := outs[Last(order)]]
  }

  /** The step's answer when no sub-step failed: the output recorded under the last declared name. */
  function Answer(names: seq<string>, outs: seq<StepOutput>, order: seq<nat>): StepOutput
    requires |names| == |outs| && Within(order, |names|)
  {
    if names == [] then Empty else UnwrapOr(Lookup(Outputs(names, outs, order), Last(names)), Empty)
  }

  /** Whoever joined last among the holders of a name decides the recorded output. */
  lemma {:induction false} RecordedAt(names: seq<string>, outs: seq<StepOutput>, order: seq<nat>, k: nat)
    requires |names| == |outs| && Within(order, |names|)
    requires k < |order| && forall j :: k < j < |order| ==> names[order[j]] != names[order[k]]
    ensures Lookup(Outputs(names, outs, order), names[order[k]]) == Some(outs[order[k]])
    decreases |order|
  {
    if k < |order| - 1 {
      RecordedAt(names, outs, order[..|order| - 1], k);
    }
  }

  /** No other sub-step carries the last declared name. */
  ghost predicate LastNameUnshared(names: seq<string>) {
    forall i :: 0 <= i < |names| - 1 ==> names[i] != Last(names)
  }

  lemma {:induction false} UnsharedAnswer(names: seq<string>, outs: seq<StepOutput>, order: seq<nat>)
    requires |names| == |outs| > 0 && LastNameUnshared(names) && JoinOrder(order, |names|)
    ensures Answer(names, outs, order) == Last(outs)
  {
    var last: nat := |names| - 1;
    assert last in order;
    var k :| 0 <= k < |order| && order[k] == last;
    forall j | k < j < |order| ensures names[order[j]] != names[order[k]] {
      assert order[j] in order && order[j] != order[k];
    }
    RecordedAt(names, outs, order, k);
  }

  /** The indices `0..n` in order, except that `i` comes at the very end. */
  function IndexLast(n: nat, i: nat): seq<nat>
    requires i < n
  {
    seq(n, k requires 0 <= k < n => if k < i then k else if k == n - 1 then i else k + 1)
  }

  lemma IndexLastIsOrder(n: nat, i: nat)
    requires i < n
    ensures JoinOrder(IndexLast(n, i), n)
  {
    var order := IndexLast(n, i);
    forall x: nat | x < n ensures x in order {
      if x < i { assert order[x] == x; }
      else if x == i { assert order[n - 1] == x; }
      else { assert order[x - 1] == x; }
    }
  }

  /**
   * A successful parallel step returns its last declared sub-step's output under every join order and for all
   * outputs exactly when no other sub-step shares that one's name. Otherwise a late namesake overwrites it.
   */
  lemma {:induction false} LastDeclaredIffUnshared(names: seq<string>)
    requires names != []
    ensures (forall outs: seq<StepOutput>, order: seq<nat> :: |outs| == |names| && JoinOrder(order, |names|) ==>
               Answer(names, outs, order) == Last(outs))
            <==> LastNameUnshared(names)
  {
    if LastNameUnshared(names) {
      forall outs: seq<StepOutput>, order: seq<nat> | |outs| == |names| && JoinOrder(order, |names|)
        ensures Answer(names, outs, order) == Last(outs)
      {
        UnsharedAnswer(names, outs, order);
      }
    } else {
      var n := |names|;
      var i: nat :| i < n - 1 && names[i] == Last(names);
      var outs := seq(n, k requires 0 <= k < n => if k == i then ChatOut("stale") else Empty);
      var order := IndexLast(n, i);
      IndexLastIsOrder(n, i);
      RecordedAt(names, outs, order, n - 1);
      assert Answer(names, outs, order) != Last(outs);
    }
  }

  /** The outputs of all sub-steps, an absent one read as empty. */
  function Outs(tasks: seq<TaskResult>): seq<StepOutput> {
    seq(|tasks|, i requires 0 <= i < |tasks| =>
      if Contribution(tasks[i]).Ok? then Contribution(tasks[i]).value else Empty)
  }

  /** `order` holds the joined indices, `pending` the others. */
  ghost predicate PartlyJoined(order: seq<nat>, pending: set<nat>, n: nat) {
    && Distinct(order) && Within(order, n)
    && (forall k: nat :: k < n ==> k in pending || k in order)
    && (forall k: nat :: k in pending ==> k < n && k !in order)
  }

  lemma JoinOne(order: seq<nat>, pending: set<nat>, n: nat, i: nat)
    requires PartlyJoined(order, pending, n) && i in pending
    ensures PartlyJoined(order + [i], pending - {i}, n)
  {
  }

  /** All sub-steps joined so far succeeded. */
  ghost predicate AllOk(tasks: seq<TaskResult>, order: seq<nat>)
    requires Within(order, |tasks|)
  {
    forall k :: 0 <= k < |order| ==> Contribution(tasks[order[k]]).Ok?
  }

  ghost predicate SomeFails(tasks: seq<TaskResult>, e: StepError) {
    exists r :: r in tasks && Contribution(r) == Err(e)
  }

  /** Records one joined sub-step: its output under its name, or its failure. */
  method RecordTask(result: TaskResult, name: string, outputs: map<string, StepOutput>, error: Option<StepError>)
    returns (outputs': map<string, StepOutput>, error': Option<StepError>)
    ensures Contribution(result).Ok? ==> outputs' == outputs[name := Contribution(result).value] && error' == error
    ensures Contribution(result).Err? ==>
              && outputs' == outputs
              && error' == if result.Panicked? && error.Some? then error else Some(Contribution(result).error)
  {
    outputs', error' := outputs, error;
    match result {
      case Returned(Ok(output)) =>
        outputs' := outputs[name := output];
      case Returned(Err(Flow(Skip(_)))) =>
        outputs' := outputs[name := Empty];
      case Returned(Err(e)) =>
        error' := Some(e);
      case Panicked =>
        if error.None? {
          error' := Some(Fail("Parallel task panicked"));
        }
    }
  }

  /** Outputs and remembered error while the sub-steps are joined. */
  datatype Joining = Joining(outputs: map<string, StepOutput>, error: Option<StepError>)

  function Recorded(result: TaskResult, name: string, j: Joining): Joining {
    if Contribution(result).Ok? then j.(outputs := j.outputs[name := Contribution(result).value])
    else if result.Panicked? && j.error.Some? then j
    else j.(error := Some(Contribution(result).error))
  }

  /** The sub-steps joined in this order. Those in `cancelled` turn up cancelled if a failure came before them. */
  function JoinedInOrder(names: seq<string>, tasks: seq<TaskResult>, order: seq<nat>, cancelled: set<nat>): Joining
    requires |names| == |tasks| && Within(order, |tasks|)
  {
    if order == [] then Joining(map[], None)
    else
      var i := Last(order);
      var before := JoinedInOrder(names, tasks, order[..|order| - 1], cancelled);
      if before.error.Some? && i in cancelled then before else Recorded(tasks[i], names[i], before)
  }

  /** The step's answer for a join order and the tasks that a failure cancels. */
  function JoinedAnswer(names: seq<string>, tasks: seq<TaskResult>, order: seq<nat>, cancelled: set<nat>): Outcome
    requires |names| == |tasks| && Within(order, |tasks|)
  {
    var j := JoinedInOrder(names, tasks, order, cancelled);
    if j.error.Some? then Err(j.error.value)
    else if names == [] then Ok(Empty)
    else Ok(UnwrapOr(Lookup(j.outputs, Last(names)), Empty))
  }

  // ---------- the answer from the results of the sub-steps ----------

  /** A sub-step succeeds with its output, or with an empty one when it skips. */
  ghost predicate Gives(r: TaskResult, output: StepOutput) {
    r.Returned? && (r.outcome == Ok(output) || (Skips(r.outcome) && output == Empty))
  }

  ghost predicate FailsWith(r: TaskResult, e: StepError) {
    match r
    case Panicked => e == Fail("Parallel task panicked")
    case Returned(outcome) => outcome == Err(e) && !Skips(outcome)
  }

  ghost predicate Fails(r: TaskResult) {
    exists e :: FailsWith(r, e)
  }

  lemma {:induction false} ContributionIs(r: TaskResult)
    ensures forall output :: Contribution(r) == Ok(output) <==> Gives(r, output)
    ensures forall e :: Contribution(r) == Err(e) <==> FailsWith(r, e)
    ensures Contribution(r).Err? <==> Fails(r)
  {
    if Contribution(r).Err? {
      assert FailsWith(r, Contribution(r).error);
    }
  }

  /** Some sub-step joined before the `k`th one fails. */
  ghost predicate FailedBefore(tasks: seq<TaskResult>, order: seq<nat>, k: nat)
    requires Within(order, |tasks|) && k <= |order|
  {
    exists j: nat :: j < k && Fails(tasks[order[j]])
  }

  /** The `k`th sub-step joined fails, and was not cancelled because of a failure before. */
  ghost predicate FailsAt(tasks: seq<TaskResult>, order: seq<nat>, cancelled: set<nat>, k: nat, e: StepError)
    requires Within(order, |tasks|) && k < |order|
  {
    FailsWith(tasks[order[k]], e) && !(order[k] in cancelled && FailedBefore(tasks, order, k))
  }

  /**
   * The error of a parallel step: that of the last sub-step to fail, panics aside. Only when all failures are panics it
   * is that of the first one.
   */
  ghost predicate DecidesError(tasks: seq<TaskResult>, order: seq<nat>, cancelled: set<nat>, k: nat, e: StepError)
    requires Within(order, |tasks|) && k < |order|
  {
    && FailsAt(tasks, order, cancelled, k, e)
    && (tasks[order[k]].Panicked? ==> !FailedBefore(tasks, order, k))
    && forall j: nat, e' :: k < j < |order| && FailsAt(tasks, order, cancelled, j, e') ==> tasks[order[j]].Panicked?
  }

  /** A join order without its last sub-step. */
  lemma {:induction false} JoinedBefore(tasks: seq<TaskResult>, order: seq<nat>, cancelled: set<nat>, k: nat)
    requires Within(order, |tasks|) && k < |order| - 1
    ensures var front := order[..|order| - 1];
            && (FailedBefore(tasks, front, k) <==> FailedBefore(tasks, order, k))
            && forall e :: FailsAt(tasks, front, cancelled, k, e) <==> FailsAt(tasks, order, cancelled, k, e)
  {
    var front := order[..|order| - 1];
    assert forall j :: 0 <= j < |front| ==> front[j] == order[j];
  }

  lemma {:induction false} FailedMore(tasks: seq<TaskResult>, order: seq<nat>)
    requires Within(order, |tasks|) && order != []
    ensures var front := order[..|order| - 1];
            && (FailedBefore(tasks, front, |front|) <==> FailedBefore(tasks, order, |front|))
            && (FailedBefore(tasks, order, |order|) <==>
                  FailedBefore(tasks, order, |front|) || Fails(tasks[Last(order)]))
  {
    var front := order[..|order| - 1];
    assert forall j :: 0 <= j < |front| ==> front[j] == order[j];
    if Fails(tasks[Last(order)]) {
      assert Fails(tasks[order[|order| - 1]]);
    }
  }

  /** The error that decided before decides still, unless the last sub-step fails and not just panics. */
  lemma {:induction false} StillDecides(tasks: seq<TaskResult>, order: seq<nat>, cancelled: set<nat>, k: nat,
      e: StepError)
    requires Within(order, |tasks|) && k < |order| - 1
    requires DecidesError(tasks, order[..|order| - 1], cancelled, k, e)
    requires || tasks[Last(order)].Panicked? || !Fails(tasks[Last(order)])
             || (Last(order) in cancelled && FailedBefore(tasks, order, |order| - 1))
    ensures DecidesError(tasks, order, cancelled, k, e)
  {
    JoinedBefore(tasks, order, cancelled, k);
    forall j: nat, e' | k < j < |order| && FailsAt(tasks, order, cancelled, j, e') ensures tasks[order[j]].Panicked? {
      if j < |order| - 1 {
        JoinedBefore(tasks, order, cancelled, j);
      }
    }
  }

  /** There is an error exactly when some sub-step fails, and this is the one. */
  lemma {:induction false} ErrorIs(names: seq<string>, tasks: seq<TaskResult>, order: seq<nat>, cancelled: set<nat>)
    returns (k: nat)
    requires |names| == |tasks| && Within(order, |tasks|)
    ensures var error := JoinedInOrder(names, tasks, order, cancelled).error;
            && (error.Some? <==> FailedBefore(tasks, order, |order|))
            && (error.Some? ==> k < |order| && DecidesError(tasks, order, cancelled, k, error.value))
    decreases |order|
  {
    k := 0;
    if order != [] {
      var front := order[..|order| - 1];
      k := ErrorIs(names, tasks, front, cancelled);
      var before := JoinedInOrder(names, tasks, front, cancelled);
      var now := JoinedInOrder(names, tasks, order, cancelled);
      FailedMore(tasks, order);
      ContributionIs(tasks[Last(order)]);
      if now.error.Some? {
        var last := tasks[Last(order)];
        if before.error.Some? && (Last(order) in cancelled || !Fails(last) || last.Panicked?) {
          StillDecides(tasks, order, cancelled, k, before.error.value);
        } else {
          k := |order| - 1;
        }
      }
    }
  }

  /** Without an error every sub-step has recorded its output. */
  lemma {:induction false} JoinedOutputs(names: seq<string>, tasks: seq<TaskResult>, order: seq<nat>,
      cancelled: set<nat>)
    requires |names| == |tasks| && Within(order, |tasks|)
    requires JoinedInOrder(names, tasks, order, cancelled).error.None?
    ensures JoinedInOrder(names, tasks, order, cancelled).outputs == Outputs(names, Outs(tasks), order)
    ensures forall k :: 0 <= k < |order| ==> Gives(tasks[order[k]], Outs(tasks)[order[k]])
    decreases |order|
  {
    if order != [] {
      JoinedOutputs(names, tasks, order[..|order| - 1], cancelled);
      ContributionIs(tasks[Last(order)]);
      assert forall k :: 0 <= k < |order| - 1 ==> order[..|order| - 1][k] == order[k];
    }
  }

  /** A task that was not joined yet may be cancelled or not. */
  lemma {:induction false} NotJoinedYet(names: seq<string>, tasks: seq<TaskResult>, order: seq<nat>,
      cancelled: set<nat>, i: nat)
    requires |names| == |tasks| && Within(order, |tasks|) && i !in order
    ensures JoinedInOrder(names, tasks, order, cancelled + {i}) == JoinedInOrder(names, tasks, order, cancelled)
    decreases |order|
  {
    if order != [] {
      NotJoinedYet(names, tasks, order[..|order| - 1], cancelled, i);
    }
  }

  /**
   * The join loop: arbitrary arrival order, all tasks are awaited even after a failure, a failing task replaces
   * the remembered error while a panic or a cancelled task only fills an empty one. After the first failure any
   * task still running may turn up cancelled.
   */
  method JoinAll(names: seq<string>, tasks: seq<TaskResult>)
    returns (outcome: Outcome, ghost order: seq<nat>, ghost cancelled: set<nat>)
    requires |names| == |tasks|
    ensures JoinOrder(order, |tasks|) && outcome == JoinedAnswer(names, tasks, order, cancelled)
    ensures outcome.Ok? <==> AllOk(tasks, order)
    ensures outcome.Ok? ==> outcome.value == Answer(names, Outs(tasks), order)
    ensures outcome.Ok? && names != [] && LastNameUnshared(names) ==> outcome == Contribution(Last(tasks))
    ensures outcome.Err? ==> SomeFails(tasks, outcome.error)
  {
    var n := |tasks|;
    var pending: set<nat> := {};
    for i := 0 to n
      invariant forall k: nat :: k in pending <==> k < i
    {
      pending := pending + {i};
    }
    var outputs: map<string, StepOutput> := map[];
    var error: Option<StepError> := None;
    order, cancelled := [], {};
    while pending != {}
      invariant PartlyJoined(order, pending, n)
      invariant JoinedInOrder(names, tasks, order, cancelled) == Joining(outputs, error)
      invariant forall k :: k in cancelled ==> k in order
      invariant error.None? ==> AllOk(tasks, order) && outputs == Outputs(names, Outs(tasks), order)
      invariant error.Some? ==> !AllOk(tasks, order) && SomeFails(tasks, error.value)
    {
      var i: nat :| i in pending;
      JoinOne(order, pending, n, i);
      ghost var before := order;
      assert i !in before;
      pending, order := pending - {i}, order + [i];
      assert order[..|order| - 1] == before;
      assert AllOk(tasks, order) <==> AllOk(tasks, before) && Contribution(tasks[i]).Ok? by {
        assert order[|before|] == i;
        assert forall k :: 0 <= k < |before| ==> order[k] == before[k];
      }
      assert tasks[i] in tasks;
      var isCancelled := false;
      if error.Some? {
        isCancelled := *;
      }
      if isCancelled {
        NotJoinedYet(names, tasks, before, cancelled, i);
        cancelled := cancelled + {i};
      } else {
        outputs, error := RecordTask(tasks[i], names[i], outputs, error);
      }
    }
    if error.Some? {
      return Err(error.value), order, cancelled;
    }
    if names == [] {
      return Ok(Empty), order, cancelled;
    }
    if LastNameUnshared(names) {
      UnsharedAnswer(names, Outs(tasks), order);
      assert |tasks| - 1 in order;
    }
    return Ok(if Last(names) in outputs then outputs[Last(names)] else Empty), order, cancelled;
  }
}
