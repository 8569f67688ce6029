# Stepyard: verified model

Stepyard runs workflows: lists of steps (`cmd`, `agent`, `chat`, `gate`, `call`, `repeat`, `map`, `parallel`, ...), some of
which run the steps of a named *scope*. This project models the v1 engine of the repository, the parts of the v2 command
line that translate and display workflows, and a few small text codecs, and proves what they promise. `dafny verify
dfyconfig.toml` checks all of it.

## Layout

| file | models |
|---|---|
| `Prelude.dfy`, `Schema.dfy`, `Decimals.dfy` | shared helpers, the workflow definition, decimal numbers |
| `Validator.dfy` | the scope graph and `validate`, with its depth-first cycle check over a shared path set |
| `ContextStore.dfy` | the context tree: step outputs, typed values, variables, session, chat store |
| `ScopeExecution.dfy` | `call`, `repeat` and serial `map` over scope bodies, and the dispatch they recurse through |
| `ScopeLaws.dfy` | what these bodies compute, from the outcomes of the steps they reach and the contexts these are handed |
| `ParallelMap.dfy` | the parallel `map` as a step machine (spawn, permit, complete, join), and its executor |
| `ParallelStep.dfy` | the join loop of a `parallel` step |
| `EngineRun.dfy` | the engine's run loop: resume, asynchronous steps, dependencies, final drain |
| `RunLaws.dfy` | how a run ends, what it returns and what each step leaves behind, from the outcomes of its executors |
| `Resume.dfy`, `ResumeGuard.dfy`, `ResumeExamples.dfy` | a resumed run against the uninterrupted one, what to check before a resume, inputs that differ |
| `ChatStep.dfy` | the chat executor and the rules of the chat store |
| `EngineExecutors.dfy` | the engine's executors put together from the modelled ones, and the leaf executors a workflow starts |
| `FromCalls.dfy`, `TemplatePreprocessor.dfy` | the rewriting of templates before the template engine sees them |
| `StrictCalls.dfy` | strict access to the value of a call |
| `SseFrames.dfy`, `SseStream.dfy` | the incremental reader of server-sent events |
| `SseRoundTrip.dfy`, `SseCuts.dfy` | what it makes of a sender's messages, and a stream whose events depend on the cut |
| `DurationGrammar.dfy` | the strict duration grammar and its canonical printer |
| `ConfigInheritance.dfy`, `Adapter.dfy` | the translation of a v1 workflow definition into the harness form |
| `ProgressView.dfy` | the incremental progress view over session-log snapshots |
| `Truncation.dfy` | chat-history truncation, both implementations |
| `Stacks.dfy` | stack inheritance and the choice of a prompt file |
| `Base64.dfy`, `ShellQuote.dfy` | the base64 encoder and the shell quoter |

Each imperative piece of the source is a method (or a class with the source's fields) proved equal to a function on values;
the laws are lemmas about these functions, and say what they compute in terms of the inputs, without the functions that
decide it: how a run or a body ends, what it returns and what each step sees follow from the outcomes of the executors
(`RunLaws.dfy`, `ScopeLaws.dfy`). Leaf steps, template rendering, JSON and regex engines, token estimates, file
existence and character classes beyond ASCII are function-valued parameters, so every theorem holds for all of them.
Places where the program iterates a hash map or receives from a join set use an arbitrary choice. `ControlFlow::Fail` is
called `Abort` here, because `Fail` already names a plain step failure.

## What turned out not to hold

Where a natural law fails, the code is modelled as it is, a lemma gives an input that fails, and the exact condition is
proved.

* `from("x")` and `steps.x` need not show the same value: the typed value of an outer step shadows through an inner step
  without one (`FromDiffersFromSteps`, `FromAgreesWithSteps`). This needs a context with a parent, and only
  `Context::child` builds one, which is marked as dead code and called by tests alone; in the contexts that the program
  runs with, the two always agree (`RootsAgree`).
* A resumed run restores outputs, but not typed values, skipped steps' empty outputs, handles of asynchronous steps, the
  chat history or the last output. With unique step names, whatever steps follow and however they behave within the
  chat rules of src/steps/chat.rs, it ends like the uninterrupted run (same ending, outputs, typed values, session id and handles) if
  and only if the state file holds an output of every earlier step, none of these declares an `output_type`, and none
  is a chat step with a session (`ResumeIffSafe`, for the assembled engine `EngineResumeIffSafe`; for steps that are
  known, `ResumeKnownSteps`). Two chat steps on one
  session and an asynchronous earlier step are failing inputs (`ChatHistoryIsLost`, `AsyncStepIsLost`).
* Even then the final output that a run returns is the same only if a step from the resume point on completes Ok, or the
  last output before it was the empty one; whatever follows, it is the same if and only if the output saved for the last
  earlier step is empty (`ResumeEqualsRun`, `AnswerIffSafe`). A command before a gate that skips is a failing input
  (`LastOutputIsLost`).
* A run that was resumed saves a state without the outputs of the steps it skipped, so resuming it again finds nothing to
  restore for them (`ResumedStateForgets`).
* A successful parallel step returns its last declared sub-step's output under every join order exactly when no other
  sub-step has the same name (`LastDeclaredIffUnshared`).
* Step names that differ only in characters that are replaced (`a-b`, `a_b`) share one template variable; the last found
  step wins (`CollidingNames`, `EachCallSeesItsStep`).
* Strict access to a call, `{{ from("x").output! }}`, is refused although the step exists (`StrictOutputOfXIsRefused`),
  because the check looks the rewritten variable up where injected variables are not. An expression that begins with a
  call passes exactly when all called steps exist and there also is a step or variable named like the call's variable
  (`__from_x__` here), in whose value the rest of the path leads somewhere (`StrictCallIff`). The comments at
  src/engine/template.rs:17-25 read as if such access worked.
* The frames and the buffer of the event reader are independent of how the stream is cut exactly when the stream holds no
  CR CR LF (`ChunkIndependentIff`). For the events themselves this condition is sufficient (`SameEvents`) but not
  necessary: a stream without a colon yields none, however it is cut (`NoColonNoEvents`). With CR CR LF the events can
  depend on the cut (`EventsDependOnCut`). No exact condition is given for the events: whether a lost CR shows depends on
  the line it stands in, so the condition would have to repeat the case analysis of the line parser.
* Leading white space of event names and data lines is lost on the way; messages come back as they were meant exactly when
  none has any (`ReceivedAsMeantIff`).
* The parent walk of a stack never ends when its ancestors loop, as for a stack that is its own parent
  (`WalkEndsIffAcyclic`, `OwnParentNeverEnds`), and where it ends the circular-chain error of `PromptResolver` cannot be
  reached from it (`DetectedNeverCircular`).
* Durations with a part below a millisecond, or beyond 64 bits of milliseconds, do not survive printing and parsing
  (`RoundTripIff`; one nanosecond, `NanosecondIsLost`).

## Model

| member | source | states |
|---|---|---|
| Validator.HasCycle | src/workflow/validator.rs:179-203 | the search over the shared path set terminates, answers exactly `CycleFrom`, and a negative answer restores the set |
| Validator.CycleFromExact | src/workflow/validator.rs:179-203 | started with any path set, the search says yes iff some walk of call/repeat/map references from the scope runs into the path or into itself |
| Validator.ReportedIffCyclic | src/workflow/validator.rs:41-47 | some declared scope is reported iff the scope graph has a closed walk |
| Validator.DuplicateNames | src/workflow/validator.rs:18-39 | exactly the names carried by two steps are reported |
| Validator.ScopeProblems | src/workflow/validator.rs:17-30 | duplicate names inside scopes are reported exactly where they occur, in any scope order, and the field problems are exactly those of the bodies |
| Validator.CircularProblems | src/workflow/validator.rs:41-47 | one report for each scope from which a cycle is reachable, and no other |
| Validator.Validate | src/workflow/validator.rs:8-50 | circular-reference, duplicate and field errors iff they exist; the list is empty iff scopes are acyclic, names unique and fields clean |
| Validator.FieldIssueIff | src/workflow/validator.rs:52-135 | a field problem is reported iff some step, at any depth of parallel bodies, has it: a needed field that is absent or white space, a scope that is not declared, zero iterations |
| Validator.RankDescends | src/workflow/validator.rs:179-203 | in a graph that passes the check, every reference leads to a scope of strictly lower rank |
| ContextStore.AllVariablesIsNearestFirst | src/engine/context.rs:146-153 | the flattened variables answer like the nearest-first lookup (lines 86-90) |
| ContextStore.FromAgreesWithSteps | src/engine/context.rs:162-168 | `from("x")` and the `steps` map (lines 227-236, 282-293) agree for every rendering iff the nearest typed value is the one stored beside the nearest step |
| ContextStore.FromDiffersFromSteps | src/engine/context.rs:162-168 | an inner step without typed value over an outer one with it makes the two accessors differ |
| ContextStore.RootsAgree | src/engine/context.rs:162-168 | in a context without parent the two accessors agree for every rendering |
| ContextStore.SessionManager.Capture | src/engine/context.rs:92-99 | the first session id wins |
| ContextStore.Context.constructor | src/engine/context.rs:44-60 | a fresh root context holds the variables and the target, nothing else |
| ContextStore.Context.Child | src/engine/context.rs:122-143 | a child starts empty, sees its parent chain and shares session and chat store |
| ContextStore.Context.Store | src/engine/context.rs:63-71 | storing sets one output in the innermost frame and captures an agent session first-wins; nothing else changes |
| ContextStore.Context.StoreParsed | src/engine/context.rs:111-113 | storing a typed value changes that entry of the innermost frame only |
| ContextStore.ChatSessions.Append | src/engine/context.rs:206-213 | messages are appended to one session, other sessions are untouched |
| Schema.TextIsFinal | src/steps/mod.rs:83-93 | the text of an output is that of the innermost final value of nested scope answers, by its kind |
| ScopeExecution.LayeredIffAcyclic | src/steps/call.rs:151-189 | the condition under which execution is shown to terminate: no closed walk of `call` and `repeat` references, the only ones that dispatch follows inside a scope |
| ScopeExecution.AcyclicIsLayered | src/workflow/validator.rs:41-47 | scopes that the validator finds free of circular references meet it |
| ScopeExecution.CircularMapIsLayered | src/steps/call.rs:151-189 | the converse fails: a scope that maps over itself is circular for the validator, yet its execution ends |
| ScopeExecution.DispatchStep | src/steps/call.rs:151-189 | dispatch terminates by rank and computes the recursive semantics; of its context only the chat store can change |
| ScopeExecution.RunScopeStep | src/steps/call.rs:69-100 | one iteration of a body loop: what is stored, what the last output becomes, and whether and how the body ends (the same in src/steps/map.rs:430-460 and src/steps/repeat.rs:85-130) |
| ScopeExecution.CallBody | src/steps/call.rs:69-100 | the call loop is the fold over (context, last output) for Ok, Break, Skip, Next and errors |
| ScopeExecution.CallExecute | src/steps/call.rs:42-124 | missing and unknown scopes are errors; otherwise one entry, the scope's result, in a context that inherits the target only |
| ScopeExecution.ExecuteScopeSteps | src/steps/map.rs:421-476 | the map body loop is the same fold |
| ScopeExecution.RepeatBody | src/steps/repeat.rs:85-133 | the repeat body loop is the same fold, and the break flag is set iff the fold broke |
| ScopeExecution.MakeChildContext | src/steps/map.rs:403-419 | a child context has the flattened variables, scope value and index, stack and prompts directory of its parent |
| ScopeExecution.RepeatExecute | src/steps/repeat.rs:42-162 | the outer loop computes the chained passes, with the default of three iterations |
| ScopeExecution.RepeatEntries | src/steps/repeat.rs:66-146 | entry k is pass k's output, and pass k+1 sees exactly the text of entry k as its scope value |
| ScopeExecution.RepeatStops | src/steps/repeat.rs:66-156 | at most `max_iterations` entries; fewer only after a break or a failure, which is reported |
| ScopeExecution.ChainOutcome | src/steps/repeat.rs:66-161 | the outcome of a repeat from its unbroken passes and the pass that ended it |
| ScopeExecution.SerialExecute | src/steps/map.rs:305-332 | the serial map computes the outcome of its items in order |
| ScopeExecution.SerialShape | src/steps/map.rs:305-332 | entries are the outputs of the items before the first failing one, by index; its error is the outcome |
| ScopeExecution.DispatchBounded | src/steps/call.rs:151-189 | dispatching a step starts at most a computable number of leaf executors, whatever they answer |
| ScopeExecution.BodyBounded | src/steps/call.rs:69-100 | the same bound for a body: the sum over its steps, times the iterations of each repeat |
| ScopeExecution.BoundAttained | src/steps/repeat.rs:66-146 | when all leaves succeed and every step can be dispatched the bound is met exactly |
| ScopeExecution.MapBounded | src/steps/map.rs:305-401 | the items a map starts, whichever and in any order, start at most the body's bound each |
| ScopeExecution.MapAttained | src/steps/map.rs:305-332 | when all leaves succeed a whole map meets that bound |
| ScopeLaws.DispatchIs | src/steps/call.rs:151-189 | which steps of a scope go to their own executor with the body's context, and the error of the kinds that are refused |
| ScopeLaws.BodyIs | src/steps/call.rs:69-100 | a body of any length (the same in src/steps/map.rs:430-460 and src/steps/repeat.rs:85-130), from the dispatched outcomes: each Ok output and each skip is stored for the next step, the step that ends the body leaves nothing and decides the end, and the last output is the value a break carries or that of the last Ok step |
| ScopeLaws.CallViewIs | src/steps/call.rs:59-65 | the body of a call sees the target as text and no other variable, output or chat |
| ScopeLaws.ChildViewIs | src/steps/map.rs:403-419 | the body of a map or repeat sees its value and index, all variables found in the outer context, the target as text, stack and prompts directory, and no outputs or chats |
| ScopeLaws.CallIs | src/steps/call.rs:42-124 | a call answers one entry, the last output of such a body or its rendered `outputs`, or the body's error |
| ScopeLaws.RepeatIs | src/steps/repeat.rs:42-162 | a repeat answers one entry per pass, at most three unless it says otherwise; pass k sees the initial value or the text of the output before it, and only a break or a failure ends it early |
| ScopeLaws.ItemIs | src/steps/map.rs:305-332 | item k of a map is the answer of the scope's body in a context whose scope value is that item and whose index is k (parallel: lines 334-371) |
| ScopeLaws.LeafItemIs | src/steps/map.rs:305-332 | when the body is one leaf that succeeds, entry k is what that leaf answers in that context |
| ScopeLaws.MapItemsIs | src/steps/map.rs:210-254 | a map without items, without a scope or over an unknown one fails; otherwise its items are read off the rendered text |
| ScopeLaws.MapEntries | src/steps/map.rs:371-401 | a successful answer has one entry per item, in order, each that item's output, and the last as its value; an error is some item's |
| ParallelMap.StepInv | src/steps/map.rs:343-385 | every spawn, permit, completion, join and finish keeps the invariant of the step machine |
| ParallelMap.Progress | src/steps/map.rs:355-371 | until a verdict some step is enabled |
| ParallelMap.StepShrinks | src/steps/map.rs:371-385 | every step uses up work, so no run goes on for ever |
| ParallelMap.ParallelRefinesSerial | src/steps/map.rs:334-401 | under every interleaving at most `parallel_count` items run at once, Ok comes exactly when all items succeed and is then the serial outcome, an error is some failing item's, a run without verdict can continue, and runs are at most 4n+2 states long |
| ParallelMap.MapStepRuns | src/steps/map.rs:334-401 | the same for the machine of a map step: its rendered items, each in its own context, and its `parallel` count as permits |
| ParallelMap.ParallelExecute | src/steps/map.rs:334-401 | the executor, taking the tasks in an arbitrary order, returns an answer of that kind |
| ParallelMap.MapExecute | src/steps/map.rs:210-285 | missing items, scope and rendering errors; then serial or parallel execution, either way an allowed answer |
| ParallelMap.SerialIsMapAnswer | src/steps/map.rs:305-332 | the serial outcome is itself an allowed answer |
| ParallelMap.MapAnswerIffJoined | src/steps/map.rs:371-401 | the allowed answers are exactly those for some order of joining the tasks: the first failure in that order, or the results by index |
| ParallelStep.LastDeclaredIffUnshared | src/steps/parallel.rs:72-107 | the last declared sub-step's output is returned under every join order iff its name is not shared |
| ParallelStep.RecordTask | src/steps/parallel.rs:73-93 | success and skip are recorded under the name, an error replaces the remembered one, a panic only fills an empty one |
| ParallelStep.JoinAll | src/steps/parallel.rs:69-108 | all sub-steps are joined and the answer is that of the join order and of the tasks a failure cancelled; Ok iff all contributed; an error is some sub-step's |
| ParallelStep.ErrorIs | src/steps/parallel.rs:73-98 | an error is reported iff some sub-step fails, and it is that of the last sub-step to fail that was not cancelled, panics aside; when all failures are panics, the first one |
| EngineRun.Engine.AwaitPendingStep | src/engine/mod.rs:1360-1392 | consumes one handle: success is stored and recorded, failure only reported |
| EngineRun.Engine.AwaitPendingDeps | src/engine/mod.rs:1325-1357 | awaits the pending steps that command, prompt and condition refer to in order, each once, until one fails (what the executor then sees: `RunLaws.ExecutorSees`) |
| EngineRun.Engine.ExecuteStep | src/engine/mod.rs:900-1134 | stores output and typed value of a successful step and records it; control flow leaves no record |
| EngineRun.Engine.RunSyncStep | src/engine/mod.rs:717-765 | reacts to Ok, Skip, Break and failures of a synchronous step |
| EngineRun.Engine.RunStep | src/engine/mod.rs:697-765 | one iteration: spawn, or await dependencies and execute |
| EngineRun.Engine.RestoreStep | src/engine/mod.rs:664-690 | a saved output before the resume point goes back into the context with a record |
| EngineRun.Engine.RunSteps | src/engine/mod.rs:658-767 | the loop with its resume flag computes the loop function |
| EngineRun.Engine.DrainOne | src/engine/mod.rs:773-829 | a leftover handle is awaited; its failure is recorded and fails nothing |
| EngineRun.Engine.Drain | src/engine/mod.rs:770-830 | every leftover handle is awaited exactly once, in any order, and none stays pending |
| EngineRun.Engine.Run | src/engine/mod.rs:584-898 | no state file and unknown resume step are errors; otherwise loop, drain, then the loop's failure or the last output |
| EngineRun.AsyncConservation | src/engine/mod.rs:697-830 | with unique names, after the drain nothing is pending, every spawned handle was awaited exactly once, each spawned step has exactly one record except one whose failure ended the loop |
| EngineRun.AsyncFailureNeedsReference | src/engine/mod.rs:715-717 | an asynchronous failure stops the loop iff a synchronous step the loop reaches refers to that step, in its command, prompt or condition, while it is pending (lines 1325-1392) |
| EngineRun.AwaitFailedIs | src/engine/mod.rs:1325-1392 | the failure names task and requester: exactly the first failing one among the pending tasks that the last step reached refers to, in the order of command, prompt and condition, and that step |
| EngineRun.ResumedAwaitFailedIs | src/engine/mod.rs:658-717 | the same for a loop with a resume point |
| EngineRun.ResumedFailureNeedsReference | src/engine/mod.rs:658-717 | the same for a loop with a resume point, from the state restored there |
| EngineRun.LoopFromIs | src/engine/mod.rs:664-690 | a resumed loop restores the steps before the resume point and runs the others |
| RunLaws.ExecutorSees | src/engine/mod.rs:1325-1357 | when the executor of a synchronous step is called, no task named in its command, prompt or condition is pending, the outputs of those that were are in the context, and every other handle is still pending |
| RunLaws.SyncStepIs | src/engine/mod.rs:717-765 | one executed step, from its executor's outcome: the typed check, what is stored, saved and recorded (lines 900-1134), and whether the loop goes on, leaves or stops |
| RunLaws.AsyncStepIs | src/engine/mod.rs:697-711 | an asynchronous step is spawned with the target and changes nothing else |
| RunLaws.RunEndings | src/engine/mod.rs:717-765 | a run stops with StepFailed iff some executed step fails that way, is broken iff some executed step breaks, completes iff every step was spawned or executed with Ok or Skip; nothing is reached behind the step that ends it |
| RunLaws.RunReturns | src/engine/mod.rs:717-898 | completed and broken runs return the output of the last executed Ok step, or the empty one; a failed run returns its cause |
| RunLaws.ResumedRunReturns | src/engine/mod.rs:664-690 | the same for a resumed run, from its resume point on |
| RunLaws.RunTraces | src/engine/mod.rs:717-765 | with unique names, what each step has left under its own name when the loop ends: output, typed value, saved output, handle; nothing when it was not reached or ended the run |
| RunLaws.DrainedIs | src/engine/mod.rs:773-829 | a drained task leaves its output if it succeeded, and one record either way |
| RunLaws.KindIs | src/engine/mod.rs:773-829 | that record carries the type of the step that spawned the task |
| RunLaws.FinalOutputs | src/engine/mod.rs:697-830 | after the drain every spawned step that succeeded has its output in the context, like the synchronous ones |
| RunLaws.RestoredIs | src/engine/mod.rs:664-690 | a restored step gets its saved output and a record, and nothing else changes |
| Resume.RestoreIff | src/engine/mod.rs:664-690 | restoring a finished prefix gives the state of running it, up to chats, iff each of its steps was synchronous, Ok and untyped; all of it iff the chat store was left alone too |
| Resume.ResumeEqualsRun | src/engine/mod.rs:658-767 | a resumed run ends like the uninterrupted one with the same outputs, typed values, session id and handles only under that condition on the prefix, and exactly then if the prefix left chats alone or the rest ignores them; same final output iff a remaining step produces one or the earlier one was empty |
| Resume.ResumeExactly | src/engine/mod.rs:658-767 | both runs end alike for every continuation, with the final output the same exactly when a remaining step produces one or the earlier one was the initial one, iff the prefix was synchronous, Ok, untyped and left the chat store alone |
| Resume.AnswerExactly | src/engine/mod.rs:655-898 | for every continuation the final output is the same as well iff in addition the last output before was the initial one |
| ResumeGuard.RestorableIffSaved | src/engine/mod.rs:719-725 | a finished prefix is restorable iff the state file holds an output of each of its steps and none is typed |
| ResumeGuard.KeptIffSilent | src/steps/chat.rs:485-512 | such a prefix left the chat store alone iff none of its steps is a chat step with a session |
| ResumeGuard.ResumeKnownSteps | src/engine/mod.rs:658-767 | when only one side of the resume point talks to chat sessions, both runs end alike iff the prefix is saved and untyped |
| ResumeGuard.ResumeIffSafe | src/engine/mod.rs:658-767 | over all continuations that use the chat store as src/steps/chat.rs does, both runs end alike iff the prefix is saved, untyped and without chat sessions |
| ResumeGuard.AnswerIffSafe | src/engine/mod.rs:655-898 | and return the same final output iff in addition the output saved last is the initial one |
| ResumeExamples.ChatHistoryIsLost | src/steps/chat.rs:485-512 | two chat steps on one session: the resumed run answers as if the first had not spoken |
| ResumeExamples.LastOutputIsLost | src/engine/mod.rs:655-656 | a command and a skipped gate: the run returns the command's output, the one resumed at the gate the empty one |
| ResumeExamples.AsyncStepIsLost | src/engine/mod.rs:697-711 | an asynchronous step before the resume point is pending in the whole run and gone in the resumed one |
| Resume.ResumedStateForgets | src/engine/mod.rs:719-725 | the state a resumed run saves holds no output of the skipped steps |
| ChatStep.ChatExecute | src/steps/chat.rs:416-524 | the executor's failures leave no trace; otherwise the provider sees the truncated history of the session, and prompt and answer are appended to it |
| ChatStep.ChatRunIs | src/steps/chat.rs:416-524 | a chat step fails without key, prompt or rendering; otherwise the provider gets the truncated history of the session with the prompt, and only an answer appends both to that session |
| ChatStep.LeavesWrite | src/steps/chat.rs:505-522 | of all leaf executors only an Ok chat step with a session changes the chat store, by one exchange in that session |
| ChatStep.LeavesHear | src/steps/chat.rs:482-491 | a leaf's outcome depends on no other part of the chat store than the history of its session |
| EngineExecutors.DispatchIgnoresChats | src/steps/call.rs:42-124 | a call or repeat neither sees nor changes the chats of the context it runs in |
| EngineExecutors.MapRunIsAllowed | src/steps/map.rs:210-300 | a map step of the assembled engine gives an answer that its items allow, transformed as configured |
| EngineExecutors.ParallelRunIs | src/steps/parallel.rs:42-109 | a parallel step: each sub-step sees the target only or is refused by its kind; without failure the answer is that of the last sub-step joined under the last declared name |
| EngineExecutors.EngineIsLawful | src/engine/mod.rs:936-985 | the engine's executors together use the chat store as the chat executor does: calls, repeats, maps and parallel steps run in contexts of their own |
| EngineExecutors.EngineResumeIffSafe | src/engine/mod.rs:658-767 | for the engine assembled from the modelled executors, a resume ends like the uninterrupted run over all such continuations iff the guard on workflow and state file holds |
| EngineExecutors.WorkflowBounded | src/engine/mod.rs:658-767 | every run of a workflow starts at most a computable number of leaf executors: one per plain step and parallel sub-step, the body's bound per item that a map finds when the run gets to it, and the bounds of calls and repeats |
| EngineExecutors.WorkflowLimited | src/engine/mod.rs:658-767 | the same from limits on the item counts of the maps that the run reaches |
| EngineExecutors.WorkflowAttained | src/engine/mod.rs:658-767 | a run that gets through all its steps meets the bound when leaves succeed, everything is started and scope steps can be dispatched |
| FromCalls.TransformFromCalls | src/engine/template.rs:132-194 | scanning on behind each replacement gives the rewritten text and the injected values, or the first missing step of an unsafe expression |
| FromCalls.NoCallLeft | src/engine/template.rs:132-194 | after rewriting no `from("` with a later quote is left |
| FromCalls.RewrittenSameIffNoCall | src/engine/template.rs:138-140 | an expression is left as it is iff it holds no call |
| FromCalls.NextCallIs | src/engine/template.rs:145-161 | the scanner finds a call iff one exists, and then the first; its name reaches to the next quote, and a parenthesis right behind is taken along |
| FromCalls.StepVarClean | src/engine/template.rs:198-210 | a variable name begins and ends with an underscore and holds neither quote nor dot |
| TemplatePreprocessor.PreprocessTemplate | src/engine/template.rs:25-123 | the scanner terminates and computes the piece-by-piece rewriting with one map of injected values |
| TemplatePreprocessor.ProcessExpression | src/engine/template.rs:71-111 | the four kinds of expression, their errors and their injections |
| TemplatePreprocessor.SafeExpression | src/engine/template.rs:72-76 | `{{ inner? }}` becomes the rewritten inner text with the empty text as its default |
| TemplatePreprocessor.StrictExpression | src/engine/template.rs:77-87 | `{{ inner! }}` passes iff all its calls find their steps and the rewritten path exists, and each error is true |
| TemplatePreprocessor.PromptExpression | src/engine/template.rs:88-96 | `{{ prompts.name }}` becomes a variable that holds the resolved prompt, resolved once |
| TemplatePreprocessor.PlainExpression | src/engine/template.rs:97-108 | any other expression is copied, or rewritten when it holds calls, all of which must find their steps |
| TemplatePreprocessor.NextPieceIs | src/engine/template.rs:30-115 | what opens first decides the next piece: all of the text, a closed or unclosed expression, a closed or unclosed tag |
| TemplatePreprocessor.UnlexLex | src/engine/template.rs:30-117 | cutting a template into pieces loses nothing, and every expression closes at its first `}}` |
| TemplatePreprocessor.AcceptedIff | src/engine/template.rs:71-111 | a template is accepted iff each closed expression is acceptable: unsafe calls exist, strict paths exist, prompts resolve or were needed before |
| TemplatePreprocessor.EachCallSeesItsStep | src/engine/template.rs:163-177 | the variable of a call holds the step's value iff the last found step sharing the variable has that value, so always when names sanitise distinctly |
| TemplatePreprocessor.MissingCallSeesSentinel | src/engine/template.rs:167-172 | a missing step of a safe expression is injected as the empty sentinel, unless a found step shares its variable |
| TemplatePreprocessor.CollidingNames | src/engine/template.rs:198-210 | `a-b` and `a_b` share a variable and only the second value survives |
| TemplatePreprocessor.IdentityIffUntouched | src/engine/template.rs:25-123 | the template comes back unchanged with nothing injected iff every closed expression uses no `?`, `!`, `prompts.` or call |
| StrictCalls.StrictCallIff | src/engine/template.rs:78-88 | a strict expression that begins with a call passes iff all called steps exist and the call's variable is itself a known name whose value the path fits |
| StrictCalls.StrictCallAlwaysFails | src/engine/template.rs:78-88 | a template with such an expression is refused when no step or variable name begins with `__from_` |
| StrictCalls.FieldOfStepRefused | src/engine/template.rs:78-88 | `{{ from("name").path! }}` is refused for every existing step whose variable is not a known name |
| StrictCalls.StrictOutputOfXIsRefused | src/engine/template.rs:78-88 | the template `{{ from("x").output! }}` for an existing step `x` |
| SseFrames.ChunkIndependentIff | src/cli/remote.rs:373-383 | every cutting into chunks leaves the frames and buffer of one drain, iff the stream holds no CR CR LF (buffer loop at lines 338-345) |
| SseFrames.CutBehindCrCrLf | src/cli/remote.rs:374-374 | cutting right behind a CR CR LF gives another result |
| SseFrames.DrainingResumes | src/cli/remote.rs:373-383 | draining the tail with a chunk behind it continues the draining of the whole |
| SseStream.ParseSseEvent | src/cli/remote.rs:385-408 | the last event name, all data lines joined, no event without data |
| SseStream.LogStream.DrainSseEvents | src/cli/remote.rs:373-383 | the buffer keeps the tail, the events of the complete frames come out in order |
| SseStream.LogStream.FollowLogs | src/cli/remote.rs:337-371 | the events shown are those up to the first that ends the stream |
| SseStream.UpToEndIs | src/cli/remote.rs:346-366 | no event shown is `done`, `error` or an unreadable snapshot or log, the one behind them is, and without such an event all are shown |
| SseStream.SameEvents | src/cli/remote.rs:338-345 | the same events come out and the same buffer is left however a clean stream is cut |
| SseRoundTrip.WireRoundTrip | src/cli/remote.rs:373-408 | messages in the form of section 9.2 of the WHATWG HTML Standard, cut anyhow, are read back up to leading white space of their fields, with nothing left over |
| SseRoundTrip.ReceivedAsMeantIff | src/cli/remote.rs:385-408 | that is exactly what was meant iff no name or data line begins with white space |
| SseCuts.NoColonNoEvents | src/cli/remote.rs:385-408 | a stream without a colon yields no event under any cutting, whether it holds CR CR LF or not |
| SseCuts.CutShows | src/cli/remote.rs:338-345 | the stream `data: x` CR CR LF LF yields other data when it is cut behind its first LF |
| SseCuts.EventsDependOnCut | src/cli/remote.rs:338-345 | the same for `a`: one drain gives `a` CR, the cut stream gives `a` |
| DurationGrammar.ParseDuration | crates/stepyard-core/src/duration.rs:108-176 | the index loop with its 128-bit checks and seven errors computes the parser function |
| DurationGrammar.AcceptedExactly | crates/stepyard-core/src/duration.rs:108-176 | accepted with a value iff the grammar gives the string that exact total and it fits 64 bits |
| DurationGrammar.ErrorIs | crates/stepyard-core/src/duration.rs:108-176 | each of the seven errors is true: empty, an illegal character, too large, or a stretch behind descending segments without digits or unit, with an unknown unit or out of order |
| DurationGrammar.Unambiguous | crates/stepyard-core/src/duration.rs:108-176 | a string denotes at most one duration |
| DurationGrammar.LimitNeverMatters | crates/stepyard-core/src/duration.rs:132-174 | the 128-bit checks only turn out-of-range or failing answers into overflow |
| DurationGrammar.Canonical | crates/stepyard-core/src/duration.rs:180-208 | the reducing printer spells the greedy segments |
| DurationGrammar.CanonicalDenotes | crates/stepyard-core/src/duration.rs:180-208 | the canonical text is in the grammar and denotes the number it was printed from |
| DurationGrammar.ParseCanonical | crates/stepyard-core/src/duration.rs:180-208 | parsing the canonical text gives the whole milliseconds, or overflow beyond 64 bits |
| DurationGrammar.RoundTripIff | crates/stepyard-core/src/duration.rs:108-208 | printing and parsing gives a duration back iff it is whole milliseconds within 64 bits |
| DurationGrammar.NanosecondIsLost | crates/stepyard-core/src/duration.rs:180-208 | one nanosecond prints as `0s` and is lost |
| DurationGrammar.CanonicalIsIdempotent | crates/stepyard-core/src/duration.rs:108-208 | canonicalising an accepted string keeps its value, and doing it twice is doing it once |
| DurationGrammar.SameCanonicalIffSameDuration | crates/stepyard-core/src/duration.rs:108-208 | two accepted strings canonicalise alike iff they denote the same duration |
| ConfigInheritance.InsertMissing | src/cli/harness_adapter.rs:438-456 | listed keys that are offered, not barred and not set are added, and no others |
| ConfigInheritance.InheritStepConfig | src/cli/harness_adapter.rs:421-460 | a step and its nested steps are completed from the workflow-level settings |
| ConfigInheritance.OwnKeysWin | src/cli/harness_adapter.rs:421-460 | own keys keep their values; a key is added iff the layer has it and it is one of the seven chat or two agent keys, the provider-bound three not for a step that chose another provider than the layer's (or than `anthropic`); `permissions` never is |
| ConfigInheritance.ChatTakesOver | src/cli/harness_adapter.rs:433-449 | the seven keys of a chat step with their values: its own, else the layer's, a text under `temperature` or `max_tokens` read as a number where it holds one (lines 462-477); `model`, `api_key_env` and `base_url` are not taken over by a step of another provider; every other key is as it was |
| ConfigInheritance.PassTakesOver | src/cli/harness_adapter.rs:402-460 | so it is for every step, and with the two agent keys for agent steps: at the top, in scopes and in nested bodies |
| ConfigInheritance.PassTwice | src/cli/harness_adapter.rs:402-419 | the whole pass is idempotent |
| ConfigInheritance.PassKeepsShape | src/cli/harness_adapter.rs:402-419 | nothing but the config of chat and agent steps changes: not at the top, not in scopes and their outputs, not in nested bodies |
| Adapter.AdaptTopLevel | src/cli/harness_adapter.rs:281-297 | top-level steps are translated in order, parallel bodies collected under their own names, the first error is returned |
| Adapter.AdaptOneScope | src/cli/harness_adapter.rs:322-351 | a scope body is translated step by step or refused with its first error |
| Adapter.Adapt | src/cli/harness_adapter.rs:270-320 | Ok iff every step and scope body is acceptable; top-level errors come before those of the scopes, which come in any order |
| Adapter.AcceptableIff | src/cli/harness_adapter.rs:270-351 | a definition is accepted iff each step, at its position, has what its kind needs: fields, resolving scope, legal gate actions, flat bodies, free scope names |
| Adapter.StepIsFaithful | src/cli/harness_adapter.rs:353-372 | a translated step keeps name, kind, scope and exactly the fields of its kind (lines 479-902), with the typed agent or chat fields and the JSON form of the initial value as they were read, and gate actions fit the position |
| Adapter.StepErrorIs | src/cli/harness_adapter.rs:353-372 | a step is refused iff some error is true of it (lines 479-1043), and the error reported is one that is: the missing field, the illegal gate action as written, the undeclared scope, the rejected config or initial value |
| Adapter.TopErrorIs | src/cli/harness_adapter.rs:281-297 | a top-level error is true of the first step that is not acceptable; for a parallel step also of the first faulty sub-step |
| Adapter.ScopeErrorIs | src/cli/harness_adapter.rs:322-351 | the error of a user scope is true of the first step of its body that has one |
| Adapter.TopLevelKept | src/cli/harness_adapter.rs:281-297 | names, kinds and order are kept, containers have a scope that resolves, top-level gate actions are legal (lines 1016-1043) |
| Adapter.UserScopeIsFlat | src/cli/harness_adapter.rs:322-351 | an accepted user scope holds no container, and its gate actions are legal in a scope |
| Adapter.ParallelScope | src/cli/harness_adapter.rs:913-967 | parallel step i points at `__parallel_i`, which no user scope is named, holding its flat body |
| Adapter.ParallelNameInjective | src/cli/harness_adapter.rs:917-917 | different indices give different scope names |
| Adapter.ScopesExactly | src/cli/harness_adapter.rs:299-307 | the scope names are the disjoint union of the user's and one per parallel step, counted exactly |
| Adapter.DepthOne | src/cli/harness_adapter.rs:969-988 | no scope of an accepted workflow refers to another scope |
| Adapter.GivenIsKept | src/cli/harness_adapter.rs:270-320 | an accepted definition, as given before inheritance, against the result: every step in place with its fields, user scopes with outputs, one more scope per parallel step, and no circular reference |
| Adapter.GivenIsRead | src/cli/harness_adapter.rs:270-320 | the typed fields of every agent and chat step, in scopes and parallel bodies too, were read from its given config completed from the workflow-level settings |
| Adapter.AcceptedIsAcyclic | src/cli/harness_adapter.rs:328-345 | an accepted definition has no circular reference in the validator's sense |
| ProgressView.ScopeProgressView.RenderNew | src/cli/commands.rs:337-381 | prints the entries numbered above the last one seen, in one pass |
| ProgressView.ScopeProgressView.RenderEntry | src/cli/commands.rs:341-379 | lines and state after one event |
| ProgressView.ScopeProgressView.PrintIterationHeader | src/cli/commands.rs:383-389 | a header exactly when container or iteration changed |
| ProgressView.ScopeProgressView.FlushTopLevelOutput | src/cli/commands.rs:391-395 | kept-back output is printed once |
| ProgressView.IncrementalIffOrdered | src/cli/commands.rs:337-341 | any series of snapshots renders the entries of one pass over the longest, iff the positive numbers of the log strictly increase |
| ProgressView.IncrementalEqualsOnePass | src/cli/commands.rs:337-389 | for such logs the lines are those of one pass, headers included, stale and repeated snapshots and flushes notwithstanding |
| ProgressView.PassFollows | src/cli/commands.rs:337-381 | behind any number of entries the view holds the last number, the scope of the last completed step, and the output of the last top-level command if verbose |
| ProgressView.PassPrints | src/cli/commands.rs:341-389 | each completed step of a scope prints its line, behind a header unless the last completed step was of the same iteration, and its output if verbose; nothing else prints |
| Truncation.TruncateMessages | src/steps/chat.rs:66-109 | the v1 form meets the meaning of each strategy; its plain subtraction never goes below zero |
| Truncation.ApplyTruncation | src/chat_client.rs:258-318 | the v2 form meets the same meaning |
| Truncation.TruncatedUnique | src/chat_client.rs:244-257 | that meaning leaves one result, so both forms return the same messages; a sliding window is the longest suffix within the budget |
| Truncation.NothingDuplicated | src/steps/chat.rs:77-89 | first-last keeps first+last messages, or all, and duplicates none |
| Stacks.BuildStackInfo | src/prompts/detector.rs:86-115 | given a number of links to follow, no result iff the walk is longer, which for at least as many links as stacks means that it never ends; otherwise the chain is the whole duplicate-free line of ancestors, and each merged tool is the nearest stack's |
| Stacks.WalkEndsIffAcyclic | src/prompts/detector.rs:88-96 | the parent walk ends iff no ancestor comes back |
| Stacks.EnoughLinks | src/prompts/detector.rs:88-96 | a walk that ends does so within as many links as there are stacks |
| Stacks.OwnParentNeverEnds | src/prompts/detector.rs:88-96 | a stack that is its own parent: the walk is never over |
| Stacks.MergedIsNearest | src/prompts/detector.rs:98-108 | merging from the root down answers like a lookup from the stack up |
| Stacks.Resolve | src/prompts/resolver.rs:22-67 | repeated candidates are an error; otherwise the first existing file, else the default, else an error |
| Stacks.ResolveSync | src/engine/template.rs:246-272 | the synchronous resolver makes the same choice without the check |
| Stacks.PickIs | src/prompts/resolver.rs:48-67 | that choice is the first of `<dir>/<function>/<candidate>.md.tera` that exists, then `_default.md.tera`, and it fails iff none does |
| Stacks.ResolversAgreeIff | src/prompts/resolver.rs:34-46 | the two resolvers agree for every set of files iff no candidate is repeated |
| Stacks.DetectedNeverCircular | src/prompts/resolver.rs:34-46 | for a stack built from the registry they agree and no circular chain is reported |
| Base64.Base64Encode | src/events/subscribers.rs:436-458 | the chunk loop computes the encoding with the standard alphabet |
| Base64.LengthOf | src/events/subscribers.rs:436-458 | four characters for every three bytes or part of them |
| Base64.PaddingAtEndOnly | src/events/subscribers.rs:446-455 | padding stands at the end only, as much as the input length demands |
| Base64.DecodeEncode | src/events/subscribers.rs:436-458 | a decoder by section 4 of RFC 4648 recovers the input, for any alphabet |
| Base64.RoundTrip | src/events/subscribers.rs:436-458 | the same for the standard alphabet, hence the encoding is injective |
| ShellQuote.QuotedIsOneWord | crates/stepyard-harness/src/container_workspace.rs:92-94 | read by sections 2.2.1 and 2.2.2 of the POSIX Shell Command Language, a quoted text is exactly one word, itself, alone and between blanks of a longer command |
| ShellQuote.QuoteAddsText | crates/stepyard-harness/src/container_workspace.rs:92-94 | wherever it stands outside quotes, a quoted text adds exactly itself to the word being read |
| ShellQuote.QuoteInjective | crates/stepyard-harness/src/container_workspace.rs:92-94 | different texts are quoted differently |

## Left out

- EngineRun.Engine.ExecuteStep: failures of event persistence, which the program returns as errors, are left out; so are sandbox, display, timings, token statistics and output summaries of a step. Its executor is a parameter.
- EngineRun.Engine.Run: finding and reading the state file is a parameter; the sandbox, event and session calls around the loop are left out, and with them their errors.
- EngineRun.Engine.AwaitPendingDeps: the regular expression is a parameter that lists the names a text refers to.
- ParallelMap.MapExecute: splitting the rendered items and the `collect` and `reduce` transformations of the result are left out; the latter use floating point.
- ParallelMap.ParallelExecute: runs the tasks one after the other, in any order; overlap and permits are in the step machine only, which MapStepRuns ties to the step's items.
- ParallelMap.ParallelRefinesSerial: an item's outcome is a function of the item and its own fresh context, so effects that items have on each other through the sandbox or the file system are left out.
- ScopeExecution.DispatchStep: leaf steps are functions of the step and its context; sandboxing and the resolution of a scope step's config are part of that parameter.
- TemplatePreprocessor.ProcessExpression: rendering the prompt file and reading a dotted path inside a JSON value are parameters.
- ResumeGuard.ResumeIffSafe: an executor answers alike when it sees the same context and the same history of its session, so effects through the sandbox, the file system, a provider's randomness or another order in which parallel tasks end are left out.
- ShellQuote.QuotedIsOneWord: stated for every text, also one that holds the NUL character, which no word of a real shell can.
- EngineExecutors.EngineIsLawful: the order in which the tasks of a map or parallel step are joined, and the tasks a failure cancels, are parameters that depend on the step only, so the two runs that are compared meet the same ones; the same holds for ResumeIffSafe.
- ChatStep.ChatExecute: reading the config, the API key, template rendering, the token estimate and the provider's answer are parameters; timeouts are failures of the provider.
- Stacks.BuildStackInfo: the program's walk has no bound; the model's follows a given number of links, so that it also has an answer where the program does not return.
- SseStream.LogStream.FollowLogs: streams are characters, so the lossy decoding of each network chunk is left out, as are the JSON payloads of the events.
- Adapter.Adapt: the typed agent and chat fields are read by parameters, and branch settings are not carried.
- Truncation.TruncatedUnique: token estimates are a parameter, so the factor of the heuristic does not matter.
- ProgressView.ScopeProgressView.RenderEntry: durations and colours of the printed lines are left out.
- Errors carry the names they mention, not their full message texts.
- The harness engine, the session store and the sandbox orchestrator are not part of this model.
- Provider clients, Slack, the dashboard requests, process spawning and containers, the setup wizard: input and output only.
- Template rendering, YAML and JSON parsing, scripts and regular expressions: parameters wherever they matter.
- Plugin config validation, gate truthiness, provider aliases, mode and runtime selection: flat tables that would only add easy members.
