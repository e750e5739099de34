# Verified models of the orchestrator's concurrent cores

Dafny models of the parts of this repository in which several things happen at once, or
in which a data structure stands for a simpler one, and proofs of what they promise in
every run. Nothing here was executed. `dafny verify dfyconfig.toml` checks the project.

| part | modules | models |
|---|---|---|
| Workflow scheduler | `WorkflowGraph`, `DagValidator`, `Scheduler`, `SchedulerInvariant`, `SchedulerTheorems`, `Executor`, `WorkflowRuns` | Kahn's algorithm; the scheduling loop, its one-bit notification, the concurrency limit, lazy and eager skipping, and the lifecycles it launches |
| One step | `StepLifecycle`, `Convergence`, `StallSignal`, `SignalLists`, `SignalKey`, `Text` | the retry and iteration loop of a step, the convergence controller, and the key under which failing checks compare |
| Agent task store | `TaskStore`, `TaskFiles`, `ClaimRace` | tasks in five directories, dependencies through replacement chains, unblocking, and the race for one task |
| Agent mailbox | `Mailbox`, `InboxFiles` | delivery, claim tokens, acknowledgement, requeueing and dead-lettering |
| Admission control | `ExecutionBudget`, `PermitGate` | the ring buffer of the rate limit, the budget, and the gate with its deadline timers |
| Job queue | `JobQueue` | the binary heap of the scheduler |
| Stream framing | `Framing` | `Content-Length` framing: the header part of the Base Protocol section of the Language Server Protocol 3.17 |
| Workspace lock | `WorkspaceLock` | locks with time limits and their queues of waiting calls |

How the models are built:

* A protocol is a state machine. A transition is what the code does between two awaits
  (scheduler, gate, lock), one whole operation (task store, mailbox), or one system call
  (claim race). Runs are arbitrary sequences of transitions; what workers, checks, clocks
  and file sizes do is chosen by the environment.
* Code that updates objects in place is a class. Its methods are proved to make a
  transition of the machine, and the theorems are about all runs of the machine.
* The scheduler's passes over the steps are relations that do not mention the visiting
  order, so the theorems hold for every order; the class visits in insertion order.
* A step's own execution comes to an `Outcome`: a terminal status, and whether its
  lifecycle called `skipDependents`. `StepLifecycle` proves that the lifecycle always
  yields such an outcome, and which; `WorkflowRuns` puts the two together.

Where the code does not keep what one would expect, the exact condition is proved:

* A workflow at rest is finished if and only if no lifecycle left through an exception
  and the concurrency limit is at least one, or there are no steps (`RestIsCompletion`,
  `RestsStarved`, `RestsAfterException`). An exception leaves the
  step RUNNING for good, since its promise is dropped in `launchStep`.
* `completeTask` checks artifact paths after the rename and returns without moving the
  file back: it stays in completed/ with status in_progress for ever (`StepConsistent`,
  `ConsistentExactly`, `StrayForever`).
* A degraded grant costs half its hint, rounded up, which is more than the hint for hints
  strictly between zero and one. The budget can allow such a request and then refuse it
  if and only if the hint fits the cost budget and that budget is below one or a second
  slot exists (`LosesRaceExactly`, `LosesAtOnce`, `LosesBesideAnother`).
* With `maxDeliveryAttempts` below one a message is still delivered once
  (`BoundNeedsOneAttempt`).
* Signal keys are equal if and only if the lists, sorted by code units, spell the same
  lines, so items with line breaks can collide (`KeyExactly`, `KeyCollides`,
  `KeyCollidesBeyondPlane`); and a fingerprint that starts with "reason:" can meet a
  reason (`SignalExactly`, `FingerprintMeetsReason`).
* `acquire` on an expired lock wakes a waiter, which takes the lock, and then writes its
  own entry over it: two callers hold the lock, if and only if the queue was not empty
  (`ExclusiveExactly`, `ExclusiveRunExactly`, `TwoHolders`; a grant counts until its entry
  is released, forced out or taken off for its age). When it is a waiting call that does
  so and two others queue, the second of them is passed over (`NextInTurn`,
  `ServedOutOfTurn`). `isLocked` answers no in the same situation although
  the waiter has just been given the lock (`NotLockedExactly`, `NotLockedButHeld`).

## Model

| member | source | states |
|---|---|---|
| `WorkflowGraph.FinalIgnoresRanking` | src/workflow/executor.ts:262-292 | the final status map (SKIPPED behind a dependency that stops, else the step's own outcome) is the same under every ranking of the graph |
| `SchedulerInvariant.SkipRestores` | src/workflow/executor.ts:2840-2884 | eager skipping of the dependents of a failed step brings every waiting step back into order |
| `SchedulerInvariant.NextKeepsInv` | src/workflow/executor.ts:729-790 | every event keeps the invariant |
| `SchedulerInvariant.RunKeepsInv` | src/workflow/executor.ts:729-790 | the invariant holds in every state of every run |
| `SchedulerTheorems.TerminalIsFinal` | src/workflow/executor.ts:262-292 | in every reachable state every terminal status is the one of the final map |
| `SchedulerTheorems.Confluence` | src/workflow/executor.ts:796-912 | two complete runs with the same outcomes end in the same status map, the final map, whatever the finishing order, visiting order, notifications and concurrency limits |
| `SchedulerTheorems.NoLostWakeup` | src/workflow/executor.ts:754-790 | whenever the loop is suspended, some launched lifecycle still owes its final notify, unless one has thrown |
| `SchedulerTheorems.RestIsCompletion` | src/workflow/executor.ts:729-752 | a run at rest has finished all steps if and only if no lifecycle threw and the limit is at least one (or there are no steps) |
| `SchedulerTheorems.RestsStarved` | src/workflow/executor.ts:878-880 | a run with limit zero that rests with its step ready for ever |
| `SchedulerTheorems.RestsAfterException` | src/workflow/executor.ts:1694-1727 | a run that rests after an exception, its step RUNNING for ever |
| `SchedulerTheorems.RunsAreFinite` | src/workflow/executor.ts:729-790 | the length of every run is at most five events a step, two a progress notification, and one |
| `SchedulerTheorems.UnfinishedCanGoOn` | src/workflow/executor.ts:729-790 | a state that is not at rest always has a next event other than an exception |
| `SchedulerTheorems.ExecutionIsSafe` | src/workflow/executor.ts:796-912 | while a step is RUNNING or CHECKING all its dependencies are terminal, allow progress and were never passed to `skipDependents` |
| `SchedulerTheorems.SlotsAreBounded` | src/workflow/executor.ts:878-890 | the executing steps whose lifecycle has not thrown are at most `runningCount`, which is at most the concurrency limit; the steps that show as executing exceed it by at most those that threw |
| `SchedulerTheorems.LaunchedOnce` | src/workflow/executor.ts:886-909 | a step whose lifecycle one event starts is started by no later event |
| `SchedulerTheorems.EventExactly` | src/workflow/executor.ts:1380-1727 | what each event of a lifecycle does to its step, its slot and the loop |
| `WorkflowGraph.SkippedExactly` | src/workflow/executor.ts:262-292 | the final map in closed form: a step is SKIPPED if and only if the own outcome of some ancestor stops its dependents |
| `SchedulerTheorems.FinishedExactly` | src/workflow/executor.ts:2840-2884 | in a finished run a step is SKIPPED if and only if the own outcome of some ancestor stops its dependents, and otherwise has its own outcome |
| `SchedulerTheorems.SkippedHasRootCause` | src/workflow/executor.ts:2840-2884 | every SKIPPED step has a FAILED or CANCELLED ancestor |
| `SchedulerTheorems.SuccessMeansSuccess` | src/workflow/executor.ts:2927-2943 | a finished workflow reports success if and only if every step is SUCCEEDED, INCOMPLETE or OMITTED |
| `SchedulerTheorems.ResultExactly` | src/workflow/executor.ts:2935-2943 | a finished workflow is FAILED if and only if some step that no ancestor stops fails by its own outcome, else CANCELLED if and only if one is cancelled, else SUCCEEDED |
| `SchedulerTheorems.SuccessIsNoFailure` | src/workflow/executor.ts:2927-2943 | a finished workflow reports success if and only if no step's own execution fails or is cancelled |
| `WorkflowRuns.LifecyclesFit` | src/workflow/executor.ts:1075-1695 | lifecycles yield the outcomes the scheduler works with, convergence failures included |
| `WorkflowRuns.LifecyclesDrive` | src/workflow/executor.ts:886-909 | whatever the configuration and the answers of workers and checks, the lifecycles drive some workflow of the machine |
| `WorkflowRuns.FinishedMeans` | src/workflow/executor.ts:729-912 | in a finished workflow a step is SKIPPED if and only if a dependency was skipped, or failed with a policy or a cause that stops dependents; otherwise it ends as its lifecycle does |
| `WorkflowRuns.WorkflowRunsAreBounded` | src/workflow/executor.ts:886-909 | the lifecycles that any run of the scheduler starts run at most as many workers as the configuration allows the steps, once each |
| `WorkflowRuns.ConfigurationBoundsRuns` | src/workflow/executor.ts:729-790 | the configuration of the steps alone bounds the length of every run |
| `Executor.WorkflowExecutor.constructor` | src/workflow/executor.ts:729-732 | a new executor is in the initial state of the machine |
| `Executor.WorkflowExecutor.Notify` | src/workflow/executor.ts:782-790 | wakes the suspended loop or sets the one-bit notification |
| `Executor.WorkflowExecutor.UpdateReadySteps` | src/workflow/executor.ts:796-854 | the in-place pass satisfies the order-free readiness relation and notifies if and only if it skipped a step |
| `Executor.WorkflowExecutor.LaunchReadySteps` | src/workflow/executor.ts:860-884 | launches READY steps while slots are free and leaves one READY only when no slot is |
| `Executor.WorkflowExecutor.AllStepsTerminal` | src/workflow/executor.ts:2923-2925 | true if and only if every step is terminal |
| `Executor.WorkflowExecutor.WaitForNotification` | src/workflow/executor.ts:754-780 | a pending notification is consumed, otherwise the loop suspends |
| `Executor.WorkflowExecutor.SchedulingTurn` | src/workflow/executor.ts:729-752 | one turn of the loop is one wake event of the machine |
| `Executor.WorkflowExecutor.SkipDependents` | src/workflow/executor.ts:2840-2884 | skips exactly the waiting steps behind the failed step or behind a skipped one, and ends |
| `Executor.WorkflowExecutor.HandleFailurePolicy` | src/workflow/executor.ts:2823-2838 | FATAL always skips the dependents, otherwise unless the policy is to continue |
| `Executor.WorkflowExecutor.SkipByCause` | src/workflow/executor.ts:1308-1681 | which causes of failure skip the dependents, through the policy or past it |
| `Executor.WorkflowExecutor.SettleStep` | src/workflow/executor.ts:1308-1695 | a lifecycle that ends with a status and a cause of failure makes one settle event of the machine |
| `Executor.WorkflowExecutor.FailByConvergence` | src/workflow/executor.ts:2699-2706 | the FAILED written by the convergence controller is one event, before any skipping |
| `Executor.WorkflowExecutor.FinishFailing` | src/workflow/executor.ts:1646-1660 | skipping by policy and the slot release are the next event of that lifecycle |
| `Executor.WorkflowExecutor.CrashStep` | src/workflow/executor.ts:1694-1695 | an exception is one crash event: the status stays, the slot is given back |
| `Executor.WorkflowExecutor.ReportProgress` | src/workflow/executor.ts:1386-1400 | a progress notification is one event of the machine |
| `Executor.WorkflowExecutor.FinishLifecycle` | src/workflow/executor.ts:1726-1727 | the final notify is the last event of a lifecycle |
| `Executor.WorkflowExecutor.WorkflowResult` | src/workflow/executor.ts:2927-2944 | an aborted workflow is CANCELLED, or TIMED_OUT after a timeout; otherwise FAILED before CANCELLED before SUCCEEDED |
| `DagValidator.DetectCycles` | src/workflow/dag-validator.ts:106-166 | reports nothing if and only if the known dependencies admit a ranking; otherwise names, once each, exactly the steps on or behind a cycle |
| `DagValidator.ValidateDag` | src/workflow/dag-validator.ts:14-104 | nothing is reported if and only if the graph is acyclic and in every step each dependency is known, each input is from a dependency, output and export names do not repeat, output paths are relative without "..", and a completion check comes with at least two iterations |
| `DagValidator.UnknownDeps` | src/workflow/dag-validator.ts:18-30 | one error for each occurrence of an unknown dependency and no other |
| `DagValidator.CheckOutputs` | src/workflow/dag-validator.ts:46-68 | the errors of the outputs, one for each repeated name and each unsafe path, and none if and only if there is neither |
| `DagValidator.SafePathExactly` | src/workflow/dag-validator.ts:60 | a path is refused if and only if it begins with a slash or contains two dots in a row |
| `DagValidator.RepeatedExactly` | src/workflow/dag-validator.ts:48-58 | every name is reported once less often than it occurs |
| `StepLifecycle.RunStepLifecycle` | src/workflow/executor.ts:1075-1694 | the loop of the executor computes the same outcome, worker runs and checks as the recursive lifecycle |
| `StepLifecycle.EndedByAnswers` | src/workflow/executor.ts:1094-1692 | by the answers alone: none but the last could end the step; the last one says the cause, and cause and policy the outcome; of an incomplete last check two breakdowns come before the controller, and the controller before the iterations |
| `StepLifecycle.FatalIsFinal` | src/workflow/executor.ts:1101-1348 | a fatal worker failure, an exception of worker or check, a fatal stall and a lost branch are the last answer, fail the step and skip its dependents, whatever the policy is |
| `StepLifecycle.RetriesExactly` | src/workflow/executor.ts:1316-1345 | a worker failure that is not fatal is tried again if and only if the policy is to retry and it is at most the `max_retries`-th in a row; else the step fails by its policy |
| `StepLifecycle.LifecycleTerminates` | src/workflow/executor.ts:1308-1692 | at most max(1, max_iterations) * (max_retries + 1) worker runs and max(1, max_iterations) checks, whatever the environment does, and a valid terminal outcome; fewer without a check or without the retry policy |
| `StepLifecycle.RunBoundIsReached` | src/workflow/executor.ts:1308-1692 | for every configuration some environment uses the bound on worker runs up exactly |
| `StepLifecycle.WhoStopsDependents` | src/workflow/executor.ts:1101-1681 | a failed step stops its dependents if and only if its policy is not to continue or the failure was fatal, lost the branch or used up the iterations; and exactly when its lifecycle skips them itself |
| `StepLifecycle.SuccessExactly` | src/workflow/executor.ts:1369-1617 | SUCCEEDED if and only if the last attempt succeeded and the last check, if any, said complete |
| `StepLifecycle.IncompleteMeansUsedUp` | src/workflow/executor.ts:1662-1681 | INCOMPLETE only after the last allowed iteration and only under the policy to continue |
| `StepLifecycle.StallEndsStep` | src/workflow/executor.ts:1645-1660 | while checks keep the same signal they are at most as many as the convergence bound, and the step ends FAILED by the controller if and only if they are that many |
| `StepLifecycle.InfraExactly` | src/workflow/executor.ts:1619-1643 | a step is given up for its infrastructure if and only if its last two checks broke down one right after the other |
| `Convergence.StepProgress.UpdateConvergenceState` | src/workflow/executor.ts:2606-2710 | the three fields after one incomplete check, and whether the step fails |
| `Convergence.StageIsMonotone` | src/workflow/executor.ts:2684-2688 | every reachable stage lies between one and the maximum, and never goes down |
| `Convergence.FailsExactlyAt` | src/workflow/executor.ts:2639-2707 | checks with one signal, mixed with checks without signals, fail the step if and only if they are as many as were left |
| `Convergence.ConvergenceBound` | src/workflow/executor.ts:2680-2707 | max(1, max_stage - 1) * stall_threshold equal signals fail the step from any reachable state, and from a fresh one exactly that many do |
| `Convergence.SameFailureEndsStep` | src/workflow/executor.ts:2606-2707 | as many reports of the same failure as that bound says end the step, however each check orders, repeats or pads its lists |
| `Convergence.NeverFailsWithoutPolicy` | src/workflow/executor.ts:2699-2709 | without `fail_on_max_stage` the controller never fails a step |
| `SignalLists.NormalizeSignalList` | src/workflow/executor.ts:3186-3206 | the two loops keep the first non-blank items up to the limit, trimmed and cut, without repetition |
| `SignalLists.NormalizedExactly` | src/workflow/executor.ts:3186-3206 | what is kept are the first items that are not blank, up to the limit, trimmed and cut, each once |
| `SignalLists.CutExactly` | src/workflow/executor.ts:3193 | an item is cut to the longest beginning of at most 240 UTF-16 code units |
| `Text.TrimExactly` | src/workflow/executor.ts:3191-3192 | trimming takes the white space off both ends and nothing else |
| `StallSignal.InputsExactly` | src/workflow/executor.ts:2623-2638 | a check is known by the first forty items of its fingerprints, or without any by those of its reasons marked "reason:", or by nothing |
| `SignalKey.LessIsUnitOrder` | src/workflow/executor.ts:3218 | the order of the sorted list is the order by UTF-16 code units |
| `SignalKey.KeyOfSet` | src/workflow/executor.ts:3217-3222 | the key depends only on the set of trimmed strings |
| `SignalKey.KeyExactly` | src/workflow/executor.ts:3217-3222 | two keys are equal if and only if the sorted lists spell the same lines, however these are cut into items |
| `SignalKey.KeyIsExact` | src/workflow/executor.ts:3217-3222 | a consequence for lists of one-line strings: the keys are equal if and only if the sets are |
| `SignalKey.KeyCollides` | src/workflow/executor.ts:3219-3220 | a line break inside a string makes two different sets share a key |
| `SignalKey.KeyCollidesBeyondPlane` | src/workflow/executor.ts:3218-3220 | a collision that comes of sorting by code units: U+10000 before U+FFFD |
| `StallSignal.SignalExactly` | src/workflow/executor.ts:2623-2655 | two checks count as the same failure if and only if what their lists come to spells the same lines, or neither has any |
| `StallSignal.SignalIsExact` | src/workflow/executor.ts:2623-2655 | a consequence for one-line items: if and only if the sets of what their lists come to are equal |
| `StallSignal.FingerprintMeetsReason` | src/workflow/executor.ts:2633-2637 | a fingerprint that reads like a reason: for every short enough text two different checks share a signal, without any line break |
| `StallSignal.SignalOfSets` | src/workflow/executor.ts:2623-2655 | two checks whose lists mean the same sets have the same signal |
| `TaskStore.ResolvedIffChain` | src/agents/task-store.ts:155-170 | a dependency is resolved if and only if its replacement chain reaches a completed task or a superseded one without replacement; a cyclic chain is not |
| `TaskStore.ResolutionIsMonotone` | src/agents/task-store.ts:155-170 | no operation makes a resolved dependency unresolved |
| `TaskStore.StepKeepsInv` | src/agents/task-store.ts:51-540 | every operation keeps the invariant |
| `TaskStore.RunKeepsInv` | src/agents/task-store.ts:51-540 | every run keeps the invariant |
| `TaskStore.AddedStays` | src/agents/task-store.ts:51-75 | an added task is in the store after every run that follows, with the dependencies and the assignee it was added with |
| `TaskStore.EveryTaskWasAdded` | src/agents/task-store.ts:51-75 | every task of the store was added, with the terms it has |
| `TaskStore.ClaimExactly` | src/agents/task-store.ts:268-373 | a claim succeeds if and only if the task waits, the member may have it, its dependencies are resolved and the file fits; with unresolved dependencies it blocks the task; else nothing changes |
| `TaskStore.UnblockedExactly` | src/agents/task-store.ts:187-232 | exactly the blocked tasks with resolved dependencies become pending and unclaimed |
| `TaskStore.CompleteExactly` | src/agents/task-store.ts:379-465 | who can complete a task in progress, and what else is answered |
| `TaskStore.SupersedeExactly` | src/agents/task-store.ts:468-540 | an open task, and no other, can be superseded; it is resolved if and only if its replacement is, or there is none |
| `TaskStore.SupersededStays` | src/agents/task-store.ts:468-540 | the replacement is kept for ever |
| `TaskStore.HousekeepExactly` | src/agents/housekeeping.ts:189-267 | housekeeping requeues exactly the stale tasks in progress |
| `TaskStore.NoStrandedTask` | src/agents/task-store.ts:187-232 | after every run each blocked task has a dependency, of those it was added with, that is not resolved |
| `TaskStore.DependenciesAreClosed` | src/agents/task-store.ts:315-349 | in every reachable state each started or completed task has all the dependencies it was added with resolved |
| `TaskStore.ConsistentExactly` | src/agents/task-store.ts:422-431 | after a run directories and statuses agree if and only if no one who may complete a task in progress named an unacceptable artifact path for it |
| `TaskStore.StepConsistent` | src/agents/task-store.ts:422-431 | the same for one operation |
| `TaskStore.StrayForever` | src/agents/task-store.ts:422-431 | such a file is never touched again and nothing that depends on it can start |
| `TaskStore.StrayExample` | src/agents/task-store.ts:422-431 | a run of three operations that leaves such a file |
| `TaskStore.AssigneeWorks` | src/agents/task-store.ts:138-146 | in every reachable state a started or completed task is claimed, and by the assignee it was added with, if any |
| `TaskStore.ClaimHolds` | src/agents/task-store.ts:268-420 | from a successful claim until the task leaves in_progress/, no one can claim it and no other member can complete it |
| `TaskFiles.TaskDirectory.AddTask` | src/agents/task-store.ts:51-97 | adds a pending task, or nothing when it is too large |
| `TaskFiles.TaskDirectory.ClaimTask` | src/agents/task-store.ts:268-373 | the renames and rewrites of a claim come to the claim operation, on every path |
| `TaskFiles.TaskDirectory.CompleteTask` | src/agents/task-store.ts:379-465 | the same for a completion, with its unblocking |
| `TaskFiles.TaskDirectory.SupersedeTask` | src/agents/task-store.ts:468-540 | the same for superseding, from any of the three open directories |
| `TaskFiles.TaskDirectory.UnblockSatisfiedBlockedTasks` | src/agents/task-store.ts:187-232 | the loop requeues exactly the blocked tasks whose dependencies are satisfied, in any order, and returns their number |
| `TaskFiles.TaskDirectory.HousekeepTasksInProgress` | src/agents/housekeeping.ts:189-267 | requeues exactly the stale tasks in progress and counts them |
| `TaskFiles.TaskDirectory.HasActionableTaskForMember` | src/agents/task-store.ts:234-255 | unblocks, then answers if and only if the member has work or may claim some |
| `TaskFiles.ActionableExactly` | src/agents/task-store.ts:234-255 | there is work for a member exactly in its own tasks in progress and in those it could claim |
| `ClaimRace.AtMostOneClaims` | src/agents/task-store.ts:268-373 | in every interleaving of any number of claims at most one succeeds, the file is always in exactly one directory, and a success leaves it in progress under the winner |
| `ClaimRace.SoloIsClaim` | src/agents/task-store.ts:268-373 | left alone, the system calls of a claim come to the claim operation of the task store |
| `Mailbox.NextKeepsInv` | src/agents/store.ts:233-669 | every operation keeps the invariant on files, claims, acks and tokens |
| `Mailbox.RunKeepsInv` | src/agents/store.ts:233-669 | every run keeps it |
| `Mailbox.LifecycleIsBounded` | src/agents/housekeeping.ts:63-157 | over every run a file is in exactly one directory, claimed at most as often as allowed and acknowledged at most once, never after dead-lettering; a message is dead-lettered only when it was claimed as often as allowed |
| `Mailbox.NothingIsLost` | src/agents/housekeeping.ts:63-157 | a delivered message never disappears |
| `Mailbox.SettledIsFinal` | src/agents/housekeeping.ts:100-125 | an acknowledged or dead-lettered message is never claimed or acknowledged again |
| `Mailbox.TokenAcksItsDelivery` | src/agents/store.ts:554-584 | a token acknowledges only the delivery it was minted for, never a later one, and only within its lifetime |
| `Mailbox.TokenIsGood` | src/agents/store.ts:554-584 | the token of a delivery in hand acknowledges it if and only if at most ten minutes have passed since the claim |
| `Mailbox.DeliveredExactly` | src/agents/store.ts:233-293 | a delivered message waits for its first delivery; no other file moves |
| `Mailbox.ClaimedExactly` | src/agents/store.ts:465-521 | a waiting message, and no other, is claimed: it keeps its attempt and bears the token for ten minutes; no other file moves |
| `Mailbox.AckedExactly` | src/agents/store.ts:628-669 | a message in processing, and no other, is acknowledged; no other file moves |
| `Mailbox.SweptExactly` | src/agents/housekeeping.ts:63-157 | a stale message waits for its next delivery without a token, unless it was delivered as often as allowed: then it is given up |
| `Mailbox.NextExists` | src/agents/store.ts:233-669 | every operation has a next state |
| `Mailbox.BoundNeedsOneAttempt` | src/agents/housekeeping.ts:98-100 | claims are bounded by `maxDeliveryAttempts` if and only if that is at least one |
| `InboxFiles.InboxDirectory.DeliverMessage` | src/agents/store.ts:233-276 | a message that fits appears in new/ with attempt one; a larger one changes nothing |
| `InboxFiles.InboxDirectory.ClaimMessage` | src/agents/store.ts:465-522 | from new/ to processing/ under a fresh token, if and only if it is in new/ |
| `InboxFiles.InboxDirectory.AckMessage` | src/agents/store.ts:628-669 | from processing/ to cur/, if and only if it is in processing/ |
| `InboxFiles.InboxDirectory.AckMessageByClaimToken` | src/agents/store.ts:554-584 | acknowledges if and only if a file bears the token and it has not expired |
| `InboxFiles.InboxDirectory.RecvMessages` | src/agents/store.ts:380-455 | returns the first entries in order, and with claim has claimed exactly those |
| `InboxFiles.InboxDirectory.SweepFile` | src/agents/housekeeping.ts:88-152 | one stale file is requeued with one more attempt or dead-lettered |
| `InboxFiles.InboxDirectory.HousekeepMailbox` | src/agents/housekeeping.ts:44-160 | every stale file is swept, no other is touched, and the two counters are the numbers of messages requeued and given up |
| `ExecutionBudget.RpsRingBuffer.CountInWindow` | src/core/execution-budget.ts:22-33 | evicts exactly the entries at or before the start of the window, read as a queue |
| `ExecutionBudget.RpsRingBuffer.Push` | src/core/execution-budget.ts:36-40 | appends to the queue if and only if the buffer is not full; otherwise the ring loses its bearings |
| `ExecutionBudget.RingContents` | src/core/execution-budget.ts:10-41 | the ring read as a queue: every entry is where the modular arithmetic puts it |
| `ExecutionBudget.BudgetKeeper.CanIssue` | src/core/execution-budget.ts:99-124 | the reason of refusal, in the order of the checks; only the ring is trimmed |
| `ExecutionBudget.BudgetKeeper.Consume` | src/core/execution-budget.ts:126-151 | takes slot, rate and cost together or not at all |
| `ExecutionBudget.BudgetKeeper.Release` | src/core/execution-budget.ts:153-160 | gives slot and cost back, clamped at zero |
| `PermitGate.GateKeeper.RequestPermit` | src/core/permit-gate.ts:20-86 | every branch of a request, from shedding to a lost race, and the new state of gate and budget |
| `PermitGate.GateKeeper.RevokePermit` | src/core/permit-gate.ts:88-104 | aborts and releases an active permit, otherwise nothing |
| `PermitGate.GateKeeper.CompletePermit` | src/core/permit-gate.ts:106-118 | releases an active permit, its cost and its timer, otherwise nothing |
| `PermitGate.GrantedExactly` | src/core/permit-gate.ts:49-83 | a permit costs its hint, or under degradation half of it rounded up to a whole number; its deadline is the time-out after it is issued; exactly this cost, one slot and one grant are taken |
| `PermitGate.AnsweredExactly` | src/core/permit-gate.ts:20-48 | which answer a request gets, by backpressure, circuit breaker and history; without a grant no permit, timer, slot or cost changes |
| `PermitGate.PermitEnds` | src/core/permit-gate.ts:88-118 | a permit stays as granted until it is completed, revoked or past its deadline; then its slot and cost are free and no other permit changes |
| `PermitGate.StepKeepsInv` | src/core/permit-gate.ts:20-118 | so does every event, deadline timers included |
| `PermitGate.PermitsAreConserved` | src/core/permit-gate.ts:20-118 | over every interleaving the slots taken are the active permits, within the limit; the cost total is the sum of their costs, within the budget; every active permit has a timer at its deadline and there are no others |
| `PermitGate.RateIsBounded` | src/core/execution-budget.ts:126-151 | for every time at most `maxRps` permits were granted in the second up to it |
| `PermitGate.RingIsTheWindow` | src/core/execution-budget.ts:22-33 | whenever the rate is looked at, the ring holds exactly the unexpired grants in order |
| `PermitGate.RefusedExactly` | src/core/execution-budget.ts:99-124 | the budget's answer said by history: active permits, permits granted in the last second, and the sum of the active permits' costs |
| `PermitGate.ClampsNeverAct` | src/core/execution-budget.ts:153-160 | on every release the slot and the cost being given back are there |
| `PermitGate.NoRaceIsLost` | src/core/permit-gate.ts:43-76 | consuming never fails after the budget allowed the job, for safe hints |
| `PermitGate.LosesRaceExactly` | src/core/permit-gate.ts:43-76 | some run comes to a request that the budget allows and then refuses if and only if both limits are at least one, the request is degraded, its hint lies strictly between zero and one and fits the cost budget, and either that budget is below one or a second slot exists |
| `PermitGate.LosesAtOnce` | src/core/permit-gate.ts:54-76 | such a request in a fresh gate |
| `PermitGate.LosesBesideAnother` | src/core/permit-gate.ts:54-76 | such a request beside one active permit |
| `PermitGate.ReleasedOnce` | src/core/permit-gate.ts:88-118 | a permit is released once; completing aborts no one |
| `JobQueue.OrderMeans` | src/scheduler/job-queue.ts:9-14 | interactive before batch, then higher values, then earlier arrivals |
| `JobQueue.TopIsHead` | src/scheduler/job-queue.ts:25-38 | the top of a heap is the head of the ordered list with the same entries |
| `JobQueue.Queue.Enqueue` | src/scheduler/job-queue.ts:19-23 | the heap stands for the list with the job inserted by class, value and arrival |
| `JobQueue.Queue.Dequeue` | src/scheduler/job-queue.ts:25-34 | returns and removes the head of that list, or nothing when it is empty |
| `JobQueue.Queue.Peek` | src/scheduler/job-queue.ts:36-38 | shows the head |
| `JobQueue.RunQueue` | src/scheduler/job-queue.ts:15-109 | for every sequence of operations the heap answers as the ordered list does |
| `JobQueue.JobsAreConserved` | src/scheduler/job-queue.ts:19-34 | the jobs that went in are those that came out and those still there |
| `JobQueue.LeftIsInOrder` | src/scheduler/job-queue.ts:53-67 | the list is in order after every sequence of operations |
| `Framing.DecimalParses` | src/agents/mcp.ts:639 | the decimal of a length reads back as that length |
| `Framing.HeaderRoundTrip` | src/agents/mcp.ts:637-666 | the header that is written announces the length it was written for |
| `Framing.LengthOnAnyLine` | src/agents/mcp.ts:654-665 | the first `Content-Length` line announces the length, on whatever line and in whatever case it stands; a value with anything but digits is invalid |
| `Framing.LengthIsMissing` | src/agents/mcp.ts:657-660 | a header without such a line is refused |
| `Framing.TripExactly` | src/agents/mcp.ts:650-673 | a refused header is taken off alone; otherwise the body is taken off with it, or awaited |
| `Framing.ChunkingDoesNotMatter` | src/agents/mcp.ts:643-696 | on any bytes, cut anyhow and interleaved anyhow with the loop, what was delivered and what is still to come is what the whole stream yields at once |
| `Framing.RestIsUnique` | src/agents/mcp.ts:643-696 | two runs over the same bytes that end at rest yield the same messages, faults and rest |
| `Framing.StreamDrains` | src/agents/mcp.ts:637-673 | the concatenated encodings of bodies decode to exactly those bodies and leave an empty buffer |
| `Framing.RoundTrip` | src/agents/mcp.ts:637-696 | under any chunking and interleaving a run over the encoded bodies delivers a prefix of them, and all of them with an empty buffer once it rests |
| `Framing.StreamIsInjective` | src/agents/mcp.ts:637-641 | different lists of bodies have different encodings |
| `Framing.Decoder.ProcessBuffer` | src/agents/mcp.ts:649-678 | delivers all that the bytes at hand yield, up to the first fault |
| `Framing.Decoder.ReadLoop` | src/agents/mcp.ts:643-696 | for chunks handled one after the other, all that the joined bytes yield, or the messages before the first fault |
| `WorkspaceLock.RunKeepsInv` | src/worker/workspace-lock.ts:22-142 | over every run, expiry and forced release included, each queue holds exactly the unsettled calls in order, and a queue means that the lock is held |
| `WorkspaceLock.HandedOnExactly` | src/worker/workspace-lock.ts:62-71 | dropping a lock gives it to the first in the queue, or to no one when there is none |
| `WorkspaceLock.ExclusiveExactly` | src/worker/workspace-lock.ts:22-40 | a step leaves a workspace with more than one live grant if and only if a caller takes an expired lock while others queue for it; then there are two |
| `WorkspaceLock.TwoHolders` | src/worker/workspace-lock.ts:22-40 | three calls after which a waiter and a caller both have the lock |
| `WorkspaceLock.ExclusiveRunExactly` | src/worker/workspace-lock.ts:22-142 | from an exclusive state a run ends with at most one live grant a workspace if and only if no call of it takes an expired lock from under a queue: nothing that follows mends two grants |
| `WorkspaceLock.NextInTurn` | src/worker/workspace-lock.ts:85-142 | a step keeps first come, first served if and only if it is not a waiting call that takes an expired lock while two or more others queue |
| `WorkspaceLock.ServedOutOfTurn` | src/worker/workspace-lock.ts:85-142 | four calls, the last of which is served before one that waits |
| `WorkspaceLock.OrderlyRun` | src/worker/workspace-lock.ts:22-142 | over every run without such calls, calls are granted first come, first served |
| `WorkspaceLock.FairRun` | src/worker/workspace-lock.ts:22-142 | over every run without such a take-over there is at most one live grant and calls are granted first come, first served |
| `WorkspaceLock.SettledOnce` | src/worker/workspace-lock.ts:102-133 | an answered call keeps its answer for ever |
| `WorkspaceLock.ServedInTurn` | src/worker/workspace-lock.ts:62-71 | a call with k others before it has the lock after k + 1 releases |
| `WorkspaceLock.EntryStays` | src/worker/workspace-lock.ts:22-83 | the entry of a lock stays as it is under every event but a release by its holder, a forced release, and a call for the workspace after its time |
| `WorkspaceLock.GrantLasts` | src/worker/workspace-lock.ts:22-142 | the same over runs: a grant lasts until one of these |
| `WorkspaceLock.RefusedIsNothing` | src/worker/workspace-lock.ts:22-83 | a refused call and a release by anyone but the holder change nothing |
| `WorkspaceLock.AcquiredEntry` | src/worker/workspace-lock.ts:22-40 | who gets the lock holds it from now on, for the duration asked for or else the default |
| `WorkspaceLock.WaitExactly` | src/worker/workspace-lock.ts:85-142 | a waiting call is granted at once when no unexpired entry stands, and else queues last |
| `WorkspaceLock.ReleasedExactly` | src/worker/workspace-lock.ts:42-71 | a release frees the lock, or hands it to the first in the queue for the default time |
| `WorkspaceLock.TimedOutExactly` | src/worker/workspace-lock.ts:99-114 | a timer tells an unsettled call no, once, and changes no lock |
| `WorkspaceLock.NotLockedExactly` | src/worker/workspace-lock.ts:73-83 | after the answer "not locked" the lock is free if and only if no one was queued |
| `WorkspaceLock.NotLockedButHeld` | src/worker/workspace-lock.ts:73-83 | such an answer while the lock has just been given to a waiter |
| `WorkspaceLock.Lock.AcquireLock` | src/worker/workspace-lock.ts:22-40 | the new table and whether the lock was granted |
| `WorkspaceLock.Lock.HandOn` | src/worker/workspace-lock.ts:62-71 | drops the entry and tells the next in the queue |
| `WorkspaceLock.Lock.OnRelease` | src/worker/workspace-lock.ts:116-133 | the waiter that is told always gets the lock: it is never queued a second time |
| `WorkspaceLock.Lock.ReleaseLock` | src/worker/workspace-lock.ts:52-60 | only the holder's release does anything |
| `WorkspaceLock.Lock.ForceReleaseLock` | src/worker/workspace-lock.ts:42-50 | releases whoever holds the lock |
| `WorkspaceLock.Lock.CheckLocked` | src/worker/workspace-lock.ts:73-83 | an expired lock is handed on by asking |
| `WorkspaceLock.Lock.Await` | src/worker/workspace-lock.ts:85-142 | granted at once or queued at the end |
| `WorkspaceLock.Lock.TimeOut` | src/worker/workspace-lock.ts:102-114 | an unsettled call is answered no and leaves its queue |

## Left out

- Workflow abort and timeout, management hooks, the sentinel and its `on_stall` retry loop, `pre_step` overlays and subworkflow lifecycles: runs with them can rewrite statuses, and they depend on other files. Sentinel stalls during checks appear as outcomes chosen by the environment.
- File, git and process failures inside a lifecycle: any exception there is the one `Crash` event.
- Event emission, timestamps, metadata and convergence files written along the way.
- Concurrency limits, thresholds, stages, iterations and retries are integers; the code would accept fractions. Convergence thresholds and stages are at least one, as src/workflow/parser.ts:124-125 demands.
- StepLifecycle.RunStepLifecycle: delays between retries are not modelled, and outputs collected on the way either succeed or are the `Crash` event of the scheduler.
- SHA-256 in `hashStrings` is taken to be free of collisions, so the joined text is the key.
- SignalLists.NormalizeSignalList: entries that are not strings cannot occur in the model. Strings are well formed: a lone surrogate, and so half of a surrogate pair that the cut after 240 code units splits, is not modelled; the cut leaves such a pair out.
- StallSignal.SignalExactly: is about well-formed strings, for the same reason.
- Task ids, message ids, file names, claim tokens and permit ids are fresh UUIDs; numbers stand for them.
- File sizes, artifact paths and staleness by modification time are answers of the environment; unreadable or corrupt files are left out.
- Interleavings inside task and mailbox operations at the grain of system calls, except for the claim race: a late write can re-create a file that another operation has moved.
- InboxFiles.InboxDirectory.AckMessage: acknowledging by message id looks the file up by the id in its name; names are the ids here. As in the code it does not look at tokens.
- Broadcasts, blackboard, team configuration, event logs.
- Costs are real numbers; floating-point rounding and negative hints are left out. `PermitGate.dispose` drops permits without releasing the budget and is a terminal action.
- Backpressure and circuit breaker decisions are answers of the environment, as are provider lookups.
- What a ring does after a push into a full buffer: no caller in the budget gets there, as `BudgetKeeper.Valid` shows.
- The single-resource methods of the budget (`tryAcquireSlot`, `tryAcquireRate`, `tryAcquireCost` and their releases), which the gate does not use.
- Job values that are not numbers (NaN) in the queue; its size and emptiness queries.
- Framing.ParseLength: of what JavaScript's `Number` reads, decimal digits and the empty text; signs, fractions, exponents, hexadecimal, and values beyond 2^53 are taken as invalid or exact.
- Framing: header bytes above 127 stand for themselves instead of being decoded as UTF-8; JSON encoding, decoding and its errors.
- WorkspaceLock: wait times; the clock is read once in each operation; a timer that fires is an event of its own at any time.
- WorkspaceLock.Lock.HandOn: joins the removal of the entry with `notifyWaiters`, which every caller does in that order.
- `Scheduler` and `InFlightRegistry` deduplication, adapters, sockets, IPC, CLIs, chat and the terminal user interface.
