# Verification models of the scheduler, worker hub and executor

This project models the four parts of the system whose correctness is not visible from any
single function, and proves what they promise over every input and every interleaving:

- **The run and task state machine of the scheduler.** Trigger rules and block propagation
  (`TaskModel`, `BlockPropagation`), why every run ends (`RunTermination`), retries (`Retry`), the life of one task row under pollers,
  crashes, recovery and operator calls (`Attempts`, `AttemptStore`), the recursive cancel
  (`CancelCascade`), the durable outbox for cross-DAG triggers (`FanIn`, `Outbox`), admission under
  budgets (`Admission`), queue order (`QueueOrder`, `StableSort`), and schedule-driven runs and
  backfills (`ScheduleRuns`).
- **The dial-in worker protocol.** Log streaming by offset over a network that may drop, repeat and
  reorder (`LogProtocol`, `LogStream`), and the session and assignment tables with their two-phase
  liveness sweep (`HubSessions`, `HubTable`).
- **The executor's runner.** The streaming redactor (`Redaction`, `RedactionLimits`) and the launch registry that
  survives crashes (`LaunchRegistry`, `Runner`).
- **The DAG graph algorithms.** `DagGraph`, `CycleDetection`, `DependencyChecks`, `Foreach`, `ShardNames`; and
  `DagPipeline`, which joins parsing to the progress theorem.

## How the models are built

Code that updates fields step by step is a class with those fields. Where code runs under one lock
or in one transaction, it is one atomic step; each protocol is a state machine whose `Next` takes
one step, in which a step that is not enabled changes nothing, and whose `Run` takes any sequence of
them. The classes (`AttemptStore.TaskRow`, `Outbox.DependencyTrigger`, `HubTable.WorkerHub`,
`LogStream.Hub`, `Runner.Registry`, `ScheduleRuns.Scheduler`, ...) are proved to take exactly the
steps of the state machine they implement, and the theorems are about every run of it.

Clocks, the process table, the disk, the executor's answers, store errors and message delivery are
parameters of the steps. Integers are unbounded; times in `ScheduleRuns` are nanoseconds.

## What the proofs found

Each of these is a promise that does not hold of the code everywhere. Beside a concrete run stands the
condition under which it does hold.

- **A finished row can be overwritten after a restart.** `Recover` lists queued rows, attaches a
  poller to those still running and marks them running; its second listing then finds the same rows
  and attaches a second poller (internal/scheduler/scheduler.go:2752-2817). When the two see different
  outcomes, the tick's unguarded requeue (internal/scheduler/scheduler.go:1740) can erase a recorded
  success (`Attempts.TwinsLoseASuccess`). A finished row is final, but for operator overrides, exactly
  for tasks without retries (`Attempts.FinalIffNoRetries`); that requeue is the only step that can
  overwrite one (`Attempts.OnlyARequeueOverwrites`), and it can lose an outcome exactly when some
  goroutine still works for the row's reference (`Attempts.RequeueMayLoseAnOutcomeIffCarried`).
- **Marking a run failed and successful again while its own event is being delivered** can lose the
  trigger (`FanIn.RearmingLosesTheTrigger`). It does so exactly when the delivery has already passed a
  downstream that falls due only now and that no other event will trigger
  (`FanIn.SucceedLosesIffOvertakes`, `FanIn.NothingLostIffOrderly`).
- **Some secrets survive redaction.** One buffer hides a secret always exactly when it neither begins
  nor ends with the mask byte nor holds a whole mask (`RedactionLimits.HiddenInABufferIffHideable`): it
  hides `p*ss` but not `*pw`. The stream hides it exactly when it also has no newline before its end
  (`RedactionLimits.HiddenInEveryLogIffMaskable`).
- **State files of different attempts can collide.** Path separators become underscores, so two
  references may share a file (`LaunchRegistry.FileNamesCanCollide`), and then a crash makes a Launch
  start a second process. The registry is safe exactly when no two references share a file name
  (`LaunchRegistry.SafeIffNamesDistinct`).
- **A gap that only the closing chunk could show is not repaired within the session.** The pump stops on
  sending the closing chunk (internal/worker/worker.go:442-457), so a rewind it provokes waits for the
  next session. `LogProtocol.RecoversInSessionIff` says exactly from which states a session still
  recovers by itself when messages were lost, or the hub's disk failed.
- **A taken date stops a catch-up schedule.** If a run of another kind already owns the next schedule
  point, every later tick is told that it exists and the anchor never moves
  (`ScheduleRuns.ScheduleCanStop`). `ScheduleRuns.TickAddsTheNextPoint` gives the exact condition under
  which a tick creates a run.
- **A dependency that names one shard by its generated id can close a cycle** that the DAG as written
  does not have (`Foreach.NamingAShardCanMakeACycle`). Expansion has a cycle exactly when the DAG as
  written has one with shard names read as their originals (`ShardNames.ExpansionCyclesExactly`).
- **A worker that reports RUNNING after a terminal report** revives a reference the hub has given up,
  and a live worker's task probes as unknown (`HubSessions.LateRunningBreaksFailover`);
  `HubSessions.ApplyKeepsLost` says exactly which operation breaks the promise.
- **A worker's load counter can drift.** A report that an assignment is unknown ends it without taking it
  off the counter (internal/workerhub/hub.go:395-399), which stays too high until the worker's next hello.
  `HubSessions.ApplyKeepsLoad` says exactly which reports leave it wrong.

Where comment and code differ the model follows the code: a held run returns before finalize and
deadlines (internal/scheduler/scheduler.go:1745-1751), so nothing here says that a held run finishes
or times out; a full queue is reported before a duplicate run is noticed
(internal/store/sqlite/sqlite.go:365-388); `Backfill` reaches back up to one second before `from` (internal/scheduler/scheduler.go:530,
`ScheduleRuns.WindowStartsAtFromIff`); the first run of each DAG limited by `max_active_tasks` sets that
DAG's budget for a pass even if other runs were snapshotted with another limit (internal/scheduler/scheduler.go:1505-1518).

## Model

Rows that begin with "Link" tie a piece of code to the step of a state machine it takes; the results
about that step are in the other rows.

| member | source | states |
|---|---|---|
| `TaskModel.EvalTriggerRule` | internal/model/state.go:82-121 | The counting loop answers ready and blocked exactly as each of the six rules defines them by quantifiers over the dependencies' states; no dependencies means ready. |
| `TaskModel.VerdictNeverReverses` | internal/model/state.go:82-121 | A ready or blocked verdict stands however the unfinished dependencies finish. |
| `TaskModel.VerdictIsDecided` | internal/model/state.go:82-121 | Ready and blocked never hold together, and once every dependency is finished exactly one of them does. |
| `BlockPropagation.RunState.TaskGate` | internal/scheduler/scheduler.go:3050-3060 | A task's gate is open, and is shut for good, exactly when the rows of the dependencies it lists are what its rule asks for, or can no longer be: written out rule by rule over every listed dependency, a missing row counting as unfinished. |
| `BlockPropagation.GateReadsEveryDep` | internal/scheduler/scheduler.go:3050-3060 | The tallies over the collected states give exactly that answer. |
| `BlockPropagation.RunState.Sweep` | internal/scheduler/scheduler.go:1703-1719 | One sweep over the tasks blocks only what every settled outcome must block, and either settles the run or leaves strictly fewer scheduled tasks. |
| `BlockPropagation.RunState.PropagateBlocks` | internal/scheduler/scheduler.go:1701-1720 | The fixpoint loop ends, in the least settled extension of the rows: everything that must be blocked is, and nothing else has changed. |
| `BlockPropagation.StuckIsForced` | internal/scheduler/scheduler.go:1701-1720 | A blocked task is upstream_failed in every settled outcome. |
| `BlockPropagation.OrderDoesNotMatter` | internal/scheduler/scheduler.go:1701-1720 | The outcome of propagation is the same for every order of the task list. |
| `BlockPropagation.SinkIsReady` | internal/scheduler/scheduler.go:1701-1720 | A scheduled task that is not blocked and waits for no scheduled or in-flight task is ready. |
| `BlockPropagation.RunNeverWedges` | internal/scheduler/scheduler.go:1701-1720 | For an accepted DAG with every task instantiated, after propagation all tasks are finished, or one is queued, running or up for retry, or a scheduled one is ready. |
| `DagPipeline.Parse` | internal/scheduler/parser/parser.go:486-505 | Expansion followed by the dependency checks succeeds exactly when the expansion is within limits and the resulting list has distinct ids, known unrepeated dependencies and no cycle. |
| `DagPipeline.CyclesAreThoseWritten` | internal/scheduler/parser/parser.go:588-642 | With unique ids, the parsed task list has a cycle exactly when the DAG as written has one, shard names read as their originals. |
| `DagPipeline.ProcessRun` | internal/scheduler/scheduler.go:1692-1720 | A run of a DAG that parses is settled by one propagation and is then not wedged, whatever mix of states its rows were in. |
| `RunTermination.StepLeavesLess` | internal/scheduler/scheduler.go:1701-1816 | Every step of a run, blocking, dispatching, deciding, ending or retrying a task, leaves strictly less to do. |
| `RunTermination.EveryRunFinishes` | internal/scheduler/scheduler.go:1638-1891 | Every run of an accepted DAG, in any order of steps and with any outcomes, is finite with a bound known from the start, and can go no further exactly when every task is finished. |
| `RunTermination.EveryRunCanFinish` | internal/scheduler/scheduler.go:1638-1891 | From any state the run can be brought to its end without cancelling anything. |
| `RunTermination.OutcomesFollowTheRules` | internal/scheduler/scheduler.go:1701-1816 | At every moment of every run that starts with all tasks scheduled, a task that was started has what its rule asks of each dependency (all_success: every one successful; all_done, none_failed, all_failed: every one finished so; one_success, one_failed: some one), and one that became upstream_failed has what its rule cannot live with. |
| `RunTermination.StartedThroughItsGate` | internal/scheduler/scheduler.go:1722-1816 | In any run, from any rows, the gate a task was dispatched, skipped or failed through is still open at the end. |
| `CycleDetection.Search.Visit` | internal/scheduler/parser/parser.go:549-566 | The depth-first visit either finishes the node's whole subtree, extending a ranking that strictly falls along every edge, or reports a path that closes on itself. |
| `CycleDetection.Search.SearchAll` | internal/scheduler/parser/parser.go:568-575 | The outer loop ends with a ranking of every node or with a closing path. |
| `CycleDetection.DetectCycle` | internal/scheduler/parser/parser.go:538-576 | The three-colour search ends, and reports no cycle if and only if the dependency graph has none. |
| `CycleDetection.ReportedPathIsCycle` | internal/scheduler/parser/parser.go:556-560 | The path in the error message, cut where it returns and closed there, is a cycle of the graph. |
| `DependencyChecks.SelfDependencyIsCycle` | internal/scheduler/parser/parser.go:497-499 | The self-dependency check refuses nothing that the cycle check would let pass. |
| `DependencyChecks.CheckIds` | internal/scheduler/parser/parser.go:336-340 | The pass over ids succeeds exactly when they are distinct, and then knows exactly the existing ids. |
| `DependencyChecks.CheckDepsOf` | internal/scheduler/parser/parser.go:487-500 | A task's dependencies pass exactly when none repeats, all are known, and none is the task itself. |
| `DependencyChecks.CycleIsCircular` | internal/scheduler/parser/parser.go:538-576 | With distinct ids the searched graph has a cycle exactly when some chain of tasks, each listing the next as a dependency, comes back to its start. |
| `DependencyChecks.CheckDependencies` | internal/scheduler/parser/parser.go:486-505 | The checks accept a task list exactly when ids are distinct, dependencies known and unrepeated, and the graph acyclic; and what a rejection names, a duplicate, an unknown id or a circular path, is there. |
| `Foreach.ExpandForeach` | internal/scheduler/parser/parser.go:588-642 | The two in-place passes compute the expansion, and refuse exactly when an id is missing, a list is too long or the total exceeds the limit. |
| `Foreach.FillShards` | internal/scheduler/parser/parser.go:599-626 | The first pass lists the copies in order and records, for each original id, exactly its shards. |
| `Foreach.RewriteDeps` | internal/scheduler/parser/parser.go:627-640 | The second pass replaces each dependency on an original by all its shards, in order, and keeps every other one. |
| `Foreach.EveryTaskIsACopy` | internal/scheduler/parser/parser.go:588-642 | Every task after expansion is a copy of one as written under a name it goes by: the same trigger rule, and for dependencies exactly what the original's stand for, all shards of a foreach task or the task itself. |
| `Foreach.EveryNameHasACopy` | internal/scheduler/parser/parser.go:588-642 | And every task as written has such a copy under each of its names, its own id or id_0, id_1 and so on, one for each item. |
| `Foreach.ShardNamesDiffer` | internal/scheduler/parser/parser.go:606-620 | Shards of one task never share an id. |
| `Foreach.EdgesAfter` | internal/scheduler/parser/parser.go:588-642 | A copy depends on exactly the shards of its original's dependencies, and on the plain dependencies themselves. |
| `Foreach.CycleSurvives` | internal/scheduler/parser/parser.go:588-642 | A cycle of the original graph remains one after expansion. |
| `ShardNames.ExpansionCyclesExactly` | internal/scheduler/parser/parser.go:588-642 | With unique ids before and after, the expanded graph has a cycle if and only if the DAG as written has one once every shard name is read as its original. |
| `ShardNames.NoShardNamedMeansAsWritten` | internal/scheduler/parser/parser.go:627-640 | Without shard names among the dependencies that reading is the DAG as written. |
| `ShardNames.ExpansionKeepsCycles` | internal/scheduler/parser/parser.go:588-642 | With unique ids before and after and no shard named directly, the expanded graph has a cycle if and only if the original had one. |
| `Foreach.NamingAShardCanMakeACycle` | internal/scheduler/parser/parser.go:627-640 | The proviso is needed: a DAG that names a shard directly gains a cycle by expansion. |
| `Retry.Dependents` | internal/scheduler/scheduler.go:964-969 | The dependents index has an edge from a task to exactly those that list it as a dependency. |
| `Retry.DownstreamClosure` | internal/scheduler/scheduler.go:963-982 | On any graph the work queue ends with exactly the task and everything reachable downstream of it. |
| `Retry.RetryIds` | internal/scheduler/scheduler.go:650-665 | A run retry selects exactly the DAG's tasks at or below an unsuccessful one, and nothing exactly when none is unsuccessful. |
| `Retry.Run.Reactivate` | internal/scheduler/scheduler.go:866-891 | Exactly the selected rows become scheduled, missing rows are created, all others keep their outcome, and the run is running. |
| `Retry.Run.RetryTask` | internal/scheduler/scheduler.go:615-633 | Retrying a task clears it and everything downstream of it, with each refusal in its own case and no change then. |
| `Retry.Run.RetryRun` | internal/scheduler/scheduler.go:645-672 | Retrying a run clears everything at or below an unsuccessful task, with each refusal in its own case and no change then. |
| `Retry.RunRetryResetsExactly` | internal/scheduler/scheduler.go:645-672 | A run retry resets exactly the DAG's tasks that are failed, upstream_failed, cancelled or timed out and those downstream of one, creates missing rows, and keeps every other row. |
| `Retry.TaskRetryResetsExactly` | internal/scheduler/scheduler.go:615-633 | A task retry resets exactly that task and those downstream of it. |
| `Retry.KeptIsNotBelowReset` | internal/scheduler/scheduler.go:866-891 | No task that keeps its old outcome lies downstream of a reset task. |
| `Retry.NoUnsuccessfulTaskSurvives` | internal/scheduler/scheduler.go:645-672 | After a run retry no task of the DAG still holds an unsuccessful outcome. |
| `Attempts.StepKeepsInv` | internal/scheduler/scheduler.go:2190-2345 | Every step of tick, operator, attempt goroutine, crash and recovery keeps the row, the lock holder's copy, the goroutines' copies and the recovery listings consistent, with at most one goroutine per reference that has not yet marked its row running. |
| `Attempts.ReportSettlesTheRow` | internal/scheduler/scheduler.go:2637-2716 | A report about the unfinished row's own attempt settles it: success exactly for exit code 0, skipped exactly for 99, and for any other code or a lost process up for retry exactly while tries do not exceed max_retries and failed after that; a report about another attempt changes nothing. |
| `Attempts.EveryStateHasItsCause` | internal/scheduler/scheduler.go:1638-1891 | In every run each state of the row is accounted for by a step that saw its cause; without an operator's mark a row is successful only after exit code 0 was seen, and skipped only after exit code 99 or the tick's own skip. |
| `Attempts.GoroutinesFindTheirState` | internal/scheduler/scheduler.go:2329-2389 | In every run, while the row is unfinished, a goroutine of its own attempt that has not reported the process up finds it queued, and one that polls finds it running or, a twin having reported first, up for retry. |
| `Attempts.NeverExecutedIsHandedBack` | internal/scheduler/scheduler.go:2306-2326 | An attempt that no worker could take, or that was lost before its launch, goes back on schedule without having used up a try, unless the row has moved on. |
| `Attempts.UnfinishedCanStillSucceed` | internal/scheduler/scheduler.go:2731-2829 | From every reachable state an unfinished task can still succeed without an operator, whatever writes and goroutines were lost: at the latest a restart finds its attempt or dispatches it again. |
| `Attempts.WorkerWritesOnlyItsOwn` | internal/scheduler/scheduler.go:2604-2613 | A goroutine changes the row only while the row carries its own reference, and apart from a refund changes neither the reference nor the try number. |
| `Attempts.GoneForever` | internal/scheduler/scheduler.go:2831-2835 | A reference once cleared or replaced never returns to the row in any later run. |
| `Attempts.StalePollerIsPowerless` | internal/scheduler/scheduler.go:2350-2389 | The poller of an attempt never changes the row again once that attempt's reference has been cleared or replaced, over every interleaving. |
| `Attempts.StepKeepsSingle` | internal/scheduler/scheduler.go:2731-2829 | As long as recovery does not list a row it already attached a poller to, each reference has at most one goroutine and none works for a row up for retry. |
| `Attempts.OnlyARequeueOverwrites` | internal/scheduler/scheduler.go:1736-1742 | Apart from operator overrides, exactly one step changes a terminal row: the requeue of a tick that read the row as up for retry. |
| `Attempts.FinalIffNoRetries` | internal/store/store.go:108-110 | A terminal row is final, but for overrides, over every run of a task if and only if the task has no retries; with or without operator steps in between, as long as they grant none. |
| `Attempts.FinishedStaysFinished` | internal/scheduler/scheduler.go:2604-2613 | For tasks with retries it is final in every run in which recovery attaches no second poller. |
| `Attempts.RequeueMayLoseAnOutcomeIffCarried` | internal/scheduler/scheduler.go:1722-1743 | While the tick is about to requeue a row up for retry, an outcome can land and be lost if and only if some goroutine works for the row's reference. |
| `Attempts.RecoveryMakesTwins` | internal/scheduler/scheduler.go:2752-2817 | For every task with retries, a crash between dispatch and the running mark leads recovery to attach two pollers to one attempt. |
| `Attempts.TwinsLoseASuccess` | internal/scheduler/scheduler.go:1736-1742 | In that run a recorded success is overwritten by the requeue, with no operator step. |
| `Attempts.TriesStayInBudget` | internal/scheduler/scheduler.go:2311-2321 | Without operator steps 1 <= try <= max_retries + 1 whenever the row is queued or running, through launch errors, lost tasks, crashes and both refunds. |
| `Attempts.FailsOnlyWhenSpent` | internal/scheduler/scheduler.go:2705-2716 | Without operator steps an attempt's failure ends the task only when all max_retries + 1 attempts are used. |
| `Attempts.RecordedIsNeverHandedOut` | internal/scheduler/scheduler.go:2190-2204 | A reference whose outcome was recorded is never assigned by a later dispatch nor held by a goroutine that has yet to start or mark a process. |
| `AttemptStore.AwaitVerdict` | internal/scheduler/scheduler.go:2350-2389 | The poll loop yields the first decisive answer, or none, and touches no row meanwhile. |
| `AttemptStore.Decisive` | internal/scheduler/scheduler.go:2366-2387 | Of the executor's answers the first exited or unknown one is found, and none before it is decisive. |
| `CancelCascade.Scheduler.CancelRunLocked` | internal/scheduler/scheduler.go:576-611 | Cancelling ends for any graph of sub-workflow references, even a cyclic one, and leaves exactly the state with the cascade's runs and their unfinished tasks cancelled and their attempts killed. |
| `CancelCascade.Scheduler.CancelTasks` | internal/scheduler/scheduler.go:595-608 | The loop over a run's listed tasks cancels each unfinished one and the active runs below it. |
| `CancelCascade.Scheduler.CancelAttempt` | internal/scheduler/scheduler.go:2552-2560 | An executor reference is killed; a child reference cancels the child run and all below it when it is active, and otherwise nothing. |
| `CancelCascade.CascadeIsReachability` | internal/scheduler/scheduler.go:576-611 | The cancelled runs are exactly those reachable from the root through references of unfinished tasks along active runs. |
| `CancelCascade.CancelledExactly` | internal/scheduler/scheduler.go:576-611 | Every run reachable from the root ends cancelled; its tasks keep their places and references, those that had ended keep their outcome, every other one is cancelled; and every other run keeps its state and tasks. |
| `CancelCascade.KilledExactly` | internal/scheduler/scheduler.go:2552-2560 | The attempts killed are exactly those named by the references of the unfinished tasks of the reachable runs. |
| `CancelCascade.Absorb` | internal/scheduler/scheduler.go:2552-2560 | Cancelling a child in the middle of its parent's cancel is the same as having it in the cascade from the start. |
| `FanIn.SucceedLosesIffOvertakes` | internal/store/store.go:71-73 | Writing success together with its event leaves every owed trigger promised by an unconsumed event, except exactly when some downstream that waited for this success was already passed by a delivery under way and no other upstream's event will trigger it. |
| `FanIn.NothingLostIffOrderly` | internal/scheduler/scheduler.go:1995-2111 | Along any run every owed trigger is promised at every moment if and only if no success overtakes a delivery in that way. |
| `FanIn.VisitKeepsInv` | internal/scheduler/scheduler.go:2050-2109 | Visiting a downstream in the middle of any other deliveries loses no owed trigger and creates no second run. |
| `FanIn.FinishKeepsInv` | internal/scheduler/scheduler.go:2023-2035 | Consuming an event that was not deferred loses no owed trigger. |
| `FanIn.CreatedOnlyWhenDue` | internal/scheduler/scheduler.go:2050-2109 | A delivery creates at most the queued run of the downstream it looks at, for its event's date, and only if that DAG is live and has tasks, every upstream is live and has a successful run for the date, there is no run for it yet, and the queue has room. |
| `FanIn.DeliveriesKeepQueueLimit` | internal/store/sqlite/sqlite.go:365-388 | However deliveries interleave, fail or crash, they never take the number of queued runs past the limit. |
| `FanIn.NoTriggerLostOrDoubled` | internal/scheduler/scheduler.go:1995-2111 | At every state of such a run, through crashes, full queues, concurrent deliveries and marks, if all upstreams succeeded for a date then the downstream run exists or an unconsumed event of one of those runs remains, and there is never more than one run. |
| `FanIn.OwedIsDeliverable` | internal/scheduler/scheduler.go:1995-2111 | From every reachable state in which a trigger is owed and the queue has room, some delivery creates the run. |
| `FanIn.RearmingLosesTheTrigger` | internal/scheduler/scheduler.go:2009-2016 | Marking a run failed and successful again while its own event is delivered leaves the trigger owed with no event. |
| `Outbox.DependencyTrigger.AllUpstreamsOK` | internal/scheduler/scheduler.go:2056-2082 | The early-exit loop says yes exactly when every upstream is registered and succeeded for the date. |
| `Outbox.DependencyTrigger.TriggerDownstreams` | internal/scheduler/scheduler.go:2043-2111 | The loop visits every downstream once, and reports deferral only while the queue is full. |
| `Outbox.DependencyTrigger.Deliver` | internal/scheduler/scheduler.go:2001-2036 | One event's turn is a delivery: orphaned and obsolete events are consumed, a success only when nothing was deferred. |
| `Outbox.DependencyTrigger.ProcessPendingDependencyEvents` | internal/scheduler/scheduler.go:1995-2037 | The loop over pending events is a sequence of deliveries, and if the queue still has room at the end every listed event of a finished run is consumed. |
| `Admission.OutranksIsTotalPreorder` | internal/scheduler/scheduler.go:1455-1470 | The ranking by run priority, task priority, logical date, run id and task id is a total preorder, so the sort is determined up to equals. |
| `Admission.PoolSlots` | internal/scheduler/scheduler.go:420-432 | A pool has the stored number of slots, at least 1 and at most 1024, and 16 when it has no row. |
| `Admission.Scheduler.AdmitReady` | internal/scheduler/scheduler.go:1451-1553 | One pass never pushes active tasks above the global limit or any pool above its slots, beyond excess already present; and when a DAG's runs share one task limit, the pass with cached budgets starts exactly what recounting every budget for every candidate in rank order would. |
| `Admission.Scheduler.Consider` | internal/scheduler/scheduler.go:1485-1552 | One candidate's turn keeps every cached budget equal to its limit less current use. |
| `Admission.GreedyKeepsBudgets` | internal/scheduler/scheduler.go:1480-1552 | The reference pass keeps the global and every pool's budget. |
| `Admission.AdmittedKeepsDagLimit` | internal/scheduler/scheduler.go:1503-1522 | A pass keeps a DAG's shared task limit, beyond excess already present. |
| `Admission.HeldForAReason` | internal/scheduler/scheduler.go:1485-1541 | Every candidate still scheduled was held by its worker group, or by a budget that existing work and higher-ranked candidates had used up. |
| `Admission.TurnDecides` | internal/scheduler/scheduler.go:1485-1552 | A waiting candidate is started exactly when, after the turns of those ranked before it, its worker group is up and fewer queued or running tasks than allowed occupy the executor, its pool and its DAG. |
| `Admission.PassStaysWithinLimits` | internal/scheduler/scheduler.go:1480-1552 | After a pass no more tasks than the global limit, and no more of a pool than its slots, are queued or running, beyond excess already present. |
| `Admission.UrgentGoesFirst` | internal/scheduler/scheduler.go:1455-1470 | No candidate is passed over for one with a lower run priority, or the same and a lower task priority, or those and a later logical date, or all those and a later run or task name, that needs the same group, pool and DAG budget. |
| `QueueOrder.Reorder` | internal/scheduler/scheduler.go:1380-1416 | Each slot keeps its DAG, each serial_priority DAG's runs are stably sorted by priority then date, and every other DAG's runs keep their order. |
| `QueueOrder.Rebuild` | internal/scheduler/scheduler.go:1407-1415 | Taking each slot's next run of its own DAG merges the groups back without mixing them. |
| `QueueOrder.ReorderedIsUnique` | internal/scheduler/scheduler.go:1380-1416 | Those facts determine the resulting queue. |
| `QueueOrder.ReorderedIsPermutation` | internal/scheduler/scheduler.go:1380-1416 | No run is lost or repeated. |
| `QueueOrder.SerialQueuesDrainUrgentFirst` | internal/scheduler/scheduler.go:1391-1401 | In a serial_priority DAG a run in an earlier slot has a higher priority, or the same and no later date, and runs ranking level keep their order. |
| `StableSort.SortIsStable` | internal/scheduler/scheduler.go:1395-1400 | The sort both orders rely on yields a sorted permutation in which elements ranking level keep their order. |
| `ScheduleRuns.FirstPointsAreAll` | internal/scheduler/scheduler.go:1294-1306 | The first k points are exactly the schedule points before the next one: there is no gap. |
| `ScheduleRuns.AnchorOfPrefix` | internal/scheduler/scheduler.go:1294-1306 | The anchor, latest scheduled run or a second before the start, always leads to the next uncreated point. |
| `ScheduleRuns.TickAddsTheNextPoint` | internal/scheduler/scheduler.go:1218-1271 | A tick creates the next point exactly when the DAG is not paused, the point is due, fewer than max_active_runs are active, the queue has room and the date is free; otherwise it changes nothing. |
| `ScheduleRuns.LimitsHold` | internal/scheduler/scheduler.go:1218-1271 | Neither a tick nor another insert takes the queue past its limit, and no tick the DAG past max_active_runs, beyond excess already present. |
| `ScheduleRuns.ScheduledRunsAreAPrefix` | internal/scheduler/scheduler.go:1218-1306 | In every run the schedule-triggered runs are exactly the first k points, with no gap or repeat, none before its time. |
| `ScheduleRuns.FirstPointIsFromStart` | internal/scheduler/scheduler.go:1301-1304 | Those points start at start_date exactly when no point lies in the second before it. |
| `ScheduleRuns.TakenDateStopsTheSchedule` | internal/scheduler/scheduler.go:1258-1266 | Once a run of another kind owns the next point, no later tick creates any scheduled run. |
| `ScheduleRuns.ScheduleCanStop` | internal/scheduler/scheduler.go:1218-1271 | For every schedule such a state is reached from the start: the first point is due, nothing is active or queued, and neither the next tick nor any later one creates a run. |
| `ScheduleRuns.Scheduler.ScheduleAnchor` | internal/scheduler/scheduler.go:1294-1306 | The lookup returns the greatest scheduled date, or the base when there is none. |
| `ScheduleRuns.Scheduler.Enumerate` | internal/scheduler/scheduler.go:526-535 | The loop lists exactly the window's points, or stops with the limit exceeded exactly when there are more than 500. |
| `ScheduleRuns.Scheduler.CreateAll` | internal/scheduler/scheduler.go:536-555 | Every period not yet taken gets one queued run, old runs stay, and the counts add up; a full queue stops the loop. |
| `ScheduleRuns.Scheduler.Backfill` | internal/scheduler/scheduler.go:504-559 | An empty or over-wide window changes nothing; success leaves a run at every point of the window and adds nothing else. |
| `ScheduleRuns.FillingKeepsSchedule` | internal/scheduler/scheduler.go:539-545 | A backfill neither adds nor removes scheduled runs. |
| `ScheduleRuns.WindowStartsAtFromIff` | internal/scheduler/scheduler.go:530-535 | The window is exactly the points from `from` to the earlier of `until` and now if and only if no point up to there lies in the second before `from`. |
| `LogProtocol.ReceiveExtendsPrefix` | internal/workerhub/hub.go:413-461 | Whatever chunk arrives and whatever the disk does, the file stays a prefix of the spool, only grows, and an acknowledgement names its length. |
| `LogProtocol.StepKeepsInv` | internal/worker/worker.go:358-463 | Every step of either side or the network keeps file, high-water mark, cursor, messages in flight and deletion consistent. |
| `LogProtocol.HubHoldsAPrefix` | internal/workerhub/hub.go:413-461 | Over every run with loss, repetition, reordering, reconnects and restarts on both sides, the hub's file is exactly a prefix of the spool, every acknowledgement and the worker's cursor stay at or below it, and the spool is deleted only when the hub holds all of it. |
| `LogProtocol.HighWaterNeverFalls` | internal/workerhub/hub.go:490-524 | What the hub holds at one moment it holds in place at every later one, through hub restarts. |
| `LogProtocol.DeliveryStaysPossible` | internal/worker/worker.go:388-463 | From every reachable state in which the worker tracks the attempt, the whole log can still be delivered and the spool collected, at the latest after a reconnect. |
| `LogProtocol.GapIsRewound` | internal/workerhub/hub.go:428-438 | A chunk that begins beyond the end of the hub's file is not written and is answered with an order to rewind to that end, no other chunk is; once the worker has the order and its pump has taken it, the pump stands at that end. |
| `LogProtocol.ChunkIsWritten` | internal/workerhub/hub.go:413-461 | Any other chunk leaves the file with all of the spool up to the chunk's end, or as long as it was if that is more, and is acknowledged at the file's length, when the disk works. |
| `LogProtocol.OnlyAGapRewinds` | internal/worker/worker.go:358-410 | A pump's cursor moves back only by taking a rewind, a rewind is pending only after the hub's order, and the hub orders one only for a gap. |
| `LogProtocol.RecoversInSessionIff` | internal/worker/worker.go:388-463 | Though every message under way be lost, the whole log can still be delivered within the session exactly when it already is, or more output is to come, or a rewind is pending, or the pump has not read to the end of the spool. |
| `LogProtocol.DeliversInSession` | internal/worker/worker.go:388-463 | If nothing under way is lost, it can be delivered within the session from every reachable state in which both sides track the attempt and a pump runs. |
| `LogStream.LogPump.Turn` | internal/worker/worker.go:388-463 | One turn of the pump takes a pending rewind, sends at most 32 KiB from its cursor, and ends only after the last byte of an exited attempt. |
| `HubSessions.SessionsAreSound` | internal/workerhub/hub.go:122-194 | Through all interleavings a stream is in the table exactly when its done channel is open, and no channel is closed twice. |
| `HubSessions.ApplyKeepsTable` | internal/workerhub/hub.go:349-356 | Each critical section closes only open channels and keeps table and open channels in step. |
| `HubSessions.ApplyKeepsLost` | internal/workerhub/hub.go:361-408 | An operation keeps lost references without a live session if and only if it is not a late RUNNING report. |
| `HubSessions.FailoverOnlyWithoutWorker` | internal/workerhub/hub.go:688-703 | A running assignment probes unknown only while its worker has no live session. |
| `HubSessions.OnlySweepReleases` | internal/workerhub/hub.go:167-178 | Only the second half of a sweep releases an assignment, and only one that is running on a worker found silent and still without session after the gap. |
| `HubSessions.SweepReleasesExactly` | internal/workerhub/hub.go:167-178 | And that half releases every one of them. |
| `HubSessions.ReconnectReclaims` | internal/workerhub/hub.go:261-277 | A reconnecting worker's running assignments probe running again, and its load starts at their number. |
| `HubSessions.RunningStaysPut` | internal/workerhub/hub.go:361-408 | A running assignment that is not released is never dropped or moved, and only its own worker's report ends it. |
| `HubSessions.ExitWasReported` | internal/workerhub/hub.go:361-408 | In every interleaving an assignment has exited with a code only after its worker reported that code, or that it could not be launched, which is code 127. |
| `HubSessions.ApplyKeepsLoad` | internal/workerhub/hub.go:361-408 | While no released assignment has a live worker, an operation keeps every live worker's load counter equal to the number of assignments running on it, if and only if it is not one of the reports that make it drift: RUNNING or EXITED about an assignment already reported gone, UNKNOWN about a running one, or a launch error under another phase than EXITED. |
| `HubSessions.LaunchesAreBalanced` | internal/workerhub/hub.go:634-682 | In every run without such reports, the worker a launch goes to has no more running assignments than any other live worker of the group that is not draining. |
| `HubSessions.LateRunningBreaksFailover` | internal/workerhub/hub.go:382-384 | A RUNNING report after a terminal one leads to an assignment that probes unknown under a live session. |
| `HubTable.WorkerHub.Greet` | internal/workerhub/hub.go:246-279 | The hello replaces the old stream, takes back running assignments, and names exactly the orphans to adopt and the assignments to ask about. |
| `HubTable.WorkerHub.SweepFirst` | internal/workerhub/hub.go:122-158 | The first half drops silent streams and expired results and returns exactly the sessionless workers with running assignments. |
| `HubTable.WorkerHub.SweepSecond` | internal/workerhub/hub.go:167-178 | The second half releases exactly the running assignments of silent workers that have not reconnected. |
| `HubTable.WorkerHub.LaunchRef` | internal/workerhub/hub.go:634-682 | A tracked live assignment is not repeated; otherwise it goes to a live worker of the group that is not draining and no more loaded than any other such, or to none exactly when there is none; a full send queue undoes it. |
| `Redaction.RedactBytes` | internal/executor/runner.go:466-496 | The loop computes the masking that takes the first matching secret at each position. |
| `Redaction.RedactHidesAt` | internal/executor/runner.go:466-496 | No hideable secret begins anywhere in redacted bytes. |
| `RedactionLimits.HiddenInABufferIffHideable` | internal/executor/runner.go:463-496 | A secret is hidden in every buffer, beside any other secrets, if and only if it neither begins nor ends with the mask byte nor holds a whole mask. |
| `Redaction.NothingToMask` | internal/executor/runner.go:466-496 | Bytes in which no secret occurs come out unchanged. |
| `Redaction.LongestSecretWins` | internal/executor/runner.go:323-340 | With secrets sorted by length, every secret that begins at a position is covered by the masked stretch. |
| `Redaction.SecretBecomesStars` | internal/executor/runner.go:466-496 | A secret on its own comes out as four asterisks even when a shorter secret begins it. |
| `Redaction.ArrangementDoesNotMatter` | internal/executor/runner.go:323-340 | Among secrets of equal length the unstable sort's order does not change the output. |
| `Redaction.FlushKeepsSeal` | internal/executor/runner.go:424-441 | Flushing a full buffer with a held-back overlap lets no secret straddle what was written and what is held. |
| `Redaction.HeldBackIsBounded` | internal/executor/runner.go:406-442 | After any writes the sink holds back at most part of one line, and never more than the 1 MiB cap or one byte less than the longest secret. |
| `Redaction.CleanLogIsUntouched` | internal/executor/runner.go:406-452 | A log in which no secret occurs comes through whole, in order and unchanged, however long its lines and however it was cut. |
| `Redaction.NoSecretIsEverWritten` | internal/executor/runner.go:406-452 | For every way of cutting the stream into writes, including newline-less streams that fill the buffer again and again, no hideable secret without a newline before its end occurs in the output, before or after close. |
| `RedactionLimits.HiddenInEveryLogIffMaskable` | internal/executor/runner.go:406-452 | A secret is hidden in every way of writing every stream, beside any other secrets, if and only if it is hideable and has no newline before its end. |
| `Redaction.SplitDoesNotMatter` | internal/executor/runner.go:406-452 | When no line exceeds the buffer the output is the redaction of the whole stream, however it was cut. |
| `Redaction.FileHolds` | internal/executor/runner.go:356-384 | The capped file shows a newline-free secret only if the accepted bytes do or the truncation marker itself contains it. |
| `Redaction.CappedLogSink.Write` | internal/executor/runner.go:356-384 | The file is always the accepted bytes up to the limit, followed by one marker once something was dropped. |
| `Redaction.RedactWriter.constructor` | internal/executor/runner.go:323-340 | The writer holds the given secrets, longest first. |
| `Redaction.WriteLog` | internal/executor/runner.go:323-340 | A whole log, from sink to file: no hideable one-line secret reaches the file unless the truncation marker itself contains it. |
| `RedactionLimits.Betrayal` | internal/executor/runner.go:463-465 | Every secret that is not hideable has surroundings in which masking it produces it again. |
| `RedactionLimits.TwoLineSecretSurvives` | internal/executor/runner.go:391-396 | Every secret with a newline before its end, written alone, is passed on unmasked. |
| `LaunchRegistry.StepKeepsInv` | internal/executor/runner.go:77-165 | With distinct state-file names every step keeps each reference with at most one launch or waiter, and every kept reference on file and, while serving, in the registry. |
| `LaunchRegistry.StepStartsNoSecond` | internal/executor/runner.go:207-214 | No step starts a second process for a kept reference, and only the sweep's eviction drops it. |
| `LaunchRegistry.NoSecondStart` | internal/executor/runner.go:77-214 | Once a Launch has started a process and returned, no later Launch of the reference starts another, across any number of crashes each followed by recovery, until its process has been known to be gone for more than 3600 seconds of elapsed time; and until then it never probes unknown while launches are served. |
| `LaunchRegistry.OldResultIsDropped` | internal/executor/runner.go:207-214 | 3601 seconds after its end was noticed, a result is dropped by the next launch of anything, and a launch of the same reference starts anew. |
| `LaunchRegistry.EndIsRecorded` | internal/executor/runner.go:192-200 | A process that ends probes running until its waiter marks it and exited from then on, and once the waiter has saved that it is on record. |
| `LaunchRegistry.SavedResultSurvives` | internal/executor/state.go:63-115 | Once a finished result is on record, every later probe that is served says exited for the rest of its hour, however often the executor crashes. |
| `LaunchRegistry.SafeIffNamesDistinct` | internal/executor/state.go:31-33 | That guarantee holds for a set of references if and only if no two of them share a state file. |
| `LaunchRegistry.CollisionStartsTwice` | internal/executor/state.go:63-115 | With a shared state file, two launches, a crash and recovery lead to a second start. |
| `LaunchRegistry.BoundaryDoesNotShow` | internal/executor/state.go:31-33 | Moving the boundary between run and task over an underscore changes the reference but not its state file. |
| `LaunchRegistry.FileNamesCanCollide` | internal/executor/state.go:31-33 | References the scheduler issues collide: a task of a scheduled run and one of a manual run of another DAG. |
| `Runner.Registry.SweepFinishedLocked` | internal/executor/runner.go:207-214 | The loop evicts exactly the finished tasks older than the time-to-live, with their files. |
| `Runner.Registry.BeginLaunch` | internal/executor/runner.go:78-91 | The call is to start a process exactly when the reference is nonempty and unknown after the sweep. |
| `Runner.Registry.RecoverState` | internal/executor/state.go:63-115 | The recovery loop makes the reference of every record known before launches are served. |
| `AttemptStore.TaskRow.UpdateTaskInstanceGuarded` | internal/store/sqlite/sqlite.go:724-735 | Link: the guarded write applies exactly when the row carries the expected reference and is not terminal, and otherwise changes nothing. |
| `AttemptStore.TaskRow.Dispatch` | internal/scheduler/scheduler.go:2190-2204 | Link: dispatch takes the dispatch step: next try number, queued, its reference, one new goroutine. |
| `AttemptStore.TaskRow.StopIfCancelled` | internal/scheduler/scheduler.go:2303-2305 | Link: the look at the row before the launch takes the skipping step exactly when the row is cancelled. |
| `AttemptStore.TaskRow.LaunchAttempt` | internal/scheduler/scheduler.go:2306-2327 | Link: each reply of the launch takes its own step: proceed, give the attempt back, or record a failure. |
| `AttemptStore.TaskRow.MarkAttemptRunning` | internal/scheduler/scheduler.go:2329-2344 | Link: the row becomes running and is polled, or the process must be killed, exactly when the row has moved on. |
| `AttemptStore.TaskRow.SettleAttempt` | internal/scheduler/scheduler.go:2367-2374 | Link: the verdict takes the polling step against the row as it is by then. |
| `AttemptStore.TaskRow.FinalizeTask` | internal/scheduler/scheduler.go:2637-2653 | Link: through the guarded write, exit code 0 makes an unfinished row of that attempt successful, 99 skipped, any other code up for retry while tries do not exceed max_retries, and failed otherwise. |
| `AttemptStore.TaskRow.RecordFailure` | internal/scheduler/scheduler.go:2705-2716 | Link: a failed attempt leaves the row up for retry while tries remain and failed otherwise, through the guarded write. |
| `AttemptStore.TaskRow.RecoverQueuedRow` | internal/scheduler/scheduler.go:2738-2795 | Link: recovery of a queued row takes the step of its probe: finalize, mark running and attach, give the attempt back, or leave it. |
| `AttemptStore.TaskRow.RecoverRunningRow` | internal/scheduler/scheduler.go:2801-2822 | Link: recovery of a running row takes the step of its probe: finalize, attach, or record it lost. |
| `Outbox.DependencyTrigger.CreateDagRunBounded` | internal/store/sqlite/sqlite.go:365-388 | Link: the bounded insert reports an archived DAG first, then a full queue, then a duplicate, and otherwise inserts exactly one queued run. |
| `ScheduleRuns.Scheduler.CreateDueRuns` | internal/scheduler/scheduler.go:1218-1271 | Link: the method takes exactly the tick step. |
| `LogStream.Hub.HandleLogChunk` | internal/workerhub/hub.go:413-461 | Link: the handler drops overlaps, answers with a rewind exactly on a gap, appends what is new and acknowledges the file's length, for its own worker only and touching no other file. |
| `LogStream.Hub.AdoptOrphan` | internal/workerhub/hub.go:506-517 | Link: a reference unknown after a restart resumes at the size of the file on disk; a known one is untouched. |
| `LogStream.Agent.HandleLogAck` | internal/worker/worker.go:358-383 | Link: only a rewind moves the cursor back, and spool and bookkeeping go exactly when an exited attempt is acknowledged to its end. |
| `HubTable.WorkerHub.AdoptOrphanRef` | internal/workerhub/hub.go:506-521 | Link: adoption after the unlocked lookup adds the reference only if it is still untracked. |
| `HubTable.WorkerHub.Drop` | internal/workerhub/hub.go:349-356 | Link: dropping a stream removes and closes it only if it is still the worker's current one. |
| `HubTable.WorkerHub.Remove` | internal/workerhub/hub.go:614-621 | Link: disconnecting removes and closes the worker's stream, if any. |
| `HubTable.WorkerHub.HandleTaskEvent` | internal/workerhub/hub.go:361-408 | Link: only the assigned worker's reports change an assignment, and a launch error ends it with code 127. |
| `HubTable.WorkerHub.ForgetRef` | internal/workerhub/hub.go:729-736 | Link: only a terminal assignment can be forgotten. |
| `HubTable.WorkerHub.ProbeRef` | internal/workerhub/hub.go:688-703 | Link: the probe answers unknown for a lost assignment and running for an unknown one during the boot grace. |
| `Redaction.RedactWriter.Write` | internal/executor/runner.go:406-442 | Link: a write appends, drains complete lines redacted, and flushes an over-full rest. |
| `Redaction.RedactWriter.Close` | internal/executor/runner.go:444-452 | Link: closing redacts and writes what is buffered. |
| `Runner.Registry.Forget` | internal/executor/runner.go:269-273 | Link: a failed launch gives up its reservation. |
| `Runner.Registry.FinishLaunch` | internal/executor/runner.go:154-164 | Link: the end of a launch saves the record and hands the process to its waiter. |
| `Runner.Registry.MarkFinished` | internal/executor/runner.go:192-200 | Link: the waiter marks the entry finished now, if it is still known. |
| `Runner.Registry.AdoptFile` | internal/executor/state.go:72-110 | Link: one record is registered as finished, adopted alive, or finished because its process is gone; a known reference is left alone. |
| `Runner.Registry.ProbeRef` | internal/executor/runner.go:231-242 | Link: the probe answers unknown, running or exited from the registry. |

## Left out

- SQL text, drivers, migrations, HTTP handlers, the command line, notifications, authentication and the web interface.
- DagPipeline.Parse: only the expansion and the dependency checks of Parse; its checks of names, schedules, types and numbers would only add easy members.
- DagPipeline.ProcessRun: only the propagation phase; dispatch, retries and ends of attempts are in RunTermination and Attempts, and the run's own final state and notifications are left out.
- RunTermination.EveryRunFinishes: an attempt handed back without having executed (no worker in its group, or lost before its launch) repeats a dispatch and is not a step here; sub-workflow tasks, holds and operator retries, which start the run anew, are left out.
- Attempts.StepKeepsInv: sub-workflow rows, which never have a poller of their own, are not in this model; the tick's discard is treated as a cancel under the lock; a worker holds its own copy of the row, without timestamps.
- The completion heuristics that read log text and output files (internal/scheduler/scheduler.go:2391-2428): a poll step may yield any outcome instead, so exit code 0 in a step also stands for a success read off the log.
- Retry delays, run deadlines' arithmetic, task-level alerts and the metrics counters.
- Admission.Scheduler.AdmitReady: the equality with the recounting reference needs one shared task limit per DAG; the store's counts succeed, and pollers that free slots during the pass are not modelled.
- Pools do not change size during a pass, and a candidate's pool and DAG are those of its row.
- FanIn.NoTriggerLostOrDoubled: assumes a fixed set of registered DAGs, no pruning and no manual sync key.
- External events and webhooks, which follow the same outbox pattern with simpler bookkeeping.
- ScheduleRuns.ScheduledRunsAreAPrefix: catch-up DAGs only, with one unchanged schedule; a DAG without catch-up anchors at boot time instead.
- ScheduleRuns.Scheduler.Backfill: the refusals for an unknown DAG, one without tasks and one without a schedule are left out; run ids are taken to be distinct, as they are for whole-second schedules.
- LogProtocol.HubHoldsAPrefix: one assignment of the first attempt on a nonempty log path, with all-or-nothing file writes; a relaunch of the same reference on the same path is not modelled, nor a hub whose log was pruned.
- LogStream.LogPump.Turn: a pump that has returned ignores a later rewind until the next session restarts it, which RecoversInSessionIff makes exact and DeliveryStaysPossible covers by a reconnect; a pump that outlives its collected attempt finds no spool, and a reassignment of the same reference under it is not modelled.
- HubTable.WorkerHub.HandleTaskEvent: the source looks the reference up, writes the output file without the lock and then takes the lock again; the model takes one step, so a reference forgotten or reassigned in between is not covered.
- HubSessions.FailoverOnlyWithoutWorker: assumes a worker never reports RUNNING after EXITED or UNKNOWN.
- HubSessions.LaunchesAreBalanced: the reports it excludes do occur in the code, and after one the counter stays off until the worker's next hello.
- Redaction.WriteLog: a secret that ends in a newline can be completed on disk by the newline of the truncation marker, so the file is spoken for only for secrets without one.
- Redaction.FileHolds: write errors of the log file and concurrent writers of one sink, which its mutex serialises.
- LaunchRegistry.NoSecondStart: file writes are atomic and succeed; exit codes, timeouts and process groups are not part of this model, only whether an entry is finished.
- CancelCascade.Scheduler.CancelRunLocked: store writes succeed; timestamps are left out.
- Retry.Run.Reactivate: only states are modelled; pools, priorities and retry budgets adopted from the new definition are left out.
- Substituting items into commands, template rendering, and the other checks of parsing.
- The lease between scheduler replicas, pruning, live edits of DAGs, log ranking and calendar templates.
