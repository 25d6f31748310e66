# Durable DAG execution: a verified model

The platform stores workflow definitions, graphs of tasks that name their dependencies, and executes them with any
number of workers, schedulers and reconcilers. Execution state lives in database tables, runnable work in a separate
lease queue. No transaction spans the two and no fencing token ties them together, so what holds, holds only as a joint
invariant of both stores, the workers' local states and the ids on their way between them.

## How it is built

| Part | Files |
|---|---|
| Values, graphs, settings | `Domain.dfy`, `Graphs.dfy`, `Settings.dfy` |
| Definitions: validation, Kahn's test, id resolution, creation | `DefinitionService.dfy`, `DefinitionGraph.dfy`, `DefinitionManagement.dfy` |
| Start: compilation into task executions, commit, publication | `StartService.dfy`, `WorkflowStart.dfy`, `UnitsOfWork.dfy` |
| Execution state: transitions, statement by statement, and what they keep | `ExecutionStore.dfy`, `ExecutionRepository.dfy`, `StoreInvariant.dfy`, `Creation.dfy` |
| Lease queue | `QueueModel.dfy`, `ExecutionQueue.dfy` |
| Workers, heartbeats, reconciler | `TaskProcessing.dfy`, `ClaimEffects.dfy`, `Runtimes.dfy` |
| All actors interleaved | `Protocol.dfy`, `ProtocolInvariant.dfy` |
| Theorems over runs | `Guarantees.dfy`, `Progress.dfy`, `Accounting.dfy`, `Evaluation.dfy`, `Claims.dfy` |
| Chronological triggers | `Triggers.dfy`, `TriggerRepository.dfy`, `ChronologicalTriggers.dfy`, `Scheduling.dfy`, `Quotas.dfy`, `Scheduler.dfy` |
| Completion under READ COMMITTED | `ReadCommitted.dfy` |

Code that changes state step by step is a class or a loop here too, and each such method is tied to a function of whole
tables or to a run of the step relation. `Protocol` then lets the steps of all actors interleave in any order, lets any
worker stop between any two of them, lets leases expire under a worker that is still busy, and lets starters and
reconcilers hold ids they have not enqueued yet. The theorems quantify over all such runs.

`dafny verify dfyconfig.toml` checks the project.

## Assumptions

- One committed unit of work, or one queue session, is one step. The engine configures no isolation level
  (`src/automation_platform/infrastructure/database/engine.py:26-30`); `ReadCommitted.dfy` shows what this assumption is
  needed for and what holds without it.
- Steps read one clock that never goes back. `uuid4()` never repeats itself.
- Row locks and `SKIP LOCKED` are absorbed by the steps. Schedulers may overtake each other, because a step may fire any
  due trigger; queue claims take the oldest entry that is available.
- Plugins are arbitrary. Only `Evaluation.dfy` asks for determinism, and only of successful answers.
- `layouts`, `first` and `log` in the state record history for the statements; no step reads them.

## Where the code and its documentation differ

- `docs/adr/ADR-014-conditional-sql-state-transitions.md:31` lists a transition from running back to pending, and the
  docstring at `src/automation_platform/persistence/workflow_executions/repository.py:217-223` says a task with tries
  left returns to the queued state. The code keeps it RUNNING (lines 437-446), and so does the model.
- The docstring at `src/automation_platform/application/task_processing/services.py:162-164` says a retry returns the id
  of the task to enqueue. The code returns a flag and no ids, and so does the model.
- `src/automation_platform/persistence/workflow_executions/repository.py:378-382` promises completion once all tasks have
  finished. That needs serial transactions: under READ COMMITTED two last siblings can each see the other as RUNNING, and
  the workflow then stays RUNNING for good (`ReadCommitted.ConcurrentCompletionsMiss`, `ReadCommitted.MissedForGood`).
  `ReadCommitted.CompletedIffSeen` gives the exact condition.

## Model

| member | source | states |
|---|---|---|
| Evaluation.ScheduleIndependence | src/automation_platform/application/task_processing/services.py:44-83 | In every run, under any interleaving, retries, crashes and duplicate executions, with plugins that are deterministic when they succeed, the output of each COMPLETED task is the recursive evaluation of its key over the definition's graph |
| Evaluation.CompletedWorkflowComputes | src/automation_platform/persistence/workflow_executions/repository.py:374-410 | A COMPLETED workflow holds, for every task of its definition, a row with that task's evaluated output |
| Evaluation.RunsAgree | src/automation_platform/application/task_processing/services.py:44-83 | Two runs, of one platform or of two, agree on the output of every task of the same name that both completed, even if the definitions drew different ids |
| Evaluation.RunEvaluates | src/automation_platform/persistence/workflow_executions/repository.py:292-337 | Any deterministic continuation keeps every completed output equal to its evaluation: the induction behind schedule independence |
| Evaluation.InputsAreValues | src/automation_platform/persistence/workflow_executions/repository.py:258-290 | Once all parents are completed, what the plugin answers on the inputs read from the parents is the evaluation of the task |
| Evaluation.EvalUnfolds | src/automation_platform/application/task_processing/services.py:64-72 | The evaluation of a key is its plugin applied to its configuration and the evaluations of its dependencies, each under its own key |
| Evaluation.DefinitionIsEvaluable | src/automation_platform/application/workflow_definitions/services.py:167-168 | Every well-formed definition has an evaluation: the recursion over keys is well founded |
| Evaluation.StableInputs | src/automation_platform/persistence/workflow_executions/repository.py:166-180 | Every physical attempt at a task, first, repeated or duplicate after lease loss, receives the same plugin type, configuration and inputs, with exactly one input per parent |
| Evaluation.InputsAreComplete | src/automation_platform/persistence/workflow_executions/repository.py:271-290 | The inputs read have as many keys as the task has parents, each parent's output under that parent's key: none is lost to a collision |
| Progress.AlwaysCompletable | src/automation_platform/runtime/reconciler/reconciler.py:65-74 | From every reachable state, whatever crashed and whoever holds leases, some continuation completes any workflow that is still RUNNING |
| Guarantees.NoLostWork | src/automation_platform/persistence/workflow_executions/repository.py:124-131 | In every reachable state a RUNNING task is queued, and a workable task missing from the queue is one the reconciler's query returns |
| Guarantees.QueuedUntilOver | src/automation_platform/execution_queue/postgres/queue.py:179-190 | Over any run a queued task stays queued until it is over |
| Guarantees.StepKeepsEntry | src/automation_platform/runtime/worker/worker.py:105-120 | No step of any actor removes a queue entry whose task is not over |
| Guarantees.ReconciliationRecovers | src/automation_platform/runtime/reconciler/reconciler.py:65-74 | A reconciliation queues everything that was workable when it read, however many steps of others lie between its read and its enqueue |
| Guarantees.QueueSoundness | src/automation_platform/execution_queue/postgres/queue.py:196-237 | Every id queued or on its way to the queue (roots after commit, children to be finished, stale snapshots) is a stored task whose parents are all COMPLETED with an output |
| Guarantees.StartNeverRaises | src/automation_platform/persistence/workflow_executions/repository.py:282-284 | In no reachable state can a worker's start fail for a missing parent output |
| Guarantees.DeadlockFreedom | src/automation_platform/persistence/workflow_executions/repository.py:197-215 | In every reachable state a RUNNING workflow has a task that is RUNNING, or PENDING with no unfinished parent, and that is queued or will be read by the reconciler |
| Guarantees.SomethingWorkable | src/automation_platform/application/workflow_definitions/services.py:167-204 | The same for any store that satisfies the invariant: acyclicity of the definition and exact counters give a lowest unfinished task |
| Guarantees.StatusAgreement | src/automation_platform/persistence/workflow_executions/repository.py:392-410 | A workflow is COMPLETED iff all its tasks are; FAILED iff exactly one task is FAILED, and then none is open; while RUNNING none is FAILED or CANCELLED |
| Guarantees.TerminalIsForever | src/automation_platform/persistence/workflow_executions/repository.py:428-434 | Task rows and workflow rows that are over never change again |
| Guarantees.CounterInvariant | src/automation_platform/persistence/workflow_executions/repository.py:339-372 | In every reachable state the counter of a task is the number of its parents that are not COMPLETED, and the children of a RUNNING task are PENDING with a positive counter, so no decrement is dropped |
| Accounting.ReleasedExactlyOnce | src/automation_platform/persistence/workflow_executions/repository.py:355-372 | From the start of the platform each task is reported newly runnable at most once, exactly when its last parent is done, and every task that started was reported exactly once |
| Accounting.ReleasedOnce | src/automation_platform/persistence/workflow_executions/repository.py:205-215 | Over any run the reports of a task number one if it became ready in that run and zero otherwise |
| Accounting.ReportedByLastParent | src/automation_platform/persistence/workflow_executions/repository.py:205-215 | The completion that reports a child is that of its last unfinished parent |
| Accounting.BoundedRetries | src/automation_platform/persistence/workflow_executions/repository.py:428-473 | `remaining_tries` is `max_tries` minus the committed failed attempts, however many workers attempted the task at once; open tasks have a try left; FAILED holds iff none is left |
| Accounting.TriesAddUp | src/automation_platform/persistence/workflow_executions/repository.py:428-460 | Over any run, tries left plus failed attempts committed is what the task began with |
| Accounting.TransitionsArePaid | src/automation_platform/persistence/workflow_executions/repository.py:428-460 | The transitions of a task in any run are at most the tries it has left, plus one if it has not started |
| Accounting.BoundedTransitions | src/automation_platform/persistence/workflow_executions/repository.py:428-460 | After a workflow is started, its tasks together make at most the sum of (max_tries + 1) transitions in any run |
| Claims.RunsProject | src/automation_platform/execution_queue/postgres/queue.py:55-190 | Every run of the platform is, seen from the queue, a run of the queue machine |
| Claims.StaleWorkersAreHarmless | src/automation_platform/runtime/worker/worker.py:134-145 | Whatever a worker with a superseded claim does at any later time leaves the queue as it is, and its next heartbeat makes it distrust the claim |
| Claims.OneHolder | src/automation_platform/execution_queue/postgres/queue.py:91-99 | However many workers execute a task at once, at most one of them can renew, release or finish its entry |
| Claims.PunctualWorkerKeepsClaim | src/automation_platform/runtime/worker/worker.py:130-145 | With accepted timing, a worker whose heartbeats are each less than two intervals late is not reclaimed while it is processing, whatever all other actors do |
| Claims.NobodyOvertakes | src/automation_platform/execution_queue/postgres/queue.py:74-94 | While a task can be claimed and nobody takes it, it keeps its `queued_at` and every claim the platform makes takes an entry queued no later |
| Claims.FirstComeFirstServed | src/automation_platform/execution_queue/postgres/queue.py:74-94 | Over whole runs, by arrival and not by a stored column: while an arrival is left waiting, nothing that arrived at a later time is claimed, whichever starts, finished tasks or reconciliations brought them |
| Claims.DisposalIsExact | src/automation_platform/runtime/worker/worker.py:105-120 | What the worker does with a processed claim, entry by entry: nothing without trust or with a lost claim, the entry freed in its place for a retry, otherwise the entry replaced by the reported ids, each free and queued now |
| Claims.FinishingHandsOn | src/automation_platform/execution_queue/postgres/queue.py:179-190 | In every reachable state, finishing with a valid claim takes a task off the queue that is over, and leaves every reported task stored, ready and queued |
| Scheduling.IntervalNeverSkips | src/automation_platform/application/chronological_triggers/service.py:87-115 | For an interval trigger, in every reachable state, `next_run_at` is the first occurrence plus one interval per workflow execution it has created, and the k-th execution stands for the k-th occurrence |
| Scheduling.OneExecutionPerOccurrence | src/automation_platform/application/chronological_triggers/service.py:97-113 | For any trigger plugin, the executions created are distinct stored executions of the trigger's workflow, one for each of its first occurrences in order |
| Scheduling.StepKeepsPlatformInv | src/automation_platform/application/chronological_triggers/service.py:87-115 | Every step, with schedulers racing and skipping each other's locked rows, keeps schedules consecutive and the log of firings true |
| Scheduling.InstallationSchedules | src/automation_platform/application/chronological_triggers/service.py:43-72 | Installing triggers schedules each of them, and no other, for the first occurrence its plugin names from now |
| Scheduling.FirstInterval | src/automation_platform/plugins/triggers/implementations/interval.py:46-60 | The first occurrence of an interval trigger is one interval after its installation |
| SchedulerRuntime.DrainCorrectness | src/automation_platform/runtime/scheduler/scheduler.py:50-59 | A finished drain has fired each trigger floor((now - next_run_at) / interval) + 1 times if it was due and no other trigger, in order of time and trigger id |
| SchedulerRuntime.Scheduler.Drain | src/automation_platform/runtime/scheduler/scheduler.py:50-59 | The drain loop terminates; its effect is a run of the platform that leaves nothing due and has served each trigger in order |
| Quotas.QuotaIsExact | src/automation_platform/plugins/triggers/implementations/interval.py:60 | The number of occurrences owed is the one n with the n-th interval after `now` and the one before it not |
| Quotas.QuotaFalls | src/automation_platform/application/chronological_triggers/service.py:97-108 | Serving one due occurrence reduces what is owed by exactly one |
| ReadCommitted.CompletedIffSeen | src/automation_platform/persistence/workflow_executions/repository.py:392-408 | At statement granularity, once all tasks are committed, the workflow is COMPLETED iff some transaction made its completion check after every other task was committed |
| ReadCommitted.ConcurrentCompletionsMiss | src/automation_platform/persistence/workflow_executions/repository.py:392-408 | Two last siblings completing at the same time leave the workflow RUNNING with all tasks COMPLETED |
| ReadCommitted.MissedForGood | src/automation_platform/persistence/workflow_executions/repository.py:392-408 | Once all tasks are committed no further statement is possible, so a workflow missed by its last tasks stays RUNNING |
| ReadCommitted.SerialCompletes | src/automation_platform/persistence/workflow_executions/repository.py:392-410 | With one transaction open at a time, the workflow is COMPLETED iff all its tasks are |
| ReadCommitted.NoLostDecrement | src/automation_platform/persistence/workflow_executions/repository.py:355-370 | However the statements of concurrent completions interleave, row locks keep every committed counter equal to the number of uncommitted parents, and a COMPLETED workflow has only COMPLETED tasks |
| ProtocolInvariant.StepKeepsInv | src/automation_platform/application/task_processing/services.py:106-175 | Every step of every actor keeps the joint invariant of both stores, the workers' local states and the ids in flight |
| ProtocolInvariant.ReachableInv | src/automation_platform/application/task_processing/services.py:106-175 | The joint invariant holds in every reachable state |
| StoreInvariant.CompletionIsExact | src/automation_platform/persistence/workflow_executions/repository.py:197-215 | Completing a running task changes exactly that row and its children's counters, and reports exactly the children left without unfinished parents |
| StoreInvariant.FailureIsExact | src/automation_platform/persistence/workflow_executions/repository.py:497-529 | The last failed attempt leaves the task FAILED with no try, the message and the time, fails its workflow, cancels every other open task of that workflow and touches nothing else |
| StoreInvariant.AttemptIsExact | src/automation_platform/persistence/workflow_executions/repository.py:428-460 | A failed attempt that leaves tries takes one, keeps the message and changes nothing else anywhere; the task keeps running |
| StoreInvariant.CompletionOfWorkflow | src/automation_platform/persistence/workflow_executions/repository.py:392-410 | Completing a running task completes its workflow, at that time, iff that was running and none of its tasks is left unfinished |
| StoreInvariant.StartIsExact | src/automation_platform/persistence/workflow_executions/repository.py:154-164 | Starting a pending task marks it running, notes the time and changes nothing else |
| StoreInvariant.GuardsHold | src/automation_platform/persistence/workflow_executions/repository.py:154-203 | Results for a task that is not RUNNING and starts of one that is not PENDING change nothing and report nothing |
| StoreInvariant.CompleteKeepsConsistent | src/automation_platform/persistence/workflow_executions/repository.py:182-215 | `complete_task` keeps links, counters, outputs and status agreement |
| StoreInvariant.RetryKeepsConsistent | src/automation_platform/persistence/workflow_executions/repository.py:217-252 | `retry_task` keeps links, counters, outputs and status agreement |
| StoreInvariant.StartKeepsConsistent | src/automation_platform/persistence/workflow_executions/repository.py:154-164 | `start_task` on a task without unfinished parents keeps links, counters, outputs and status agreement |
| Creation.CreateKeepsConsistent | src/automation_platform/persistence/workflow_executions/repository.py:74-84 | Storing a compiled execution keeps them too, and disturbs no stored row |
| Creation.CreationIsExact | src/automation_platform/persistence/workflow_executions/repository.py:74-84 | Storing an execution adds exactly its rows, each pending and blank under its own id, and one running workflow row |
| Creation.RowOrigin | src/automation_platform/application/workflow_start/services.py:155-175 | Every stored row is traceable to the task definition it was compiled from |
| ExecutionRepository.WorkflowExecutionRepository.Create | src/automation_platform/persistence/workflow_executions/repository.py:74-84 | Adds the workflow row and the compiled rows and changes nothing else |
| ExecutionRepository.WorkflowExecutionRepository.FindRunnableIds | src/automation_platform/persistence/workflow_executions/repository.py:114-131 | Lists exactly the PENDING tasks with no remaining dependencies, each once |
| ExecutionRepository.WorkflowExecutionRepository.StartTask | src/automation_platform/persistence/workflow_executions/repository.py:133-180 | The guarded update, then the processing data, nothing, or the error, as the resulting row demands |
| ExecutionRepository.WorkflowExecutionRepository.LoadParentOutputs | src/automation_platform/persistence/workflow_executions/repository.py:258-290 | Fails iff a stored parent has no output; otherwise maps the key of every parent to a parent's output |
| ExecutionRepository.WorkflowExecutionRepository.CompleteTask | src/automation_platform/persistence/workflow_executions/repository.py:182-215 | Statement by statement, equals the transition on whole tables; a task that is not RUNNING changes nothing |
| ExecutionRepository.WorkflowExecutionRepository.UpdateChildDependencies | src/automation_platform/persistence/workflow_executions/repository.py:339-372 | The loop over children equals the fold of guarded decrements, in order |
| ExecutionRepository.WorkflowExecutionRepository.CompleteWorkflowIfFinished | src/automation_platform/persistence/workflow_executions/repository.py:374-410 | Completes the workflow iff it is RUNNING and none of its tasks is unfinished |
| ExecutionRepository.WorkflowExecutionRepository.RetryTask | src/automation_platform/persistence/workflow_executions/repository.py:217-252 | Statement by statement, equals the transition on whole tables, including workflow failure |
| ExecutionRepository.WorkflowExecutionRepository.FailWorkflow | src/automation_platform/persistence/workflow_executions/repository.py:475-529 | Fails a RUNNING workflow and cancels its open tasks; otherwise changes nothing |
| ExecutionStore.ReleaseDistinct | src/automation_platform/persistence/workflow_executions/repository.py:355-372 | With distinct children, each waiting child loses one dependency and exactly those left with none are reported |
| ExecutionQueue.PostgresExecutionQueue.Enqueue | src/automation_platform/execution_queue/postgres/queue.py:37-53 | Adds unclaimed entries for new ids and leaves existing entries as they are |
| ExecutionQueue.PostgresExecutionQueue.InsertQueueEntries | src/automation_platform/execution_queue/postgres/queue.py:196-237 | The same for one given timestamp, conflicts ignored |
| ExecutionQueue.PostgresExecutionQueue.SelectNext | src/automation_platform/execution_queue/postgres/queue.py:74-85 | The available entry with the least `queued_at`, or nothing iff none is available |
| ExecutionQueue.PostgresExecutionQueue.Claim | src/automation_platform/execution_queue/postgres/queue.py:55-103 | Leases such an entry under a fresh token, and changes nothing when there is none |
| ExecutionQueue.PostgresExecutionQueue.Heartbeat | src/automation_platform/execution_queue/postgres/queue.py:105-130 | Renews and answers true iff the token still matches |
| ExecutionQueue.PostgresExecutionQueue.Release | src/automation_platform/execution_queue/postgres/queue.py:132-160 | Clears the lease iff the token still matches, keeping `queued_at` |
| ExecutionQueue.PostgresExecutionQueue.Finish | src/automation_platform/execution_queue/postgres/queue.py:162-190 | Replaces the entry by the new ids iff the token still matches |
| QueueModel.StaleClaimsStayDead | src/automation_platform/execution_queue/postgres/queue.py:118-126 | A claim that was superseded never renews, releases or finishes anything again, over any later run |
| QueueModel.SupersededIsDead | src/automation_platform/execution_queue/postgres/queue.py:91-94 | Reclaiming, releasing and finishing each supersede the claim they act on |
| QueueModel.OneValidClaim | src/automation_platform/execution_queue/postgres/queue.py:91-99 | An entry answers to one token at most, and a token opens one entry at most |
| QueueModel.RunKeepsQueueOk | src/automation_platform/execution_queue/postgres/queue.py:55-190 | Tokens are issued once and never shared between entries; lease columns are filled and cleared together |
| QueueModel.EnqueueIsExact | src/automation_platform/execution_queue/postgres/queue.py:214-237 | Enqueueing makes every given id an entry; new ones are free and queued now, old ones stay as they are |
| QueueModel.FinishIsExact | src/automation_platform/execution_queue/postgres/queue.py:179-190 | Finishing with a valid claim removes its entry and makes every given id one; new ones are free and queued now, all others stay as they are |
| QueueModel.ClaimIsExact | src/automation_platform/execution_queue/postgres/queue.py:91-99 | Claiming fills the lease of one entry, from now on and for this worker, under the issued token, and changes no other entry |
| QueueModel.LeaseSessionsAreExact | src/automation_platform/execution_queue/postgres/queue.py:118-160 | With a valid claim a heartbeat notes the time and a release frees the entry in its place; with any other claim heartbeat, release and finish all do nothing |
| QueueModel.LeaseEndsExactly | src/automation_platform/execution_queue/postgres/queue.py:70-80 | A leased entry can be claimed exactly from one lease after its last heartbeat on |
| QueueModel.NewEntriesAreStamped | src/automation_platform/execution_queue/postgres/queue.py:177-188 | Whatever session makes an id an entry, the entry is free and queued at the time of that session |
| QueueModel.LaterArrivalsWait | src/automation_platform/execution_queue/postgres/queue.py:74-94 | While an arrival is left alone, nothing that arrives at a later time is claimed, over any run of sessions |
| QueueModel.NoOvertaking | src/automation_platform/execution_queue/postgres/queue.py:74-94 | First in, first out over any run of queue sessions |
| QueueModel.PositionIsKept | src/automation_platform/execution_queue/postgres/queue.py:217-235 | Nothing but its own removal changes an entry's `queued_at`; enqueueing it again changes nothing of it |
| QueueModel.PunctualKeepsLease | src/automation_platform/config/loader.py:132-136 | With accepted timing, punctual heartbeats keep the lease over any run of queue sessions |
| QueueModel.SilenceLosesLease | src/automation_platform/execution_queue/postgres/queue.py:70-85 | The bound is tight: silence for the length of the lease lets the entry be reclaimed, and the old claim is then dead |
| Settings.ValidateTiming | src/automation_platform/config/loader.py:102-136 | Accepts exactly positive timings with lease >= 3 x heartbeat; each error names the first timing that is not positive, or the lease when all are |
| DefinitionService.HasDependencyCycle | src/automation_platform/application/workflow_definitions/services.py:170-204 | Kahn's test terminates and answers true iff the dependency graph has a cycle |
| DefinitionService.SearchOutcome | src/automation_platform/application/workflow_definitions/services.py:192-204 | When the stack runs empty, fewer keys were processed than there are tasks iff there is a cycle, in whatever order keys were popped |
| DefinitionService.ProcessReady | src/automation_platform/application/workflow_definitions/services.py:194-202 | One turn of the loop processes one key whose dependencies are all processed and keeps the counters exact |
| DefinitionService.ReadyKeys | src/automation_platform/application/workflow_definitions/services.py:180-190 | The initial stack holds exactly the tasks without dependencies |
| DefinitionService.ChildrenByKey | src/automation_platform/application/workflow_definitions/services.py:182-186 | The child lists are the dependency lists reversed |
| DefinitionService.ValidateTasks | src/automation_platform/application/workflow_definitions/services.py:114-168 | Accepts exactly the valid requests, and every error names something that is wrong |
| DefinitionService.ValidateTask | src/automation_platform/application/workflow_definitions/services.py:134-165 | Accepts exactly the valid tasks |
| DefinitionService.CreateTaskDefinitions | src/automation_platform/application/workflow_definitions/services.py:242-267 | Resolves every key to a fresh id, distinct keys to distinct ids, and every dependency to its task's id |
| DefinitionGraph.ResolutionKeepsDependencies | src/automation_platform/application/workflow_definitions/services.py:255-267 | One task depends on another in the request iff their ids do in the definition |
| DefinitionGraph.AcceptedIsWellFormed | src/automation_platform/application/workflow_definitions/services.py:69-70 | Whatever validation accepts becomes a well-formed, acyclic definition |
| DefinitionManagement.WorkflowDefinitionService.Create | src/automation_platform/application/workflow_definitions/services.py:52-97 | Succeeds iff tasks and triggers are valid and every first occurrence can be calculated; success installs the very tasks requested, key by key resolved, enabled as requested, with the very triggers requested; refusal changes nothing and its error is accurate |
| DefinitionManagement.RequestedIsExecuted | src/automation_platform/application/workflow_start/services.py:155-172 | From the request over the stored definition to the executions: row i is requested task i with its plugin, configuration and tries, and waits for row j exactly when the request says so |
| DefinitionManagement.WorkflowDefinitionService.CreateTriggerDefinitions | src/automation_platform/application/workflow_definitions/services.py:269-300 | Fails iff a trigger is unknown or misconfigured, and says which; otherwise gives each requested trigger a fresh id |
| DefinitionManagement.WorkflowDefinitionService.InitializeTriggers | src/automation_platform/application/trigger_initialization/service.py:23-38 | Adds exactly the first runs of the triggers that have one, or fails iff a calculation does |
| DefinitionManagement.WorkflowDefinitionService.Persist | src/automation_platform/application/workflow_definitions/services.py:83-95 | Definition, triggers and schedules become visible together or not at all |
| Graphs.AcyclicIffRanked | src/automation_platform/application/workflow_definitions/services.py:170-204 | A finite graph has no cycle iff its nodes can be ranked below their dependents |
| Graphs.TrappedHasCycle | src/automation_platform/application/workflow_definitions/services.py:194-204 | Nodes that each keep a dependency among themselves contain a cycle |
| Graphs.DependentsAreExact | src/automation_platform/application/workflow_start/services.py:204-214 | Reversing duplicate-free dependency lists yields duplicate-free lists of exactly the dependents |
| StartService.CreateWorkflowExecution | src/automation_platform/application/workflow_start/services.py:124-185 | Compiles the definition under fresh, distinct execution ids and returns its roots |
| StartService.CreateChildTaskLookup | src/automation_platform/application/workflow_start/services.py:187-214 | Lists for each task the executions that depend on it |
| StartService.CompileTasks | src/automation_platform/application/workflow_start/services.py:155-175 | Gives each task its row, its counter and its relatives, and collects the roots in order |
| StartService.ParentsMirrorDependencies | src/automation_platform/application/workflow_start/services.py:164-172 | One execution is a parent of another iff the definition says so; parent lists have no duplicates |
| StartService.ChildrenInvertParents | src/automation_platform/application/workflow_start/services.py:204-214 | Child lists are the exact inverse of parent lists, without duplicates |
| StartService.RootsHaveNoParents | src/automation_platform/application/workflow_start/services.py:174-175 | The returned roots are exactly the executions that wait for nothing |
| WorkflowStart.WorkflowStartService.StartAndCommit | src/automation_platform/application/workflow_start/services.py:71-118 | Unknown or disabled definitions change nothing; otherwise the effect is the protocol's start step followed by publication, or by none when the queue fails after the commit |
| WorkflowStart.WorkflowStartService.CreateAndCommit | src/automation_platform/application/workflow_start/services.py:110-114 | The new execution and whatever else the unit of work holds are committed together |
| WorkflowStart.WorkflowStartService.Start | src/automation_platform/application/workflow_start/services.py:48-69 | The same in a unit of work of its own |
| UnitsOfWork.UnitOfWork.Commit | src/automation_platform/persistence/database/sqlalchemy_uow.py:38-41 | Makes the session's tables the database's tables; without it nothing changes |
| TaskProcessing.TaskProcessingService.StartTask | src/automation_platform/application/task_processing/services.py:89-118 | Commits the running state only if there is something to process |
| TaskProcessing.TaskProcessingService.CompleteTask | src/automation_platform/application/task_processing/services.py:120-145 | Commits the completion and returns the newly runnable children |
| TaskProcessing.TaskProcessingService.RetryTask | src/automation_platform/application/task_processing/services.py:147-177 | Commits the failed attempt and says whether to retry |
| TaskProcessing.TaskProcessingService.Process | src/automation_platform/application/task_processing/services.py:44-83 | Start, plugin, then completion or retry; an error before the second transaction leaves the first one's effect |
| Runtimes.ProcessRuns | src/automation_platform/application/task_processing/services.py:44-83 | Processing, taken alone, is a run of protocol steps with the same outcome |
| Runtimes.Worker.ProcessClaim | src/automation_platform/runtime/worker/worker.py:74-120 | A success leaves the task COMPLETED with that output and its freed children queued in place of its entry; a failure spends one try, keeps the message and frees the entry in its place, or fails the task and removes it; without trust the queue is untouched; a task that is over only loses its entry. Seen from the protocol it is a run of the worker's own steps, a crash only when processing raised |
| ClaimEffects.ClaimSettles | src/automation_platform/runtime/worker/worker.py:93-120 | Why processing and disposing of a claim has exactly these effects on tables and queue, whatever state the task was found in |
| ClaimEffects.AnswerSettles | src/automation_platform/application/task_processing/services.py:74-83 | What the plugin's answer does to a running task, its children and its entry |
| Runtimes.Worker.Turn | src/automation_platform/runtime/worker/worker.py:49-56 | Claims the oldest available entry and settles it as above, or does nothing exactly when no entry is available |
| Runtimes.Worker.Heartbeat | src/automation_platform/runtime/worker/worker.py:122-145 | Each wake-up before the first failed or refused one renews the lease at its time; trust goes with that one and with nothing else; no other entry changes |
| Runtimes.Reconciler.Reconcile | src/automation_platform/runtime/reconciler/reconciler.py:65-79 | One cycle is a read step and a publication; afterwards exactly the runnable tasks are queued in addition, free and queued now |
| Triggers.ValidateConfiguration | src/automation_platform/plugins/triggers/implementations/interval.py:18-43 | Accepts exactly a positive whole number of seconds and no other key; flags do not count as numbers here |
| TriggerRepository.ChronologicalTriggerRepository.GetNextDue | src/automation_platform/persistence/chronological_triggers/repository.py:73-127 | The due, enabled trigger least in (next_run_at, id), or nothing iff none is due |
| TriggerRepository.ChronologicalTriggerRepository.UpdateNextRun | src/automation_platform/persistence/chronological_triggers/repository.py:129-152 | Moves a known schedule and fails for an unknown one |
| TriggerRepository.ChronologicalTriggerRepository.Delete | src/automation_platform/persistence/chronological_triggers/repository.py:52-71 | Removes the schedule row if there is one |
| ChronologicalTriggers.ChronologicalTriggerService.Initialize | src/automation_platform/application/chronological_triggers/service.py:43-72 | Creates the first run, creates nothing, or fails, as the plugin says |
| ChronologicalTriggers.ChronologicalTriggerService.ProcessNextDue | src/automation_platform/application/chronological_triggers/service.py:74-115 | Fires the earliest due occurrence as one step with the start of its workflow, or changes nothing at all; only a queue failure comes after the commit |

## Left out

- Claims.NobodyOvertakes: assumes that claim sessions do not overlap; with `SKIP LOCKED` a session can pass over an entry another session has locked at that moment.
- Progress.AlwaysCompletable: states that a completing continuation exists, with plugins that succeed in it; it is no promise that the scheduler of threads picks it.
- SchedulerRuntime.Scheduler.Drain: requires that every enabled trigger is a valid interval trigger of an enabled workflow, because the query filters on the trigger's flag only while a disabled workflow makes the start raise; a single scheduler drains.
- DefinitionManagement.WorkflowDefinitionService.Create: a trigger plugin outside the chronological mechanism counts as one without occurrences, and checks raise no other error than a refusal.
- Runtimes.Worker.ProcessClaim: nobody interferes while the claim is processed; the heartbeat thread is a flag here and a loop of its own in `Runtimes.Worker.Heartbeat`; their interleaving is that of `Protocol`.
- ReadCommitted.NoLostDecrement: covers beginning and completing tasks of one workflow; failing attempts are not part of the statement-level model.
- Timing is over reals: NaN, infinities, microsecond rounding and the range of `datetime` and `timedelta` are not modelled.
- The endless loops of workers, reconcilers and schedulers, their stop events and waits: one turn of each is modelled.
- Names, descriptions, creation and start times of workflow rows, and everything the mappers copy.
- Deleting definitions or executions, and the unused CANCELLED workflow status.
- HTTP interface, bootstrap, logging, environment parsing, plugin discovery and the shipped task plugins.
- Effects of plugins outside the platform, which the platform offers at least once only.
- Database constraint violations other than the rollback of the whole unit of work.
