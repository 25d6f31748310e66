/** The whole platform as a step relation. One committed transaction, or one queue session, is one step;
  * workers, heartbeats, reconcilers and starters interleave in any order and may stop between any two steps. */
module Protocol {
  import opened Domain
  import opened DefinitionGraph
  import opened StartService
  import opened ExecutionStore
  import opened Creation
  import Q = QueueModel

  /** How far a worker has come with its claim. */
  datatype Phase =
    | Claimed
    | Executing(pluginType: string, context: TaskContext)
    | Executed(pluginType: string, context: TaskContext, result: TaskResult)
    | Committed(outcome: ProcessTaskResult)

  /** A busy worker. Its heartbeat thread withdraws trust in the claim when a heartbeat fails. */
  datatype Worker = Worker(claim: Claim, trusted: bool, phase: Phase)

  /** `publishers` are the ids a starter or a reconciler has read or committed but not yet enqueued.
    * `layouts` records which execution id was drawn for each definition id; no step reads it. */
  datatype System = System(
    definitions: Definitions,
    layouts: Layouts,
    store: Store,
    queue: Q.Queue,
    workers: map<Uuid, Worker>,
    publishers: map<Uuid, seq<Uuid>>)

  datatype Step =
    | Wait(now: Time)
    | Define(id: Uuid, definition: WorkflowDefinition)
    | Start(publisher: Uuid, definitionId: Uuid, workflow: Uuid, ids: map<Uuid, Uuid>, executions: seq<TaskExecution>)
    | ReadRunnable(publisher: Uuid, snapshot: seq<Uuid>)
    | Publish(publisher: Uuid)
    | Abandon(publisher: Uuid)
    | ClaimTask(worker: Uuid, id: Uuid, token: Uuid)
    | Begin(worker: Uuid, started: StartResult)
    | Execute(worker: Uuid, result: TaskResult)
    | Commit(worker: Uuid)
    | Dispose(worker: Uuid)
    | Renew(worker: Uuid)
    | LoseTrust(worker: Uuid)
    | Crash(worker: Uuid)

  ghost function Initial(now: Time): System {
    System(map[], map[], Store(map[], map[]), Q.Queue(map[], {}, now), map[], map[])
  }

  ghost predicate Busy(s: System, worker: Uuid) {
    worker in s.workers
  }

  ghost predicate Enabled(lease: Time, s: System, step: Step) {
    match step
    case Wait(now) => now >= s.queue.clock
    case Define(id, definition) => id !in s.definitions && WellFormed(definition.taskDefinitions)
    case Start(publisher, definitionId, workflow, ids, executions) =>
      && publisher !in s.publishers
      && definitionId in s.definitions
      && s.definitions[definitionId].enabled
      && Assigns(ids, s.definitions[definitionId].taskDefinitions)
      && CompiledFrom(s.definitions[definitionId].taskDefinitions, ids, workflow, executions)
      && workflow !in s.store.workflows
      && s.store.tasks.Keys !! Rows(executions).Keys
    case ReadRunnable(publisher, snapshot) =>
      publisher !in s.publishers && ListsRunnable(s.store.tasks, snapshot)
    case Publish(publisher) => publisher in s.publishers
    case Abandon(publisher) => publisher in s.publishers
    case ClaimTask(worker, id, token) =>
      !Busy(s, worker) && Q.Enabled(lease, s.queue, Q.ClaimNext(worker, id, token))
    case Begin(worker, result) =>
      && Busy(s, worker) && s.workers[worker].phase.Claimed?
      && Starts(s.store, s.workers[worker].claim.taskExecutionId, s.queue.clock, result)
    case Execute(worker, result) => Busy(s, worker) && s.workers[worker].phase.Executing?
    case Commit(worker) => Busy(s, worker) && s.workers[worker].phase.Executed?
    case Dispose(worker) => Busy(s, worker) && s.workers[worker].phase.Committed?
    case Renew(worker) => Busy(s, worker) && s.workers[worker].trusted
    case LoseTrust(worker) => Busy(s, worker)
    case Crash(worker) => Busy(s, worker)
  }

  /** What `process` stores and returns once the plugin has answered. */
  ghost function CommitResult(st: Store, id: Uuid, result: TaskResult, now: Time): (Store, ProcessTaskResult) {
    if result.succeeded then
      var (after, completion) := CompleteTask(st, id, result.output, now);
      (after, ProcessTaskResult(completion.runnableTaskIds, false))
    else
      var (after, retry) := RetryTask(st, id, result.message, now);
      (after, ProcessTaskResult([], retry.shouldRetry))
  }

  /** What the worker does to the queue with a processed claim. */
  ghost function Disposal(worker: Worker): seq<Q.QueueStep>
    requires worker.phase.Committed?
  {
    if !worker.trusted then []
    else if worker.phase.outcome.shouldRetry then [Q.ReleaseClaim(worker.claim)]
    else [Q.FinishClaim(worker.claim, worker.phase.outcome.enqueueTaskIds)]
  }

  /** The queue session a step consists of, if any. */
  ghost function QueueSteps(s: System, step: Step): seq<Q.QueueStep> {
    match step
    case Wait(now) => [Q.Tick(now)]
    case Publish(publisher) => if publisher in s.publishers then [Q.Enqueue(s.publishers[publisher])] else []
    case ClaimTask(worker, id, token) => [Q.ClaimNext(worker, id, token)]
    case Dispose(worker) =>
      if Busy(s, worker) && s.workers[worker].phase.Committed? then Disposal(s.workers[worker]) else []
    case Renew(worker) => if Busy(s, worker) then [Q.Heartbeat(s.workers[worker].claim)] else []
    case _ => []
  }

  ghost function StoreAfter(s: System, step: Step): Store {
    match step
    case Start(publisher, definitionId, workflow, ids, executions) =>
      CreateExecution(s.store, workflow, definitionId, executions)
    case Begin(worker, result) =>
      if Busy(s, worker) && result.Processable?
      then StartTask(s.store, s.workers[worker].claim.taskExecutionId, s.queue.clock)
      else s.store
    case Commit(worker) =>
      if Busy(s, worker) && s.workers[worker].phase.Executed?
      then CommitResult(s.store, s.workers[worker].claim.taskExecutionId, s.workers[worker].phase.result, s.queue.clock).0
      else s.store
    case _ => s.store
  }

  /** The worker after a step of its own, or None when it has let go of its claim. */
  ghost function WorkerAfter(s: System, step: Step, worker: Worker): Option<Worker> {
    match step
    case Begin(_, result) =>
      (match result
       case Processable(pluginType, configuration, inputs) =>
         Some(worker.(phase := Executing(pluginType, TaskContext(configuration, inputs))))
       case NotProcessable => Some(worker.(phase := Committed(ProcessTaskResult([], false))))
       case MissingParentOutput => None)
    case Execute(_, result) =>
      if worker.phase.Executing?
      then Some(worker.(phase := Executed(worker.phase.pluginType, worker.phase.context, result)))
      else Some(worker)
    case Commit(_) =>
      if worker.phase.Executed?
      then Some(worker.(phase := Committed(
        CommitResult(s.store, worker.claim.taskExecutionId, worker.phase.result, s.queue.clock).1)))
      else Some(worker)
    case Renew(_) => Some(worker.(trusted := Q.Holds(s.queue.entries, worker.claim)))
    case LoseTrust(_) => Some(worker.(trusted := false))
    case Dispose(_) => None
    case Crash(_) => None
    case _ => Some(worker)
  }

  ghost predicate IsWorkerStep(step: Step) {
    step.Begin? || step.Execute? || step.Commit? || step.Dispose? || step.Renew? || step.LoseTrust? || step.Crash?
  }

  ghost function WorkersAfter(s: System, step: Step): map<Uuid, Worker> {
    if step.ClaimTask? then
      s.workers[step.worker := Worker(Claim(step.id, step.token), true, Claimed)]
    else if IsWorkerStep(step) && Busy(s, step.worker) then
      var after := WorkerAfter(s, step, s.workers[step.worker]);
      if after.Some? then s.workers[step.worker := after.value] else s.workers - {step.worker}
    else
      s.workers
  }

  ghost function PublishersAfter(s: System, step: Step): map<Uuid, seq<Uuid>> {
    match step
    case Start(publisher, definitionId, workflow, ids, executions) => s.publishers[publisher := Roots(executions)]
    case ReadRunnable(publisher, snapshot) => s.publishers[publisher := snapshot]
    case Publish(publisher) => s.publishers - {publisher}
    case Abandon(publisher) => s.publishers - {publisher}
    case _ => s.publishers
  }

  ghost function Apply(s: System, step: Step): System {
    System(
      if step.Define? then s.definitions[step.id := step.definition] else s.definitions,
      if step.Start? then s.layouts[step.workflow := step.ids] else s.layouts,
      StoreAfter(s, step),
      Q.After(s.queue, QueueSteps(s, step)),
      WorkersAfter(s, step),
      PublishersAfter(s, step))
  }

  ghost predicate Run(lease: Time, s: System, steps: seq<Step>)
    decreases steps
  {
    steps == [] || (Enabled(lease, s, steps[0]) && Run(lease, Apply(s, steps[0]), steps[1..]))
  }

  ghost function After(s: System, steps: seq<Step>): System
    decreases steps
  {
    if steps == [] then s else After(Apply(s, steps[0]), steps[1..])
  }

  ghost predicate Reachable(lease: Time, s: System) {
    exists now, steps :: Run(lease, Initial(now), steps) && s == After(Initial(now), steps)
  }
}
