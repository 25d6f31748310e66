/** Processing one task: a transaction before the plugin runs, and another one after it. */
module TaskProcessing {
  import opened Domain
  import opened ExecutionStore
  import opened UnitsOfWork
  import opened Protocol

  /** The registered task plugins; None stands for an unknown type or an error raised by the plugin. */
  type Executor = (string, TaskContext) -> Option<TaskResult>

  datatype ProcessError = ParentOutputMissing | PluginRaised

  function ContextOf(started: StartResult): TaskContext
    requires started.Processable?
  {
    TaskContext(started.configuration, started.parentOutputs)
  }

  /** The tables and the answer of processing a task that was found as `started` says. */
  ghost predicate ProcessedAs(
    executor: Executor, before: Store, id: Uuid, started: StartResult, startedAt: Time, completedAt: Time,
    after: Store, r: Result<ProcessTaskResult, ProcessError>)
  {
    match started
    case NotProcessable => after == before && r == Success(ProcessTaskResult([], false))
    case MissingParentOutput => after == before && r == Failure(ParentOutputMissing)
    case Processable(pluginType, configuration, inputs) =>
      var begun := ExecutionStore.StartTask(before, id, startedAt);
      match executor(pluginType, TaskContext(configuration, inputs))
      case None => after == begun && r == Failure(PluginRaised)
      case Some(result) =>
        var (committed, outcome) := CommitResult(begun, id, result, completedAt);
        after == committed && r == Success(outcome)
  }

  class TaskProcessingService {
    const database: Database
    const executor: Executor

    constructor (database: Database, executor: Executor)
      ensures this.database == database && this.executor == executor
    {
      this.database, this.executor := database, executor;
    }

    /** Only a task that can be processed is committed as running. */
    method StartTask(id: Uuid, startedAt: Time) returns (started: StartResult)
      modifies database`store, database`schedule
      ensures database.schedule == old(database.schedule)
      ensures Starts(old(database.store), id, startedAt, started)
      ensures database.store
           == if started.Processable? then ExecutionStore.StartTask(old(database.store), id, startedAt)
              else old(database.store)
    {
      var uow := new UnitOfWork(database);
      started := uow.workflowExecutions.StartTask(id, startedAt);
      if started.Processable? {
        uow.Commit();
      }
    }

    method CompleteTask(id: Uuid, output: TaskOutput, completedAt: Time) returns (outcome: ProcessTaskResult)
      modifies database`store, database`schedule
      ensures database.schedule == old(database.schedule)
      ensures database.store == ExecutionStore.CompleteTask(old(database.store), id, output, completedAt).0
      ensures outcome == ProcessTaskResult(
                ExecutionStore.CompleteTask(old(database.store), id, output, completedAt).1.runnableTaskIds, false)
    {
      var uow := new UnitOfWork(database);
      var result := uow.workflowExecutions.CompleteTask(id, output, completedAt);
      uow.Commit();
      outcome := ProcessTaskResult(result.runnableTaskIds, false);
    }

    method RetryTask(id: Uuid, message: Option<string>, completedAt: Time) returns (outcome: ProcessTaskResult)
      modifies database`store, database`schedule
      ensures database.schedule == old(database.schedule)
      ensures database.store == ExecutionStore.RetryTask(old(database.store), id, message, completedAt).0
      ensures outcome == ProcessTaskResult(
                [], ExecutionStore.RetryTask(old(database.store), id, message, completedAt).1.shouldRetry)
    {
      var uow := new UnitOfWork(database);
      var result := uow.workflowExecutions.RetryTask(id, message, completedAt);
      uow.Commit();
      outcome := ProcessTaskResult([], result.shouldRetry);
    }

    method Process(id: Uuid, startedAt: Time, completedAt: Time)
      returns (r: Result<ProcessTaskResult, ProcessError>, ghost started: StartResult)
      modifies database`store, database`schedule
      ensures database.schedule == old(database.schedule)
      ensures Starts(old(database.store), id, startedAt, started)
      ensures ProcessedAs(executor, old(database.store), id, started, startedAt, completedAt, database.store, r)
    {
      var task := StartTask(id, startedAt);
      started := task;
      if task.NotProcessable? {
        return Success(ProcessTaskResult([], false)), started;
      }
      if task.MissingParentOutput? {
        return Failure(ParentOutputMissing), started;
      }
      hide ExecutionStore.StartTask, ExecutionStore.CompleteTask, ExecutionStore.RetryTask, Starts;
      var answer := executor(task.pluginType, ContextOf(task));
      if answer.None? {
        return Failure(PluginRaised), started;
      }
      var outcome;
      if answer.value.succeeded {
        outcome := CompleteTask(id, answer.value.output, completedAt);
      } else {
        outcome := RetryTask(id, answer.value.message, completedAt);
      }
      return Success(outcome), started;
    }
  }
}
