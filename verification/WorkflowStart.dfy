/** Starting a workflow: one transaction creates the execution, then its roots are handed to the queue. */
module WorkflowStart {
  import opened Domain
  import opened DefinitionGraph
  import opened StartService
  import opened ExecutionStore
  import opened Creation
  import opened ExecutionQueue
  import opened UnitsOfWork
  import opened Protocol
  import opened ProtocolInvariant
  import Q = QueueModel

  datatype StartError = NotFound | Disabled | QueueUnavailable

  /** The tables a system state and the running services share. `queue.issued` only lists tokens that were handed out. */
  ghost predicate Shows(s: System, database: Database, queue: PostgresExecutionQueue, uuids: UuidSource, now: Time)
    reads database, queue, uuids
  {
    && s.definitions == database.definitions
    && s.store == database.store
    && s.queue.entries == queue.entries
    && s.queue.issued <= uuids.issued
    && s.queue.clock == now
  }

  /** Every stored id was drawn from the common source. */
  ghost predicate AllIssued(st: Store, issued: set<Uuid>) {
    st.tasks.Keys <= issued && st.workflows.Keys <= issued
  }

  ghost predicate AllWellFormed(definitions: Definitions) {
    forall d | d in definitions :: WellFormed(definitions[d].taskDefinitions)
  }

  ghost predicate Startable(definitions: Definitions, id: Uuid) {
    id in definitions && definitions[id].enabled
  }

  lemma FreshRows(tasks: seq<TaskDefinition>, ids: map<Uuid, Uuid>, workflow: Uuid,
                  executions: seq<TaskExecution>, before: set<Uuid>, after: set<Uuid>)
    requires UniqueIds(tasks) && Assigns(ids, tasks) && CompiledFrom(tasks, ids, workflow, executions)
    requires forall id | id in ids :: ids[id] !in before && ids[id] in after
    ensures Rows(executions).Keys !! before && Rows(executions).Keys <= after
  {
    CompiledRows(tasks, ids, workflow, executions);
    forall id | id in Rows(executions)
      ensures id !in before && id in after
    {
      var i :| 0 <= i < |tasks| && ExecutionId(ids, tasks[i].id) == id;
    }
  }

  class WorkflowStartService {
    const database: Database
    const queue: PostgresExecutionQueue
    const uuids: UuidSource

    constructor (database: Database, queue: PostgresExecutionQueue, uuids: UuidSource)
      ensures this.database == database && this.queue == queue && this.uuids == uuids
    {
      this.database, this.queue, this.uuids := database, queue, uuids;
    }

    ghost predicate Valid()
      reads database, uuids
    {
      uuids.Valid() && AllIssued(database.store, uuids.issued) && AllWellFormed(database.definitions)
    }

    /** The new execution, committed with whatever else the unit of work holds. */
    method CreateAndCommit(
      definitionId: Uuid, uow: UnitOfWork, now: Time, ghost lease: Time, ghost s: System, ghost publisher: Uuid)
      returns (workflow: Uuid, roots: seq<Uuid>, ghost start: Step)
      requires Valid() && uow.database == database && uow.workflowExecutions.Tables() == database.store
      requires Shows(s, database, queue, uuids, now) && publisher !in s.publishers
      requires Startable(database.definitions, definitionId)
      modifies uow.workflowExecutions, database`store, database`schedule, uuids
      ensures Valid() && old(uuids.issued) <= uuids.issued
      ensures start.Start? && start.definitionId == definitionId && start.publisher == publisher
      ensures start.workflow == workflow && roots == Roots(start.executions) && Enabled(lease, s, start)
      ensures database.schedule == uow.chronologicalTriggers.states
      ensures database.store == CreateExecution(s.store, workflow, definitionId, start.executions)
    {
      var tasks := database.definitions[definitionId].taskDefinitions;
      WellFormedStarts(tasks);
      hide WellFormed, AllWellFormed, KnownDependencies, Assigns, CompiledFrom, Enabled, AllIssued, Rows, CreateExecution, Roots;
      ghost var issued := uuids.issued;
      var executions, ids;
      workflow, executions, roots, ids := CreateWorkflowExecution(tasks, uuids);
      start := Step.Start(publisher, definitionId, workflow, ids, executions);
      StartIsFresh(lease, s, start, issued, uuids.issued);
      uow.workflowExecutions.Create(workflow, definitionId, executions);
      uow.Commit();
    }

    /** `queueUp` says whether the queue accepts the roots; if it does not, the committed execution stays.
      * Seen from a system state that shows the same tables, a start that reaches its commit is the step `start`. */
    method StartAndCommit(
      definitionId: Uuid, uow: UnitOfWork, queueUp: bool, now: Time,
      ghost lease: Time, ghost s: System, ghost publisher: Uuid)
      returns (r: Result<Uuid, StartError>, ghost start: Step)
      requires Valid() && uow.database == database && uow.workflowExecutions.Tables() == database.store
      requires Shows(s, database, queue, uuids, now) && publisher !in s.publishers
      modifies uow.workflowExecutions, database`store, database`schedule, queue`entries, uuids
      ensures Valid() && old(uuids.issued) <= uuids.issued
      ensures r == Failure(NotFound) <==> definitionId !in database.definitions
      ensures r == Failure(Disabled) <==> definitionId in database.definitions && !database.definitions[definitionId].enabled
      ensures !Startable(database.definitions, definitionId) ==>
                database.store == old(database.store) && database.schedule == old(database.schedule)
                && queue.entries == old(queue.entries)
      ensures Startable(database.definitions, definitionId) ==>
                && start.Start? && start.definitionId == definitionId && start.publisher == publisher
                && Enabled(lease, s, start)
                && r == (if queueUp then Success(start.workflow) else Failure(QueueUnavailable))
                && database.schedule == uow.chronologicalTriggers.states
                && Shows(After(s, [start, if queueUp then Publish(publisher) else Abandon(publisher)]),
                         database, queue, uuids, now)
    {
      start := Abandon(publisher);
      if definitionId !in database.definitions {
        return Failure(NotFound), start;
      }
      var definition := database.definitions[definitionId];
      if !definition.enabled {
        return Failure(Disabled), start;
      }
      hide AllWellFormed, After, Enabled, AllIssued;
      var workflow, roots;
      workflow, roots, start := CreateAndCommit(definitionId, uow, now, lease, s, publisher);
      if queueUp {
        queue.Enqueue(roots, now);
        r := Success(workflow);
      } else {
        r := Failure(QueueUnavailable);
      }
      StartThenPublish(s, start, queueUp);
    }

    /** Starting on request: a unit of work of its own. */
    method Start(definitionId: Uuid, queueUp: bool, now: Time, ghost lease: Time, ghost s: System, ghost publisher: Uuid)
      returns (r: Result<Uuid, StartError>, ghost start: Step)
      requires Valid() && Shows(s, database, queue, uuids, now) && publisher !in s.publishers
      modifies database`store, database`schedule, queue`entries, uuids
      ensures Valid()
      ensures r == Failure(NotFound) <==> definitionId !in database.definitions
      ensures r == Failure(Disabled) <==> definitionId in database.definitions && !database.definitions[definitionId].enabled
      ensures database.schedule == old(database.schedule)
      ensures !Startable(database.definitions, definitionId) ==>
                database.store == old(database.store) && queue.entries == old(queue.entries)
      ensures Startable(database.definitions, definitionId) ==>
                && start.Start? && start.definitionId == definitionId && Enabled(lease, s, start)
                && r == (if queueUp then Success(start.workflow) else Failure(QueueUnavailable))
                && Shows(After(s, [start, if queueUp then Publish(publisher) else Abandon(publisher)]),
                         database, queue, uuids, now)
    {
      var uow := new UnitOfWork(database);
      r, start := StartAndCommit(definitionId, uow, queueUp, now, lease, s, publisher);
    }
  }

  /** A start that uses identifiers drawn for it can be taken, and leaves every stored id issued. */
  lemma StartIsFresh(lease: Time, s: System, start: Step, before: set<Uuid>, after: set<Uuid>)
    requires start.Start? && start.publisher !in s.publishers
    requires AllIssued(s.store, before) && before <= after && AllWellFormed(s.definitions)
    requires Startable(s.definitions, start.definitionId)
    requires var tasks := s.definitions[start.definitionId].taskDefinitions;
             Assigns(start.ids, tasks) && CompiledFrom(tasks, start.ids, start.workflow, start.executions)
    requires start.workflow !in before && start.workflow in after
    requires forall id | id in start.ids :: start.ids[id] !in before && start.ids[id] in after
    ensures Enabled(lease, s, start)
    ensures AllIssued(CreateExecution(s.store, start.workflow, start.definitionId, start.executions), after)
  {
    var tasks := s.definitions[start.definitionId].taskDefinitions;
    WellFormedStarts(tasks);
    hide WellFormed, Assigns, CompiledFrom, Rows;
    FreshRows(tasks, start.ids, start.workflow, start.executions, before, after);
  }

  lemma WellFormedStarts(tasks: seq<TaskDefinition>)
    requires WellFormed(tasks)
    ensures UniqueIds(tasks) && KnownDependencies(tasks)
  {
    forall task, dependency | task in tasks && dependency in task.dependencies
      ensures dependency in Ids(tasks)
    {
      assert WellFormedTask(Ids(tasks), task);
    }
  }

  /** The two steps of a start, taken together. */
  lemma StartThenPublish(s: System, start: Step, queueUp: bool)
    requires start.Start?
    ensures var last := if queueUp then Publish(start.publisher) else Abandon(start.publisher);
            var after := After(s, [start, last]);
            && after.definitions == s.definitions
            && after.store == CreateExecution(s.store, start.workflow, start.definitionId, start.executions)
            && after.queue == s.queue.(entries :=
                 if queueUp then Q.Inserted(s.queue.entries, Roots(start.executions), s.queue.clock) else s.queue.entries)
            && after.publishers == s.publishers[start.publisher := Roots(start.executions)] - {start.publisher}
            && after.workers == s.workers
  {
    var last := if queueUp then Publish(start.publisher) else Abandon(start.publisher);
    var next := Apply(s, start);
    assert [start, last][1..] == [last] && [last][1..] == [];
    assert After(s, [start, last]) == After(next, [last]);
    assert After(next, [last]) == After(Apply(next, last), []);
    OneSession(s, start);
    OneSession(next, last);
  }
}
