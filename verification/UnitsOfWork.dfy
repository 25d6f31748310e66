/** The database and the transactions on it: a unit of work sees its own changes, and nobody else does before `Commit`. */
module UnitsOfWork {
  import opened Domain
  import opened ExecutionStore
  import opened ExecutionRepository
  import opened TriggerRepository

  class Database {
    var definitions: map<Uuid, WorkflowDefinition>
    var store: Store
    var triggers: TriggerTable
    var schedule: Schedule

    constructor ()
      ensures definitions == map[] && store == Store(map[], map[]) && triggers == map[] && schedule == map[]
    {
      definitions, store, triggers, schedule := map[], Store(map[], map[]), map[], map[];
    }
  }

  /** Leaving a unit of work without committing it is dropping the object. */
  class UnitOfWork {
    const database: Database
    const workflowExecutions: WorkflowExecutionRepository
    const chronologicalTriggers: ChronologicalTriggerRepository

    constructor (database: Database)
      ensures this.database == database
      ensures fresh(workflowExecutions) && fresh(chronologicalTriggers)
      ensures workflowExecutions.Tables() == database.store
      ensures chronologicalTriggers.triggers == database.triggers && chronologicalTriggers.states == database.schedule
    {
      var executions := new WorkflowExecutionRepository(database.store);
      var triggers := new ChronologicalTriggerRepository(database.triggers, database.schedule);
      this.database, workflowExecutions, chronologicalTriggers := database, executions, triggers;
    }

    method Commit()
      modifies database`store, database`schedule
      ensures database.store == workflowExecutions.Tables()
      ensures database.schedule == chronologicalTriggers.states
    {
      database.store := Store(workflowExecutions.tasks, workflowExecutions.workflows);
      database.schedule := chronologicalTriggers.states;
    }

    /** The commit of a unit of work in which a new definition and its triggers were saved. */
    method CommitSaved(id: Uuid, definition: WorkflowDefinition, triggers: TriggerTable)
      modifies database
      ensures database.definitions == old(database.definitions)[id := definition]
      ensures database.triggers == old(database.triggers) + triggers
      ensures database.store == workflowExecutions.Tables()
      ensures database.schedule == chronologicalTriggers.states
    {
      database.definitions := database.definitions[id := definition];
      database.triggers := database.triggers + triggers;
      Commit();
    }
  }
}
