/** Creating a workflow definition: checks first, then one transaction with the definition and its schedules. */
module DefinitionManagement {
  import opened Domain
  import opened DefinitionGraph
  import opened StartService
  import opened Triggers
  import opened TriggerRepository
  import opened UnitsOfWork
  import opened WorkflowStart
  import opened Scheduling
  import opened ChronologicalTriggers
  import Requests = DefinitionService
  import Protocol
  import ProtocolInvariant

  datatype CreateTriggerDefinition = CreateTriggerDefinition(
    pluginType: string,
    configuration: Configuration,
    enabled: bool)

  datatype CreateWorkflowDefinition = CreateWorkflowDefinition(
    tasks: seq<CreateTaskDefinition>,
    triggers: seq<CreateTriggerDefinition>,
    enabled: bool)

  datatype CreateError =
    | InvalidTasks(error: Requests.DefinitionError)
    | UnknownTrigger(pluginType: string)
    | InvalidTrigger(pluginType: string)
    | InitializationRaised

  /** The registered trigger plugins, each with its configuration check. */
  type TriggerRegistry = map<string, Configuration -> bool>

  predicate ValidTrigger(registry: TriggerRegistry, trigger: CreateTriggerDefinition) {
    trigger.pluginType in registry && registry[trigger.pluginType](trigger.configuration)
  }

  ghost predicate ValidTriggers(registry: TriggerRegistry, triggers: seq<CreateTriggerDefinition>) {
    forall trigger | trigger in triggers :: ValidTrigger(registry, trigger)
  }

  /** No plugin fails to name the first occurrence. */
  ghost predicate Initializes(calendar: Calendar, triggers: seq<CreateTriggerDefinition>, now: Time) {
    forall trigger | trigger in triggers :: !calendar(trigger.pluginType, trigger.configuration, now).Raises?
  }

  /** The definition of the `i`th requested trigger, under an id of its own. */
  ghost predicate Defines(
    workflow: Uuid, requests: seq<CreateTriggerDefinition>, definitions: seq<TriggerDefinition>)
  {
    && |definitions| == |requests|
    && (forall i, j | 0 <= i < j < |definitions| :: definitions[i].id != definitions[j].id)
    && forall i | 0 <= i < |requests| ::
         definitions[i] == TriggerDefinition(
           definitions[i].id, workflow, requests[i].pluginType, requests[i].configuration, requests[i].enabled)
  }

  ghost function TableOf(definitions: seq<TriggerDefinition>): TriggerTable {
    if definitions == [] then map[]
    else
      var last := definitions[|definitions| - 1];
      TableOf(definitions[..|definitions| - 1])[last.id := last]
  }

  lemma {:induction false} TableHolds(definitions: seq<TriggerDefinition>)
    ensures forall id :: id in TableOf(definitions) <==> exists i | 0 <= i < |definitions| :: definitions[i].id == id
    ensures forall id | id in TableOf(definitions) ::
              TableOf(definitions)[id] in definitions && TableOf(definitions)[id].id == id
  {
    if definitions != [] {
      var front := definitions[..|definitions| - 1];
      TableHolds(front);
      assert forall i | 0 <= i < |front| :: front[i] == definitions[i];
      assert definitions == front + [definitions[|definitions| - 1]];
    }
  }

  /** Adding one more trigger to a schedule that already holds the first runs of `table`. */
  lemma FirstRunsOfNext(
    calendar: Calendar, schedule: Schedule, table: TriggerTable, trigger: TriggerDefinition, now: Time)
    requires trigger.id !in table
    ensures schedule + FirstRuns(calendar, table[trigger.id := trigger], now)
         == if NextRun(calendar, trigger, now).At?
            then (schedule + FirstRuns(calendar, table, now))[trigger.id := NextRun(calendar, trigger, now).at]
            else schedule + FirstRuns(calendar, table, now)
  {
  }

  lemma NothingFirst(calendar: Calendar, now: Time)
    ensures FirstRuns(calendar, map[], now) == map[]
  {
  }

  class WorkflowDefinitionService {
    const taskRegistry: Requests.TaskRegistry
    const triggerRegistry: TriggerRegistry
    const chronological: ChronologicalTriggerService

    constructor (
      taskRegistry: Requests.TaskRegistry, triggerRegistry: TriggerRegistry, chronological: ChronologicalTriggerService)
      ensures this.taskRegistry == taskRegistry && this.triggerRegistry == triggerRegistry
      ensures this.chronological == chronological
    {
      this.taskRegistry, this.triggerRegistry, this.chronological := taskRegistry, triggerRegistry, chronological;
    }

    ghost predicate Valid()
      reads chronological.starts.database, chronological.starts.uuids
    {
      var database, uuids := chronological.starts.database, chronological.starts.uuids;
      && chronological.starts.Valid()
      && database.definitions.Keys <= uuids.issued && database.triggers.Keys <= uuids.issued
    }

    method CreateTriggerDefinitions(workflow: Uuid, requests: seq<CreateTriggerDefinition>)
      returns (r: Result<seq<TriggerDefinition>, CreateError>)
      requires chronological.starts.uuids.Valid()
      modifies chronological.starts.uuids
      ensures chronological.starts.uuids.Valid()
      ensures old(chronological.starts.uuids.issued) <= chronological.starts.uuids.issued
      ensures r.Success? <==> ValidTriggers(triggerRegistry, requests)
      ensures r.Failure? ==> RefusesTriggers(triggerRegistry, requests, r.error)
      ensures r.Success? ==> Defines(workflow, requests, r.value)
      ensures r.Success? ==> forall trigger | trigger in r.value ::
                trigger.id !in old(chronological.starts.uuids.issued) && trigger.id in chronological.starts.uuids.issued
    {
      var uuids, definitions := chronological.starts.uuids, [];
      for i := 0 to |requests|
        invariant uuids.Valid() && old(uuids.issued) <= uuids.issued
        invariant forall j | 0 <= j < i :: ValidTrigger(triggerRegistry, requests[j])
        invariant Defines(workflow, requests[..i], definitions)
        invariant forall trigger | trigger in definitions :: trigger.id !in old(uuids.issued) && trigger.id in uuids.issued
      {
        var request := requests[i];
        assert request in requests;
        if request.pluginType !in triggerRegistry {
          return Failure(UnknownTrigger(request.pluginType));
        }
        if !triggerRegistry[request.pluginType](request.configuration) {
          return Failure(InvalidTrigger(request.pluginType));
        }
        var id := uuids.Uuid4();
        definitions := definitions + [
          TriggerDefinition(id, workflow, request.pluginType, request.configuration, request.enabled)];
      }
      assert requests[..|requests|] == requests;
      return Success(definitions);
    }

    /** The schedule rows of the new triggers, written through the caller's unit of work. */
    method InitializeTriggers(definitions: seq<TriggerDefinition>, uow: UnitOfWork, now: Time)
      returns (ok: bool, table: TriggerTable)
      requires forall i, j | 0 <= i < j < |definitions| :: definitions[i].id != definitions[j].id
      modifies uow.chronologicalTriggers
      ensures ok <==> forall trigger | trigger in definitions :: !NextRun(chronological.calendar, trigger, now).Raises?
      ensures ok ==> table == TableOf(definitions)
      ensures ok ==>
                uow.chronologicalTriggers.states
                == old(uow.chronologicalTriggers.states) + FirstRuns(chronological.calendar, table, now)
    {
      table, ok := map[], true;
      NothingFirst(chronological.calendar, now);
      hide FirstRuns, NextRun;
      for i := 0 to |definitions|
        invariant table == TableOf(definitions[..i])
        invariant forall j | 0 <= j < i :: !NextRun(chronological.calendar, definitions[j], now).Raises?
        invariant uow.chronologicalTriggers.states
               == old(uow.chronologicalTriggers.states) + FirstRuns(chronological.calendar, table, now)
      {
        var trigger := definitions[i];
        TableHolds(definitions[..i]);
        assert definitions[..i + 1][..i] == definitions[..i];
        assert trigger.id !in table;
        FirstRunsOfNext(chronological.calendar, old(uow.chronologicalTriggers.states), table, trigger, now);
        ok := chronological.Initialize(trigger, uow, now);
        if !ok {
          return;
        }
        table := table[trigger.id := trigger];
      }
      assert definitions[..|definitions|] == definitions;
    }

    /** The transaction of an accepted request; False stands for an error raised by a trigger plugin. */
    method Persist(
      workflow: Uuid, definition: WorkflowDefinition, ghost requests: seq<CreateTriggerDefinition>,
      triggers: seq<TriggerDefinition>, now: Time, ghost lease: Time, ghost p: Platform)
      returns (ok: bool, ghost step: PlatformStep)
      requires Valid() && ShowsPlatform(p, chronological.starts, now)
      requires Installable(p, chronological.starts.uuids.issued, workflow, definition, requests, triggers)
      modifies chronological.starts.database
      ensures Valid()
      ensures ok <==> Initializes(chronological.calendar, requests, now)
      ensures !ok ==> ShowsPlatform(p, chronological.starts, now)
      ensures ok ==>
                && step.Install? && step.definition == Protocol.Define(workflow, definition)
                && step.triggers == TableOf(triggers)
                && Allows(chronological.calendar, lease, p, step)
                && ShowsPlatform(Take(chronological.calendar, p, step), chronological.starts, now)
    {
      hide Installable, AllWellFormed, Initializes, TableOf, FirstRuns, AllIssued, Take, Allows, NextRun;
      SameOccurrences(chronological.calendar, p, chronological.starts.uuids.issued, workflow, definition, requests, triggers, now);
      var uow := new UnitOfWork(chronological.starts.database);
      var table;
      ok, table := InitializeTriggers(triggers, uow, now);
      step := Install(Protocol.Define(workflow, definition), table);
      if ok {
        uow.CommitSaved(workflow, definition, table);
        Installs(chronological.calendar, lease, p, chronological.starts.uuids.issued, step, requests, triggers, now);
      }
    }

    /** Every accepted request is one `Install` step of the platform, of the very tasks and triggers requested;
      * every refused one changes nothing. */
    method Create(request: CreateWorkflowDefinition, now: Time, ghost lease: Time, ghost p: Platform)
      returns (r: Result<Uuid, CreateError>, ghost step: PlatformStep,
               ghost ids: map<string, Uuid>, ghost triggers: seq<TriggerDefinition>)
      requires Valid() && ShowsPlatform(p, chronological.starts, now)
      modifies chronological.starts.database, chronological.starts.uuids
      ensures Valid()
      ensures r.Success? <==>
                && Requests.ValidRequest(taskRegistry, request.tasks)
                && ValidTriggers(triggerRegistry, request.triggers)
                && Initializes(chronological.calendar, request.triggers, now)
      ensures r.Failure? ==> ShowsPlatform(p, chronological.starts, now)
      ensures r.Failure? ==> Explains(taskRegistry, triggerRegistry, chronological.calendar, request, now, r.error)
      ensures r.Success? ==>
                && step.Install? && step.definition.Define? && step.definition.id == r.value
                && MeetsRequest(request, ids, triggers, r.value, step.definition.definition, step.triggers)
                && Allows(chronological.calendar, lease, p, step)
                && ShowsPlatform(Take(chronological.calendar, p, step), chronological.starts, now)
    {
      var uuids := chronological.starts.uuids;
      step, ids, triggers := Internal(Protocol.Wait(now)), map[], [];
      var checked := Requests.ValidateTasks(taskRegistry, request.tasks);
      if checked.Failure? {
        return Failure(InvalidTasks(checked.error)), step, ids, triggers;
      }
      ValidResolves(taskRegistry, request.tasks);
      var tasks, resolved := Requests.CreateTaskDefinitions(request.tasks, uuids);
      ids := resolved;
      AcceptedIsWellFormed(taskRegistry, request.tasks, ids, tasks);
      hide Requests.ValidRequest, WellFormed, ValidTriggers, Initializes, Defines, AllWellFormed, Take, Allows, NextRun, AllResolve,
           TableOf, Requests.Accurate;
      var workflow := uuids.Uuid4();
      var created := CreateTriggerDefinitions(workflow, request.triggers);
      if created.Failure? {
        return Failure(created.error), step, ids, triggers;
      }
      triggers := created.value;
      var ok;
      ok, step := Persist(workflow, WorkflowDefinition(tasks, request.enabled), request.triggers, created.value, now, lease, p);
      r := if ok then Success(workflow) else Failure(InitializationRaised);
    }
  }

  /** The stored definition is the requested one: its tasks resolve the requested tasks one by one, it is enabled as
    * requested, and its triggers are the requested ones. */
  ghost predicate MeetsRequest(
    request: CreateWorkflowDefinition, ids: map<string, Uuid>, triggers: seq<TriggerDefinition>,
    workflow: Uuid, definition: WorkflowDefinition, table: TriggerTable)
  {
    && AllResolve(ids, request.tasks, definition.taskDefinitions)
    && definition.enabled == request.enabled
    && Defines(workflow, request.triggers, triggers)
    && table == TableOf(triggers)
  }

  /** From the request over the stored definition to the executions: row `i` is the requested task `i`, and it waits for
    * row `j` exactly when the request says so. */
  lemma RequestedIsExecuted(
    registry: Requests.TaskRegistry, requests: seq<CreateTaskDefinition>, ids: map<string, Uuid>,
    tasks: seq<TaskDefinition>, layout: map<Uuid, Uuid>, workflow: Uuid, executions: seq<TaskExecution>, i: nat, j: nat)
    requires Requests.ValidRequest(registry, requests) && AllResolve(ids, requests, tasks)
    requires Assigns(layout, tasks) && CompiledFrom(tasks, layout, workflow, executions)
    requires i < |requests| && j < |requests|
    ensures |executions| == |requests|
    ensures executions[j].id in executions[i].parentTaskIds <==> requests[j].key in requests[i].dependencies
    ensures executions[i].key == requests[i].key && executions[i].pluginType == requests[i].pluginType
    ensures executions[i].configuration == requests[i].configuration
    ensures executions[i].remainingTries == requests[i].maxTries
    ensures executions[i].remainingDependencies == |requests[i].dependencies|
    ensures executions[i].workflowExecutionId == workflow && executions[i].status == PENDING
  {
    AcceptedIsWellFormed(registry, requests, ids, tasks);
    assert Requests.UniqueKeys(requests);
    assert Requests.Resolves(ids, requests[i], tasks[i]) && Requests.Resolves(ids, requests[j], tasks[j]);
    assert executions[i] == Compiled(tasks, layout, workflow, i) && executions[j] == Compiled(tasks, layout, workflow, j);
    hide WellFormed, Requests.ValidRequest, Assigns, CompiledFrom;
    ParentsMirrorDependencies(tasks, layout, workflow, i, j);
    hide AllResolve, Requests.Resolves;
    ResolutionKeepsDependencies(ids, requests, tasks, i, requests[j].key);
  }

  /** What each error says about the request. */
  ghost predicate Explains(
    tasks: Requests.TaskRegistry, registry: TriggerRegistry, calendar: Calendar,
    request: CreateWorkflowDefinition, now: Time, error: CreateError)
  {
    match error
    case InvalidTasks(reason) => Requests.Accurate(tasks, request.tasks, reason)
    case InitializationRaised => !Initializes(calendar, request.triggers, now)
    case _ => RefusesTriggers(registry, request.triggers, error)
  }

  ghost predicate RefusesTriggers(
    registry: TriggerRegistry, triggers: seq<CreateTriggerDefinition>, error: CreateError)
  {
    match error
    case UnknownTrigger(pluginType) =>
      pluginType !in registry && exists trigger | trigger in triggers :: trigger.pluginType == pluginType
    case InvalidTrigger(pluginType) =>
      && pluginType in registry
      && exists trigger | trigger in triggers ::
           trigger.pluginType == pluginType && !registry[pluginType](trigger.configuration)
    case _ => false
  }

  lemma ValidResolves(registry: Requests.TaskRegistry, tasks: seq<CreateTaskDefinition>)
    requires Requests.ValidRequest(registry, tasks)
    ensures Requests.UniqueKeys(tasks) && Requests.ResolvableDependencies(tasks)
  {
    forall task | task in tasks
      ensures NoDuplicates(task.dependencies) && Elements(task.dependencies) <= Requests.Keys(tasks)
    {
      assert Requests.ValidTask(registry, Requests.Keys(tasks), task);
    }
  }

  lemma DefinedTable(calendar: Calendar, workflow: Uuid, requests: seq<CreateTriggerDefinition>,
                     definitions: seq<TriggerDefinition>, now: Time)
    requires Defines(workflow, requests, definitions)
    ensures (forall trigger | trigger in definitions :: !NextRun(calendar, trigger, now).Raises?)
       <==> Initializes(calendar, requests, now)
    ensures forall id | id in TableOf(definitions) ::
              && TableOf(definitions)[id] in definitions && TableOf(definitions)[id].id == id
              && TableOf(definitions)[id].workflowDefinitionId == workflow
              && exists i | 0 <= i < |definitions| :: definitions[i].id == id
  {
    TableHolds(definitions);
    forall i | 0 <= i < |requests|
      ensures requests[i] in requests && definitions[i] in definitions
      ensures NextRun(calendar, definitions[i], now)
           == calendar(requests[i].pluginType, requests[i].configuration, now)
    {
    }
    hide TableOf;
    if Initializes(calendar, requests, now) {
      forall trigger | trigger in definitions
        ensures !NextRun(calendar, trigger, now).Raises?
      {
        var i :| 0 <= i < |definitions| && definitions[i] == trigger;
      }
    }
    if forall trigger | trigger in definitions :: !NextRun(calendar, trigger, now).Raises? {
      forall request | request in requests
        ensures !calendar(request.pluginType, request.configuration, now).Raises?
      {
        var i :| 0 <= i < |requests| && requests[i] == request;
      }
    }
  }

  /** An accepted request under identifiers drawn for it. */
  ghost predicate Installable(
    p: Platform, issued: set<Uuid>, workflow: Uuid, definition: WorkflowDefinition,
    requests: seq<CreateTriggerDefinition>, triggers: seq<TriggerDefinition>)
  {
    && WellFormed(definition.taskDefinitions) && Defines(workflow, requests, triggers)
    && workflow in issued && workflow !in p.system.definitions
    && forall trigger | trigger in triggers :: trigger.id in issued && trigger.id !in p.triggers
  }

  lemma SameOccurrences(
    calendar: Calendar, p: Platform, issued: set<Uuid>, workflow: Uuid, definition: WorkflowDefinition,
    requests: seq<CreateTriggerDefinition>, triggers: seq<TriggerDefinition>, now: Time)
    requires Installable(p, issued, workflow, definition, requests, triggers)
    ensures (forall trigger | trigger in triggers :: !NextRun(calendar, trigger, now).Raises?)
       <==> Initializes(calendar, requests, now)
    ensures forall i, j | 0 <= i < j < |triggers| :: triggers[i].id != triggers[j].id
  {
    DefinedTable(calendar, workflow, requests, triggers, now);
  }

  lemma Installs(
    calendar: Calendar, lease: Time, p: Platform, issued: set<Uuid>, step: PlatformStep,
    requests: seq<CreateTriggerDefinition>, triggers: seq<TriggerDefinition>, now: Time)
    requires step.Install? && step.definition.Define? && step.triggers == TableOf(triggers) && p.system.queue.clock == now
    requires Installable(p, issued, step.definition.id, step.definition.definition, requests, triggers)
    requires AllWellFormed(p.system.definitions) && p.system.definitions.Keys <= issued && p.triggers.Keys <= issued
    requires forall trigger | trigger in triggers :: !NextRun(calendar, trigger, now).Raises?
    ensures Allows(calendar, lease, p, step)
    ensures var after := Take(calendar, p, step);
            && after.system.definitions == p.system.definitions[step.definition.id := step.definition.definition]
            && after.system.store == p.system.store && after.system.queue == p.system.queue
            && after.triggers == p.triggers + step.triggers
            && after.schedule == p.schedule + FirstRuns(calendar, step.triggers, now)
            && AllWellFormed(after.system.definitions)
            && after.system.definitions.Keys <= issued && after.triggers.Keys <= issued
  {
    hide AllWellFormed, Defines, TableOf, FirstRuns, Take, Allows, NextRun;
    TablesStayValid(
      p.system.definitions, p.triggers, issued, step.definition.id, step.definition.definition, triggers);
    InstallAllowed(calendar, lease, p, step, requests, triggers, now);
    InstallEffect(calendar, p, step);
  }

  lemma InstallAllowed(
    calendar: Calendar, lease: Time, p: Platform, step: PlatformStep, requests: seq<CreateTriggerDefinition>,
    definitions: seq<TriggerDefinition>, now: Time)
    requires step.Install? && step.definition.Define? && step.triggers == TableOf(definitions)
    requires step.definition.id !in p.system.definitions && WellFormed(step.definition.definition.taskDefinitions)
    requires Defines(step.definition.id, requests, definitions) && p.system.queue.clock == now
    requires forall trigger | trigger in definitions :: !NextRun(calendar, trigger, now).Raises?
    requires forall trigger | trigger in definitions :: trigger.id !in p.triggers
    ensures Allows(calendar, lease, p, step)
  {
    DefinedTable(calendar, step.definition.id, requests, definitions, now);
    hide WellFormed, TableOf, Defines;
    forall id | id in step.triggers
      ensures id !in p.triggers
    {
      var i :| 0 <= i < |definitions| && definitions[i].id == id;
      assert definitions[i] in definitions;
    }
  }

  lemma TablesStayValid(
    definitions: map<Uuid, WorkflowDefinition>, triggers: TriggerTable, issued: set<Uuid>,
    workflow: Uuid, definition: WorkflowDefinition, added: seq<TriggerDefinition>)
    requires AllWellFormed(definitions) && definitions.Keys <= issued && triggers.Keys <= issued
    requires WellFormed(definition.taskDefinitions) && workflow in issued
    requires forall trigger | trigger in added :: trigger.id in issued
    ensures AllWellFormed(definitions[workflow := definition])
    ensures definitions[workflow := definition].Keys <= issued && (triggers + TableOf(added)).Keys <= issued
  {
    TableHolds(added);
    hide WellFormed, TableOf;
  }

  lemma InstallEffect(calendar: Calendar, p: Platform, step: PlatformStep)
    requires step.Install? && step.definition.Define?
    ensures var after := Take(calendar, p, step);
            && after.system.definitions == p.system.definitions[step.definition.id := step.definition.definition]
            && after.system.store == p.system.store && after.system.queue == p.system.queue
            && after.triggers == p.triggers + step.triggers
            && after.schedule == p.schedule + FirstRuns(calendar, step.triggers, p.system.queue.clock)
  {
    ProtocolInvariant.OneSession(p.system, step.definition);
  }
}
