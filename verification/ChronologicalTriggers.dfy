/** Processing due occurrences: one unit of work advances the schedule and starts the workflow, or does neither. */
module ChronologicalTriggers {
  import opened Domain
  import opened Triggers
  import opened TriggerRepository
  import opened UnitsOfWork
  import opened WorkflowStart
  import opened Scheduling
  import Protocol
  import ExecutionQueue

  datatype ProcessError = CalculationRaised | StartRaised | QueueFailed

  ghost predicate ShowsPlatform(p: Platform, service: WorkflowStartService, now: Time)
    reads service.database, service.queue, service.uuids
  {
    && Shows(p.system, service.database, service.queue, service.uuids, now)
    && p.triggers == service.database.triggers
    && p.schedule == service.database.schedule
  }

  /** What processing an occurrence comes to: the error that stopped it, if any. */
  ghost function Outcome(calendar: Calendar, p: Platform, id: Uuid, queueUp: bool): Result<bool, ProcessError>
    requires id in p.triggers && id in p.schedule
  {
    if NextRun(calendar, p.triggers[id], p.schedule[id]).Raises? then Failure(CalculationRaised)
    else if !Startable(p.system.definitions, p.triggers[id].workflowDefinitionId) then Failure(StartRaised)
    else if queueUp then Success(true)
    else Failure(QueueFailed)
  }

  /** The schedule was advanced and the execution created: on success, and also when only the queue failed. */
  predicate Processed(r: Result<bool, ProcessError>) {
    r == Success(true) || r == Failure(QueueFailed)
  }

  class ChronologicalTriggerService {
    const calendar: Calendar
    const starts: WorkflowStartService

    constructor (calendar: Calendar, starts: WorkflowStartService)
      ensures this.calendar == calendar && this.starts == starts
    {
      this.calendar, this.starts := calendar, starts;
    }

    /** False stands for the error raised by the calculation. */
    method Initialize(trigger: TriggerDefinition, uow: UnitOfWork, now: Time) returns (ok: bool)
      modifies uow.chronologicalTriggers
      ensures ok <==> !NextRun(calendar, trigger, now).Raises?
      ensures uow.chronologicalTriggers.states
           == if NextRun(calendar, trigger, now).At?
              then old(uow.chronologicalTriggers.states)[trigger.id := NextRun(calendar, trigger, now).at]
              else old(uow.chronologicalTriggers.states)
    {
      match calendar(trigger.pluginType, trigger.configuration, now)
      case Raises => return false;
      case Never => return true;
      case At(at) =>
        uow.chronologicalTriggers.Create(trigger.id, at);
        return true;
    }

    /** Either nothing happens, or the earliest due occurrence is fired as one step; publication follows it. */
    method ProcessNextDue(now: Time, queueUp: bool, ghost lease: Time, ghost p: Platform, ghost publisher: Uuid)
      returns (r: Result<bool, ProcessError>, ghost steps: seq<PlatformStep>)
      requires starts.Valid() && ShowsPlatform(p, starts, now) && publisher !in p.system.publishers
      modifies starts.database`store, starts.database`schedule, starts.queue`entries, starts.uuids
      ensures starts.Valid()
      ensures Runs(calendar, lease, p, steps) && ShowsPlatform(Final(calendar, p, steps), starts, now)
      ensures publisher !in Final(calendar, p, steps).system.publishers
      ensures r == Success(false) <==> NothingDue(p.triggers, p.schedule, now)
      ensures r != Success(false) ==>
                exists id :: EarliestDue(p.triggers, p.schedule, now, id) && r == Outcome(calendar, p, id, queueUp)
      ensures !Processed(r) ==> steps == []
      ensures Processed(r) ==>
                && |steps| == 2 && steps[0].Fire? && steps[1].Internal?
                && steps[1].step == (if queueUp then Protocol.Publish(publisher) else Protocol.Abandon(publisher))
                && EarliestDue(p.triggers, p.schedule, now, steps[0].trigger)
    {
      steps := [];
      NothingRuns(calendar, lease, p);
      hide Runs, Final, Protocol.After, Protocol.Enabled, AllWellFormed, AllIssued, EarliestDue, NothingDue;
      var uow := new UnitOfWork(starts.database);
      var due := uow.chronologicalTriggers.GetNextDue(now);
      if due.None? {
        return Success(false), steps;
      }
      ghost var id := due.value.triggerDefinitionId;
      OneEarliest(p.triggers, p.schedule, now, id);
      var next := calendar(due.value.pluginType, due.value.configuration, due.value.nextRunAt);
      match next {
        case Raises => return Failure(CalculationRaised), steps;
        case Never => uow.chronologicalTriggers.Delete(due.value.triggerDefinitionId);
        case At(at) => var _ := uow.chronologicalTriggers.UpdateNextRun(due.value.triggerDefinitionId, at);
      }
      var started, start := starts.StartAndCommit(
        due.value.workflowDefinitionId, uow, queueUp, now, lease, p.system, publisher);
      if started == Failure(NotFound) || started == Failure(Disabled) {
        return Failure(StartRaised), steps;
      }
      steps := [Fire(id, start), Internal(if queueUp then Protocol.Publish(publisher) else Protocol.Abandon(publisher))];
      FireThenPublish(calendar, lease, p, id, start, queueUp);
      r := if queueUp then Success(true) else Failure(QueueFailed);
    }
  }

  /** The order of due occurrences is total. */
  lemma OneEarliest(triggers: TriggerTable, schedule: Schedule, now: Time, id: Uuid)
    requires EarliestDue(triggers, schedule, now, id)
    ensures forall other | EarliestDue(triggers, schedule, now, other) :: other == id
    ensures Due(triggers, schedule, now, id) && !NothingDue(triggers, schedule, now)
  {
  }

  lemma NothingRuns(calendar: Calendar, lease: Time, p: Platform)
    ensures Runs(calendar, lease, p, []) && Final(calendar, p, []) == p
  {
  }

  lemma FireThenPublish(
    calendar: Calendar, lease: Time, p: Platform, id: Uuid, start: Protocol.Step, queueUp: bool)
    requires start.Start? && start.publisher !in p.system.publishers
    requires Allows(calendar, lease, p, Fire(id, start))
    ensures var last := if queueUp then Protocol.Publish(start.publisher) else Protocol.Abandon(start.publisher);
            var steps := [Fire(id, start), Internal(last)];
            var after := Final(calendar, p, steps);
            && Runs(calendar, lease, p, steps)
            && after.system == Protocol.After(p.system, [start, last])
            && after.triggers == p.triggers && after.first == p.first
            && after.schedule == Advanced(p.schedule, id, NextRun(calendar, p.triggers[id], p.schedule[id]))
            && after.log == p.log + [Firing(id, p.schedule[id], start.workflow)]
            && start.publisher !in after.system.publishers
  {
    var last := if queueUp then Protocol.Publish(start.publisher) else Protocol.Abandon(start.publisher);
    var steps := [Fire(id, start), Internal(last)];
    var fired := Take(calendar, p, steps[0]);
    var system := Protocol.Apply(p.system, start);
    assert steps[1..] == [Internal(last)] && [Internal(last)][1..] == [];
    assert [start, last][1..] == [last] && [last][1..] == [];
    StartThenPublish(p.system, start, queueUp);
    StartPublishes(p.system, start);
    assert fired.system == system;
    assert Allows(calendar, lease, fired, Internal(last));
    assert Runs(calendar, lease, Take(calendar, fired, Internal(last)), []);
    assert Runs(calendar, lease, fired, [Internal(last)]);
    assert Protocol.After(p.system, [start, last]) == Protocol.After(system, [last]);
    assert Protocol.After(system, [last]) == Protocol.After(Protocol.Apply(system, last), []);
    assert Final(calendar, p, steps) == Final(calendar, fired, [Internal(last)]);
    assert Final(calendar, fired, [Internal(last)]) == Final(calendar, Take(calendar, fired, Internal(last)), []);
  }

  lemma StartPublishes(s: Protocol.System, start: Protocol.Step)
    requires start.Start?
    ensures start.publisher in Protocol.Apply(s, start).publishers
  {
  }
}
