/** Durable scheduling state, one row per trigger that still has an occurrence. */
module TriggerRepository {
  import opened Domain

  type TriggerTable = map<Uuid, TriggerDefinition>

  type Schedule = map<Uuid, Time>

  datatype DueTrigger = DueTrigger(
    triggerDefinitionId: Uuid,
    workflowDefinitionId: Uuid,
    pluginType: string,
    configuration: Configuration,
    nextRunAt: Time)

  predicate Due(triggers: TriggerTable, schedule: Schedule, now: Time, id: Uuid) {
    id in schedule && id in triggers && triggers[id].enabled && schedule[id] <= now
  }

  /** The order in which due occurrences are served: by time, then by trigger id. */
  predicate NoLater(a: Time, x: Uuid, b: Time, y: Uuid) {
    a < b || (a == b && x <= y)
  }

  ghost predicate EarliestDue(triggers: TriggerTable, schedule: Schedule, now: Time, id: Uuid) {
    && Due(triggers, schedule, now, id)
    && forall other | Due(triggers, schedule, now, other) :: NoLater(schedule[id], id, schedule[other], other)
  }

  ghost predicate NothingDue(triggers: TriggerTable, schedule: Schedule, now: Time) {
    forall id :: !Due(triggers, schedule, now, id)
  }

  function Describe(triggers: TriggerTable, schedule: Schedule, id: Uuid): DueTrigger
    requires id in triggers && id in schedule
  {
    DueTrigger(id, triggers[id].workflowDefinitionId, triggers[id].pluginType, triggers[id].configuration, schedule[id])
  }

  /** The trigger tables as one database session sees them. */
  class ChronologicalTriggerRepository {
    const triggers: TriggerTable
    var states: Schedule

    constructor (triggers: TriggerTable, committed: Schedule)
      ensures this.triggers == triggers && states == committed
    {
      this.triggers := triggers;
      states := committed;
    }

    method Create(id: Uuid, nextRunAt: Time)
      modifies this
      ensures states == old(states)[id := nextRunAt]
    {
      states := states[id := nextRunAt];
    }

    method Delete(id: Uuid)
      modifies this
      ensures states == old(states) - {id}
    {
      if id in states {
        states := states - {id};
      }
    }

    method GetNextDue(now: Time) returns (due: Option<DueTrigger>)
      ensures due.None? <==> NothingDue(triggers, states, now)
      ensures due.Some? ==>
                && EarliestDue(triggers, states, now, due.value.triggerDefinitionId)
                && due.value == Describe(triggers, states, due.value.triggerDefinitionId)
                && forall other | other in states && other in triggers && triggers[other].enabled && states[other] <= now ::
                     || due.value.nextRunAt < states[other]
                     || (due.value.nextRunAt == states[other] && due.value.triggerDefinitionId <= other)
    {
      var first: Option<Uuid> := None;
      var left := states.Keys;
      while left != {}
        invariant left <= states.Keys
        invariant first.Some? ==> Due(triggers, states, now, first.value)
        invariant forall id | Due(triggers, states, now, id) && id !in left ::
            first.Some? && NoLater(states[first.value], first.value, states[id], id)
        decreases left
      {
        var id :| id in left;
        left := left - {id};
        if Due(triggers, states, now, id)
           && (first.None? || !NoLater(states[first.value], first.value, states[id], id)) {
          first := Some(id);
        }
      }
      return if first.None? then None else Some(Describe(triggers, states, first.value));
    }

    /** False stands for the error raised when the trigger has no scheduling state. */
    method UpdateNextRun(id: Uuid, nextRunAt: Time) returns (known: bool)
      modifies this
      ensures known <==> id in old(states)
      ensures states == if known then old(states)[id := nextRunAt] else old(states)
    {
      known := id in states;
      if known {
        states := states[id := nextRunAt];
      }
    }
  }
}
