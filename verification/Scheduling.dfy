/** The platform with its schedules: advancing a schedule and creating a workflow execution is one step. */
module Scheduling {
  import opened Domain
  import opened ExecutionStore
  import opened Triggers
  import opened TriggerRepository
  import opened StoreInvariant
  import opened Creation
  import opened Protocol
  import opened ProtocolInvariant

  /** One processed occurrence and the workflow execution created for it. */
  datatype Firing = Firing(trigger: Uuid, occurrence: Time, workflow: Uuid)

  /** `first` and `log` record the first occurrence of each trigger and every firing; no step reads them. */
  datatype Platform = Platform(
    system: System,
    triggers: TriggerTable,
    schedule: Schedule,
    first: Schedule,
    log: seq<Firing>)

  datatype PlatformStep =
    | Internal(step: Step)
    | Install(definition: Step, triggers: TriggerTable)
    | Fire(trigger: Uuid, start: Step)

  ghost function Empty(now: Time): Platform {
    Platform(Initial(now), map[], map[], map[], [])
  }

  function NextRun(calendar: Calendar, trigger: TriggerDefinition, after: Time): Occurrence {
    calendar(trigger.pluginType, trigger.configuration, after)
  }

  /** The schedule rows that installing triggers creates. */
  ghost function FirstRuns(calendar: Calendar, triggers: TriggerTable, now: Time): Schedule {
    map id | id in triggers && NextRun(calendar, triggers[id], now).At? :: NextRun(calendar, triggers[id], now).at
  }

  ghost function Advanced(schedule: Schedule, id: Uuid, next: Occurrence): Schedule {
    if next.At? then schedule[id := next.at] else schedule - {id}
  }

  /** Several schedulers may run at once; each skips what another has locked, so any due trigger can come next. */
  ghost predicate Allows(calendar: Calendar, lease: Time, p: Platform, step: PlatformStep) {
    match step
    case Internal(inner) => Protocol.Enabled(lease, p.system, inner)
    case Install(definition, triggers) =>
      && definition.Define? && Protocol.Enabled(lease, p.system, definition)
      && triggers.Keys !! p.triggers.Keys
      && (forall id | id in triggers ::
            && triggers[id].workflowDefinitionId == definition.id
            && !NextRun(calendar, triggers[id], p.system.queue.clock).Raises?)
    case Fire(id, start) =>
      && Due(p.triggers, p.schedule, p.system.queue.clock, id)
      && !NextRun(calendar, p.triggers[id], p.schedule[id]).Raises?
      && start.Start? && start.definitionId == p.triggers[id].workflowDefinitionId
      && Protocol.Enabled(lease, p.system, start)
  }

  ghost function SystemStep(step: PlatformStep): Step {
    match step
    case Internal(inner) => inner
    case Install(definition, triggers) => definition
    case Fire(id, start) => start
  }

  ghost function Take(calendar: Calendar, p: Platform, step: PlatformStep): Platform {
    var system := Protocol.Apply(p.system, SystemStep(step));
    match step
    case Internal(inner) => p.(system := system)
    case Install(definition, triggers) =>
      var runs := FirstRuns(calendar, triggers, p.system.queue.clock);
      Platform(system, p.triggers + triggers, p.schedule + runs, p.first + runs, p.log)
    case Fire(id, start) =>
      if id in p.triggers && id in p.schedule && start.Start? then
        p.(system := system,
           schedule := Advanced(p.schedule, id, NextRun(calendar, p.triggers[id], p.schedule[id])),
           log := p.log + [Firing(id, p.schedule[id], start.workflow)])
      else
        p
  }

  ghost predicate Runs(calendar: Calendar, lease: Time, p: Platform, steps: seq<PlatformStep>)
    decreases steps
  {
    steps == [] || (Allows(calendar, lease, p, steps[0]) && Runs(calendar, lease, Take(calendar, p, steps[0]), steps[1..]))
  }

  ghost function Final(calendar: Calendar, p: Platform, steps: seq<PlatformStep>): Platform
    decreases steps
  {
    if steps == [] then p else Final(calendar, Take(calendar, p, steps[0]), steps[1..])
  }

  /******* What the log says *******/

  /** The occurrences of one trigger that were processed, in order. */
  ghost function Fired(log: seq<Firing>, id: Uuid): seq<Time> {
    if log == [] then []
    else
      var last := log[|log| - 1];
      Fired(log[..|log| - 1], id) + if last.trigger == id then [last.occurrence] else []
  }

  /** The workflow executions one trigger created, in order. */
  ghost function CreatedBy(log: seq<Firing>, id: Uuid): (created: seq<Uuid>)
    ensures |created| == |Fired(log, id)|
  {
    if log == [] then []
    else
      var last := log[|log| - 1];
      CreatedBy(log[..|log| - 1], id) + if last.trigger == id then [last.workflow] else []
  }

  /** The occurrence that follows those already processed. */
  ghost function Upcoming(calendar: Calendar, trigger: TriggerDefinition, first: Time, fired: seq<Time>): Occurrence {
    if fired == [] then At(first) else NextRun(calendar, trigger, fired[|fired| - 1])
  }

  /** Each occurrence is the one its predecessor calls for: none is skipped and none comes twice. */
  ghost predicate Consecutive(calendar: Calendar, trigger: TriggerDefinition, first: Time, fired: seq<Time>) {
    forall k | 0 <= k < |fired| :: Upcoming(calendar, trigger, first, fired[..k]) == At(fired[k])
  }

  ghost predicate OnSchedule(calendar: Calendar, p: Platform, id: Uuid)
    requires id in p.first && id in p.triggers
  {
    var trigger, first, fired := p.triggers[id], p.first[id], Fired(p.log, id);
    && Consecutive(calendar, trigger, first, fired)
    && Upcoming(calendar, trigger, first, fired)
       == if id in p.schedule then At(p.schedule[id]) else Never
  }

  /** Every firing created a stored execution of the trigger's own workflow, and no execution is logged twice. */
  ghost predicate LogOk(p: Platform) {
    && (forall i, j | 0 <= i < j < |p.log| :: p.log[i].workflow != p.log[j].workflow)
    && (forall f | f in p.log ::
          && f.trigger in p.first && f.trigger in p.triggers
          && f.workflow in p.system.store.workflows
          && p.system.store.workflows[f.workflow].workflowDefinitionId == p.triggers[f.trigger].workflowDefinitionId)
  }

  ghost predicate ScheduleOk(calendar: Calendar, p: Platform) {
    && p.first.Keys <= p.triggers.Keys
    && p.schedule.Keys <= p.first.Keys
    && (forall id | id in p.first :: OnSchedule(calendar, p, id))
  }

  ghost predicate PlatformInv(calendar: Calendar, p: Platform) {
    Inv(p.system) && LogOk(p) && ScheduleOk(calendar, p)
  }

  /******* Every step keeps it *******/

  lemma {:induction false} UnloggedNeverFired(log: seq<Firing>, id: Uuid)
    requires forall f | f in log :: f.trigger != id
    ensures Fired(log, id) == []
  {
    if log != [] {
      UnloggedNeverFired(log[..|log| - 1], id);
    }
  }

  /** Processing the upcoming occurrence makes the one after it upcoming. */
  lemma NextComesUp(calendar: Calendar, trigger: TriggerDefinition, first: Time, fired: seq<Time>, at: Time)
    requires Consecutive(calendar, trigger, first, fired) && Upcoming(calendar, trigger, first, fired) == At(at)
    ensures Consecutive(calendar, trigger, first, fired + [at])
    ensures Upcoming(calendar, trigger, first, fired + [at]) == NextRun(calendar, trigger, at)
  {
    var more := fired + [at];
    forall k | 0 <= k < |more|
      ensures Upcoming(calendar, trigger, first, more[..k]) == At(more[k])
    {
      if k < |fired| {
        assert more[..k] == fired[..k];
      } else {
        assert more[..k] == fired;
      }
    }
  }

  lemma FiredGrows(log: seq<Firing>, f: Firing)
    ensures Fired(log + [f], f.trigger) == Fired(log, f.trigger) + [f.occurrence]
    ensures forall id | id != f.trigger :: Fired(log + [f], id) == Fired(log, id)
  {
    assert (log + [f])[..|log|] == log;
  }

  lemma FireKeepsSchedule(calendar: Calendar, lease: Time, p: Platform, step: PlatformStep)
    requires ScheduleOk(calendar, p) && step.Fire? && Allows(calendar, lease, p, step)
    ensures ScheduleOk(calendar, Take(calendar, p, step))
  {
    hide Protocol.Apply, Protocol.Enabled, OnSchedule;
    var next := Take(calendar, p, step);
    forall x | x in next.first
      ensures OnSchedule(calendar, next, x)
    {
      assert OnSchedule(calendar, p, x);
      FiredOnSchedule(calendar, p, next, step.trigger, step.start.workflow, x);
    }
  }

  /** Firing one trigger keeps every trigger on schedule. */
  lemma FiredOnSchedule(calendar: Calendar, p: Platform, next: Platform, id: Uuid, workflow: Uuid, x: Uuid)
    requires id in p.triggers && id in p.schedule && x in p.first && x in p.triggers && OnSchedule(calendar, p, x)
    requires !NextRun(calendar, p.triggers[id], p.schedule[id]).Raises?
    requires next.triggers == p.triggers && next.first == p.first
    requires next.schedule == Advanced(p.schedule, id, NextRun(calendar, p.triggers[id], p.schedule[id]))
    requires next.log == p.log + [Firing(id, p.schedule[id], workflow)]
    ensures OnSchedule(calendar, next, x)
  {
    hide Upcoming, Consecutive, Fired;
    FiredGrows(p.log, Firing(id, p.schedule[id], workflow));
    if x == id {
      NextComesUp(calendar, p.triggers[id], p.first[id], Fired(p.log, id), p.schedule[id]);
    }
  }

  lemma InstallKeepsSchedule(calendar: Calendar, lease: Time, p: Platform, step: PlatformStep)
    requires ScheduleOk(calendar, p) && LogOk(p) && step.Install? && Allows(calendar, lease, p, step)
    ensures ScheduleOk(calendar, Take(calendar, p, step))
  {
    var next, runs := Take(calendar, p, step), FirstRuns(calendar, step.triggers, p.system.queue.clock);
    hide Protocol.Apply, Protocol.Enabled;
    forall x | x in next.first
      ensures OnSchedule(calendar, next, x)
    {
      if x in runs {
        assert x !in p.triggers;
        UnloggedNeverFired(p.log, x);
      } else {
        assert OnSchedule(calendar, p, x);
      }
    }
  }

  /** The firings so far stay true of a store that has only advanced. */
  lemma LogStays(p: Platform, next: Platform)
    requires LogOk(p) && Advances(p.system.store, next.system.store) && next.log == p.log
    requires forall id | id in p.first :: id in next.first
    requires forall id | id in p.triggers :: id in next.triggers && next.triggers[id] == p.triggers[id]
    ensures LogOk(next)
  {
    forall f | f in next.log
      ensures f.workflow in next.system.store.workflows
      ensures next.system.store.workflows[f.workflow].workflowDefinitionId
           == p.system.store.workflows[f.workflow].workflowDefinitionId
    {
      assert WorkflowAdvances(p.system.store.workflows[f.workflow], next.system.store.workflows[f.workflow]);
    }
  }

  lemma FireIsLogged(p: Platform, next: Platform, f: Firing)
    requires LogOk(p) && next.log == p.log + [f] && next.triggers == p.triggers && next.first == p.first
    requires Advances(p.system.store, next.system.store)
    requires f.trigger in p.first && f.trigger in p.triggers
    requires f.workflow !in p.system.store.workflows && f.workflow in next.system.store.workflows
    requires next.system.store.workflows[f.workflow].workflowDefinitionId == p.triggers[f.trigger].workflowDefinitionId
    ensures LogOk(next)
  {
    LogStays(p, next.(log := p.log));
    assert forall i | 0 <= i < |p.log| :: p.log[i] in p.log;
    hide Advances;
  }

  lemma StepKeepsPlatformInv(calendar: Calendar, lease: Time, p: Platform, step: PlatformStep)
    requires PlatformInv(calendar, p) && Allows(calendar, lease, p, step)
    ensures PlatformInv(calendar, Take(calendar, p, step))
  {
    var next := Take(calendar, p, step);
    assert Protocol.Enabled(lease, p.system, SystemStep(step));
    assert next.system == Protocol.Apply(p.system, SystemStep(step));
    hide Inv, StoreOk, Protocol.Enabled, Protocol.Apply, Advances, LogOk, ScheduleOk;
    StepKeepsInv(lease, p.system, SystemStep(step));
    StoreStep(lease, p.system, SystemStep(step));
    match step
    case Internal(inner) =>
      LogStays(p, next);
      InternalKeepsSchedule(calendar, p, next);
    case Install(definition, triggers) =>
      LogStays(p, next);
      InstallKeepsSchedule(calendar, lease, p, step);
    case Fire(id, start) =>
      FireKeepsSchedule(calendar, lease, p, step);
      StartCreates(lease, p.system, start);
      DueIsKnown(calendar, p, id);
      FireIsLogged(p, next, Firing(id, p.schedule[id], start.workflow));
  }

  lemma DueIsKnown(calendar: Calendar, p: Platform, id: Uuid)
    requires ScheduleOk(calendar, p) && id in p.schedule
    ensures id in p.first && id in p.triggers
  {
  }

  lemma InternalKeepsSchedule(calendar: Calendar, p: Platform, next: Platform)
    requires ScheduleOk(calendar, p) && next == p.(system := next.system)
    ensures ScheduleOk(calendar, next)
  {
    forall x | x in next.first
      ensures OnSchedule(calendar, next, x)
    {
      assert OnSchedule(calendar, p, x);
    }
  }

  lemma StartCreates(lease: Time, s: System, start: Step)
    requires start.Start? && Protocol.Enabled(lease, s, start)
    ensures var after := Protocol.Apply(s, start).store;
            && start.workflow !in s.store.workflows && start.workflow in after.workflows
            && after.workflows[start.workflow].workflowDefinitionId == start.definitionId
  {
    hide Rows, WorkersAfter, PublishersAfter, QueueSteps;
  }

  lemma {:induction false} RunKeepsPlatformInv(calendar: Calendar, lease: Time, p: Platform, steps: seq<PlatformStep>)
    requires PlatformInv(calendar, p) && Runs(calendar, lease, p, steps)
    ensures PlatformInv(calendar, Final(calendar, p, steps))
    decreases steps
  {
    hide PlatformInv, Allows, Take;
    if steps != [] {
      StepKeepsPlatformInv(calendar, lease, p, steps[0]);
      RunKeepsPlatformInv(calendar, lease, Take(calendar, p, steps[0]), steps[1..]);
    }
  }

  lemma EmptyInv(calendar: Calendar, now: Time)
    ensures PlatformInv(calendar, Empty(now))
  {
    InitialInv(now);
    hide Inv;
  }

  /******* First occurrences *******/

  /** Installing triggers schedules each of them, and no other, for the first occurrence its plugin names from now. */
  lemma InstallationSchedules(calendar: Calendar, p: Platform, step: PlatformStep, id: Uuid)
    requires step.Install? && step.definition.Define? && step.triggers.Keys !! p.triggers.Keys
    requires p.first.Keys <= p.triggers.Keys && p.schedule.Keys <= p.first.Keys
    ensures var after, now := Take(calendar, p, step), p.system.queue.clock;
            if id in step.triggers then
              var trigger := step.triggers[id];
              match calendar(trigger.pluginType, trigger.configuration, now)
              case At(at) => id in after.schedule && after.schedule[id] == at && id in after.first && after.first[id] == at
              case _ => id !in after.schedule && id !in after.first
            else
              && (id in after.schedule <==> id in p.schedule) && (id in after.first <==> id in p.first)
              && (id in p.schedule ==> after.schedule[id] == p.schedule[id])
              && (id in p.first ==> after.first[id] == p.first[id])
  {
    hide Protocol.Apply;
  }

  /** The first occurrence of an interval trigger is one interval after its installation. */
  lemma FirstInterval(calendar: Calendar, lease: Time, p: Platform, step: PlatformStep, id: Uuid)
    requires PlatformInv(calendar, p) && Allows(calendar, lease, p, step) && step.Install?
    requires RegistersInterval(calendar) && id in step.triggers && IsInterval(step.triggers[id])
    ensures var after := Take(calendar, p, step);
            && id in after.first && id in after.schedule
            && after.first[id] == after.schedule[id] == p.system.queue.clock + Interval(step.triggers[id].configuration)
  {
    hide Inv, Protocol.Enabled, Protocol.Apply, LogOk;
    InstallationSchedules(calendar, p, step, id);
    IntervalMovesOn(calendar, step.triggers[id], p.system.queue.clock);
    hide Take;
  }

  /******* No skipped or duplicated occurrence *******/

  lemma {:induction false} CreatedInLog(log: seq<Firing>, id: Uuid)
    ensures forall w | w in CreatedBy(log, id) :: exists f | f in log :: f.trigger == id && f.workflow == w
  {
    if log != [] {
      var front, last := log[..|log| - 1], log[|log| - 1];
      CreatedInLog(front, id);
      assert log == front + [last];
    }
  }

  lemma {:induction false} CreatedDistinct(log: seq<Firing>, id: Uuid)
    requires forall i, j | 0 <= i < j < |log| :: log[i].workflow != log[j].workflow
    ensures NoDuplicates(CreatedBy(log, id))
  {
    if log != [] {
      var front, last := log[..|log| - 1], log[|log| - 1];
      assert forall i, j | 0 <= i < j < |front| :: front[i] == log[i] && front[j] == log[j];
      CreatedDistinct(front, id);
      CreatedInLog(front, id);
      assert last.workflow !in CreatedBy(front, id) by {
        forall f | f in front
          ensures f.workflow != last.workflow
        {
          var i :| 0 <= i < |front| && front[i] == f;
          assert log[i].workflow != log[|log| - 1].workflow;
        }
      }
    }
  }

  /** However the platform has run, with schedulers racing, failing and crashing anywhere, the executions a
    * trigger has created are one for each of its first occurrences, in order. */
  lemma OneExecutionPerOccurrence(calendar: Calendar, lease: Time, now: Time, steps: seq<PlatformStep>, id: Uuid)
    requires Runs(calendar, lease, Empty(now), steps)
    requires id in Final(calendar, Empty(now), steps).first
    ensures var p := Final(calendar, Empty(now), steps);
            && id in p.triggers && OnSchedule(calendar, p, id)
            && |CreatedBy(p.log, id)| == |Fired(p.log, id)|
            && NoDuplicates(CreatedBy(p.log, id))
            && forall w | w in CreatedBy(p.log, id) ::
                 && w in p.system.store.workflows
                 && p.system.store.workflows[w].workflowDefinitionId == p.triggers[id].workflowDefinitionId
  {
    var p := Final(calendar, Empty(now), steps);
    EmptyInv(calendar, now);
    RunKeepsPlatformInv(calendar, lease, Empty(now), steps);
    hide Runs, Final, Empty, Inv, OnSchedule;
    CreatedDistinct(p.log, id);
    CreatedInLog(p.log, id);
  }

  /** The time `n` intervals after the first occurrence. */
  ghost function Nth(first: Time, interval: Time, n: nat): Time {
    first + n as real * interval
  }

  lemma NthNext(first: Time, interval: Time, n: nat)
    ensures Nth(first, interval, 0) == first
    ensures Nth(first, interval, n + 1) == Nth(first, interval, n) + interval
  {
  }

  lemma {:induction false} IntervalOccurrences(calendar: Calendar, trigger: TriggerDefinition, first: Time, fired: seq<Time>)
    requires RegistersInterval(calendar) && IsInterval(trigger) && Consecutive(calendar, trigger, first, fired)
    ensures forall k | 0 <= k < |fired| :: fired[k] == Nth(first, Interval(trigger.configuration), k)
    ensures Upcoming(calendar, trigger, first, fired) == At(Nth(first, Interval(trigger.configuration), |fired|))
  {
    NthNext(first, Interval(trigger.configuration), if fired == [] then 0 else |fired| - 1);
    hide Nth;
    if fired != [] {
      var n := |fired| - 1;
      var front := fired[..n];
      assert Consecutive(calendar, trigger, first, front) by {
        forall k | 0 <= k < |front|
          ensures Upcoming(calendar, trigger, first, front[..k]) == At(front[k])
        {
          assert front[..k] == fired[..k];
        }
      }
      IntervalOccurrences(calendar, trigger, first, front);
      IntervalMovesOn(calendar, trigger, fired[n]);
      hide Interval, RegistersInterval, IsInterval;
      assert Upcoming(calendar, trigger, first, front) == At(fired[n]);
    }
  }

  /** For an interval trigger, the next run is the first occurrence plus one interval for every workflow execution
    * it has created. */
  lemma IntervalNeverSkips(calendar: Calendar, lease: Time, now: Time, steps: seq<PlatformStep>, id: Uuid)
    requires RegistersInterval(calendar) && Runs(calendar, lease, Empty(now), steps)
    requires var p := Final(calendar, Empty(now), steps); id in p.first && id in p.triggers && IsInterval(p.triggers[id])
    ensures var p := Final(calendar, Empty(now), steps);
            var interval, fired := Interval(p.triggers[id].configuration), Fired(p.log, id);
            && id in p.schedule
            && p.schedule[id] == Nth(p.first[id], interval, |CreatedBy(p.log, id)|)
            && forall k | 0 <= k < |fired| :: fired[k] == Nth(p.first[id], interval, k)
  {
    hide Runs, Final, RegistersInterval, Nth, Interval;
    OneExecutionPerOccurrence(calendar, lease, now, steps, id);
    var p := Final(calendar, Empty(now), steps);
    IntervalOccurrences(calendar, p.triggers[id], p.first[id], Fired(p.log, id));
    hide Upcoming, Consecutive;
  }
}
