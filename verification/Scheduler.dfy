/** The scheduler between two waits: it processes occurrences until nothing is due. */
module SchedulerRuntime {
  import opened Domain
  import opened Triggers
  import opened TriggerRepository
  import opened WorkflowStart
  import opened Scheduling
  import opened Quotas
  import opened ChronologicalTriggers
  import Protocol

  /** Every enabled trigger belongs to an enabled workflow. */
  ghost predicate AllStartable(p: Platform) {
    forall id | Ticking(p.triggers, id) :: Startable(p.system.definitions, p.triggers[id].workflowDefinitionId)
  }

  lemma {:induction false} RunsAppend(
    calendar: Calendar, lease: Time, p: Platform, a: seq<PlatformStep>, b: seq<PlatformStep>)
    requires Runs(calendar, lease, p, a) && Runs(calendar, lease, Final(calendar, p, a), b)
    ensures Runs(calendar, lease, p, a + b) && Final(calendar, p, a + b) == Final(calendar, Final(calendar, p, a), b)
    decreases a
  {
    hide Allows, Take;
    if a == [] {
      assert a + b == b;
    } else {
      RunsAppend(calendar, lease, Take(calendar, p, a[0]), a[1..], b);
      assert (a + b)[0] == a[0] && (a + b)[1..] == a[1..] + b;
    }
  }

  /** What one processed occurrence changes, apart from the tables of executions. */
  lemma FireEffect(calendar: Calendar, lease: Time, p: Platform, steps: seq<PlatformStep>)
    requires Runs(calendar, lease, p, steps) && |steps| == 2
    requires steps[0].Fire? && steps[1].Internal? && steps[1].step.Publish?
    ensures var after, id := Final(calendar, p, steps), steps[0].trigger;
            && after.triggers == p.triggers && after.system.definitions == p.system.definitions
            && id in p.triggers && id in p.schedule
            && after.schedule == Advanced(p.schedule, id, NextRun(calendar, p.triggers[id], p.schedule[id]))
            && |after.log| == |p.log| + 1 && after.log[..|p.log|] == p.log
            && after.log[|p.log|].trigger == id && after.log[|p.log|].occurrence == p.schedule[id]
  {
    var fired := Take(calendar, p, steps[0]);
    assert steps[1..][1..] == [] && steps[1..][0] == steps[1];
    assert Final(calendar, p, steps) == Final(calendar, fired, steps[1..]);
    assert Final(calendar, fired, steps[1..]) == Final(calendar, Take(calendar, fired, steps[1]), []);
    assert Allows(calendar, lease, p, steps[0]);
    hide Protocol.WorkersAfter, Protocol.PublishersAfter, Protocol.StoreAfter, Protocol.QueueSteps, Protocol.Enabled;
  }

  lemma EarliestIsDue(triggers: TriggerTable, schedule: Schedule, now: Time, id: Uuid)
    requires EarliestDue(triggers, schedule, now, id)
    ensures Due(triggers, schedule, now, id)
  {
  }

  lemma AdvancedByInterval(calendar: Calendar, triggers: TriggerTable, schedule: Schedule, now: Time, id: Uuid)
    requires RegistersInterval(calendar) && AllIntervals(triggers) && Due(triggers, schedule, now, id)
    ensures Advanced(schedule, id, NextRun(calendar, triggers[id], schedule[id]))
         == schedule[id := schedule[id] + IntervalOf(triggers, id)]
  {
    IntervalMovesOn(calendar, triggers[id], schedule[id]);
  }

  /** One firing of a draining scheduler, seen from the moment it began. */
  lemma FireDrains(calendar: Calendar, lease: Time, p: Platform, q: Platform, steps: seq<PlatformStep>,
                   now: Time, drained: seq<Firing>, ids: seq<Uuid>)
    returns (f: Firing)
    requires RegistersInterval(calendar) && AllIntervals(p.triggers) && q.triggers == p.triggers
    requires Draining(p.triggers, p.schedule, q.schedule, now, drained)
    requires Runs(calendar, lease, q, steps) && |steps| == 2
    requires steps[0].Fire? && steps[1].Internal? && steps[1].step.Publish?
    requires EarliestDue(p.triggers, q.schedule, now, steps[0].trigger)
    requires NoDuplicates(ids) && steps[0].trigger in ids
    ensures var after := Final(calendar, q, steps);
            && after.log == q.log + [f]
            && after.triggers == p.triggers && after.system.definitions == q.system.definitions
            && Draining(p.triggers, p.schedule, after.schedule, now, drained + [f])
            && TotalOwed(p.triggers, after.schedule, now, ids) < TotalOwed(p.triggers, q.schedule, now, ids)
  {
    hide Draining, AllIntervals, Runs, Final, RegistersInterval, IntervalOf, Owed, TotalOwed, EarliestDue, Advanced, NextRun;
    var after, id := Final(calendar, q, steps), steps[0].trigger;
    FireEffect(calendar, lease, q, steps);
    f := after.log[|q.log|];
    assert after.log == after.log[..|q.log|] + [f];
    EarliestIsDue(p.triggers, q.schedule, now, id);
    AdvancedByInterval(calendar, p.triggers, q.schedule, now, id);
    FireServes(p.triggers, p.schedule, q.schedule, now, drained, id, f);
    OwedFalls(p.triggers, q.schedule, now, id);
    TotalFalls(p.triggers, q.schedule, after.schedule, now, ids, id);
  }

  class Scheduler {
    const service: ChronologicalTriggerService

    constructor (service: ChronologicalTriggerService)
      ensures this.service == service
    {
      this.service := service;
    }

    /** Terminates; serves every due trigger what it owes and no other trigger anything, in order of time and id. */
    method Drain(now: Time, ghost lease: Time, ghost p: Platform, ghost publisher: Uuid)
      returns (ghost steps: seq<PlatformStep>, ghost drained: seq<Firing>)
      requires service.starts.Valid() && ShowsPlatform(p, service.starts, now) && publisher !in p.system.publishers
      requires RegistersInterval(service.calendar) && AllIntervals(p.triggers) && AllStartable(p)
      modifies service.starts.database`store, service.starts.database`schedule
      modifies service.starts.queue`entries, service.starts.uuids
      ensures service.starts.Valid()
      ensures ShowsPlatform(Final(service.calendar, p, steps), service.starts, now)
      ensures DrainsTo(service.calendar, lease, p, steps, drained, now)
      ensures NothingDue(p.triggers, Final(service.calendar, p, steps).schedule, now)
    {
      steps, drained := [], [];
      ghost var q, ids := p, Enumerated(p.schedule.Keys);
      var calendar, more := service.calendar, true;
      DrainingStarts(calendar, lease, p, now);
      hide Runs, Final, TotalOwed, AllIntervals, NothingDue, EarliestDue, Outcome, Shows, AllWellFormed, AllIssued, DrainsTo;
      while more
        invariant service.starts.Valid() && ShowsPlatform(q, service.starts, now) && publisher !in q.system.publishers
        invariant DrainsTo(calendar, lease, p, steps, drained, now) && q == Final(calendar, p, steps)
        invariant !more ==> NothingDue(p.triggers, q.schedule, now)
        decreases TotalOwed(p.triggers, q.schedule, now, ids), more
      {
        var r, taken := service.ProcessNextDue(now, true, lease, q, publisher);
        DrainsOn(calendar, lease, p, steps, drained, now, q, r, taken, ids);
        more := r == Success(true);
        if more {
          drained := drained + Final(calendar, q, taken).log[|q.log|..];
        }
        steps, q := steps + taken, Final(calendar, q, taken);
      }
    }
  }

  /** What a drain has done so far to a platform it found in state `p`. */
  ghost predicate DrainsTo(
    calendar: Calendar, lease: Time, p: Platform, steps: seq<PlatformStep>, drained: seq<Firing>, now: Time)
    requires AllIntervals(p.triggers)
  {
    var q := Final(calendar, p, steps);
    && Runs(calendar, lease, p, steps)
    && q.log == p.log + drained
    && q.triggers == p.triggers && q.system.definitions == p.system.definitions
    && Draining(p.triggers, p.schedule, q.schedule, now, drained)
  }

  lemma DrainingStarts(calendar: Calendar, lease: Time, p: Platform, now: Time)
    requires AllIntervals(p.triggers)
    ensures DrainsTo(calendar, lease, p, [], [], now) && Final(calendar, p, []) == p
  {
    forall id | id in p.schedule && Ticking(p.triggers, id)
      ensures p.schedule[id] == Nth(p.schedule[id], IntervalOf(p.triggers, id), 0)
    {
      NthNext(p.schedule[id], IntervalOf(p.triggers, id), 0);
    }
  }

  /** While draining, whatever is due can be processed. */
  lemma ProcessingSucceeds(calendar: Calendar, p: Platform, q: Platform, now: Time, id: Uuid)
    requires RegistersInterval(calendar) && AllIntervals(p.triggers) && AllStartable(p)
    requires q.triggers == p.triggers && q.system.definitions == p.system.definitions
    requires EarliestDue(p.triggers, q.schedule, now, id)
    ensures Outcome(calendar, q, id, true) == Success(true)
  {
    assert IsInterval(p.triggers[id]);
    IntervalMovesOn(calendar, p.triggers[id], q.schedule[id]);
    assert Ticking(p.triggers, id);
  }

  /** One more call of a draining scheduler: it ends the drain, or serves one occurrence and leaves less owed. */
  lemma DrainsOn(
    calendar: Calendar, lease: Time, p: Platform, steps: seq<PlatformStep>, drained: seq<Firing>, now: Time,
    q: Platform, r: Result<bool, ProcessError>, taken: seq<PlatformStep>, ids: seq<Uuid>)
    requires RegistersInterval(calendar) && AllIntervals(p.triggers) && AllStartable(p) && ids == Enumerated(p.schedule.Keys)
    requires DrainsTo(calendar, lease, p, steps, drained, now) && q == Final(calendar, p, steps)
    requires Runs(calendar, lease, q, taken)
    requires r == Success(false) ==> NothingDue(q.triggers, q.schedule, now)
    requires r != Success(false) ==>
               exists id :: EarliestDue(q.triggers, q.schedule, now, id) && r == Outcome(calendar, q, id, true)
    requires !Processed(r) ==> taken == []
    requires Processed(r) ==>
               && |taken| == 2 && taken[0].Fire? && taken[1].Internal? && taken[1].step.Publish?
               && EarliestDue(q.triggers, q.schedule, now, taken[0].trigger)
    ensures r.Success? && Final(calendar, p, steps + taken) == Final(calendar, q, taken)
    ensures r == Success(false) ==>
              && steps + taken == steps && Final(calendar, q, taken) == q
              && NothingDue(p.triggers, q.schedule, now)
    ensures r == Success(true) ==>
              var after := Final(calendar, q, taken);
              && |after.log| >= |q.log|
              && DrainsTo(calendar, lease, p, steps + taken, drained + after.log[|q.log|..], now)
              && TotalOwed(p.triggers, after.schedule, now, ids) < TotalOwed(p.triggers, q.schedule, now, ids)
  {
    hide Draining, AllIntervals, Runs, RegistersInterval, NothingDue, AllStartable, TotalOwed, Outcome;
    if r == Success(false) {
      assert steps + taken == steps;
    } else {
      var id :| EarliestDue(q.triggers, q.schedule, now, id) && r == Outcome(calendar, q, id, true);
      ProcessingSucceeds(calendar, p, q, now, id);
      hide Final, EarliestDue;
      DrainStaysWithin(p, q, now, drained, taken[0].trigger);
      RunsAppend(calendar, lease, p, steps, taken);
      var f := FireDrains(calendar, lease, p, q, taken, now, drained, ids);
      assert Final(calendar, q, taken).log[|q.log|..] == [f];
      assert Final(calendar, q, taken).log == p.log + (drained + [f]);
    }
  }

  lemma DrainStaysWithin(p: Platform, q: Platform, now: Time, drained: seq<Firing>, id: Uuid)
    requires AllIntervals(p.triggers) && Draining(p.triggers, p.schedule, q.schedule, now, drained)
    requires EarliestDue(p.triggers, q.schedule, now, id)
    ensures id in p.schedule
  {
  }

  /** A finished drain has fired each trigger floor((now - next_run) / interval) + 1 times if it was due, and no
    * other trigger; the firings come in order of time and trigger id. */
  lemma DrainCorrectness(
    calendar: Calendar, lease: Time, p: Platform, steps: seq<PlatformStep>, drained: seq<Firing>, now: Time, id: Uuid)
    requires AllIntervals(p.triggers) && DrainsTo(calendar, lease, p, steps, drained, now)
    requires NothingDue(p.triggers, Final(calendar, p, steps).schedule, now)
    ensures forall i, j | 0 <= i < j < |drained| ::
              || drained[i].occurrence < drained[j].occurrence
              || (drained[i].occurrence == drained[j].occurrence && drained[i].trigger <= drained[j].trigger)
    ensures |Fired(drained, id)| == (
              if Due(p.triggers, p.schedule, now, id)
              then ((now - p.schedule[id]) / IntervalOf(p.triggers, id)).Floor + 1
              else 0)
  {
    if id in p.schedule {
      hide Runs, Final, AllIntervals;
      DrainedIsPaid(p.triggers, p.schedule, Final(calendar, p, steps).schedule, now, drained, id);
    } else {
      UnloggedNeverFired(drained, id);
    }
  }
}
