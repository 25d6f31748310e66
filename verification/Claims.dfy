/** Claims over whole runs of the platform: every run is, seen from the queue, a run of the queue machine,
  * so what holds of all queue runs holds of the workers. */
module Claims {
  import opened Domain
  import opened Settings
  import opened ExecutionStore
  import opened Protocol
  import opened ProtocolInvariant
  import opened Guarantees
  import Q = QueueModel

  /******* Projection *******/

  /** The queue sessions of a run, in order. */
  ghost function QueueTrace(s: System, steps: seq<Step>): seq<Q.QueueStep>
    decreases steps
  {
    if steps == [] then [] else QueueSteps(s, steps[0]) + QueueTrace(Apply(s, steps[0]), steps[1..])
  }

  lemma SessionEnabled(lease: Time, s: System, step: Step)
    requires Enabled(lease, s, step) && QueueSteps(s, step) != []
    ensures Q.Enabled(lease, s.queue, QueueSteps(s, step)[0])
  {
  }

  lemma {:induction false} RunsProject(lease: Time, s: System, steps: seq<Step>)
    requires Run(lease, s, steps)
    ensures Q.Run(lease, s.queue, QueueTrace(s, steps))
    ensures Q.After(s.queue, QueueTrace(s, steps)) == After(s, steps).queue
    decreases steps
  {
    if steps != [] {
      var next := Apply(s, steps[0]);
      var rest, all := QueueTrace(next, steps[1..]), QueueTrace(s, steps);
      OneSession(s, steps[0]);
      RunsProject(lease, next, steps[1..]);
      if QueueSteps(s, steps[0]) != [] {
        SessionEnabled(lease, s, steps[0]);
        assert all[0] == QueueSteps(s, steps[0])[0] && all[1..] == rest;
      } else {
        assert all == rest;
      }
    }
  }

  /******* Stale claims *******/

  /** Whatever a worker with a superseded claim still does, now or at any later time, the queue does not change,
    * and its next heartbeat tells it so. */
  lemma StaleWorkersAreHarmless(lease: Time, s: System, steps: seq<Step>, worker: Uuid)
    requires Run(lease, s, steps) && Busy(After(s, steps), worker)
    requires Q.Dead(s.queue, After(s, steps).workers[worker].claim)
    ensures var later := After(s, steps);
            && Q.Dead(later.queue, later.workers[worker].claim)
            && Apply(later, Renew(worker)).queue == later.queue
            && !Apply(later, Renew(worker)).workers[worker].trusted
            && Apply(later, Dispose(worker)).queue == later.queue
  {
    var later := After(s, steps);
    hide Run, After, Q.Run, Q.After;
    RunsProject(lease, s, steps);
    Q.StaleClaimsStayDead(lease, s.queue, QueueTrace(s, steps), later.workers[worker].claim);
    OneSession(later, Renew(worker));
    OneSession(later, Dispose(worker));
    hide Q.Inserted;
  }

  /******* One holder *******/

  /** Every worker's token was issued, and no two workers share one. */
  ghost predicate TokensOk(issued: set<Uuid>, workers: map<Uuid, Worker>) {
    && (forall w | w in workers :: workers[w].claim.claimToken in issued)
    && (forall a, b | a in workers && b in workers && a != b ::
          workers[a].claim.claimToken != workers[b].claim.claimToken)
  }

  lemma SessionIssues(s: System, step: Step)
    ensures s.queue.issued <= Apply(s, step).queue.issued
    ensures step.ClaimTask? && step.id in s.queue.entries ==> step.token in Apply(s, step).queue.issued
  {
    OneSession(s, step);
  }

  lemma WorkersKeepClaims(s: System, step: Step)
    requires !step.ClaimTask?
    ensures forall w | w in WorkersAfter(s, step) :: w in s.workers && WorkersAfter(s, step)[w].claim == s.workers[w].claim
  {
    hide CommitResult, Q.Holds;
  }

  lemma StepKeepsTokens(lease: Time, s: System, step: Step)
    requires TokensOk(s.queue.issued, s.workers) && Enabled(lease, s, step)
    ensures TokensOk(Apply(s, step).queue.issued, Apply(s, step).workers)
  {
    SessionIssues(s, step);
    if !step.ClaimTask? {
      WorkersKeepClaims(s, step);
      hide Enabled, WorkersAfter;
    }
    hide StoreAfter, QueueSteps;
  }

  lemma {:induction false} RunKeepsTokens(lease: Time, s: System, steps: seq<Step>)
    requires TokensOk(s.queue.issued, s.workers) && Run(lease, s, steps)
    ensures TokensOk(After(s, steps).queue.issued, After(s, steps).workers)
    decreases steps
  {
    hide TokensOk, Enabled, Apply;
    if steps != [] {
      StepKeepsTokens(lease, s, steps[0]);
      RunKeepsTokens(lease, Apply(s, steps[0]), steps[1..]);
    }
  }

  lemma ReachableTokens(lease: Time, s: System)
    requires Reachable(lease, s)
    ensures TokensOk(s.queue.issued, s.workers)
  {
    hide Run, After, Initial;
    var now, steps :| Run(lease, Initial(now), steps) && s == After(Initial(now), steps);
    assert TokensOk(Initial(now).queue.issued, Initial(now).workers) by {
      InitialTokens(now);
    }
    RunKeepsTokens(lease, Initial(now), steps);
  }

  lemma InitialTokens(now: Time)
    ensures TokensOk(Initial(now).queue.issued, Initial(now).workers)
  {
  }

  /** However many workers execute a task at once, at most one of them can still renew, release or finish it. */
  lemma OneHolder(lease: Time, s: System, a: Uuid, b: Uuid)
    requires Reachable(lease, s) && Busy(s, a) && Busy(s, b)
    requires s.workers[a].claim.taskExecutionId == s.workers[b].claim.taskExecutionId
    requires Q.Holds(s.queue.entries, s.workers[a].claim) && Q.Holds(s.queue.entries, s.workers[b].claim)
    ensures a == b
  {
    hide Reachable;
    ReachableTokens(lease, s);
  }

  /******* First in, first out *******/

  /** While a task can be claimed and nobody takes it, it keeps its place, and every claim the platform makes
    * takes a task queued no later. */
  lemma NobodyOvertakes(lease: Time, s: System, steps: seq<Step>, id: Uuid)
    requires Run(lease, s, steps) && Q.AllLeaveAlone(s.queue, QueueTrace(s, steps), id)
    requires id in s.queue.entries && Q.Claimable(s.queue.entries[id], s.queue.clock - lease)
    ensures var later := After(s, steps).queue;
            && id in later.entries
            && later.entries[id].queuedAt == s.queue.entries[id].queuedAt
            && Q.Claimable(later.entries[id], later.clock - lease)
    ensures Q.ClaimsUpTo(s.queue, QueueTrace(s, steps), s.queue.entries[id].queuedAt)
  {
    hide Run, After, Q.Run, Q.After;
    RunsProject(lease, s, steps);
    Q.NoOvertaking(lease, s.queue, QueueTrace(s, steps), id);
  }

  /** The platform step makes `id` an entry, within one queue session. */
  ghost predicate Arrives(s: System, step: Step, id: Uuid) {
    id !in s.queue.entries && id in Apply(s, step).queue.entries
  }

  lemma ArrivalIsSession(s: System, step: Step, id: Uuid)
    requires Arrives(s, step, id)
    ensures |QueueSteps(s, step)| == 1 && Q.Queues(s.queue, QueueSteps(s, step)[0], id)
    ensures Apply(s, step).queue == Q.Apply(s.queue, QueueSteps(s, step)[0])
  {
    OneSession(s, step);
  }

  lemma {:induction false} NeverClaimed(s: System, steps: seq<Step>, id: Uuid)
    requires Q.NeverClaims(QueueTrace(s, steps), id)
    ensures forall step | step in steps :: !(step.ClaimTask? && step.id == id)
    decreases steps
  {
    if steps != [] {
      var head, tail := QueueSteps(s, steps[0]), QueueTrace(Apply(s, steps[0]), steps[1..]);
      assert forall q | q in tail :: q in head + tail;
      NeverClaimed(Apply(s, steps[0]), steps[1..], id);
      assert forall q | q in head :: q in head + tail;
      if steps[0].ClaimTask? {
        assert head[0] == Q.ClaimNext(steps[0].worker, steps[0].id, steps[0].token);
        assert head[0] in head;
      }
      assert steps == [steps[0]] + steps[1..];
    }
  }

  /** First come, first served over whole runs: whichever starts, finished tasks and reconciliations bring them,
    * a task that arrived at a later time is not claimed while an earlier arrival is left waiting. */
  lemma FirstComeFirstServed(
    lease: Time, s: System, arrival: Step, between: seq<Step>, later: Step, rest: seq<Step>, id: Uuid, younger: Uuid)
    requires Arrives(s, arrival, id)
    requires var first := Apply(s, arrival);
             && Run(lease, first, between) && Q.AllLeaveAlone(first.queue, QueueTrace(first, between), id)
             && var second := After(first, between);
                && second.queue.clock > s.queue.clock && Arrives(second, later, younger)
                && Q.AllLeaveAlone(second.queue, QueueSteps(second, later), id)
                && var third := Apply(second, later);
                   Run(lease, third, rest) && Q.AllLeaveAlone(third.queue, QueueTrace(third, rest), id)
    ensures forall step | step in rest :: !(step.ClaimTask? && step.id == younger)
  {
    var first := Apply(s, arrival);
    var second := After(first, between);
    var third := Apply(second, later);
    ArrivalIsSession(s, arrival, id);
    ArrivalIsSession(second, later, younger);
    var session := QueueSteps(second, later);
    assert Q.LeavesAlone(second.queue, session[0], id);
    hide Run, After, Apply, QueueSteps, Q.Run, Q.After, Q.Apply, Q.AllLeaveAlone, Q.LeavesAlone, Q.Queues, Q.NeverClaims;
    RunsProject(lease, first, between);
    RunsProject(lease, third, rest);
    Q.LaterArrivalsWait(lease, s.queue, QueueSteps(s, arrival)[0], QueueTrace(first, between), session[0],
                        QueueTrace(third, rest), id, younger);
    NeverClaimed(third, rest, younger);
  }

  /******* Disposing of a processed claim *******/

  /** What the worker does with its claim at the end. Without trust, or with a claim that was lost, nothing; after a
    * failed attempt that leaves tries, it frees the entry in its place; otherwise it replaces the entry by the ids
    * reported, each free and queued now. */
  lemma DisposalIsExact(s: System, worker: Uuid)
    requires Busy(s, worker) && s.workers[worker].phase.Committed?
    ensures var w, after := s.workers[worker], Apply(s, Dispose(worker));
            var id, before, ids := w.claim.taskExecutionId, s.queue.entries, w.phase.outcome.enqueueTaskIds;
            && after.store == s.store && worker !in after.workers && after.queue.clock == s.queue.clock
            && if !w.trusted || !Q.Holds(before, w.claim) then
                 after.queue == s.queue
               else if w.phase.outcome.shouldRetry then
                 && after.queue.entries.Keys == before.Keys
                 && Q.FreeSince(after.queue.entries[id], before[id].queuedAt)
                 && forall x | x in before && x != id :: after.queue.entries[x] == before[x]
               else
                 && (forall x :: x in after.queue.entries <==> (x in before && x != id) || x in ids)
                 && (forall x | x in before && x != id :: after.queue.entries[x] == before[x])
                 && (forall x | x in ids && (x !in before || x == id) :: Q.FreeSince(after.queue.entries[x], s.queue.clock))
  {
    var w := s.workers[worker];
    OneSession(s, Dispose(worker));
    hide Q.Apply;
    Q.LeaseSessionsAreExact(s.queue, w.claim, w.phase.outcome.enqueueTaskIds);
    if Q.Holds(s.queue.entries, w.claim) {
      Q.FinishIsExact(s.queue, w.claim, w.phase.outcome.enqueueTaskIds);
    }
    hide Q.FreeSince, Q.Holds;
  }

  /** A trusted worker that still holds its claim hands on the work: its own task is over and off the queue, and
    * every task it reports is stored, ready and queued. */
  lemma FinishingHandsOn(lease: Time, s: System, worker: Uuid)
    requires Reachable(lease, s) && Busy(s, worker) && s.workers[worker].phase.Committed?
    requires s.workers[worker].trusted && Q.Holds(s.queue.entries, s.workers[worker].claim)
    requires !s.workers[worker].phase.outcome.shouldRetry
    ensures var w, after := s.workers[worker], Apply(s, Dispose(worker));
            var id, ids := w.claim.taskExecutionId, w.phase.outcome.enqueueTaskIds;
            && id in after.store.tasks && after.store.tasks[id].Terminal()
            && (id !in ids ==> id !in after.queue.entries)
            && forall x | x in ids :: x in after.queue.entries && Ready(after.store.tasks, x)
  {
    ReachableInv(lease, s);
    hide Reachable;
    DisposalIsExact(s, worker);
    ClaimedReady(s, worker);
    hide Inv, Apply, Q.FreeSince, Q.Holds;
  }

  /******* Punctual workers keep their claim *******/

  /** The worker is processing throughout, and each of its heartbeats comes less than two intervals after the
    * moment it was scheduled for. */
  ghost predicate StaysPunctual(interval: Time, s: System, steps: seq<Step>, worker: Uuid, lastBeat: Time)
    decreases steps
  {
    steps == [] || (
      var step, next, rest := steps[0], Apply(s, steps[0]), steps[1..];
      match step
      case Wait(now) =>
        now < (lastBeat + interval) + 2.0 * interval && StaysPunctual(interval, next, rest, worker, lastBeat)
      case Renew(w) => StaysPunctual(interval, next, rest, worker, if w == worker then s.queue.clock else lastBeat)
      case Dispose(w) => w != worker && StaysPunctual(interval, next, rest, worker, lastBeat)
      case Crash(w) => w != worker && StaysPunctual(interval, next, rest, worker, lastBeat)
      case _ => StaysPunctual(interval, next, rest, worker, lastBeat))
  }

  /** No step but its own end, or an error at the start of processing, takes the claim out of a worker's hands. */
  lemma KeepsWorking(lease: Time, s: System, step: Step, worker: Uuid)
    requires Inv(s) && Enabled(lease, s, step) && Busy(s, worker)
    requires step != Dispose(worker) && step != Crash(worker)
    ensures Busy(Apply(s, step), worker) && Apply(s, step).workers[worker].claim == s.workers[worker].claim
  {
    NoErrorNoTheft(lease, s, step, worker);
    hide Inv, Enabled, StoreAfter, QueueSteps, PublishersAfter, WorkersAfter;
    WorkerRemains(s, step, worker);
  }

  lemma NoErrorNoTheft(lease: Time, s: System, step: Step, worker: Uuid)
    requires Inv(s) && Enabled(lease, s, step) && Busy(s, worker)
    ensures step.Begin? && step.worker == worker ==> !step.started.MissingParentOutput?
    ensures step.ClaimTask? ==> step.worker != worker
  {
    hide Inv, Enabled;
    NoMissingOutput(lease, s, worker);
    if step.ClaimTask? {
      ClaimsWhenIdle(lease, s, step);
    }
  }

  lemma ClaimsWhenIdle(lease: Time, s: System, step: Step)
    requires step.ClaimTask? && Enabled(lease, s, step)
    ensures !Busy(s, step.worker)
  {
  }

  lemma WorkerRemains(s: System, step: Step, worker: Uuid)
    requires Busy(s, worker) && step != Dispose(worker) && step != Crash(worker)
    requires step.Begin? && step.worker == worker ==> !step.started.MissingParentOutput?
    requires step.ClaimTask? ==> step.worker != worker
    ensures worker in WorkersAfter(s, step) && WorkersAfter(s, step)[worker].claim == s.workers[worker].claim
  {
    hide CommitResult, Q.Holds;
  }

  lemma {:induction false} PunctualTrace(timing: Timing, s: System, steps: seq<Step>, worker: Uuid, lastBeat: Time)
    requires Inv(s) && TokensOk(s.queue.issued, s.workers) && Run(timing.queueLeaseTimeout, s, steps)
    requires Busy(s, worker) && StaysPunctual(timing.workerHeartbeatInterval, s, steps, worker, lastBeat)
    ensures Busy(After(s, steps), worker) && After(s, steps).workers[worker].claim == s.workers[worker].claim
    ensures Q.Punctual(timing.workerHeartbeatInterval, s.queue, QueueTrace(s, steps), s.workers[worker].claim, lastBeat)
    decreases steps
  {
    if steps != [] {
      var lease, step, next := timing.queueLeaseTimeout, steps[0], Apply(s, steps[0]);
      var beat := if step == Renew(worker) then s.queue.clock else lastBeat;
      StepKeepsInv(lease, s, step);
      StepKeepsTokens(lease, s, step);
      KeepsWorking(lease, s, step, worker);
      PunctualTrace(timing, next, steps[1..], worker, beat);
      PunctualStep(timing.workerHeartbeatInterval, s, step, worker, lastBeat, QueueTrace(next, steps[1..]));
    }
  }

  /** What the step means for the lease of `worker`, given that the rest of the run is punctual. */
  lemma PunctualStep(interval: Time, s: System, step: Step, worker: Uuid, lastBeat: Time, rest: seq<Q.QueueStep>)
    requires TokensOk(s.queue.issued, s.workers) && Busy(s, worker)
    requires step.Renew? ==> Busy(s, step.worker)
    requires step != Dispose(worker)
    requires step.Wait? ==> step.now < (lastBeat + interval) + 2.0 * interval
    requires Q.Punctual(interval, Apply(s, step).queue, rest, s.workers[worker].claim,
                        if step == Renew(worker) then s.queue.clock else lastBeat)
    ensures Q.Punctual(interval, s.queue, QueueSteps(s, step) + rest, s.workers[worker].claim, lastBeat)
  {
    OneSession(s, step);
    var session := QueueSteps(s, step);
    if session == [] {
      assert session + rest == rest;
    } else {
      assert (session + rest)[0] == session[0] && (session + rest)[1..] == rest;
    }
  }

  /** With accepted timing, a worker whose heartbeats are punctual is never reclaimed while it is processing,
    * whatever every other worker, starter and reconciler does. */
  lemma PunctualWorkerKeepsClaim(timing: Timing, s: System, steps: seq<Step>, worker: Uuid, lastBeat: Time)
    requires ValidTiming(timing)
    requires Reachable(timing.queueLeaseTimeout, s) && Run(timing.queueLeaseTimeout, s, steps) && Busy(s, worker)
    requires Q.BeatsAt(s.queue, s.workers[worker].claim, lastBeat)
    requires s.queue.clock < lastBeat + 3.0 * timing.workerHeartbeatInterval
    requires StaysPunctual(timing.workerHeartbeatInterval, s, steps, worker, lastBeat)
    ensures Busy(After(s, steps), worker)
    ensures Q.Holds(After(s, steps).queue.entries, After(s, steps).workers[worker].claim)
  {
    hide Reachable, Run, After, Inv, TokensOk, StaysPunctual, Q.Run, Q.After, Q.Punctual;
    ReachableInv(timing.queueLeaseTimeout, s);
    ReachableTokens(timing.queueLeaseTimeout, s);
    RunsProject(timing.queueLeaseTimeout, s, steps);
    PunctualTrace(timing, s, steps, worker, lastBeat);
    Q.PunctualKeepsLease(timing, s.queue, QueueTrace(s, steps), s.workers[worker].claim, lastBeat);
  }

  /** Claiming is itself the first heartbeat. */
  lemma ClaimingBeats(lease: Time, s: System, step: Step)
    requires Enabled(lease, s, step) && step.ClaimTask?
    ensures var next := Apply(s, step);
            Busy(next, step.worker) && Q.BeatsAt(next.queue, next.workers[step.worker].claim, next.queue.clock)
  {
    OneSession(s, step);
  }
}
