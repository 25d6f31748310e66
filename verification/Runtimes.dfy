/** The long-running processes. What each of them does when nobody interferes is a run of the platform;
  * interference is what `Protocol` adds between the steps of such runs. */
module Runtimes {
  import opened Domain
  import opened ExecutionStore
  import opened ExecutionQueue
  import opened UnitsOfWork
  import opened WorkflowStart
  import opened TaskProcessing
  import opened ClaimEffects
  import opened Protocol
  import opened ProtocolInvariant
  import Q = QueueModel

  /******* Runs, one step at a time *******/

  lemma {:induction false} OneMoreStep(lease: Time, s: System, steps: seq<Step>, step: Step)
    requires Run(lease, s, steps) && Enabled(lease, After(s, steps), step)
    ensures Run(lease, s, steps + [step]) && After(s, steps + [step]) == Apply(After(s, steps), step)
    decreases steps
  {
    hide Enabled, Apply;
    if steps == [] {
      assert [step][1..] == [];
      assert After(s, [step]) == After(Apply(s, step), []);
      assert steps + [step] == [step];
    } else {
      OneMoreStep(lease, Apply(s, steps[0]), steps[1..], step);
      assert (steps + [step])[0] == steps[0] && (steps + [step])[1..] == steps[1..] + [step];
    }
  }

  lemma NoSteps(lease: Time, s: System)
    ensures Run(lease, s, []) && After(s, []) == s
  {
  }

  /** A run as it is being written down: it starts in `s`, has taken `steps` and stands in `q`. */
  ghost predicate Reaches(lease: Time, s: System, steps: seq<Step>, q: System) {
    Run(lease, s, steps) && q == After(s, steps)
  }

  lemma StepOn(lease: Time, s: System, steps: seq<Step>, q: System, step: Step)
    requires Reaches(lease, s, steps, q) && Enabled(lease, q, step)
    ensures Reaches(lease, s, steps + [step], Apply(q, step))
  {
    OneMoreStep(lease, s, steps, step);
  }

  /** Nobody but `worker` acts, and not by crashing unless it `may`. */
  ghost predicate OwnSteps(steps: seq<Step>, worker: Uuid, may: bool) {
    forall step | step in steps ::
      step.Wait? || (IsWorkerStep(step) && step.worker == worker && (step.Crash? ==> may))
  }

  /******* Single steps *******/

  lemma WaitStep(lease: Time, q: System, now: Time)
    requires now >= q.queue.clock
    ensures Enabled(lease, q, Wait(now)) && Apply(q, Wait(now)) == q.(queue := q.queue.(clock := now))
  {
    OneSession(q, Wait(now));
  }

  /** A worker's step, told by what it does to the store, the worker and the queue. */
  lemma WorkerStep(q: System, step: Step)
    requires IsWorkerStep(step) && Busy(q, step.worker)
    ensures var after, next := Apply(q, step), WorkerAfter(q, step, q.workers[step.worker]);
            && after.definitions == q.definitions && after.layouts == q.layouts && after.publishers == q.publishers
            && after.store == StoreAfter(q, step)
            && after.workers == (if next.Some? then q.workers[step.worker := next.value] else q.workers - {step.worker})
            && after.queue == (if QueueSteps(q, step) == [] then q.queue else Q.Apply(q.queue, QueueSteps(q, step)[0]))
  {
    OneSession(q, step);
    hide StoreAfter, QueueSteps, WorkerAfter;
  }

  /******* Processing a claim *******/

  ghost predicate HasWorker(q: System, id: Uuid, worker: Protocol.Worker) {
    id in q.workers && q.workers[id] == worker
  }

  ghost predicate Idle(q: System, id: Uuid) {
    id !in q.workers
  }

  /** What became of the claimed worker once `process` has returned or raised. */
  ghost predicate AfterProcess(
    before: System, q: System, id: Uuid, after: Store, r: Result<ProcessTaskResult, ProcessError>, claim: Claim)
  {
    && q.definitions == before.definitions && q.layouts == before.layouts && q.publishers == before.publishers
    && q.store == after
    && q.queue.entries == before.queue.entries && q.queue.issued == before.queue.issued
    && match r
       case Success(outcome) => HasWorker(q, id, Protocol.Worker(claim, true, Committed(outcome)))
       case Failure(_) => Idle(q, id)
  }

  /** Processing, taken alone, is a run: Begin, then Execute and Commit if there is something to execute. */
  lemma ProcessRuns(
    lease: Time, s: System, worker: Uuid, claim: Claim, executor: Executor, started: StartResult,
    completedAt: Time, after: Store, r: Result<ProcessTaskResult, ProcessError>)
    returns (steps: seq<Step>, q: System)
    requires HasWorker(s, worker, Protocol.Worker(claim, true, Claimed)) && completedAt >= s.queue.clock
    requires Starts(s.store, claim.taskExecutionId, s.queue.clock, started)
    requires ProcessedAs(executor, s.store, claim.taskExecutionId, started, s.queue.clock, completedAt, after, r)
    ensures Reaches(lease, s, steps, q) && AfterProcess(s, q, worker, after, r, claim)
    ensures q.queue.clock <= completedAt
    ensures OwnSteps(steps, worker, r == Failure(PluginRaised))
  {
    NoSteps(lease, s);
    var begin := Begin(worker, started);
    StepOn(lease, s, [], s, begin);
    WorkerStep(s, begin);
    steps, q := [] + [begin], Apply(s, begin);
    hide Reaches, Starts, ExecutionStore.StartTask, CommitResult;
    if started.Processable? {
      var answer := executor(started.pluginType, ContextOf(started));
      var begun := Protocol.Worker(claim, true, Executing(started.pluginType, ContextOf(started)));
      assert HasWorker(q, worker, begun);
      if answer.None? {
        steps, q := Crashes(lease, s, steps, q, worker);
      } else {
        steps, q := ExecutesAndCommits(lease, s, steps, q, worker, begun, answer.value, completedAt);
      }
    }
  }

  lemma Crashes(lease: Time, s: System, before: seq<Step>, start: System, worker: Uuid)
    returns (steps: seq<Step>, q: System)
    requires Reaches(lease, s, before, start) && Busy(start, worker)
    ensures Reaches(lease, s, steps, q) && q == start.(workers := start.workers - {worker})
    ensures steps == before + [Crash(worker)]
  {
    WorkerStep(start, Crash(worker));
    StepOn(lease, s, before, start, Crash(worker));
    steps, q := before + [Crash(worker)], Apply(start, Crash(worker));
  }

  lemma ExecutesAndCommits(
    lease: Time, s: System, before: seq<Step>, start: System, worker: Uuid, begun: Protocol.Worker,
    result: TaskResult, completedAt: Time)
    returns (steps: seq<Step>, q: System)
    requires Reaches(lease, s, before, start) && HasWorker(start, worker, begun) && begun.phase.Executing?
    requires completedAt >= start.queue.clock
    ensures Reaches(lease, s, steps, q)
    ensures steps == before + [Execute(worker, result)] + [Wait(completedAt)] + [Commit(worker)]
    ensures var (after, outcome) := CommitResult(start.store, begun.claim.taskExecutionId, result, completedAt);
            q == start.(store := after, queue := start.queue.(clock := completedAt),
                        workers := start.workers[worker := begun.(phase := Committed(outcome))])
  {
    hide Reaches, CommitResult;
    var execute, wait, commit := Execute(worker, result), Wait(completedAt), Commit(worker);
    WorkerStep(start, execute);
    StepOn(lease, s, before, start, execute);
    var executed := Apply(start, execute);
    WaitStep(lease, executed, completedAt);
    StepOn(lease, s, before + [execute], executed, wait);
    var late := Apply(executed, wait);
    WorkerStep(late, commit);
    StepOn(lease, s, before + [execute] + [wait], late, commit);
    steps, q := before + [execute] + [wait] + [commit], Apply(late, commit);
  }

  /** After processing: the heartbeat thread may have withdrawn its trust; then the claim is disposed of. */
  lemma DisposalRuns(lease: Time, s: System, before: seq<Step>, start: System, worker: Uuid, claim: Claim,
                     outcome: ProcessTaskResult, untrusted: bool, finishedAt: Time)
    returns (steps: seq<Step>, q: System)
    requires Reaches(lease, s, before, start) && finishedAt >= start.queue.clock
    requires HasWorker(start, worker, Protocol.Worker(claim, true, Committed(outcome)))
    ensures Reaches(lease, s, steps, q) && Idle(q, worker)
    ensures q.definitions == start.definitions && q.store == start.store
    ensures q.queue == start.queue.(
              clock := finishedAt,
              entries := Disposed(start.queue.entries, claim, Success(outcome), untrusted, finishedAt))
    ensures forall may | OwnSteps(before, worker, may) :: OwnSteps(steps, worker, may)
  {
    hide Reaches, Q.Finished, Q.Released;
    steps, q := before, start;
    if untrusted {
      WorkerStep(q, LoseTrust(worker));
      StepOn(lease, s, steps, q, LoseTrust(worker));
      steps, q := steps + [LoseTrust(worker)], Apply(q, LoseTrust(worker));
    }
    WaitStep(lease, q, finishedAt);
    StepOn(lease, s, steps, q, Wait(finishedAt));
    steps, q := steps + [Wait(finishedAt)], Apply(q, Wait(finishedAt));
    WorkerStep(q, Dispose(worker));
    StepOn(lease, s, steps, q, Dispose(worker));
    steps, q := steps + [Dispose(worker)], Apply(q, Dispose(worker));
  }

  class Worker {
    const id: Uuid
    const queue: PostgresExecutionQueue
    const processing: TaskProcessingService

    constructor (id: Uuid, queue: PostgresExecutionQueue, processing: TaskProcessingService)
      ensures this.id == id && this.queue == queue && this.processing == processing
    {
      this.id, this.queue, this.processing := id, queue, processing;
    }

    /** `untrusted` says whether the heartbeat thread has withdrawn its trust by the time processing ends. */
    method ProcessClaim(
      claim: Claim, untrusted: bool, startedAt: Time, completedAt: Time, finishedAt: Time,
      uuids: UuidSource, ghost s: System)
      returns (ghost started: StartResult, ghost steps: seq<Step>, ghost q: System)
      requires startedAt <= completedAt <= finishedAt
      requires Shows(s, processing.database, queue, uuids, startedAt)
      requires HasWorker(s, id, Protocol.Worker(claim, true, Claimed))
      modifies processing.database`store, processing.database`schedule, queue`entries
      ensures processing.database.schedule == old(processing.database.schedule)
      ensures Starts(old(processing.database.store), claim.taskExecutionId, startedAt, started)
      ensures Settles(processing.executor, old(processing.database.store), old(queue.entries), claim, started, untrusted,
                      completedAt, finishedAt, processing.database.store, queue.entries)
      ensures Reaches(queue.leaseTimeout, s, steps, q) && Idle(q, id)
      ensures Shows(q, processing.database, queue, uuids, finishedAt)
      ensures OwnSteps(steps, id, Raised(processing.executor, started))
    {
      ghost var lease, queued, before := queue.leaseTimeout, queue.entries, processing.database.store;
      var r;
      r, started := processing.Process(claim.taskExecutionId, startedAt, completedAt);
      ghost var after := processing.database.store;
      hide Reaches, ProcessedAs, Starts, Settles, Raised, Q.Finished, Q.Released;
      ClaimSettles(processing.executor, before, queued, claim, started, untrusted, startedAt, completedAt, finishedAt, after, r);
      steps, q := ProcessRuns(lease, s, id, claim, processing.executor, started, completedAt, after, r);
      if r.Success? {
        if !untrusted {
          if r.value.shouldRetry {
            queue.Release(claim);
          } else {
            queue.Finish(claim, r.value.enqueueTaskIds, finishedAt);
          }
        }
        steps, q := DisposalRuns(lease, s, steps, q, id, claim, r.value, untrusted, finishedAt);
      } else {
        steps, q := WaitsOn(lease, s, steps, q, finishedAt, id);
      }
    }

    /** One turn of the worker's loop: claim, and process what was claimed. */
    method Turn(
      untrusted: bool, startedAt: Time, completedAt: Time, finishedAt: Time, uuids: UuidSource, ghost s: System)
      returns (claim: Option<Claim>, ghost started: StartResult, ghost steps: seq<Step>, ghost q: System)
      requires startedAt <= completedAt <= finishedAt && uuids.Valid()
      requires Shows(s, processing.database, queue, uuids, startedAt) && Idle(s, id)
      modifies processing.database`store, processing.database`schedule, queue`entries, uuids
      ensures uuids.Valid() && processing.database.schedule == old(processing.database.schedule)
      ensures Reaches(queue.leaseTimeout, s, steps, q) && Idle(q, id)
      ensures Shows(q, processing.database, queue, uuids, if claim.Some? then finishedAt else startedAt)
      ensures claim.None? <==> forall x | x in old(queue.entries) ::
                !Q.Claimable(old(queue.entries)[x], startedAt - queue.leaseTimeout)
      ensures claim.None? ==> queue.entries == old(queue.entries) && processing.database.store == old(processing.database.store)
      ensures claim.Some? ==>
                var task, token := claim.value.taskExecutionId, claim.value.claimToken;
                && Q.NextInLine(old(queue.entries), startedAt - queue.leaseTimeout, task)
                && Starts(old(processing.database.store), task, startedAt, started)
                && Settles(processing.executor, old(processing.database.store),
                           Q.ClaimedBy(old(queue.entries), task, id, token, startedAt), claim.value, started, untrusted,
                           completedAt, finishedAt, processing.database.store, queue.entries)
                && steps != [] && steps[0] == ClaimTask(id, task, token)
                && OwnSteps(steps[1..], id, Raised(processing.executor, started))
      ensures claim.None? ==> steps == []
    {
      ghost var lease := queue.leaseTimeout;
      NoSteps(lease, s);
      claim := queue.Claim(id, startedAt, uuids);
      steps, q, started := [], s, NotProcessable;
      if claim.Some? {
        ghost var step := ClaimTask(id, claim.value.taskExecutionId, claim.value.claimToken);
        ClaimStep(lease, s, step);
        hide Settles, Starts, Reaches, Q.NextInLine, Q.ClaimedBy;
        started, steps, q := ProcessClaim(claim.value, untrusted, startedAt, completedAt, finishedAt, uuids, Apply(s, step));
        StepBefore(lease, s, step, steps, q);
        assert ([step] + steps)[1..] == steps;
        steps := [step] + steps;
      }
    }

    /** The heartbeat thread. A wake-up is the time at which the heartbeat is sent, or None when sending it fails.
      * The first `sent` heartbeats renew the lease; trust goes with the first that fails or is refused, and with
      * nothing else. */
    method Heartbeat(claim: Claim, wakeUps: seq<Option<Time>>, uuids: UuidSource, ghost now: Time, ghost s: System)
      returns (untrusted: bool, ghost sent: nat, ghost steps: seq<Step>, ghost q: System)
      requires Shows(s, processing.database, queue, uuids, now)
      requires id in s.workers && s.workers[id].claim == claim && s.workers[id].trusted
      requires forall i | 0 <= i < |wakeUps| && wakeUps[i].Some? :: now <= wakeUps[i].value
      requires forall i, j | 0 <= i < j < |wakeUps| && wakeUps[i].Some? && wakeUps[j].Some? ::
                 wakeUps[i].value <= wakeUps[j].value
      modifies queue`entries
      ensures sent <= |wakeUps| && forall i | 0 <= i < sent :: wakeUps[i].Some?
      ensures untrusted <==> sent < |wakeUps|
      ensures untrusted ==> wakeUps[sent].None? || !Q.Holds(old(queue.entries), claim)
      ensures sent == 0 ==> queue.entries == old(queue.entries)
      ensures sent > 0 ==>
                && Q.Holds(old(queue.entries), claim)
                && queue.entries == old(queue.entries)[claim.taskExecutionId :=
                     old(queue.entries)[claim.taskExecutionId].(lastHeartbeat := wakeUps[sent - 1])]
      ensures Reaches(queue.leaseTimeout, s, steps, q) && OwnSteps(steps, id, false)
      ensures Shows(q, processing.database, queue, uuids, q.queue.clock)
      ensures HasWorker(q, id, s.workers[id].(trusted := !untrusted))
    {
      ghost var lease, queued := queue.leaseTimeout, queue.entries;
      NoSteps(lease, s);
      steps, q, untrusted, sent := [], s, false, 0;
      hide Reaches;
      for i := 0 to |wakeUps|
        invariant Reaches(lease, s, steps, q) && OwnSteps(steps, id, false) && !untrusted && sent == i
        invariant Shows(q, processing.database, queue, uuids, q.queue.clock)
        invariant HasWorker(q, id, s.workers[id])
        invariant forall j | i <= j < |wakeUps| && wakeUps[j].Some? :: q.queue.clock <= wakeUps[j].value
        invariant forall j | 0 <= j < i :: wakeUps[j].Some?
        invariant i == 0 ==> queue.entries == queued
        invariant i > 0 ==> Q.Holds(queued, claim) && queue.entries == queued[claim.taskExecutionId :=
                              queued[claim.taskExecutionId].(lastHeartbeat := wakeUps[i - 1])]
      {
        if wakeUps[i].None? {
          StepOn(lease, s, steps, q, LoseTrust(id));
          WorkerStep(q, LoseTrust(id));
          untrusted, steps, q := true, steps + [LoseTrust(id)], Apply(q, LoseTrust(id));
          return;
        }
        var owned := queue.Heartbeat(claim, wakeUps[i].value);
        steps, q := RenewRuns(lease, s, steps, q, id, wakeUps[i].value);
        if !owned {
          untrusted := true;
          return;
        }
        sent := sent + 1;
      }
    }
  }

  lemma WaitsOn(lease: Time, s: System, before: seq<Step>, start: System, now: Time, worker: Uuid)
    returns (steps: seq<Step>, q: System)
    requires Reaches(lease, s, before, start) && now >= start.queue.clock
    ensures Reaches(lease, s, steps, q) && q == start.(queue := start.queue.(clock := now))
    ensures forall may | OwnSteps(before, worker, may) :: OwnSteps(steps, worker, may)
  {
    hide Reaches;
    WaitStep(lease, start, now);
    StepOn(lease, s, before, start, Wait(now));
    steps, q := before + [Wait(now)], Apply(start, Wait(now));
  }

  lemma RenewRuns(lease: Time, s: System, before: seq<Step>, start: System, worker: Uuid, now: Time)
    returns (steps: seq<Step>, q: System)
    requires Reaches(lease, s, before, start) && now >= start.queue.clock
    requires worker in start.workers && start.workers[worker].trusted
    ensures Reaches(lease, s, steps, q) && steps == before + [Wait(now)] + [Renew(worker)]
    ensures var w := start.workers[worker];
            q == start.(queue := start.queue.(clock := now, entries := Q.Renewed(start.queue.entries, w.claim, now)),
                        workers := start.workers[worker := w.(trusted := Q.Holds(start.queue.entries, w.claim))])
  {
    hide Reaches, Q.Renewed, Q.Holds;
    WaitStep(lease, start, now);
    StepOn(lease, s, before, start, Wait(now));
    var late := Apply(start, Wait(now));
    WorkerStep(late, Renew(worker));
    StepOn(lease, s, before + [Wait(now)], late, Renew(worker));
    steps, q := before + [Wait(now)] + [Renew(worker)], Apply(late, Renew(worker));
  }

  lemma ClaimStep(lease: Time, s: System, step: Step)
    requires step.ClaimTask? && Idle(s, step.worker)
    requires Q.NextInLine(s.queue.entries, s.queue.clock - lease, step.id) && step.token !in s.queue.issued
    ensures Enabled(lease, s, step)
    ensures Apply(s, step) == s.(
              queue := s.queue.(
                entries := Q.ClaimedBy(s.queue.entries, step.id, step.worker, step.token, s.queue.clock),
                issued := s.queue.issued + {step.token}),
              workers := s.workers[step.worker := Protocol.Worker(Domain.Claim(step.id, step.token), true, Claimed)])
  {
    OneSession(s, step);
  }

  lemma StepBefore(lease: Time, s: System, step: Step, rest: seq<Step>, q: System)
    requires Enabled(lease, s, step) && Reaches(lease, Apply(s, step), rest, q)
    ensures Reaches(lease, s, [step] + rest, q)
  {
    assert ([step] + rest)[1..] == rest;
  }

  /******* The reconciler *******/

  class Reconciler {
    const database: Database
    const queue: PostgresExecutionQueue

    constructor (database: Database, queue: PostgresExecutionQueue)
      ensures this.database == database && this.queue == queue
    {
      this.database, this.queue := database, queue;
    }

    /** One cycle reads first and enqueues later; afterwards the runnable tasks are queued too, and nothing else changed. */
    method Reconcile(now: Time, uuids: UuidSource, ghost publisher: Uuid, ghost s: System)
      returns (ghost steps: seq<Step>, ghost q: System)
      requires Shows(s, database, queue, uuids, now) && publisher !in s.publishers
      modifies queue`entries
      ensures Reaches(queue.leaseTimeout, s, steps, q)
      ensures Shows(q, database, queue, uuids, now) && q.publishers == s.publishers
      ensures |steps| == 2 && steps[0].ReadRunnable? && steps[0].publisher == publisher
      ensures steps[1] == Publish(publisher) || steps[1] == Abandon(publisher)
      ensures forall id :: id in queue.entries <==> id in old(queue.entries) || Runnable(database.store.tasks, id)
      ensures forall id | id in old(queue.entries) :: queue.entries[id] == old(queue.entries)[id]
      ensures forall id | id in queue.entries && id !in old(queue.entries) :: Q.FreeSince(queue.entries[id], now)
    {
      ghost var lease := queue.leaseTimeout;
      var uow := new UnitOfWork(database);
      var runnable := uow.workflowExecutions.FindRunnableIds();
      ghost var read := ReadRunnable(publisher, runnable);
      NoSteps(lease, s);
      ReadStep(lease, s, read);
      StepOn(lease, s, [], s, read);
      hide Reaches;
      if runnable == [] {
        steps, q := [] + [read] + [Abandon(publisher)], Apply(Apply(s, read), Abandon(publisher));
        StepOn(lease, s, [] + [read], Apply(s, read), Abandon(publisher));
        return;
      }
      queue.Enqueue(runnable, now);
      PublishStep(lease, Apply(s, read), publisher);
      StepOn(lease, s, [] + [read], Apply(s, read), Publish(publisher));
      steps, q := [] + [read] + [Publish(publisher)], Apply(Apply(s, read), Publish(publisher));
    }
  }

  lemma ReadStep(lease: Time, s: System, read: Step)
    requires read.ReadRunnable? && read.publisher !in s.publishers && ListsRunnable(s.store.tasks, read.snapshot)
    ensures Enabled(lease, s, read) && Apply(s, read) == s.(publishers := s.publishers[read.publisher := read.snapshot])
    ensures Apply(Apply(s, read), Abandon(read.publisher)) == s
  {
  }

  lemma PublishStep(lease: Time, s: System, publisher: Uuid)
    requires publisher in s.publishers
    ensures Enabled(lease, s, Publish(publisher))
    ensures Apply(s, Publish(publisher)) == s.(
              queue := s.queue.(entries := Q.Inserted(s.queue.entries, s.publishers[publisher], s.queue.clock)),
              publishers := s.publishers - {publisher})
  {
    OneSession(s, Publish(publisher));
  }
}
