/** From every reachable state, whatever crashed and whoever holds leases, each running workflow can still be completed. */
module Progress {
  import opened Domain
  import opened ExecutionStore
  import opened StoreInvariant
  import opened Protocol
  import opened ProtocolInvariant
  import opened Guarantees
  import opened Runtimes
  import Q = QueueModel

  /******* Fresh names and lists *******/

  lemma {:induction false} FreshId(ids: set<Uuid>) returns (unused: Uuid)
    ensures unused !in ids && forall id | id in ids :: id < unused
    decreases ids
  {
    if ids == {} {
      unused := 0;
    } else {
      var id :| id in ids;
      var rest := FreshId(ids - {id});
      unused := if rest <= id then id + 1 else rest;
      forall x | x in ids
        ensures x < unused
      {
        assert x == id || x in ids - {id};
      }
    }
  }

  lemma {:induction false} Listed(ids: set<Uuid>) returns (list: seq<Uuid>)
    ensures NoDuplicates(list) && forall id :: id in list <==> id in ids
    decreases ids
  {
    if ids == {} {
      list := [];
    } else {
      var id :| id in ids;
      var rest := Listed(ids - {id});
      list := rest + [id];
    }
  }

  /** Parents that all have outputs can be read. */
  lemma {:induction false} InputsExist(rows: map<Uuid, TaskExecution>, parents: seq<Uuid>)
    returns (inputs: map<string, TaskOutput>)
    requires AllParentsHaveOutput(rows, parents)
    ensures ParentOutputs(rows, parents, inputs)
    decreases |parents|
  {
    if parents == [] {
      inputs := map[];
    } else {
      var front, last := parents[..|parents| - 1], parents[|parents| - 1];
      assert parents == front + [last];
      var some := InputsExist(rows, front);
      inputs := if last in rows then some[rows[last].key := rows[last].output.value] else some;
      forall key | key in inputs
        ensures exists p | p in parents && p in rows :: rows[p].key == key && rows[p].output == Some(inputs[key])
      {
        if last in rows && rows[last].key == key {
          assert last in parents;
        } else {
          var p :| p in front && p in rows && rows[p].key == key && rows[p].output == Some(some[key]);
          assert p in parents;
        }
      }
    }
  }

  /******* Getting hold of a task *******/

  /** What the preparations leave alone. */
  ghost predicate SameWork(s: System, q: System) {
    && q.store == s.store && q.definitions == s.definitions && q.layouts == s.layouts
  }

  /** A reconciliation puts a runnable task into the queue. */
  lemma Queues(lease: Time, s: System, id: Uuid) returns (steps: seq<Step>, q: System)
    requires Inv(s) && Workable(s.store.tasks, id)
    ensures Reaches(lease, s, steps, q) && SameWork(s, q) && id in q.queue.entries
  {
    NoSteps(lease, s);
    steps, q := [], s;
    if id !in s.queue.entries {
      WorkableIsRead(s, id);
      hide Inv, Workable;
      var publisher := FreshId(s.publishers.Keys);
      var snapshot := Listed(set x | x in s.store.tasks && Runnable(s.store.tasks, x));
      var read := ReadRunnable(publisher, snapshot);
      ReadStep(lease, s, read);
      StepOn(lease, s, [], s, read);
      PublishStep(lease, Apply(s, read), publisher);
      StepOn(lease, s, [] + [read], Apply(s, read), Publish(publisher));
      steps, q := [] + [read] + [Publish(publisher)], Apply(Apply(s, read), Publish(publisher));
    }
  }

  ghost predicate AllClaimable(lease: Time, queue: Q.Queue) {
    forall id | id in queue.entries :: Q.Claimable(queue.entries[id], queue.clock - lease)
  }

  /** Once a lease has passed in silence, every entry can be claimed. */
  lemma Expires(lease: Time, s: System, before: seq<Step>, start: System) returns (steps: seq<Step>, q: System)
    requires lease > 0.0 && Reaches(lease, s, before, start) && Q.QueueOk(start.queue)
    ensures Reaches(lease, s, steps, q) && SameWork(start, q) && q.queue.entries == start.queue.entries
    ensures AllClaimable(lease, q.queue)
  {
    var now := start.queue.clock + lease;
    WaitStep(lease, start, now);
    StepOn(lease, s, before, start, Wait(now));
    steps, q := before + [Wait(now)], Apply(start, Wait(now));
    hide Reaches;
    forall id | id in start.queue.entries
      ensures Q.Claimable(start.queue.entries[id], now - lease)
    {
      assert Q.Coherent(start.queue, start.queue.entries[id]);
    }
  }

  ghost function Available(lease: Time, queue: Q.Queue): set<Uuid> {
    set id | id in queue.entries && Q.Claimable(queue.entries[id], queue.clock - lease)
  }

  lemma {:induction false} FirstInLine(entries: Q.Entries, expiration: Time, ids: set<Uuid>) returns (first: Uuid)
    requires ids != {} && ids <= entries.Keys
    ensures first in ids && forall id | id in ids :: entries[first].queuedAt <= entries[id].queuedAt
    decreases ids
  {
    var id :| id in ids;
    if ids == {id} {
      first := id;
    } else {
      assert ids - {id} != {};
      var rest := FirstInLine(entries, expiration, ids - {id});
      first := if entries[id].queuedAt <= entries[rest].queuedAt then id else rest;
      forall x | x in ids
        ensures entries[first].queuedAt <= entries[x].queuedAt
      {
        assert x == id || x in ids - {id};
      }
    }
  }

  /** Claiming takes the oldest available entry off the line, so sooner or later a worker gets the one wanted. */
  lemma {:induction false} Claims(lease: Time, s: System, before: seq<Step>, start: System, id: Uuid)
    returns (steps: seq<Step>, q: System, worker: Uuid)
    requires lease > 0.0 && Reaches(lease, s, before, start) && id in Available(lease, start.queue)
    ensures Reaches(lease, s, steps, q) && SameWork(start, q)
    ensures worker in q.workers && q.workers[worker].phase == Claimed && q.workers[worker].claim.taskExecutionId == id
    decreases Available(lease, start.queue)
  {
    hide Reaches;
    var first := FirstInLine(start.queue.entries, start.queue.clock - lease, Available(lease, start.queue));
    var token := FreshId(start.queue.issued);
    worker := FreshId(start.workers.Keys);
    var step := ClaimTask(worker, first, token);
    IsNext(lease, start.queue, first);
    ClaimStep(lease, start, step);
    StepOn(lease, s, before, start, step);
    steps, q := before + [step], Apply(start, step);
    if first != id {
      OneFewer(lease, start.queue, q.queue, first, worker, token, id);
      steps, q, worker := Claims(lease, s, steps, q, id);
    }
  }

  lemma IsNext(lease: Time, queue: Q.Queue, first: Uuid)
    requires first in Available(lease, queue)
    requires forall id | id in Available(lease, queue) :: queue.entries[first].queuedAt <= queue.entries[id].queuedAt
    ensures Q.NextInLine(queue.entries, queue.clock - lease, first)
  {
    forall other | other in queue.entries && Q.Claimable(queue.entries[other], queue.clock - lease)
      ensures queue.entries[first].queuedAt <= queue.entries[other].queuedAt
    {
      assert other in Available(lease, queue);
    }
  }

  lemma OneFewer(lease: Time, before: Q.Queue, after: Q.Queue, first: Uuid, worker: Uuid, token: Uuid, id: Uuid)
    requires lease > 0.0 && first in Available(lease, before) && id in Available(lease, before) && id != first
    requires after.clock == before.clock
    requires after.entries == Q.ClaimedBy(before.entries, first, worker, token, before.clock)
    ensures Available(lease, after) < Available(lease, before) && id in Available(lease, after)
  {
    assert first !in Available(lease, after);
    forall x | x in Available(lease, after)
      ensures x in Available(lease, before)
    {
    }
  }

  /******* Completing it *******/

  lemma BeginsReady(lease: Time, q: System, worker: Uuid, id: Uuid) returns (step: Step)
    requires Consistent(q.store) && worker in q.workers && q.workers[worker].phase == Claimed
    requires q.workers[worker].claim.taskExecutionId == id && Workable(q.store.tasks, id)
    ensures step.Begin? && step.worker == worker && step.started.Processable? && Enabled(lease, q, step)
    ensures Apply(q, step).store == StartTask(q.store, id, q.queue.clock)
    ensures Apply(q, step).queue == q.queue
    ensures var after := Apply(q, step);
            && worker in after.workers && after.workers[worker].phase.Executing?
            && after.workers[worker].claim == q.workers[worker].claim
  {
    hide Consistent, Starts, Workable, StartTask;
    var started := StartsReady(q.store, id, q.queue.clock);
    step := Begin(worker, started);
    WorkerStep(q, step);
  }

  lemma StartsReady(st: Store, id: Uuid, now: Time) returns (started: StartResult)
    requires Consistent(st) && Workable(st.tasks, id)
    ensures started.Processable? && Starts(st, id, now, started)
  {
    ReadyHasOutputs(st, id, now);
    hide Consistent, ParentOutputs;
    var begun := StartTask(st, id, now).tasks;
    var inputs := InputsExist(begun, begun[id].parentTaskIds);
    started := Processable(begun[id].pluginType, begun[id].configuration, inputs);
  }

  /** A worker that has claimed a task can bring it to completion. */
  lemma Completes(lease: Time, s: System, before: seq<Step>, start: System, worker: Uuid, id: Uuid)
    returns (steps: seq<Step>, q: System)
    requires Inv(s) && Reaches(lease, s, before, start)
    requires worker in start.workers && start.workers[worker].phase == Claimed
    requires start.workers[worker].claim.taskExecutionId == id && Workable(start.store.tasks, id)
    ensures Reaches(lease, s, steps, q)
    ensures id in start.store.tasks && OnlyCompletes(start.store, start.store.tasks[id].workflowExecutionId, id, q.store)
  {
    ReachesInv(lease, s, before, start);
    StoreIsConsistent(start);
    hide Inv, Workable, Consistent;
    var begin := BeginsReady(lease, start, worker, id);
    StepOn(lease, s, before, start, begin);
    var begun := Apply(start, begin);
    NowRunning(start.store, id, start.queue.clock);
    var result := TaskResult(true, TaskOutput(map[]), None);
    steps, q := ExecutesAndCommits(lease, s, before + [begin], begun, worker, begun.workers[worker], result, begun.queue.clock);
    ReachesInv(lease, s, before + [begin], begun);
    StoreIsConsistent(begun);
    hide Reaches;
    CompletedNow(begun.store, id, result.output, begun.queue.clock);
  }

  lemma ReachesInv(lease: Time, s: System, steps: seq<Step>, q: System)
    requires Inv(s) && Reaches(lease, s, steps, q)
    ensures Inv(q) && Advances(s.store, q.store)
  {
    hide Inv, Advances, Run, After;
    RunKeepsInv(lease, s, steps);
  }

  /** Task `id` of workflow `w` is completed, no row is added, and the workflow is at most completed with it. */
  ghost predicate OnlyCompletes(before: Store, w: Uuid, id: Uuid, after: Store) {
    && id in after.tasks && after.tasks[id].status == COMPLETED
    && after.tasks.Keys == before.tasks.Keys
    && forall x | x == w && x in before.workflows ::
         && x in after.workflows
         && (after.workflows[x].status == before.workflows[x].status || after.workflows[x].status == WorkflowCompleted)
  }

  lemma NowRunning(st: Store, id: Uuid, now: Time)
    requires Workable(st.tasks, id)
    ensures var begun := StartTask(st, id, now);
            && Running(begun, id) && begun.tasks.Keys == st.tasks.Keys && begun.workflows == st.workflows
            && begun.tasks[id].workflowExecutionId == st.tasks[id].workflowExecutionId
  {
  }

  lemma CompletedNow(st: Store, id: Uuid, output: TaskOutput, now: Time)
    requires Consistent(st) && Running(st, id)
    ensures OnlyCompletes(st, st.tasks[id].workflowExecutionId, id, CompleteTask(st, id, output, now).0)
  {
    CompletionIsExact(st, id, output, now);
    hide Consistent, ReleaseChildren, Finished;
  }

  /******* Completing a workflow *******/

  /** The stored tasks of a workflow that are not completed. */
  ghost function Left(st: Store, w: Uuid): set<Uuid> {
    set id | id in st.tasks && st.tasks[id].workflowExecutionId == w && st.tasks[id].status != COMPLETED
  }

  /** From any state, some open task of a running workflow can be completed next. */
  lemma OneTaskMore(lease: Time, s: System, w: Uuid) returns (steps: seq<Step>, q: System, id: Uuid)
    requires lease > 0.0 && Inv(s) && w in s.store.workflows && s.store.workflows[w].status == WorkflowRunning
    ensures Reaches(lease, s, steps, q) && id in Left(s.store, w) && OnlyCompletes(s.store, w, id, q.store)
  {
    id := SomethingWorkable(s.definitions, s.layouts, s.store, w);
    WorkableIsLeft(s.store, w, id);
    hide Inv, Workable, Member;
    steps, q := Queues(lease, s, id);
    ReachesInv(lease, s, steps, q);
    QueueIsOk(q);
    var queued := q;
    steps, q := Expires(lease, s, steps, q);
    assert id in Available(lease, q.queue);
    var worker;
    steps, q, worker := Claims(lease, s, steps, q, id);
    steps, q := Completes(lease, s, steps, q, worker, id);
  }

  lemma QueueIsOk(s: System)
    requires Inv(s)
    ensures Q.QueueOk(s.queue)
  {
    hide StoreOk, JointOk, Q.QueueOk;
  }

  lemma WorkableIsLeft(st: Store, w: Uuid, id: Uuid)
    requires Member(st.tasks, w, id) && Workable(st.tasks, id)
    ensures id in Left(st, w)
  {
  }

  /** Completing a task takes it off the list of those left and puts none on it. */
  lemma LeftShrinks(st: Store, w: Uuid, id: Uuid, after: Store)
    requires Advances(st, after) && id in Left(st, w) && OnlyCompletes(st, w, id, after)
    ensures Left(after, w) < Left(st, w)
  {
    forall x | x in Left(after, w)
      ensures x in Left(st, w)
    {
      assert RowAdvances(st.tasks[x], after.tasks[x]);
      assert Fixed(after.tasks[x]).workflowExecutionId == Fixed(st.tasks[x]).workflowExecutionId;
    }
    assert id !in Left(after, w);
  }

  lemma {:induction false} RunsJoin(lease: Time, s: System, a: seq<Step>, q: System, b: seq<Step>, r: System)
    requires Reaches(lease, s, a, q) && Reaches(lease, q, b, r)
    ensures Reaches(lease, s, a + b, r)
    decreases a
  {
    hide Enabled, Apply;
    if a == [] {
      assert a + b == b;
    } else {
      RunsJoin(lease, Apply(s, a[0]), a[1..], q, b, r);
      assert (a + b)[0] == a[0] && (a + b)[1..] == a[1..] + b;
    }
  }

  lemma {:induction false} RunsToCompletion(lease: Time, s: System, w: Uuid) returns (steps: seq<Step>, q: System)
    requires lease > 0.0 && Inv(s) && w in s.store.workflows && s.store.workflows[w].status == WorkflowRunning
    ensures Reaches(lease, s, steps, q)
    ensures w in q.store.workflows && q.store.workflows[w].status == WorkflowCompleted
    decreases Left(s.store, w)
  {
    hide Inv, Reaches, Left;
    var id;
    steps, q, id := OneTaskMore(lease, s, w);
    if q.store.workflows[w].status == WorkflowRunning {
      ReachesInv(lease, s, steps, q);
      LeftShrinks(s.store, w, id, q.store);
      var rest, end := RunsToCompletion(lease, q, w);
      RunsJoin(lease, s, steps, q, rest, end);
      steps, q := steps + rest, end;
    }
  }

  /** No state a platform can get into is a dead end: crashed workers, foreign leases, lost queue entries and stale
    * snapshots notwithstanding, some continuation completes any workflow that is still running. */
  lemma AlwaysCompletable(lease: Time, s: System, w: Uuid)
    requires lease > 0.0 && Reachable(lease, s)
    requires w in s.store.workflows && s.store.workflows[w].status == WorkflowRunning
    ensures exists steps ::
              && Run(lease, s, steps)
              && w in After(s, steps).store.workflows
              && After(s, steps).store.workflows[w].status == WorkflowCompleted
  {
    hide Reachable, Inv, Run, After;
    ReachableInv(lease, s);
    var steps, q := RunsToCompletion(lease, s, w);
  }
}
