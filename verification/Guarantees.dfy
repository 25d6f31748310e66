/** What holds in every reachable state of the platform. */
module Guarantees {
  import opened Domain
  import opened Graphs
  import opened DefinitionGraph
  import opened StartService
  import opened ExecutionStore
  import opened StoreInvariant
  import opened Creation
  import opened Protocol
  import opened ProtocolInvariant
  import Q = QueueModel

  /******* No lost work *******/

  /** Could be worked on now: open, with every parent completed. */
  ghost predicate Workable(tasks: map<Uuid, TaskExecution>, id: Uuid) {
    Ready(tasks, id) && tasks[id].Open()
  }

  /** Running work is always queued, and workable tasks missing from the queue are exactly what the reconciler reads. */
  lemma NoLostWork(lease: Time, s: System, id: Uuid)
    requires Reachable(lease, s) && Workable(s.store.tasks, id)
    ensures s.store.tasks[id].status == RUNNING ==> id in s.queue.entries
    ensures id in s.queue.entries || Runnable(s.store.tasks, id)
  {
    ReachableInv(lease, s);
  }

  lemma {:induction false} QueuedUntilOver(lease: Time, s: System, steps: seq<Step>, id: Uuid)
    requires Inv(s) && Run(lease, s, steps) && id in s.queue.entries
    ensures Kept(After(s, steps).store.tasks, After(s, steps).queue.entries, id)
    decreases steps
  {
    hide Inv, Enabled, Apply;
    if steps == [] {
      QueuedIsStored(s, id);
    } else {
      var next := Apply(s, steps[0]);
      StepKeepsInv(lease, s, steps[0]);
      StepKeepsEntry(lease, s, steps[0], id);
      if id in next.queue.entries {
        QueuedUntilOver(lease, next, steps[1..], id);
      } else {
        RunKeepsInv(lease, next, steps[1..]);
        OverStaysOver(next.store, After(next, steps[1..]).store, id);
      }
    }
  }

  lemma QueuedIsStored(s: System, id: Uuid)
    requires Inv(s) && id in s.queue.entries
    ensures id in s.store.tasks
  {
    assert Ready(s.store.tasks, id);
  }

  lemma OverStaysOver(st: Store, after: Store, id: Uuid)
    requires Advances(st, after) && id in st.tasks && st.tasks[id].Terminal()
    ensures id in after.tasks && after.tasks[id] == st.tasks[id]
  {
    assert RowAdvances(st.tasks[id], after.tasks[id]);
  }

  /** A queue entry is removed only once its task is over. */
  lemma StepKeepsEntry(lease: Time, s: System, step: Step, id: Uuid)
    requires Inv(s) && Enabled(lease, s, step) && id in s.queue.entries
    ensures Kept(Apply(s, step).store.tasks, Apply(s, step).queue.entries, id)
  {
    QueuedIsStored(s, id);
    StoreStep(lease, s, step);
    SessionEntries(s, step);
    hide Inv, Enabled, StoreOk, QueueSteps, StoreAfter, Advances;
    if id !in Apply(s, step).queue.entries {
      OverStaysOver(s.store, Apply(s, step).store, id);
    } else {
      AdvanceKeepsKey(s.store, Apply(s, step).store, id);
    }
  }

  lemma AdvanceKeepsKey(st: Store, after: Store, id: Uuid)
    requires Advances(st, after) && id in st.tasks
    ensures id in after.tasks
  {
  }

  ghost predicate Untouched(steps: seq<Step>, publisher: Uuid) {
    forall step | step in steps ::
      step != Publish(publisher) && step != Abandon(publisher)
  }

  lemma {:induction false} SnapshotWaits(lease: Time, s: System, steps: seq<Step>, publisher: Uuid)
    requires Run(lease, s, steps) && publisher in s.publishers && Untouched(steps, publisher)
    ensures publisher in After(s, steps).publishers
         && After(s, steps).publishers[publisher] == s.publishers[publisher]
    decreases steps
  {
    if steps != [] {
      assert steps[0] in steps;
      assert PublishersAfter(s, steps[0])[publisher] == s.publishers[publisher];
      assert Untouched(steps[1..], publisher) by {
        forall step | step in steps[1..]
          ensures step in steps
        {
        }
      }
      hide Enabled, StoreAfter, QueueSteps, WorkersAfter, PublishersAfter;
      SnapshotWaits(lease, Apply(s, steps[0]), steps[1..], publisher);
    }
  }

  /** One reconciliation, however stale its snapshot has become, queues all work that was missing when it read:
    * afterwards every task that was workable then is queued or over. */
  lemma ReconciliationRecovers(
    lease: Time, s: System, publisher: Uuid, snapshot: seq<Uuid>, steps: seq<Step>, id: Uuid)
    requires Reachable(lease, s) && Enabled(lease, s, ReadRunnable(publisher, snapshot))
    requires Run(lease, Apply(s, ReadRunnable(publisher, snapshot)), steps) && Untouched(steps, publisher)
    requires Workable(s.store.tasks, id)
    ensures var before := After(Apply(s, ReadRunnable(publisher, snapshot)), steps);
            && Enabled(lease, before, Publish(publisher))
            && var after := Apply(before, Publish(publisher));
               Kept(after.store.tasks, after.queue.entries, id)
  {
    var read := ReadRunnable(publisher, snapshot);
    var start := Apply(s, read);
    ReachableInv(lease, s);
    hide Reachable;
    StepKeepsInv(lease, s, read);
    ReadChangesNothing(s, publisher, snapshot);
    WorkableIsRead(s, id);
    hide Inv, Run, After, Apply, Workable, Enabled;
    SnapshotWaits(lease, start, steps, publisher);
    KeptOverRun(lease, start, steps, publisher, id);
    PublishKeeps(After(start, steps), publisher, id);
    PublishEnabled(lease, After(start, steps), publisher);
  }

  /** Queued at the start of a run: still queued, or over, at its end. In flight at the start: still stored. */
  lemma KeptOverRun(lease: Time, s: System, steps: seq<Step>, publisher: Uuid, id: Uuid)
    requires Inv(s) && Run(lease, s, steps) && id in s.store.tasks
    ensures id in After(s, steps).store.tasks
    ensures id in s.queue.entries ==> Kept(After(s, steps).store.tasks, After(s, steps).queue.entries, id)
  {
    hide Inv, Run, After;
    RunKeepsInv(lease, s, steps);
    AdvanceKeepsKey(s.store, After(s, steps).store, id);
    if id in s.queue.entries {
      QueuedUntilOver(lease, s, steps, id);
    }
  }

  lemma PublishEnabled(lease: Time, s: System, publisher: Uuid)
    requires publisher in s.publishers
    ensures Enabled(lease, s, Publish(publisher))
  {
  }

  lemma PublishKeeps(s: System, publisher: Uuid, id: Uuid)
    requires publisher in s.publishers && id in s.store.tasks
    requires Kept(s.store.tasks, s.queue.entries, id) || id in s.publishers[publisher]
    ensures var after := Apply(s, Publish(publisher)); Kept(after.store.tasks, after.queue.entries, id)
  {
    hide Apply;
    if id in s.publishers[publisher] {
      PublishedIsQueued(s, publisher, id);
    } else {
      KeptWhenPublished(s, publisher, id);
    }
  }

  lemma ReadChangesNothing(s: System, publisher: Uuid, snapshot: seq<Uuid>)
    ensures var after := Apply(s, ReadRunnable(publisher, snapshot));
            && after.store == s.store && after.queue == s.queue
            && publisher in after.publishers && after.publishers[publisher] == snapshot
  {
  }

  /** Workable but not queued means listed by the reconciler's query. */
  lemma WorkableIsRead(s: System, id: Uuid)
    requires Inv(s) && Workable(s.store.tasks, id)
    ensures id in s.store.tasks && (id in s.queue.entries || Runnable(s.store.tasks, id))
  {
  }

  lemma KeptWhenPublished(s: System, publisher: Uuid, id: Uuid)
    requires publisher in s.publishers && Kept(s.store.tasks, s.queue.entries, id)
    ensures var after := Apply(s, Publish(publisher)); Kept(after.store.tasks, after.queue.entries, id)
  {
    OneSession(s, Publish(publisher));
    hide WorkersAfter, PublishersAfter;
  }

  lemma PublishedIsQueued(s: System, publisher: Uuid, id: Uuid)
    requires publisher in s.publishers && id in s.publishers[publisher] && id in s.store.tasks
    ensures var after := Apply(s, Publish(publisher)); Kept(after.store.tasks, after.queue.entries, id)
  {
    OneSession(s, Publish(publisher));
  }

  /******* Queue soundness *******/

  ghost predicate ParentsDone(tasks: map<Uuid, TaskExecution>, id: Uuid) {
    && id in tasks
    && forall p | p in tasks[id].parentTaskIds :: p in tasks && tasks[p].status == COMPLETED && tasks[p].output.Some?
  }

  /** Queued, or on its way to the queue from a start, a reconciliation or a finished task. */
  ghost predicate HeadedForQueue(s: System, id: Uuid) {
    || id in s.queue.entries
    || (exists p :: p in s.publishers && id in s.publishers[p])
    || (exists w :: w in s.workers && s.workers[w].phase.Committed? && id in s.workers[w].phase.outcome.enqueueTaskIds)
  }

  lemma QueueSoundness(lease: Time, s: System, id: Uuid)
    requires Reachable(lease, s) && HeadedForQueue(s, id)
    ensures ParentsDone(s.store.tasks, id)
  {
    ReachableInv(lease, s);
    HeadedIsReady(s, id);
    ReadyParentsCompleted(s.store, id);
  }

  lemma HeadedIsReady(s: System, id: Uuid)
    requires Inv(s) && HeadedForQueue(s, id)
    ensures Ready(s.store.tasks, id)
  {
    if p :| p in s.publishers && id in s.publishers[p] {
      assert AllReady(s.store.tasks, s.publishers[p]);
    } else if w :| w in s.workers && s.workers[w].phase.Committed? && id in s.workers[w].phase.outcome.enqueueTaskIds {
      ClaimedReady(s, w);
    }
  }

  /** `start_task` never raises for a missing parent output. */
  lemma StartNeverRaises(lease: Time, s: System, worker: Uuid)
    requires Reachable(lease, s)
    ensures !Enabled(lease, s, Begin(worker, MissingParentOutput))
  {
    hide Reachable, Enabled, Inv;
    ReachableInv(lease, s);
    NoMissingOutput(lease, s, worker);
  }

  lemma NoMissingOutput(lease: Time, s: System, worker: Uuid)
    requires Inv(s)
    ensures !Enabled(lease, s, Begin(worker, MissingParentOutput))
  {
    if Enabled(lease, s, Begin(worker, MissingParentOutput)) {
      ClaimedReady(s, worker);
      hide Enabled, Inv, Consistent;
      ReadyStarts(s.store, s.workers[worker].claim.taskExecutionId, s.queue.clock);
      assert false;
    }
  }

  lemma ReadyStarts(st: Store, id: Uuid, now: Time)
    requires Consistent(st) && Ready(st.tasks, id)
    ensures !Starts(st, id, now, MissingParentOutput)
  {
    ReadyHasOutputs(st, id, now);
  }

  lemma ReadyHasOutputs(st: Store, id: Uuid, now: Time)
    requires Consistent(st) && Ready(st.tasks, id)
    ensures var after := StartTask(st, id, now).tasks;
            id in after && AllParentsHaveOutput(after, after[id].parentTaskIds)
  {
    ReadyParentsCompleted(st, id);
  }

  /******* Deadlock freedom *******/

  /** The definition ids of a workflow whose tasks are not completed. */
  ghost function Unfinished(st: Store, tasks: seq<TaskDefinition>, ids: map<Uuid, Uuid>): set<Uuid> {
    set d | d in Ids(tasks) && ExecutionId(ids, d) in st.tasks && st.tasks[ExecutionId(ids, d)].status != COMPLETED
  }

  /** An unfinished task none of whose dependencies is unfinished waits for nothing. */
  lemma LowestIsReady(definitions: Definitions, layouts: Layouts, st: Store, w: Uuid, i: nat)
    requires Consistent(st) && AllLaid(definitions, layouts, st) && w in st.workflows && w in layouts
    requires i < |DefinitionOf(definitions, st, w)|
    requires var tasks := DefinitionOf(definitions, st, w);
             forall d | d in tasks[i].dependencies :: d !in Unfinished(st, tasks, layouts[w])
    ensures Ready(st.tasks, ExecutionId(layouts[w], DefinitionOf(definitions, st, w)[i].id))
  {
    assert Laid(definitions, layouts, st, w);
    var tasks, ids := DefinitionOf(definitions, st, w), layouts[w];
    var id := ExecutionId(ids, tasks[i].id);
    assert LaidRow(tasks, ids, st.tasks, w, i);
    var parents := st.tasks[id].parentTaskIds;
    assert parents == ParentIds(ids, tasks[i].dependencies);
    hide Laid, LaidRow;
    forall p | p in parents
      ensures p in Completed(st.tasks)
    {
      var j :| 0 <= j < |parents| && parents[j] == p;
      var d := tasks[i].dependencies[j];
      assert tasks[i] in tasks && d in tasks[i].dependencies;
      assert WellFormedTask(Ids(tasks), tasks[i]);
      assert d in Ids(tasks) && d !in Unfinished(st, tasks, ids);
      assert Linked(st.tasks, id);
    }
    CountZero(parents, Completed(st.tasks));
    assert Counted(Completed(st.tasks), st.tasks[id]);
  }

  /** The unfinished tasks of an acyclic definition include one that depends on no other. */
  lemma LowestUnfinished(tasks: seq<TaskDefinition>, nodes: set<Uuid>) returns (i: nat)
    requires WellFormed(tasks) && nodes <= Ids(tasks) && nodes != {}
    ensures i < |tasks| && tasks[i].id in nodes
    ensures forall d | d in tasks[i].dependencies :: d !in nodes
  {
    var g := IdGraph(tasks);
    IdGraphShape(tasks);
    var lowest := LowestNode(g, nodes);
    i := Position(tasks, lowest);
    forall d | d in tasks[i].dependencies
      ensures d !in nodes
    {
      assert d in g[lowest];
      assert d !in g[lowest] * nodes;
    }
  }

  lemma LowestOfWorkflow(definitions: Definitions, layouts: Layouts, st: Store, w: Uuid, open: Uuid) returns (id: Uuid)
    requires StoreOk(definitions, layouts, st) && w in st.workflows
    requires Member(st.tasks, w, open) && st.tasks[open].status != COMPLETED
    ensures Member(st.tasks, w, id) && Ready(st.tasks, id) && st.tasks[id].status != COMPLETED
  {
    hide WellFormed, Consistent, AllLaid;
    var o := RowOrigin(definitions, layouts, st, open);
    var tasks, ids := DefinitionOf(definitions, st, w), layouts[w];
    var nodes := Unfinished(st, tasks, ids);
    assert tasks[o].id in nodes;
    hide DefinitionOf, LaidRow, Member;
    var i := LowestUnfinished(tasks, nodes);
    LowestIsReady(definitions, layouts, st, w, i);
    LaidMember(definitions, layouts, st, w, i);
    id := ExecutionId(ids, tasks[i].id);
  }

  lemma RunningHasUnfinished(st: Store, w: Uuid) returns (open: Uuid)
    requires AllAgree(st) && w in st.workflows && st.workflows[w].status == WorkflowRunning
    ensures Member(st.tasks, w, open) && st.tasks[open].status != COMPLETED
    ensures forall id | Member(st.tasks, w, id) :: !st.tasks[id].Fallen()
  {
    assert Agrees(st, w);
    open :| Member(st.tasks, w, open) && st.tasks[open].status != COMPLETED;
  }

  /** A running workflow always has a task that is running, or pending with nothing left to wait for. */
  lemma SomethingWorkable(definitions: Definitions, layouts: Layouts, st: Store, w: Uuid) returns (id: Uuid)
    requires StoreOk(definitions, layouts, st) && w in st.workflows && st.workflows[w].status == WorkflowRunning
    ensures Member(st.tasks, w, id) && Workable(st.tasks, id)
  {
    hide AllLaid, AllAgree, AllCounted, AllLinked, AllSettled;
    var open := RunningHasUnfinished(st, w);
    id := LowestOfWorkflow(definitions, layouts, st, w, open);
  }

  lemma LaidMember(definitions: Definitions, layouts: Layouts, st: Store, w: Uuid, i: nat)
    requires AllLaid(definitions, layouts, st) && w in st.workflows && w in layouts
    requires i < |DefinitionOf(definitions, st, w)|
    ensures Member(st.tasks, w, ExecutionId(layouts[w], DefinitionOf(definitions, st, w)[i].id))
  {
    assert Laid(definitions, layouts, st, w);
    assert LaidRow(DefinitionOf(definitions, st, w), layouts[w], st.tasks, w, i);
  }

  /** No running workflow is ever stuck: some task of it is in the queue, or will be put there by the reconciler. */
  lemma DeadlockFreedom(lease: Time, s: System, w: Uuid)
    requires Reachable(lease, s) && w in s.store.workflows && s.store.workflows[w].status == WorkflowRunning
    ensures exists id :: Member(s.store.tasks, w, id) && Workable(s.store.tasks, id)
                      && (id in s.queue.entries || Runnable(s.store.tasks, id))
  {
    ReachableInv(lease, s);
    var id := SomethingWorkable(s.definitions, s.layouts, s.store, w);
    NoLostWork(lease, s, id);
  }

  /******* Status agreement *******/

  ghost predicate ExactlyOneFailed(tasks: map<Uuid, TaskExecution>, w: Uuid) {
    exists failed ::
      && Member(tasks, w, failed) && tasks[failed].status == FAILED
      && forall id | Member(tasks, w, id) && tasks[id].status == FAILED :: id == failed
  }

  ghost predicate NoneOpen(tasks: map<Uuid, TaskExecution>, w: Uuid) {
    forall id | Member(tasks, w, id) :: !tasks[id].Open()
  }

  lemma StatusAgreement(lease: Time, s: System, w: Uuid)
    requires Reachable(lease, s) && w in s.store.workflows
    ensures var status, tasks := s.store.workflows[w].status, s.store.tasks;
            && (status == WorkflowCompleted <==> Finished(tasks, w))
            && (status == WorkflowFailed <==> ExactlyOneFailed(tasks, w))
            && (status == WorkflowFailed ==> NoneOpen(tasks, w))
            && (status == WorkflowRunning ==>
                  forall id | Member(tasks, w, id) :: !tasks[id].Fallen())
            && status != WorkflowCancelled
  {
    ReachableInv(lease, s);
    StatusesAgree(s.store, w);
  }

  lemma StatusesAgree(st: Store, w: Uuid)
    requires AllAgree(st) && w in st.workflows
    ensures var status := st.workflows[w].status;
            && (status == WorkflowCompleted <==> Finished(st.tasks, w))
            && (status == WorkflowFailed <==> ExactlyOneFailed(st.tasks, w))
            && (status == WorkflowFailed ==> NoneOpen(st.tasks, w))
            && (status == WorkflowRunning ==>
                  forall id | Member(st.tasks, w, id) :: !st.tasks[id].Fallen())
            && status != WorkflowCancelled
  {
    assert Agrees(st, w);
    match st.workflows[w].status
    case WorkflowFailed =>
      var failed :| FailedOnce(st.tasks, w, failed);
      FailedAgrees(st.tasks, w, failed);
    case WorkflowCompleted =>
      forall id | Member(st.tasks, w, id)
        ensures st.tasks[id].status == COMPLETED
      {
        assert id in st.tasks && st.tasks[id].workflowExecutionId == w;
      }
    case WorkflowRunning =>
      var open :| Member(st.tasks, w, open) && st.tasks[open].status != COMPLETED;
      assert open in st.tasks && st.tasks[open].workflowExecutionId == w;
    case WorkflowCancelled =>
  }

  lemma FailedAgrees(tasks: map<Uuid, TaskExecution>, w: Uuid, failed: Uuid)
    requires FailedOnce(tasks, w, failed)
    ensures ExactlyOneFailed(tasks, w) && NoneOpen(tasks, w) && !Finished(tasks, w)
  {
    assert failed in tasks && tasks[failed].workflowExecutionId == w;
    assert forall id | Member(tasks, w, id) && tasks[id].status == FAILED :: id == failed;
  }

  /** Once over, a task row and a workflow row never change again. */
  lemma TerminalIsForever(lease: Time, s: System, steps: seq<Step>, id: Uuid, w: Uuid)
    requires Reachable(lease, s) && Run(lease, s, steps)
    ensures id in s.store.tasks && s.store.tasks[id].Terminal() ==>
              id in After(s, steps).store.tasks && After(s, steps).store.tasks[id] == s.store.tasks[id]
    ensures w in s.store.workflows && s.store.workflows[w].status != WorkflowRunning ==>
              w in After(s, steps).store.workflows && After(s, steps).store.workflows[w] == s.store.workflows[w]
  {
    hide Run, After;
    ReachableInv(lease, s);
    RunKeepsInv(lease, s, steps);
    var after := After(s, steps).store;
    if id in s.store.tasks && s.store.tasks[id].Terminal() {
      OverStaysOver(s.store, after, id);
    }
    if w in s.store.workflows {
      assert WorkflowAdvances(s.store.workflows[w], after.workflows[w]);
    }
  }

  /******* Counters *******/

  /** The counter of every task is the number of its parents that are not completed, and completing a running
    * task finds every child pending with a positive counter. */
  lemma CounterInvariant(lease: Time, s: System, id: Uuid)
    requires Reachable(lease, s) && id in s.store.tasks
    ensures var tasks := s.store.tasks;
            && tasks[id].remainingDependencies == CountOutside(tasks[id].parentTaskIds, Completed(tasks))
            && (tasks[id].status == RUNNING ==>
                  forall c | c in tasks[id].childTaskIds :: Waiting(tasks, c) && id in tasks[c].parentTaskIds)
  {
    ReachableInv(lease, s);
    assert Counted(Completed(s.store.tasks), s.store.tasks[id]);
    if s.store.tasks[id].status == RUNNING {
      AllChildrenWait(s.store, id);
      assert Linked(s.store.tasks, id);
    }
  }
}
