/** What every committed transition of the execution tables keeps. */
module StoreInvariant {
  import opened Domain
  import opened ExecutionStore

  /******* The invariant *******/

  /** Parents and children are stored, belong to the same workflow, and list each other. */
  ghost predicate Linked(tasks: map<Uuid, TaskExecution>, id: Uuid)
    requires id in tasks
  {
    var row := tasks[id];
    && NoDuplicates(row.parentTaskIds)
    && NoDuplicates(row.childTaskIds)
    && (forall p | p in row.parentTaskIds ::
          p in tasks && tasks[p].workflowExecutionId == row.workflowExecutionId && id in tasks[p].childTaskIds)
    && (forall c | c in row.childTaskIds ::
          c in tasks && tasks[c].workflowExecutionId == row.workflowExecutionId && id in tasks[c].parentTaskIds)
  }

  /** The counter is the number of parents that are not completed; only tasks without such parents ever run. */
  ghost predicate Counted(completed: set<Uuid>, row: TaskExecution) {
    && row.remainingDependencies == CountOutside(row.parentTaskIds, completed)
    && (row.status == RUNNING || row.status == COMPLETED || row.status == FAILED ==> row.remainingDependencies == 0)
  }

  /** Outputs belong to completed tasks, and a task has failed exactly when no try is left. */
  ghost predicate Settled(row: TaskExecution) {
    && (row.status == COMPLETED <==> row.output.Some?)
    && row.remainingTries >= 0
    && (row.status == FAILED <==> row.remainingTries == 0)
  }

  ghost predicate Member(tasks: map<Uuid, TaskExecution>, workflow: Uuid, id: Uuid) {
    id in tasks && tasks[id].workflowExecutionId == workflow
  }

  /** A workflow's status and the statuses of its tasks say the same. */
  ghost predicate Agrees(st: Store, workflow: Uuid)
    requires workflow in st.workflows
  {
    match st.workflows[workflow].status
    case WorkflowRunning =>
      && (forall id | Member(st.tasks, workflow, id) :: !st.tasks[id].Fallen())
      && (exists id :: Member(st.tasks, workflow, id) && st.tasks[id].status != COMPLETED)
    case WorkflowCompleted =>
      && Finished(st.tasks, workflow)
      && (exists id :: Member(st.tasks, workflow, id))
    case WorkflowFailed =>
      exists failed :: FailedOnce(st.tasks, workflow, failed)
    case WorkflowCancelled => false
  }

  ghost predicate FailedOnce(tasks: map<Uuid, TaskExecution>, workflow: Uuid, failed: Uuid) {
    && Member(tasks, workflow, failed)
    && tasks[failed].status == FAILED
    && forall id | Member(tasks, workflow, id) && id != failed ::
         tasks[id].status == COMPLETED || tasks[id].status == CANCELLED
  }

  ghost predicate AllLinked(tasks: map<Uuid, TaskExecution>) {
    forall id | id in tasks :: Linked(tasks, id)
  }

  ghost predicate AllCounted(tasks: map<Uuid, TaskExecution>) {
    forall id | id in tasks :: Counted(Completed(tasks), tasks[id])
  }

  ghost predicate AllSettled(tasks: map<Uuid, TaskExecution>) {
    forall id | id in tasks :: tasks[id].id == id && Settled(tasks[id])
  }

  ghost predicate AllAgree(st: Store) {
    && (forall id | id in st.tasks :: st.tasks[id].workflowExecutionId in st.workflows)
    && (forall w | w in st.workflows :: Agrees(st, w))
  }

  ghost predicate Consistent(st: Store) {
    AllLinked(st.tasks) && AllCounted(st.tasks) && AllSettled(st.tasks) && AllAgree(st)
  }

  /******* What only ever moves forward *******/

  /** The part of a row that is written once, when it is created. */
  ghost function Fixed(row: TaskExecution): TaskExecution {
    row.(status := PENDING, remainingDependencies := 0, remainingTries := 0,
         output := None, errorMessage := None, startedAt := None, completedAt := None)
  }

  ghost predicate RowAdvances(before: TaskExecution, after: TaskExecution) {
    && Fixed(after) == Fixed(before)
    && (before.Terminal() ==> after == before)
    && (before.status != PENDING ==> after.status != PENDING)
    && (before.remainingDependencies == 0 ==> after.remainingDependencies == 0)
    && after.remainingTries <= before.remainingTries
  }

  ghost predicate WorkflowAdvances(before: WorkflowExecution, after: WorkflowExecution) {
    && after.workflowDefinitionId == before.workflowDefinitionId
    && (before.status != WorkflowRunning ==> after == before)
  }

  ghost predicate Advances(before: Store, after: Store) {
    && (forall id | id in before.tasks :: id in after.tasks && RowAdvances(before.tasks[id], after.tasks[id]))
    && (forall w | w in before.workflows ::
          w in after.workflows && WorkflowAdvances(before.workflows[w], after.workflows[w]))
  }

  /** No row or workflow is added. */
  ghost predicate SameRows(before: Store, after: Store) {
    after.tasks.Keys == before.tasks.Keys && after.workflows.Keys == before.workflows.Keys
  }

  lemma AdvancesTransitive(a: Store, b: Store, c: Store)
    requires Advances(a, b) && Advances(b, c)
    ensures Advances(a, c)
  {
  }

  lemma LinksStay(before: map<Uuid, TaskExecution>, after: map<Uuid, TaskExecution>)
    requires AllLinked(before) && after.Keys == before.Keys
    requires forall id | id in before :: Fixed(after[id]) == Fixed(before[id])
    ensures AllLinked(after)
  {
    forall id | id in after
      ensures Linked(after, id)
    {
      assert Linked(before, id);
      assert forall x | x in before :: SameLinks(before[x], after[x]);
    }
  }

  ghost predicate SameLinks(a: TaskExecution, b: TaskExecution) {
    && a.parentTaskIds == b.parentTaskIds
    && a.childTaskIds == b.childTaskIds
    && a.workflowExecutionId == b.workflowExecutionId
  }

  /******* start_task *******/

  /** Starting a pending task marks it running and notes the time, and changes nothing else anywhere. */
  lemma StartIsExact(st: Store, id: Uuid, now: Time)
    requires id in st.tasks && st.tasks[id].status == PENDING
    ensures StartTask(st, id, now).workflows == st.workflows
    ensures var after := StartTask(st, id, now).tasks;
            && after.Keys == st.tasks.Keys
            && after[id] == st.tasks[id].(status := RUNNING, startedAt := Some(now))
            && forall x | x in st.tasks && x != id :: after[x] == st.tasks[x]
  {
  }

  lemma StartAdvances(st: Store, id: Uuid, now: Time)
    requires id in st.tasks ==> st.tasks[id].remainingDependencies == 0
    ensures Advances(st, StartTask(st, id, now)) && SameRows(st, StartTask(st, id, now))
  {
  }

  lemma StartKeepsRows(st: Store, id: Uuid, now: Time)
    requires AllCounted(st.tasks) && AllSettled(st.tasks)
    requires id in st.tasks ==> st.tasks[id].remainingDependencies == 0
    ensures AllCounted(StartTask(st, id, now).tasks) && AllSettled(StartTask(st, id, now).tasks)
  {
    var after := StartTask(st, id, now);
    assert Completed(after.tasks) == Completed(st.tasks);
    forall x | x in after.tasks
      ensures Counted(Completed(after.tasks), after.tasks[x])
    {
      assert Counted(Completed(st.tasks), st.tasks[x]);
    }
  }

  lemma StartKeepsAgreement(st: Store, id: Uuid, now: Time)
    requires AllAgree(st) && id in st.tasks && st.tasks[id].status == PENDING
    ensures AllAgree(StartTask(st, id, now))
  {
    var after := StartTask(st, id, now);
    forall w | w in after.workflows
      ensures Agrees(after, w)
    {
      assert Agrees(st, w);
      assert forall x :: Member(after.tasks, w, x) <==> Member(st.tasks, w, x);
      if st.workflows[w].status == WorkflowRunning {
        var open :| Member(st.tasks, w, open) && st.tasks[open].status != COMPLETED;
        assert Member(after.tasks, w, open) && after.tasks[open].status != COMPLETED;
      } else if st.workflows[w].status == WorkflowFailed {
        var failed :| FailedOnce(st.tasks, w, failed);
        assert FailedOnce(after.tasks, w, failed);
      } else {
        assert !Member(st.tasks, w, id);
      }
    }
  }

  lemma StartKeepsConsistent(st: Store, id: Uuid, now: Time)
    requires Consistent(st)
    requires id in st.tasks ==> st.tasks[id].remainingDependencies == 0
    ensures var after := StartTask(st, id, now);
            Consistent(after) && Advances(st, after) && SameRows(st, after)
  {
    hide AllCounted, AllSettled, AllAgree, AllLinked, Advances, SameRows;
    StartAdvances(st, id, now);
    if id in st.tasks && st.tasks[id].status == PENDING {
      LinksStay(st.tasks, StartTask(st, id, now).tasks);
      StartKeepsRows(st, id, now);
      StartKeepsAgreement(st, id, now);
    }
  }

  /******* complete_task *******/

  /** A task that is still open belongs to a running workflow. */
  lemma OpenInRunning(st: Store, id: Uuid)
    requires AllAgree(st) && id in st.tasks && st.tasks[id].Open()
    ensures st.workflows[st.tasks[id].workflowExecutionId].status == WorkflowRunning
  {
    var w := st.tasks[id].workflowExecutionId;
    assert Agrees(st, w) && Member(st.tasks, w, id);
  }

  /** The update guard never drops a decrement: the children of a running task are pending and still wait. */
  lemma ChildrenStillWait(st: Store, id: Uuid, child: Uuid)
    requires Consistent(st) && Running(st, id) && child in st.tasks[id].childTaskIds
    ensures Waiting(st.tasks, child) && child != id
  {
    assert Linked(st.tasks, id);
    var row := st.tasks[child];
    CountZero(row.parentTaskIds, Completed(st.tasks));
    assert Counted(Completed(st.tasks), row);
    assert id !in Completed(st.tasks);
    var w := row.workflowExecutionId;
    OpenInRunning(st, id);
    assert Agrees(st, w) && Member(st.tasks, w, child);
    assert Counted(Completed(st.tasks), st.tasks[id]);
  }

  ghost predicate ChildrenWait(tasks: map<Uuid, TaskExecution>, id: Uuid)
    requires id in tasks
  {
    NoDuplicates(tasks[id].childTaskIds) && forall c | c in tasks[id].childTaskIds :: Waiting(tasks, c) && c != id
  }

  lemma AllChildrenWait(st: Store, id: Uuid)
    requires Consistent(st) && Running(st, id)
    ensures ChildrenWait(st.tasks, id)
  {
    assert Linked(st.tasks, id);
    forall c | c in st.tasks[id].childTaskIds
      ensures Waiting(st.tasks, c) && c != id
    {
      ChildrenStillWait(st, id, c);
    }
  }

  /** The exact effect of completing a running task on every row. */
  ghost predicate CompletionEffect(before: map<Uuid, TaskExecution>, id: Uuid, output: TaskOutput, now: Time,
                                   after: map<Uuid, TaskExecution>)
    requires id in before
  {
    && after.Keys == before.Keys
    && after[id] == before[id].(status := COMPLETED, output := Some(output), completedAt := Some(now))
    && forall x | x in before && x != id ::
         after[x] == if x in before[id].childTaskIds
                     then before[x].(remainingDependencies := before[x].remainingDependencies - 1)
                     else before[x]
  }

  lemma ReleaseEffect(tasks: map<Uuid, TaskExecution>, id: Uuid, output: TaskOutput, now: Time)
    requires id in tasks && ChildrenWait(tasks, id)
    ensures var release := ReleaseChildren(MarkCompleted(tasks, id, output, now), tasks[id].childTaskIds);
            && CompletionEffect(tasks, id, output, now, release.tasks)
            && NoDuplicates(release.runnable)
            && forall x :: x in release.runnable <==>
                 x in tasks[id].childTaskIds && tasks[x].remainingDependencies == 1
  {
    var marked := MarkCompleted(tasks, id, output, now);
    ReleaseDistinct(marked, tasks[id].childTaskIds);
    assert forall c | c in tasks[id].childTaskIds :: Waiting(tasks, c) && marked[c] == tasks[c];
  }

  /** Completing a running task touches exactly that row and its children, and reports exactly the children
    * it leaves without unfinished parents. */
  lemma CompletionIsExact(st: Store, id: Uuid, output: TaskOutput, now: Time)
    requires Consistent(st) && Running(st, id)
    ensures var (after, result) := CompleteTask(st, id, output, now);
            && CompletionEffect(st.tasks, id, output, now, after.tasks)
            && NoDuplicates(result.runnableTaskIds)
            && forall x :: x in result.runnableTaskIds <==>
                 x in st.tasks[id].childTaskIds && st.tasks[x].remainingDependencies == 1
  {
    hide AllCounted, AllSettled, AllAgree, AllLinked, CompletionEffect, ChildrenWait, ReleaseChildren;
    AllChildrenWait(st, id);
    ReleaseEffect(st.tasks, id, output, now);
  }

  /** Completing a running task completes its workflow iff that was running and no task of it is left unfinished. */
  lemma CompletionOfWorkflow(st: Store, id: Uuid, output: TaskOutput, now: Time)
    requires Running(st, id)
    ensures var (after, result) := CompleteTask(st, id, output, now);
            var w := st.tasks[id].workflowExecutionId;
            && (result.workflowCompleted <==>
                  && w in st.workflows && st.workflows[w].status == WorkflowRunning
                  && forall x | x in after.tasks && after.tasks[x].workflowExecutionId == w :: after.tasks[x].status == COMPLETED)
            && after.workflows ==
                 if result.workflowCompleted
                 then st.workflows[w := WorkflowExecution(
                        st.workflows[w].workflowDefinitionId, WorkflowCompleted, Some(now))]
                 else st.workflows
  {
    hide ReleaseChildren;
  }

  lemma CompletionAdvances(before: map<Uuid, TaskExecution>, id: Uuid, output: TaskOutput, now: Time,
                           after: map<Uuid, TaskExecution>)
    requires id in before && before[id].status == RUNNING && ChildrenWait(before, id)
    requires CompletionEffect(before, id, output, now, after)
    ensures forall x | x in before :: RowAdvances(before[x], after[x])
  {
  }

  lemma CompletionSettles(before: map<Uuid, TaskExecution>, id: Uuid, output: TaskOutput, now: Time,
                          after: map<Uuid, TaskExecution>)
    requires id in before && before[id].status == RUNNING && ChildrenWait(before, id) && AllSettled(before)
    requires CompletionEffect(before, id, output, now, after)
    ensures AllSettled(after)
  {
  }

  lemma CompletionCounts(before: map<Uuid, TaskExecution>, id: Uuid, output: TaskOutput, now: Time,
                         after: map<Uuid, TaskExecution>)
    requires AllLinked(before) && AllCounted(before)
    requires id in before && before[id].status == RUNNING && ChildrenWait(before, id)
    requires CompletionEffect(before, id, output, now, after)
    ensures AllCounted(after)
  {
    var completed := Completed(before);
    NewlyCompleted(before, id, output, now, after);
    forall x | x in after
      ensures Counted(completed + {id}, after[x])
    {
      assert Counted(completed, before[x]) && Linked(before, x) && Linked(before, id);
      CountGrows(before[x].parentTaskIds, completed, id);
      assert id in before[x].parentTaskIds <==> x in before[id].childTaskIds;
    }
  }

  lemma NewlyCompleted(before: map<Uuid, TaskExecution>, id: Uuid, output: TaskOutput, now: Time,
                       after: map<Uuid, TaskExecution>)
    requires id in before && before[id].status == RUNNING && ChildrenWait(before, id)
    requires CompletionEffect(before, id, output, now, after)
    ensures Completed(after) == Completed(before) + {id} && id !in Completed(before)
  {
  }

  /** A workflow whose own tasks keep their status keeps agreeing. */
  lemma OtherWorkflowAgrees(st: Store, after: Store, w: Uuid)
    requires w in st.workflows && Agrees(st, w)
    requires w in after.workflows && after.workflows[w] == st.workflows[w]
    requires forall x :: Member(after.tasks, w, x) <==> Member(st.tasks, w, x)
    requires forall x | Member(st.tasks, w, x) && Member(after.tasks, w, x) :: after.tasks[x].status == st.tasks[x].status
    ensures Agrees(after, w)
  {
    match st.workflows[w].status
    case WorkflowRunning =>
      var open :| Member(st.tasks, w, open) && st.tasks[open].status != COMPLETED;
      assert Member(after.tasks, w, open);
    case WorkflowCompleted =>
      var any :| Member(st.tasks, w, any);
      assert Member(after.tasks, w, any);
      forall x | x in after.tasks && after.tasks[x].workflowExecutionId == w
        ensures after.tasks[x].status == COMPLETED
      {
        assert Member(after.tasks, w, x);
      }
    case WorkflowFailed =>
      var failed :| FailedOnce(st.tasks, w, failed);
      assert FailedOnce(after.tasks, w, failed);
    case WorkflowCancelled =>
  }

  /** What completion does to statuses. */
  ghost predicate StatusEffect(before: map<Uuid, TaskExecution>, id: Uuid, after: map<Uuid, TaskExecution>)
    requires id in before
  {
    && after.Keys == before.Keys
    && after[id].status == COMPLETED
    && (forall x | x in before :: after[x].workflowExecutionId == before[x].workflowExecutionId)
    && (forall x | x in before && x != id :: after[x].status == before[x].status)
  }

  lemma CompletionStatuses(before: map<Uuid, TaskExecution>, id: Uuid, output: TaskOutput, now: Time,
                           after: map<Uuid, TaskExecution>)
    requires id in before && CompletionEffect(before, id, output, now, after)
    ensures StatusEffect(before, id, after)
  {
  }

  /** The workflow of the completed task is completed when that task was its last, and stays running otherwise. */
  lemma OwnWorkflowAgrees(st: Store, id: Uuid, tasks: map<Uuid, TaskExecution>, now: Time)
    requires AllAgree(st) && Running(st, id)
    requires StatusEffect(st.tasks, id, tasks)
    ensures var w := st.tasks[id].workflowExecutionId;
            Agrees(CompleteWorkflowIfFinished(Store(tasks, st.workflows), w, now), w)
  {
    var w := st.tasks[id].workflowExecutionId;
    OpenInRunning(st, id);
    assert Agrees(st, w);
    assert Member(tasks, w, id);
    assert forall x :: Member(tasks, w, x) <==> Member(st.tasks, w, x);
    if !Finished(tasks, w) {
      var open :| open in tasks && tasks[open].workflowExecutionId == w && tasks[open].status != COMPLETED;
      assert Member(tasks, w, open);
    }
  }

  lemma CompletionKeepsAgreement(st: Store, id: Uuid, tasks: map<Uuid, TaskExecution>, now: Time)
    requires AllAgree(st) && Running(st, id)
    requires StatusEffect(st.tasks, id, tasks)
    ensures AllAgree(CompleteWorkflowIfFinished(Store(tasks, st.workflows), st.tasks[id].workflowExecutionId, now))
  {
    var mine := st.tasks[id].workflowExecutionId;
    var after := CompleteWorkflowIfFinished(Store(tasks, st.workflows), mine, now);
    OwnWorkflowAgrees(st, id, tasks, now);
    forall w | w in after.workflows && w != mine
      ensures Agrees(after, w)
    {
      hide Agrees;
      assert Agrees(st, w);
      assert forall x :: Member(tasks, w, x) <==> Member(st.tasks, w, x);
      OtherWorkflowAgrees(st, after, w);
    }
  }

  lemma CompleteKeepsConsistent(st: Store, id: Uuid, output: TaskOutput, now: Time)
    requires Consistent(st)
    ensures Consistent(CompleteTask(st, id, output, now).0)
  {
    if Running(st, id) {
      hide AllCounted, AllSettled, AllAgree, AllLinked, CompletionEffect, StatusEffect, ChildrenWait,
           ReleaseChildren, RowAdvances;
      AllChildrenWait(st, id);
      CompletionIsExact(st, id, output, now);
      var tasks := CompleteTask(st, id, output, now).0.tasks;
      CompletionSettles(st.tasks, id, output, now, tasks);
      CompletionCounts(st.tasks, id, output, now, tasks);
      CompletionStatuses(st.tasks, id, output, now, tasks);
      CompletionKeepsAgreement(st, id, tasks, now);
      CompletionKeepsLinks(st.tasks, id, output, now, tasks);
    }
  }

  lemma CompletionKeepsLinks(before: map<Uuid, TaskExecution>, id: Uuid, output: TaskOutput, now: Time,
                             after: map<Uuid, TaskExecution>)
    requires id in before && CompletionEffect(before, id, output, now, after) && AllLinked(before)
    ensures AllLinked(after)
  {
    hide AllLinked;
    LinksStay(before, after);
  }

  lemma CompletionWorkflows(st: Store, id: Uuid, output: TaskOutput, now: Time)
    requires Running(st, id)
    ensures var after := CompleteTask(st, id, output, now).0;
            && after.workflows.Keys == st.workflows.Keys
            && forall w | w in st.workflows :: WorkflowAdvances(st.workflows[w], after.workflows[w])
  {
    hide ReleaseChildren, Finished;
  }

  lemma CompleteAdvances(st: Store, id: Uuid, output: TaskOutput, now: Time)
    requires Consistent(st)
    ensures var after := CompleteTask(st, id, output, now).0;
            Advances(st, after) && SameRows(st, after)
  {
    if Running(st, id) {
      hide AllCounted, AllSettled, AllAgree, AllLinked, CompletionEffect, ChildrenWait, ReleaseChildren, RowAdvances;
      AllChildrenWait(st, id);
      CompletionIsExact(st, id, output, now);
      CompletionWorkflows(st, id, output, now);
      var after := CompleteTask(st, id, output, now).0;
      CompletionAdvances(st.tasks, id, output, now, after.tasks);
      SameKeysEffect(st.tasks, id, output, now, after.tasks);
      hide Advances, SameRows, CompleteTask;
      PartsAdvance(st, after);
    } else {
      SameStoreAdvances(st);
    }
  }

  lemma PartsAdvance(before: Store, after: Store)
    requires after.tasks.Keys == before.tasks.Keys && after.workflows.Keys == before.workflows.Keys
    requires forall x | x in before.tasks :: RowAdvances(before.tasks[x], after.tasks[x])
    requires forall w | w in before.workflows :: WorkflowAdvances(before.workflows[w], after.workflows[w])
    ensures Advances(before, after) && SameRows(before, after)
  {
    hide RowAdvances, WorkflowAdvances;
  }

  lemma SameStoreAdvances(st: Store)
    ensures Advances(st, st) && SameRows(st, st)
  {
  }

  lemma SameKeysEffect(before: map<Uuid, TaskExecution>, id: Uuid, output: TaskOutput, now: Time,
                       after: map<Uuid, TaskExecution>)
    requires id in before && CompletionEffect(before, id, output, now, after)
    ensures after.Keys == before.Keys
  {
  }

  /******* retry_task *******/

  /** The exact effect of a failed attempt that leaves no try. */
  ghost predicate FailureEffect(before: map<Uuid, TaskExecution>, id: Uuid, message: Option<string>, now: Time,
                                after: map<Uuid, TaskExecution>)
    requires id in before
  {
    && after.Keys == before.Keys
    && after[id] == before[id].(
         status := FAILED, remainingTries := 0, errorMessage := message, completedAt := Some(now))
    && forall x | x in before && x != id ::
         after[x] == if before[x].workflowExecutionId == before[id].workflowExecutionId && before[x].Open()
                     then before[x].(status := CANCELLED, completedAt := Some(now))
                     else before[x]
  }

  /** The last failed attempt fails the task, cancels every other open task of its workflow and nothing else. */
  lemma FailureIsExact(st: Store, id: Uuid, message: Option<string>, now: Time)
    requires AllAgree(st) && Running(st, id) && st.tasks[id].remainingTries == 1
    ensures var (after, result) := RetryTask(st, id, message, now);
            var w := st.tasks[id].workflowExecutionId;
            && FailureEffect(st.tasks, id, message, now, after.tasks)
            && result == RetryResult(false, true)
            && w in st.workflows
            && after.workflows == st.workflows[w :=
                 st.workflows[w].(status := WorkflowFailed, completedAt := Some(now))]
            && st.workflows[w].status == WorkflowRunning
  {
    OpenInRunning(st, id);
  }

  /** A failed attempt that leaves tries takes one of them, notes the message, and changes nothing else anywhere:
    * the task keeps running. */
  lemma AttemptIsExact(st: Store, id: Uuid, message: Option<string>, now: Time)
    requires Running(st, id) && st.tasks[id].remainingTries > 1
    ensures RetryTask(st, id, message, now)
         == (st.(tasks := st.tasks[id := st.tasks[id].(
               remainingTries := st.tasks[id].remainingTries - 1, errorMessage := message, completedAt := None)]),
             RetryResult(true, false))
  {
  }

  /** Results for a task that is not running, and starts of one that is not pending, change nothing and report nothing. */
  lemma GuardsHold(st: Store, id: Uuid, output: TaskOutput, message: Option<string>, now: Time)
    ensures !Running(st, id) ==>
              && CompleteTask(st, id, output, now) == (st, CompleteResult([], false))
              && RetryTask(st, id, message, now) == (st, RetryResult(false, false))
    ensures !(id in st.tasks && st.tasks[id].status == PENDING) ==> StartTask(st, id, now) == st
  {
  }

  /** The counters stay right when no task completes. */
  lemma CountsStay(before: map<Uuid, TaskExecution>, after: map<Uuid, TaskExecution>)
    requires AllCounted(before) && after.Keys == before.Keys
    requires forall x | x in before ::
        && after[x].parentTaskIds == before[x].parentTaskIds
        && after[x].remainingDependencies == before[x].remainingDependencies
        && (after[x].status == COMPLETED <==> before[x].status == COMPLETED)
        && (after[x].status == RUNNING || after[x].status == FAILED ==> before[x].status == RUNNING || before[x].status == FAILED)
    ensures AllCounted(after)
  {
    assert Completed(after) == Completed(before);
    forall x | x in after
      ensures Counted(Completed(after), after[x])
    {
      assert Counted(Completed(before), before[x]);
    }
  }

  lemma FailureKeepsAgreement(st: Store, id: Uuid, message: Option<string>, now: Time)
    requires AllAgree(st) && Running(st, id) && st.tasks[id].remainingTries == 1
    ensures AllAgree(RetryTask(st, id, message, now).0)
  {
    hide RetryTask;
    FailureIsExact(st, id, message, now);
    var after := RetryTask(st, id, message, now).0;
    var mine := st.tasks[id].workflowExecutionId;
    forall w | w in after.workflows
      ensures Agrees(after, w)
    {
      assert Agrees(st, w);
      if w == mine {
        FailedWorkflowAgrees(st, id, message, now, after);
      } else {
        assert forall x :: Member(after.tasks, w, x) <==> Member(st.tasks, w, x);
        OtherWorkflowAgrees(st, after, w);
      }
    }
  }

  lemma FailedWorkflowAgrees(st: Store, id: Uuid, message: Option<string>, now: Time, after: Store)
    requires Running(st, id) && st.tasks[id].remainingTries == 1
    requires FailureEffect(st.tasks, id, message, now, after.tasks)
    requires var w := st.tasks[id].workflowExecutionId;
             && w in st.workflows && st.workflows[w].status == WorkflowRunning && Agrees(st, w)
             && w in after.workflows && after.workflows[w].status == WorkflowFailed
    ensures Agrees(after, st.tasks[id].workflowExecutionId)
  {
    var w := st.tasks[id].workflowExecutionId;
    forall x | Member(after.tasks, w, x) && x != id
      ensures after.tasks[x].status == COMPLETED || after.tasks[x].status == CANCELLED
    {
      assert Member(st.tasks, w, x);
    }
    assert FailedOnce(after.tasks, w, id);
  }

  lemma FailureKeepsRows(before: map<Uuid, TaskExecution>, id: Uuid, message: Option<string>, now: Time,
                         after: map<Uuid, TaskExecution>)
    requires id in before && before[id].status == RUNNING && before[id].remainingTries == 1
    requires FailureEffect(before, id, message, now, after)
    requires AllCounted(before) && AllSettled(before)
    ensures AllCounted(after) && AllSettled(after)
    ensures forall x | x in before :: RowAdvances(before[x], after[x])
  {
    hide AllCounted;
    CountsStay(before, after);
  }

  lemma AttemptKeepsRows(st: Store, id: Uuid, message: Option<string>, now: Time)
    requires AllCounted(st.tasks) && AllSettled(st.tasks) && Running(st, id) && st.tasks[id].remainingTries > 1
    ensures var after := RetryTask(st, id, message, now).0;
            && AllCounted(after.tasks) && AllSettled(after.tasks)
            && Advances(st, after) && SameRows(st, after)
  {
    hide AllCounted;
    CountsStay(st.tasks, RetryTask(st, id, message, now).0.tasks);
  }

  lemma AttemptKeepsAgreement(st: Store, id: Uuid, message: Option<string>, now: Time)
    requires AllAgree(st) && Running(st, id) && st.tasks[id].remainingTries > 1
    ensures AllAgree(RetryTask(st, id, message, now).0)
  {
    var after := RetryTask(st, id, message, now).0;
    forall w | w in after.workflows
      ensures Agrees(after, w)
    {
      OtherWorkflowAgrees(st, after, w);
    }
  }

  lemma FailureKeepsLinks(before: map<Uuid, TaskExecution>, id: Uuid, message: Option<string>, now: Time,
                          after: map<Uuid, TaskExecution>)
    requires id in before && FailureEffect(before, id, message, now, after) && AllLinked(before)
    ensures AllLinked(after)
  {
    hide AllLinked;
    LinksStay(before, after);
  }

  lemma AttemptKeepsLinks(st: Store, id: Uuid, message: Option<string>, now: Time)
    requires AllLinked(st.tasks) && Running(st, id) && st.tasks[id].remainingTries > 1
    ensures AllLinked(RetryTask(st, id, message, now).0.tasks)
  {
    hide AllLinked;
    LinksStay(st.tasks, RetryTask(st, id, message, now).0.tasks);
  }

  lemma AttemptKeepsConsistent(st: Store, id: Uuid, message: Option<string>, now: Time)
    requires Consistent(st) && Running(st, id) && st.tasks[id].remainingTries > 1
    ensures var after := RetryTask(st, id, message, now).0;
            Consistent(after) && Advances(st, after) && SameRows(st, after)
  {
    hide AllCounted, AllSettled, AllAgree, AllLinked, Advances, SameRows, RetryTask;
    AttemptKeepsRows(st, id, message, now);
    AttemptKeepsAgreement(st, id, message, now);
    AttemptKeepsLinks(st, id, message, now);
  }

  lemma FailureKeepsConsistent(st: Store, id: Uuid, message: Option<string>, now: Time)
    requires Consistent(st) && Running(st, id) && st.tasks[id].remainingTries == 1
    ensures var after := RetryTask(st, id, message, now).0;
            Consistent(after) && Advances(st, after) && SameRows(st, after)
  {
    hide AllCounted, AllSettled, AllAgree, AllLinked, RowAdvances, FailureEffect, RetryTask, Advances, SameRows;
    var after := RetryTask(st, id, message, now).0;
    FailureIsExact(st, id, message, now);
    FailureKeepsRows(st.tasks, id, message, now, after.tasks);
    FailureKeepsAgreement(st, id, message, now);
    SameKeysFailure(st.tasks, id, message, now, after.tasks);
    FailureKeepsLinks(st.tasks, id, message, now, after.tasks);
    PartsAdvance(st, after);
  }

  lemma RetryKeepsConsistent(st: Store, id: Uuid, message: Option<string>, now: Time)
    requires Consistent(st)
    ensures var after := RetryTask(st, id, message, now).0;
            Consistent(after) && Advances(st, after) && SameRows(st, after)
  {
    hide AllCounted, AllSettled, AllAgree, AllLinked, Advances, SameRows;
    if !Retriable(st, id) {
      SameStoreAdvances(st);
    } else if st.tasks[id].remainingTries > 1 {
      AttemptKeepsConsistent(st, id, message, now);
    } else {
      FailureKeepsConsistent(st, id, message, now);
    }
  }

  lemma SameKeysFailure(before: map<Uuid, TaskExecution>, id: Uuid, message: Option<string>, now: Time,
                        after: map<Uuid, TaskExecution>)
    requires id in before && FailureEffect(before, id, message, now, after)
    ensures after.Keys == before.Keys
  {
  }
}
