/** What adds up over whole runs: releases, tries and transitions. */
module Accounting {
  import opened Domain
  import opened DefinitionGraph
  import opened StartService
  import opened ExecutionStore
  import opened StoreInvariant
  import opened Creation
  import opened Protocol
  import opened ProtocolInvariant
  import Q = QueueModel

  /******* Exactly-once release *******/

  /** The result a worker is about to commit. */
  ghost predicate Committing(s: System, step: Step) {
    step.Commit? && Busy(s, step.worker) && s.workers[step.worker].phase.Executed?
  }

  ghost function TaskOf(s: System, step: Step): Uuid
    requires Committing(s, step)
  {
    s.workers[step.worker].claim.taskExecutionId
  }

  ghost function ResultOf(s: System, step: Step): TaskResult
    requires Committing(s, step)
  {
    s.workers[step.worker].phase.result
  }

  /** The ids a step reports as newly runnable: the roots of a new execution, the released children of a completed task. */
  ghost function Reported(s: System, step: Step): seq<Uuid> {
    if step.Start? then Roots(step.executions)
    else if Committing(s, step) then
      CommitResult(s.store, TaskOf(s, step), ResultOf(s, step), s.queue.clock).1.enqueueTaskIds
    else []
  }

  ghost function ReportedIn(s: System, steps: seq<Step>): seq<Uuid>
    decreases steps
  {
    if steps == [] then [] else Reported(s, steps[0]) + ReportedIn(Apply(s, steps[0]), steps[1..])
  }

  ghost function Times(ids: seq<Uuid>, id: Uuid): nat {
    multiset(ids)[id]
  }

  lemma {:induction false} TimesOnce(ids: seq<Uuid>, id: Uuid)
    requires NoDuplicates(ids)
    ensures Times(ids, id) == if id in ids then 1 else 0
    decreases |ids|
  {
    if ids != [] {
      var front, last := ids[..|ids| - 1], ids[|ids| - 1];
      assert ids == front + [last];
      assert forall i, j | 0 <= i < j < |front| :: ids[i] == front[i] && ids[j] == front[j];
      assert last !in front;
      TimesOnce(front, id);
    }
  }

  lemma {:induction false} RootsDistinct(executions: seq<TaskExecution>)
    requires forall i, j | 0 <= i < j < |executions| :: executions[i].id != executions[j].id
    ensures NoDuplicates(Roots(executions))
  {
    if executions != [] {
      var front, last := executions[..|executions| - 1], executions[|executions| - 1];
      assert forall i | 0 <= i < |front| :: front[i] == executions[i];
      RootsDistinct(front);
      RootsHaveNoParents(front);
      forall i | 0 <= i < |front|
        ensures front[i].id != last.id
      {
        assert executions[i].id != executions[|executions| - 1].id;
      }
      assert last.id !in Roots(front);
    }
  }

  /** A step reports each id at most once, and exactly those that become ready by it. */
  ghost predicate ReportsExactly(before: Store, reported: seq<Uuid>, after: Store) {
    && NoDuplicates(reported)
    && forall id :: id in reported <==> Ready(after.tasks, id) && !Ready(before.tasks, id)
  }

  /** The roots are the new rows that wait for nothing. */
  lemma RootsAreReadyRows(tasks: seq<TaskDefinition>, ids: map<Uuid, Uuid>, workflow: Uuid, executions: seq<TaskExecution>)
    requires UniqueIds(tasks) && Assigns(ids, tasks) && CompiledFrom(tasks, ids, workflow, executions)
    ensures NoDuplicates(Roots(executions))
    ensures forall id :: id in Roots(executions) <==> Ready(Rows(executions), id)
  {
    forall i, j | 0 <= i < j < |executions|
      ensures executions[i].id != executions[j].id
    {
      assert tasks[i].id in ids && tasks[j].id in ids;
    }
    hide CompiledFrom, Assigns;
    RootsDistinct(executions);
    RootsHaveNoParents(executions);
    RowsHold(executions);
    hide Rows, Roots;
    forall id
      ensures id in Roots(executions) <==> Ready(Rows(executions), id)
    {
      if Ready(Rows(executions), id) {
        var i :| 0 <= i < |executions| && executions[i].id == id;
      }
    }
  }

  lemma CreateReports(st: Store, workflow: Uuid, definition: Uuid, executions: seq<TaskExecution>)
    requires st.tasks.Keys !! Rows(executions).Keys
    requires NoDuplicates(Roots(executions))
    requires forall id :: id in Roots(executions) <==> Ready(Rows(executions), id)
    ensures ReportsExactly(st, Roots(executions), CreateExecution(st, workflow, definition, executions))
  {
    hide Rows, Roots;
  }

  lemma StartReports(s: System, step: Step)
    requires StoreOk(s.definitions, s.layouts, s.store) && step.Start? && Enabled(0.0, s, step)
    ensures ReportsExactly(s.store, Roots(step.executions), StoreAfter(s, step))
  {
    var tasks := s.definitions[step.definitionId].taskDefinitions;
    assert UniqueIds(tasks);
    hide StoreOk, WellFormed, ReportsExactly, Rows, Roots, CreateExecution, CompiledFrom, Assigns;
    RootsAreReadyRows(tasks, step.ids, step.workflow, step.executions);
    CreateReports(s.store, step.workflow, step.definitionId, step.executions);
  }

  lemma CompletionReports(st: Store, id: Uuid, output: TaskOutput, now: Time)
    requires Consistent(st)
    ensures var (after, result) := CompleteTask(st, id, output, now);
            ReportsExactly(st, result.runnableTaskIds, after)
  {
    if Running(st, id) {
      CompletionIsExact(st, id, output, now);
      AllChildrenWait(st, id);
      var (after, result) := CompleteTask(st, id, output, now);
      hide CompleteTask, Consistent, CompletionEffect, ChildrenWait, ReportsExactly;
      ReleasedBecomeReady(st, id, output, now, after, result.runnableTaskIds);
    }
  }

  lemma ReleasedBecomeReady(st: Store, id: Uuid, output: TaskOutput, now: Time, after: Store, runnable: seq<Uuid>)
    requires Running(st, id) && ChildrenWait(st.tasks, id) && CompletionEffect(st.tasks, id, output, now, after.tasks)
    requires NoDuplicates(runnable)
    requires forall x :: x in runnable <==> x in st.tasks[id].childTaskIds && st.tasks[x].remainingDependencies == 1
    ensures ReportsExactly(st, runnable, after)
  {
  }

  lemma RetryReports(st: Store, id: Uuid, message: Option<string>, now: Time)
    requires Consistent(st)
    ensures ReportsExactly(st, [], RetryTask(st, id, message, now).0)
  {
    if Retriable(st, id) {
      hide Consistent;
    }
  }

  lemma StepReports(lease: Time, s: System, step: Step)
    requires Inv(s) && Enabled(lease, s, step)
    ensures ReportsExactly(s.store, Reported(s, step), Apply(s, step).store)
  {
    hide ReportsExactly, Consistent, AllLaid, JointOk, CompleteTask, RetryTask;
    if step.Start? {
      StartReports(s, step);
    } else if Committing(s, step) {
      if ResultOf(s, step).succeeded {
        CompletionReports(s.store, TaskOf(s, step), ResultOf(s, step).output, s.queue.clock);
      } else {
        RetryReports(s.store, TaskOf(s, step), ResultOf(s, step).message, s.queue.clock);
      }
    } else {
      NothingReported(s, step);
    }
  }

  lemma NothingReported(s: System, step: Step)
    requires !step.Start? && !Committing(s, step)
    ensures ReportsExactly(s.store, [], StoreAfter(s, step))
  {
  }

  lemma ReadyForGood(st: Store, after: Store, id: Uuid)
    requires Advances(st, after) && Ready(st.tasks, id)
    ensures Ready(after.tasks, id)
  {
    ReadyStays(st, after, id);
  }

  /** Over any run, the reports of a task number one if it became ready during the run, and zero otherwise. */
  lemma {:induction false} ReleasedOnce(lease: Time, s: System, steps: seq<Step>, id: Uuid)
    requires Inv(s) && Run(lease, s, steps)
    ensures Times(ReportedIn(s, steps), id)
         == if Ready(After(s, steps).store.tasks, id) && !Ready(s.store.tasks, id) then 1 else 0
    decreases steps
  {
    hide Inv, Enabled, Apply, Reported, Ready;
    if steps != [] {
      var next, rest := Apply(s, steps[0]), steps[1..];
      StepKeepsInv(lease, s, steps[0]);
      StoreStep(lease, s, steps[0]);
      StepReports(lease, s, steps[0]);
      TimesOnce(Reported(s, steps[0]), id);
      ReleasedOnce(lease, next, rest, id);
      RunKeepsInv(lease, next, rest);
      if Ready(s.store.tasks, id) {
        ReadyForGood(s.store, next.store, id);
      }
      if Ready(next.store.tasks, id) {
        ReadyForGood(next.store, After(next, rest).store, id);
      }
    }
  }

  /** From the start of the platform, no task is ever reported twice, and one that has started, completed or
    * failed was reported exactly once. */
  lemma ReleasedExactlyOnce(lease: Time, now: Time, steps: seq<Step>, id: Uuid)
    requires Run(lease, Initial(now), steps)
    ensures var s, times := After(Initial(now), steps), Times(ReportedIn(Initial(now), steps), id);
            && times <= 1
            && (times == 1 <==> Ready(s.store.tasks, id))
            && (id in s.store.tasks && s.store.tasks[id].status != PENDING && s.store.tasks[id].status != CANCELLED ==>
                  times == 1)
  {
    hide Run, After, ReportedIn;
    InitialInv(now);
    ReleasedOnce(lease, Initial(now), steps, id);
    RunKeepsInv(lease, Initial(now), steps);
    var s := After(Initial(now), steps);
    if id in s.store.tasks {
      assert Counted(Completed(s.store.tasks), s.store.tasks[id]);
    }
  }

  /** The completion that reports a child is that of its last unfinished parent. */
  lemma ReportedByLastParent(lease: Time, s: System, step: Step, child: Uuid)
    requires Reachable(lease, s) && Enabled(lease, s, step) && step.Commit? && child in Reported(s, step)
    ensures var parent := TaskOf(s, step);
            && child in s.store.tasks && parent in s.store.tasks[child].parentTaskIds
            && s.store.tasks[parent].status == RUNNING
            && forall p | p in s.store.tasks[child].parentTaskIds && p != parent :: p in Completed(s.store.tasks)
  {
    ReachableInv(lease, s);
    StoreIsConsistent(s);
    hide Reachable, Inv, Consistent, Enabled;
    var id, result, now := TaskOf(s, step), ResultOf(s, step), s.queue.clock;
    if result.succeeded {
      LastParent(s.store, id, result.output, now, child);
    }
  }

  lemma LastParent(st: Store, id: Uuid, output: TaskOutput, now: Time, child: Uuid)
    requires Consistent(st) && child in CompleteTask(st, id, output, now).1.runnableTaskIds
    ensures id in st.tasks && st.tasks[id].status == RUNNING
    ensures child in st.tasks && id in st.tasks[child].parentTaskIds
    ensures forall p | p in st.tasks[child].parentTaskIds && p != id :: p in Completed(st.tasks)
  {
    assert Running(st, id);
    CompletionIsExact(st, id, output, now);
    assert Linked(st.tasks, id) && child in st.tasks;
    assert Linked(st.tasks, child) && Counted(Completed(st.tasks), st.tasks[child]);
    hide Consistent, CompleteTask, CompletionEffect;
    OnlyOneLeft(st.tasks[child].parentTaskIds, Completed(st.tasks), id);
  }

  lemma OnlyOneLeft(parents: seq<Uuid>, completed: set<Uuid>, id: Uuid)
    requires NoDuplicates(parents) && CountOutside(parents, completed) == 1 && id in parents && id !in completed
    ensures forall p | p in parents && p != id :: p in completed
  {
    CountGrows(parents, completed, id);
    CountZero(parents, completed + {id});
  }

  /******* Tries *******/

  /** One when the step commits a failed attempt at `id` that was accepted. */
  ghost function FailedAttempts(s: System, step: Step, id: Uuid): nat {
    if Committing(s, step) && TaskOf(s, step) == id && !ResultOf(s, step).succeeded && Retriable(s.store, id)
    then 1 else 0
  }

  ghost function FailuresIn(s: System, steps: seq<Step>, id: Uuid): nat
    decreases steps
  {
    if steps == [] then 0 else FailedAttempts(s, steps[0], id) + FailuresIn(Apply(s, steps[0]), steps[1..], id)
  }

  /** The tries the definition of a stored task grants. */
  ghost function MaxTries(definitions: Definitions, st: Store, id: Uuid): int
    requires id in st.tasks
  {
    var tasks := DefinitionOf(definitions, st, st.tasks[id].workflowExecutionId);
    if st.tasks[id].taskDefinitionId in Ids(tasks)
    then tasks[Position(tasks, st.tasks[id].taskDefinitionId)].maxTries
    else 0
  }

  lemma CompletionKeepsTries(st: Store, id: Uuid, output: TaskOutput, now: Time, x: Uuid)
    requires Consistent(st) && x in st.tasks
    ensures var after := CompleteTask(st, id, output, now).0;
            x in after.tasks && after.tasks[x].remainingTries == st.tasks[x].remainingTries
  {
    if Running(st, id) {
      hide Consistent, CompleteTask;
      CompletionIsExact(st, id, output, now);
    }
  }

  lemma RetrySpendsTries(st: Store, id: Uuid, message: Option<string>, now: Time, x: Uuid)
    requires x in st.tasks
    ensures var after := RetryTask(st, id, message, now).0;
            && x in after.tasks
            && after.tasks[x].remainingTries + (if x == id && Retriable(st, id) then 1 else 0) == st.tasks[x].remainingTries
  {
  }

  /** A step that commits no result leaves every row alone, or starts one. */
  lemma QuietStep(lease: Time, s: System, step: Step, id: Uuid)
    requires Enabled(lease, s, step) && !Committing(s, step) && id in s.store.tasks
    ensures var tasks, after := s.store.tasks, Apply(s, step).store.tasks;
            && id in after
            && after[id].remainingTries == tasks[id].remainingTries
            && (after[id].status == tasks[id].status || (tasks[id].status == PENDING && after[id].status == RUNNING))
  {
    hide Rows, CompiledFrom, WorkersAfter, PublishersAfter, QueueSteps, Starts, WellFormed, Assigns, ListsRunnable;
  }

  lemma StepSpendsTries(lease: Time, s: System, step: Step, id: Uuid)
    requires Inv(s) && Enabled(lease, s, step) && id in s.store.tasks
    ensures id in Apply(s, step).store.tasks
    ensures Apply(s, step).store.tasks[id].remainingTries + FailedAttempts(s, step, id) == s.store.tasks[id].remainingTries
  {
    hide CompleteTask, RetryTask, Consistent, AllLaid, JointOk, Q.QueueOk;
    if Committing(s, step) {
      if ResultOf(s, step).succeeded {
        CompletionKeepsTries(s.store, TaskOf(s, step), ResultOf(s, step).output, s.queue.clock, id);
      } else {
        RetrySpendsTries(s.store, TaskOf(s, step), ResultOf(s, step).message, s.queue.clock, id);
      }
    } else {
      hide Apply, Enabled;
      QuietStep(lease, s, step, id);
    }
  }

  lemma NewRowOfStart(tasks: seq<TaskDefinition>, ids: map<Uuid, Uuid>, workflow: Uuid, executions: seq<TaskExecution>, id: Uuid)
    requires UniqueIds(tasks) && Assigns(ids, tasks) && CompiledFrom(tasks, ids, workflow, executions)
    requires id in Rows(executions)
    ensures var row := Rows(executions)[id];
            && row.workflowExecutionId == workflow
            && row.taskDefinitionId in Ids(tasks)
            && row.remainingTries == tasks[Position(tasks, row.taskDefinitionId)].maxTries
  {
    CompiledRows(tasks, ids, workflow, executions);
    hide CompiledFrom, Rows, Assigns;
    var i :| 0 <= i < |tasks| && ExecutionId(ids, tasks[i].id) == id;
    assert Position(tasks, tasks[i].id) == i;
  }

  /** Fresh rows hold all the tries of their definition. */
  lemma NewRowTries(lease: Time, s: System, step: Step, id: Uuid)
    requires Inv(s) && Enabled(lease, s, step) && id !in s.store.tasks && id in Apply(s, step).store.tasks
    ensures var after := Apply(s, step);
            after.store.tasks[id].remainingTries == MaxTries(after.definitions, after.store, id)
    ensures FailedAttempts(s, step, id) == 0
  {
    hide Inv, Apply, MaxTries;
    if step.Start? {
      StartIsCompiled(lease, s, step);
      hide Enabled;
      StartedRowTries(s, step, id);
    } else {
      hide Enabled;
      OnlyStartAddsRows(lease, s, step);
    }
  }

  lemma StartIsCompiled(lease: Time, s: System, step: Step)
    requires Inv(s) && Enabled(lease, s, step) && step.Start?
    ensures step.definitionId in s.definitions
    ensures var tasks := s.definitions[step.definitionId].taskDefinitions;
            && UniqueIds(tasks) && Assigns(step.ids, tasks)
            && CompiledFrom(tasks, step.ids, step.workflow, step.executions)
  {
    hide Consistent, AllLaid, JointOk, Q.QueueOk, CompiledFrom, Assigns;
  }

  lemma StartedRowTries(s: System, step: Step, id: Uuid)
    requires step.Start? && step.definitionId in s.definitions
    requires var tasks := s.definitions[step.definitionId].taskDefinitions;
             && UniqueIds(tasks) && Assigns(step.ids, tasks)
             && CompiledFrom(tasks, step.ids, step.workflow, step.executions)
    requires id !in s.store.tasks && id in Apply(s, step).store.tasks
    ensures var after := Apply(s, step);
            after.store.tasks[id].remainingTries == MaxTries(after.definitions, after.store, id)
  {
    hide Assigns, CompiledFrom, Rows, Roots, WorkersAfter, PublishersAfter, QueueSteps;
    assert id in Rows(step.executions);
    NewRowOfStart(s.definitions[step.definitionId].taskDefinitions, step.ids, step.workflow, step.executions, id);
  }

  lemma OnlyStartAddsRows(lease: Time, s: System, step: Step)
    requires Inv(s) && Enabled(lease, s, step) && !step.Start?
    ensures Apply(s, step).store.tasks.Keys == s.store.tasks.Keys
  {
    if Committing(s, step) {
      hide Inv, Enabled, Apply, Consistent, CommitResult;
      StoreIsConsistent(s);
      CommitStores(s, step);
      CommitAddsNoRows(s.store, TaskOf(s, step), ResultOf(s, step), s.queue.clock);
    } else {
      hide Inv;
    }
  }

  lemma CommitAddsNoRows(st: Store, id: Uuid, result: TaskResult, now: Time)
    requires Consistent(st)
    ensures CommitResult(st, id, result, now).0.tasks.Keys == st.tasks.Keys
  {
    hide Consistent, CompleteTask, RetryTask, Advances;
    if result.succeeded {
      CompleteAdvances(st, id, result.output, now);
    } else {
      RetryKeepsConsistent(st, id, result.message, now);
    }
  }

  lemma MaxTriesStay(lease: Time, s: System, step: Step, id: Uuid)
    requires Inv(s) && Enabled(lease, s, step) && id in s.store.tasks
    ensures id in Apply(s, step).store.tasks
    ensures MaxTries(Apply(s, step).definitions, Apply(s, step).store, id) == MaxTries(s.definitions, s.store, id)
  {
    StoreStep(lease, s, step);
    DefinitionsGrow(lease, s, step);
    var i := RowOrigin(s.definitions, s.layouts, s.store, id);
    assert Placed(s.layouts, s.store, id) && Laid(s.definitions, s.layouts, s.store, s.store.tasks[id].workflowExecutionId);
    hide Inv, Enabled, Apply, StoreOk, WellFormed, Assigns, AllLaid;
    SameMaxTries(s.definitions, Apply(s, step).definitions, s.store, Apply(s, step).store, id);
  }

  lemma DefinitionsGrow(lease: Time, s: System, step: Step)
    requires Enabled(lease, s, step)
    ensures forall d | d in s.definitions :: d in Apply(s, step).definitions && Apply(s, step).definitions[d] == s.definitions[d]
  {
  }

  lemma SameMaxTries(definitions: Definitions, more: Definitions, st: Store, after: Store, id: Uuid)
    requires forall d | d in definitions :: d in more && more[d] == definitions[d]
    requires Advances(st, after) && id in st.tasks && st.tasks[id].workflowExecutionId in st.workflows
    requires st.workflows[st.tasks[id].workflowExecutionId].workflowDefinitionId in definitions
    ensures id in after.tasks && MaxTries(more, after, id) == MaxTries(definitions, st, id)
  {
    var w := st.tasks[id].workflowExecutionId;
    assert RowAdvances(st.tasks[id], after.tasks[id]) && WorkflowAdvances(st.workflows[w], after.workflows[w]);
    assert Fixed(after.tasks[id]).workflowExecutionId == Fixed(st.tasks[id]).workflowExecutionId;
    assert Fixed(after.tasks[id]).taskDefinitionId == Fixed(st.tasks[id]).taskDefinitionId;
  }

  /** Over any run, tries left plus failed attempts committed is what the task began with, however many workers
    * attempted it at once. */
  lemma {:induction false} TriesAddUp(lease: Time, s: System, steps: seq<Step>, id: Uuid)
    requires Inv(s) && Run(lease, s, steps) && id in After(s, steps).store.tasks
    ensures var later := After(s, steps);
            later.store.tasks[id].remainingTries + FailuresIn(s, steps, id)
            == if id in s.store.tasks then s.store.tasks[id].remainingTries
               else MaxTries(later.definitions, later.store, id)
    ensures id in s.store.tasks ==>
              MaxTries(After(s, steps).definitions, After(s, steps).store, id) == MaxTries(s.definitions, s.store, id)
    decreases steps
  {
    hide Inv, Enabled, Apply, MaxTries, FailedAttempts;
    if steps != [] {
      var next, rest := Apply(s, steps[0]), steps[1..];
      StepKeepsInv(lease, s, steps[0]);
      TriesAddUp(lease, next, rest, id);
      if id in s.store.tasks {
        StepSpendsTries(lease, s, steps[0], id);
        MaxTriesStay(lease, s, steps[0], id);
      } else if id in next.store.tasks {
        NewRowTries(lease, s, steps[0], id);
      } else {
        assert FailedAttempts(s, steps[0], id) == 0 by {
          NoFailureOfUnknown(s, steps[0], id);
        }
      }
    }
  }

  lemma NoFailureOfUnknown(s: System, step: Step, id: Uuid)
    requires id !in s.store.tasks
    ensures FailedAttempts(s, step, id) == 0
  {
  }

  /** A stored task has `max_tries` minus its committed failed attempts left: at least one while it is open,
    * and none exactly when it has failed. */
  lemma BoundedRetries(lease: Time, now: Time, steps: seq<Step>, id: Uuid)
    requires Run(lease, Initial(now), steps) && id in After(Initial(now), steps).store.tasks
    ensures var s, failures := After(Initial(now), steps), FailuresIn(Initial(now), steps, id);
            var row, maxTries := s.store.tasks[id], MaxTries(s.definitions, s.store, id);
            && row.remainingTries == maxTries - failures
            && (row.Open() ==> row.remainingTries >= 1)
            && (row.status == FAILED <==> failures == maxTries)
  {
    hide Run, After, FailuresIn, MaxTries;
    InitialInv(now);
    TriesAddUp(lease, Initial(now), steps, id);
    RunKeepsInv(lease, Initial(now), steps);
    assert Settled(After(Initial(now), steps).store.tasks[id]);
  }

  /******* Termination *******/

  /** How many more times a task can change status or lose a try. */
  ghost function Remaining(row: TaskExecution): int {
    match row.status
    case PENDING => row.remainingTries + 1
    case RUNNING => row.remainingTries
    case _ => 0
  }

  /** One when the step moves the task to another status or spends one of its tries. */
  ghost function Transition(s: System, step: Step, id: Uuid): nat {
    var after := Apply(s, step).store.tasks;
    if id in s.store.tasks && id in after
       && (after[id].status != s.store.tasks[id].status || after[id].remainingTries != s.store.tasks[id].remainingTries)
    then 1 else 0
  }

  ghost function TransitionsIn(s: System, steps: seq<Step>, id: Uuid): nat
    decreases steps
  {
    if steps == [] then 0 else Transition(s, steps[0], id) + TransitionsIn(Apply(s, steps[0]), steps[1..], id)
  }

  /** Every change of a row costs at least one. */
  ghost predicate Pays(before: TaskExecution, after: TaskExecution) {
    && Remaining(after) >= 0
    && ((before.status == after.status && before.remainingTries == after.remainingTries)
        || Remaining(after) < Remaining(before))
  }

  lemma CompletionPays(st: Store, id: Uuid, output: TaskOutput, now: Time, x: Uuid)
    requires Consistent(st) && x in st.tasks
    ensures var after := CompleteTask(st, id, output, now).0; x in after.tasks && Pays(st.tasks[x], after.tasks[x])
  {
    assert Settled(st.tasks[x]);
    if Running(st, id) {
      CompletionIsExact(st, id, output, now);
      AllChildrenWait(st, id);
      hide Consistent, CompleteTask, CompletionEffect, ChildrenWait, Settled, Pays;
      CompletedRowPays(st.tasks, id, output, now, CompleteTask(st, id, output, now).0.tasks, x);
    }
  }

  lemma CompletedRowPays(before: map<Uuid, TaskExecution>, id: Uuid, output: TaskOutput, now: Time,
                         after: map<Uuid, TaskExecution>, x: Uuid)
    requires id in before && before[id].status == RUNNING && ChildrenWait(before, id)
    requires x in before && Settled(before[x]) && CompletionEffect(before, id, output, now, after)
    ensures x in after && Pays(before[x], after[x])
  {
  }

  lemma RetryPays(st: Store, id: Uuid, message: Option<string>, now: Time, x: Uuid)
    requires Consistent(st) && x in st.tasks
    ensures var after := RetryTask(st, id, message, now).0; x in after.tasks && Pays(st.tasks[x], after.tasks[x])
  {
    assert Settled(st.tasks[x]);
    if Retriable(st, id) && st.tasks[id].remainingTries == 1 {
      FailureIsExact(st, id, message, now);
      hide Consistent, RetryTask, FailureEffect, Settled, Pays;
      FailedRowPays(st.tasks, id, message, now, RetryTask(st, id, message, now).0.tasks, x);
    } else {
      hide Consistent;
      AttemptPays(st, id, message, now, x);
    }
  }

  lemma FailedRowPays(before: map<Uuid, TaskExecution>, id: Uuid, message: Option<string>, now: Time,
                      after: map<Uuid, TaskExecution>, x: Uuid)
    requires id in before && before[id].status == RUNNING && before[id].remainingTries == 1
    requires x in before && Settled(before[x]) && FailureEffect(before, id, message, now, after)
    ensures x in after && Pays(before[x], after[x])
  {
  }

  lemma AttemptPays(st: Store, id: Uuid, message: Option<string>, now: Time, x: Uuid)
    requires !(Retriable(st, id) && st.tasks[id].remainingTries == 1)
    requires x in st.tasks && Settled(st.tasks[x])
    ensures var after := RetryTask(st, id, message, now).0; x in after.tasks && Pays(st.tasks[x], after.tasks[x])
  {
    hide FailWorkflow;
  }

  /** What a committing step stores. */
  lemma CommitStores(s: System, step: Step)
    requires Committing(s, step)
    ensures Apply(s, step).store == CommitResult(s.store, TaskOf(s, step), ResultOf(s, step), s.queue.clock).0
  {
    hide CommitResult, WorkersAfter, PublishersAfter, QueueSteps;
  }

  lemma CommitPays(st: Store, id: Uuid, result: TaskResult, now: Time, x: Uuid)
    requires Consistent(st) && x in st.tasks
    ensures var after := CommitResult(st, id, result, now).0; x in after.tasks && Pays(st.tasks[x], after.tasks[x])
  {
    hide Consistent, Pays, CompleteTask, RetryTask;
    if result.succeeded {
      CompletionPays(st, id, result.output, now, x);
    } else {
      RetryPays(st, id, result.message, now, x);
    }
  }

  lemma StepPays(lease: Time, s: System, step: Step, id: Uuid)
    requires Inv(s) && Enabled(lease, s, step) && id in s.store.tasks
    ensures id in Apply(s, step).store.tasks
    ensures Pays(s.store.tasks[id], Apply(s, step).store.tasks[id])
  {
    hide Inv, Apply, Enabled, CommitResult, Consistent;
    StoreIsConsistent(s);
    if Committing(s, step) {
      hide Pays;
      CommitStores(s, step);
      CommitPays(s.store, TaskOf(s, step), ResultOf(s, step), s.queue.clock, id);
    } else {
      RowIsSettled(s.store, id);
      QuietStep(lease, s, step, id);
    }
  }

  lemma RowIsSettled(st: Store, id: Uuid)
    requires Consistent(st) && id in st.tasks
    ensures Settled(st.tasks[id])
  {
    hide AllLinked, AllCounted, AllAgree;
  }

  lemma {:induction false} TransitionsArePaid(lease: Time, s: System, steps: seq<Step>, id: Uuid)
    requires Inv(s) && Run(lease, s, steps) && id in s.store.tasks
    ensures TransitionsIn(s, steps, id) <= Remaining(s.store.tasks[id])
    decreases steps
  {
    hide Inv, Enabled, Apply;
    if steps == [] {
      RemainingIsNatural(s, id);
    } else {
      StepKeepsInv(lease, s, steps[0]);
      StepPays(lease, s, steps[0], id);
      TransitionsArePaid(lease, Apply(s, steps[0]), steps[1..], id);
    }
  }

  lemma RemainingIsNatural(s: System, id: Uuid)
    requires Inv(s) && id in s.store.tasks
    ensures Remaining(s.store.tasks[id]) >= 0
  {
    hide Inv, Consistent;
    StoreIsConsistent(s);
    RowIsSettled(s.store, id);
  }

  /** The tries a definition grants, and one start for each task. */
  ghost function Budget(tasks: seq<TaskDefinition>): int {
    if tasks == [] then 0 else Budget(tasks[..|tasks| - 1]) + tasks[|tasks| - 1].maxTries + 1
  }

  ghost function TransitionsOfAll(s: System, steps: seq<Step>, ids: seq<Uuid>): nat {
    if ids == [] then 0
    else TransitionsOfAll(s, steps, ids[..|ids| - 1]) + TransitionsIn(s, steps, ids[|ids| - 1])
  }

  lemma {:induction false} SumOfBudgets(
    lease: Time, s: System, steps: seq<Step>, tasks: seq<TaskDefinition>, ids: seq<Uuid>)
    requires |ids| == |tasks|
    requires forall i | 0 <= i < |ids| :: TransitionsIn(s, steps, ids[i]) <= tasks[i].maxTries + 1
    ensures TransitionsOfAll(s, steps, ids) <= Budget(tasks)
  {
    if ids != [] {
      SumOfBudgets(lease, s, steps, tasks[..|tasks| - 1], ids[..|ids| - 1]);
    }
  }

  lemma FreshBudget(lease: Time, s: System, step: Step, i: nat)
    requires Inv(s) && Enabled(lease, s, step) && step.Start?
    requires i < |s.definitions[step.definitionId].taskDefinitions|
    ensures var id, task := step.executions[i].id, s.definitions[step.definitionId].taskDefinitions[i];
            && id in Apply(s, step).store.tasks
            && Remaining(Apply(s, step).store.tasks[id]) == task.maxTries + 1
  {
    var tasks := s.definitions[step.definitionId].taskDefinitions;
    assert UniqueIds(tasks);
    hide Inv, WellFormed;
    CompiledRows(tasks, step.ids, step.workflow, step.executions);
    assert step.executions[i] == Compiled(tasks, step.ids, step.workflow, i);
  }

  ghost function IdsOf(executions: seq<TaskExecution>): (ids: seq<Uuid>)
    ensures |ids| == |executions| && forall i | 0 <= i < |ids| :: ids[i] == executions[i].id
  {
    seq(|executions|, i requires 0 <= i < |executions| => executions[i].id)
  }

  lemma StartShape(lease: Time, s: System, step: Step)
    requires Enabled(lease, s, step) && step.Start?
    ensures step.definitionId in s.definitions
    ensures |step.executions| == |s.definitions[step.definitionId].taskDefinitions|
  {
  }

  /** From the moment a workflow is started, all its tasks together make at most the sum of (max_tries + 1) transitions. */
  lemma BoundedTransitions(lease: Time, s: System, step: Step, steps: seq<Step>)
    requires Reachable(lease, s) && Enabled(lease, s, step) && step.Start? && Run(lease, Apply(s, step), steps)
    ensures step.definitionId in s.definitions
    ensures TransitionsOfAll(Apply(s, step), steps, IdsOf(step.executions))
         <= Budget(s.definitions[step.definitionId].taskDefinitions)
  {
    hide Reachable, Inv, Enabled, Apply, Run;
    ReachableInv(lease, s);
    StartShape(lease, s, step);
    var tasks, next, ids := s.definitions[step.definitionId].taskDefinitions, Apply(s, step), IdsOf(step.executions);
    StepKeepsInv(lease, s, step);
    forall i | 0 <= i < |ids|
      ensures TransitionsIn(next, steps, ids[i]) <= tasks[i].maxTries + 1
    {
      FreshBudget(lease, s, step, i);
      TransitionsArePaid(lease, next, steps, ids[i]);
    }
    SumOfBudgets(lease, next, steps, tasks, ids);
  }
}
