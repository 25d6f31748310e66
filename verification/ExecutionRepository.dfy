/** The repository of workflow executions: guarded updates of rows, statement by statement. */
module ExecutionRepository {
  import opened Domain
  import opened ExecutionStore

  /** The tables as one database session sees and changes them. */
  class WorkflowExecutionRepository {
    var tasks: map<Uuid, TaskExecution>
    var workflows: map<Uuid, WorkflowExecution>

    ghost function Tables(): Store
      reads this
    {
      Store(tasks, workflows)
    }

    constructor (committed: Store)
      ensures Tables() == committed
    {
      tasks := committed.tasks;
      workflows := committed.workflows;
    }

    method Create(workflow: Uuid, definition: Uuid, executions: seq<TaskExecution>)
      modifies this
      ensures Tables() == CreateExecution(old(Tables()), workflow, definition, executions)
    {
      workflows := workflows[workflow := WorkflowExecution(definition, WorkflowRunning, None)];
      ghost var before := tasks;
      for i := 0 to |executions|
        invariant workflows == old(workflows)[workflow := WorkflowExecution(definition, WorkflowRunning, None)]
        invariant tasks == before + Rows(executions[..i])
      {
        assert executions[..i + 1][..i] == executions[..i];
        tasks := tasks[executions[i].id := executions[i]];
      }
      assert executions[..|executions|] == executions;
    }

    method FindRunnableIds() returns (ids: seq<Uuid>)
      ensures ListsRunnable(tasks, ids)
      ensures NoDuplicates(ids)
      ensures forall id :: id in ids <==> id in tasks && tasks[id].status == PENDING && tasks[id].remainingDependencies == 0
    {
      ids := [];
      var left := tasks.Keys;
      while left != {}
        invariant left <= tasks.Keys
        invariant NoDuplicates(ids)
        invariant forall id :: id in ids <==> Runnable(tasks, id) && id !in left
        decreases left
      {
        var id :| id in left;
        left := left - {id};
        if tasks[id].status == PENDING && tasks[id].remainingDependencies == 0 {
          ids := ids + [id];
        }
      }
    }

    method StartTask(id: Uuid, startedAt: Time) returns (result: StartResult)
      modifies this
      ensures Tables() == ExecutionStore.StartTask(old(Tables()), id, startedAt)
      ensures Starts(old(Tables()), id, startedAt, result)
    {
      if id in tasks && tasks[id].status == PENDING {
        tasks := tasks[id := tasks[id].(status := RUNNING, startedAt := Some(startedAt))];
      }
      if id !in tasks || tasks[id].status != RUNNING {
        return NotProcessable;
      }
      var inputs := LoadParentOutputs(tasks[id].parentTaskIds);
      if inputs.None? {
        return MissingParentOutput;
      }
      return Processable(tasks[id].pluginType, tasks[id].configuration, inputs.value);
    }

    /** None stands for the error raised when a parent has no output. Parent rows come in any order. */
    method LoadParentOutputs(parents: seq<Uuid>) returns (inputs: Option<map<string, TaskOutput>>)
      ensures inputs.Some? <==> AllParentsHaveOutput(tasks, parents)
      ensures inputs.Some? ==> ParentOutputs(tasks, parents, inputs.value)
    {
      var outputs: map<string, TaskOutput> := map[];
      var left := set p | p in parents && p in tasks;
      ghost var all := left;
      while left != {}
        invariant left <= all
        invariant forall p | p in all - left :: tasks[p].output.Some? && tasks[p].key in outputs
        invariant forall key | key in outputs ::
            exists p | p in all :: tasks[p].key == key && tasks[p].output == Some(outputs[key])
        decreases left
      {
        var p :| p in left;
        left := left - {p};
        if tasks[p].output.None? {
          return None;
        }
        outputs := outputs[tasks[p].key := tasks[p].output.value];
      }
      forall p | p in parents && p in tasks
        ensures tasks[p].output.Some? && tasks[p].key in outputs
      {
        assert p in all - left;
      }
      return Some(outputs);
    }

    method CompleteTask(id: Uuid, output: TaskOutput, completedAt: Time) returns (result: CompleteResult)
      modifies this
      ensures (Tables(), result) == ExecutionStore.CompleteTask(old(Tables()), id, output, completedAt)
    {
      if id !in tasks || tasks[id].status != RUNNING {
        return CompleteResult([], false);
      }
      var children, workflow := tasks[id].childTaskIds, tasks[id].workflowExecutionId;
      tasks := tasks[id := tasks[id].(status := COMPLETED, output := Some(output), completedAt := Some(completedAt))];
      var runnable := UpdateChildDependencies(children);
      var workflowCompleted := CompleteWorkflowIfFinished(workflow, completedAt);
      return CompleteResult(runnable, workflowCompleted);
    }

    method UpdateChildDependencies(children: seq<Uuid>) returns (runnable: seq<Uuid>)
      modifies this`tasks
      ensures Release(tasks, runnable) == ReleaseChildren(old(tasks), children)
    {
      runnable := [];
      for i := 0 to |children|
        invariant Release(tasks, runnable) == ReleaseChildren(old(tasks), children[..i])
      {
        var child := children[i];
        assert children[..i + 1][..i] == children[..i];
        if child in tasks && tasks[child].status == PENDING && tasks[child].remainingDependencies > 0 {
          var remaining := tasks[child].remainingDependencies - 1;
          tasks := tasks[child := tasks[child].(remainingDependencies := remaining)];
          if remaining == 0 {
            runnable := runnable + [child];
          }
        }
      }
      assert children[..|children|] == children;
    }

    method CompleteWorkflowIfFinished(workflow: Uuid, completedAt: Time) returns (completed: bool)
      modifies this`workflows
      ensures completed <==> CompletesWorkflow(old(Tables()), workflow)
      ensures Tables() == ExecutionStore.CompleteWorkflowIfFinished(old(Tables()), workflow, completedAt)
    {
      var unfinished := set id | id in tasks && tasks[id].workflowExecutionId == workflow && tasks[id].status != COMPLETED;
      assert unfinished == {} <==> Finished(tasks, workflow) by {
        if id :| id in tasks && tasks[id].workflowExecutionId == workflow && tasks[id].status != COMPLETED {
          assert id in unfinished;
        }
      }
      completed := workflow in workflows && workflows[workflow].status == WorkflowRunning && unfinished == {};
      if completed {
        workflows := workflows[workflow :=
          workflows[workflow].(status := WorkflowCompleted, completedAt := Some(completedAt))];
      }
    }

    method RetryTask(id: Uuid, message: Option<string>, completedAt: Time) returns (result: RetryResult)
      modifies this
      ensures (Tables(), result) == ExecutionStore.RetryTask(old(Tables()), id, message, completedAt)
    {
      if id !in tasks || tasks[id].status != RUNNING || tasks[id].remainingTries <= 0 {
        return RetryResult(false, false);
      }
      var row := tasks[id];
      tasks := tasks[id := row.(
        remainingTries := row.remainingTries - 1,
        status := if row.remainingTries > 1 then RUNNING else FAILED,
        errorMessage := message,
        completedAt := if row.remainingTries > 1 then None else Some(completedAt))];
      var shouldRetry := tasks[id].remainingTries > 0;
      var workflowFailed := false;
      if !shouldRetry {
        workflowFailed := FailWorkflow(row.workflowExecutionId, completedAt);
      }
      return RetryResult(shouldRetry, workflowFailed);
    }

    method FailWorkflow(workflow: Uuid, completedAt: Time) returns (failed: bool)
      modifies this
      ensures failed <==> FailsWorkflow(old(Tables()), workflow)
      ensures Tables() == ExecutionStore.FailWorkflow(old(Tables()), workflow, completedAt)
    {
      if workflow !in workflows || workflows[workflow].status != WorkflowRunning {
        return false;
      }
      workflows := workflows[workflow :=
        workflows[workflow].(status := WorkflowFailed, completedAt := Some(completedAt))];
      tasks := map id | id in tasks ::
        if tasks[id].workflowExecutionId == workflow && (tasks[id].status == PENDING || tasks[id].status == RUNNING)
        then tasks[id].(status := CANCELLED, completedAt := Some(completedAt))
        else tasks[id];
      return true;
    }
  }
}
