/** The persisted execution state and its transitions, as functions of whole tables.
  * `ExecutionRepository` carries them out statement by statement. */
module ExecutionStore {
  import opened Domain

  datatype Store = Store(tasks: map<Uuid, TaskExecution>, workflows: map<Uuid, WorkflowExecution>)

  ghost function Completed(tasks: map<Uuid, TaskExecution>): set<Uuid> {
    set id | id in tasks && tasks[id].status == COMPLETED
  }

  ghost predicate Runnable(tasks: map<Uuid, TaskExecution>, id: Uuid) {
    id in tasks && tasks[id].status == PENDING && tasks[id].remainingDependencies == 0
  }

  ghost predicate ListsRunnable(tasks: map<Uuid, TaskExecution>, ids: seq<Uuid>) {
    NoDuplicates(ids) && forall id :: id in ids <==> Runnable(tasks, id)
  }

  /******* start_task *******/

  datatype StartResult =
    | NotProcessable
    | MissingParentOutput
    | Processable(pluginType: string, configuration: Configuration, parentOutputs: map<string, TaskOutput>)

  ghost function StartTask(st: Store, id: Uuid, now: Time): Store {
    if id in st.tasks && st.tasks[id].status == PENDING then
      st.(tasks := st.tasks[id := st.tasks[id].(status := RUNNING, startedAt := Some(now))])
    else
      st
  }

  ghost predicate AllParentsHaveOutput(tasks: map<Uuid, TaskExecution>, parents: seq<Uuid>) {
    forall p | p in parents && p in tasks :: tasks[p].output.Some?
  }

  /** One output for the key of every stored parent; two parents with one key would share an entry. */
  ghost predicate ParentOutputs(
    tasks: map<Uuid, TaskExecution>, parents: seq<Uuid>, inputs: map<string, TaskOutput>)
  {
    && (forall p | p in parents && p in tasks :: tasks[p].key in inputs)
    && (forall key | key in inputs ::
          exists p | p in parents && p in tasks :: tasks[p].key == key && tasks[p].output == Some(inputs[key]))
  }

  ghost predicate Starts(st: Store, id: Uuid, now: Time, result: StartResult) {
    var after := StartTask(st, id, now).tasks;
    if id in after && after[id].status == RUNNING then
      var row := after[id];
      if AllParentsHaveOutput(after, row.parentTaskIds) then
        && result.Processable?
        && result.pluginType == row.pluginType
        && result.configuration == row.configuration
        && ParentOutputs(after, row.parentTaskIds, result.parentOutputs)
      else
        result == MissingParentOutput
    else
      result == NotProcessable
  }

  /******* complete_task *******/

  datatype CompleteResult = CompleteResult(runnableTaskIds: seq<Uuid>, workflowCompleted: bool)

  ghost predicate Waiting(tasks: map<Uuid, TaskExecution>, id: Uuid) {
    id in tasks && tasks[id].status == PENDING && tasks[id].remainingDependencies > 0
  }

  ghost function Decremented(tasks: map<Uuid, TaskExecution>, id: Uuid): map<Uuid, TaskExecution> {
    if Waiting(tasks, id) then
      tasks[id := tasks[id].(remainingDependencies := tasks[id].remainingDependencies - 1)]
    else
      tasks
  }

  datatype Release = Release(tasks: map<Uuid, TaskExecution>, runnable: seq<Uuid>)

  /** Children are served one after another, a repeated child twice. */
  ghost function ReleaseChildren(tasks: map<Uuid, TaskExecution>, children: seq<Uuid>): Release {
    if children == [] then Release(tasks, [])
    else
      var child := children[|children| - 1];
      var before := ReleaseChildren(tasks, children[..|children| - 1]);
      Release(
        Decremented(before.tasks, child),
        before.runnable
        + if Waiting(before.tasks, child) && before.tasks[child].remainingDependencies == 1 then [child] else [])
  }

  ghost predicate Finished(tasks: map<Uuid, TaskExecution>, workflow: Uuid) {
    forall id | id in tasks && tasks[id].workflowExecutionId == workflow :: tasks[id].status == COMPLETED
  }

  ghost predicate CompletesWorkflow(st: Store, workflow: Uuid) {
    && workflow in st.workflows
    && st.workflows[workflow].status == WorkflowRunning
    && Finished(st.tasks, workflow)
  }

  ghost function CompleteWorkflowIfFinished(st: Store, workflow: Uuid, now: Time): Store {
    if CompletesWorkflow(st, workflow) then
      st.(workflows := st.workflows[workflow :=
        st.workflows[workflow].(status := WorkflowCompleted, completedAt := Some(now))])
    else
      st
  }

  ghost function MarkCompleted(tasks: map<Uuid, TaskExecution>, id: Uuid, output: TaskOutput, now: Time)
    : map<Uuid, TaskExecution>
    requires id in tasks
  {
    tasks[id := tasks[id].(status := COMPLETED, output := Some(output), completedAt := Some(now))]
  }

  ghost predicate Running(st: Store, id: Uuid) {
    id in st.tasks && st.tasks[id].status == RUNNING
  }

  ghost function CompleteTask(st: Store, id: Uuid, output: TaskOutput, now: Time): (Store, CompleteResult) {
    if Running(st, id) then
      var release := ReleaseChildren(MarkCompleted(st.tasks, id, output, now), st.tasks[id].childTaskIds);
      var released := Store(release.tasks, st.workflows);
      var workflow := st.tasks[id].workflowExecutionId;
      (CompleteWorkflowIfFinished(released, workflow, now),
       CompleteResult(release.runnable, CompletesWorkflow(released, workflow)))
    else
      (st, CompleteResult([], false))
  }

  /******* retry_task *******/

  datatype RetryResult = RetryResult(shouldRetry: bool, workflowFailed: bool)

  ghost predicate Retriable(st: Store, id: Uuid) {
    Running(st, id) && st.tasks[id].remainingTries > 0
  }

  ghost function FailedAttempt(row: TaskExecution, message: Option<string>, now: Time): TaskExecution {
    row.(remainingTries := row.remainingTries - 1,
         status := if row.remainingTries > 1 then RUNNING else FAILED,
         errorMessage := message,
         completedAt := if row.remainingTries > 1 then None else Some(now))
  }

  ghost function Cancelled(tasks: map<Uuid, TaskExecution>, workflow: Uuid, now: Time): map<Uuid, TaskExecution> {
    map id | id in tasks ::
      if tasks[id].workflowExecutionId == workflow && tasks[id].Open()
      then tasks[id].(status := CANCELLED, completedAt := Some(now))
      else tasks[id]
  }

  ghost predicate FailsWorkflow(st: Store, workflow: Uuid) {
    workflow in st.workflows && st.workflows[workflow].status == WorkflowRunning
  }

  ghost function FailWorkflow(st: Store, workflow: Uuid, now: Time): Store {
    if FailsWorkflow(st, workflow) then
      Store(
        Cancelled(st.tasks, workflow, now),
        st.workflows[workflow := st.workflows[workflow].(status := WorkflowFailed, completedAt := Some(now))])
    else
      st
  }

  ghost function RetryTask(st: Store, id: Uuid, message: Option<string>, now: Time): (Store, RetryResult) {
    if Retriable(st, id) then
      var row := st.tasks[id];
      var attempted := st.(tasks := st.tasks[id := FailedAttempt(row, message, now)]);
      if row.remainingTries > 1 then
        (attempted, RetryResult(true, false))
      else
        (FailWorkflow(attempted, row.workflowExecutionId, now),
         RetryResult(false, FailsWorkflow(attempted, row.workflowExecutionId)))
    else
      (st, RetryResult(false, false))
  }

  /******* create *******/

  ghost function Rows(executions: seq<TaskExecution>): map<Uuid, TaskExecution> {
    if executions == [] then map[]
    else
      var last := executions[|executions| - 1];
      Rows(executions[..|executions| - 1])[last.id := last]
  }

  ghost function CreateExecution(st: Store, workflow: Uuid, definition: Uuid, executions: seq<TaskExecution>): Store {
    Store(
      st.tasks + Rows(executions),
      st.workflows[workflow := WorkflowExecution(definition, WorkflowRunning, None)])
  }

  /******* What a distinct child list does *******/

  /** With distinct children each waiting child loses exactly one dependency, and those left with none are reported. */
  lemma {:induction false} ReleaseDistinct(tasks: map<Uuid, TaskExecution>, children: seq<Uuid>)
    requires NoDuplicates(children)
    ensures var release := ReleaseChildren(tasks, children);
            && release.tasks.Keys == tasks.Keys
            && (forall id | id in tasks ::
                  release.tasks[id] == if id in children then Decremented(tasks, id)[id] else tasks[id])
            && (forall id :: id in release.runnable <==>
                  id in children && Waiting(tasks, id) && tasks[id].remainingDependencies == 1)
            && NoDuplicates(release.runnable)
  {
    if children != [] {
      var front, child := children[..|children| - 1], children[|children| - 1];
      assert children == front + [child];
      assert forall i, j | 0 <= i < j < |front| :: children[i] == front[i] && children[j] == front[j];
      assert child !in front;
      ReleaseDistinct(tasks, front);
    }
  }
}
