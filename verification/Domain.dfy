/** The values the platform passes around: definitions, execution rows and plugin data.
  * Identifiers are drawn from `uuid4()`; here they are naturals, ordered as PostgreSQL orders uuids. */
module Domain {

  type Uuid = nat

  /** Seconds on one monotone clock. */
  type Time = real

  datatype Option<+T> = None | Some(value: T)

  datatype Result<+T, +E> = Success(value: T) | Failure(error: E)

  /** The JSON values that configurations and outputs are made of. */
  datatype Json =
    | Null
    | Bool(flag: bool)
    | Integer(integer: int)
    | Float(number: real)
    | Text(text: string)
    | List(items: seq<Json>)
    | Object(fields: map<string, Json>)

  type Configuration = map<string, Json>

  datatype TaskOutput = TaskOutput(values: map<string, Json>)

  datatype TaskContext = TaskContext(configuration: Configuration, inputs: map<string, TaskOutput>)

  datatype TaskResult = TaskResult(succeeded: bool, output: TaskOutput, message: Option<string>)

  /** What a caller asks for: tasks name their dependencies by key. */
  datatype CreateTaskDefinition = CreateTaskDefinition(
    pluginType: string,
    key: string,
    configuration: Configuration,
    dependencies: seq<string>,
    maxTries: int)

  /** What is stored: tasks name their dependencies by definition id. */
  datatype TaskDefinition = TaskDefinition(
    id: Uuid,
    pluginType: string,
    key: string,
    configuration: Configuration,
    dependencies: seq<Uuid>,
    maxTries: int)

  datatype WorkflowDefinition = WorkflowDefinition(taskDefinitions: seq<TaskDefinition>, enabled: bool)

  /** A trigger belongs to one workflow definition and is enabled or disabled on its own. */
  datatype TriggerDefinition = TriggerDefinition(
    id: Uuid,
    workflowDefinitionId: Uuid,
    pluginType: string,
    configuration: Configuration,
    enabled: bool)

  datatype TaskStatus = PENDING | RUNNING | COMPLETED | FAILED | CANCELLED

  datatype WorkflowStatus = WorkflowRunning | WorkflowCompleted | WorkflowFailed | WorkflowCancelled

  datatype TaskExecution = TaskExecution(
    id: Uuid,
    workflowExecutionId: Uuid,
    taskDefinitionId: Uuid,
    key: string,
    pluginType: string,
    configuration: Configuration,
    status: TaskStatus,
    remainingDependencies: int,
    remainingTries: int,
    parentTaskIds: seq<Uuid>,
    childTaskIds: seq<Uuid>,
    output: Option<TaskOutput>,
    errorMessage: Option<string>,
    startedAt: Option<Time>,
    completedAt: Option<Time>)
  {
    predicate Open() {
      status == PENDING || status == RUNNING
    }

    predicate Terminal() {
      !Open()
    }

    predicate Fallen() {
      status == FAILED || status == CANCELLED
    }
  }

  datatype WorkflowExecution = WorkflowExecution(
    workflowDefinitionId: Uuid,
    status: WorkflowStatus,
    completedAt: Option<Time>)

  /** A lease on one queue entry. */
  datatype Claim = Claim(taskExecutionId: Uuid, claimToken: Uuid)

  /** What a worker learns from processing a task. */
  datatype ProcessTaskResult = ProcessTaskResult(enqueueTaskIds: seq<Uuid>, shouldRetry: bool)

  /** A source of identifiers that never repeats itself: `uuid4()`. */
  class UuidSource {
    ghost var issued: set<Uuid>
    var next: Uuid

    ghost predicate Valid()
      reads this
    {
      forall id | id in issued :: id < next
    }

    constructor ()
      ensures Valid() && issued == {}
    {
      issued := {};
      next := 0;
    }

    method Uuid4() returns (id: Uuid)
      requires Valid()
      modifies this
      ensures Valid()
      ensures id !in old(issued) && issued == old(issued) + {id}
    {
      id := next;
      next := next + 1;
      issued := issued + {id};
    }
  }

  ghost predicate NoDuplicates<T>(xs: seq<T>) {
    forall i, j | 0 <= i < j < |xs| :: xs[i] != xs[j]
  }

  ghost function Elements<T>(xs: seq<T>): set<T> {
    set x | x in xs
  }

  /** A duplicate-free list has as many elements as entries. */
  lemma {:induction false} DistinctSize<T>(xs: seq<T>)
    ensures |Elements(xs)| <= |xs|
    ensures NoDuplicates(xs) <==> |Elements(xs)| == |xs|
  {
    if xs != [] {
      var front, last := xs[..|xs| - 1], xs[|xs| - 1];
      DistinctSize(front);
      assert xs == front + [last];
      assert Elements(xs) == Elements(front) + {last};
      if NoDuplicates(xs) {
        assert forall i, j | 0 <= i < j < |front| :: xs[i] == front[i] && xs[j] == front[j];
        assert NoDuplicates(front);
        assert last !in front;
      } else if last !in front {
        assert !NoDuplicates(front) by {
          var i, j :| 0 <= i < j < |xs| && xs[i] == xs[j];
          assert j < |front|;
          assert front[i] == front[j];
        }
      } else {
        assert Elements(xs) == Elements(front);
      }
    }
  }

  /** How many entries of a list are not in a set. */
  ghost function CountOutside<T>(xs: seq<T>, done: set<T>): nat {
    if xs == [] then 0
    else CountOutside(xs[..|xs| - 1], done) + if xs[|xs| - 1] in done then 0 else 1
  }

  lemma {:induction false} CountZero<T>(xs: seq<T>, done: set<T>)
    ensures CountOutside(xs, done) == 0 <==> forall x | x in xs :: x in done
  {
    if xs != [] {
      var front, last := xs[..|xs| - 1], xs[|xs| - 1];
      CountZero(front, done);
      assert xs == front + [last];
    }
  }

  lemma {:induction false} CountDisjoint<T>(xs: seq<T>, done: set<T>)
    requires forall x | x in xs :: x !in done
    ensures CountOutside(xs, done) == |xs|
  {
    if xs != [] {
      var front, last := xs[..|xs| - 1], xs[|xs| - 1];
      assert xs == front + [last];
      CountDisjoint(front, done);
    }
  }

  /** A new member is met exactly once by a duplicate-free list that mentions it. */
  lemma {:induction false} CountGrows<T>(xs: seq<T>, done: set<T>, x: T)
    requires NoDuplicates(xs) && x !in done
    ensures CountOutside(xs, done + {x}) == CountOutside(xs, done) - if x in xs then 1 else 0
  {
    if xs != [] {
      var front, last := xs[..|xs| - 1], xs[|xs| - 1];
      assert xs == front + [last];
      assert forall i, j | 0 <= i < j < |front| :: xs[i] == front[i] && xs[j] == front[j];
      assert last !in front;
      CountGrows(front, done, x);
    }
  }
}
