/** Compilation of a workflow definition into task executions. */
module StartService {
  import opened Domain
  import opened Graphs
  import opened DefinitionGraph

  ghost predicate KnownDependencies(tasks: seq<TaskDefinition>) {
    forall task, dependency | task in tasks && dependency in task.dependencies :: dependency in Ids(tasks)
  }

  /** An assignment of execution ids to definition ids. */
  ghost predicate Assigns(ids: map<Uuid, Uuid>, tasks: seq<TaskDefinition>) {
    && ids.Keys == Ids(tasks)
    && forall a, b | a in ids && b in ids && ids[a] == ids[b] :: a == b
  }

  function ExecutionId(ids: map<Uuid, Uuid>, id: Uuid): Uuid {
    if id in ids then ids[id] else 0
  }

  function ExecutionNodes(tasks: seq<TaskDefinition>, ids: map<Uuid, Uuid>): seq<Node<Uuid, Uuid>> {
    seq(|tasks|, i requires 0 <= i < |tasks| => Node(ExecutionId(ids, tasks[i].id), tasks[i].dependencies))
  }

  function ParentIds(ids: map<Uuid, Uuid>, dependencies: seq<Uuid>): seq<Uuid> {
    seq(|dependencies|, j requires 0 <= j < |dependencies| => ExecutionId(ids, dependencies[j]))
  }

  /** The execution of the `i`th task, as it is first stored. */
  ghost function Compiled(tasks: seq<TaskDefinition>, ids: map<Uuid, Uuid>, workflow: Uuid, i: nat): TaskExecution
    requires i < |tasks|
  {
    TaskExecution(
      ExecutionId(ids, tasks[i].id), workflow, tasks[i].id,
      tasks[i].key, tasks[i].pluginType, tasks[i].configuration,
      PENDING, |tasks[i].dependencies|, tasks[i].maxTries,
      ParentIds(ids, tasks[i].dependencies), Dependents(ExecutionNodes(tasks, ids), tasks[i].id),
      None, None, None, None)
  }

  ghost predicate CompiledFrom(
    tasks: seq<TaskDefinition>, ids: map<Uuid, Uuid>, workflow: Uuid, executions: seq<TaskExecution>)
  {
    && |executions| == |tasks|
    && forall i | 0 <= i < |tasks| :: executions[i] == Compiled(tasks, ids, workflow, i)
  }

  /** The ids of the executions that wait for nothing, in order. */
  ghost function Roots(executions: seq<TaskExecution>): seq<Uuid> {
    if executions == [] then []
    else
      var last := executions[|executions| - 1];
      Roots(executions[..|executions| - 1]) + if last.remainingDependencies == 0 then [last.id] else []
  }

  /******* _create_child_task_lookup *******/

  method JoinParents(
    task: TaskDefinition, executionId: Uuid, children: map<Uuid, seq<Uuid>>,
    ghost nodes: seq<Node<Uuid, Uuid>>, ghost i: nat)
    returns (children': map<Uuid, seq<Uuid>>)
    requires i < |nodes| && nodes[i] == Node(executionId, task.dependencies)
    requires forall dependency | dependency in task.dependencies :: dependency in children
    requires forall id | id in children :: children[id] == Dependents(nodes[..i], id)
    ensures children'.Keys == children.Keys
    ensures forall id | id in children' :: children'[id] == Dependents(nodes[..i + 1], id)
  {
    children' := children;
    forall id | id in children {
      NextNode(nodes, i, id);
    }
    for j := 0 to |task.dependencies|
      invariant children'.Keys == children.Keys
      invariant forall id | id in children' :: children'[id] == DependentsUpTo(nodes, i, j, id)
    {
      var parentId := task.dependencies[j];
      forall id | id in children {
        NextMention(nodes, i, j, id);
      }
      children' := children'[parentId := children'[parentId] + [executionId]];
    }
  }

  function NoChildren(tasks: seq<TaskDefinition>): (children: map<Uuid, seq<Uuid>>)
    ensures children.Keys == Ids(tasks)
    ensures forall id | id in children :: children[id] == []
  {
    map task | task in tasks :: task.id := []
  }

  method CreateChildTaskLookup(tasks: seq<TaskDefinition>, ids: map<Uuid, Uuid>)
    returns (children: map<Uuid, seq<Uuid>>)
    requires KnownDependencies(tasks) && ids.Keys == Ids(tasks)
    ensures children.Keys == Ids(tasks)
    ensures forall id | id in children :: children[id] == Dependents(ExecutionNodes(tasks, ids), id)
  {
    children := NoChildren(tasks);
    ghost var nodes := ExecutionNodes(tasks, ids);
    for i := 0 to |tasks|
      invariant children.Keys == Ids(tasks)
      invariant forall id | id in children :: children[id] == Dependents(nodes[..i], id)
    {
      assert tasks[i] in tasks;
      children := JoinParents(tasks[i], ids[tasks[i].id], children, nodes, i);
    }
    assert nodes[..|tasks|] == nodes;
  }

  /******* _create_workflow_execution *******/

  method AssignIds(tasks: seq<TaskDefinition>, uuids: UuidSource) returns (ids: map<Uuid, Uuid>)
    requires UniqueIds(tasks) && uuids.Valid()
    modifies uuids
    ensures uuids.Valid() && old(uuids.issued) <= uuids.issued
    ensures Assigns(ids, tasks)
    ensures forall id | id in ids :: ids[id] !in old(uuids.issued) && ids[id] in uuids.issued
  {
    ids := map[];
    for i := 0 to |tasks|
      invariant uuids.Valid() && old(uuids.issued) <= uuids.issued
      invariant Assigns(ids, tasks[..i])
      invariant forall id | id in ids :: ids[id] !in old(uuids.issued) && ids[id] in uuids.issued
    {
      var id := uuids.Uuid4();
      assert tasks[..i + 1] == tasks[..i] + [tasks[i]];
      assert Ids(tasks[..i + 1]) == Ids(tasks[..i]) + {tasks[i].id};
      ids := ids[tasks[i].id := id];
    }
    assert tasks[..|tasks|] == tasks;
  }

  method CompileTasks(
    tasks: seq<TaskDefinition>, ids: map<Uuid, Uuid>, workflow: Uuid, children: map<Uuid, seq<Uuid>>)
    returns (executions: seq<TaskExecution>, roots: seq<Uuid>)
    requires ids.Keys == Ids(tasks) && children.Keys == Ids(tasks)
    requires forall id | id in children :: children[id] == Dependents(ExecutionNodes(tasks, ids), id)
    ensures CompiledFrom(tasks, ids, workflow, executions)
    ensures roots == Roots(executions)
  {
    executions, roots := [], [];
    for i := 0 to |tasks|
      invariant |executions| == i
      invariant forall j | 0 <= j < i :: executions[j] == Compiled(tasks, ids, workflow, j)
      invariant roots == Roots(executions)
    {
      var task := tasks[i];
      var execution := TaskExecution(
        ids[task.id], workflow, task.id, task.key, task.pluginType, task.configuration,
        PENDING, |task.dependencies|, task.maxTries,
        ParentIds(ids, task.dependencies), children[task.id], None, None, None, None);
      assert execution == Compiled(tasks, ids, workflow, i);
      assert (executions + [execution])[..i] == executions;
      executions := executions + [execution];
      if execution.remainingDependencies == 0 {
        roots := roots + [execution.id];
      }
    }
  }

  method CreateWorkflowExecution(tasks: seq<TaskDefinition>, uuids: UuidSource)
    returns (workflow: Uuid, executions: seq<TaskExecution>, roots: seq<Uuid>, ids: map<Uuid, Uuid>)
    requires UniqueIds(tasks) && KnownDependencies(tasks) && uuids.Valid()
    modifies uuids
    ensures uuids.Valid() && old(uuids.issued) <= uuids.issued
    ensures workflow !in old(uuids.issued) && workflow in uuids.issued
    ensures Assigns(ids, tasks)
    ensures forall id | id in ids :: ids[id] !in old(uuids.issued) && ids[id] in uuids.issued
    ensures CompiledFrom(tasks, ids, workflow, executions)
    ensures roots == Roots(executions)
  {
    workflow := uuids.Uuid4();
    ids := AssignIds(tasks, uuids);
    var children := CreateChildTaskLookup(tasks, ids);
    executions, roots := CompileTasks(tasks, ids, workflow, children);
  }

  /******* Compilation preserves the graph *******/

  lemma DistinctExecutions(tasks: seq<TaskDefinition>, ids: map<Uuid, Uuid>)
    requires WellFormed(tasks) && Assigns(ids, tasks)
    ensures DistinctNodes(ExecutionNodes(tasks, ids))
  {
    var nodes := ExecutionNodes(tasks, ids);
    forall node | node in nodes
      ensures NoDuplicates(node.dependencies)
    {
      var i :| 0 <= i < |nodes| && nodes[i] == node;
      assert tasks[i] in tasks;
    }
  }

  /** `Compiled(j)` is a parent of `Compiled(i)` exactly when definition `i` depends on definition `j`. */
  lemma ParentsMirrorDependencies(tasks: seq<TaskDefinition>, ids: map<Uuid, Uuid>, workflow: Uuid, i: nat, j: nat)
    requires WellFormed(tasks) && Assigns(ids, tasks) && i < |tasks| && j < |tasks|
    ensures ExecutionId(ids, tasks[j].id) in Compiled(tasks, ids, workflow, i).parentTaskIds
       <==> tasks[j].id in tasks[i].dependencies
    ensures NoDuplicates(Compiled(tasks, ids, workflow, i).parentTaskIds)
  {
    var task, parents := tasks[i], ParentIds(ids, tasks[i].dependencies);
    assert task in tasks && tasks[j] in tasks;
    assert WellFormedTask(Ids(tasks), task);
    if ExecutionId(ids, tasks[j].id) in parents {
      var m :| 0 <= m < |parents| && parents[m] == ExecutionId(ids, tasks[j].id);
      assert task.dependencies[m] in task.dependencies;
    }
    if tasks[j].id in task.dependencies {
      var m :| 0 <= m < |task.dependencies| && task.dependencies[m] == tasks[j].id;
      assert parents[m] == ExecutionId(ids, tasks[j].id);
    }
    forall a, b | 0 <= a < b < |parents|
      ensures parents[a] != parents[b]
    {
      assert task.dependencies[a] in task.dependencies && task.dependencies[b] in task.dependencies;
      assert task.dependencies[a] != task.dependencies[b];
    }
  }

  /** Child lists are the exact inverse of parent lists, and neither repeats an entry. */
  lemma ChildrenInvertParents(tasks: seq<TaskDefinition>, ids: map<Uuid, Uuid>, workflow: Uuid, i: nat, j: nat)
    requires WellFormed(tasks) && Assigns(ids, tasks) && i < |tasks| && j < |tasks|
    ensures var child, parent := Compiled(tasks, ids, workflow, i), Compiled(tasks, ids, workflow, j);
            && (parent.id in child.parentTaskIds <==> child.id in parent.childTaskIds)
            && NoDuplicates(parent.childTaskIds)
  {
    var nodes, key := ExecutionNodes(tasks, ids), tasks[j].id;
    DistinctExecutions(tasks, ids);
    DependentsAreExact(nodes, key);
    ParentsMirrorDependencies(tasks, ids, workflow, i, j);
    var child := ExecutionId(ids, tasks[i].id);
    if DependsOn(nodes, child, key) {
      var node :| node in nodes && node.child == child && key in node.dependencies;
      var m :| 0 <= m < |nodes| && nodes[m] == node;
      assert m == i;
    }
    if key in tasks[i].dependencies {
      assert nodes[i] in nodes;
    }
  }

  /** Every listed relative is one of the compiled executions. */
  lemma RelativesAreCompiled(tasks: seq<TaskDefinition>, ids: map<Uuid, Uuid>, workflow: Uuid, i: nat, id: Uuid)
    returns (j: nat)
    requires WellFormed(tasks) && Assigns(ids, tasks) && i < |tasks|
    requires var row := Compiled(tasks, ids, workflow, i); id in row.parentTaskIds || id in row.childTaskIds
    ensures j < |tasks| && ExecutionId(ids, tasks[j].id) == id
  {
    var row := Compiled(tasks, ids, workflow, i);
    if id in row.parentTaskIds {
      var m :| 0 <= m < |row.parentTaskIds| && row.parentTaskIds[m] == id;
      assert tasks[i] in tasks && tasks[i].dependencies[m] in tasks[i].dependencies;
      j := Position(tasks, tasks[i].dependencies[m]);
    } else {
      var nodes := ExecutionNodes(tasks, ids);
      DistinctExecutions(tasks, ids);
      DependentsAreExact(nodes, tasks[i].id);
      var node :| node in nodes && node.child == id && tasks[i].id in node.dependencies;
      j :| 0 <= j < |nodes| && nodes[j] == node;
    }
  }

  /** The roots are exactly the executions without parents. */
  lemma {:induction false} RootsHaveNoParents(executions: seq<TaskExecution>)
    ensures forall id :: id in Roots(executions) <==>
              exists i | 0 <= i < |executions| :: executions[i].id == id && executions[i].remainingDependencies == 0
  {
    if executions != [] {
      var front, last := executions[..|executions| - 1], executions[|executions| - 1];
      RootsHaveNoParents(front);
      assert forall i | 0 <= i < |front| :: front[i] == executions[i];
      forall id
        ensures id in Roots(executions) <==>
                  exists i | 0 <= i < |executions| :: executions[i].id == id && executions[i].remainingDependencies == 0
      {
        if id in Roots(front) {
          var i :| 0 <= i < |front| && front[i].id == id && front[i].remainingDependencies == 0;
          assert executions[i].id == id;
        }
      }
    }
  }
}
