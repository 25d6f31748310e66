/** Storing a compiled execution: the new rows join the old ones without disturbing them, and every stored
  * row stays traceable to the definition it was compiled from. */
module Creation {
  import opened Domain
  import opened DefinitionGraph
  import opened StartService
  import opened ExecutionStore
  import opened StoreInvariant

  type Layouts = map<Uuid, map<Uuid, Uuid>>

  type Definitions = map<Uuid, WorkflowDefinition>

  /******* The rows of one compiled execution *******/

  lemma {:induction false} RowsHold(executions: seq<TaskExecution>)
    requires forall i, j | 0 <= i < j < |executions| :: executions[i].id != executions[j].id
    ensures forall i | 0 <= i < |executions| ::
              executions[i].id in Rows(executions) && Rows(executions)[executions[i].id] == executions[i]
    ensures forall id | id in Rows(executions) :: exists i | 0 <= i < |executions| :: executions[i].id == id
  {
    if executions != [] {
      var front, last := executions[..|executions| - 1], executions[|executions| - 1];
      assert forall i | 0 <= i < |front| :: front[i] == executions[i];
      RowsHold(front);
      forall id | id in Rows(executions)
        ensures exists i | 0 <= i < |executions| :: executions[i].id == id
      {
        if id in Rows(front) {
          var i :| 0 <= i < |front| && front[i].id == id;
          assert executions[i].id == id;
        }
      }
    }
  }

  /** The new rows are the compiled tasks under their assigned ids. */
  ghost predicate HoldsCompiled(
    tasks: seq<TaskDefinition>, ids: map<Uuid, Uuid>, workflow: Uuid, rows: map<Uuid, TaskExecution>)
  {
    && (forall i | 0 <= i < |tasks| ::
          var id := ExecutionId(ids, tasks[i].id); id in rows && rows[id] == Compiled(tasks, ids, workflow, i))
    && (forall id | id in rows :: exists i | 0 <= i < |tasks| :: ExecutionId(ids, tasks[i].id) == id)
  }

  lemma CompiledRows(tasks: seq<TaskDefinition>, ids: map<Uuid, Uuid>, workflow: Uuid, executions: seq<TaskExecution>)
    requires UniqueIds(tasks) && Assigns(ids, tasks) && CompiledFrom(tasks, ids, workflow, executions)
    ensures HoldsCompiled(tasks, ids, workflow, Rows(executions))
  {
    DistinctRows(tasks, ids, workflow, executions);
    RowsHold(executions);
    var rows := Rows(executions);
    forall i | 0 <= i < |tasks|
      ensures ExecutionId(ids, tasks[i].id) in rows
      ensures rows[ExecutionId(ids, tasks[i].id)] == Compiled(tasks, ids, workflow, i)
    {
      assert executions[i].id in rows;
    }
    forall id | id in rows
      ensures exists i | 0 <= i < |tasks| :: ExecutionId(ids, tasks[i].id) == id
    {
      var i :| 0 <= i < |executions| && executions[i].id == id;
      assert ExecutionId(ids, tasks[i].id) == id;
    }
  }

  lemma NewRowLinked(
    tasks: seq<TaskDefinition>, ids: map<Uuid, Uuid>, workflow: Uuid, rows: map<Uuid, TaskExecution>, i: nat)
    requires WellFormed(tasks) && Assigns(ids, tasks) && HoldsCompiled(tasks, ids, workflow, rows) && i < |tasks|
    ensures Linked(rows, ExecutionId(ids, tasks[i].id))
  {
    var row := Compiled(tasks, ids, workflow, i);
    hide WellFormed, Assigns;
    ParentsMirrorDependencies(tasks, ids, workflow, i, i);
    ChildrenInvertParents(tasks, ids, workflow, i, i);
    forall p | p in row.parentTaskIds
      ensures p in rows && rows[p].workflowExecutionId == workflow && row.id in rows[p].childTaskIds
    {
      var j := RelativesAreCompiled(tasks, ids, workflow, i, p);
      ChildrenInvertParents(tasks, ids, workflow, i, j);
    }
    forall c | c in row.childTaskIds
      ensures c in rows && rows[c].workflowExecutionId == workflow && row.id in rows[c].parentTaskIds
    {
      var j := RelativesAreCompiled(tasks, ids, workflow, i, c);
      ChildrenInvertParents(tasks, ids, workflow, j, i);
    }
  }

  lemma NewRowsLinked(
    tasks: seq<TaskDefinition>, ids: map<Uuid, Uuid>, workflow: Uuid, rows: map<Uuid, TaskExecution>)
    requires WellFormed(tasks) && Assigns(ids, tasks) && HoldsCompiled(tasks, ids, workflow, rows)
    ensures AllLinked(rows)
  {
    forall id | id in rows
      ensures Linked(rows, id)
    {
      var i :| 0 <= i < |tasks| && ExecutionId(ids, tasks[i].id) == id;
      NewRowLinked(tasks, ids, workflow, rows, i);
    }
  }

  /** What the other invariants need to know about a freshly stored row. */
  ghost predicate Fresh(workflow: Uuid, id: Uuid, row: TaskExecution) {
    && row.id == id
    && row.workflowExecutionId == workflow
    && row.status == PENDING
    && row.output == None && row.errorMessage == None && row.startedAt == None && row.completedAt == None
    && row.remainingTries >= 1
    && row.remainingDependencies == |row.parentTaskIds|
  }

  ghost predicate AllFresh(workflow: Uuid, rows: map<Uuid, TaskExecution>) {
    forall id | id in rows :: Fresh(workflow, id, rows[id])
  }

  lemma NewRowsFresh(
    tasks: seq<TaskDefinition>, ids: map<Uuid, Uuid>, workflow: Uuid, rows: map<Uuid, TaskExecution>)
    requires WellFormed(tasks) && HoldsCompiled(tasks, ids, workflow, rows)
    ensures AllFresh(workflow, rows) && rows != map[]
  {
    forall id | id in rows
      ensures Fresh(workflow, id, rows[id])
    {
      var i :| 0 <= i < |tasks| && ExecutionId(ids, tasks[i].id) == id;
      assert tasks[i] in tasks;
    }
    assert ExecutionId(ids, tasks[0].id) in rows;
  }

  /******* Joining the stored rows *******/

  lemma JoinLinked(old_: map<Uuid, TaskExecution>, rows: map<Uuid, TaskExecution>)
    requires AllLinked(old_) && AllLinked(rows) && old_.Keys !! rows.Keys
    ensures AllLinked(old_ + rows)
  {
    var all := old_ + rows;
    forall id | id in all
      ensures Linked(all, id)
    {
      if id in rows {
        assert Linked(rows, id);
      } else {
        assert Linked(old_, id);
      }
    }
  }

  lemma JoinCounted(old_: map<Uuid, TaskExecution>, rows: map<Uuid, TaskExecution>, workflow: Uuid)
    requires AllCounted(old_) && AllFresh(workflow, rows) && AllLinked(rows) && old_.Keys !! rows.Keys
    ensures AllCounted(old_ + rows)
  {
    var all := old_ + rows;
    assert Completed(all) == Completed(old_);
    forall id | id in all
      ensures Counted(Completed(old_), all[id])
    {
      if id in rows {
        assert Linked(rows, id) && Fresh(workflow, id, rows[id]);
        forall p | p in rows[id].parentTaskIds
          ensures p !in Completed(old_)
        {
          assert p in rows;
        }
        CountDisjoint(rows[id].parentTaskIds, Completed(old_));
      } else {
        assert Counted(Completed(old_), old_[id]);
      }
    }
  }

  lemma JoinAgrees(st: Store, workflow: Uuid, definition: Uuid, rows: map<Uuid, TaskExecution>)
    requires AllAgree(st) && AllFresh(workflow, rows) && rows != map[] && st.tasks.Keys !! rows.Keys
    requires workflow !in st.workflows
    ensures AllAgree(Store(st.tasks + rows, st.workflows[workflow := WorkflowExecution(definition, WorkflowRunning, None)]))
  {
    var after := Store(st.tasks + rows, st.workflows[workflow := WorkflowExecution(definition, WorkflowRunning, None)]);
    forall w | w in after.workflows
      ensures Agrees(after, w)
    {
      if w == workflow {
        var id :| id in rows;
        assert Fresh(workflow, id, rows[id]) && Member(after.tasks, w, id);
        assert forall x | Member(after.tasks, w, x) :: x in rows && Fresh(workflow, x, rows[x]);
      } else {
        assert Agrees(st, w);
        assert forall x | x in rows :: Fresh(workflow, x, rows[x]);
        assert forall x :: Member(after.tasks, w, x) <==> Member(st.tasks, w, x);
        OtherWorkflowAgrees(st, after, w);
      }
    }
  }

  lemma CreateKeepsConsistent(
    st: Store, tasks: seq<TaskDefinition>, ids: map<Uuid, Uuid>, workflow: Uuid, definition: Uuid,
    executions: seq<TaskExecution>)
    requires Consistent(st) && WellFormed(tasks) && Assigns(ids, tasks)
    requires CompiledFrom(tasks, ids, workflow, executions)
    requires workflow !in st.workflows && st.tasks.Keys !! Rows(executions).Keys
    ensures var after := CreateExecution(st, workflow, definition, executions);
            Consistent(after) && Advances(st, after)
  {
    var rows := Rows(executions);
    assert UniqueIds(tasks);
    hide AllLinked, AllCounted, AllAgree, AllFresh, HoldsCompiled, WellFormed, Assigns, CompiledFrom, Rows;
    CompiledRows(tasks, ids, workflow, executions);
    NewRowsLinked(tasks, ids, workflow, rows);
    NewRowsFresh(tasks, ids, workflow, rows);
    JoinLinked(st.tasks, rows);
    JoinCounted(st.tasks, rows, workflow);
    JoinAgrees(st, workflow, definition, rows);
    JoinSettled(st.tasks, rows, workflow);
    JoinAdvances(st, workflow, definition, rows);
  }

  /** Storing an execution adds its rows, all fresh, and one running workflow row, and changes nothing else. */
  lemma CreationIsExact(
    st: Store, tasks: seq<TaskDefinition>, ids: map<Uuid, Uuid>, workflow: Uuid, definition: Uuid,
    executions: seq<TaskExecution>)
    requires WellFormed(tasks) && Assigns(ids, tasks) && CompiledFrom(tasks, ids, workflow, executions)
    requires forall i | 0 <= i < |executions| :: executions[i].id !in st.tasks
    ensures var after := CreateExecution(st, workflow, definition, executions);
            && after.workflows == st.workflows[workflow := WorkflowExecution(definition, WorkflowRunning, None)]
            && (forall id | id in st.tasks :: id in after.tasks && after.tasks[id] == st.tasks[id])
            && (forall i | 0 <= i < |executions| ::
                  var id := executions[i].id;
                  id in after.tasks && after.tasks[id] == executions[i] && Fresh(workflow, id, executions[i]))
            && (forall id | id in after.tasks && id !in st.tasks ::
                  exists i | 0 <= i < |executions| :: executions[i].id == id)
  {
    var rows := Rows(executions);
    assert UniqueIds(tasks);
    DistinctRows(tasks, ids, workflow, executions);
    RowsHold(executions);
    CompiledRows(tasks, ids, workflow, executions);
    hide Rows, Assigns, CompiledFrom, Fresh, HoldsCompiled, WellFormed;
    NewRowsFresh(tasks, ids, workflow, rows);
    forall i | 0 <= i < |executions|
      ensures Fresh(workflow, executions[i].id, executions[i])
    {
      assert executions[i].id in rows;
    }
    forall id | id in st.tasks
      ensures id !in rows
    {
    }
  }

  lemma DistinctRows(tasks: seq<TaskDefinition>, ids: map<Uuid, Uuid>, workflow: Uuid, executions: seq<TaskExecution>)
    requires UniqueIds(tasks) && Assigns(ids, tasks) && CompiledFrom(tasks, ids, workflow, executions)
    ensures forall i, j | 0 <= i < j < |executions| :: executions[i].id != executions[j].id
  {
    forall i, j | 0 <= i < j < |executions|
      ensures executions[i].id != executions[j].id
    {
      assert tasks[i].id in ids && tasks[j].id in ids;
    }
  }

  lemma JoinSettled(old_: map<Uuid, TaskExecution>, rows: map<Uuid, TaskExecution>, workflow: Uuid)
    requires AllSettled(old_) && AllFresh(workflow, rows)
    ensures AllSettled(old_ + rows)
  {
  }

  lemma JoinAdvances(st: Store, workflow: Uuid, definition: Uuid, rows: map<Uuid, TaskExecution>)
    requires workflow !in st.workflows && st.tasks.Keys !! rows.Keys
    ensures Advances(st, Store(st.tasks + rows, st.workflows[workflow := WorkflowExecution(definition, WorkflowRunning, None)]))
  {
  }

  /******* Every row comes from its definition *******/

  /** The rows of a stored workflow are, in what never changes, the compiled tasks of its definition. */
  ghost predicate Laid(definitions: Definitions, layouts: Layouts, st: Store, w: Uuid)
    requires w in st.workflows
  {
    && w in layouts
    && st.workflows[w].workflowDefinitionId in definitions
    && var tasks := definitions[st.workflows[w].workflowDefinitionId].taskDefinitions;
       && WellFormed(tasks)
       && Assigns(layouts[w], tasks)
       && forall i | 0 <= i < |tasks| :: LaidRow(tasks, layouts[w], st.tasks, w, i)
  }

  ghost predicate LaidRow(
    tasks: seq<TaskDefinition>, ids: map<Uuid, Uuid>, rows: map<Uuid, TaskExecution>, w: Uuid, i: nat)
    requires i < |tasks|
  {
    var id := ExecutionId(ids, tasks[i].id);
    id in rows && Fixed(rows[id]) == Fixed(Compiled(tasks, ids, w, i))
  }

  /** Every row holds the place its workflow's layout gives it. */
  ghost predicate Placed(layouts: Layouts, st: Store, id: Uuid)
    requires id in st.tasks
  {
    var row := st.tasks[id];
    && row.workflowExecutionId in st.workflows
    && row.workflowExecutionId in layouts
    && row.taskDefinitionId in layouts[row.workflowExecutionId]
    && layouts[row.workflowExecutionId][row.taskDefinitionId] == id
  }

  ghost predicate AllLaid(definitions: Definitions, layouts: Layouts, st: Store) {
    && (forall w | w in st.workflows :: Laid(definitions, layouts, st, w))
    && (forall id | id in st.tasks :: Placed(layouts, st, id))
  }

  lemma LaidStays(definitions: Definitions, layouts: Layouts, before: Store, after: Store)
    requires AllLaid(definitions, layouts, before) && Advances(before, after) && SameRows(before, after)
    ensures AllLaid(definitions, layouts, after)
  {
    forall w | w in after.workflows
      ensures Laid(definitions, layouts, after, w)
    {
      assert Laid(definitions, layouts, before, w);
      assert WorkflowAdvances(before.workflows[w], after.workflows[w]);
      var tasks := definitions[before.workflows[w].workflowDefinitionId].taskDefinitions;
      forall i | 0 <= i < |tasks|
        ensures LaidRow(tasks, layouts[w], after.tasks, w, i)
      {
        assert LaidRow(tasks, layouts[w], before.tasks, w, i);
      }
    }
    forall id | id in after.tasks
      ensures Placed(layouts, after, id)
    {
      assert Placed(layouts, before, id) && RowAdvances(before.tasks[id], after.tasks[id]);
    }
  }

  /** The definition a row was compiled from. */
  ghost function DefinitionOf(definitions: Definitions, st: Store, w: Uuid): (tasks: seq<TaskDefinition>)
  {
    if w in st.workflows && st.workflows[w].workflowDefinitionId in definitions
    then definitions[st.workflows[w].workflowDefinitionId].taskDefinitions
    else []
  }

  lemma RowOrigin(definitions: Definitions, layouts: Layouts, st: Store, id: Uuid) returns (i: nat)
    requires AllLaid(definitions, layouts, st) && id in st.tasks
    ensures var w := st.tasks[id].workflowExecutionId;
            var tasks := DefinitionOf(definitions, st, w);
            && w in layouts && Assigns(layouts[w], tasks) && WellFormed(tasks)
            && i < |tasks|
            && tasks[i].id == st.tasks[id].taskDefinitionId
            && ExecutionId(layouts[w], tasks[i].id) == id
            && LaidRow(tasks, layouts[w], st.tasks, w, i)
  {
    assert Placed(layouts, st, id);
    var w := st.tasks[id].workflowExecutionId;
    assert Laid(definitions, layouts, st, w);
    i := Position(DefinitionOf(definitions, st, w), st.tasks[id].taskDefinitionId);
  }

  lemma CreateLays(
    definitions: Definitions, layouts: Layouts, st: Store, tasks: seq<TaskDefinition>, ids: map<Uuid, Uuid>,
    workflow: Uuid, definition: Uuid, executions: seq<TaskExecution>)
    requires AllLaid(definitions, layouts, st) && WellFormed(tasks) && Assigns(ids, tasks)
    requires CompiledFrom(tasks, ids, workflow, executions)
    requires definition in definitions && definitions[definition].taskDefinitions == tasks
    requires workflow !in st.workflows && st.tasks.Keys !! Rows(executions).Keys
    ensures AllLaid(definitions, layouts[workflow := ids], CreateExecution(st, workflow, definition, executions))
  {
    assert UniqueIds(tasks);
    hide WellFormed, Assigns, CompiledFrom, Rows, AllLaid, HoldsCompiled;
    CompiledRows(tasks, ids, workflow, executions);
    LayRows(definitions, layouts, st, tasks, ids, workflow, definition, Rows(executions));
  }

  lemma LayRows(
    definitions: Definitions, layouts: Layouts, st: Store, tasks: seq<TaskDefinition>, ids: map<Uuid, Uuid>,
    workflow: Uuid, definition: Uuid, rows: map<Uuid, TaskExecution>)
    requires AllLaid(definitions, layouts, st) && WellFormed(tasks) && Assigns(ids, tasks)
    requires HoldsCompiled(tasks, ids, workflow, rows)
    requires definition in definitions && definitions[definition].taskDefinitions == tasks
    requires workflow !in st.workflows && st.tasks.Keys !! rows.Keys
    ensures AllLaid(definitions, layouts[workflow := ids],
                    Store(st.tasks + rows, st.workflows[workflow := WorkflowExecution(definition, WorkflowRunning, None)]))
  {
    var after := Store(st.tasks + rows, st.workflows[workflow := WorkflowExecution(definition, WorkflowRunning, None)]);
    hide WellFormed, Assigns, HoldsCompiled, AllLaid, Laid, Placed;
    assert after.workflows.Keys == st.workflows.Keys + {workflow};
    LayOld(definitions, layouts, st, ids, workflow, definition, rows);
    LayNew(definitions, layouts, st, tasks, ids, workflow, definition, rows);
    JoinLaid(definitions, layouts[workflow := ids], st, rows, workflow, after);
  }

  lemma JoinLaid(
    definitions: Definitions, layouts: Layouts, st: Store, rows: map<Uuid, TaskExecution>, workflow: Uuid, after: Store)
    requires after.tasks.Keys == st.tasks.Keys + rows.Keys && after.workflows.Keys == st.workflows.Keys + {workflow}
    requires forall w | w in st.workflows :: Laid(definitions, layouts, after, w)
    requires Laid(definitions, layouts, after, workflow)
    requires forall id | id in st.tasks :: Placed(layouts, after, id)
    requires forall id | id in rows :: Placed(layouts, after, id)
    ensures AllLaid(definitions, layouts, after)
  {
    hide Laid, Placed;
  }

  lemma LayOld(
    definitions: Definitions, layouts: Layouts, st: Store, ids: map<Uuid, Uuid>,
    workflow: Uuid, definition: Uuid, rows: map<Uuid, TaskExecution>)
    requires AllLaid(definitions, layouts, st) && workflow !in st.workflows && st.tasks.Keys !! rows.Keys
    ensures var after := Store(st.tasks + rows, st.workflows[workflow := WorkflowExecution(definition, WorkflowRunning, None)]);
            && (forall w | w in st.workflows :: Laid(definitions, layouts[workflow := ids], after, w))
            && (forall id | id in st.tasks :: Placed(layouts[workflow := ids], after, id))
  {
    hide WellFormed, Assigns;
    var after := Store(st.tasks + rows, st.workflows[workflow := WorkflowExecution(definition, WorkflowRunning, None)]);
    forall w | w in st.workflows
      ensures Laid(definitions, layouts[workflow := ids], after, w)
    {
      assert Laid(definitions, layouts, st, w);
      var tasks := definitions[st.workflows[w].workflowDefinitionId].taskDefinitions;
      forall i | 0 <= i < |tasks|
        ensures LaidRow(tasks, layouts[w], after.tasks, w, i)
      {
        assert LaidRow(tasks, layouts[w], st.tasks, w, i);
      }
    }
    forall id | id in st.tasks
      ensures Placed(layouts[workflow := ids], after, id)
    {
      assert Placed(layouts, st, id);
    }
  }

  lemma LayNew(
    definitions: Definitions, layouts: Layouts, st: Store, tasks: seq<TaskDefinition>, ids: map<Uuid, Uuid>,
    workflow: Uuid, definition: Uuid, rows: map<Uuid, TaskExecution>)
    requires WellFormed(tasks) && Assigns(ids, tasks) && HoldsCompiled(tasks, ids, workflow, rows)
    requires definition in definitions && definitions[definition].taskDefinitions == tasks
    ensures var after := Store(st.tasks + rows, st.workflows[workflow := WorkflowExecution(definition, WorkflowRunning, None)]);
            && Laid(definitions, layouts[workflow := ids], after, workflow)
            && (forall id | id in rows :: Placed(layouts[workflow := ids], after, id))
  {
    hide WellFormed;
    var after := Store(st.tasks + rows, st.workflows[workflow := WorkflowExecution(definition, WorkflowRunning, None)]);
    forall i | 0 <= i < |tasks|
      ensures LaidRow(tasks, ids, after.tasks, workflow, i)
    {
      assert ExecutionId(ids, tasks[i].id) in rows;
    }
    forall id | id in rows
      ensures Placed(layouts[workflow := ids], after, id)
    {
      var i :| 0 <= i < |tasks| && ExecutionId(ids, tasks[i].id) == id;
    }
  }
}
