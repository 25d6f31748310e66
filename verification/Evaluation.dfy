/** What a workflow computes: its definition read as a recursive function, and why every schedule computes it. */
module Evaluation {
  import opened Domain
  import opened Graphs
  import opened DefinitionGraph
  import opened StartService
  import opened ExecutionStore
  import opened StoreInvariant
  import opened Creation
  import opened Protocol
  import opened ProtocolInvariant
  import opened Accounting
  import Q = QueueModel

  /******* The meaning of a definition *******/

  /** A deterministic reading of the task plugins. */
  type Plugins = (string, TaskContext) -> TaskOutput

  datatype Recipe = Recipe(pluginType: string, configuration: Configuration, parents: set<string>)

  type Blueprint = map<string, Recipe>

  ghost predicate Ranks(blueprint: Blueprint, rank: map<string, nat>) {
    && blueprint.Keys <= rank.Keys
    && forall k, p | k in blueprint && p in blueprint[k].parents :: p in blueprint && rank[p] < rank[k]
  }

  ghost predicate Evaluable(blueprint: Blueprint) {
    exists rank :: Ranks(blueprint, rank)
  }

  ghost function AnyRank(blueprint: Blueprint): (rank: map<string, nat>)
    requires Evaluable(blueprint)
    ensures Ranks(blueprint, rank)
  {
    var rank: map<string, nat> :| Ranks(blueprint, rank);
    rank
  }

  ghost function EvalRanked(plugins: Plugins, blueprint: Blueprint, rank: map<string, nat>, key: string): TaskOutput
    requires Ranks(blueprint, rank) && key in blueprint
    decreases rank[key]
  {
    var recipe := blueprint[key];
    plugins(recipe.pluginType, TaskContext(recipe.configuration,
      map p | p in recipe.parents :: EvalRanked(plugins, blueprint, rank, p)))
  }

  /** The output of a task: its plugin applied to the outputs of its dependencies, each under its key. */
  ghost function Eval(plugins: Plugins, blueprint: Blueprint, key: string): TaskOutput
    requires Evaluable(blueprint) && key in blueprint
  {
    EvalRanked(plugins, blueprint, AnyRank(blueprint), key)
  }

  ghost function ParentValues(plugins: Plugins, blueprint: Blueprint, key: string): (values: map<string, TaskOutput>)
    requires Evaluable(blueprint) && key in blueprint
    ensures values.Keys == blueprint[key].parents
    ensures forall p | p in values :: p in blueprint && values[p] == Eval(plugins, blueprint, p)
  {
    RankedValues(plugins, blueprint, AnyRank(blueprint), key)
  }

  ghost function RankedValues(plugins: Plugins, blueprint: Blueprint, rank: map<string, nat>, key: string)
    : (values: map<string, TaskOutput>)
    requires Ranks(blueprint, rank) && key in blueprint
    ensures values.Keys == blueprint[key].parents
    ensures forall p | p in values :: p in blueprint && values[p] == EvalRanked(plugins, blueprint, rank, p)
  {
    map p | p in blueprint[key].parents :: EvalRanked(plugins, blueprint, rank, p)
  }

  lemma EvalUnfolds(plugins: Plugins, blueprint: Blueprint, key: string)
    requires Evaluable(blueprint) && key in blueprint
    ensures Eval(plugins, blueprint, key)
         == plugins(blueprint[key].pluginType,
                    TaskContext(blueprint[key].configuration, ParentValues(plugins, blueprint, key)))
  {
    RankedUnfolds(plugins, blueprint, AnyRank(blueprint), key);
  }

  lemma RankedUnfolds(plugins: Plugins, blueprint: Blueprint, rank: map<string, nat>, key: string)
    requires Ranks(blueprint, rank) && key in blueprint
    ensures EvalRanked(plugins, blueprint, rank, key)
         == plugins(blueprint[key].pluginType,
                    TaskContext(blueprint[key].configuration, RankedValues(plugins, blueprint, rank, key)))
  {
  }

  /******* The blueprint of a stored definition *******/

  ghost function KeyOf(tasks: seq<TaskDefinition>, id: Uuid): string {
    if id in Ids(tasks) then tasks[Position(tasks, id)].key else ""
  }

  ghost function RecipeOf(tasks: seq<TaskDefinition>, i: nat): Recipe
    requires i < |tasks|
  {
    Recipe(tasks[i].pluginType, tasks[i].configuration, set d | d in tasks[i].dependencies :: KeyOf(tasks, d))
  }

  ghost function BlueprintOf(tasks: seq<TaskDefinition>): (blueprint: Blueprint)
    requires UniqueKeys(tasks)
    ensures forall i | 0 <= i < |tasks| :: tasks[i].key in blueprint && blueprint[tasks[i].key] == RecipeOf(tasks, i)
    ensures forall key | key in blueprint :: exists i | 0 <= i < |tasks| :: tasks[i].key == key
  {
    map i | 0 <= i < |tasks| :: tasks[i].key := RecipeOf(tasks, i)
  }

  ghost function KeyRank(tasks: seq<TaskDefinition>, rank: map<Uuid, nat>): (keyRank: map<string, nat>)
    requires UniqueKeys(tasks) && forall i | 0 <= i < |tasks| :: tasks[i].id in rank
    ensures forall i | 0 <= i < |tasks| :: tasks[i].key in keyRank && keyRank[tasks[i].key] == rank[tasks[i].id]
    ensures keyRank.Keys == BlueprintOf(tasks).Keys
  {
    map i | 0 <= i < |tasks| :: tasks[i].key := rank[tasks[i].id]
  }

  lemma DefinitionIsEvaluable(tasks: seq<TaskDefinition>)
    requires WellFormed(tasks)
    ensures Evaluable(BlueprintOf(tasks))
  {
    var rank: map<Uuid, nat> :| Ranking(IdGraph(tasks), rank);
    IdGraphShape(tasks);
    RanksEveryTask(tasks, rank);
    hide WellFormed, BlueprintOf, KeyRank, Ranking, IdGraph, Ranks;
    RecipesRank(tasks, rank);
  }

  lemma RanksEveryTask(tasks: seq<TaskDefinition>, rank: map<Uuid, nat>)
    requires UniqueIds(tasks) && Ranking(IdGraph(tasks), rank)
    ensures forall i | 0 <= i < |tasks| :: tasks[i].id in rank
  {
    IdGraphShape(tasks);
    hide IdGraph;
  }

  lemma RecipesRank(tasks: seq<TaskDefinition>, rank: map<Uuid, nat>)
    requires WellFormed(tasks) && Ranking(IdGraph(tasks), rank)
    requires forall i | 0 <= i < |tasks| :: tasks[i].id in rank
    ensures Ranks(BlueprintOf(tasks), KeyRank(tasks, rank))
  {
    hide BlueprintOf, KeyRank, Ranking, IdGraph, RecipeOf;
    forall k, p | k in BlueprintOf(tasks) && p in BlueprintOf(tasks)[k].parents {
      ParentRanksBelow(tasks, rank, k, p);
    }
  }

  lemma ParentRanksBelow(tasks: seq<TaskDefinition>, rank: map<Uuid, nat>, k: string, p: string)
    requires WellFormed(tasks) && Ranking(IdGraph(tasks), rank)
    requires forall i | 0 <= i < |tasks| :: tasks[i].id in rank
    requires k in BlueprintOf(tasks) && p in BlueprintOf(tasks)[k].parents
    ensures var keyRank := KeyRank(tasks, rank);
            p in BlueprintOf(tasks) && k in keyRank && p in keyRank && keyRank[p] < keyRank[k]
  {
    var blueprint, keyRank := BlueprintOf(tasks), KeyRank(tasks, rank);
    hide WellFormed, BlueprintOf, KeyRank, Ranking, IdGraph, RecipeOf;
    var i :| 0 <= i < |tasks| && tasks[i].key == k;
    assert blueprint[k] == RecipeOf(tasks, i);
    var m := RecipeRankFalls(tasks, rank, i, p);
  }

  lemma RecipeRankFalls(tasks: seq<TaskDefinition>, rank: map<Uuid, nat>, i: nat, p: string) returns (m: nat)
    requires WellFormed(tasks) && Ranking(IdGraph(tasks), rank)
    requires i < |tasks| && p in RecipeOf(tasks, i).parents
    ensures m < |tasks| && tasks[m].key == p
    ensures tasks[m].id in rank && tasks[i].id in rank && rank[tasks[m].id] < rank[tasks[i].id]
  {
    var d :| d in tasks[i].dependencies && KeyOf(tasks, d) == p;
    DependencyKnown(tasks, i, d);
    IdGraphShape(tasks);
    hide WellFormed, IdGraph;
    m := Position(tasks, d);
    assert d in IdGraph(tasks)[tasks[i].id];
  }

  lemma DependencyKnown(tasks: seq<TaskDefinition>, i: nat, d: Uuid)
    requires WellFormed(tasks) && i < |tasks| && d in tasks[i].dependencies
    ensures d in Ids(tasks)
  {
    assert tasks[i] in tasks;
    assert WellFormedTask(Ids(tasks), tasks[i]);
  }

  /******* Inputs *******/

  ghost function BlueprintFor(definitions: Definitions, st: Store, id: Uuid): Blueprint
    requires id in st.tasks && UniqueKeys(DefinitionOf(definitions, st, st.tasks[id].workflowExecutionId))
  {
    BlueprintOf(DefinitionOf(definitions, st, st.tasks[id].workflowExecutionId))
  }

  /** The `j`th parent of a row is the row of its definition's `j`th dependency, under that dependency's key. */
  lemma ParentAt(definitions: Definitions, layouts: Layouts, st: Store, id: Uuid, i: nat, j: nat)
    requires AllLaid(definitions, layouts, st) && id in st.tasks
    requires var tasks := DefinitionOf(definitions, st, st.tasks[id].workflowExecutionId);
             i < |tasks| && tasks[i].id == st.tasks[id].taskDefinitionId && j < |tasks[i].dependencies|
    ensures var tasks := DefinitionOf(definitions, st, st.tasks[id].workflowExecutionId);
            && |st.tasks[id].parentTaskIds| == |tasks[i].dependencies|
            && var p := st.tasks[id].parentTaskIds[j];
               p in st.tasks && st.tasks[p].key == KeyOf(tasks, tasks[i].dependencies[j])
  {
    var w := st.tasks[id].workflowExecutionId;
    var tasks := DefinitionOf(definitions, st, w);
    var own := RowOrigin(definitions, layouts, st, id);
    assert own == i;
    assert Laid(definitions, layouts, st, w);
    var d := tasks[i].dependencies[j];
    DependencyKnown(tasks, i, d);
    var m := Position(tasks, d);
    assert LaidRow(tasks, layouts[w], st.tasks, w, m);
    hide WellFormed, AllLaid, Laid;
    assert Fixed(st.tasks[id]).parentTaskIds == ParentIds(layouts[w], tasks[i].dependencies);
    var p := ExecutionId(layouts[w], d);
    assert Fixed(st.tasks[p]).key == tasks[m].key;
  }

  /** The facts about one row that reading its inputs depends on. */
  ghost predicate KeyedParents(tasks: seq<TaskDefinition>, i: nat, rows: map<Uuid, TaskExecution>, parents: seq<Uuid>) {
    && i < |tasks|
    && |parents| == |tasks[i].dependencies|
    && forall j | 0 <= j < |parents| :: parents[j] in rows && rows[parents[j]].key == KeyOf(tasks, tasks[i].dependencies[j])
  }

  lemma ParentsAreKeyed(definitions: Definitions, layouts: Layouts, st: Store, id: Uuid) returns (i: nat)
    requires AllLaid(definitions, layouts, st) && id in st.tasks
    ensures var tasks := DefinitionOf(definitions, st, st.tasks[id].workflowExecutionId);
            && WellFormed(tasks) && i < |tasks|
            && KeyedParents(tasks, i, st.tasks, st.tasks[id].parentTaskIds)
            && st.tasks[id].key == tasks[i].key
            && st.tasks[id].pluginType == tasks[i].pluginType
            && st.tasks[id].configuration == tasks[i].configuration
  {
    i := RowOrigin(definitions, layouts, st, id);
    var w := st.tasks[id].workflowExecutionId;
    var tasks := DefinitionOf(definitions, st, w);
    assert Fixed(st.tasks[id]) == Fixed(Compiled(tasks, layouts[w], w, i));
    assert Fixed(st.tasks[id]).key == tasks[i].key && Fixed(st.tasks[id]).pluginType == tasks[i].pluginType;
    assert Fixed(st.tasks[id]).configuration == tasks[i].configuration;
    assert Fixed(st.tasks[id]).parentTaskIds == ParentIds(layouts[w], tasks[i].dependencies);
    hide WellFormed, AllLaid, LaidRow;
    forall j | 0 <= j < |tasks[i].dependencies|
      ensures st.tasks[id].parentTaskIds[j] in st.tasks
      ensures st.tasks[st.tasks[id].parentTaskIds[j]].key == KeyOf(tasks, tasks[i].dependencies[j])
    {
      ParentAt(definitions, layouts, st, id, i, j);
    }
  }

  /** Two dependencies with one key are the same dependency, so no two parents share a key. */
  lemma KeysIdentifyParents(tasks: seq<TaskDefinition>, i: nat, rows: map<Uuid, TaskExecution>, parents: seq<Uuid>,
                            a: nat, b: nat)
    requires WellFormed(tasks) && KeyedParents(tasks, i, rows, parents)
    requires a < |parents| && b < |parents| && rows[parents[a]].key == rows[parents[b]].key
    ensures a == b
  {
    var deps := tasks[i].dependencies;
    assert deps[a] in deps && deps[b] in deps;
    DependencyKnown(tasks, i, deps[a]);
    DependencyKnown(tasks, i, deps[b]);
    assert Position(tasks, deps[a]) == Position(tasks, deps[b]);
    assert tasks[i] in tasks;
    assert NoDuplicates(deps);
  }

  /** The inputs a task receives hold one entry for each parent, under that parent's key: none is lost. */
  ghost predicate CompleteInputs(rows: map<Uuid, TaskExecution>, parents: seq<Uuid>, inputs: map<string, TaskOutput>) {
    && |inputs.Keys| == |parents|
    && (forall p | p in parents :: p in rows && rows[p].key in inputs && rows[p].output == Some(inputs[rows[p].key]))
    && (forall key | key in inputs :: exists p | p in parents :: p in rows && rows[p].key == key)
  }

  lemma InputsAreComplete(tasks: seq<TaskDefinition>, i: nat, rows: map<Uuid, TaskExecution>, parents: seq<Uuid>,
                          inputs: map<string, TaskOutput>)
    requires WellFormed(tasks) && KeyedParents(tasks, i, rows, parents)
    requires ParentOutputs(rows, parents, inputs)
    ensures CompleteInputs(rows, parents, inputs)
  {
    hide WellFormed;
    forall p | p in parents
      ensures p in rows && rows[p].key in inputs && rows[p].output == Some(inputs[rows[p].key])
    {
      InputOfParent(tasks, i, rows, parents, inputs, p);
    }
    OneInputEach(tasks, i, rows, parents, inputs);
    hide KeyedParents;
  }

  lemma InputOfParent(tasks: seq<TaskDefinition>, i: nat, rows: map<Uuid, TaskExecution>, parents: seq<Uuid>,
                      inputs: map<string, TaskOutput>, p: Uuid)
    requires WellFormed(tasks) && KeyedParents(tasks, i, rows, parents)
    requires ParentOutputs(rows, parents, inputs) && p in parents
    ensures p in rows && rows[p].key in inputs && rows[p].output == Some(inputs[rows[p].key])
  {
    var a :| 0 <= a < |parents| && parents[a] == p;
    var q :| q in parents && q in rows && rows[q].key == rows[p].key && rows[q].output == Some(inputs[rows[p].key]);
    var b :| 0 <= b < |parents| && parents[b] == q;
    hide WellFormed;
    KeysIdentifyParents(tasks, i, rows, parents, a, b);
  }

  ghost function KeysOf(rows: map<Uuid, TaskExecution>, parents: seq<Uuid>): (keys: seq<string>)
    requires forall p | p in parents :: p in rows
    ensures |keys| == |parents| && forall j | 0 <= j < |keys| :: keys[j] == rows[parents[j]].key
  {
    seq(|parents|, j requires 0 <= j < |parents| => rows[parents[j]].key)
  }

  lemma OneInputEach(tasks: seq<TaskDefinition>, i: nat, rows: map<Uuid, TaskExecution>, parents: seq<Uuid>,
                     inputs: map<string, TaskOutput>)
    requires WellFormed(tasks) && KeyedParents(tasks, i, rows, parents)
    requires ParentOutputs(rows, parents, inputs)
    ensures |inputs.Keys| == |parents|
  {
    hide WellFormed;
    var keys := KeysOf(rows, parents);
    forall a, b | 0 <= a < b < |keys|
      ensures keys[a] != keys[b]
    {
      if keys[a] == keys[b] {
        KeysIdentifyParents(tasks, i, rows, parents, a, b);
      }
    }
    DistinctSize(keys);
    KeysAreTaken(rows, parents, inputs);
  }

  lemma KeysAreTaken(rows: map<Uuid, TaskExecution>, parents: seq<Uuid>, inputs: map<string, TaskOutput>)
    requires (forall p | p in parents :: p in rows) && ParentOutputs(rows, parents, inputs)
    ensures inputs.Keys == Elements(KeysOf(rows, parents))
  {
    var keys := KeysOf(rows, parents);
    forall key | key in inputs
      ensures key in keys
    {
      var p :| p in parents && p in rows && rows[p].key == key;
      var a :| 0 <= a < |parents| && parents[a] == p;
      assert keys[a] == key;
    }
    forall key | key in keys
      ensures key in inputs
    {
      var a :| 0 <= a < |keys| && keys[a] == key;
      assert parents[a] in parents;
    }
  }

  lemma SameInputs(rows: map<Uuid, TaskExecution>, parents: seq<Uuid>,
                   a: map<string, TaskOutput>, b: map<string, TaskOutput>)
    requires CompleteInputs(rows, parents, a) && CompleteInputs(rows, parents, b)
    ensures a == b
  {
    forall key | key in a
      ensures key in b && b[key] == a[key]
    {
      var p :| p in parents && p in rows && rows[p].key == key;
    }
    forall key | key in b
      ensures key in a
    {
      var p :| p in parents && p in rows && rows[p].key == key;
    }
  }

  /** The context a worker holds while it executes a task or has executed it. */
  ghost predicate Holds(s: System, worker: Uuid, id: Uuid, pluginType: string, context: TaskContext) {
    && worker in s.workers
    && s.workers[worker].claim.taskExecutionId == id
    && (s.workers[worker].phase.Executing? || s.workers[worker].phase.Executed?)
    && s.workers[worker].phase.pluginType == pluginType
    && s.workers[worker].phase.context == context
  }

  lemma HeldContext(s: System, worker: Uuid, id: Uuid, pluginType: string, context: TaskContext)
    requires Inv(s) && Holds(s, worker, id, pluginType, context)
    ensures Ready(s.store.tasks, id) && RightContext(s.store.tasks, id, pluginType, context)
  {
    ClaimedReady(s, worker);
  }

  lemma LaterContext(st: Store, after: Store, id: Uuid, pluginType: string, context: TaskContext)
    requires Consistent(st) && Advances(st, after) && Ready(st.tasks, id) && RightContext(st.tasks, id, pluginType, context)
    ensures id in after.tasks && RightContext(after.tasks, id, pluginType, context)
  {
    hide Consistent, Advances, RightContext;
    PhaseStays(st, after, id, Executing(pluginType, context));
  }

  lemma ContextIsComplete(definitions: Definitions, layouts: Layouts, st: Store, id: Uuid,
                          pluginType: string, context: TaskContext)
    requires AllLaid(definitions, layouts, st) && id in st.tasks && RightContext(st.tasks, id, pluginType, context)
    ensures CompleteInputs(st.tasks, st.tasks[id].parentTaskIds, context.inputs)
  {
    hide AllLaid, WellFormed, KeyedParents, CompleteInputs;
    var i := ParentsAreKeyed(definitions, layouts, st, id);
    InputsAreComplete(DefinitionOf(definitions, st, st.tasks[id].workflowExecutionId), i,
                      st.tasks, st.tasks[id].parentTaskIds, context.inputs);
  }

  /** Whatever the schedule, every attempt at a task, first, repeated or duplicate, receives the same context,
    * with exactly one input for each of its parents. */
  lemma StableInputs(
    lease: Time, s: System, steps: seq<Step>, id: Uuid,
    worker: Uuid, pluginType: string, context: TaskContext,
    worker': Uuid, pluginType': string, context': TaskContext)
    requires Reachable(lease, s) && Run(lease, s, steps)
    requires Holds(s, worker, id, pluginType, context)
    requires Holds(After(s, steps), worker', id, pluginType', context')
    ensures pluginType == pluginType' && context == context'
    ensures id in s.store.tasks && CompleteInputs(s.store.tasks, s.store.tasks[id].parentTaskIds, context.inputs)
  {
    hide Run, After, Reachable, Advances, StoreOk, JointOk;
    ReachableInv(lease, s);
    RunKeepsInv(lease, s, steps);
    HeldContext(s, worker, id, pluginType, context);
    HeldContext(After(s, steps), worker', id, pluginType', context');
    hide Holds, Inv, RightContext;
    SameContext(s, After(s, steps), id, pluginType, context, pluginType', context');
  }

  lemma SameContext(
    s: System, later: System, id: Uuid,
    pluginType: string, context: TaskContext, pluginType': string, context': TaskContext)
    requires Inv(s) && Inv(later) && Advances(s.store, later.store)
    requires Ready(s.store.tasks, id) && RightContext(s.store.tasks, id, pluginType, context)
    requires Ready(later.store.tasks, id) && RightContext(later.store.tasks, id, pluginType', context')
    ensures pluginType == pluginType' && context == context'
    ensures CompleteInputs(s.store.tasks, s.store.tasks[id].parentTaskIds, context.inputs)
  {
    hide JointOk, Q.QueueOk, Consistent, AllLaid, Advances, CompleteInputs;
    LaterContext(s.store, later.store, id, pluginType, context);
    ContextIsComplete(s.definitions, s.layouts, s.store, id, pluginType, context);
    ContextIsComplete(later.definitions, later.layouts, later.store, id, pluginType, context);
    ContextIsComplete(later.definitions, later.layouts, later.store, id, pluginType', context');
    SameInputs(later.store.tasks, later.store.tasks[id].parentTaskIds, context.inputs, context'.inputs);
  }

  /******* Schedule independence *******/

  /** In this step the plugins answer as `plugins` does, whenever they succeed. */
  ghost predicate Deterministic(plugins: Plugins, s: System, step: Step) {
    step.Execute? && Busy(s, step.worker) && s.workers[step.worker].phase.Executing? && step.result.succeeded ==>
      step.result.output == plugins(s.workers[step.worker].phase.pluginType, s.workers[step.worker].phase.context)
  }

  ghost predicate DeterministicRun(plugins: Plugins, s: System, steps: seq<Step>)
    decreases steps
  {
    steps == [] || (Deterministic(plugins, s, steps[0]) && DeterministicRun(plugins, Apply(s, steps[0]), steps[1..]))
  }

  ghost predicate WorkersAnswer(plugins: Plugins, workers: map<Uuid, Worker>) {
    forall w | w in workers && workers[w].phase.Executed? && workers[w].phase.result.succeeded ::
      workers[w].phase.result.output == plugins(workers[w].phase.pluginType, workers[w].phase.context)
  }

  /** A row's output is what its definition evaluates to. */
  ghost predicate RowEvaluates(plugins: Plugins, definitions: Definitions, st: Store, id: Uuid)
    requires id in st.tasks
  {
    var tasks := DefinitionOf(definitions, st, st.tasks[id].workflowExecutionId);
    && WellFormed(tasks)
    && var blueprint := BlueprintOf(tasks);
       && Evaluable(blueprint) && st.tasks[id].key in blueprint
       && st.tasks[id].output == Some(Eval(plugins, blueprint, st.tasks[id].key))
  }

  ghost predicate OutputsEvaluate(plugins: Plugins, definitions: Definitions, st: Store) {
    forall id | id in st.tasks && st.tasks[id].status == COMPLETED :: RowEvaluates(plugins, definitions, st, id)
  }

  /** Once every parent holds its value, the inputs are the values of the dependencies. */
  lemma InputsAreValues(
    plugins: Plugins, definitions: Definitions, layouts: Layouts, st: Store, id: Uuid,
    pluginType: string, context: TaskContext)
    requires StoreOk(definitions, layouts, st) && OutputsEvaluate(plugins, definitions, st)
    requires Ready(st.tasks, id) && RightContext(st.tasks, id, pluginType, context)
    ensures var tasks := DefinitionOf(definitions, st, st.tasks[id].workflowExecutionId);
            && WellFormed(tasks)
            && var blueprint, key := BlueprintOf(tasks), st.tasks[id].key;
               && Evaluable(blueprint) && key in blueprint
               && plugins(pluginType, context) == Eval(plugins, blueprint, key)
  {
    var parents := st.tasks[id].parentTaskIds;
    ReadyParentsCompleted(st, id);
    assert Linked(st.tasks, id);
    ContextIsComplete(definitions, layouts, st, id, pluginType, context);
    var i := ParentsAreKeyed(definitions, layouts, st, id);
    var tasks := DefinitionOf(definitions, st, st.tasks[id].workflowExecutionId);
    hide StoreOk, WellFormed;
    DefinitionIsEvaluable(tasks);
    forall p | p in parents
      ensures p in st.tasks && RowEvaluates(plugins, definitions, st, p)
      ensures DefinitionOf(definitions, st, st.tasks[p].workflowExecutionId) == tasks
    {
    }
    hide OutputsEvaluate;
    ValuesOfParents(plugins, definitions, st, tasks, i, parents, context.inputs);
    EvalUnfolds(plugins, BlueprintOf(tasks), tasks[i].key);
  }

  lemma ValuesOfParents(
    plugins: Plugins, definitions: Definitions, st: Store, tasks: seq<TaskDefinition>, i: nat,
    parents: seq<Uuid>, inputs: map<string, TaskOutput>)
    requires WellFormed(tasks) && Evaluable(BlueprintOf(tasks)) && KeyedParents(tasks, i, st.tasks, parents)
    requires CompleteInputs(st.tasks, parents, inputs)
    requires forall p | p in parents ::
        && p in st.tasks && RowEvaluates(plugins, definitions, st, p)
        && DefinitionOf(definitions, st, st.tasks[p].workflowExecutionId) == tasks
    ensures tasks[i].key in BlueprintOf(tasks) && inputs == ParentValues(plugins, BlueprintOf(tasks), tasks[i].key)
  {
    var blueprint := BlueprintOf(tasks);
    ParentKeys(tasks, i, st.tasks, parents);
    forall p | p in parents
      ensures p in st.tasks && st.tasks[p].key in blueprint
      ensures st.tasks[p].output == Some(Eval(plugins, blueprint, st.tasks[p].key))
    {
      assert RowEvaluates(plugins, definitions, st, p);
    }
    hide WellFormed, BlueprintOf, KeyedParents, RowEvaluates, Eval, Evaluable;
    InputsMatch(plugins, blueprint, tasks[i].key, st.tasks, parents, inputs);
  }

  lemma InputsMatch(
    plugins: Plugins, blueprint: Blueprint, key: string, rows: map<Uuid, TaskExecution>, parents: seq<Uuid>,
    inputs: map<string, TaskOutput>)
    requires Evaluable(blueprint) && key in blueprint && CompleteInputs(rows, parents, inputs)
    requires forall k :: k in blueprint[key].parents <==> exists p | p in parents :: p in rows && rows[p].key == k
    requires forall p | p in parents ::
        p in rows && rows[p].key in blueprint && rows[p].output == Some(Eval(plugins, blueprint, rows[p].key))
    ensures inputs == ParentValues(plugins, blueprint, key)
  {
    var values := ParentValues(plugins, blueprint, key);
    hide Evaluable, Eval, ParentValues;
    forall k | k in inputs
      ensures k in values && inputs[k] == values[k]
    {
      var p :| p in parents && p in rows && rows[p].key == k;
    }
    forall k | k in values
      ensures k in inputs
    {
      var p :| p in parents && p in rows && rows[p].key == k;
    }
  }

  /** The keys of a row's parents are the parents in its recipe. */
  lemma ParentKeys(tasks: seq<TaskDefinition>, i: nat, rows: map<Uuid, TaskExecution>, parents: seq<Uuid>)
    requires UniqueKeys(tasks) && KeyedParents(tasks, i, rows, parents)
    ensures tasks[i].key in BlueprintOf(tasks)
    ensures forall key :: key in BlueprintOf(tasks)[tasks[i].key].parents <==>
              exists p | p in parents :: p in rows && rows[p].key == key
  {
    var recipe := RecipeOf(tasks, i);
    assert BlueprintOf(tasks)[tasks[i].key] == recipe;
    hide BlueprintOf;
    var deps := tasks[i].dependencies;
    forall key
      ensures key in recipe.parents <==> exists p | p in parents :: p in rows && rows[p].key == key
    {
      if key in recipe.parents {
        var d :| d in deps && KeyOf(tasks, d) == key;
        var j :| 0 <= j < |deps| && deps[j] == d;
        assert parents[j] in parents;
      }
      if p :| p in parents && p in rows && rows[p].key == key {
        var j :| 0 <= j < |parents| && parents[j] == p;
        assert deps[j] in deps;
      }
    }
  }

  /** The row's definition gives its key the value `output`. */
  ghost predicate Yields(plugins: Plugins, definitions: Definitions, st: Store, id: Uuid, output: TaskOutput)
    requires id in st.tasks
  {
    var tasks := DefinitionOf(definitions, st, st.tasks[id].workflowExecutionId);
    && WellFormed(tasks)
    && var blueprint := BlueprintOf(tasks);
       && Evaluable(blueprint) && st.tasks[id].key in blueprint
       && output == Eval(plugins, blueprint, st.tasks[id].key)
  }

  /** What a row's definition says about it never changes. */
  lemma YieldStays(
    plugins: Plugins, definitions: Definitions, more: Definitions, st: Store, after: Store, id: Uuid, output: TaskOutput)
    requires forall d | d in definitions :: d in more && more[d] == definitions[d]
    requires Advances(st, after) && id in st.tasks && Yields(plugins, definitions, st, id, output)
    ensures id in after.tasks && Yields(plugins, more, after, id, output)
  {
    var w := st.tasks[id].workflowExecutionId;
    assert RowAdvances(st.tasks[id], after.tasks[id]);
    assert Fixed(after.tasks[id]).key == Fixed(st.tasks[id]).key;
    assert Fixed(after.tasks[id]).workflowExecutionId == Fixed(st.tasks[id]).workflowExecutionId;
    assert DefinitionOf(definitions, st, w) != [];
    assert w in st.workflows && WorkflowAdvances(st.workflows[w], after.workflows[w]);
    hide WellFormed, BlueprintOf, Evaluable, Eval;
  }

  /** The only way a row becomes completed is that a worker commits a successful result for it. */
  lemma CompletedByCommit(lease: Time, s: System, step: Step, id: Uuid)
    requires Inv(s) && Enabled(lease, s, step)
    requires id in Apply(s, step).store.tasks && Apply(s, step).store.tasks[id].status == COMPLETED
    requires id in s.store.tasks ==> s.store.tasks[id].status != COMPLETED
    ensures Committing(s, step) && TaskOf(s, step) == id && ResultOf(s, step).succeeded && Running(s.store, id)
    ensures Apply(s, step).store.tasks[id].output == Some(ResultOf(s, step).output)
  {
    hide Inv, Enabled, Apply, Consistent, CommitResult;
    StoreIsConsistent(s);
    if Committing(s, step) {
      CommitStores(s, step);
      CommitCompletes(s.store, TaskOf(s, step), ResultOf(s, step), s.queue.clock, id);
    } else {
      OthersCompleteNothing(lease, s, step, id);
    }
  }

  lemma OthersCompleteNothing(lease: Time, s: System, step: Step, id: Uuid)
    requires Inv(s) && Enabled(lease, s, step) && !Committing(s, step)
    requires id in Apply(s, step).store.tasks && Apply(s, step).store.tasks[id].status == COMPLETED
    ensures id in s.store.tasks && s.store.tasks[id].status == COMPLETED
  {
    if step.Start? {
      if id in Rows(step.executions) {
        hide Apply;
        NewRowsPending(lease, s, step, id);
      }
      hide Inv, Enabled, Rows, Roots;
    } else {
      hide Inv;
    }
  }

  lemma CommitCompletes(st: Store, task: Uuid, result: TaskResult, now: Time, id: Uuid)
    requires Consistent(st)
    requires var after := CommitResult(st, task, result, now).0.tasks; id in after && after[id].status == COMPLETED
    requires id in st.tasks ==> st.tasks[id].status != COMPLETED
    ensures task == id && result.succeeded && Running(st, id)
    ensures CommitResult(st, task, result, now).0.tasks[id].output == Some(result.output)
  {
    hide CompleteTask, RetryTask, Consistent;
    if result.succeeded {
      CompletionCompletes(st, task, result.output, now, id);
    } else {
      RetryCompletesNothing(st, task, result.message, now, id);
    }
  }

  lemma CompletionCompletes(st: Store, task: Uuid, output: TaskOutput, now: Time, id: Uuid)
    requires Consistent(st)
    requires var after := CompleteTask(st, task, output, now).0.tasks; id in after && after[id].status == COMPLETED
    requires id in st.tasks ==> st.tasks[id].status != COMPLETED
    ensures task == id && Running(st, id)
    ensures CompleteTask(st, task, output, now).0.tasks[id].output == Some(output)
  {
    if Running(st, task) {
      CompletionIsExact(st, task, output, now);
      hide CompleteTask, Consistent;
    }
  }

  lemma RetryCompletesNothing(st: Store, task: Uuid, message: Option<string>, now: Time, id: Uuid)
    requires var after := RetryTask(st, task, message, now).0.tasks; id in after && after[id].status == COMPLETED
    ensures id in st.tasks && st.tasks[id].status == COMPLETED
  {
  }

  lemma NewRowsPending(lease: Time, s: System, step: Step, id: Uuid)
    requires Inv(s) && Enabled(lease, s, step) && step.Start? && id in Rows(step.executions)
    ensures Rows(step.executions)[id].status == PENDING
  {
    var tasks := s.definitions[step.definitionId].taskDefinitions;
    assert UniqueIds(tasks);
    hide Inv, WellFormed;
    CompiledRows(tasks, step.ids, step.workflow, step.executions);
    var i :| 0 <= i < |tasks| && ExecutionId(step.ids, tasks[i].id) == id;
  }

  /** What a worker is about to commit is the value of its task. */
  lemma CommittedValue(plugins: Plugins, s: System, step: Step)
    requires Inv(s) && OutputsEvaluate(plugins, s.definitions, s.store) && WorkersAnswer(plugins, s.workers)
    requires Committing(s, step) && ResultOf(s, step).succeeded
    ensures TaskOf(s, step) in s.store.tasks
    ensures Yields(plugins, s.definitions, s.store, TaskOf(s, step), ResultOf(s, step).output)
  {
    var worker := s.workers[step.worker];
    ClaimedReady(s, step.worker);
    hide StoreOk, OutputsEvaluate, RightContext, Evaluable, Eval, BlueprintOf, WellFormed, Ready;
    InputsAreValues(plugins, s.definitions, s.layouts, s.store, worker.claim.taskExecutionId,
                    worker.phase.pluginType, worker.phase.context);
  }

  lemma RowStaysEvaluated(plugins: Plugins, lease: Time, s: System, step: Step, id: Uuid)
    requires Inv(s) && Enabled(lease, s, step)
    requires OutputsEvaluate(plugins, s.definitions, s.store) && WorkersAnswer(plugins, s.workers)
    requires id in Apply(s, step).store.tasks && Apply(s, step).store.tasks[id].status == COMPLETED
    ensures RowEvaluates(plugins, Apply(s, step).definitions, Apply(s, step).store, id)
  {
    var after := Apply(s, step);
    StoreStep(lease, s, step);
    DefinitionsGrow(lease, s, step);
    var output: TaskOutput;
    if id in s.store.tasks && s.store.tasks[id].status == COMPLETED {
      assert RowEvaluates(plugins, s.definitions, s.store, id);
      output := s.store.tasks[id].output.value;
      CompletedStays(s.store, after.store, id);
    } else {
      hide OutputsEvaluate, WorkersAnswer, Inv, Enabled, Apply, StoreOk, Advances, RowEvaluates, Yields;
      CompletedByCommit(lease, s, step, id);
      CommittedValue(plugins, s, step);
      output := ResultOf(s, step).output;
    }
    hide OutputsEvaluate, WorkersAnswer, Inv, Enabled, Apply, StoreOk, Advances;
    YieldStays(plugins, s.definitions, after.definitions, s.store, after.store, id, output);
  }

  lemma CompletedStays(st: Store, after: Store, id: Uuid)
    requires Advances(st, after) && id in st.tasks && st.tasks[id].status == COMPLETED
    ensures id in after.tasks && after.tasks[id] == st.tasks[id]
  {
    assert RowAdvances(st.tasks[id], after.tasks[id]);
  }

  lemma WorkersStillAnswer(plugins: Plugins, s: System, step: Step)
    requires WorkersAnswer(plugins, s.workers) && Deterministic(plugins, s, step)
    ensures WorkersAnswer(plugins, WorkersAfter(s, step))
  {
    hide CommitResult, Q.Holds;
  }

  lemma {:induction false} RunEvaluates(plugins: Plugins, lease: Time, s: System, steps: seq<Step>)
    requires Inv(s) && Run(lease, s, steps) && DeterministicRun(plugins, s, steps)
    requires OutputsEvaluate(plugins, s.definitions, s.store) && WorkersAnswer(plugins, s.workers)
    ensures var later := After(s, steps); OutputsEvaluate(plugins, later.definitions, later.store)
    decreases steps
  {
    if steps != [] {
      var next := Apply(s, steps[0]);
      WorkersStillAnswer(plugins, s, steps[0]);
      hide Inv, Enabled, WorkersAnswer, Deterministic, RowEvaluates, StoreAfter, QueueSteps, WorkersAfter, PublishersAfter;
      StepKeepsInv(lease, s, steps[0]);
      forall id | id in next.store.tasks && next.store.tasks[id].status == COMPLETED
        ensures RowEvaluates(plugins, next.definitions, next.store, id)
      {
        RowStaysEvaluated(plugins, lease, s, steps[0], id);
      }
      RunEvaluates(plugins, lease, next, steps[1..]);
    }
  }

  /** Under any interleaving, retries, crashes and duplicate executions, the output of every completed task is
    * the value of its key in its definition. */
  lemma ScheduleIndependence(plugins: Plugins, lease: Time, now: Time, steps: seq<Step>, id: Uuid)
    requires Run(lease, Initial(now), steps) && DeterministicRun(plugins, Initial(now), steps)
    requires var s := After(Initial(now), steps); id in s.store.tasks && s.store.tasks[id].status == COMPLETED
    ensures var s := After(Initial(now), steps); RowEvaluates(plugins, s.definitions, s.store, id)
  {
    hide Run, DeterministicRun, After, RowEvaluates;
    InitialInv(now);
    RunEvaluates(plugins, lease, Initial(now), steps);
  }

  /** A completed workflow has computed the value of every task of its definition. */
  lemma CompletedWorkflowComputes(plugins: Plugins, lease: Time, now: Time, steps: seq<Step>, w: Uuid, i: nat)
    requires Run(lease, Initial(now), steps) && DeterministicRun(plugins, Initial(now), steps)
    requires var s := After(Initial(now), steps);
             && w in s.store.workflows && s.store.workflows[w].status == WorkflowCompleted
             && i < |DefinitionOf(s.definitions, s.store, w)|
    ensures var s := After(Initial(now), steps);
            var tasks := DefinitionOf(s.definitions, s.store, w);
            && WellFormed(tasks) && Evaluable(BlueprintOf(tasks))
            && exists id :: Member(s.store.tasks, w, id) && s.store.tasks[id].key == tasks[i].key
                         && s.store.tasks[id].output == Some(Eval(plugins, BlueprintOf(tasks), tasks[i].key))
  {
    var s := After(Initial(now), steps);
    hide Run, DeterministicRun, After;
    InitialInv(now);
    RunKeepsInv(lease, Initial(now), steps);
    var id := RowOfTask(s, w, i);
    ScheduleIndependence(plugins, lease, now, steps, id);
  }

  lemma RowOfTask(s: System, w: Uuid, i: nat) returns (id: Uuid)
    requires Inv(s) && w in s.store.workflows && s.store.workflows[w].status == WorkflowCompleted
    requires i < |DefinitionOf(s.definitions, s.store, w)|
    ensures Member(s.store.tasks, w, id) && s.store.tasks[id].status == COMPLETED
    ensures s.store.tasks[id].key == DefinitionOf(s.definitions, s.store, w)[i].key
  {
    assert Laid(s.definitions, s.layouts, s.store, w) && Agrees(s.store, w);
    var tasks := DefinitionOf(s.definitions, s.store, w);
    assert LaidRow(tasks, s.layouts[w], s.store.tasks, w, i);
    id := ExecutionId(s.layouts[w], tasks[i].id);
    hide Inv, WellFormed;
    assert Fixed(s.store.tasks[id]).key == tasks[i].key;
    assert Fixed(s.store.tasks[id]).workflowExecutionId == w;
  }

  /** The definitions differ at most in the ids drawn for them. */
  ghost predicate SameBlueprint(a: seq<TaskDefinition>, b: seq<TaskDefinition>) {
    UniqueKeys(a) && UniqueKeys(b) && BlueprintOf(a) == BlueprintOf(b)
  }

  ghost function TasksOf(s: System, id: Uuid): seq<TaskDefinition>
    requires id in s.store.tasks
  {
    DefinitionOf(s.definitions, s.store, s.store.tasks[id].workflowExecutionId)
  }

  /** Two runs, of one platform or of two, agree on every task of the same name that both have completed. */
  lemma RunsAgree(
    plugins: Plugins, lease: Time, now: Time, steps: seq<Step>, id: Uuid,
    lease': Time, now': Time, steps': seq<Step>, id': Uuid)
    requires Run(lease, Initial(now), steps) && DeterministicRun(plugins, Initial(now), steps)
    requires Run(lease', Initial(now'), steps') && DeterministicRun(plugins, Initial(now'), steps')
    requires var s := After(Initial(now), steps); id in s.store.tasks && s.store.tasks[id].status == COMPLETED
    requires var s := After(Initial(now'), steps'); id' in s.store.tasks && s.store.tasks[id'].status == COMPLETED
    requires SameBlueprint(TasksOf(After(Initial(now), steps), id), TasksOf(After(Initial(now'), steps'), id'))
    requires After(Initial(now), steps).store.tasks[id].key == After(Initial(now'), steps').store.tasks[id'].key
    ensures After(Initial(now), steps).store.tasks[id].output == After(Initial(now'), steps').store.tasks[id'].output
  {
    hide Run, DeterministicRun, After;
    ScheduleIndependence(plugins, lease, now, steps, id);
    ScheduleIndependence(plugins, lease', now', steps', id');
    hide DefinitionOf, Eval, BlueprintOf, Evaluable, WellFormed;
  }
}
