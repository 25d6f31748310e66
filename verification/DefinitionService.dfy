/** Validation of workflow definition requests and resolution of their keys to identifiers. */
module DefinitionService {
  import opened Domain
  import opened Graphs

  /** The registered task plugins, each with its configuration check. */
  datatype TaskRegistry = TaskRegistry(validators: map<string, Configuration -> bool>)

  datatype DefinitionError =
    | NoTasks
    | DuplicateKeys
    | NoTries(key: string)
    | UnknownPlugin(key: string, pluginType: string)
    | InvalidConfiguration(key: string)
    | SelfDependency(key: string)
    | DuplicateDependencies(key: string)
    | UnknownDependency(key: string, dependency: string)
    | DependencyCycle

  /******* What a valid request is *******/

  ghost predicate UniqueKeys(tasks: seq<CreateTaskDefinition>) {
    forall i, j | 0 <= i < j < |tasks| :: tasks[i].key != tasks[j].key
  }

  ghost function Keys(tasks: seq<CreateTaskDefinition>): set<string> {
    set task | task in tasks :: task.key
  }

  /** The dependencies every task asks for. */
  ghost function DependencyGraph(tasks: seq<CreateTaskDefinition>): Graph<string>
    requires UniqueKeys(tasks)
  {
    map task | task in tasks :: task.key := Elements(task.dependencies)
  }

  ghost predicate ResolvableDependencies(tasks: seq<CreateTaskDefinition>) {
    forall task | task in tasks :: NoDuplicates(task.dependencies) && Elements(task.dependencies) <= Keys(tasks)
  }

  ghost predicate ValidTask(registry: TaskRegistry, keys: set<string>, task: CreateTaskDefinition) {
    && task.maxTries >= 1
    && task.pluginType in registry.validators
    && registry.validators[task.pluginType](task.configuration)
    && task.key !in task.dependencies
    && NoDuplicates(task.dependencies)
    && Elements(task.dependencies) <= keys
  }

  ghost predicate ValidRequest(registry: TaskRegistry, tasks: seq<CreateTaskDefinition>) {
    && tasks != []
    && UniqueKeys(tasks)
    && (forall task | task in tasks :: ValidTask(registry, Keys(tasks), task))
    && !HasCycle(DependencyGraph(tasks))
  }

  /** What each error says about the task it names. */
  ghost predicate Blames(registry: TaskRegistry, keys: set<string>, task: CreateTaskDefinition, error: DefinitionError) {
    match error
    case NoTries(key) => key == task.key && task.maxTries < 1
    case UnknownPlugin(key, pluginType) =>
      key == task.key && pluginType == task.pluginType && pluginType !in registry.validators
    case InvalidConfiguration(key) =>
      && key == task.key
      && task.pluginType in registry.validators
      && !registry.validators[task.pluginType](task.configuration)
    case SelfDependency(key) => key == task.key && key in task.dependencies
    case DuplicateDependencies(key) => key == task.key && !NoDuplicates(task.dependencies)
    case UnknownDependency(key, dependency) =>
      key == task.key && dependency in task.dependencies && dependency !in keys
    case _ => false
  }

  /** An error is accurate when it describes the request, and a task error names the first task at fault. */
  ghost predicate Accurate(registry: TaskRegistry, tasks: seq<CreateTaskDefinition>, error: DefinitionError) {
    match error
    case NoTasks => tasks == []
    case DuplicateKeys => tasks != [] && !UniqueKeys(tasks)
    case DependencyCycle =>
      && UniqueKeys(tasks)
      && (forall task | task in tasks :: ValidTask(registry, Keys(tasks), task))
      && HasCycle(DependencyGraph(tasks))
    case _ =>
      && UniqueKeys(tasks)
      && exists i | 0 <= i < |tasks| ::
           && Blames(registry, Keys(tasks), tasks[i], error)
           && forall j | 0 <= j < i :: ValidTask(registry, Keys(tasks), tasks[j])
  }

  lemma KeysOfList(tasks: seq<CreateTaskDefinition>, keys: seq<string>)
    requires |keys| == |tasks| && forall i | 0 <= i < |tasks| :: keys[i] == tasks[i].key
    ensures Elements(keys) == Keys(tasks)
    ensures |Keys(tasks)| == |tasks| <==> UniqueKeys(tasks)
  {
    forall key | key in Elements(keys)
      ensures key in Keys(tasks)
    {
      var i :| 0 <= i < |keys| && keys[i] == key;
      assert tasks[i] in tasks;
    }
    forall key | key in Keys(tasks)
      ensures key in Elements(keys)
    {
      var i :| 0 <= i < |tasks| && tasks[i].key == key;
      assert keys[i] in keys;
    }
    DistinctSize(keys);
    if NoDuplicates(keys) {
      forall i, j | 0 <= i < j < |tasks|
        ensures tasks[i].key != tasks[j].key
      {
        assert keys[i] != keys[j];
      }
    }
  }

  /******* _validate_tasks *******/

  method ValidateTask(registry: TaskRegistry, seenKeys: set<string>, task: CreateTaskDefinition)
    returns (r: Result<(), DefinitionError>)
    ensures r.Success? <==> ValidTask(registry, seenKeys, task)
    ensures r.Failure? ==> Blames(registry, seenKeys, task, r.error)
  {
    if task.maxTries < 1 {
      return Failure(NoTries(task.key));
    }
    if task.pluginType !in registry.validators {
      return Failure(UnknownPlugin(task.key, task.pluginType));
    }
    if !registry.validators[task.pluginType](task.configuration) {
      return Failure(InvalidConfiguration(task.key));
    }
    if task.key in task.dependencies {
      return Failure(SelfDependency(task.key));
    }
    DistinctSize(task.dependencies);
    if |task.dependencies| != |set dependency | dependency in task.dependencies| {
      return Failure(DuplicateDependencies(task.key));
    }
    for i := 0 to |task.dependencies|
      invariant forall j | 0 <= j < i :: task.dependencies[j] in seenKeys
    {
      if task.dependencies[i] !in seenKeys {
        return Failure(UnknownDependency(task.key, task.dependencies[i]));
      }
    }
    return Success(());
  }

  method ValidateTasks(registry: TaskRegistry, tasks: seq<CreateTaskDefinition>)
    returns (r: Result<(), DefinitionError>)
    ensures r.Success? <==> ValidRequest(registry, tasks)
    ensures r.Failure? ==> Accurate(registry, tasks, r.error)
  {
    if tasks == [] {
      return Failure(NoTasks);
    }
    var seenKeys := set task | task in tasks :: task.key;
    KeysOfList(tasks, seq(|tasks|, i requires 0 <= i < |tasks| => tasks[i].key));
    if |seenKeys| != |tasks| {
      return Failure(DuplicateKeys);
    }
    for i := 0 to |tasks|
      invariant forall j | 0 <= j < i :: ValidTask(registry, seenKeys, tasks[j])
    {
      r := ValidateTask(registry, seenKeys, tasks[i]);
      if r.Failure? {
        return;
      }
    }
    var cyclic := HasDependencyCycle(tasks);
    if cyclic {
      return Failure(DependencyCycle);
    }
    return Success(());
  }

  /******* _has_dependency_cycle *******/

  ghost function Nodes(tasks: seq<CreateTaskDefinition>): seq<Node<string, string>> {
    seq(|tasks|, i requires 0 <= i < |tasks| => Node(tasks[i].key, tasks[i].dependencies))
  }

  /** The inner loop: task `i` joins the list of everything it depends on. */
  method JoinParents(
    task: CreateTaskDefinition, children: map<string, seq<string>>, ghost nodes: seq<Node<string, string>>, ghost i: nat)
    returns (children': map<string, seq<string>>)
    requires i < |nodes| && nodes[i] == Node(task.key, task.dependencies)
    requires forall dependency | dependency in task.dependencies :: dependency in children
    requires forall key | key in children :: children[key] == Dependents(nodes[..i], key)
    ensures children'.Keys == children.Keys
    ensures forall key | key in children' :: children'[key] == Dependents(nodes[..i + 1], key)
  {
    children' := children;
    forall key | key in children {
      NextNode(nodes, i, key);
    }
    for j := 0 to |task.dependencies|
      invariant children'.Keys == children.Keys
      invariant forall key | key in children' :: children'[key] == DependentsUpTo(nodes, i, j, key)
    {
      var dependency := task.dependencies[j];
      forall key | key in children {
        NextMention(nodes, i, j, key);
      }
      children' := children'[dependency := children'[dependency] + [task.key]];
    }
  }

  method ChildrenByKey(tasks: seq<CreateTaskDefinition>) returns (children: map<string, seq<string>>)
    requires ResolvableDependencies(tasks)
    ensures children.Keys == Keys(tasks)
    ensures forall key | key in children :: children[key] == Dependents(Nodes(tasks), key)
  {
    children := NoChildren(tasks);
    ghost var nodes := Nodes(tasks);
    for i := 0 to |tasks|
      invariant children.Keys == Keys(tasks)
      invariant forall key | key in children :: children[key] == Dependents(nodes[..i], key)
    {
      assert tasks[i] in tasks;
      forall dependency | dependency in tasks[i].dependencies
        ensures dependency in children
      {
        assert dependency in Elements(tasks[i].dependencies);
      }
      children := JoinParents(tasks[i], children, nodes, i);
    }
    assert nodes[..|tasks|] == nodes;
  }

  function NoChildren(tasks: seq<CreateTaskDefinition>): (children: map<string, seq<string>>)
    ensures children.Keys == Keys(tasks)
    ensures forall key | key in children :: children[key] == []
  {
    map task | task in tasks :: task.key := []
  }

  /** The dependency lists by key. */
  ghost function DependencyLists(tasks: seq<CreateTaskDefinition>): map<string, seq<string>>
    requires UniqueKeys(tasks)
  {
    map task | task in tasks :: task.key := task.dependencies
  }

  ghost predicate WellFormedLists(lists: map<string, seq<string>>) {
    && (forall k | k in lists :: NoDuplicates(lists[k]))
    && (forall k, d | k in lists && d in lists[k] :: d in lists)
  }

  /** The state of the search between two pops: the keys in `done` have been processed. */
  ghost predicate SearchState(
    lists: map<string, seq<string>>, done: set<string>, remaining: map<string, int>, ready: seq<string>)
  {
    && remaining.Keys == lists.Keys
    && (forall k | k in lists :: remaining[k] == CountOutside(lists[k], done))
    && NoDuplicates(ready)
    && (forall k :: k in ready <==> k in lists && k !in done && CountOutside(lists[k], done) == 0)
  }

  /** The state while the children of `key` are being served; those in `served` have been. */
  ghost predicate ServingState(
    lists: map<string, seq<string>>, done: set<string>, key: string, served: seq<string>,
    remaining: map<string, int>, ready: seq<string>)
  {
    && remaining.Keys == lists.Keys
    && (forall k | k in lists :: remaining[k] == CountOutside(lists[k], done) - if k in served then 1 else 0)
    && NoDuplicates(ready)
    && (forall k :: k in ready <==> k in lists && k !in done && k != key && remaining[k] == 0)
  }

  lemma ListsAreWellFormed(tasks: seq<CreateTaskDefinition>)
    requires UniqueKeys(tasks) && ResolvableDependencies(tasks)
    ensures WellFormedLists(DependencyLists(tasks))
  {
    var lists := DependencyLists(tasks);
    forall k, d | k in lists && d in lists[k]
      ensures d in lists
    {
      var task :| task in tasks && task.key == k;
      assert d in Elements(task.dependencies);
    }
  }

  /** Every key in `done` has its dependencies in `done`, and none of them waits for itself. */
  ghost predicate Settled(g: Graph<string>, done: set<string>) {
    exists rank :: PartialRanking(g, rank) && rank.Keys == done
  }

  lemma SettleNext(g: Graph<string>, done: set<string>, key: string)
    requires Settled(g, done) && key in g && key !in done && g[key] <= done
    ensures Settled(g, done + {key})
  {
    var rank: map<string, nat> :| PartialRanking(g, rank) && rank.Keys == done;
    WidenRanking(g, rank, key);
    assert rank[key := |rank.Keys|].Keys == done + {key};
  }

  lemma PopReady(
    lists: map<string, seq<string>>, done: set<string>, remaining: map<string, int>, ready: seq<string>)
    requires SearchState(lists, done, remaining, ready) && ready != []
    ensures var key := ready[|ready| - 1];
            && key in lists && key !in done && CountOutside(lists[key], done) == 0
            && ServingState(lists, done, key, [], remaining, ready[..|ready| - 1])
  {
    var popped, key := ready[..|ready| - 1], ready[|ready| - 1];
    assert ready == popped + [key];
    assert key in ready;
    assert key !in popped;
    assert forall i, j | 0 <= i < j < |popped| :: ready[i] == popped[i] && ready[j] == popped[j];
  }

  lemma SettleKey(tasks: seq<CreateTaskDefinition>, done: set<string>, key: string)
    requires UniqueKeys(tasks) && ResolvableDependencies(tasks)
    requires Settled(DependencyGraph(tasks), done)
    requires key in DependencyLists(tasks) && key !in done && CountOutside(DependencyLists(tasks)[key], done) == 0
    ensures Settled(DependencyGraph(tasks), done + {key})
  {
    GraphOfLists(tasks);
    CountZero(DependencyLists(tasks)[key], done);
    SettleNext(DependencyGraph(tasks), done, key);
  }

  /** Once all its children are served, `key` counts as done. */
  lemma ServedAll(
    lists: map<string, seq<string>>, done: set<string>, key: string, kids: seq<string>,
    remaining: map<string, int>, ready: seq<string>)
    requires WellFormedLists(lists) && key in lists && key !in done
    requires forall k :: k in kids <==> k in lists && key in lists[k]
    requires ServingState(lists, done, key, kids, remaining, ready)
    ensures SearchState(lists, done + {key}, remaining, ready)
  {
    forall k | k in lists
      ensures remaining[k] == CountOutside(lists[k], done + {key})
    {
      CountGrows(lists[k], done, key);
    }
  }

  /** A child waits for `key` until it is served, so serving it cannot bring it below zero. */
  lemma ChildWaits(
    lists: map<string, seq<string>>, done: set<string>, key: string, served: seq<string>,
    remaining: map<string, int>, ready: seq<string>, child: string)
    requires ServingState(lists, done, key, served, remaining, ready)
    requires child in lists && key in lists[child] && child !in served && key !in done
    ensures remaining[child] >= 1 && child !in ready
  {
    CountZero(lists[child], done);
  }

  lemma ServeChild(
    lists: map<string, seq<string>>, done: set<string>, key: string, served: seq<string>,
    remaining: map<string, int>, ready: seq<string>, child: string)
    requires ServingState(lists, done, key, served, remaining, ready)
    requires child in lists && child !in served && child !in done && child != key
    requires remaining[child] >= 1 && child !in ready
    ensures var fewer := remaining[child := remaining[child] - 1];
            ServingState(lists, done, key, served + [child], fewer,
                         if fewer[child] == 0 then ready + [child] else ready)
  {
  }

  /** The start of the search: nothing is done, and the tasks without dependencies are ready. */
  method ReadyKeys(tasks: seq<CreateTaskDefinition>, remaining: map<string, int>) returns (ready: seq<string>)
    requires UniqueKeys(tasks) && remaining.Keys == DependencyLists(tasks).Keys
    requires forall task | task in tasks :: remaining[task.key] == |task.dependencies|
    ensures SearchState(DependencyLists(tasks), {}, remaining, ready)
  {
    ready := [];
    for i := 0 to |tasks|
      invariant NoDuplicates(ready)
      invariant forall k :: k in ready <==> exists j | 0 <= j < i :: tasks[j].key == k && remaining[k] == 0
    {
      assert tasks[i] in tasks;
      if remaining[tasks[i].key] == 0 {
        ready := ready + [tasks[i].key];
      }
    }
    ghost var lists := DependencyLists(tasks);
    forall k | k in lists
      ensures remaining[k] == CountOutside(lists[k], {})
    {
      CountDisjoint(lists[k], {});
    }
  }

  /** The inner loop: each child of `key` waits for one dependency fewer. */
  method ServeChildren(
    kids: seq<string>, remaining: map<string, int>, ready: seq<string>,
    ghost lists: map<string, seq<string>>, ghost done: set<string>, ghost key: string)
    returns (remaining': map<string, int>, ready': seq<string>)
    requires WellFormedLists(lists) && key in lists && key !in done && CountOutside(lists[key], done) == 0
    requires NoDuplicates(kids) && forall k :: k in kids <==> k in lists && key in lists[k]
    requires forall k | k in done && k in lists :: CountOutside(lists[k], done) == 0
    requires ServingState(lists, done, key, [], remaining, ready)
    ensures SearchState(lists, done + {key}, remaining', ready')
  {
    remaining', ready' := remaining, ready;
    for i := 0 to |kids|
      invariant ServingState(lists, done, key, kids[..i], remaining', ready')
    {
      var child := kids[i];
      assert child in kids;
      assert kids[..i + 1] == kids[..i] + [child];
      assert child !in kids[..i];
      ChildWaits(lists, done, key, kids[..i], remaining', ready', child);
      assert child !in done && child != key by {
        CountZero(lists[child], done);
        CountZero(lists[key], done);
      }
      ServeChild(lists, done, key, kids[..i], remaining', ready', child);
      remaining' := remaining'[child := remaining'[child] - 1];
      if remaining'[child] == 0 {
        ready' := ready' + [child];
      }
    }
    assert kids[..|kids|] == kids;
    ServedAll(lists, done, key, kids, remaining', ready');
  }

  lemma NothingSettled(g: Graph<string>)
    ensures Settled(g, {})
  {
    var none: map<string, nat> := map[];
    assert PartialRanking(g, none) && none.Keys == {};
  }

  lemma GraphOfLists(tasks: seq<CreateTaskDefinition>)
    requires UniqueKeys(tasks) && ResolvableDependencies(tasks)
    ensures var g, lists := DependencyGraph(tasks), DependencyLists(tasks);
            && g.Keys == lists.Keys == Keys(tasks)
            && SelfContained(g)
            && forall k, d | k in g :: d in g[k] <==> d in lists[k]
  {
    var g, lists := DependencyGraph(tasks), DependencyLists(tasks);
    forall k | k in g
      ensures g[k] == Elements(lists[k])
    {
      var task :| task in tasks && task.key == k;
    }
    ListsAreWellFormed(tasks);
  }

  /** What is done has all its dependencies done. */
  lemma SettledCounts(tasks: seq<CreateTaskDefinition>, done: set<string>)
    requires UniqueKeys(tasks) && ResolvableDependencies(tasks)
    requires Settled(DependencyGraph(tasks), done)
    ensures forall k | k in done :: k in DependencyLists(tasks) && CountOutside(DependencyLists(tasks)[k], done) == 0
  {
    GraphOfLists(tasks);
    var lists := DependencyLists(tasks);
    forall k | k in done
      ensures k in lists && CountOutside(lists[k], done) == 0
    {
      CountZero(lists[k], done);
    }
  }

  /** The children of a key are the tasks that list it. */
  lemma ChildrenAreDependents(tasks: seq<CreateTaskDefinition>, key: string)
    requires UniqueKeys(tasks) && ResolvableDependencies(tasks)
    ensures NoDuplicates(Dependents(Nodes(tasks), key))
    ensures var lists := DependencyLists(tasks);
            forall k :: k in Dependents(Nodes(tasks), key) <==> k in lists && key in lists[k]
  {
    var nodes, lists := Nodes(tasks), DependencyLists(tasks);
    forall node | node in nodes
      ensures NoDuplicates(node.dependencies)
    {
      var i :| 0 <= i < |nodes| && nodes[i] == node;
      assert tasks[i] in tasks;
    }
    DependentsAreExact(nodes, key);
    forall k
      ensures DependsOn(nodes, k, key) <==> k in lists && key in lists[k]
    {
      if DependsOn(nodes, k, key) {
        var node :| node in nodes && node.child == k && key in node.dependencies;
        var i :| 0 <= i < |nodes| && nodes[i] == node;
        assert tasks[i] in tasks;
      }
      if k in lists && key in lists[k] {
        var task :| task in tasks && task.key == k && lists[k] == task.dependencies;
        var i :| 0 <= i < |tasks| && tasks[i] == task;
        assert nodes[i] in nodes;
      }
    }
  }

  /** When nothing is ready any more, the keys left over wait for one another. */
  lemma LeftoverCycle(tasks: seq<CreateTaskDefinition>, done: set<string>, remaining: map<string, int>, left: string)
    requires UniqueKeys(tasks) && ResolvableDependencies(tasks)
    requires SearchState(DependencyLists(tasks), done, remaining, [])
    requires left in Keys(tasks) && left !in done
    ensures HasCycle(DependencyGraph(tasks))
  {
    var g, lists := DependencyGraph(tasks), DependencyLists(tasks);
    GraphOfLists(tasks);
    var rest := g.Keys - done;
    assert left in rest;
    forall k | k in rest
      ensures g[k] * rest != {}
    {
      assert k !in [];
      CountZero(lists[k], done);
      var d :| d in lists[k] && d !in done;
      assert d in g[k] && d in g.Keys;
      assert d in g[k] * rest;
    }
    TrappedHasCycle(g, rest);
  }

  lemma NothingLeft(tasks: seq<CreateTaskDefinition>, done: set<string>)
    requires UniqueKeys(tasks) && ResolvableDependencies(tasks)
    requires Settled(DependencyGraph(tasks), done) && Keys(tasks) <= done
    ensures !HasCycle(DependencyGraph(tasks))
  {
    var g := DependencyGraph(tasks);
    GraphOfLists(tasks);
    var rank: map<string, nat> :| PartialRanking(g, rank) && rank.Keys == done;
    FullRanking(g, rank);
    RankedHasNoCycle(g);
  }

  lemma CountLeft(tasks: seq<CreateTaskDefinition>, done: set<string>)
    requires UniqueKeys(tasks) && done <= Keys(tasks)
    ensures |done| == |tasks| <==> Keys(tasks) <= done
  {
    KeysOfList(tasks, seq(|tasks|, i requires 0 <= i < |tasks| => tasks[i].key));
    SubsetSize(done, Keys(tasks));
    if Keys(tasks) <= done {
      assert Keys(tasks) == done;
    }
  }

  lemma SearchOutcome(tasks: seq<CreateTaskDefinition>, done: set<string>, remaining: map<string, int>)
    requires UniqueKeys(tasks) && ResolvableDependencies(tasks) && done <= Keys(tasks)
    requires SearchState(DependencyLists(tasks), done, remaining, [])
    requires Settled(DependencyGraph(tasks), done)
    ensures HasCycle(DependencyGraph(tasks)) <==> |done| != |tasks|
  {
    CountLeft(tasks, done);
    if Keys(tasks) <= done {
      NothingLeft(tasks, done);
    } else {
      var left :| left in Keys(tasks) && left !in done;
      LeftoverCycle(tasks, done, remaining, left);
    }
  }

  /** What holds between two pops, and what one pop keeps. */
  ghost predicate SearchInvariant(
    tasks: seq<CreateTaskDefinition>, done: set<string>, remaining: map<string, int>, ready: seq<string>)
  {
    && UniqueKeys(tasks) && ResolvableDependencies(tasks)
    && done <= Keys(tasks)
    && Settled(DependencyGraph(tasks), done)
    && SearchState(DependencyLists(tasks), done, remaining, ready)
  }

  /** One pop: the popped key counts as processed and its children wait for one dependency fewer. */
  method ProcessReady(
    tasks: seq<CreateTaskDefinition>, children: map<string, seq<string>>,
    remaining: map<string, int>, ready: seq<string>, ghost done: set<string>)
    returns (remaining': map<string, int>, ready': seq<string>)
    requires SearchInvariant(tasks, done, remaining, ready) && ready != []
    requires children.Keys == Keys(tasks)
    requires forall key | key in children :: children[key] == Dependents(Nodes(tasks), key)
    ensures var key := ready[|ready| - 1];
            && key in Keys(tasks) && key !in done
            && SearchInvariant(tasks, done + {key}, remaining', ready')
  {
    var key := ready[|ready| - 1];
    GraphOfLists(tasks);
    ListsAreWellFormed(tasks);
    PopReady(DependencyLists(tasks), done, remaining, ready);
    SettledCounts(tasks, done);
    ChildrenAreDependents(tasks, key);
    SettleKey(tasks, done, key);
    remaining', ready' := ServeChildren(children[key], remaining, ready[..|ready| - 1], DependencyLists(tasks), done, key);
  }

  lemma OneMore(done: set<string>, key: string)
    ensures |done + {key}| == |done| + if key in done then 0 else 1
  {
    if key in done {
      assert done + {key} == done;
    }
  }

  function DependencyCounts(tasks: seq<CreateTaskDefinition>): (remaining: map<string, int>)
    requires UniqueKeys(tasks)
    ensures remaining.Keys == Keys(tasks)
    ensures forall task | task in tasks :: remaining[task.key] == |task.dependencies|
  {
    map task | task in tasks :: task.key := |task.dependencies|
  }

  /** The counters and the stack before the first pop. */
  method StartSearch(tasks: seq<CreateTaskDefinition>) returns (remaining: map<string, int>, ready: seq<string>)
    requires UniqueKeys(tasks) && ResolvableDependencies(tasks)
    ensures SearchInvariant(tasks, {}, remaining, ready)
  {
    remaining := DependencyCounts(tasks);
    GraphOfLists(tasks);
    ready := ReadyKeys(tasks, remaining);
    NothingSettled(DependencyGraph(tasks));
  }

  /** Kahn's algorithm: true exactly when the dependencies contain a cycle. */
  method HasDependencyCycle(tasks: seq<CreateTaskDefinition>) returns (cyclic: bool)
    requires UniqueKeys(tasks) && ResolvableDependencies(tasks)
    ensures cyclic <==> HasCycle(DependencyGraph(tasks))
  {
    var children := ChildrenByKey(tasks);
    var remaining, ready := StartSearch(tasks);
    ghost var done: set<string> := {};
    var processed := 0;
    while ready != []
      invariant SearchInvariant(tasks, done, remaining, ready)
      invariant processed == |done|
      decreases Keys(tasks) - done
    {
      ghost var key := ready[|ready| - 1];
      OneMore(done, key);
      remaining, ready := ProcessReady(tasks, children, remaining, ready, done);
      processed := processed + 1;
      done := done + {key};
    }
    SearchOutcome(tasks, done, remaining);
    cyclic := processed != |tasks|;
  }

  /******* _create_task_definitions *******/

  /** The stored form of a task, once every key has an identifier. */
  ghost predicate Resolves(ids: map<string, Uuid>, task: CreateTaskDefinition, definition: TaskDefinition) {
    && task.key in ids
    && (forall dependency | dependency in task.dependencies :: dependency in ids)
    && definition.id == ids[task.key]
    && definition.pluginType == task.pluginType
    && definition.key == task.key
    && definition.configuration == task.configuration
    && definition.maxTries == task.maxTries
    && |definition.dependencies| == |task.dependencies|
    && forall i | 0 <= i < |task.dependencies| :: definition.dependencies[i] == ids[task.dependencies[i]]
  }

  ghost predicate Injective(ids: map<string, Uuid>) {
    forall a, b | a in ids && b in ids && ids[a] == ids[b] :: a == b
  }

  method CreateTaskDefinitions(tasks: seq<CreateTaskDefinition>, uuids: UuidSource)
    returns (definitions: seq<TaskDefinition>, ids: map<string, Uuid>)
    requires UniqueKeys(tasks) && ResolvableDependencies(tasks) && uuids.Valid()
    modifies uuids
    ensures uuids.Valid() && old(uuids.issued) <= uuids.issued
    ensures ids.Keys == Keys(tasks) && Injective(ids)
    ensures forall key | key in ids :: ids[key] !in old(uuids.issued) && ids[key] in uuids.issued
    ensures |definitions| == |tasks|
    ensures forall i | 0 <= i < |tasks| :: Resolves(ids, tasks[i], definitions[i])
  {
    ids := map[];
    for i := 0 to |tasks|
      invariant uuids.Valid() && old(uuids.issued) <= uuids.issued
      invariant ids.Keys == Keys(tasks[..i]) && Injective(ids)
      invariant forall key | key in ids :: ids[key] !in old(uuids.issued) && ids[key] in uuids.issued
    {
      var id := uuids.Uuid4();
      KeysOfPrefix(tasks, i);
      ids := ids[tasks[i].key := id];
    }
    assert tasks[..|tasks|] == tasks;
    definitions := [];
    for i := 0 to |tasks|
      invariant |definitions| == i
      invariant forall j | 0 <= j < i :: Resolves(ids, tasks[j], definitions[j])
    {
      var task := tasks[i];
      assert task in tasks;
      forall dependency | dependency in task.dependencies
        ensures dependency in ids
      {
        assert dependency in Elements(task.dependencies);
      }
      definitions := definitions + [TaskDefinition(
        ids[task.key], task.pluginType, task.key, task.configuration,
        seq(|task.dependencies|, j requires 0 <= j < |task.dependencies| => ids[task.dependencies[j]]),
        task.maxTries)];
    }
  }

  lemma KeysOfPrefix(tasks: seq<CreateTaskDefinition>, i: nat)
    requires i < |tasks|
    ensures Keys(tasks[..i + 1]) == Keys(tasks[..i]) + {tasks[i].key}
    ensures UniqueKeys(tasks) ==> tasks[i].key !in Keys(tasks[..i])
  {
    assert tasks[..i + 1] == tasks[..i] + [tasks[i]];
  }
}
