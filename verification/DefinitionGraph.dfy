/** What makes a stored definition well formed, and why every accepted request yields one. */
module DefinitionGraph {
  import opened Domain
  import opened Graphs
  import Requests = DefinitionService

  ghost predicate UniqueIds(tasks: seq<TaskDefinition>) {
    forall i, j | 0 <= i < j < |tasks| :: tasks[i].id != tasks[j].id
  }

  ghost predicate UniqueKeys(tasks: seq<TaskDefinition>) {
    forall i, j | 0 <= i < j < |tasks| :: tasks[i].key != tasks[j].key
  }

  ghost function Ids(tasks: seq<TaskDefinition>): (ids: set<Uuid>)
    ensures forall i | 0 <= i < |tasks| :: tasks[i].id in ids
  {
    set task | task in tasks :: task.id
  }

  ghost predicate WellFormedTask(ids: set<Uuid>, task: TaskDefinition) {
    && task.maxTries >= 1
    && NoDuplicates(task.dependencies)
    && forall dependency | dependency in task.dependencies :: dependency in ids
  }

  /** Dependencies between definition ids. */
  ghost function IdGraph(tasks: seq<TaskDefinition>): Graph<Uuid>
    requires UniqueIds(tasks)
  {
    map task | task in tasks :: task.id := Elements(task.dependencies)
  }

  ghost predicate WellFormed(tasks: seq<TaskDefinition>) {
    && tasks != []
    && UniqueIds(tasks)
    && UniqueKeys(tasks)
    && (forall task | task in tasks :: WellFormedTask(Ids(tasks), task))
    && Ranked(IdGraph(tasks))
  }

  /** The position of a task in a definition. */
  ghost function Position(tasks: seq<TaskDefinition>, id: Uuid): (i: nat)
    requires id in Ids(tasks)
    ensures i < |tasks| && tasks[i].id == id
  {
    var task :| task in tasks && task.id == id;
    var i :| 0 <= i < |tasks| && tasks[i] == task;
    i
  }

  lemma IdGraphShape(tasks: seq<TaskDefinition>)
    requires UniqueIds(tasks)
    ensures IdGraph(tasks).Keys == Ids(tasks)
    ensures forall i | 0 <= i < |tasks| :: IdGraph(tasks)[tasks[i].id] == Elements(tasks[i].dependencies)
  {
    forall i | 0 <= i < |tasks|
      ensures IdGraph(tasks)[tasks[i].id] == Elements(tasks[i].dependencies)
    {
      assert tasks[i] in tasks;
    }
  }

  ghost predicate AllResolve(
    ids: map<string, Uuid>, requests: seq<CreateTaskDefinition>, definitions: seq<TaskDefinition>)
  {
    && |definitions| == |requests|
    && ids.Keys == Requests.Keys(requests)
    && Requests.Injective(ids)
    && forall i | 0 <= i < |requests| :: Requests.Resolves(ids, requests[i], definitions[i])
  }

  /** Resolution keeps dependencies: `a` waits for `b` in the request exactly when their ids do in the definition. */
  lemma ResolutionKeepsDependencies(
    ids: map<string, Uuid>, requests: seq<CreateTaskDefinition>, definitions: seq<TaskDefinition>, i: nat, key: string)
    requires Requests.UniqueKeys(requests) && AllResolve(ids, requests, definitions)
    requires i < |requests| && key in ids
    ensures key in requests[i].dependencies <==> ids[key] in definitions[i].dependencies
  {
    var request, definition := requests[i], definitions[i];
    assert Requests.Resolves(ids, request, definition);
    if key in request.dependencies {
      var j :| 0 <= j < |request.dependencies| && request.dependencies[j] == key;
      assert definition.dependencies[j] == ids[key];
    }
    if ids[key] in definition.dependencies {
      var j :| 0 <= j < |definition.dependencies| && definition.dependencies[j] == ids[key];
      assert request.dependencies[j] in request.dependencies;
    }
  }

  /** A resolved dependency comes from a request that task `i` names. */
  lemma DependencyOrigin(
    ids: map<string, Uuid>, requests: seq<CreateTaskDefinition>, definitions: seq<TaskDefinition>, i: nat, d: Uuid)
    returns (m: nat)
    requires AllResolve(ids, requests, definitions) && i < |requests| && d in definitions[i].dependencies
    ensures m < |requests| && definitions[m].id == d && requests[m].key in requests[i].dependencies
  {
    assert Requests.Resolves(ids, requests[i], definitions[i]);
    var j :| 0 <= j < |definitions[i].dependencies| && definitions[i].dependencies[j] == d;
    var key := requests[i].dependencies[j];
    assert key in requests[i].dependencies;
    assert key in Requests.Keys(requests);
    m :| 0 <= m < |requests| && requests[m].key == key;
    assert Requests.Resolves(ids, requests[m], definitions[m]);
  }

  lemma ResolvedTask(
    ids: map<string, Uuid>, requests: seq<CreateTaskDefinition>, definitions: seq<TaskDefinition>, i: nat)
    requires AllResolve(ids, requests, definitions) && i < |requests|
    requires requests[i].maxTries >= 1 && NoDuplicates(requests[i].dependencies)
    ensures WellFormedTask(Ids(definitions), definitions[i])
  {
    var request, definition := requests[i], definitions[i];
    assert Requests.Resolves(ids, request, definition);
    forall a, b | 0 <= a < b < |definition.dependencies|
      ensures definition.dependencies[a] != definition.dependencies[b]
    {
      assert request.dependencies[a] in request.dependencies && request.dependencies[b] in request.dependencies;
      assert request.dependencies[a] != request.dependencies[b];
    }
    forall dependency | dependency in definition.dependencies
      ensures dependency in Ids(definitions)
    {
      var _ := DependencyOrigin(ids, requests, definitions, i, dependency);
    }
  }

  /** A rank on keys carries over to their ids. */
  lemma ResolvedRank(
    ids: map<string, Uuid>, requests: seq<CreateTaskDefinition>, definitions: seq<TaskDefinition>)
    requires Requests.UniqueKeys(requests) && Requests.ResolvableDependencies(requests)
    requires AllResolve(ids, requests, definitions) && UniqueIds(definitions)
    requires Ranked(Requests.DependencyGraph(requests))
    ensures Ranked(IdGraph(definitions))
  {
    var keyRank: map<string, nat> :| Ranking(Requests.DependencyGraph(requests), keyRank);
    assert |definitions| == |requests|;
    hide Ranking, AllResolve, Requests.ResolvableDependencies, Requests.DependencyGraph, Requests.UniqueKeys, IdGraph, Ranked;
    CarriedRankRanks(ids, requests, definitions, keyRank);
  }

  lemma CarriedRankRanks(
    ids: map<string, Uuid>, requests: seq<CreateTaskDefinition>, definitions: seq<TaskDefinition>, keyRank: map<string, nat>)
    requires Requests.UniqueKeys(requests) && Requests.ResolvableDependencies(requests)
    requires |definitions| == |requests| && AllResolve(ids, requests, definitions) && UniqueIds(definitions)
    requires Ranking(Requests.DependencyGraph(requests), keyRank)
    ensures Ranked(IdGraph(definitions))
  {
    hide IdGraph, CarriedRank, AllResolve, UniqueIds, Requests.ResolvableDependencies, Requests.DependencyGraph,
         Requests.UniqueKeys, Ranking, Ranked;
    CarriedRankCovers(requests, definitions, keyRank);
    forall k, d | k in IdGraph(definitions) && d in IdGraph(definitions)[k]
      ensures RanksBelow(CarriedRank(keyRank, requests, definitions), d, k)
    {
      CarriedRankFalls(ids, requests, definitions, keyRank, k, d);
    }
    RankedBy(IdGraph(definitions), CarriedRank(keyRank, requests, definitions));
  }

  ghost predicate RanksBelow(rank: map<Uuid, nat>, d: Uuid, k: Uuid) {
    k in rank && d in rank && rank[d] < rank[k]
  }

  lemma CarriedRankCovers(
    requests: seq<CreateTaskDefinition>, definitions: seq<TaskDefinition>, keyRank: map<string, nat>)
    requires UniqueIds(definitions) && |definitions| == |requests|
    ensures IdGraph(definitions).Keys == CarriedRank(keyRank, requests, definitions).Keys
  {
    IdGraphShape(definitions);
  }

  lemma CarriedRankFalls(
    ids: map<string, Uuid>, requests: seq<CreateTaskDefinition>, definitions: seq<TaskDefinition>,
    keyRank: map<string, nat>, k: Uuid, d: Uuid)
    requires Requests.UniqueKeys(requests) && Requests.ResolvableDependencies(requests)
    requires AllResolve(ids, requests, definitions) && UniqueIds(definitions)
    requires Ranking(Requests.DependencyGraph(requests), keyRank)
    requires k in IdGraph(definitions) && d in IdGraph(definitions)[k]
    ensures var rank := CarriedRank(keyRank, requests, definitions);
            k in rank && d in rank && rank[d] < rank[k]
  {
    IdGraphShape(definitions);
    var i := Position(definitions, k);
    var m := DependencyOrigin(ids, requests, definitions, i, d);
    KeyRanksBelow(requests, keyRank, i, m);
  }

  lemma KeyRanksBelow(requests: seq<CreateTaskDefinition>, rank: map<string, nat>, i: nat, m: nat)
    requires Requests.UniqueKeys(requests) && Requests.ResolvableDependencies(requests)
    requires Ranking(Requests.DependencyGraph(requests), rank)
    requires i < |requests| && m < |requests| && requests[m].key in requests[i].dependencies
    ensures RankOf(rank, requests[m].key) < RankOf(rank, requests[i].key)
  {
    Requests.GraphOfLists(requests);
    assert requests[i] in requests;
    var g := Requests.DependencyGraph(requests);
    assert requests[i].key in g && requests[m].key in g[requests[i].key];
  }

  ghost function RankOf(rank: map<string, nat>, key: string): nat {
    if key in rank then rank[key] else 0
  }

  ghost function CarriedRank(
    keyRank: map<string, nat>, requests: seq<CreateTaskDefinition>, definitions: seq<TaskDefinition>)
    : (rank: map<Uuid, nat>)
    requires UniqueIds(definitions) && |definitions| == |requests|
    ensures rank.Keys == Ids(definitions)
    ensures forall i | 0 <= i < |definitions| :: rank[definitions[i].id] == RankOf(keyRank, requests[i].key)
  {
    map id | id in Ids(definitions) :: RankOf(keyRank, requests[Position(definitions, id)].key)
  }

  /** Whatever validation accepts becomes a well-formed, acyclic definition with the same dependencies. */
  lemma AcceptedIsWellFormed(
    registry: Requests.TaskRegistry, requests: seq<CreateTaskDefinition>,
    ids: map<string, Uuid>, definitions: seq<TaskDefinition>)
    requires Requests.ValidRequest(registry, requests) && AllResolve(ids, requests, definitions)
    ensures WellFormed(definitions)
  {
    forall i, j | 0 <= i < j < |definitions|
      ensures definitions[i].id != definitions[j].id && definitions[i].key != definitions[j].key
    {
      assert Requests.Resolves(ids, requests[i], definitions[i]);
      assert Requests.Resolves(ids, requests[j], definitions[j]);
    }
    forall task | task in definitions
      ensures WellFormedTask(Ids(definitions), task)
    {
      var i :| 0 <= i < |definitions| && definitions[i] == task;
      assert requests[i] in requests;
      ResolvedTask(ids, requests, definitions, i);
    }
    Requests.GraphOfLists(requests);
    AcyclicIffRanked(Requests.DependencyGraph(requests));
    ResolvedRank(ids, requests, definitions);
  }
}
