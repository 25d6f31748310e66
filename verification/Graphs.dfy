/** Dependency graphs, cycles, and the equivalence between having no cycle and having a rank. */
module Graphs {
  import opened Domain

  /** Each node maps to the nodes it depends on. */
  type Graph<!K> = map<K, set<K>>

  ghost predicate SelfContained<K>(g: Graph<K>) {
    forall k | k in g :: g[k] <= g.Keys
  }

  /** A closed walk along dependencies. */
  ghost predicate Cycle<K>(g: Graph<K>, walk: seq<K>) {
    && |walk| >= 2
    && walk[0] == walk[|walk| - 1]
    && Walk(g, walk)
  }

  ghost predicate Walk<K>(g: Graph<K>, walk: seq<K>) {
    forall i | 0 <= i < |walk| - 1 :: StepAt(g, walk, i)
  }

  ghost predicate StepAt<K>(g: Graph<K>, walk: seq<K>, i: nat)
    requires i < |walk| - 1
  {
    walk[i] in g && walk[i + 1] in g[walk[i]]
  }

  ghost predicate HasCycle<K(!new)>(g: Graph<K>) {
    exists walk :: Cycle(g, walk)
  }

  /** Every node ranks strictly above everything it depends on. */
  ghost predicate Ranking<K>(g: Graph<K>, rank: map<K, nat>) {
    && g.Keys <= rank.Keys
    && forall k, d | k in g && d in g[k] :: d in rank && rank[d] < rank[k]
  }

  ghost predicate Ranked<K(!new)>(g: Graph<K>) {
    exists rank :: Ranking(g, rank)
  }

  lemma RankedBy<K(!new)>(g: Graph<K>, rank: map<K, nat>)
    requires g.Keys <= rank.Keys
    requires forall k, d | k in g && d in g[k] :: d in rank && rank[d] < rank[k]
    ensures Ranked(g)
  {
    assert Ranking(g, rank);
  }

  /** Nodes from which every walk can be prolonged for ever. */
  ghost predicate Trapped<K(!new)>(g: Graph<K>, nodes: set<K>) {
    nodes <= g.Keys && forall k | k in nodes :: g[k] * nodes != {}
  }

  /** Along a walk of a ranked graph the rank falls at every step. */
  lemma {:induction false} RankFalls<K>(g: Graph<K>, rank: map<K, nat>, walk: seq<K>, n: nat)
    requires Ranking(g, rank) && Walk(g, walk) && n < |walk| && |walk| >= 2
    ensures walk[0] in rank && walk[n] in rank && rank[walk[n]] + n <= rank[walk[0]]
  {
    assert StepAt(g, walk, 0);
    if n > 0 {
      RankFalls(g, rank, walk, n - 1);
      assert StepAt(g, walk, n - 1);
    }
  }

  lemma RankedHasNoCycle<K(!new)>(g: Graph<K>)
    requires Ranked(g)
    ensures !HasCycle(g)
  {
    var rank :| Ranking(g, rank);
    forall walk | Cycle(g, walk)
      ensures false
    {
      RankFalls(g, rank, walk, |walk| - 1);
    }
  }

  lemma {:induction false} TrappedWalk<K(!new)>(g: Graph<K>, nodes: set<K>, n: nat) returns (walk: seq<K>)
    requires Trapped(g, nodes) && nodes != {}
    ensures |walk| == n + 1 && Walk(g, walk) && Elements(walk) <= nodes
  {
    if n == 0 {
      var k :| k in nodes;
      walk := [k];
    } else {
      var shorter := TrappedWalk(g, nodes, n - 1);
      var last := shorter[n - 1];
      assert last in Elements(shorter);
      var d :| d in g[last] * nodes;
      walk := shorter + [d];
      forall i | 0 <= i < |walk| - 1
        ensures StepAt(g, walk, i)
      {
        assert walk[i] in Elements(shorter);
        if i < n - 1 {
          assert StepAt(g, shorter, i);
        }
      }
      assert forall x | x in walk :: x in shorter || x == d;
    }
  }

  /** A walk longer than the trap it stays in revisits a node: that stretch is a cycle. */
  lemma TrappedHasCycle<K(!new)>(g: Graph<K>, nodes: set<K>)
    requires Trapped(g, nodes) && nodes != {}
    ensures HasCycle(g)
  {
    var walk := TrappedWalk(g, nodes, |nodes|);
    DistinctSize(walk);
    SubsetSize(Elements(walk), nodes);
    var i, j :| 0 <= i < j < |walk| && walk[i] == walk[j];
    var loop := walk[i..j + 1];
    forall m | 0 <= m < |loop| - 1
      ensures StepAt(g, loop, m)
    {
      assert StepAt(g, walk, i + m);
    }
    assert Cycle(g, loop);
  }

  lemma {:induction false} SubsetSize<T>(a: set<T>, b: set<T>)
    requires a <= b
    ensures |a| <= |b|
    ensures |a| == |b| ==> a == b
  {
    if a != {} {
      var x :| x in a;
      SubsetSize(a - {x}, b - {x});
    }
  }

  /** A ranking of a part of the graph that contains everything it depends on. */
  ghost predicate PartialRanking<K>(g: Graph<K>, rank: map<K, nat>) {
    && rank.Keys <= g.Keys
    && (forall k | k in rank :: g[k] <= rank.Keys)
    && (forall k, d | k in rank && d in g[k] :: rank[d] < rank[k])
    && (forall k | k in rank :: rank[k] < |rank.Keys|)
  }

  lemma FullRanking<K(!new)>(g: Graph<K>, rank: map<K, nat>)
    requires PartialRanking(g, rank) && g.Keys <= rank.Keys
    ensures Ranked(g)
  {
    assert Ranking(g, rank);
  }

  lemma NextToRank<K(!new)>(g: Graph<K>, ranked: set<K>) returns (k: K)
    requires SelfContained(g) && !HasCycle(g) && !(g.Keys <= ranked)
    ensures k in g && k !in ranked && g[k] <= ranked
  {
    var rest := g.Keys - ranked;
    if Trapped(g, rest) {
      TrappedHasCycle(g, rest);
    }
    k :| k in rest && g[k] * rest == {};
    forall d | d in g[k]
      ensures d in ranked
    {
      assert d in g.Keys;
      assert d !in g[k] * rest;
    }
  }

  lemma WidenRanking<K>(g: Graph<K>, rank: map<K, nat>, k: K)
    requires PartialRanking(g, rank) && k in g && k !in rank && g[k] <= rank.Keys
    ensures PartialRanking(g, rank[k := |rank.Keys|])
  {
    var wider := rank[k := |rank.Keys|];
    assert wider.Keys == rank.Keys + {k};
    assert |wider.Keys| == |rank.Keys| + 1;
  }

  lemma {:induction false} ExtendRanking<K(!new)>(g: Graph<K>, rank: map<K, nat>)
    requires SelfContained(g) && !HasCycle(g) && PartialRanking(g, rank)
    ensures Ranked(g)
    decreases g.Keys - rank.Keys
  {
    if g.Keys <= rank.Keys {
      FullRanking(g, rank);
    } else {
      var k := NextToRank(g, rank.Keys);
      WidenRanking(g, rank, k);
      var wider := rank[k := |rank.Keys|];
      assert wider.Keys == rank.Keys + {k};
      ExtendRanking(g, wider);
    }
  }

  /** The two readings of "acyclic" agree. */
  lemma AcyclicIffRanked<K(!new)>(g: Graph<K>)
    requires SelfContained(g)
    ensures !HasCycle(g) <==> Ranked(g)
  {
    if Ranked(g) {
      RankedHasNoCycle(g);
    } else if !HasCycle(g) {
      ExtendRanking(g, map[]);
    }
  }

  /** A nonempty set of ranked nodes has a member none of whose dependencies are in the set. */
  lemma {:induction false} LowestNode<K(!new)>(g: Graph<K>, nodes: set<K>) returns (lowest: K)
    requires Ranked(g) && nodes != {} && nodes <= g.Keys
    ensures lowest in nodes && g[lowest] * nodes == {}
  {
    if Trapped(g, nodes) {
      TrappedHasCycle(g, nodes);
      RankedHasNoCycle(g);
    }
    lowest :| lowest in nodes && g[lowest] * nodes == {};
  }

  /******* Child lists *******/

  /** A node of a dependency list: the name its dependents' lists will hold, and what it depends on. */
  datatype Node<+K, +C> = Node(child: C, dependencies: seq<K>)

  /** One copy of `child` for every mention of `key`. */
  function Mentions<K(==), C>(dependencies: seq<K>, key: K, child: C): seq<C> {
    if dependencies == [] then []
    else
      Mentions(dependencies[..|dependencies| - 1], key, child)
      + if dependencies[|dependencies| - 1] == key then [child] else []
  }

  /** Those that depend on `key`, in list order. */
  function Dependents<K(==), C>(nodes: seq<Node<K, C>>, key: K): seq<C> {
    if nodes == [] then []
    else
      var last := nodes[|nodes| - 1];
      Dependents(nodes[..|nodes| - 1], key) + Mentions(last.dependencies, key, last.child)
  }

  /** The dependents among the first `i` nodes, then the mentions among the first `j` dependencies of the next. */
  ghost function DependentsUpTo<K, C>(nodes: seq<Node<K, C>>, i: nat, j: nat, key: K): seq<C>
    requires i < |nodes| && j <= |nodes[i].dependencies|
  {
    Dependents(nodes[..i], key) + Mentions(nodes[i].dependencies[..j], key, nodes[i].child)
  }

  lemma NextMention<K, C>(nodes: seq<Node<K, C>>, i: nat, j: nat, key: K)
    requires i < |nodes| && j < |nodes[i].dependencies|
    ensures DependentsUpTo(nodes, i, j + 1, key)
         == DependentsUpTo(nodes, i, j, key) + if nodes[i].dependencies[j] == key then [nodes[i].child] else []
  {
    assert nodes[i].dependencies[..j + 1][..j] == nodes[i].dependencies[..j];
  }

  lemma NextNode<K, C>(nodes: seq<Node<K, C>>, i: nat, key: K)
    requires i < |nodes|
    ensures DependentsUpTo(nodes, i, 0, key) == Dependents(nodes[..i], key)
    ensures DependentsUpTo(nodes, i, |nodes[i].dependencies|, key) == Dependents(nodes[..i + 1], key)
  {
    var dependencies := nodes[i].dependencies;
    assert dependencies[..|dependencies|] == dependencies;
    assert nodes[..i + 1][..i] == nodes[..i];
  }

  ghost predicate DistinctNodes<K, C>(nodes: seq<Node<K, C>>) {
    && (forall i, j | 0 <= i < j < |nodes| :: nodes[i].child != nodes[j].child)
    && (forall node | node in nodes :: NoDuplicates(node.dependencies))
  }

  ghost predicate DependsOn<K, C>(nodes: seq<Node<K, C>>, child: C, key: K) {
    exists node | node in nodes :: node.child == child && key in node.dependencies
  }

  lemma {:induction false} MentionedOnce<K, C>(dependencies: seq<K>, key: K, child: C)
    requires NoDuplicates(dependencies)
    ensures Mentions(dependencies, key, child) == if key in dependencies then [child] else []
  {
    if dependencies != [] {
      var front, last := dependencies[..|dependencies| - 1], dependencies[|dependencies| - 1];
      assert dependencies == front + [last];
      assert forall i, j | 0 <= i < j < |front| :: dependencies[i] == front[i] && dependencies[j] == front[j];
      assert last !in front;
      MentionedOnce(front, key, child);
    }
  }

  /** A child list holds exactly the dependents, each of them once. */
  lemma {:induction false} DependentsAreExact<K, C>(nodes: seq<Node<K, C>>, key: K)
    requires DistinctNodes(nodes)
    ensures NoDuplicates(Dependents(nodes, key))
    ensures forall child :: child in Dependents(nodes, key) <==> DependsOn(nodes, child, key)
  {
    if nodes != [] {
      var front, last := nodes[..|nodes| - 1], nodes[|nodes| - 1];
      assert nodes == front + [last];
      assert forall i, j | 0 <= i < j < |front| :: nodes[i] == front[i] && nodes[j] == front[j];
      assert DistinctNodes(front);
      DependentsAreExact(front, key);
      MentionedOnce(last.dependencies, key, last.child);
      forall node | node in front
        ensures node.child != last.child
      {
        var i :| 0 <= i < |front| && front[i] == node;
        assert nodes[i].child != nodes[|nodes| - 1].child;
      }
      forall child
        ensures DependsOn(nodes, child, key) <==>
                  DependsOn(front, child, key) || (child == last.child && key in last.dependencies)
      {
        if DependsOn(nodes, child, key) {
          var node :| node in nodes && node.child == child && key in node.dependencies;
          assert node in front || node == last;
        }
        if DependsOn(front, child, key) {
          var node :| node in front && node.child == child && key in node.dependencies;
          assert node in nodes;
        }
        if child == last.child && key in last.dependencies {
          assert last in nodes;
        }
      }
      assert last.child !in Dependents(front, key);
    }
  }
}
