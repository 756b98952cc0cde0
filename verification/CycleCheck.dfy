// The cycle check of the catalogue (`_has_cycle` in precis_mcp/engine/catalogue.py).

module CycleCheck {
  import opened Common

  type Node = string
  type Graph = map<Node, set<Node>>

  // ----- What a cycle is -------------------------------------------------------------------------

  /** A walk along dependencies, inside the graph's own keys. */
  predicate Walk(graph: Graph, p: seq<Node>) {
    && p != [] && (forall i :: 0 <= i < |p| ==> p[i] in graph)
    && (forall i :: 0 <= i < |p| - 1 ==> p[i + 1] in graph[p[i]])
  }

  predicate Cycle(graph: Graph, p: seq<Node>) {
    |p| >= 2 && Walk(graph, p) && p[0] == p[|p| - 1]
  }

  ghost predicate Acyclic(graph: Graph) {
    forall p :: !Cycle(graph, p)
  }

  /** Every member has a predecessor that is a member too. */
  predicate SelfFeeding(graph: Graph, nodes: set<Node>) {
    nodes <= graph.Keys && forall n {:trigger Fed(graph, nodes, n)} :: n in nodes ==> Fed(graph, nodes, n)
  }

  predicate Fed(graph: Graph, nodes: set<Node>, n: Node) {
    exists m :: m in nodes && m in graph && n in graph[m]
  }

  /** A non-empty self-feeding set contains a cycle: walking backwards must revisit a node. */
  lemma {:induction false} WalkBack(graph: Graph, nodes: set<Node>, p: seq<Node>) returns (cycle: seq<Node>)
    requires SelfFeeding(graph, nodes) && Walk(graph, p) && (forall n :: n in p ==> n in nodes)
    requires forall i, j :: 0 <= i < j < |p| ==> p[i] != p[j]
    ensures Cycle(graph, cycle) && forall n :: n in cycle ==> n in nodes
    decreases |nodes| - |p|
  {
    assert p[0] in nodes && Fed(graph, nodes, p[0]);
    var m :| m in nodes && p[0] in graph[m];
    if m in p {
      var i :| 0 <= i < |p| && p[i] == m;
      cycle := [m] + p[..i + 1];
    } else {
      Distinct([m] + p, nodes);
      cycle := WalkBack(graph, nodes, [m] + p);
    }
  }

  lemma {:induction false} Distinct(p: seq<Node>, nodes: set<Node>)
    requires forall i, j :: 0 <= i < j < |p| ==> p[i] != p[j]
    requires forall n :: n in p ==> n in nodes
    ensures |p| <= |nodes|
  {
    if p != [] {
      Distinct(p[1..], nodes - {p[0]});
    }
  }

  lemma SelfFeedingHasCycle(graph: Graph, nodes: set<Node>)
    requires SelfFeeding(graph, nodes) && nodes != {}
    ensures exists p :: Cycle(graph, p) && forall n :: n in p ==> n in nodes
  {
    var n :| n in nodes;
    var p := WalkBack(graph, nodes, [n]);
  }

  /** `order` lists keys so that everything depending on a node comes before it. */
  predicate Ordered(graph: Graph, order: seq<Node>) {
    forall i, m :: 0 <= i < |order| && m in graph && order[i] in graph[m] ==> m in order[..i]
  }

  lemma {:induction false} WalkDescends(graph: Graph, order: seq<Node>, p: seq<Node>, k: nat)
    requires Ordered(graph, order) && Walk(graph, p)
    requires k < |order| && p[|p| - 1] == order[k]
    ensures exists j :: 0 <= j <= k && order[j] == p[0] && (|p| >= 2 ==> j < k)
    decreases |p|
  {
    if |p| >= 2 {
      var n := |p| - 2;
      assert p[n + 1] in graph[p[n]];
      var i :| 0 <= i < k && order[..k][i] == p[n];
      WalkDescends(graph, order, p[..n + 1], i);
    }
  }

  predicate Unrepeated(order: seq<Node>) {
    forall i, j :: 0 <= i < j < |order| ==> order[i] != order[j]
  }

  lemma OrderedIsAcyclic(graph: Graph, order: seq<Node>)
    requires Ordered(graph, order) && Unrepeated(order) && forall n :: n in graph ==> n in order
    ensures Acyclic(graph)
  {
    forall p
      ensures !Cycle(graph, p)
    {
      if Cycle(graph, p) {
        var k :| 0 <= k < |order| && order[k] == p[|p| - 1];
        WalkDescends(graph, order, p, k);
      }
    }
  }

  // ----- Kahn's algorithm ------------------------------------------------------------------------

  /** The nodes of `among` that depend on `n`. */
  function Dependents(graph: Graph, among: set<Node>, n: Node): set<Node> {
    set m | m in among && m in graph && n in graph[m]
  }

  /** The inner counting loop: one more for each dependency that is a key. */
  method CountIn(inDegree: map<Node, int>, deps: set<Node>) returns (counted: map<Node, int>)
    ensures counted.Keys == inDegree.Keys
    ensures forall n :: n in inDegree ==> counted[n] == inDegree[n] + (if n in deps then 1 else 0)
  {
    counted := inDegree;
    var todo := deps;
    while todo != {}
      invariant todo <= deps && counted.Keys == inDegree.Keys
      invariant forall n :: n in inDegree ==> counted[n] == inDegree[n] + (if n in deps && n !in todo then 1 else 0)
      decreases todo
    {
      var dep :| dep in todo;
      if dep in counted {
        counted := counted[dep := counted[dep] + 1];
      }
      todo := todo - {dep};
    }
  }

  /** The outer counting loop: how many keys depend on each key. */
  method CountDependents(graph: Graph) returns (inDegree: map<Node, int>)
    ensures inDegree.Keys == graph.Keys
    ensures forall n :: n in graph ==> inDegree[n] == |Dependents(graph, graph.Keys, n)|
  {
    inDegree := map n | n in graph :: 0;
    var todo := graph.Keys;
    ghost var done := {};
    while todo != {}
      invariant Split(graph.Keys, todo, done) && inDegree.Keys == graph.Keys
      invariant forall n :: n in graph ==> inDegree[n] == |Dependents(graph, done, n)|
      decreases todo
    {
      var m :| m in todo;
      SplitMoves(graph.Keys, todo, done, m);
      AddDependents(graph, done, m);
      inDegree := CountIn(inDegree, graph[m]);
      todo, done := todo - {m}, done + {m};
    }
    SplitEnds(graph.Keys, done);
  }

  ghost predicate Split(all: set<Node>, todo: set<Node>, done: set<Node>) {
    forall n :: (n in all <==> n in todo || n in done) && !(n in todo && n in done)
  }

  lemma SplitMoves(all: set<Node>, todo: set<Node>, done: set<Node>, m: Node)
    requires Split(all, todo, done) && m in todo
    ensures m in all && m !in done && Split(all, todo - {m}, done + {m})
  {
  }

  lemma SplitEnds(all: set<Node>, done: set<Node>)
    requires Split(all, {}, done)
    ensures done == all
  {
    assert forall n :: n in done <==> n in all;
  }

  lemma AddDependents(graph: Graph, among: set<Node>, m: Node)
    requires m in graph && m !in among
    ensures forall n :: n in graph ==>
      |Dependents(graph, among + {m}, n)| == |Dependents(graph, among, n)| + (if n in graph[m] then 1 else 0)
  {
    forall n | n in graph
      ensures |Dependents(graph, among + {m}, n)| == |Dependents(graph, among, n)| + (if n in graph[m] then 1 else 0)
    {
      AddDependent(graph, among, m, n);
    }
  }

  lemma AddDependent(graph: Graph, among: set<Node>, m: Node, n: Node)
    requires m in graph && m !in among
    ensures |Dependents(graph, among + {m}, n)| == |Dependents(graph, among, n)| + (if n in graph[m] then 1 else 0)
  {
    if n in graph[m] {
      assert Dependents(graph, among + {m}, n) == Dependents(graph, among, n) + {m};
    } else {
      assert Dependents(graph, among + {m}, n) == Dependents(graph, among, n);
    }
  }

  /** The list comprehension that seeds the queue, in some order. */
  method ZeroNodes(inDegree: map<Node, int>) returns (queue: seq<Node>)
    ensures Unrepeated(queue) && forall n :: n in queue <==> n in inDegree && inDegree[n] == 0
  {
    queue := [];
    var todo := inDegree.Keys;
    while todo != {}
      invariant todo <= inDegree.Keys && Unrepeated(queue)
      invariant forall n :: n in queue <==> n in inDegree && inDegree[n] == 0 && n !in todo
      decreases todo
    {
      var n :| n in todo;
      if inDegree[n] == 0 {
        queue := queue + [n];
      }
      todo := todo - {n};
    }
  }

  /** What the main loop knows between two nodes taken off the queue. */
  ghost predicate Progress(graph: Graph, inDegree: map<Node, int>, queue: seq<Node>,
                           order: seq<Node>, left: set<Node>) {
    && inDegree.Keys == graph.Keys && left <= graph.Keys
    && (forall n :: n in graph ==> (n in left <==> n !in order)) && (forall n :: n in order ==> n in graph)
    && Unrepeated(order) && Ordered(graph, order)
    && Unrepeated(queue) && (forall n :: n in queue <==> n in left && inDegree[n] == 0)
    && (forall n :: n in graph ==> inDegree[n] == |Dependents(graph, left, n)|)
  }

  /** While `node`'s dependencies are being worked off: `todo` is what remains of them. */
  ghost predicate Relaxing(
    graph: Graph, inDegree: map<Node, int>, queue: seq<Node>, node: Node, left: set<Node>, todo: set<Node>)
  {
    && node in left && left <= graph.Keys && todo <= graph[node] && inDegree.Keys == graph.Keys
    && Unrepeated(queue) && (forall n :: n in queue <==> n in left && n != node && inDegree[n] == 0)
    && (forall n :: n in graph ==>
          inDegree[n] == |Dependents(graph, left, n)| - (if n in graph[node] && n !in todo then 1 else 0))
  }

  lemma TakeNode(graph: Graph, inDegree: map<Node, int>, queue: seq<Node>, order: seq<Node>, left: set<Node>)
    requires Progress(graph, inDegree, queue, order, left) && queue != []
    ensures var node := queue[|queue| - 1];
            && node in left && node in graph && node !in graph[node]
            && Ordered(graph, order + [node]) && Unrepeated(order + [node])
            && Relaxing(graph, inDegree, queue[..|queue| - 1], node, left, graph[node])
  {
    var node := queue[|queue| - 1];
    assert node in queue;
    assert Dependents(graph, left, node) == {};
    forall m | m in graph && node in graph[m]
      ensures m in order
    {
      assert m !in Dependents(graph, left, node);
    }
    assert (order + [node])[..|order|] == order;
    forall i, m | 0 <= i < |order + [node]| && m in graph && (order + [node])[i] in graph[m]
      ensures m in (order + [node])[..i]
    {
      if i < |order| {
        assert (order + [node])[..i] == order[..i];
      }
    }
    forall n
      ensures n in queue[..|queue| - 1] <==> n in left && n != node && inDegree[n] == 0
    {
      assert n in queue <==> n in queue[..|queue| - 1] || n == node;
    }
  }

  lemma RelaxOne(graph: Graph, inDegree: map<Node, int>, queue: seq<Node>,
                 node: Node, left: set<Node>, todo: set<Node>, dep: Node)
    requires Relaxing(graph, inDegree, queue, node, left, todo)
    requires dep in todo && dep in inDegree && node !in graph[node]
    requires forall n :: n in graph && n !in left ==> Dependents(graph, left, n) == {}
    ensures var lower := inDegree[dep := inDegree[dep] - 1];
            Relaxing(graph, lower, if lower[dep] == 0 then queue + [dep] else queue, node, left, todo - {dep})
  {
    assert node in Dependents(graph, left, dep);
    assert dep in left;
    assert |Dependents(graph, left, dep)| >= 1 by {
      assert {node} <= Dependents(graph, left, dep);
      SubsetSize({node}, Dependents(graph, left, dep));
    }
    assert dep !in queue;
  }

  lemma NodeDone(
    graph: Graph, inDegree: map<Node, int>, queue: seq<Node>, node: Node, order: seq<Node>, left: set<Node>)
    requires Relaxing(graph, inDegree, queue, node, left, {})
    requires (forall n :: n in graph ==> (n in left <==> n !in order)) && (forall n :: n in order ==> n in graph)
    requires Unrepeated(order + [node]) && Ordered(graph, order + [node])
    ensures Progress(graph, inDegree, queue, order + [node], left - {node})
  {
    forall n | n in graph
      ensures inDegree[n] == |Dependents(graph, left - {node}, n)|
    {
      AddDependent(graph, left - {node}, node, n);
      assert left - {node} + {node} == left;
    }
  }

  /** `_has_cycle`: None exactly for an acyclic graph; otherwise nodes that all have predecessors among them. */
  method HasCycle(graph: Graph) returns (cycle: Option<set<Node>>)
    ensures cycle == None <==> Acyclic(graph)
    ensures cycle.Some? ==> cycle.value != {} && SelfFeeding(graph, cycle.value)
  {
    var inDegree := CountDependents(graph);
    var queue := ZeroNodes(inDegree);
    ghost var order, left := [], graph.Keys;
    while queue != []
      invariant Progress(graph, inDegree, queue, order, left)
      decreases left
    {
      var node := queue[|queue| - 1];
      TakeNode(graph, inDegree, queue, order, left);
      OrderedLeft(graph, order, left);
      queue := queue[..|queue| - 1];
      var todo := graph[node];
      while todo != {}
        invariant todo <= graph[node] && Relaxing(graph, inDegree, queue, node, left, todo)
        decreases todo
      {
        var dep :| dep in todo;
        if dep in inDegree {
          RelaxOne(graph, inDegree, queue, node, left, todo, dep);
          inDegree := inDegree[dep := inDegree[dep] - 1];
          if inDegree[dep] == 0 {
            queue := queue + [dep];
          }
        }
        todo := todo - {dep};
      }
      NodeDone(graph, inDegree, queue, node, order, left);
      order, left := order + [node], left - {node};
    }
    var cycleNodes := set n | n in inDegree && inDegree[n] > 0;
    LeftOvers(graph, inDegree, order, left, cycleNodes);
    cycle := if cycleNodes != {} then Some(cycleNodes) else None;
  }

  /** What has been taken off the queue is depended on by nothing that is left. */
  lemma OrderedLeft(graph: Graph, order: seq<Node>, left: set<Node>)
    requires Ordered(graph, order) && forall n :: n in graph ==> (n in left <==> n !in order)
    ensures forall n :: n in graph && n !in left ==> Dependents(graph, left, n) == {}
  {
    forall n | n in graph && n !in left
      ensures Dependents(graph, left, n) == {}
    {
      var i :| 0 <= i < |order| && order[i] == n;
      forall m | m in graph && n in graph[m]
        ensures m in order
      {
        assert m in order[..i];
      }
    }
  }

  lemma LeftOvers(graph: Graph, inDegree: map<Node, int>, order: seq<Node>, left: set<Node>, nodes: set<Node>)
    requires Progress(graph, inDegree, [], order, left)
    requires nodes == set n | n in inDegree && inDegree[n] > 0
    ensures nodes == {} <==> Acyclic(graph)
    ensures nodes != {} ==> SelfFeeding(graph, nodes)
  {
    OrderedLeft(graph, order, left);
    assert forall n :: n in left ==> n in nodes;
    forall n | n in nodes
      ensures Fed(graph, nodes, n)
    {
      assert Dependents(graph, left, n) != {};
      var m :| m in Dependents(graph, left, n);
    }
    if nodes == {} {
      OrderedIsAcyclic(graph, order);
    } else {
      SelfFeedingHasCycle(graph, nodes);
    }
  }
}
