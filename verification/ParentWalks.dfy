// Walks along dimension parents: the breadth-first ancestor walk of `_compute_transitive_closure`
// (precis_mcp/engine/catalogue.py) and the two depth-first key collectors of
// precis_mcp/engine/context_validation.py.

module ParentWalks {
  import opened Common

  type Key = string

  /** A `parents` entry: the parent's key and the source column of the relation. */
  datatype Parent = Parent(key: Key, column: string)
  datatype Dimension = Dimension(parents: seq<Parent>, ragged: bool, leaf: Option<Key>)
  type Dimensions = map<Key, Dimension>

  function ParentsOf(dims: Dimensions, k: Key): seq<Parent> {
    if k in dims then dims[k].parents else []
  }

  predicate IsParent(dims: Dimensions, child: Key, p: Parent) {
    p in ParentsOf(dims, child)
  }

  predicate HasParent(dims: Dimensions, child: Key, parent: Key) {
    exists i :: 0 <= i < |ParentsOf(dims, child)| && ParentsOf(dims, child)[i].key == parent
  }

  /** A parent chain from `a` to `b`, both included. */
  predicate Chain(dims: Dimensions, a: Key, b: Key, p: seq<Key>) {
    p != [] && p[0] == a && p[|p| - 1] == b && forall i :: 0 <= i < |p| - 1 ==> HasParent(dims, p[i], p[i + 1])
  }

  ghost predicate Reaches(dims: Dimensions, a: Key, b: Key) {
    exists p :: Chain(dims, a, b, p)
  }

  ghost predicate Shortest(dims: Dimensions, a: Key, b: Key, p: seq<Key>) {
    Chain(dims, a, b, p) && forall q :: Chain(dims, a, b, q) ==> |p| <= |q|
  }

  lemma ChainExtends(dims: Dimensions, a: Key, b: Key, c: Key, p: seq<Key>)
    requires Chain(dims, a, b, p) && HasParent(dims, b, c)
    ensures Chain(dims, a, c, p + [c])
  {
    var q := p + [c];
    forall i | 0 <= i < |q| - 1
      ensures HasParent(dims, q[i], q[i + 1])
    {
      if i < |p| - 1 {
        assert HasParent(dims, p[i], p[i + 1]);
      }
    }
  }

  // ----- Breadth first ---------------------------------------------------------------------------

  /** `chains` gives every visited key a chain from `start`. */
  ghost predicate Chained(dims: Dimensions, start: Key, chains: map<Key, seq<Key>>) {
    && start in chains && chains[start] == [start]
    && forall k {:trigger Chain(dims, start, k, chains[k])} :: k in chains ==> Chain(dims, start, k, chains[k])
  }

  /** `found` lists the visited keys but `start`, once each, with the column of their chain's last hop. */
  ghost predicate Listed(dims: Dimensions, start: Key, chains: map<Key, seq<Key>>, found: seq<Parent>) {
    && (forall i, j :: 0 <= i < j < |found| ==> found[i].key != found[j].key)
    && (forall i :: 0 <= i < |found| ==> LastHop(dims, start, chains, found[i]))
    && (forall k {:trigger Lists(found, k)} :: k in chains && k != start ==> Lists(found, k))
  }

  predicate LastHop(dims: Dimensions, start: Key, chains: map<Key, seq<Key>>, p: Parent) {
    p.key in chains && p.key != start && |chains[p.key]| >= 2
    && IsParent(dims, chains[p.key][|chains[p.key]| - 2], p)
  }

  /** The parents of `k` are visited, by chains at most one hop longer than `k`'s. */
  predicate Expanded(dims: Dimensions, chains: map<Key, seq<Key>>, k: Key) {
    k in chains && forall i :: 0 <= i < |ParentsOf(dims, k)| ==>
        Within(chains, ParentsOf(dims, k)[i].key, |chains[k]| + 1)
  }

  predicate Within(chains: map<Key, seq<Key>>, k: Key, n: nat) {
    k in chains && |chains[k]| <= n
  }

  /** The queue holds visited dimensions, nearest first; no chain is longer than one hop past `near`. */
  ghost predicate Queued(dims: Dimensions, chains: map<Key, seq<Key>>, queue: seq<Key>, near: nat) {
    && (forall i :: 0 <= i < |queue| ==> queue[i] in chains && queue[i] in dims && |chains[queue[i]]| >= near)
    && (forall i, j :: 0 <= i < j < |queue| ==> |chains[queue[i]]| <= |chains[queue[j]]|)
    && (forall k :: k in chains ==> |chains[k]| <= near + 1)
  }

  ghost predicate Ready(dims: Dimensions, chains: map<Key, seq<Key>>, queue: seq<Key>) {
    queue == [] || (queue[0] in chains && Queued(dims, chains, queue, |chains[queue[0]]|))
  }

  /** Every visited dimension outside `queue`, but `current`, is expanded. */
  ghost predicate Settled(dims: Dimensions, chains: map<Key, seq<Key>>, queue: seq<Key>, current: Option<Key>) {
    forall k {:trigger Expanded(dims, chains, k)} ::
      k in chains && k in dims && k !in queue && Some(k) != current ==> Expanded(dims, chains, k)
  }

  predicate Lists(found: seq<Parent>, k: Key) {
    exists i :: 0 <= i < |found| && found[i].key == k
  }

  ghost predicate ShortestHop(dims: Dimensions, start: Key, p: Parent) {
    exists c :: |c| >= 2 && Shortest(dims, start, p.key, c) && IsParent(dims, c[|c| - 2], p)
  }

  lemma VisitOne(
    dims: Dimensions, start: Key, current: Key, p: Parent, chains: map<Key, seq<Key>>, found: seq<Parent>)
    requires Chained(dims, start, chains) && Listed(dims, start, chains, found)
    requires current in chains && IsParent(dims, current, p) && p.key !in chains
    ensures Chained(dims, start, chains[p.key := chains[current] + [p.key]])
    ensures Listed(dims, start, chains[p.key := chains[current] + [p.key]], found + [p])
  {
    ChainOne(dims, start, current, p, chains);
    ListOne(dims, start, current, p, chains, found);
  }

  lemma ChainOne(dims: Dimensions, start: Key, current: Key, p: Parent, chains: map<Key, seq<Key>>)
    requires Chained(dims, start, chains) && current in chains && IsParent(dims, current, p) && p.key !in chains
    ensures Chained(dims, start, chains[p.key := chains[current] + [p.key]])
  {
    var i :| 0 <= i < |ParentsOf(dims, current)| && ParentsOf(dims, current)[i] == p;
    assert HasParent(dims, current, p.key);
    assert Chain(dims, start, current, chains[current]);
    ChainExtends(dims, start, current, p.key, chains[current]);
    var after := chains[p.key := chains[current] + [p.key]];
    forall k | k in after
      ensures Chain(dims, start, k, after[k])
    {
      if k != p.key {
        assert Chain(dims, start, k, chains[k]);
      }
    }
  }

  lemma ListOne(
    dims: Dimensions, start: Key, current: Key, p: Parent, chains: map<Key, seq<Key>>, found: seq<Parent>)
    requires Chained(dims, start, chains) && Listed(dims, start, chains, found)
    requires current in chains && IsParent(dims, current, p) && p.key !in chains
    ensures Listed(dims, start, chains[p.key := chains[current] + [p.key]], found + [p])
  {
    var after, list := chains[p.key := chains[current] + [p.key]], found + [p];
    assert Chain(dims, start, current, chains[current]);
    forall k | k in after && k != start
      ensures Lists(list, k)
    {
      if k == p.key {
        assert list[|found|].key == k;
      } else {
        assert Lists(found, k);
        var j :| 0 <= j < |found| && found[j].key == k;
        assert list[j].key == k;
      }
    }
    forall i | 0 <= i < |list|
      ensures LastHop(dims, start, after, list[i])
    {
      if i < |found| {
        assert LastHop(dims, start, chains, found[i]);
      }
    }
  }

  lemma SettledLater(
    dims: Dimensions, before: map<Key, seq<Key>>, after: map<Key, seq<Key>>, k: Key)
    requires Expanded(dims, before, k)
    requires forall x :: x in before ==> x in after && after[x] == before[x]
    ensures Expanded(dims, after, k)
  {
    var parents := ParentsOf(dims, k);
    forall i | 0 <= i < |parents|
      ensures Within(after, parents[i].key, |after[k]| + 1)
    {
      assert Within(before, parents[i].key, |before[k]| + 1);
    }
  }

  lemma Fewer(keys: set<Key>, visited: set<Key>, k: Key)
    requires k !in visited
    ensures |keys - (visited + {k})| <= |keys - visited|
    ensures k in keys ==> |keys - (visited + {k})| < |keys - visited|
  {
    assert keys - (visited + {k}) == (keys - visited) - {k};
  }

  /** Once every visited dimension is expanded, no chain is shorter than the one kept. */
  lemma {:induction false} ChainIsNoShorter(
    dims: Dimensions, start: Key, chains: map<Key, seq<Key>>, b: Key, q: seq<Key>)
    requires Chained(dims, start, chains) && Settled(dims, chains, [], None)
    requires Chain(dims, start, b, q)
    ensures b in chains && |chains[b]| <= |q|
    decreases |q|
  {
    if |q| > 1 {
      var n := |q| - 1;
      var before := q[..n];
      var c := q[n - 1];
      assert HasParent(dims, q[n - 1], q[n - 1 + 1]);
      assert Chain(dims, start, c, before) by {
        forall i | 0 <= i < |before| - 1
          ensures HasParent(dims, before[i], before[i + 1])
        {
          assert HasParent(dims, q[i], q[i + 1]);
        }
      }
      ChainIsNoShorter(dims, start, chains, c, before);
      assert Expanded(dims, chains, c);
      var i :| 0 <= i < |ParentsOf(dims, c)| && ParentsOf(dims, c)[i].key == b;
      assert Within(chains, ParentsOf(dims, c)[i].key, |chains[c]| + 1);
    }
  }

  lemma AllShortest(dims: Dimensions, start: Key, chains: map<Key, seq<Key>>, found: seq<Parent>)
    requires Chained(dims, start, chains) && Listed(dims, start, chains, found)
    requires Settled(dims, chains, [], None)
    ensures forall k :: Lists(found, k) <==> k != start && Reaches(dims, start, k)
    ensures forall i :: 0 <= i < |found| ==> ShortestHop(dims, start, found[i])
  {
    forall k
      ensures Lists(found, k) <==> k != start && Reaches(dims, start, k)
    {
      if Lists(found, k) {
        var i :| 0 <= i < |found| && found[i].key == k;
        assert LastHop(dims, start, chains, found[i]);
        assert Chain(dims, start, k, chains[k]);
      }
      if k != start && Reaches(dims, start, k) {
        var q :| Chain(dims, start, k, q);
        ChainIsNoShorter(dims, start, chains, k, q);
      }
    }
    forall i | 0 <= i < |found|
      ensures ShortestHop(dims, start, found[i])
    {
      assert LastHop(dims, start, chains, found[i]);
      var b := found[i].key;
      var c := chains[b];
      forall q | Chain(dims, start, b, q)
        ensures |c| <= |q|
      {
        ChainIsNoShorter(dims, start, chains, b, q);
      }
      assert Shortest(dims, start, b, c);
    }
  }

  /** `_walk_parents`: every proper ancestor once, with the column of the last hop of a shortest chain. */
  method WalkParents(dims: Dimensions, start: Key) returns (found: seq<Parent>)
    requires start in dims
    ensures forall i, j :: 0 <= i < j < |found| ==> found[i].key != found[j].key
    ensures forall k :: Lists(found, k) <==> k != start && Reaches(dims, start, k)
    ensures forall i :: 0 <= i < |found| ==> ShortestHop(dims, start, found[i])
  {
    found := [];
    var visited := {start};
    var queue := [start];
    ghost var chains := map[start := [start]];
    while queue != []
      invariant chains.Keys == visited && Chained(dims, start, chains) && Listed(dims, start, chains, found)
      invariant Ready(dims, chains, queue)
      invariant Settled(dims, chains, queue, None)
      decreases |dims.Keys - visited|, |queue|
    {
      var current := queue[0];
      assert Settled(dims, chains, queue[1..], Some(current));
      visited, queue, found, chains := Expand(dims, start, current, visited, queue[1..], found, chains);
    }
    AllShortest(dims, start, chains, found);
  }

  /** One round of the outer loop: the parents of `current`. */
  method Expand(
    dims: Dimensions, start: Key, current: Key, visited0: set<Key>, queue0: seq<Key>, found0: seq<Parent>,
    ghost chains0: map<Key, seq<Key>>)
    returns (visited: set<Key>, queue: seq<Key>, found: seq<Parent>, ghost chains: map<Key, seq<Key>>)
    requires current in dims && current in chains0 && chains0.Keys == visited0
    requires Chained(dims, start, chains0) && Listed(dims, start, chains0, found0)
    requires Queued(dims, chains0, queue0, |chains0[current]|)
    requires Settled(dims, chains0, queue0, Some(current))
    ensures chains.Keys == visited && Chained(dims, start, chains) && Listed(dims, start, chains, found)
    ensures Ready(dims, chains, queue)
    ensures Settled(dims, chains, queue, None)
    ensures |dims.Keys - visited| <= |dims.Keys - visited0|
    ensures queue == queue0 || |dims.Keys - visited| < |dims.Keys - visited0|
  {
    visited, queue, found, chains := visited0, queue0, found0, chains0;
    var parents := dims[current].parents;
    ghost var near := |chains0[current]|;
    for j := 0 to |parents|
      invariant chains.Keys == visited && current in chains && |chains[current]| == near
      invariant Chained(dims, start, chains) && Listed(dims, start, chains, found)
      invariant Queued(dims, chains, queue, near)
      invariant Settled(dims, chains, queue, Some(current))
      invariant forall i :: 0 <= i < j ==> Within(chains, parents[i].key, near + 1)
      invariant |dims.Keys - visited| <= |dims.Keys - visited0|
      invariant queue == queue0 || |dims.Keys - visited| < |dims.Keys - visited0|
    {
      var p := parents[j];
      if p.key !in visited {
        VisitOne(dims, start, current, p, chains, found);
        Fewer(dims.Keys, visited, p.key);
        ghost var before := chains;
        ghost var waiting := queue;
        chains := chains[p.key := chains[current] + [p.key]];
        visited := visited + {p.key};
        found := found + [p];
        if p.key in dims {
          queue := queue + [p.key];
        }
        StillSettled(dims, before, chains, waiting, queue, current, p.key);
        StillQueued(dims, before, chains, waiting, queue, near, p.key);
      }
    }
    assert Expanded(dims, chains, current);
  }

  lemma StillSettled(
    dims: Dimensions, before: map<Key, seq<Key>>, after: map<Key, seq<Key>>, queue: seq<Key>, longer: seq<Key>,
    current: Key, newest: Key)
    requires Settled(dims, before, queue, Some(current))
    requires forall x :: x in before ==> x in after && after[x] == before[x]
    requires forall x :: x in after ==> x in before || x == newest
    requires forall x :: x in queue ==> x in longer
    requires newest in dims ==> newest in longer
    ensures Settled(dims, after, longer, Some(current))
  {
    forall k | k in after && k in dims && k !in longer && k != current
      ensures Expanded(dims, after, k)
    {
      SettledLater(dims, before, after, k);
    }
  }

  lemma StillQueued(
    dims: Dimensions, before: map<Key, seq<Key>>, after: map<Key, seq<Key>>, queue: seq<Key>, longer: seq<Key>,
    near: nat, newest: Key)
    requires Queued(dims, before, queue, near)
    requires forall x :: x in before ==> x in after && after[x] == before[x]
    requires forall x :: x in after ==> x in before || x == newest
    requires newest in after && |after[newest]| == near + 1
    requires longer == queue || (newest in dims && longer == queue + [newest])
    ensures Queued(dims, after, longer, near)
  {
  }

  // ----- Depth first -----------------------------------------------------------------------------

  datatype CubeDimension = CubeDimension(key: Key, inline: bool)
  type Domains = map<string, seq<CubeDimension>>

  predicate Axis(domains: Domains, chosen: set<string>, k: Key, inline: bool) {
    exists d :: d in chosen && d in domains && CubeDimension(k, inline) in domains[d]
  }

  /** Reachable from an axis with master data of a chosen domain, or a ragged hierarchy over one. */
  ghost predicate Filterable(dims: Dimensions, domains: Domains, chosen: set<string>, k: Key) {
    || (exists b :: Axis(domains, chosen, b, false) && Reaches(dims, b, k))
    || RaggedOver(dims, domains, chosen, k)
  }

  predicate RaggedOver(dims: Dimensions, domains: Domains, chosen: set<string>, k: Key) {
    k in dims && dims[k].ragged && dims[k].leaf.Some? && Axis(domains, chosen, dims[k].leaf.value, false)
  }

  /** The parents of every key of `some` lie in `all`. */
  predicate Closed(dims: Dimensions, some: set<Key>, all: set<Key>) {
    forall k, i :: k in some && 0 <= i < |ParentsOf(dims, k)| ==> ParentsOf(dims, k)[i].key in all
  }

  lemma ReachesSelf(dims: Dimensions, k: Key)
    ensures Reaches(dims, k, k)
  {
    assert Chain(dims, k, k, [k]);
  }

  lemma ReachesOnward(dims: Dimensions, a: Key, b: Key, c: Key)
    requires HasParent(dims, a, b) && Reaches(dims, b, c)
    ensures Reaches(dims, a, c)
  {
    var p :| Chain(dims, b, c, p);
    var q := [a] + p;
    forall i | 0 <= i < |q| - 1
      ensures HasParent(dims, q[i], q[i + 1])
    {
      if i > 0 {
        var j := i - 1;
        assert HasParent(dims, p[j], p[j + 1]);
      }
    }
    assert Chain(dims, a, c, q);
  }

  /** A set that holds the parents of its members holds everything reachable from them. */
  lemma {:induction false} ClosedHoldsReachable(dims: Dimensions, all: set<Key>, a: Key, b: Key, p: seq<Key>)
    requires Closed(dims, all, all) && a in all && Chain(dims, a, b, p)
    ensures b in all
    decreases |p|
  {
    if |p| > 1 {
      var rest := p[1..];
      assert HasParent(dims, p[0], p[0 + 1]);
      var i :| 0 <= i < |ParentsOf(dims, a)| && ParentsOf(dims, a)[i].key == p[1];
      forall i | 0 <= i < |rest| - 1
        ensures HasParent(dims, rest[i], rest[i + 1])
      {
        var j := i + 1;
        assert HasParent(dims, p[j], p[j + 1]);
      }
      ClosedHoldsReachable(dims, all, p[1], b, rest);
    }
  }

  /** `_walk_parents` of the filter keys: every key it visits is valid. */
  method WalkFilter(dims: Dimensions, key: Key, visited0: set<Key>, valid0: set<Key>)
    returns (visited: set<Key>, valid: set<Key>)
    ensures visited0 <= visited && key in visited
    ensures forall k :: k in visited - visited0 ==> Reaches(dims, key, k)
    ensures Closed(dims, visited - visited0, visited)
    ensures valid == valid0 + (visited - visited0)
    decreases |dims.Keys - visited0|, if key in dims then 0 else 1
  {
    visited, valid := visited0, valid0;
    if key in visited {
      return;
    }
    visited, valid := visited + {key}, valid + {key};
    ReachesSelf(dims, key);
    if key in dims {
      Fewer(dims.Keys, visited0, key);
      var parents := dims[key].parents;
      for j := 0 to |parents|
        invariant visited0 + {key} <= visited
        invariant forall k :: k in visited - visited0 ==> Reaches(dims, key, k)
        invariant Closed(dims, visited - visited0 - {key}, visited)
        invariant forall i :: 0 <= i < j ==> parents[i].key in visited
        invariant valid == valid0 + (visited - visited0)
        invariant |dims.Keys - visited| < |dims.Keys - visited0|
      {
        ghost var before := visited;
        var p := parents[j].key;
        visited, valid := WalkFilter(dims, p, visited, valid);
        assert ParentsOf(dims, key)[j].key == p;
        forall k | k in visited - visited0
          ensures Reaches(dims, key, k)
        {
          if k !in before {
            ReachesOnward(dims, key, p, k);
          }
        }
        SubsetSize(dims.Keys - visited, dims.Keys - before);
      }
    }
  }

  /** `_walk_parents` of the breakdown keys: the parents it follows are valid. */
  method WalkBreakdown(dims: Dimensions, key: Key, visited0: set<Key>, valid0: set<Key>)
    returns (visited: set<Key>, valid: set<Key>)
    ensures visited0 <= visited && key in visited
    ensures forall k :: k in visited - visited0 ==> Reaches(dims, key, k)
    ensures Closed(dims, visited - visited0, visited)
    ensures valid0 <= valid && forall k :: k in visited - visited0 ==> k in valid || k == key
    ensures forall k :: k in valid - valid0 ==> Reaches(dims, key, k)
    decreases |dims.Keys - visited0|, if key in dims then 0 else 1
  {
    visited, valid := visited0, valid0;
    if key in visited {
      return;
    }
    visited := visited + {key};
    ReachesSelf(dims, key);
    if key in dims {
      Fewer(dims.Keys, visited0, key);
      var parents := dims[key].parents;
      for j := 0 to |parents|
        invariant visited0 + {key} <= visited
        invariant forall k :: k in visited - visited0 ==> Reaches(dims, key, k)
        invariant Closed(dims, visited - visited0 - {key}, visited)
        invariant forall i :: 0 <= i < j ==> parents[i].key in visited
        invariant valid0 <= valid && forall k :: k in visited - visited0 ==> k in valid || k == key
        invariant forall k :: k in valid - valid0 ==> Reaches(dims, key, k)
        invariant |dims.Keys - visited| < |dims.Keys - visited0|
      {
        ghost var before, sure := visited, valid;
        var p := parents[j].key;
        valid := valid + {p};
        visited, valid := WalkBreakdown(dims, p, visited, valid);
        assert ParentsOf(dims, key)[j].key == p;
        OnwardFrom(dims, key, p, visited - before + (valid - sure));
        SubsetSize(dims.Keys - visited, dims.Keys - before);
      }
    }
  }

  lemma OnwardFrom(dims: Dimensions, a: Key, b: Key, more: set<Key>)
    requires HasParent(dims, a, b)
    requires forall k :: k in more ==> k == b || Reaches(dims, b, k)
    ensures forall k :: k in more ==> Reaches(dims, a, k)
  {
    ReachesSelf(dims, b);
    forall k | k in more
      ensures Reaches(dims, a, k)
    {
      ReachesOnward(dims, a, b, k);
    }
  }

  /** The axes of the chosen domains: those with master data, and all of them. */
  method Axes(domains: Domains, chosen: set<string>) returns (bound: set<Key>, every: set<Key>)
    ensures forall k :: k in bound <==> Axis(domains, chosen, k, false)
    ensures forall k :: k in every <==> Axis(domains, chosen, k, false) || Axis(domains, chosen, k, true)
  {
    bound, every := {}, {};
    var left := chosen;
    var done := {};
    while left != {}
      invariant forall d :: d in chosen <==> d in left || d in done
      invariant forall k :: k in bound <==> Axis(domains, done, k, false)
      invariant forall k :: k in every <==> Axis(domains, done, k, false) || Axis(domains, done, k, true)
    {
      var d :| d in left;
      var before := done;
      left, done := left - {d}, done + {d};
      if d in domains {
        var some, all := DomainAxes(domains[d]);
        bound, every := bound + some, every + all;
      }
      OneMoreDomain(domains, before, d);
    }
    assert done == chosen;
  }

  lemma OneMoreDomain(domains: Domains, done: set<string>, d: string)
    ensures forall k, inline {:trigger Axis(domains, done + {d}, k, inline)} ::
      (Axis(domains, done + {d}, k, inline)
       <==> Axis(domains, done, k, inline) || (d in domains && CubeDimension(k, inline) in domains[d]))
  {
    forall k, inline
      ensures Axis(domains, done + {d}, k, inline)
        <==> Axis(domains, done, k, inline) || (d in domains && CubeDimension(k, inline) in domains[d])
    {
      if Axis(domains, done, k, inline) {
        var e :| e in done && e in domains && CubeDimension(k, inline) in domains[e];
        assert e in done + {d};
      }
    }
  }

  method DomainAxes(dimensions: seq<CubeDimension>) returns (bound: set<Key>, every: set<Key>)
    ensures forall k :: k in bound <==> CubeDimension(k, false) in dimensions
    ensures forall k :: k in every <==> CubeDimension(k, false) in dimensions || CubeDimension(k, true) in dimensions
  {
    bound, every := {}, {};
    for i := 0 to |dimensions|
      invariant forall k :: k in bound <==> CubeDimension(k, false) in dimensions[..i]
      invariant forall k :: k in every <==>
        CubeDimension(k, false) in dimensions[..i] || CubeDimension(k, true) in dimensions[..i]
    {
      assert dimensions[..i + 1] == dimensions[..i] + [dimensions[i]];
      every := every + {dimensions[i].key};
      if !dimensions[i].inline {
        bound := bound + {dimensions[i].key};
      }
    }
    assert dimensions[..|dimensions|] == dimensions;
  }

  ghost predicate FromSome(dims: Dimensions, roots: set<Key>, k: Key) {
    exists b :: b in roots && Reaches(dims, b, k)
  }

  lemma FromLeaf(dims: Dimensions, roots: set<Key>, leaf: Key, before: set<Key>, after: set<Key>)
    requires leaf in roots && forall k :: k in before ==> FromSome(dims, roots, k)
    requires forall k :: k in after ==> k in before || Reaches(dims, leaf, k)
    ensures forall k :: k in after ==> FromSome(dims, roots, k)
  {
  }

  /** A visited set grown from `roots` alone, closed, is what the roots reach. */
  lemma VisitedIsReached(dims: Dimensions, roots: set<Key>, visited: set<Key>)
    requires roots <= visited && Closed(dims, visited, visited)
    requires forall k :: k in visited ==> FromSome(dims, roots, k)
    ensures forall k :: k in visited <==> FromSome(dims, roots, k)
  {
    forall k | FromSome(dims, roots, k)
      ensures k in visited
    {
      var b :| b in roots && Reaches(dims, b, k);
      var p :| Chain(dims, b, k, p);
      ClosedHoldsReachable(dims, visited, b, k, p);
    }
  }

  /** The ragged hierarchies over a bound leaf, added to the valid keys. */
  method AddRagged(dims: Dimensions, bound: set<Key>, valid0: set<Key>) returns (valid: set<Key>)
    ensures forall k :: k in valid <==> k in valid0 || RaggedIn(dims, bound, k)
  {
    valid := valid0;
    var left := dims.Keys;
    while left != {}
      invariant left <= dims.Keys
      invariant forall k :: k in valid <==>
        k in valid0 || (k !in left && RaggedIn(dims, bound, k))
    {
      var k :| k in left;
      left := left - {k};
      if dims[k].ragged && dims[k].leaf.Some? && dims[k].leaf.value in bound {
        valid := valid + {k};
      }
    }
  }

  predicate RaggedIn(dims: Dimensions, bound: set<Key>, k: Key) {
    k in dims && dims[k].ragged && dims[k].leaf.Some? && dims[k].leaf.value in bound
  }

  lemma FilterableFrom(dims: Dimensions, domains: Domains, chosen: set<string>, bound: set<Key>)
    requires forall k :: k in bound <==> Axis(domains, chosen, k, false)
    ensures forall k :: Filterable(dims, domains, chosen, k) <==> FromSome(dims, bound, k) || RaggedIn(dims, bound, k)
  {
  }

  /** `_get_valid_filter_keys_for_domains`. */
  method FilterKeys(dims: Dimensions, domains: Domains, chosen: set<string>) returns (valid: set<Key>)
    ensures forall k :: k in valid <==> Filterable(dims, domains, chosen, k)
  {
    var bound, _ := Axes(domains, chosen);
    valid := {};
    var visited: set<Key> := {};
    var left := bound;
    while left != {}
      invariant left <= bound && bound - left <= visited
      invariant Closed(dims, visited, visited) && valid == visited
      invariant forall k :: k in visited ==> FromSome(dims, bound, k)
    {
      var leaf :| leaf in left;
      ghost var before := visited;
      left := left - {leaf};
      visited, valid := WalkFilter(dims, leaf, visited, valid);
      FromLeaf(dims, bound, leaf, before, visited);
    }
    VisitedIsReached(dims, bound, visited);
    valid := AddRagged(dims, bound, valid);
  }

  /** `_get_valid_dimension_keys_for_domains`: the filter keys and the inline axes. */
  method BreakdownKeys(dims: Dimensions, domains: Domains, chosen: set<string>) returns (valid: set<Key>)
    ensures forall k :: k in valid <==> Filterable(dims, domains, chosen, k) || Axis(domains, chosen, k, true)
  {
    var bound, every := Axes(domains, chosen);
    valid := every;
    var visited: set<Key> := {};
    var left := bound;
    while left != {}
      invariant left <= bound && bound - left <= visited
      invariant Closed(dims, visited, visited)
      invariant forall k :: k in visited ==> FromSome(dims, bound, k)
      invariant every <= valid && forall k :: k in visited ==> k in valid
      invariant forall k :: k in valid - every ==> FromSome(dims, bound, k)
    {
      var leaf :| leaf in left;
      ghost var before, sure := visited, valid;
      left := left - {leaf};
      visited, valid := WalkBreakdown(dims, leaf, visited, valid);
      FromLeaf(dims, bound, leaf, before, visited);
      FromLeaf(dims, bound, leaf, sure - every, valid - every);
    }
    VisitedIsReached(dims, bound, visited);
    valid := AddRagged(dims, bound, valid);
    FilterableFrom(dims, domains, chosen, bound);
  }
}
