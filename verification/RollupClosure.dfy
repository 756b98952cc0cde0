// The recursive hierarchy rollup (precis_mcp/engine/ragged_views.py). Tables are bags, written as
// sequences of rows; WITH RECURSIVE ... UNION ALL appends one working table after another until
// one is empty.

module RollupClosure {
  type Node = string

  datatype Edge = Edge(child: Node, parent: Node)
  datatype Row = Row(node: Node, leaf: Node, path: seq<Node>)

  // ----- The query -------------------------------------------------------------------------------

  function BaseRows(leaves: seq<Node>): (rows: seq<Row>)
    ensures |rows| == |leaves|
  {
    if leaves == [] then [] else [Row(leaves[0], leaves[0], [leaves[0]])] + BaseRows(leaves[1..])
  }

  /** The join of one row with the edge table, minus the parents already on its path. */
  function ClimbRow(row: Row, edges: seq<Edge>): seq<Row> {
    if edges == [] then []
    else if edges[0].child == row.node && edges[0].parent !in row.path then
      [Row(edges[0].parent, row.leaf, row.path + [edges[0].parent])] + ClimbRow(row, edges[1..])
    else ClimbRow(row, edges[1..])
  }

  function Climb(rows: seq<Row>, edges: seq<Edge>): seq<Row> {
    if rows == [] then [] else ClimbRow(rows[0], edges) + Climb(rows[1..], edges)
  }

  function Universe(leaves: seq<Node>, edges: seq<Edge>): set<Node> {
    (set n | n in leaves) + (set e | e in edges :: e.parent)
  }

  predicate NoRepeats<T(==)>(s: seq<T>) {
    forall i, j :: 0 <= i < j < |s| ==> s[i] != s[j]
  }

  /** Working table number `k`: paths of `k` different nodes, ending in the row's node. */
  predicate WorkingTable(rows: seq<Row>, k: nat, universe: set<Node>) {
    forall r :: r in rows ==>
      |r.path| == k >= 1 && r.node == r.path[k - 1] && NoRepeats(r.path) && forall n :: n in r.path ==> n in universe
  }

  lemma {:induction false} ClimbRowTable(row: Row, edges: seq<Edge>, k: nat, universe: set<Node>)
    requires WorkingTable([row], k, universe) && forall e :: e in edges ==> e.parent in universe
    ensures WorkingTable(ClimbRow(row, edges), k + 1, universe)
  {
    assert row in [row];
    if edges != [] {
      ClimbRowTable(row, edges[1..], k, universe);
    }
  }

  lemma {:induction false} ClimbTable(rows: seq<Row>, edges: seq<Edge>, k: nat, universe: set<Node>)
    requires WorkingTable(rows, k, universe) && forall e :: e in edges ==> e.parent in universe
    ensures WorkingTable(Climb(rows, edges), k + 1, universe)
  {
    if rows != [] {
      ClimbRowTable(rows[0], edges, k, universe);
      ClimbTable(rows[1..], edges, k, universe);
    }
  }

  /** Different elements drawn from a finite set are no more than it has. */
  lemma {:induction false} NoRepeatsBounded(s: seq<Node>, universe: set<Node>)
    requires NoRepeats(s) && forall n :: n in s ==> n in universe
    ensures |s| <= |universe|
  {
    if s != [] {
      NoRepeatsBounded(s[1..], universe - {s[0]});
    }
  }

  lemma BaseTable(leaves: seq<Node>, universe: set<Node>)
    requires forall n :: n in leaves ==> n in universe
    ensures WorkingTable(BaseRows(leaves), 1, universe)
  {
    if leaves != [] {
      BaseTable(leaves[1..], universe);
    }
  }

  lemma TableBounded(rows: seq<Row>, k: nat, universe: set<Node>)
    requires WorkingTable(rows, k, universe) && rows != []
    ensures k <= |universe|
  {
    NoRepeatsBounded(rows[0].path, universe);
  }

  /** Working tables until one is empty. Paths never repeat a node, so this ends, cycles or not. */
  function Iterate(rows: seq<Row>, edges: seq<Edge>, k: nat, universe: set<Node>): seq<Row>
    requires WorkingTable(rows, k, universe) && forall e :: e in edges ==> e.parent in universe
    decreases if rows == [] then 0 else 1, |universe| + 1 - k
  {
    if rows == [] then []
    else
      ClimbTable(rows, edges, k, universe);
      var next := Climb(rows, edges);
      if next == [] then rows
      else
        TableBounded(next, k + 1, universe);
        rows + Iterate(next, edges, k + 1, universe)
  }

  /** The rows of the recursive CTE, before DISTINCT or GROUP BY. */
  function Rollup(leaves: seq<Node>, edges: seq<Edge>): seq<Row> {
    var universe := Universe(leaves, edges);
    BaseTable(leaves, universe);
    Iterate(BaseRows(leaves), edges, 1, universe)
  }

  /** `build_recursive_rollup_sql`: SELECT DISTINCT node_id, leaf. */
  function RollupPairs(leaves: seq<Node>, edges: seq<Edge>): set<(Node, Node)> {
    set r | r in Rollup(leaves, edges) :: (r.node, r.leaf)
  }

  function PairCount(rows: seq<Row>, node: Node, leaf: Node): nat {
    if rows == [] then 0
    else (if rows[0].node == node && rows[0].leaf == leaf then 1 else 0) + PairCount(rows[1..], node, leaf)
  }

  /** `build_diamond_check_sql` without its LIMIT: HAVING count > 1. */
  predicate Diamond(leaves: seq<Node>, edges: seq<Edge>, node: Node, leaf: Node) {
    PairCount(Rollup(leaves, edges), node, leaf) > 1
  }

  // ----- What it should mean ---------------------------------------------------------------------

  predicate Walk(edges: seq<Edge>, path: seq<Node>) {
    path != [] && forall i :: 0 <= i < |path| - 1 ==> Edge(path[i], path[i + 1]) in edges
  }

  predicate WalkFrom(edges: seq<Edge>, a: Node, b: Node, path: seq<Node>) {
    Walk(edges, path) && path[0] == a && path[|path| - 1] == b
  }

  /** Reflexive-transitive reachability along child-to-parent edges. */
  ghost predicate Reaches(edges: seq<Edge>, a: Node, b: Node) {
    exists path :: WalkFrom(edges, a, b, path)
  }

  predicate SimplePath(edges: seq<Edge>, a: Node, b: Node, path: seq<Node>) {
    WalkFrom(edges, a, b, path) && NoRepeats(path)
  }

  function Count<T(==)>(s: seq<T>, x: T): nat {
    if s == [] then 0 else (if s[0] == x then 1 else 0) + Count(s[1..], x)
  }

  /** In how many ways leaf and edge rows spell out `path` upward from `leaf`; none if it repeats a node. */
  function Spellings(leaves: seq<Node>, edges: seq<Edge>, leaf: Node, path: seq<Node>): nat
    requires path != []
  {
    var n := |path| - 1;
    if n == 0 then (if path[0] == leaf then Count(leaves, leaf) else 0)
    else if path[n] in path[..n] then 0
    else Spellings(leaves, edges, leaf, path[..n]) * Count(edges, Edge(path[n - 1], path[n]))
  }

  // ----- Proofs ----------------------------------------------------------------------------------

  lemma {:induction false} CountConcat<T>(a: seq<T>, b: seq<T>, x: T)
    ensures Count(a + b, x) == Count(a, x) + Count(b, x)
  {
    if a == [] {
      assert a + b == b;
    } else {
      assert (a + b)[0] == a[0] && (a + b)[1..] == a[1..] + b;
      CountConcat(a[1..], b, x);
    }
  }

  lemma {:induction false} CountPositive<T>(s: seq<T>, x: T)
    ensures Count(s, x) > 0 <==> x in s
  {
    if s != [] {
      CountPositive(s[1..], x);
      assert x in s <==> x == s[0] || x in s[1..];
    }
  }

  lemma {:induction false} CountOnce<T>(s: seq<T>, x: T)
    requires NoRepeats(s)
    ensures Count(s, x) <= 1
  {
    if s != [] {
      CountOnce(s[1..], x);
      CountPositive(s[1..], x);
    }
  }

  /** The row `row` was climbed from. */
  function Previous(row: Row): Row
    requires |row.path| >= 2
  {
    Row(row.path[|row.path| - 2], row.leaf, row.path[..|row.path| - 1])
  }

  /** A row that the climbing step can produce: its node closes its path and was not on it before. */
  predicate Climbed(row: Row) {
    |row.path| >= 2 && row.node == row.path[|row.path| - 1] && row.node !in row.path[..|row.path| - 1]
  }

  lemma {:induction false} ClimbRowCount(r: Row, edges: seq<Edge>, row: Row)
    requires r.path != [] && r.node == r.path[|r.path| - 1]
    ensures Count(ClimbRow(r, edges), row) ==
            if Climbed(row) && r == Previous(row) then Count(edges, Edge(r.node, row.node)) else 0
  {
    if edges != [] {
      ClimbRowCount(r, edges[1..], row);
      var e := edges[0];
      if e.child == r.node && e.parent !in r.path {
        var made := Row(e.parent, r.leaf, r.path + [e.parent]);
        assert made.path[..|made.path| - 1] == r.path;
        assert ClimbRow(r, edges)[1..] == ClimbRow(r, edges[1..]);
        if Climbed(row) && r == Previous(row) {
          assert row.path == row.path[..|row.path| - 1] + [row.node];
        }
      }
    }
  }

  lemma {:induction false} ClimbCount(rows: seq<Row>, edges: seq<Edge>, row: Row)
    requires forall r :: r in rows ==> r.path != [] && r.node == r.path[|r.path| - 1]
    ensures Count(Climb(rows, edges), row) ==
            if Climbed(row) then Count(rows, Previous(row)) * Count(edges, Edge(Previous(row).node, row.node)) else 0
  {
    if rows != [] {
      ClimbCount(rows[1..], edges, row);
      ClimbRowCount(rows[0], edges, row);
      CountConcat(ClimbRow(rows[0], edges), Climb(rows[1..], edges), row);
      if Climbed(row) {
        var before := Previous(row);
        Distribute(if rows[0] == before then 1 else 0,
                   Count(rows[1..], before), Count(edges, Edge(before.node, row.node)));
      }
    }
  }

  lemma Distribute(a: nat, b: nat, c: nat)
    ensures (a + b) * c == a * c + b * c
  {
  }

  /** How often a row of length `k` or more arises from the working table `rows` of length `k`. */
  function Arises(rows: seq<Row>, edges: seq<Edge>, k: nat, row: Row): nat
    decreases |row.path|
  {
    if |row.path| < k then 0
    else if |row.path| == k then Count(rows, row)
    else if Climbed(row) then
      Arises(rows, edges, k, Previous(row)) * Count(edges, Edge(Previous(row).node, row.node))
    else 0
  }

  /** Counting from one working table or from the next gives the same. */
  lemma {:induction false} ArisesNext(rows: seq<Row>, edges: seq<Edge>, k: nat, universe: set<Node>, row: Row)
    requires WorkingTable(rows, k, universe) && k >= 1
    ensures |row.path| > k ==> Arises(Climb(rows, edges), edges, k + 1, row) == Arises(rows, edges, k, row)
    decreases |row.path|
  {
    if |row.path| == k + 1 {
      ClimbCount(rows, edges, row);
    } else if |row.path| > k + 1 && Climbed(row) {
      ArisesNext(rows, edges, k, universe, Previous(row));
    }
  }

  lemma {:induction false} EmptyArises(edges: seq<Edge>, k: nat, row: Row)
    ensures Arises([], edges, k, row) == 0
    decreases |row.path|
  {
    if |row.path| > k && Climbed(row) {
      EmptyArises(edges, k, Previous(row));
    }
  }

  lemma TableCount(rows: seq<Row>, k: nat, universe: set<Node>, row: Row)
    requires WorkingTable(rows, k, universe) && |row.path| != k
    ensures Count(rows, row) == 0
  {
    CountPositive(rows, row);
  }

  /** A row counts in the working table when it has its length, in the later tables when it is longer. */
  lemma IterateAdds(rows: seq<Row>, edges: seq<Edge>, k: nat, universe: set<Node>, row: Row)
    requires WorkingTable(rows, k, universe) && k >= 1
    requires |row.path| > k ==> Arises(Climb(rows, edges), edges, k + 1, row) == Arises(rows, edges, k, row)
    ensures Count(rows, row) + Arises(Climb(rows, edges), edges, k + 1, row) == Arises(rows, edges, k, row)
  {
    if |row.path| != k {
      TableCount(rows, k, universe, row);
    }
  }

  lemma {:induction false} IterateCount(rows: seq<Row>, edges: seq<Edge>, k: nat, universe: set<Node>, row: Row)
    requires WorkingTable(rows, k, universe) && (forall e :: e in edges ==> e.parent in universe) && k >= 1
    ensures Count(Iterate(rows, edges, k, universe), row) == Arises(rows, edges, k, row)
    decreases if rows == [] then 0 else 1, |universe| + 1 - k
  {
    if rows == [] {
      EmptyArises(edges, k, row);
    } else {
      ClimbTable(rows, edges, k, universe);
      var next := Climb(rows, edges);
      ArisesNext(rows, edges, k, universe, row);
      if next == [] {
        EmptyArises(edges, k + 1, row);
        if |row.path| != k {
          TableCount(rows, k, universe, row);
        }
      } else {
        TableBounded(next, k + 1, universe);
        IterateCount(next, edges, k + 1, universe, row);
        CountConcat(rows, Iterate(next, edges, k + 1, universe), row);
        IterateAdds(rows, edges, k, universe, row);
      }
    }
  }

  lemma {:induction false} BaseCount(leaves: seq<Node>, row: Row)
    ensures Count(BaseRows(leaves), row) ==
            if row.path == [row.leaf] && row.node == row.leaf then Count(leaves, row.leaf) else 0
  {
    if leaves != [] {
      BaseCount(leaves[1..], row);
      assert BaseRows(leaves)[1..] == BaseRows(leaves[1..]);
    }
  }

  lemma {:induction false} ArisesSpells(leaves: seq<Node>, edges: seq<Edge>, row: Row)
    ensures Arises(BaseRows(leaves), edges, 1, row) ==
            if row.path != [] && row.node == row.path[|row.path| - 1]
            then Spellings(leaves, edges, row.leaf, row.path) else 0
    decreases |row.path|
  {
    if |row.path| == 1 {
      BaseCount(leaves, row);
      assert row.path == [row.path[0]];
    } else if Climbed(row) {
      ArisesSpells(leaves, edges, Previous(row));
    }
  }

  /**
   * The CTE's rows, with multiplicity: a row (node, leaf, path) occurs once for every way the leaf
   * and edge tables spell out its path, and a path that repeats a node not at all.
   */
  lemma RollupRows(leaves: seq<Node>, edges: seq<Edge>, row: Row)
    ensures Count(Rollup(leaves, edges), row) ==
            if row.path != [] && row.node == row.path[|row.path| - 1]
            then Spellings(leaves, edges, row.leaf, row.path) else 0
  {
    var universe := Universe(leaves, edges);
    BaseTable(leaves, universe);
    IterateCount(BaseRows(leaves), edges, 1, universe, row);
    ArisesSpells(leaves, edges, row);
  }

  lemma {:induction false} SpellingsPositive(leaves: seq<Node>, edges: seq<Edge>, leaf: Node, path: seq<Node>)
    requires path != []
    ensures Spellings(leaves, edges, leaf, path) > 0 <==>
            leaf in leaves && SimplePath(edges, leaf, path[|path| - 1], path)
    decreases |path|
  {
    var n := |path| - 1;
    if n == 0 {
      CountPositive(leaves, leaf);
    } else {
      SpellingsPositive(leaves, edges, leaf, path[..n]);
      CountPositive(edges, Edge(path[n - 1], path[n]));
      PathExtends(edges, leaf, path);
    }
  }

  lemma PathExtends(edges: seq<Edge>, leaf: Node, path: seq<Node>)
    requires |path| >= 2
    ensures var n := |path| - 1;
            SimplePath(edges, leaf, path[n], path) <==>
            SimplePath(edges, leaf, path[n - 1], path[..n]) && path[n] !in path[..n]
            && Edge(path[n - 1], path[n]) in edges
  {
    var n := |path| - 1;
    var front := path[..n];
    if SimplePath(edges, leaf, path[n - 1], front) && path[n] !in front && Edge(path[n - 1], path[n]) in edges {
      forall i | 0 <= i < |path| - 1
        ensures Edge(path[i], path[i + 1]) in edges
      {
        if i < n - 1 {
          assert Edge(front[i], front[i + 1]) in edges;
        }
      }
      forall i, j | 0 <= i < j < |path|
        ensures path[i] != path[j]
      {
        assert path[i] == front[i];
        if j < n {
          assert path[j] == front[j];
        }
      }
    }
    if SimplePath(edges, leaf, path[n], path) {
      forall i | 0 <= i < n - 1
        ensures Edge(front[i], front[i + 1]) in edges
      {
        assert Edge(path[i], path[i + 1]) in edges;
      }
      assert Edge(path[n - 1], path[n - 1 + 1]) in edges;
    }
  }

  /** The rows are exactly the simple upward paths from each leaf. */
  lemma RowsAreSimplePaths(leaves: seq<Node>, edges: seq<Edge>, row: Row)
    ensures row in Rollup(leaves, edges) <==>
            row.leaf in leaves && SimplePath(edges, row.leaf, row.node, row.path)
  {
    RollupRows(leaves, edges, row);
    CountPositive(Rollup(leaves, edges), row);
    if row.path != [] {
      SpellingsPositive(leaves, edges, row.leaf, row.path);
    }
  }

  /** A walk can be shortened to a simple path with the same ends. */
  lemma {:induction false} EraseLoops(edges: seq<Edge>, a: Node, b: Node, walk: seq<Node>) returns (path: seq<Node>)
    requires WalkFrom(edges, a, b, walk)
    ensures SimplePath(edges, a, b, path)
    decreases |walk|
  {
    var n := |walk| - 1;
    if n == 0 {
      return walk;
    }
    assert forall i :: 0 <= i < n - 1 ==> Edge(walk[..n][i], walk[..n][i + 1]) == Edge(walk[i], walk[i + 1]);
    var front := EraseLoops(edges, a, walk[n - 1], walk[..n]);
    assert Edge(walk[n - 1], walk[n - 1 + 1]) in edges;
    if b in front {
      var i :| 0 <= i < |front| && front[i] == b;
      path := front[..i + 1];
      assert forall j :: 0 <= j < i ==> Edge(path[j], path[j + 1]) == Edge(front[j], front[j + 1]);
    } else {
      path := front + [b];
      assert path[..|front|] == front;
      PathExtends(edges, a, path);
    }
  }

  /** The DISTINCT projection is reflexive-transitive reachability from the leaves. */
  lemma RollupIsReachability(leaves: seq<Node>, edges: seq<Edge>, node: Node, leaf: Node)
    ensures (node, leaf) in RollupPairs(leaves, edges) <==> leaf in leaves && Reaches(edges, leaf, node)
  {
    if (node, leaf) in RollupPairs(leaves, edges) {
      var r :| r in Rollup(leaves, edges) && r.node == node && r.leaf == leaf;
      RowsAreSimplePaths(leaves, edges, r);
    }
    if leaf in leaves && Reaches(edges, leaf, node) {
      var walk :| WalkFrom(edges, leaf, node, walk);
      var path := EraseLoops(edges, leaf, node, walk);
      RowsAreSimplePaths(leaves, edges, Row(node, leaf, path));
    }
  }

  // ----- Diamonds --------------------------------------------------------------------------------

  lemma {:induction false} PairCountPositive(rows: seq<Row>, node: Node, leaf: Node)
    ensures PairCount(rows, node, leaf) > 0 <==> exists r :: r in rows && r.node == node && r.leaf == leaf
  {
    if rows != [] {
      PairCountPositive(rows[1..], node, leaf);
      if PairCount(rows[1..], node, leaf) > 0 {
        var r :| r in rows[1..] && r.node == node && r.leaf == leaf;
        assert r in rows;
      }
      assert forall r :: r in rows ==> r == rows[0] || r in rows[1..];
    }
  }

  /** Two different rows of a pair, or one that occurs twice. */
  predicate Doubled(rows: seq<Row>, node: Node, leaf: Node, r: Row, q: Row) {
    && r in rows && q in rows && r.node == node && q.node == node && r.leaf == leaf && q.leaf == leaf
    && (r != q || Count(rows, r) > 1)
  }

  lemma {:induction false} CountedDoubled(rows: seq<Row>, node: Node, leaf: Node) returns (r: Row, q: Row)
    requires PairCount(rows, node, leaf) > 1
    ensures Doubled(rows, node, leaf, r, q)
  {
    if rows[0].node == node && rows[0].leaf == leaf {
      PairCountPositive(rows[1..], node, leaf);
      r := rows[0];
      q :| q in rows[1..] && q.node == node && q.leaf == leaf;
      CountPositive(rows[1..], r);
    } else {
      r, q := CountedDoubled(rows[1..], node, leaf);
    }
  }

  lemma {:induction false} DoubledCounted(rows: seq<Row>, node: Node, leaf: Node, r: Row, q: Row)
    requires Doubled(rows, node, leaf, r, q)
    ensures PairCount(rows, node, leaf) > 1
  {
    var first := rows[0];
    assert (r == first || r in rows[1..]) && (q == first || q in rows[1..]);
    if r == first || q == first {
      CountPositive(rows[1..], first);
      PairCountPositive(rows[1..], node, leaf);
    } else {
      DoubledCounted(rows[1..], node, leaf, r, q);
    }
  }

  /** The path is simple, and no leaf or edge row on it is stored twice. */
  predicate StoredOnce(leaves: seq<Node>, edges: seq<Edge>, leaf: Node, path: seq<Node>) {
    Count(leaves, leaf) <= 1 && forall i :: 0 <= i < |path| - 1 ==> Count(edges, Edge(path[i], path[i + 1])) <= 1
  }

  lemma {:induction false} SpellingsOnce(leaves: seq<Node>, edges: seq<Edge>, leaf: Node, path: seq<Node>)
    requires path != [] && Spellings(leaves, edges, leaf, path) > 0
    ensures Spellings(leaves, edges, leaf, path) == 1 <==> StoredOnce(leaves, edges, leaf, path)
    decreases |path|
  {
    var n := |path| - 1;
    if n > 0 {
      var front := path[..n];
      var last := Count(edges, Edge(path[n - 1], path[n]));
      var before := Spellings(leaves, edges, leaf, front);
      Factors(before, last);
      SpellingsOnce(leaves, edges, leaf, front);
      assert StoredOnce(leaves, edges, leaf, path) <==> StoredOnce(leaves, edges, leaf, front) && last <= 1 by {
        assert forall i :: 0 <= i < n - 1 ==> Edge(front[i], front[i + 1]) == Edge(path[i], path[i + 1]);
        if StoredOnce(leaves, edges, leaf, path) {
          assert Count(edges, Edge(path[n - 1], path[n - 1 + 1])) <= 1;
        }
      }
    }
  }

  lemma Factors(a: nat, b: nat)
    requires a * b > 0
    ensures a > 0 && b > 0 && (a * b == 1 <==> a == 1 && b == 1)
  {
    if a > 1 {
      assert a * b >= 2 * b;
    }
  }

  /**
   * The diamond check reports a pair exactly when the leaf reaches the node by two different simple
   * paths, or by one whose leaf row or one of whose edge rows is stored more than once.
   */
  lemma DiamondExactly(leaves: seq<Node>, edges: seq<Edge>, node: Node, leaf: Node)
    ensures Diamond(leaves, edges, node, leaf) <==>
            leaf in leaves && exists p, q ::
              SimplePath(edges, leaf, node, p) && SimplePath(edges, leaf, node, q)
              && (p != q || !StoredOnce(leaves, edges, leaf, p))
  {
    var rows := Rollup(leaves, edges);
    if Diamond(leaves, edges, node, leaf) {
      var r, q := CountedDoubled(rows, node, leaf);
      RowsAreSimplePaths(leaves, edges, r);
      RowsAreSimplePaths(leaves, edges, q);
      RowCount(leaves, edges, r);
    }
    if leaf in leaves {
      if p, q :| SimplePath(edges, leaf, node, p) && SimplePath(edges, leaf, node, q)
                 && (p != q || !StoredOnce(leaves, edges, leaf, p)) {
        RowsAreSimplePaths(leaves, edges, Row(node, leaf, p));
        RowsAreSimplePaths(leaves, edges, Row(node, leaf, q));
        RowCount(leaves, edges, Row(node, leaf, p));
        DoubledCounted(rows, node, leaf, Row(node, leaf, p), Row(node, leaf, q));
      }
    }
  }

  lemma RowCount(leaves: seq<Node>, edges: seq<Edge>, row: Row)
    requires row in Rollup(leaves, edges)
    ensures Count(Rollup(leaves, edges), row) > 1 <==> !StoredOnce(leaves, edges, row.leaf, row.path)
  {
    RowsAreSimplePaths(leaves, edges, row);
    RollupRows(leaves, edges, row);
    CountPositive(Rollup(leaves, edges), row);
    SpellingsOnce(leaves, edges, row.leaf, row.path);
  }

  lemma AllStoredOnce(leaves: seq<Node>, edges: seq<Edge>, leaf: Node, path: seq<Node>)
    requires NoRepeats(leaves) && NoRepeats(edges)
    ensures StoredOnce(leaves, edges, leaf, path)
  {
    CountOnce(leaves, leaf);
    forall i | 0 <= i < |path| - 1
      ensures Count(edges, Edge(path[i], path[i + 1])) <= 1
    {
      CountOnce(edges, Edge(path[i], path[i + 1]));
    }
  }

  /** With every row stored once, the diamond check lists exactly the pairs with two simple paths. */
  lemma DiamondIsTwoPaths(leaves: seq<Node>, edges: seq<Edge>, node: Node, leaf: Node)
    requires NoRepeats(leaves) && NoRepeats(edges)
    ensures Diamond(leaves, edges, node, leaf) <==>
              leaf in leaves && exists p, q ::
                SimplePath(edges, leaf, node, p) && SimplePath(edges, leaf, node, q) && p != q
  {
    DiamondExactly(leaves, edges, node, leaf);
    forall path
      ensures StoredOnce(leaves, edges, leaf, path)
    {
      AllStoredOnce(leaves, edges, leaf, path);
    }
  }

  /** With every row stored once, the reported number of paths is the number of simple paths. */
  lemma DiamondCountsPaths(leaves: seq<Node>, edges: seq<Edge>, node: Node, leaf: Node, paths: set<seq<Node>>)
    requires NoRepeats(leaves) && NoRepeats(edges) && leaf in leaves
    requires forall p :: p in paths <==> SimplePath(edges, leaf, node, p)
    ensures PairCount(Rollup(leaves, edges), node, leaf) == |paths|
  {
    var rows := Rollup(leaves, edges);
    forall r
      ensures Count(rows, r) <= 1
      ensures r in rows && r.node == node && r.leaf == leaf <==> r == Row(node, leaf, r.path) && r.path in paths
    {
      RowsAreSimplePaths(leaves, edges, r);
      CountPositive(rows, r);
      if r in rows {
        RowCount(leaves, edges, r);
        AllStoredOnce(leaves, edges, r.leaf, r.path);
      }
    }
    PairCountIsSize(rows, node, leaf, paths);
  }

  lemma {:induction false} PairCountIsSize(rows: seq<Row>, node: Node, leaf: Node, paths: set<seq<Node>>)
    requires forall r :: Count(rows, r) <= 1
    requires forall p :: p in paths <==> Row(node, leaf, p) in rows
    ensures PairCount(rows, node, leaf) == |paths|
  {
    if rows == [] {
      assert paths == {};
    } else {
      var first := rows[0];
      var rest := if first.node == node && first.leaf == leaf then paths - {first.path} else paths;
      assert Count(rows, first) <= 1;
      CountPositive(rows[1..], first);
      forall r
        ensures Count(rows[1..], r) <= 1
      {
        assert Count(rows, r) <= 1;
      }
      forall p
        ensures p in rest <==> Row(node, leaf, p) in rows[1..]
      {
        assert Row(node, leaf, p) in rows <==> Row(node, leaf, p) == first || Row(node, leaf, p) in rows[1..];
      }
      PairCountIsSize(rows[1..], node, leaf, rest);
    }
  }

  lemma OneEdgePath(edges: seq<Edge>, path: seq<Node>)
    requires (forall e :: e in edges ==> e == Edge("a", "p")) && SimplePath(edges, "a", "p", path)
    ensures path == ["a", "p"]
  {
    var n := |path| - 1;
    assert "a"[0] != "p"[0];
    var i, j := 0, n - 1;
    assert Edge(path[i], path[i + 1]) in edges && Edge(path[j], path[j + 1]) in edges;
    assert path[j] == path[0];
  }

  lemma CountTwice(x: Edge)
    ensures Count([x, x], x) == 2
  {
    assert [x, x][1..] == [x] && Count([x], x) == 1;
  }

  /** One leaf and one edge stored twice: a single path, reported as a diamond. */
  lemma StoredTwice()
    ensures var leaves, edges := ["a"], [Edge("a", "p"), Edge("a", "p")];
            && Diamond(leaves, edges, "p", "a")
            && forall path :: SimplePath(edges, "a", "p", path) ==> path == ["a", "p"]
  {
    var leaves, edges, path := ["a"], [Edge("a", "p"), Edge("a", "p")], ["a", "p"];
    var i := 0;
    CountTwice(Edge("a", "p"));
    assert "a"[0] != "p"[0];
    assert Edge(path[i], path[i + 1]) in edges && SimplePath(edges, "a", "p", path);
    assert !StoredOnce(leaves, edges, "a", path);
    DiamondExactly(leaves, edges, "p", "a");
    forall other | SimplePath(edges, "a", "p", other)
      ensures other == path
    {
      OneEdgePath(edges, other);
    }
  }
}
