// Edges derived from a leaf table's ancestor columns (`build_generated_edges_sql` in
// precis_mcp/engine/ragged_views.py), and the per-row projection their closure replaced.

module GeneratedEdges {
  import opened RollupClosure

  const ROOT: Node := "all"

  /** A resolved hierarchy level: its node prefix (empty for the leaf level) and source column. */
  datatype Level = Level(prefix: string, column: string)

  /** A row of the leaf table: the text of each column. */
  type TableRow = map<string, string>

  function Cell(row: TableRow, column: string): string {
    if column in row then row[column] else ""
  }

  function NodeId(level: Level, row: TableRow): Node {
    level.prefix + Cell(row, level.column)
  }

  /** A table row's node ids, root level first; the last one is the leaf's own id. */
  function Ancestry(levels: seq<Level>, row: TableRow): (ids: seq<Node>)
    ensures |ids| == |levels| && forall i :: 0 <= i < |levels| ==> ids[i] == NodeId(levels[i], row)
  {
    seq(|levels|, i requires 0 <= i < |levels| => NodeId(levels[i], row))
  }

  /** The leaf table as a bag of ancestries over `n` levels. */
  predicate Ancestries(rows: seq<seq<Node>>, n: nat) {
    n >= 1 && forall r :: r in rows ==> |r| == n
  }

  /** The leaf table's ancestries. */
  function TableAncestries(levels: seq<Level>, table: seq<TableRow>): (rows: seq<seq<Node>>)
    requires levels != []
    ensures Ancestries(rows, |levels|)
    ensures |rows| == |table| && forall k :: 0 <= k < |table| ==> rows[k] == Ancestry(levels, table[k])
  {
    seq(|table|, k requires 0 <= k < |table| => Ancestry(levels, table[k]))
  }

  function LevelEdge(row: seq<Node>, i: nat): Edge
    requires i < |row|
  {
    Edge(row[i], if i == 0 then ROOT else row[i - 1])
  }

  function Distinct(edges: seq<Edge>): seq<Edge> {
    if edges == [] then []
    else
      var rest := Distinct(edges[..|edges| - 1]);
      if edges[|edges| - 1] in rest then rest else rest + [edges[|edges| - 1]]
  }

  /** SELECT DISTINCT child, parent FROM the leaf table, for one level. */
  function LevelEdges(rows: seq<seq<Node>>, n: nat, i: nat): seq<Edge>
    requires Ancestries(rows, n) && i < n
  {
    Distinct(seq(|rows|, k requires 0 <= k < |rows| => LevelEdge(rows[k], i)))
  }

  /** The UNION ALL from level `i` up to the root, deepest first. */
  function EdgesFrom(rows: seq<seq<Node>>, n: nat, i: nat): seq<Edge>
    requires Ancestries(rows, n) && i < n
  {
    if i == 0 then LevelEdges(rows, n, 0) else LevelEdges(rows, n, i) + EdgesFrom(rows, n, i - 1)
  }

  function Edges(rows: seq<seq<Node>>, n: nat): seq<Edge>
    requires Ancestries(rows, n)
  {
    EdgesFrom(rows, n, n - 1)
  }

  lemma TakeLevel(rows: seq<seq<Node>>, n: nat, i: nat, before: seq<Edge>)
    requires Ancestries(rows, n) && 0 < i < n
    ensures before + EdgesFrom(rows, n, i) == before + LevelEdges(rows, n, i) + EdgesFrom(rows, n, i - 1)
  {
    var deepest, rest := LevelEdges(rows, n, i), EdgesFrom(rows, n, i - 1);
    assert before + (deepest + rest) == before + deepest + rest;
  }

  function TableEdges(levels: seq<Level>, table: seq<TableRow>): seq<Edge>
    requires levels != []
  {
    Edges(TableAncestries(levels, table), |levels|)
  }

  /** `build_generated_edges_sql`: the edge relation of the declared levels over the leaf table. */
  method BuildEdges(levels: seq<Level>, table: seq<TableRow>) returns (unions: seq<Edge>)
    requires levels != []
    ensures unions == TableEdges(levels, table)
  {
    unions := UnionLevels(TableAncestries(levels, table), |levels|);
  }

  /** Its loop: level pairs leaf-most first, then the root's edges. */
  method UnionLevels(rows: seq<seq<Node>>, n: nat) returns (unions: seq<Edge>)
    requires Ancestries(rows, n)
    ensures unions == Edges(rows, n)
  {
    unions := [];
    var i := n - 1;
    ghost var all := Edges(rows, n);
    while i > 0
      invariant 0 <= i < n && unions + EdgesFrom(rows, n, i) == all
    {
      TakeLevel(rows, n, i, unions);
      unions := unions + LevelEdges(rows, n, i);
      i := i - 1;
    }
    unions := unions + LevelEdges(rows, n, 0);
  }

  function Leaves(rows: seq<seq<Node>>, n: nat): (leaves: seq<Node>)
    requires Ancestries(rows, n)
    ensures |leaves| == |rows| && forall k :: 0 <= k < |rows| ==> leaves[k] == rows[k][n - 1]
  {
    seq(|rows|, k requires 0 <= k < |rows| => rows[k][n - 1])
  }

  /** Row `r` belongs to `leaf` and has `node` at level `i`. */
  predicate AtLevel(rows: seq<seq<Node>>, n: nat, leaf: Node, node: Node, i: int, r: seq<Node>) {
    r in rows && |r| == n && 0 <= i < n && r[n - 1] == leaf && r[i] == node
  }

  ghost predicate HasAncestor(rows: seq<seq<Node>>, n: nat, leaf: Node, node: Node, i: int) {
    exists t :: AtLevel(rows, n, leaf, node, i, t)
  }

  ghost predicate HasLeaf(rows: seq<seq<Node>>, n: nat, leaf: Node)
    requires n >= 1
  {
    HasAncestor(rows, n, leaf, leaf, n - 1)
  }

  /** The former per-level derivation: each row's own ancestors, and the root. */
  ghost predicate Projected(rows: seq<seq<Node>>, n: nat, node: Node, leaf: Node)
    requires n >= 1
  {
    if node == ROOT then HasLeaf(rows, n, leaf) else exists i :: HasAncestor(rows, n, leaf, node, i)
  }

  predicate EdgeOf(rows: seq<seq<Node>>, e: Edge, i: int, r: seq<Node>) {
    r in rows && 0 <= i < |r| && e == LevelEdge(r, i)
  }

  ghost predicate LevelHas(rows: seq<seq<Node>>, e: Edge, i: int) {
    exists r :: EdgeOf(rows, e, i, r)
  }

  lemma {:induction false} DistinctSame(edges: seq<Edge>, e: Edge)
    ensures e in Distinct(edges) <==> e in edges
  {
    if edges != [] {
      var k := |edges| - 1;
      DistinctSame(edges[..k], e);
      assert edges == edges[..k] + [edges[k]];
    }
  }

  lemma LevelEdgesAre(rows: seq<seq<Node>>, n: nat, i: nat, e: Edge)
    requires Ancestries(rows, n) && i < n
    ensures e in LevelEdges(rows, n, i) <==> LevelHas(rows, e, i)
  {
    var pairs := seq(|rows|, k requires 0 <= k < |rows| => LevelEdge(rows[k], i));
    DistinctSame(pairs, e);
    if e in pairs {
      var k :| 0 <= k < |rows| && pairs[k] == e;
      assert EdgeOf(rows, e, i, rows[k]);
    }
    if r :| EdgeOf(rows, e, i, r) {
      var k :| 0 <= k < |rows| && rows[k] == r;
      assert pairs[k] == e;
    }
  }

  lemma EitherLevel(rows: seq<seq<Node>>, n: nat, i: nat, e: Edge)
    requires Ancestries(rows, n) && 0 < i < n
    ensures e in EdgesFrom(rows, n, i) <==> e in LevelEdges(rows, n, i) || e in EdgesFrom(rows, n, i - 1)
  {
    var deepest, rest := LevelEdges(rows, n, i), EdgesFrom(rows, n, i - 1);
    assert e in deepest + rest <==> e in deepest || e in rest;
  }

  ghost predicate LevelUpTo(rows: seq<seq<Node>>, e: Edge, i: int) {
    exists j :: j <= i && LevelHas(rows, e, j)
  }

  lemma OneLevelMore(rows: seq<seq<Node>>, e: Edge, i: nat)
    ensures LevelUpTo(rows, e, i) <==> LevelHas(rows, e, i) || (i > 0 && LevelUpTo(rows, e, i - 1))
  {
    if j :| j <= i && LevelHas(rows, e, j) {
      var r :| EdgeOf(rows, e, j, r);
      var above := i - 1;
      assert j == i || j <= above;
    }
  }

  lemma {:induction false} EdgesFromAre(rows: seq<seq<Node>>, n: nat, i: nat, e: Edge)
    requires Ancestries(rows, n) && i < n
    ensures e in EdgesFrom(rows, n, i) <==> LevelUpTo(rows, e, i)
  {
    LevelEdgesAre(rows, n, i, e);
    if i > 0 {
      var above := i - 1;
      EdgesFromAre(rows, n, above, e);
      EitherLevel(rows, n, i, e);
    }
    OneLevelMore(rows, e, i);
  }

  lemma LevelExists(rows: seq<seq<Node>>, n: nat, e: Edge)
    requires Ancestries(rows, n)
    ensures LevelUpTo(rows, e, n - 1) <==> exists j :: LevelHas(rows, e, j)
  {
    if j :| LevelHas(rows, e, j) {
      var r :| EdgeOf(rows, e, j, r);
      assert j <= n - 1;
    }
  }

  lemma EdgesAre(rows: seq<seq<Node>>, n: nat, e: Edge)
    requires Ancestries(rows, n)
    ensures e in Edges(rows, n) <==> exists j :: LevelHas(rows, e, j)
  {
    var last := n - 1;
    EdgesFromAre(rows, n, last, e);
    LevelExists(rows, n, e);
  }

  lemma EdgeListed(rows: seq<seq<Node>>, n: nat, r: seq<Node>, i: nat)
    requires Ancestries(rows, n) && r in rows && i < n
    ensures LevelEdge(r, i) in Edges(rows, n)
  {
    var e := LevelEdge(r, i);
    assert EdgeOf(rows, e, i, r);
    assert LevelHas(rows, e, i);
    EdgesAre(rows, n, e);
  }

  lemma OneMore(edges: seq<Edge>, a: Node, e: Edge)
    requires Reaches(edges, a, e.child) && e in edges
    ensures Reaches(edges, a, e.parent)
  {
    var walk :| WalkFrom(edges, a, e.child, walk);
    var longer := walk + [e.parent];
    forall i | 0 <= i < |longer| - 1
      ensures Edge(longer[i], longer[i + 1]) in edges
    {
      if i < |walk| - 1 {
        assert Edge(walk[i], walk[i + 1]) in edges;
      }
    }
    assert WalkFrom(edges, a, e.parent, longer);
  }

  /** From its own leaf, a row's edges climb through its levels, one after another. */
  lemma {:induction false} ClimbsOwnLevels(rows: seq<seq<Node>>, n: nat, r: seq<Node>, i: nat)
    requires Ancestries(rows, n) && r in rows && i < n
    ensures Reaches(Edges(rows, n), r[n - 1], r[i])
    decreases n - i
  {
    if i == n - 1 {
      assert WalkFrom(Edges(rows, n), r[n - 1], r[i], [r[i]]);
    } else {
      ClimbsOwnLevels(rows, n, r, i + 1);
      EdgeListed(rows, n, r, i + 1);
      OneMore(Edges(rows, n), r[n - 1], LevelEdge(r, i + 1));
    }
  }

  lemma LeafListed(rows: seq<seq<Node>>, n: nat, leaf: Node)
    requires Ancestries(rows, n)
    ensures leaf in Leaves(rows, n) <==> HasLeaf(rows, n, leaf)
  {
    if leaf in Leaves(rows, n) {
      var k :| 0 <= k < |rows| && Leaves(rows, n)[k] == leaf;
      assert AtLevel(rows, n, leaf, leaf, n - 1, rows[k]);
    }
    if HasLeaf(rows, n, leaf) {
      var r :| AtLevel(rows, n, leaf, leaf, n - 1, r);
      var k :| 0 <= k < |rows| && rows[k] == r;
      assert Leaves(rows, n)[k] == leaf;
    }
  }

  lemma RootReached(rows: seq<seq<Node>>, n: nat, r: seq<Node>)
    requires Ancestries(rows, n) && r in rows
    ensures Reaches(Edges(rows, n), r[n - 1], ROOT)
  {
    ClimbsOwnLevels(rows, n, r, 0);
    EdgeListed(rows, n, r, 0);
    OneMore(Edges(rows, n), r[n - 1], LevelEdge(r, 0));
  }

  lemma AncestriesCovered(rows: seq<seq<Node>>, n: nat, node: Node, leaf: Node)
    requires Ancestries(rows, n) && Projected(rows, n, node, leaf)
    ensures (node, leaf) in RollupPairs(Leaves(rows, n), Edges(rows, n))
  {
    if node == ROOT {
      var r :| AtLevel(rows, n, leaf, leaf, n - 1, r);
      RootReached(rows, n, r);
    } else {
      var i :| HasAncestor(rows, n, leaf, node, i);
      var r :| AtLevel(rows, n, leaf, node, i, r);
      assert AtLevel(rows, n, leaf, leaf, n - 1, r);
      ClimbsOwnLevels(rows, n, r, i);
    }
    LeafListed(rows, n, leaf);
    RollupIsReachability(Leaves(rows, n), Edges(rows, n), node, leaf);
  }

  // ----- When the closure adds nothing -----------------------------------------------------------

  /** The same id at different levels. */
  predicate Clash(r: seq<Node>, q: seq<Node>, i: int, j: int) {
    0 <= i < |r| && 0 <= j < |q| && r[i] == q[j] && i != j
  }

  /** Ids of different levels are different, and none is the root's. */
  ghost predicate NoCollisions(rows: seq<seq<Node>>, n: nat)
    requires Ancestries(rows, n)
  {
    && (forall r, i :: r in rows && 0 <= i < n ==> r[i] != ROOT)
    && (forall r, q, i, j {:trigger Clash(r, q, i, j)} :: r in rows && q in rows ==> !Clash(r, q, i, j))
  }

  /** Rows `r` and `q` share a value at level `i` where `q` may give it another parent. */
  predicate Share(rows: seq<seq<Node>>, n: nat, r: seq<Node>, q: seq<Node>, i: int)
    requires Ancestries(rows, n)
  {
    r in rows && q in rows && 1 <= i < n && r[i] == q[i]
  }

  /**
   * Each parent that any row gives a value is also an ancestor, by some row, of every leaf below it.
   * It holds in particular when each level's value determines its parent's.
   */
  ghost predicate ParentsAgree(rows: seq<seq<Node>>, n: nat)
    requires Ancestries(rows, n)
  {
    forall r, q, i {:trigger Share(rows, n, r, q, i)} ::
      Share(rows, n, r, q, i) ==> HasAncestor(rows, n, r[n - 1], q[i - 1], i - 1)
  }

  /** One edge up from an ancestor of a leaf's own rows leads to another one. */
  lemma EdgeStaysProjected(rows: seq<seq<Node>>, n: nat, leaf: Node, e: Edge)
    requires Ancestries(rows, n) && NoCollisions(rows, n) && ParentsAgree(rows, n)
    requires e in Edges(rows, n) && HasLeaf(rows, n, leaf) && Projected(rows, n, e.child, leaf)
    ensures Projected(rows, n, e.parent, leaf)
  {
    EdgesAre(rows, n, e);
    var j :| LevelHas(rows, e, j);
    var q :| EdgeOf(rows, e, j, q);
    assert q[j] == e.child && q[j] != ROOT;
    var i :| HasAncestor(rows, n, leaf, e.child, i);
    LevelIsKnown(rows, n, leaf, e.child, i, q, j);
    if j > 0 {
      SharedParent(rows, n, leaf, q, j);
    }
  }

  /** The parent that row `q` gives its value at level `j` is an ancestor of every leaf below the value. */
  lemma SharedParent(rows: seq<seq<Node>>, n: nat, leaf: Node, q: seq<Node>, j: int)
    requires Ancestries(rows, n) && ParentsAgree(rows, n) && q in rows && 1 <= j < n
    requires HasAncestor(rows, n, leaf, q[j], j)
    ensures HasAncestor(rows, n, leaf, q[j - 1], j - 1)
  {
    var r :| AtLevel(rows, n, leaf, q[j], j, r);
    assert Share(rows, n, r, q, j);
  }

  /** Walking up from a leaf stays among the ancestors of that leaf's own rows. */
  lemma {:induction false} WalkStaysProjected(rows: seq<seq<Node>>, n: nat, leaf: Node, node: Node, walk: seq<Node>)
    requires Ancestries(rows, n) && NoCollisions(rows, n) && ParentsAgree(rows, n)
    requires WalkFrom(Edges(rows, n), leaf, node, walk) && HasLeaf(rows, n, leaf)
    ensures Projected(rows, n, node, leaf)
    decreases |walk|
  {
    var m := |walk| - 1;
    if m > 0 {
      var front := walk[..m];
      assert forall i :: 0 <= i < m - 1 ==> Edge(front[i], front[i + 1]) == Edge(walk[i], walk[i + 1]);
      WalkStaysProjected(rows, n, leaf, walk[m - 1], front);
      EdgeStaysProjected(rows, n, leaf, Edge(walk[m - 1], walk[m - 1 + 1]));
    }
  }

  /** Two rows that share a value make the leaf of one reach the parent in the other. */
  lemma ReachesSharedParent(rows: seq<seq<Node>>, n: nat, r: seq<Node>, q: seq<Node>, i: int)
    requires Ancestries(rows, n) && Share(rows, n, r, q, i)
    ensures (q[i - 1], r[n - 1]) in RollupPairs(Leaves(rows, n), Edges(rows, n))
  {
    var leaf := r[n - 1];
    ClimbsOwnLevels(rows, n, r, i);
    EdgeListed(rows, n, q, i);
    OneMore(Edges(rows, n), leaf, LevelEdge(q, i));
    assert AtLevel(rows, n, leaf, leaf, n - 1, r);
    LeafListed(rows, n, leaf);
    RollupIsReachability(Leaves(rows, n), Edges(rows, n), q[i - 1], leaf);
  }

  /** A value that none of the leaf's own rows has at its level is not projected for the leaf. */
  lemma OtherwiseUnknown(rows: seq<seq<Node>>, n: nat, leaf: Node, q: seq<Node>, i: int)
    requires Ancestries(rows, n) && NoCollisions(rows, n) && q in rows && 0 <= i < n
    requires !HasAncestor(rows, n, leaf, q[i], i)
    ensures !Projected(rows, n, q[i], leaf)
  {
    forall j | HasAncestor(rows, n, leaf, q[i], j)
      ensures j == i
    {
      LevelIsKnown(rows, n, leaf, q[i], j, q, i);
    }
  }

  lemma LevelIsKnown(rows: seq<seq<Node>>, n: nat, leaf: Node, node: Node, j: int, q: seq<Node>, i: int)
    requires Ancestries(rows, n) && NoCollisions(rows, n) && HasAncestor(rows, n, leaf, node, j)
    requires q in rows && 0 <= i < n && q[i] == node
    ensures j == i
  {
    var t :| AtLevel(rows, n, leaf, node, j, t);
    assert !Clash(t, q, j, i);
  }

  lemma AncestriesProjected(rows: seq<seq<Node>>, n: nat)
    requires Ancestries(rows, n) && NoCollisions(rows, n)
    ensures ParentsAgree(rows, n) <==>
            forall node, leaf ::
              (node, leaf) in RollupPairs(Leaves(rows, n), Edges(rows, n)) <==> Projected(rows, n, node, leaf)
  {
    if ParentsAgree(rows, n) {
      forall node, leaf
        ensures (node, leaf) in RollupPairs(Leaves(rows, n), Edges(rows, n)) <==> Projected(rows, n, node, leaf)
      {
        if Projected(rows, n, node, leaf) {
          AncestriesCovered(rows, n, node, leaf);
        }
        RollupIsReachability(Leaves(rows, n), Edges(rows, n), node, leaf);
        LeafListed(rows, n, leaf);
        if leaf in Leaves(rows, n) && Reaches(Edges(rows, n), leaf, node) {
          var walk :| WalkFrom(Edges(rows, n), leaf, node, walk);
          WalkStaysProjected(rows, n, leaf, node, walk);
        }
      }
    } else {
      var r, q, i :| Share(rows, n, r, q, i) && !HasAncestor(rows, n, r[n - 1], q[i - 1], i - 1);
      var above := i - 1;
      OtherwiseUnknown(rows, n, r[n - 1], q, above);
      ReachesSharedParent(rows, n, r, q, i);
    }
  }

  // ----- The leaf table's columns ----------------------------------------------------------------

  /** The last level is the leaf itself, unprefixed, read from the leaf key. */
  predicate LeafLast(levels: seq<Level>, leafKey: string) {
    levels != [] && levels[|levels| - 1] == Level("", leafKey)
  }

  function TableLeaves(table: seq<TableRow>, leafKey: string): (leaves: seq<Node>)
    ensures |leaves| == |table| && forall k :: 0 <= k < |table| ==> leaves[k] == Cell(table[k], leafKey)
  {
    seq(|table|, k requires 0 <= k < |table| => Cell(table[k], leafKey))
  }

  /** The recursive rollup over the generated edges. */
  function TableClosure(levels: seq<Level>, table: seq<TableRow>, leafKey: string): set<(Node, Node)>
    requires levels != []
  {
    RollupPairs(TableLeaves(table, leafKey), TableEdges(levels, table))
  }

  predicate RowHas(levels: seq<Level>, row: TableRow, leafKey: string, node: Node, leaf: Node) {
    && Cell(row, leafKey) == leaf
    && (node == ROOT || exists i :: 0 <= i < |levels| && NodeId(levels[i], row) == node)
  }

  /** The former derivation, row by row: `leaf` has a row one of whose levels is `node`, or `node` is the root. */
  ghost predicate Descends(levels: seq<Level>, table: seq<TableRow>, leafKey: string, node: Node, leaf: Node) {
    exists k :: 0 <= k < |table| && RowHas(levels, table[k], leafKey, node, leaf)
  }

  predicate ApartAt(levels: seq<Level>, r: TableRow, q: TableRow, i: nat, j: nat)
    requires i < |levels| && j < |levels|
  {
    NodeId(levels[i], r) != ROOT && (NodeId(levels[i], r) == NodeId(levels[j], q) ==> i == j)
  }

  /** Ids of different levels are different, and none is the root's. */
  predicate IdsApart(levels: seq<Level>, table: seq<TableRow>) {
    forall k, m, i, j {:trigger ApartAt(levels, table[k], table[m], i, j)} ::
      0 <= k < |table| && 0 <= m < |table| && 0 <= i < |levels| && 0 <= j < |levels| ==>
      ApartAt(levels, table[k], table[m], i, j)
  }

  /** Rows `r` and `q` have the same value at level `i`. */
  predicate SameCell(levels: seq<Level>, r: TableRow, q: TableRow, i: int) {
    0 <= i < |levels| && Cell(r, levels[i].column) == Cell(q, levels[i].column)
  }

  /** Rows `r` and `q` have the same value at the level above level `i`. */
  predicate SameParent(levels: seq<Level>, r: TableRow, q: TableRow, i: int) {
    1 <= i < |levels| && Cell(r, levels[i - 1].column) == Cell(q, levels[i - 1].column)
  }

  /** Some row of the same leaf as `r` has the parent that `q` gives its value at level `i`. */
  predicate LeafHasParent(
    levels: seq<Level>, table: seq<TableRow>, leafKey: string, r: TableRow, q: TableRow, i: int)
  {
    exists k :: 0 <= k < |table| && Cell(table[k], leafKey) == Cell(r, leafKey) && SameParent(levels, table[k], q, i)
  }

  /** Rows that share a value agree on its parent, up to the other rows of the same leaf. */
  predicate CellsAgree(levels: seq<Level>, table: seq<TableRow>, leafKey: string) {
    forall k, m, i {:trigger SameCell(levels, table[k], table[m], i)} ::
      0 <= k < |table| && 0 <= m < |table| && 1 <= i < |levels| && SameCell(levels, table[k], table[m], i) ==>
        LeafHasParent(levels, table, leafKey, table[k], table[m], i)
  }

  /** Each level's value determines the value of the level above. */
  predicate CellDeterminesParent(levels: seq<Level>, table: seq<TableRow>) {
    forall k, m, i {:trigger SameCell(levels, table[k], table[m], i)} ::
      0 <= k < |table| && 0 <= m < |table| && 1 <= i < |levels| && SameCell(levels, table[k], table[m], i) ==>
        SameParent(levels, table[k], table[m], i)
  }

  lemma SameIdIsSameCell(level: Level, r: TableRow, q: TableRow)
    ensures NodeId(level, r) == NodeId(level, q) <==> Cell(r, level.column) == Cell(q, level.column)
  {
    assert NodeId(level, r)[|level.prefix|..] == Cell(r, level.column);
    assert NodeId(level, q)[|level.prefix|..] == Cell(q, level.column);
  }

  lemma LastIdIsLeaf(levels: seq<Level>, leafKey: string, row: TableRow)
    requires LeafLast(levels, leafKey)
    ensures Ancestry(levels, row)[|levels| - 1] == Cell(row, leafKey)
  {
    assert "" + Cell(row, leafKey) == Cell(row, leafKey);
  }

  lemma TableLeavesAre(levels: seq<Level>, table: seq<TableRow>, leafKey: string)
    requires LeafLast(levels, leafKey)
    ensures Leaves(TableAncestries(levels, table), |levels|) == TableLeaves(table, leafKey)
  {
    forall k | 0 <= k < |table|
      ensures Ancestry(levels, table[k])[|levels| - 1] == Cell(table[k], leafKey)
    {
      LastIdIsLeaf(levels, leafKey, table[k]);
    }
  }

  lemma AncestorIsRow(
    levels: seq<Level>, table: seq<TableRow>, leafKey: string, leaf: Node, node: Node, i: int)
    requires LeafLast(levels, leafKey)
    ensures HasAncestor(TableAncestries(levels, table), |levels|, leaf, node, i) <==>
            exists k :: 0 <= k < |table| && 0 <= i < |levels| && Cell(table[k], leafKey) == leaf
                        && NodeId(levels[i], table[k]) == node
  {
    var rows, n := TableAncestries(levels, table), |levels|;
    if HasAncestor(rows, n, leaf, node, i) {
      var t :| AtLevel(rows, n, leaf, node, i, t);
      var k :| 0 <= k < |rows| && rows[k] == t;
      LastIdIsLeaf(levels, leafKey, table[k]);
    }
    if k :| 0 <= k < |table| && 0 <= i < |levels| && Cell(table[k], leafKey) == leaf
            && NodeId(levels[i], table[k]) == node {
      LastIdIsLeaf(levels, leafKey, table[k]);
      assert AtLevel(rows, n, leaf, node, i, rows[k]);
    }
  }

  lemma ProjectedIsDescends(levels: seq<Level>, table: seq<TableRow>, leafKey: string, node: Node, leaf: Node)
    requires LeafLast(levels, leafKey)
    ensures Projected(TableAncestries(levels, table), |levels|, node, leaf) <==>
            Descends(levels, table, leafKey, node, leaf)
  {
    var rows, n := TableAncestries(levels, table), |levels|;
    AncestorIsRow(levels, table, leafKey, leaf, leaf, n - 1);
    if Descends(levels, table, leafKey, node, leaf) {
      var k :| 0 <= k < |table| && RowHas(levels, table[k], leafKey, node, leaf);
      LastIdIsLeaf(levels, leafKey, table[k]);
      if node != ROOT {
        var i :| 0 <= i < |levels| && NodeId(levels[i], table[k]) == node;
        AncestorIsRow(levels, table, leafKey, leaf, node, i);
      }
    }
    if Projected(rows, n, node, leaf) && node != ROOT {
      var i :| HasAncestor(rows, n, leaf, node, i);
      AncestorIsRow(levels, table, leafKey, leaf, node, i);
      var k :| 0 <= k < |table| && Cell(table[k], leafKey) == leaf && NodeId(levels[i], table[k]) == node;
      assert RowHas(levels, table[k], leafKey, node, leaf);
    }
    if Projected(rows, n, node, leaf) && node == ROOT {
      var k :| 0 <= k < |table| && Cell(table[k], leafKey) == leaf;
      assert RowHas(levels, table[k], leafKey, node, leaf);
    }
  }

  lemma ApartIsNoCollision(levels: seq<Level>, table: seq<TableRow>)
    requires levels != [] && IdsApart(levels, table)
    ensures NoCollisions(TableAncestries(levels, table), |levels|)
  {
    var rows, n := TableAncestries(levels, table), |levels|;
    forall r, i | r in rows && 0 <= i < n
      ensures r[i] != ROOT
    {
      var k :| 0 <= k < |rows| && rows[k] == r;
      assert ApartAt(levels, table[k], table[k], i, i);
    }
    forall r, q, i, j | r in rows && q in rows
      ensures !Clash(r, q, i, j)
    {
      NoClash(levels, table, r, q, i, j);
    }
  }

  lemma NoClash(levels: seq<Level>, table: seq<TableRow>, r: seq<Node>, q: seq<Node>, i: int, j: int)
    requires levels != [] && IdsApart(levels, table)
    requires r in TableAncestries(levels, table) && q in TableAncestries(levels, table)
    ensures !Clash(r, q, i, j)
  {
    var rows := TableAncestries(levels, table);
    var k :| 0 <= k < |rows| && rows[k] == r;
    var m :| 0 <= m < |rows| && rows[m] == q;
    if 0 <= i < |levels| && 0 <= j < |levels| {
      assert ApartAt(levels, table[k], table[m], i, j);
    }
  }

  lemma AgreeAt(levels: seq<Level>, table: seq<TableRow>, leafKey: string, r: TableRow, q: TableRow, i: nat)
    requires LeafLast(levels, leafKey) && 1 <= i < |levels|
    ensures HasAncestor(TableAncestries(levels, table), |levels|, Cell(r, leafKey), NodeId(levels[i - 1], q), i - 1)
       <==> LeafHasParent(levels, table, leafKey, r, q, i)
  {
    var above := i - 1;
    AncestorIsRow(levels, table, leafKey, Cell(r, leafKey), NodeId(levels[above], q), above);
    forall k | 0 <= k < |table|
      ensures NodeId(levels[above], table[k]) == NodeId(levels[above], q) <==> SameParent(levels, table[k], q, i)
    {
      SameIdIsSameCell(levels[above], table[k], q);
    }
  }

  lemma AgreePair(levels: seq<Level>, table: seq<TableRow>, leafKey: string, k: nat, m: nat, i: nat)
    requires LeafLast(levels, leafKey) && k < |table| && m < |table| && 1 <= i < |levels|
    ensures var rows, n := TableAncestries(levels, table), |levels|;
            && (Share(rows, n, rows[k], rows[m], i) <==> SameCell(levels, table[k], table[m], i))
            && (HasAncestor(rows, n, rows[k][n - 1], rows[m][i - 1], i - 1)
                <==> LeafHasParent(levels, table, leafKey, table[k], table[m], i))
  {
    SameIdIsSameCell(levels[i], table[k], table[m]);
    LastIdIsLeaf(levels, leafKey, table[k]);
    AgreeAt(levels, table, leafKey, table[k], table[m], i);
  }

  lemma CellsAgreeAt(levels: seq<Level>, table: seq<TableRow>, leafKey: string, k: nat, m: nat, i: nat)
    requires LeafLast(levels, leafKey) && CellsAgree(levels, table, leafKey)
    requires k < |table| && m < |table| && 1 <= i < |levels| && SameCell(levels, table[k], table[m], i)
    ensures LeafHasParent(levels, table, leafKey, table[k], table[m], i)
  {
  }

  lemma CellsAgreeBetween(levels: seq<Level>, table: seq<TableRow>, leafKey: string, k: nat, m: nat, i: nat)
    requires LeafLast(levels, leafKey) && CellsAgree(levels, table, leafKey)
    requires k < |table| && m < |table| && 1 <= i < |levels| && SameCell(levels, table[k], table[m], i)
    ensures var rows, n := TableAncestries(levels, table), |levels|;
            HasAncestor(rows, n, rows[k][n - 1], rows[m][i - 1], i - 1)
  {
    CellsAgreeAt(levels, table, leafKey, k, m, i);
    AgreePair(levels, table, leafKey, k, m, i);
  }

  lemma SharedCell(levels: seq<Level>, table: seq<TableRow>, r: seq<Node>, q: seq<Node>, i: int)
    returns (k: nat, m: nat)
    requires levels != [] && Share(TableAncestries(levels, table), |levels|, r, q, i)
    ensures k < |table| && m < |table| && SameCell(levels, table[k], table[m], i)
    ensures r == TableAncestries(levels, table)[k] && q == TableAncestries(levels, table)[m]
  {
    var rows := TableAncestries(levels, table);
    k :| 0 <= k < |rows| && rows[k] == r;
    m :| 0 <= m < |rows| && rows[m] == q;
    SameIdIsSameCell(levels[i], table[k], table[m]);
  }

  lemma CellsAgreeShared(
    levels: seq<Level>, table: seq<TableRow>, leafKey: string, r: seq<Node>, q: seq<Node>, i: int)
    requires LeafLast(levels, leafKey) && CellsAgree(levels, table, leafKey)
    requires Share(TableAncestries(levels, table), |levels|, r, q, i)
    ensures HasAncestor(TableAncestries(levels, table), |levels|, r[|levels| - 1], q[i - 1], i - 1)
  {
    var k, m := SharedCell(levels, table, r, q, i);
    CellsAgreeBetween(levels, table, leafKey, k, m, i);
  }

  lemma CellsAgreeSuffices(levels: seq<Level>, table: seq<TableRow>, leafKey: string)
    requires LeafLast(levels, leafKey) && CellsAgree(levels, table, leafKey)
    ensures ParentsAgree(TableAncestries(levels, table), |levels|)
  {
    forall r, q, i | Share(TableAncestries(levels, table), |levels|, r, q, i)
      ensures HasAncestor(TableAncestries(levels, table), |levels|, r[|levels| - 1], q[i - 1], i - 1)
    {
      CellsAgreeShared(levels, table, leafKey, r, q, i);
    }
  }

  lemma CellsAgreeNeeded(levels: seq<Level>, table: seq<TableRow>, leafKey: string)
    requires LeafLast(levels, leafKey) && ParentsAgree(TableAncestries(levels, table), |levels|)
    ensures CellsAgree(levels, table, leafKey)
  {
    forall k, m, i | 0 <= k < |table| && 0 <= m < |table| && 1 <= i < |levels|
                   && SameCell(levels, table[k], table[m], i)
      ensures LeafHasParent(levels, table, leafKey, table[k], table[m], i)
    {
      AgreePair(levels, table, leafKey, k, m, i);
    }
  }

  /** Whatever the data: the closure contains the row-by-row projection, so `all` reaches every leaf. */
  lemma ClosureCovers(levels: seq<Level>, table: seq<TableRow>, leafKey: string, node: Node, leaf: Node)
    requires LeafLast(levels, leafKey) && Descends(levels, table, leafKey, node, leaf)
    ensures (node, leaf) in TableClosure(levels, table, leafKey)
  {
    TableLeavesAre(levels, table, leafKey);
    ProjectedIsDescends(levels, table, leafKey, node, leaf);
    AncestriesCovered(TableAncestries(levels, table), |levels|, node, leaf);
  }

  /** In terms of the columns: each row's leaf is reached from each of its prefixed ancestors, and from `all`. */
  lemma ClosureNames(levels: seq<Level>, table: seq<TableRow>, leafKey: string, k: nat, i: nat)
    requires LeafLast(levels, leafKey) && k < |table| && i < |levels|
    requires leafKey in table[k] && levels[i].column in table[k]
    ensures (levels[i].prefix + table[k][levels[i].column], table[k][leafKey]) in TableClosure(levels, table, leafKey)
    ensures ("all", table[k][leafKey]) in TableClosure(levels, table, leafKey)
  {
    var leaf, node := table[k][leafKey], NodeId(levels[i], table[k]);
    assert RowHas(levels, table[k], leafKey, node, leaf) && RowHas(levels, table[k], leafKey, ROOT, leaf);
    ClosureCovers(levels, table, leafKey, node, leaf);
    ClosureCovers(levels, table, leafKey, ROOT, leaf);
  }

  /** Without id collisions, the closure equals the projection if and only if the rows' parents agree. */
  lemma ClosureIsProjection(levels: seq<Level>, table: seq<TableRow>, leafKey: string)
    requires LeafLast(levels, leafKey) && IdsApart(levels, table)
    ensures CellsAgree(levels, table, leafKey) <==>
            forall node, leaf ::
              (node, leaf) in TableClosure(levels, table, leafKey) <==> Descends(levels, table, leafKey, node, leaf)
  {
    var rows, n := TableAncestries(levels, table), |levels|;
    TableLeavesAre(levels, table, leafKey);
    ApartIsNoCollision(levels, table);
    if CellsAgree(levels, table, leafKey) {
      CellsAgreeSuffices(levels, table, leafKey);
    } else if ParentsAgree(rows, n) {
      CellsAgreeNeeded(levels, table, leafKey);
    }
    forall node, leaf
      ensures Projected(rows, n, node, leaf) <==> Descends(levels, table, leafKey, node, leaf)
    {
      ProjectedIsDescends(levels, table, leafKey, node, leaf);
    }
    AncestriesProjected(rows, n);
  }

  lemma DependencyAgrees(levels: seq<Level>, table: seq<TableRow>, leafKey: string)
    requires CellDeterminesParent(levels, table)
    ensures CellsAgree(levels, table, leafKey)
  {
    forall k, m, i | 0 <= k < |table| && 0 <= m < |table| && 1 <= i < |levels|
                   && SameCell(levels, table[k], table[m], i)
      ensures LeafHasParent(levels, table, leafKey, table[k], table[m], i)
    {
      assert SameParent(levels, table[k], table[m], i);
    }
  }

  /** When each level's value determines its parent, the closure is the row-by-row projection. */
  lemma DependencyGivesProjection(
    levels: seq<Level>, table: seq<TableRow>, leafKey: string, node: Node, leaf: Node)
    requires LeafLast(levels, leafKey) && IdsApart(levels, table) && CellDeterminesParent(levels, table)
    ensures (node, leaf) in TableClosure(levels, table, leafKey) <==> Descends(levels, table, leafKey, node, leaf)
  {
    DependencyAgrees(levels, table, leafKey);
    ClosureIsProjection(levels, table, leafKey);
  }

  // ----- No edge twice ---------------------------------------------------------------------------

  lemma {:induction false} DistinctOnce(edges: seq<Edge>)
    ensures NoRepeats(Distinct(edges))
  {
    if edges != [] {
      DistinctOnce(edges[..|edges| - 1]);
    }
  }

  /** Edges of different levels have different children. */
  lemma LevelsApart(rows: seq<seq<Node>>, n: nat, e: Edge, i: nat, j: nat)
    requires Ancestries(rows, n) && NoCollisions(rows, n) && i < n && j < n
    requires LevelHas(rows, e, i) && LevelHas(rows, e, j)
    ensures i == j
  {
    var r :| EdgeOf(rows, e, i, r);
    var q :| EdgeOf(rows, e, j, q);
    assert !Clash(r, q, i, j);
  }

  lemma JoinOnce(a: seq<Edge>, b: seq<Edge>)
    requires NoRepeats(a) && NoRepeats(b) && forall e :: e in a ==> e !in b
    ensures NoRepeats(a + b)
  {
    forall i, j | 0 <= i < j < |a + b|
      ensures (a + b)[i] != (a + b)[j]
    {
      if i < |a| <= j {
        assert a[i] in a && b[j - |a|] in b;
      }
    }
  }

  lemma LevelIsNotLater(rows: seq<seq<Node>>, n: nat, i: nat, e: Edge)
    requires Ancestries(rows, n) && NoCollisions(rows, n) && i < n && LevelHas(rows, e, i)
    ensures !LevelUpTo(rows, e, i - 1)
  {
    if j :| j <= i - 1 && LevelHas(rows, e, j) {
      var r :| EdgeOf(rows, e, j, r);
      LevelsApart(rows, n, e, i, j);
    }
  }

  lemma LevelEdgesOnce(rows: seq<seq<Node>>, n: nat, i: nat)
    requires Ancestries(rows, n) && i < n
    ensures NoRepeats(LevelEdges(rows, n, i))
  {
    DistinctOnce(seq(|rows|, k requires 0 <= k < |rows| => LevelEdge(rows[k], i)));
  }

  lemma LevelThenRest(rows: seq<seq<Node>>, n: nat, i: nat, above: nat)
    requires Ancestries(rows, n) && NoCollisions(rows, n) && i < n && above == i - 1
    requires NoRepeats(EdgesFrom(rows, n, above))
    ensures NoRepeats(LevelEdges(rows, n, i) + EdgesFrom(rows, n, above))
  {
    var level, rest := LevelEdges(rows, n, i), EdgesFrom(rows, n, above);
    LevelEdgesOnce(rows, n, i);
    forall e | e in level
      ensures e !in rest
    {
      LevelEdgesAre(rows, n, i, e);
      LevelIsNotLater(rows, n, i, e);
      EdgesFromAre(rows, n, above, e);
    }
    JoinOnce(level, rest);
  }

  lemma {:induction false} EdgesFromOnce(rows: seq<seq<Node>>, n: nat, i: nat)
    requires Ancestries(rows, n) && NoCollisions(rows, n) && i < n
    ensures NoRepeats(EdgesFrom(rows, n, i))
  {
    if i == 0 {
      LevelEdgesOnce(rows, n, i);
    } else {
      var above := i - 1;
      EdgesFromOnce(rows, n, above);
      LevelThenRest(rows, n, i, above);
    }
  }

  /** Each generated edge is emitted once, however many rows of the leaf table have it. */
  lemma TableEdgesOnce(levels: seq<Level>, table: seq<TableRow>)
    requires levels != [] && IdsApart(levels, table)
    ensures NoRepeats(TableEdges(levels, table))
  {
    ApartIsNoCollision(levels, table);
    EdgesOnce(TableAncestries(levels, table), |levels|);
  }

  lemma EdgesOnce(rows: seq<seq<Node>>, n: nat)
    requires Ancestries(rows, n) && NoCollisions(rows, n)
    ensures NoRepeats(Edges(rows, n))
  {
    EdgesFromOnce(rows, n, n - 1);
  }

  /** So on a leaf table without repeated leaves the diamond check lists exactly the pairs with two paths. */
  lemma TableDiamonds(levels: seq<Level>, table: seq<TableRow>, leafKey: string, node: Node, leaf: Node)
    requires levels != [] && IdsApart(levels, table) && NoRepeats(TableLeaves(table, leafKey))
    ensures var leaves, edges := TableLeaves(table, leafKey), TableEdges(levels, table);
            Diamond(leaves, edges, node, leaf) <==>
              leaf in leaves && exists p, q ::
                SimplePath(edges, leaf, node, p) && SimplePath(edges, leaf, node, q) && p != q
  {
    TableEdgesOnce(levels, table);
    DiamondIsTwoPaths(TableLeaves(table, leafKey), TableEdges(levels, table), node, leaf);
  }
}
