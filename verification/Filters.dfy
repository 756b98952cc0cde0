// Dimension filters resolved to leaf ids per view column (precis_mcp/engine/filter_resolver.py).

module Filters {
  import opened Common

  datatype Result<+T> = Ok(value: T) | Err(error: Error)
  datatype Error = UnknownKey | NoStrategy | NoTransitive | NoLeafDimension | ZeroRecords

  /** `keyColumn` is set on leaf dimensions; `transitive` lists the leaves it resolves to, in order. */
  datatype Dimension = Dimension(
    key: string, keyColumn: Option<string>, derived: bool, ragged: bool, leaf: string, transitive: seq<string>)
  datatype CubeDimension = CubeDimension(key: string, source: string)
  datatype Catalogue = Catalogue(dims: map<string, Dimension>, domains: map<string, seq<CubeDimension>>)

  datatype Filter = Filter(key: string, value: string)

  /** What a filter resolves to: a leaf dimension, the view column it maps to, and leaf ids. */
  datatype Resolved = Resolved(leaf: string, column: string, ids: seq<string>)

  datatype Strategy = Leaf | Derived | Ragged

  function FindTarget(cat: Catalogue, key: string): Result<Strategy> {
    if key !in cat.dims then Err(UnknownKey)
    else if cat.dims[key].keyColumn.Some? then Ok(Leaf)
    else if cat.dims[key].derived then Ok(Derived)
    else if cat.dims[key].ragged then Ok(Ragged)
    else Err(NoStrategy)
  }

  function Bound(cubes: seq<CubeDimension>, key: string): Option<string> {
    if cubes == [] then None else if cubes[0].key == key then Some(cubes[0].source) else Bound(cubes[1..], key)
  }

  function MapToViewColumn(cat: Catalogue, domain: string, dim: Dimension): string {
    var lookup :=
      if dim.keyColumn.Some? then dim.key
      else if dim.derived || dim.ragged then
        (if dim.transitive != [] then dim.transitive[0] else if dim.ragged then dim.leaf else dim.key)
      else dim.key;
    var bound := if domain in cat.domains then Bound(cat.domains[domain], lookup) else None;
    if bound.Some? then bound.value
    else if lookup in cat.dims && cat.dims[lookup].keyColumn.Some? then cat.dims[lookup].keyColumn.value
    else lookup
  }

  /** What a filter key is resolved to, before any query: its strategy, leaf dimension and view column. */
  datatype Target = Target(strategy: Strategy, leaf: string, column: string)

  function TargetOf(cat: Catalogue, domain: string, key: string): Result<Target> {
    var strategy := FindTarget(cat, key);
    if strategy.Err? then Err(strategy.error)
    else
      var dim := cat.dims[key];
      var column := MapToViewColumn(cat, domain, dim);
      match strategy.value
      case Leaf => Ok(Target(Leaf, dim.key, column))
      case Derived => if dim.transitive == [] then Err(NoTransitive) else Ok(Target(Derived, dim.transitive[0], column))
      case Ragged =>
        if dim.leaf == "" then Err(NoLeafDimension)
        else if dim.leaf !in dim.transitive then Err(NoTransitive)
        else Ok(Target(Ragged, dim.leaf, column))
  }

  /** One filter; `rows` is what its query on the leaf table, or on the rollup view, returns. */
  function ResolveOne(cat: Catalogue, domain: string, key: string, rows: seq<string>): Result<Resolved> {
    var target := TargetOf(cat, domain, key);
    if target.Err? then Err(target.error)
    else if rows == [] then Err(ZeroRecords)
    else Ok(Resolved(target.value.leaf, target.value.column, rows))
  }

  /** Which keys can be filtered on, and what leaf dimension a filter on each narrows. */
  lemma TargetIs(cat: Catalogue, domain: string, key: string)
    ensures TargetOf(cat, domain, key).Ok? <==>
      && key in cat.dims
      && var dim := cat.dims[key];
         || dim.keyColumn.Some?
         || (dim.derived && dim.transitive != [])
         || (!dim.derived && dim.ragged && dim.leaf != "" && dim.leaf in dim.transitive)
    ensures TargetOf(cat, domain, key).Ok? ==>
      var dim := cat.dims[key];
      TargetOf(cat, domain, key).value.leaf ==
        if dim.keyColumn.Some? then dim.key else if dim.derived then dim.transitive[0] else dim.leaf
  {
  }

  lemma {:induction false} BoundAt(cubes: seq<CubeDimension>, key: string, i: nat)
    requires i < |cubes| && cubes[i].key == key && forall j :: 0 <= j < i ==> cubes[j].key != key
    ensures Bound(cubes, key) == Some(cubes[i].source)
  {
    if i > 0 {
      BoundAt(cubes[1..], key, i - 1);
    }
  }

  lemma {:induction false} NotBound(cubes: seq<CubeDimension>, key: string)
    requires forall i :: 0 <= i < |cubes| ==> cubes[i].key != key
    ensures Bound(cubes, key) == None
  {
    if cubes != [] {
      NotBound(cubes[1..], key);
    }
  }

  /** The first leaf dimension that a ragged key resolves to is the one it is declared over. */
  predicate LeafFirst(cat: Catalogue, key: string)
    requires key in cat.dims
  {
    var dim := cat.dims[key];
    dim.keyColumn.Some? || dim.derived || (dim.transitive != [] && dim.transitive[0] == dim.leaf)
  }

  /** A leaf dimension that is bound in the domain is filtered on the column it is bound to. */
  lemma BoundColumn(cat: Catalogue, domain: string, key: string, i: nat)
    requires TargetOf(cat, domain, key).Ok? && LeafFirst(cat, key)
    requires domain in cat.domains && i < |cat.domains[domain]|
    requires cat.domains[domain][i].key == TargetOf(cat, domain, key).value.leaf
    requires forall j :: 0 <= j < i ==> cat.domains[domain][j].key != TargetOf(cat, domain, key).value.leaf
    ensures TargetOf(cat, domain, key).value.column == cat.domains[domain][i].source
  {
    BoundAt(cat.domains[domain], TargetOf(cat, domain, key).value.leaf, i);
  }

  /** One that is not is filtered on its own key column. */
  lemma UnboundColumn(cat: Catalogue, domain: string, key: string)
    requires TargetOf(cat, domain, key).Ok? && LeafFirst(cat, key)
    requires domain in cat.domains ==>
      forall i :: 0 <= i < |cat.domains[domain]| ==>
        cat.domains[domain][i].key != TargetOf(cat, domain, key).value.leaf
    ensures var leaf := TargetOf(cat, domain, key).value.leaf;
            TargetOf(cat, domain, key).value.column ==
              if leaf in cat.dims && cat.dims[leaf].keyColumn.Some? then cat.dims[leaf].keyColumn.value else leaf
  {
    if domain in cat.domains {
      NotBound(cat.domains[domain], TargetOf(cat, domain, key).value.leaf);
    }
  }

  // ----- What the resolved filters mean ----------------------------------------------------------

  /** A row of the source view: the text of its non-null columns. */
  type Row = map<string, string>

  predicate Meets(row: Row, r: Resolved) {
    r.column in row && row[r.column] in r.ids
  }

  /** A row passes column by column: every listed column holds one of its listed ids. */
  predicate Admits(boxes: map<string, seq<string>>, row: Row) {
    forall c :: c in boxes ==> c in row && row[c] in boxes[c]
  }

  /** Filters on one leaf dimension map to one column, and filters on different ones to different columns. */
  predicate Consistent(rs: seq<Resolved>) {
    forall i, j :: 0 <= i < |rs| && 0 <= j < |rs| ==> (rs[i].leaf == rs[j].leaf <==> rs[i].column == rs[j].column)
  }

  predicate MeetsAll(row: Row, rs: seq<Resolved>) {
    forall i :: 0 <= i < |rs| ==> Meets(row, rs[i])
  }

  /** Every filter on `leaf` lists `id`. */
  predicate InAll(rs: seq<Resolved>, leaf: string, id: string) {
    forall i :: 0 <= i < |rs| && rs[i].leaf == leaf ==> id in rs[i].ids
  }

  predicate Filtered(rs: seq<Resolved>, leaf: string) {
    exists i :: 0 <= i < |rs| && rs[i].leaf == leaf
  }

  /** The leaf dimensions filtered, in order of first filter. */
  function Leaves(rs: seq<Resolved>): seq<string> {
    if rs == [] then []
    else
      var before := Leaves(rs[..|rs| - 1]);
      if rs[|rs| - 1].leaf in before then before else before + [rs[|rs| - 1].leaf]
  }

  /** The column of the first filter on `leaf`. */
  function ColumnOf(rs: seq<Resolved>, leaf: string): string {
    if rs == [] then "" else if rs[0].leaf == leaf then rs[0].column else ColumnOf(rs[1..], leaf)
  }

  /** For each column, the leaf dimension that is written there last. */
  function Winners(rs: seq<Resolved>, leaves: seq<string>): map<string, string> {
    if leaves == [] then map[]
    else
      var leaf := leaves[|leaves| - 1];
      Winners(rs, leaves[..|leaves| - 1])[ColumnOf(rs, leaf) := leaf]
  }

  /** The result of `resolve_filters`: each column lists the ids that every filter of its winner lists. */
  ghost predicate IsBoxes(rs: seq<Resolved>, leaves: seq<string>, boxes: map<string, seq<string>>) {
    && boxes.Keys == Winners(rs, leaves).Keys
    && forall c :: c in boxes ==> BoxIs(rs, Winners(rs, leaves)[c], boxes[c])
  }

  ghost predicate BoxIs(rs: seq<Resolved>, leaf: string, box: seq<string>) {
    forall id :: id in box <==> InAll(rs, leaf, id)
  }

  // ----- The loops -------------------------------------------------------------------------------

  predicate InEvery(sets: seq<set<string>>, id: string) {
    forall i :: 0 <= i < |sets| ==> id in sets[i]
  }

  /** The dictionaries of the first loop, after the filters `rs`. */
  ghost predicate Accumulated(
    leafSets: map<string, seq<set<string>>>, columns: map<string, string>, rs: seq<Resolved>)
  {
    && (forall leaf :: leaf in leafSets <==> leaf in Leaves(rs))
    && columns.Keys == leafSets.Keys
    && (forall leaf {:trigger LeafIs(leafSets, columns, rs, leaf)} ::
          leaf in leafSets ==> LeafIs(leafSets, columns, rs, leaf))
  }

  ghost predicate LeafIs(
    leafSets: map<string, seq<set<string>>>, columns: map<string, string>, rs: seq<Resolved>, leaf: string)
  {
    && leaf in leafSets && leaf in columns && leafSets[leaf] != [] && columns[leaf] == ColumnOf(rs, leaf)
    && forall id :: InEvery(leafSets[leaf], id) <==> InAll(rs, leaf, id)
  }

  lemma {:induction false} LeavesAre(rs: seq<Resolved>)
    ensures forall leaf :: leaf in Leaves(rs) <==> Filtered(rs, leaf)
    ensures forall i, j :: 0 <= i < j < |Leaves(rs)| ==> Leaves(rs)[i] != Leaves(rs)[j]
  {
    if rs != [] {
      var n := |rs| - 1;
      LeavesAre(rs[..n]);
      forall leaf
        ensures Filtered(rs, leaf) <==> Filtered(rs[..n], leaf) || rs[n].leaf == leaf
      {
        if i :| 0 <= i < |rs| && rs[i].leaf == leaf && i < n {
          assert rs[..n][i].leaf == leaf;
        }
      }
    }
  }

  lemma {:induction false} ColumnOfAppend(rs: seq<Resolved>, r: Resolved, leaf: string)
    ensures ColumnOf(rs + [r], leaf) == if Filtered(rs, leaf) then ColumnOf(rs, leaf)
                                        else if r.leaf == leaf then r.column else ""
  {
    if rs != [] {
      assert (rs + [r])[1..] == rs[1..] + [r];
      ColumnOfAppend(rs[1..], r, leaf);
      assert Filtered(rs, leaf) <==> rs[0].leaf == leaf || Filtered(rs[1..], leaf) by {
        if i :| 0 < i < |rs| && rs[i].leaf == leaf {
          assert rs[1..][i - 1].leaf == leaf;
        }
      }
    }
  }

  lemma InAllAppend(rs: seq<Resolved>, r: Resolved, leaf: string, id: string)
    ensures InAll(rs + [r], leaf, id) <==> InAll(rs, leaf, id) && (r.leaf == leaf ==> id in r.ids)
  {
    var more := rs + [r];
    assert more[|rs|] == r;
    assert forall i :: 0 <= i < |rs| ==> more[i] == rs[i];
  }

  lemma LeavesAppend(rs: seq<Resolved>, r: Resolved)
    ensures Leaves(rs + [r]) == if r.leaf in Leaves(rs) then Leaves(rs) else Leaves(rs) + [r.leaf]
  {
    assert (rs + [r])[..|rs|] == rs;
  }

  function IdSet(ids: seq<string>): set<string> {
    set id | id in ids
  }

  lemma InEveryAppend(sets: seq<set<string>>, s: set<string>, id: string)
    ensures InEvery(sets + [s], id) <==> InEvery(sets, id) && id in s
  {
    var more := sets + [s];
    assert more[|sets|] == s;
    assert forall i :: 0 <= i < |sets| ==> more[i] == sets[i];
  }

  lemma AccumulateOne(
    leafSets: map<string, seq<set<string>>>, columns: map<string, string>, rs: seq<Resolved>, r: Resolved)
    requires Accumulated(leafSets, columns, rs)
    ensures var sets := if r.leaf in leafSets then leafSets[r.leaf] else [];
            var columnsAfter := if r.leaf in columns then columns else columns[r.leaf := r.column];
            Accumulated(leafSets[r.leaf := sets + [IdSet(r.ids)]], columnsAfter, rs + [r])
  {
    var sets := if r.leaf in leafSets then leafSets[r.leaf] else [];
    var leafSetsAfter := leafSets[r.leaf := sets + [IdSet(r.ids)]];
    var columnsAfter := if r.leaf in columns then columns else columns[r.leaf := r.column];
    LeavesAppend(rs, r);
    forall leaf | leaf in leafSetsAfter
      ensures LeafIs(leafSetsAfter, columnsAfter, rs + [r], leaf)
    {
      AccumulateLeaf(leafSets, columns, rs, r, leaf);
    }
  }

  lemma AccumulateLeaf(
    leafSets: map<string, seq<set<string>>>, columns: map<string, string>, rs: seq<Resolved>, r: Resolved,
    leaf: string)
    requires Accumulated(leafSets, columns, rs) && (leaf in leafSets || leaf == r.leaf)
    ensures var sets := if r.leaf in leafSets then leafSets[r.leaf] else [];
            var columnsAfter := if r.leaf in columns then columns else columns[r.leaf := r.column];
            LeafIs(leafSets[r.leaf := sets + [IdSet(r.ids)]], columnsAfter, rs + [r], leaf)
  {
    var sets := if r.leaf in leafSets then leafSets[r.leaf] else [];
    var leafSetsAfter := leafSets[r.leaf := sets + [IdSet(r.ids)]];
    LeavesAre(rs);
    ColumnOfAppend(rs, r, leaf);
    if leaf in leafSets {
      assert LeafIs(leafSets, columns, rs, leaf);
    } else {
      NoneFiltered(rs, leaf);
    }
    forall id
      ensures InEvery(leafSetsAfter[leaf], id) <==> InAll(rs + [r], leaf, id)
    {
      InAllAppend(rs, r, leaf, id);
      InEveryAppend(sets, IdSet(r.ids), id);
    }
  }

  lemma NoneFiltered(rs: seq<Resolved>, leaf: string)
    requires !Filtered(rs, leaf)
    ensures forall id :: InAll(rs, leaf, id)
  {
  }

  /** The tail of the first loop: one resolved filter joins its leaf dimension's sets. */
  method Accumulate(
    leafSets0: map<string, seq<set<string>>>, columns0: map<string, string>, order0: seq<string>,
    ghost rs: seq<Resolved>, r: Resolved)
    returns (leafSets: map<string, seq<set<string>>>, columns: map<string, string>, order: seq<string>)
    requires order0 == Leaves(rs) && Accumulated(leafSets0, columns0, rs)
    ensures order == Leaves(rs + [r]) && Accumulated(leafSets, columns, rs + [r])
  {
    leafSets, columns, order := leafSets0, columns0, order0;
    AccumulateOne(leafSets, columns, rs, r);
    LeavesAppend(rs, r);
    if r.leaf !in columns {
      columns := columns[r.leaf := r.column];
    }
    if r.leaf !in leafSets {
      leafSets := leafSets[r.leaf := []];
      order := order + [r.leaf];
    }
    leafSets := leafSets[r.leaf := leafSets[r.leaf] + [IdSet(r.ids)]];
    ghost var sets := if r.leaf in leafSets0 then leafSets0[r.leaf] else [];
    assert leafSets == leafSets0[r.leaf := sets + [IdSet(r.ids)]];
  }

  /** `sets[0]`, intersected with the rest. */
  method Intersection(sets: seq<set<string>>) returns (ids: set<string>)
    requires sets != []
    ensures forall id :: id in ids <==> InEvery(sets, id)
  {
    ids := sets[0];
    for i := 1 to |sets|
      invariant forall id :: id in ids <==> InEvery(sets[..i], id)
    {
      assert sets[..i + 1] == sets[..i] + [sets[i]];
      forall id
        ensures InEvery(sets[..i + 1], id) <==> InEvery(sets[..i], id) && id in sets[i]
      {
        InEveryAppend(sets[..i], sets[i], id);
      }
      ids := ids * sets[i];
    }
    assert sets[..|sets|] == sets;
  }

  method Listed(ids: set<string>) returns (list: seq<string>)
    ensures forall id :: id in list <==> id in ids
  {
    list := [];
    var left := ids;
    while left != {}
      invariant left <= ids && forall id :: id in list <==> id in ids && id !in left
    {
      var id :| id in left;
      left, list := left - {id}, list + [id];
    }
  }

  predicate AllResolve(cat: Catalogue, domain: string, filters: seq<Filter>, answers: seq<seq<string>>)
    requires |answers| == |filters|
  {
    forall i :: 0 <= i < |filters| ==> ResolveOne(cat, domain, filters[i].key, answers[i]).Ok?
  }

  /** What each filter resolves to. */
  function Resolutions(cat: Catalogue, domain: string, filters: seq<Filter>, answers: seq<seq<string>>)
    : (rs: seq<Resolved>)
    requires |answers| == |filters| && AllResolve(cat, domain, filters, answers)
    ensures |rs| == |filters|
    ensures forall i :: 0 <= i < |rs| ==> ResolveOne(cat, domain, filters[i].key, answers[i]) == Ok(rs[i])
  {
    seq(|filters|, i requires 0 <= i < |filters| => ResolveOne(cat, domain, filters[i].key, answers[i]).value)
  }

  /** `resolve_filters`; `answers` is what each filter's query returns. */
  method ResolveFilters(cat: Catalogue, domain: string, filters: seq<Filter>, answers: seq<seq<string>>)
    returns (result: Result<map<string, seq<string>>>)
    requires |answers| == |filters|
    ensures result.Ok? <==> AllResolve(cat, domain, filters, answers)
    ensures result.Ok? ==>
      var rs := Resolutions(cat, domain, filters, answers);
      IsBoxes(rs, Leaves(rs), result.value)
  {
    var leafSets: map<string, seq<set<string>>> := map[];
    var columns: map<string, string> := map[];
    var order: seq<string> := [];
    ghost var rs: seq<Resolved> := [];
    for i := 0 to |filters|
      invariant |rs| == i && order == Leaves(rs) && Accumulated(leafSets, columns, rs)
      invariant forall j :: 0 <= j < i ==> ResolveOne(cat, domain, filters[j].key, answers[j]) == Ok(rs[j])
    {
      var one := ResolveOne(cat, domain, filters[i].key, answers[i]);
      if one.Err? {
        return Err(one.error);
      }
      leafSets, columns, order := Accumulate(leafSets, columns, order, rs, one.value);
      rs := rs + [one.value];
    }
    var boxes := IntersectAll(leafSets, columns, order, rs);
    result := Ok(boxes);
    assert rs == Resolutions(cat, domain, filters, answers);
  }

  /** The second loop: one list of ids per view column. */
  method IntersectAll(
    leafSets: map<string, seq<set<string>>>, columns: map<string, string>, order: seq<string>,
    ghost rs: seq<Resolved>)
    returns (boxes: map<string, seq<string>>)
    requires Accumulated(leafSets, columns, rs) && order == Leaves(rs)
    ensures IsBoxes(rs, order, boxes)
  {
    boxes := map[];
    for i := 0 to |order|
      invariant IsBoxes(rs, order[..i], boxes)
    {
      var leaf := order[i];
      assert LeafIs(leafSets, columns, rs, leaf);
      var ids := Intersection(leafSets[leaf]);
      var list := Listed(ids);
      assert order[..i + 1][..i] == order[..i];
      boxes := boxes[columns[leaf] := list];
    }
    assert order[..|order|] == order;
  }

  // ----- Every filter separately -----------------------------------------------------------------

  /** The first filter on `leaf`. */
  lemma {:induction false} ColumnOfFirst(rs: seq<Resolved>, leaf: string) returns (i: nat)
    requires Filtered(rs, leaf)
    ensures i < |rs| && rs[i].leaf == leaf && ColumnOf(rs, leaf) == rs[i].column
  {
    if rs[0].leaf == leaf {
      i := 0;
    } else {
      var j :| 0 <= j < |rs| && rs[j].leaf == leaf;
      assert rs[1..][j - 1].leaf == leaf;
      i := ColumnOfFirst(rs[1..], leaf);
      i := i + 1;
    }
  }

  /** A column's winner is filtered and is written to that column. */
  lemma {:induction false} WinnerIs(rs: seq<Resolved>, leaves: seq<string>, c: string)
    requires c in Winners(rs, leaves)
    ensures Winners(rs, leaves)[c] in leaves && ColumnOf(rs, Winners(rs, leaves)[c]) == c
  {
    var n := |leaves| - 1;
    if ColumnOf(rs, leaves[n]) != c {
      WinnerIs(rs, leaves[..n], c);
    }
  }

  lemma {:induction false} HasWinner(rs: seq<Resolved>, leaves: seq<string>, leaf: string)
    requires leaf in leaves
    ensures ColumnOf(rs, leaf) in Winners(rs, leaves)
  {
    var n := |leaves| - 1;
    if leaves[n] != leaf {
      HasWinner(rs, leaves[..n], leaf);
    }
  }

  /** When columns tell leaves apart, the column of each filter is won by the filter's own leaf. */
  lemma ConsistentWinner(rs: seq<Resolved>, i: nat)
    requires Consistent(rs) && i < |rs|
    ensures rs[i].column in Winners(rs, Leaves(rs)) && Winners(rs, Leaves(rs))[rs[i].column] == rs[i].leaf
  {
    LeavesAre(rs);
    assert Filtered(rs, rs[i].leaf);
    var j := ColumnOfFirst(rs, rs[i].leaf);
    assert rs[j].column == rs[i].column;
    HasWinner(rs, Leaves(rs), rs[i].leaf);
    WinnerIs(rs, Leaves(rs), rs[i].column);
    var winner := Winners(rs, Leaves(rs))[rs[i].column];
    var k := ColumnOfFirst(rs, winner);
    assert rs[k].column == rs[i].column;
  }

  lemma AdmittedMeets(rs: seq<Resolved>, boxes: map<string, seq<string>>, row: Row, i: nat)
    requires Consistent(rs) && IsBoxes(rs, Leaves(rs), boxes) && Admits(boxes, row) && i < |rs|
    ensures rs[i].column in row && InAll(rs, rs[i].leaf, row[rs[i].column])
  {
    ConsistentWinner(rs, i);
    assert BoxIs(rs, rs[i].leaf, boxes[rs[i].column]);
  }

  lemma MetIsAdmitted(rs: seq<Resolved>, boxes: map<string, seq<string>>, row: Row, c: string)
    requires Consistent(rs) && IsBoxes(rs, Leaves(rs), boxes) && MeetsAll(row, rs) && c in boxes
    ensures c in row && row[c] in boxes[c]
  {
    LeavesAre(rs);
    WinnerIs(rs, Leaves(rs), c);
    var leaf := Winners(rs, Leaves(rs))[c];
    assert BoxIs(rs, leaf, boxes[c]);
    var i := ColumnOfFirst(rs, leaf);
    assert Meets(row, rs[i]);
    forall j | 0 <= j < |rs| && rs[j].leaf == leaf
      ensures row[c] in rs[j].ids
    {
      assert Meets(row, rs[j]);
    }
  }

  /** A row is admitted exactly when it meets every filter separately. */
  lemma AdmitsIffMeetsAll(rs: seq<Resolved>, boxes: map<string, seq<string>>, row: Row)
    requires Consistent(rs) && IsBoxes(rs, Leaves(rs), boxes)
    ensures Admits(boxes, row) <==> MeetsAll(row, rs)
  {
    if Admits(boxes, row) {
      forall i | 0 <= i < |rs|
        ensures Meets(row, rs[i])
      {
        AdmittedMeets(rs, boxes, row, i);
      }
    }
    if MeetsAll(row, rs) {
      forall c | c in boxes
        ensures c in row && row[c] in boxes[c]
      {
        MetIsAdmitted(rs, boxes, row, c);
      }
    }
  }

  /** Filters on one leaf intersect: when they have no id in common, no row is admitted. */
  lemma ContradictionAdmitsNone(rs: seq<Resolved>, boxes: map<string, seq<string>>, row: Row, i: nat)
    requires Consistent(rs) && IsBoxes(rs, Leaves(rs), boxes) && i < |rs|
    requires forall id :: !InAll(rs, rs[i].leaf, id)
    ensures !Admits(boxes, row)
  {
    ConsistentWinner(rs, i);
    assert BoxIs(rs, rs[i].leaf, boxes[rs[i].column]);
  }

  // ----- Exactly when ----------------------------------------------------------------------------

  /**
   * What the queries can return: a leaf filter's query looks its own value up and returns it or
   * nothing; the others return any ids.
   */
  predicate Answered(cat: Catalogue, filters: seq<Filter>, answers: seq<seq<string>>) {
    && |answers| == |filters|
    && forall i :: 0 <= i < |filters| ==> AnswerOf(cat, filters[i], answers[i])
  }

  predicate AnswerOf(cat: Catalogue, filter: Filter, answer: seq<string>) {
    FindTarget(cat, filter.key) == Ok(Leaf) ==> answer == [] || answer == [filter.value]
  }

  /** If these filters resolve, a row is admitted exactly when it meets each of them. */
  ghost predicate Kept(
    cat: Catalogue, domain: string, filters: seq<Filter>, answers: seq<seq<string>>, boxes: map<string, seq<string>>,
    row: Row)
  {
    Answered(cat, filters, answers) && AllResolve(cat, domain, filters, answers) ==>
      var rs := Resolutions(cat, domain, filters, answers);
      IsBoxes(rs, Leaves(rs), boxes) ==> (Admits(boxes, row) <==> MeetsAll(row, rs))
  }

  predicate HaveKeys(filters: seq<Filter>, keys: seq<string>) {
    |filters| == |keys| && forall i :: 0 <= i < |keys| ==> filters[i].key == keys[i]
  }

  function KeysOf(filters: seq<Filter>): (keys: seq<string>)
    ensures HaveKeys(filters, keys)
  {
    seq(|filters|, i requires 0 <= i < |filters| => filters[i].key)
  }

  /** Filters on these keys are always kept, whatever their values and whatever the queries return. */
  ghost predicate AlwaysKept(cat: Catalogue, domain: string, keys: seq<string>) {
    forall filters, answers, boxes, row :: HaveKeys(filters, keys) ==> Kept(cat, domain, filters, answers, boxes, row)
  }

  /** Every key has a target: no filter on it is refused before its query. */
  predicate Targeted(cat: Catalogue, domain: string, keys: seq<string>) {
    forall i :: 0 <= i < |keys| ==> TargetOf(cat, domain, keys[i]).Ok?
  }

  /** Read off the catalogue: keys with one leaf dimension have one column, others have different ones. */
  predicate Corresponding(cat: Catalogue, domain: string, keys: seq<string>)
    requires Targeted(cat, domain, keys)
  {
    forall i, j :: 0 <= i < |keys| && 0 <= j < |keys| ==>
      var a, b := TargetOf(cat, domain, keys[i]).value, TargetOf(cat, domain, keys[j]).value;
      a.leaf == b.leaf <==> a.column == b.column
  }

  /** The targets of the keys, with no ids yet. */
  function Shape(cat: Catalogue, domain: string, keys: seq<string>): (rs: seq<Resolved>)
    requires Targeted(cat, domain, keys)
    ensures |rs| == |keys|
    ensures forall i :: 0 <= i < |keys| ==>
      var t := TargetOf(cat, domain, keys[i]).value; rs[i] == Resolved(t.leaf, t.column, [])
  {
    seq(|keys|, i requires 0 <= i < |keys| =>
      var t := TargetOf(cat, domain, keys[i]).value; Resolved(t.leaf, t.column, []))
  }

  lemma CorrespondingIsConsistent(cat: Catalogue, domain: string, keys: seq<string>)
    requires Targeted(cat, domain, keys)
    ensures Corresponding(cat, domain, keys) <==> Consistent(Shape(cat, domain, keys))
  {
  }

  /** The same leaf dimensions and columns, whatever ids. */
  predicate SameTargets(rs: seq<Resolved>, other: seq<Resolved>) {
    |rs| == |other| && forall i :: 0 <= i < |rs| ==> other[i].leaf == rs[i].leaf && other[i].column == rs[i].column
  }

  lemma ResolvedShape(cat: Catalogue, domain: string, keys: seq<string>, filters: seq<Filter>,
                      answers: seq<seq<string>>)
    requires HaveKeys(filters, keys) && |answers| == |filters| && AllResolve(cat, domain, filters, answers)
    ensures Targeted(cat, domain, keys)
    ensures SameTargets(Shape(cat, domain, keys), Resolutions(cat, domain, filters, answers))
  {
    forall i | 0 <= i < |keys|
      ensures TargetOf(cat, domain, keys[i]).Ok?
    {
      assert ResolveOne(cat, domain, filters[i].key, answers[i]).Ok?;
    }
    var rs := Resolutions(cat, domain, filters, answers);
    assert forall i :: 0 <= i < |keys| ==> ResolveOne(cat, domain, filters[i].key, answers[i]) == Ok(rs[i]);
  }

  lemma SameWinners(rs: seq<Resolved>, other: seq<Resolved>)
    requires SameTargets(rs, other)
    ensures Leaves(rs) == Leaves(other)
    ensures Winners(rs, Leaves(rs)) == Winners(other, Leaves(other))
  {
    SameLeaves(rs, other);
    forall leaf
      ensures ColumnOf(rs, leaf) == ColumnOf(other, leaf)
    {
      SameColumn(rs, other, leaf);
    }
    SameWinner(rs, other, Leaves(rs));
  }

  lemma {:induction false} SameLeaves(rs: seq<Resolved>, other: seq<Resolved>)
    requires SameTargets(rs, other)
    ensures Leaves(rs) == Leaves(other)
  {
    if rs != [] {
      SameLeaves(rs[..|rs| - 1], other[..|rs| - 1]);
    }
  }

  lemma {:induction false} SameColumn(rs: seq<Resolved>, other: seq<Resolved>, leaf: string)
    requires SameTargets(rs, other)
    ensures ColumnOf(rs, leaf) == ColumnOf(other, leaf)
  {
    if rs != [] {
      SameColumn(rs[1..], other[1..], leaf);
    }
  }

  lemma {:induction false} SameWinner(rs: seq<Resolved>, other: seq<Resolved>, leaves: seq<string>)
    requires forall leaf :: ColumnOf(rs, leaf) == ColumnOf(other, leaf)
    ensures Winners(rs, leaves) == Winners(other, leaves)
  {
    if leaves != [] {
      SameWinner(rs, other, leaves[..|leaves| - 1]);
    }
  }

  // ----- A filter that is lost -------------------------------------------------------------------

  /** Filter `i` is lost: another leaf dimension, or none, is written to its column. */
  predicate Lost(rs: seq<Resolved>, i: nat)
    requires i < |rs|
  {
    !Wins(rs, i, rs[i].leaf)
  }

  /** `leaf` is written last to the column of filter `i`. */
  predicate Wins(rs: seq<Resolved>, i: nat, leaf: string)
    requires i < |rs|
  {
    var winners := Winners(rs, Leaves(rs));
    rs[i].column in winners && winners[rs[i].column] == leaf
  }

  /** "b" for the leaf dimension that wins the column of filter `i`, "a" for the others. */
  function Letter(rs: seq<Resolved>, i: nat, leaf: string): string
    requires i < |rs|
  {
    if Wins(rs, i, leaf) then "b" else "a"
  }

  /** Every filter resolves to the letter of its leaf dimension. */
  function Lettered(rs: seq<Resolved>, i: nat): (other: seq<Resolved>)
    requires i < |rs|
    ensures SameTargets(rs, other)
    ensures forall j :: 0 <= j < |rs| ==> other[j].ids == [Letter(rs, i, rs[j].leaf)]
  {
    seq(|rs|, j requires 0 <= j < |rs| => rs[j].(ids := [Letter(rs, i, rs[j].leaf)]))
  }

  function LetteredBoxes(rs: seq<Resolved>, i: nat): map<string, seq<string>>
    requires i < |rs|
  {
    var winners := Winners(rs, Leaves(rs));
    map c | c in winners :: [Letter(rs, i, winners[c])]
  }

  function Columns(rs: seq<Resolved>): set<string> {
    set i | 0 <= i < |rs| :: rs[i].column
  }

  /** "b" in the column of filter `i`, "a" in every other filter's column. */
  function Probe(rs: seq<Resolved>, i: nat): Row
    requires i < |rs|
  {
    map c | c in Columns(rs) :: if c == rs[i].column then "b" else "a"
  }

  lemma LetteredBox(rs: seq<Resolved>, i: nat, leaf: string)
    requires i < |rs| && Filtered(rs, leaf)
    ensures BoxIs(Lettered(rs, i), leaf, [Letter(rs, i, leaf)])
  {
    var other := Lettered(rs, i);
    var j :| 0 <= j < |rs| && rs[j].leaf == leaf;
    forall id
      ensures id in [Letter(rs, i, leaf)] <==> InAll(other, leaf, id)
    {
      assert InAll(other, leaf, id) ==> id in other[j].ids;
    }
  }

  lemma WinnerFiltered(rs: seq<Resolved>, c: string)
    requires c in Winners(rs, Leaves(rs))
    ensures Filtered(rs, Winners(rs, Leaves(rs))[c]) && c in Columns(rs)
  {
    LeavesAre(rs);
    WinnerIs(rs, Leaves(rs), c);
    var j := ColumnOfFirst(rs, Winners(rs, Leaves(rs))[c]);
    assert rs[j].column == c;
  }

  lemma LetterAt(rs: seq<Resolved>, i: nat, c: string)
    requires i < |rs| && c in Winners(rs, Leaves(rs))
    ensures Letter(rs, i, Winners(rs, Leaves(rs))[c]) == if c == rs[i].column then "b" else "a"
  {
    WinnerIs(rs, Leaves(rs), c);
    if rs[i].column in Winners(rs, Leaves(rs)) {
      WinnerIs(rs, Leaves(rs), rs[i].column);
    }
  }

  lemma ProbeColumn(rs: seq<Resolved>, i: nat, c: string)
    requires i < |rs| && c in Winners(rs, Leaves(rs))
    ensures BoxIs(Lettered(rs, i), Winners(rs, Leaves(rs))[c], LetteredBoxes(rs, i)[c])
    ensures c in Probe(rs, i) && Probe(rs, i)[c] in LetteredBoxes(rs, i)[c]
  {
    WinnerFiltered(rs, c);
    LetteredBox(rs, i, Winners(rs, Leaves(rs))[c]);
    LetterAt(rs, i, c);
  }

  /** A lost filter is not enforced: the probe passes the result but not the filter. */
  lemma LostIsNotMet(rs: seq<Resolved>, i: nat)
    requires i < |rs| && Lost(rs, i)
    ensures IsBoxes(Lettered(rs, i), Leaves(Lettered(rs, i)), LetteredBoxes(rs, i))
    ensures Admits(LetteredBoxes(rs, i), Probe(rs, i)) && !Meets(Probe(rs, i), Lettered(rs, i)[i])
  {
    var other, boxes, row := Lettered(rs, i), LetteredBoxes(rs, i), Probe(rs, i);
    SameWinners(rs, other);
    forall c | c in boxes
      ensures BoxIs(other, Winners(other, Leaves(other))[c], boxes[c]) && c in row && row[c] in boxes[c]
    {
      ProbeColumn(rs, i, c);
    }
    assert rs[i].column in Columns(rs);
  }

  lemma NoneLostIsConsistent(rs: seq<Resolved>)
    requires forall i :: 0 <= i < |rs| ==> !Lost(rs, i)
    ensures Consistent(rs)
  {
    forall i | 0 <= i < |rs|
      ensures ColumnOf(rs, rs[i].leaf) == rs[i].column
    {
      assert !Lost(rs, i);
      WinnerIs(rs, Leaves(rs), rs[i].column);
    }
    forall i, j | 0 <= i < |rs| && 0 <= j < |rs|
      ensures rs[i].leaf == rs[j].leaf <==> rs[i].column == rs[j].column
    {
      assert !Lost(rs, i) && !Lost(rs, j);
    }
  }

  /** A lost key: some values, all of them found by their queries, and some row break its filter. */
  lemma LostKeyIsNotKept(cat: Catalogue, domain: string, keys: seq<string>, i: nat)
    requires Targeted(cat, domain, keys) && i < |keys| && Lost(Shape(cat, domain, keys), i)
    ensures !AlwaysKept(cat, domain, keys)
  {
    var rs := Shape(cat, domain, keys);
    var filters, answers := LetteredFilters(keys, rs, i), LetteredAnswers(rs, i);
    LetteredResolve(cat, domain, keys, i);
    LostIsNotMet(rs, i);
    assert !MeetsAll(Probe(rs, i), Lettered(rs, i));
    assert !Kept(cat, domain, filters, answers, LetteredBoxes(rs, i), Probe(rs, i));
  }

  function LetteredFilters(keys: seq<string>, rs: seq<Resolved>, i: nat): (filters: seq<Filter>)
    requires i < |rs| == |keys|
    ensures HaveKeys(filters, keys) && forall j :: 0 <= j < |rs| ==> filters[j].value == Letter(rs, i, rs[j].leaf)
  {
    seq(|keys|, j requires 0 <= j < |keys| => Filter(keys[j], Letter(rs, i, rs[j].leaf)))
  }

  function LetteredAnswers(rs: seq<Resolved>, i: nat): (answers: seq<seq<string>>)
    requires i < |rs|
    ensures |answers| == |rs| && forall j :: 0 <= j < |rs| ==> answers[j] == [Letter(rs, i, rs[j].leaf)]
  {
    seq(|rs|, j requires 0 <= j < |rs| => [Letter(rs, i, rs[j].leaf)])
  }

  lemma LetteredResolve(cat: Catalogue, domain: string, keys: seq<string>, i: nat)
    requires Targeted(cat, domain, keys) && i < |keys|
    ensures var rs := Shape(cat, domain, keys);
            var filters, answers := LetteredFilters(keys, rs, i), LetteredAnswers(rs, i);
            && Answered(cat, filters, answers) && AllResolve(cat, domain, filters, answers)
            && Resolutions(cat, domain, filters, answers) == Lettered(rs, i)
  {
    var rs := Shape(cat, domain, keys);
    var filters, answers := LetteredFilters(keys, rs, i), LetteredAnswers(rs, i);
    forall j | 0 <= j < |keys|
      ensures ResolveOne(cat, domain, filters[j].key, answers[j]) == Ok(Lettered(rs, i)[j])
    {
      assert TargetOf(cat, domain, keys[j]).Ok?;
    }
    assert AllResolve(cat, domain, filters, answers);
  }

  lemma CorrespondingIsKept(
    cat: Catalogue, domain: string, keys: seq<string>, filters: seq<Filter>, answers: seq<seq<string>>,
    boxes: map<string, seq<string>>, row: Row)
    requires HaveKeys(filters, keys) && |answers| == |filters| && AllResolve(cat, domain, filters, answers)
    requires Targeted(cat, domain, keys) ==> Corresponding(cat, domain, keys)
    ensures var rs := Resolutions(cat, domain, filters, answers);
            IsBoxes(rs, Leaves(rs), boxes) ==> (Admits(boxes, row) <==> MeetsAll(row, rs))
  {
    ResolvedShape(cat, domain, keys, filters, answers);
    CorrespondingIsConsistent(cat, domain, keys);
    var rs := Resolutions(cat, domain, filters, answers);
    SameConsistent(Shape(cat, domain, keys), rs);
    if IsBoxes(rs, Leaves(rs), boxes) {
      AdmitsIffMeetsAll(rs, boxes, row);
    }
  }

  lemma SameConsistent(rs: seq<Resolved>, other: seq<Resolved>)
    requires SameTargets(rs, other) && Consistent(rs)
    ensures Consistent(other)
  {
  }

  /**
   * The exact condition, on the catalogue and the keys alone: every filter is enforced, whatever the
   * values and the data, if and only if columns and leaf dimensions correspond (or some key has no
   * target, and no query is ever made).
   */
  lemma FiltersKeptIffCorresponding(cat: Catalogue, domain: string, keys: seq<string>)
    ensures AlwaysKept(cat, domain, keys) <==> (Targeted(cat, domain, keys) ==> Corresponding(cat, domain, keys))
  {
    if Targeted(cat, domain, keys) ==> Corresponding(cat, domain, keys) {
      forall filters, answers, boxes, row | HaveKeys(filters, keys)
        ensures Kept(cat, domain, filters, answers, boxes, row)
      {
        if Answered(cat, filters, answers) && AllResolve(cat, domain, filters, answers) {
          CorrespondingIsKept(cat, domain, keys, filters, answers, boxes, row);
        }
      }
    } else {
      CorrespondingIsConsistent(cat, domain, keys);
      SomeKeyIsLost(cat, domain, keys);
    }
  }

  lemma SomeKeyIsLost(cat: Catalogue, domain: string, keys: seq<string>)
    requires Targeted(cat, domain, keys) && !Consistent(Shape(cat, domain, keys))
    ensures !AlwaysKept(cat, domain, keys)
  {
    var rs := Shape(cat, domain, keys);
    if i :| 0 <= i < |rs| && Lost(rs, i) {
      LostKeyIsNotKept(cat, domain, keys, i);
    } else {
      NoneLostIsConsistent(rs);
    }
  }

  // ----- One catalogue that loses a filter -------------------------------------------------------

  function LeafDimension(key: string): Dimension {
    Dimension(key, Some("id"), false, false, "", [])
  }

  /** Two leaf dimensions outside the domain, whose tables both call their key column `id`. */
  const SHARED: Catalogue := Catalogue(map["office" := LeafDimension("office"), "team" := LeafDimension("team")], map[])

  lemma SharedTargets()
    ensures var keys := ["office", "team"];
            Targeted(SHARED, "pnl", keys) && !Corresponding(SHARED, "pnl", keys)
    ensures ResolveOne(SHARED, "pnl", "office", ["x"]) == Ok(Resolved("office", "id", ["x"]))
    ensures ResolveOne(SHARED, "pnl", "team", ["y"]) == Ok(Resolved("team", "id", ["y"]))
  {
    var keys := ["office", "team"];
    assert TargetOf(SHARED, "pnl", keys[0]) == Ok(Target(Leaf, "office", "id"));
    assert TargetOf(SHARED, "pnl", keys[1]) == Ok(Target(Leaf, "team", "id"));
  }

  lemma TwoLeaves(a: Resolved, b: Resolved)
    requires a.leaf != b.leaf
    ensures Leaves([a, b]) == [a.leaf, b.leaf]
    ensures ColumnOf([a, b], a.leaf) == a.column && ColumnOf([a, b], b.leaf) == b.column
  {
    LeavesAppend([], a);
    LeavesAppend([a], b);
    assert [] + [a] == [a] && [a] + [b] == [a, b];
    assert [a, b][1..] == [b];
  }

  /** Of two leaf dimensions on one column, the one filtered last is written to it. */
  lemma LastWins(a: Resolved, b: Resolved)
    requires a.leaf != b.leaf && a.column == b.column
    ensures Winners([a, b], Leaves([a, b])) == map[b.column := b.leaf]
  {
    TwoLeaves(a, b);
    var leaves := [a.leaf, b.leaf];
    assert leaves[..1] == [a.leaf];
    assert Winners([a, b], leaves) == Winners([a, b], [a.leaf])[b.column := b.leaf];
    assert [a.leaf][..0] == [];
    assert Winners([a, b], [a.leaf]) == map[a.column := a.leaf];
  }

  /** With office "x" and team "y" requested, a row with id "y" passes, although its office is not "x". */
  lemma SharedKeyColumn(boxes: map<string, seq<string>>)
    ensures !AlwaysKept(SHARED, "pnl", ["office", "team"])
    ensures var rs := [Resolved("office", "id", ["x"]), Resolved("team", "id", ["y"])];
            && ResolveOne(SHARED, "pnl", "office", ["x"]) == Ok(rs[0])
            && ResolveOne(SHARED, "pnl", "team", ["y"]) == Ok(rs[1])
            && (IsBoxes(rs, Leaves(rs), boxes) ==> Admits(boxes, map["id" := "y"]) && !Meets(map["id" := "y"], rs[0]))
  {
    SharedTargets();
    FiltersKeptIffCorresponding(SHARED, "pnl", ["office", "team"]);
    var rs := [Resolved("office", "id", ["x"]), Resolved("team", "id", ["y"])];
    LastWins(rs[0], rs[1]);
    if IsBoxes(rs, Leaves(rs), boxes) {
      assert BoxIs(rs, "team", boxes["id"]);
      assert InAll(rs, "team", "y");
    }
  }
}
