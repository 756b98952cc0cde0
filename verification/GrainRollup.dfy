// Additive rollups of federated detail rows (precis_mcp/engine/ibis_retriever.py). Metric values are
// exact reals; a null is `None`.

module GrainRollup {
  import opened Common

  type Dim = string
  type Metric = string
  type Key = seq<string>

  /** A row: the text of its dimension cells, its metrics, and its grouping mask if it was rolled up. */
  datatype Row = Row(cells: map<Dim, string>, metrics: map<Metric, Option<real>>, mask: Option<nat>)
  datatype Grains = Grains(detail: bool, subtotals: bool, grandTotal: bool)

  function Cell(row: Row, d: Dim): string {
    if d in row.cells then row.cells[d] else ""
  }

  function KeyOf(row: Row, live: seq<Dim>): (key: Key)
    ensures |key| == |live| && forall i :: 0 <= i < |live| ==> key[i] == Cell(row, live[i])
  {
    seq(|live|, i requires 0 <= i < |live| => Cell(row, live[i]))
  }

  /** A missing metric and a null metric read the same. */
  function Value(row: Row, m: Metric): Option<real> {
    if m in row.metrics then row.metrics[m] else None
  }

  // ----- What a rollup means ---------------------------------------------------------------------

  /** Addition that ignores nulls. */
  function Plus(a: Option<real>, b: Option<real>): Option<real> {
    if a.None? then b else if b.None? then a else Some(a.value + b.value)
  }

  /** SUM over the rows of one group: null exactly when no row has a value. */
  function GroupTotal(rows: seq<Row>, live: seq<Dim>, key: Key, m: Metric): Option<real> {
    if rows == [] then None
    else
      var n := |rows| - 1;
      var before := GroupTotal(rows[..n], live, key, m);
      if KeyOf(rows[n], live) == key then Plus(before, Value(rows[n], m)) else before
  }

  /** The first occurrences of each key, in order. */
  function Firsts(keys: seq<Key>): seq<Key> {
    if keys == [] then []
    else
      var n := |keys| - 1;
      var before := Firsts(keys[..n]);
      if keys[n] in before then before else before + [keys[n]]
  }

  function KeysOf(rows: seq<Row>, live: seq<Dim>): (keys: seq<Key>)
    ensures |keys| == |rows| && forall i :: 0 <= i < |rows| ==> keys[i] == KeyOf(rows[i], live)
  {
    seq(|rows|, i requires 0 <= i < |rows| => KeyOf(rows[i], live))
  }

  function Groups(rows: seq<Row>, live: seq<Dim>): seq<Key> {
    Firsts(KeysOf(rows, live))
  }

  /** The component of `key` for dimension `d`; empty when `d` is rolled up. */
  function KeyCell(live: seq<Dim>, key: Key, d: Dim): string {
    if live == [] || key == [] then "" else if live[0] == d then key[0] else KeyCell(live[1..], key[1..], d)
  }

  /** One bit per dimension, first dimension highest, set when it is rolled up. */
  function Mask(dims: seq<Dim>, live: set<Dim>): nat {
    if dims == [] then 0
    else
      var n := |dims| - 1;
      2 * Mask(dims[..n], live) + if dims[n] in live then 0 else 1
  }

  function LiveSet(live: seq<Dim>): set<Dim> {
    set d | d in live
  }

  function KeyCells(dims: seq<Dim>, live: seq<Dim>, key: Key): map<Dim, string> {
    map d | d in dims :: KeyCell(live, key, d)
  }

  function GroupRow(rows: seq<Row>, dims: seq<Dim>, metrics: seq<Metric>, live: seq<Dim>, key: Key): Row {
    Row(KeyCells(dims, live, key),
        map m | m in metrics :: GroupTotal(rows, live, key, m),
        Some(Mask(dims, LiveSet(live))))
  }

  function GroupRows(rows: seq<Row>, dims: seq<Dim>, metrics: seq<Metric>,
                     live: seq<Dim>, keys: seq<Key>): (out: seq<Row>)
    ensures |out| == |keys|
    ensures forall i :: 0 <= i < |keys| ==> out[i] == GroupRow(rows, dims, metrics, live, keys[i])
  {
    seq(|keys|, i requires 0 <= i < |keys| => GroupRow(rows, dims, metrics, live, keys[i]))
  }

  /** A row's text on the live dimensions; blank elsewhere, and everywhere without a row. */
  function Blanked(dims: seq<Dim>, live: set<Dim>, source: Option<Row>): map<Dim, string> {
    map d | d in dims :: if d in live && source.Some? then Cell(source.value, d) else ""
  }

  function Zeros(metrics: seq<Metric>): map<Metric, Option<real>> {
    map m | m in metrics :: Some(0.0)
  }

  function ZeroRow(dims: seq<Dim>, metrics: seq<Metric>): Row {
    Row(Blanked(dims, {}, None), Zeros(metrics), Some(Mask(dims, {})))
  }

  /** GROUP BY the live dimensions; an empty input has one grand total, of zeros. */
  function Aggregate(rows: seq<Row>, dims: seq<Dim>, metrics: seq<Metric>, live: seq<Dim>): seq<Row> {
    if rows == [] && live == [] then [ZeroRow(dims, metrics)]
    else GroupRows(rows, dims, metrics, live, Groups(rows, live))
  }

  // ----- The loops -------------------------------------------------------------------------------

  /** `x << k` */
  function Shift(x: nat, k: nat): nat {
    if k == 0 then x else 2 * Shift(x, k - 1)
  }

  /** `mask | 1 << b` */
  function SetBit(mask: nat, b: nat): nat {
    if b == 0 then (if mask % 2 == 1 then mask else mask + 1) else 2 * SetBit(mask / 2, b - 1) + mask % 2
  }

  function Bit(mask: nat, i: nat): nat {
    if i == 0 then mask % 2 else Bit(mask / 2, i - 1)
  }

  /** Setting a bit sets it, whether or not it was set, and leaves the others. */
  lemma {:induction false} SetBitIs(mask: nat, b: nat, i: nat)
    ensures Bit(SetBit(mask, b), i) == if i == b then 1 else Bit(mask, i)
  {
    if b > 0 && i > 0 {
      SetBitIs(mask / 2, b - 1, i - 1);
    } else if b == 0 && i > 0 {
      assert SetBit(mask, b) / 2 == mask / 2;
    }
  }

  lemma {:induction false} ShiftZero(k: nat)
    ensures Shift(0, k) == 0
  {
    if k > 0 {
      ShiftZero(k - 1);
    }
  }

  lemma {:induction false} ShiftInZero(high: nat, b: nat)
    ensures Shift(high, b + 1) == Shift(2 * high, b)
  {
    if b > 0 {
      ShiftInZero(high, b - 1);
    }
  }

  lemma {:induction false} ShiftInOne(high: nat, b: nat)
    ensures SetBit(Shift(high, b + 1), b) == Shift(2 * high + 1, b)
  {
    if b > 0 {
      ShiftInOne(high, b - 1);
    }
  }

  lemma MaskStep(dims: seq<Dim>, live: set<Dim>, idx: nat)
    requires idx < |dims|
    ensures Mask(dims[..idx + 1], live) == 2 * Mask(dims[..idx], live) + if dims[idx] in live then 0 else 1
  {
    assert dims[..idx + 1][..idx] == dims[..idx];
  }

  lemma BlankedStep(dims: seq<Dim>, live: set<Dim>, source: Option<Row>, idx: nat)
    requires idx < |dims|
    ensures Blanked(dims[..idx + 1], live, source) == Blanked(dims[..idx], live, source)
      [dims[idx] := if dims[idx] in live && source.Some? then Cell(source.value, dims[idx]) else ""]
  {
    assert dims[..idx + 1] == dims[..idx] + [dims[idx]];
  }

  lemma ZerosStep(metrics: seq<Metric>, i: nat)
    requires i < |metrics|
    ensures Zeros(metrics[..i + 1]) == Zeros(metrics[..i])[metrics[i] := Some(0.0)]
  {
    assert metrics[..i + 1] == metrics[..i] + [metrics[i]];
  }

  /** `_empty_rollup_row`. */
  method EmptyRollupRow(dims: seq<Dim>, metrics: seq<Metric>, live: set<Dim>, source: Option<Row>) returns (row: Row)
    ensures row == Row(Blanked(dims, live, source), Zeros(metrics), Some(Mask(dims, live)))
  {
    var cells, mask := BlankRow(dims, live, source);
    var zeros: map<Metric, Option<real>> := map[];
    for i := 0 to |metrics|
      invariant zeros == Zeros(metrics[..i])
    {
      ZerosStep(metrics, i);
      zeros := zeros[metrics[i] := Some(0.0)];
    }
    assert metrics[..|metrics|] == metrics;
    row := Row(cells, zeros, Some(mask));
  }

  /** Its loop over the dimensions. */
  method BlankRow(dims: seq<Dim>, live: set<Dim>, source: Option<Row>) returns (cells: map<Dim, string>, mask: nat)
    ensures cells == Blanked(dims, live, source) && mask == Mask(dims, live)
  {
    cells := map[];
    mask := 0;
    var n := |dims|;
    ShiftZero(n);
    for idx := 0 to n
      invariant cells == Blanked(dims[..idx], live, source)
      invariant mask == Shift(Mask(dims[..idx], live), n - idx)
    {
      var dim := dims[idx];
      ghost var high, b := Mask(dims[..idx], live), n - 1 - idx;
      MaskStep(dims, live, idx);
      BlankedStep(dims, live, source, idx);
      if dim in live {
        cells := cells[dim := if source.None? then "" else Cell(source.value, dim)];
        ShiftInZero(high, b);
      } else {
        cells := cells[dim := ""];
        ShiftInOne(high, b);
        mask := SetBit(mask, n - 1 - idx);
      }
    }
    assert dims[..n] == dims;
  }

  predicate Distinct(metrics: seq<Metric>) {
    forall i, j :: 0 <= i < j < |metrics| ==> metrics[i] != metrics[j]
  }

  function OrZero(total: Option<real>): Option<real> {
    Some(if total.Some? then total.value else 0.0)
  }

  ghost predicate Same(a: seq<Metric>, b: set<Metric>) {
    forall x :: x in a <==> x in b
  }

  /** The running row of group `key`, and the metrics seen non-null in it, after `rows`. */
  ghost predicate Summed(out: Row, seen: set<Metric>, rows: seq<Row>, metrics: seq<Metric>, live: seq<Dim>, key: Key) {
    && Same(metrics, out.metrics.Keys) && seen <= out.metrics.Keys
    && forall m :: m in metrics ==> SummedMetric(out, seen, GroupTotal(rows, live, key, m), m)
  }

  predicate SummedMetric(out: Row, seen: set<Metric>, total: Option<real>, m: Metric) {
    m in out.metrics && out.metrics[m] == OrZero(total) && (m in seen <==> total.Some?)
  }

  /** The inner loop: `row` is added to its group's running row. */
  method AddRow(out0: Row, seen0: set<Metric>, row: Row, metrics: seq<Metric>) returns (out: Row, seen: set<Metric>)
    requires Distinct(metrics) && Same(metrics, out0.metrics.Keys) && seen0 <= out0.metrics.Keys
    requires forall m :: m in metrics ==> out0.metrics[m].Some?
    ensures out.cells == out0.cells && out.mask == out0.mask && out.metrics.Keys == out0.metrics.Keys
    ensures seen <= out.metrics.Keys
    ensures forall m :: m in metrics ==> Added(out0, seen0, row, out, seen, m)
  {
    out, seen := out0, seen0;
    for i := 0 to |metrics|
      invariant out.cells == out0.cells && out.mask == out0.mask && out.metrics.Keys == out0.metrics.Keys
      invariant seen <= out.metrics.Keys
      invariant forall j :: 0 <= j < i ==> Added(out0, seen0, row, out, seen, metrics[j])
      invariant forall j :: i <= j < |metrics| ==> Kept(out0, seen0, out, seen, metrics[j])
    {
      var metric := metrics[i];
      assert Kept(out0, seen0, out, seen, metric);
      var val := Value(row, metric);
      if val.Some? {
        out := out.(metrics := out.metrics[metric := Some(out.metrics[metric].value + val.value)]);
        seen := seen + {metric};
      }
    }
  }

  predicate Kept(out0: Row, seen0: set<Metric>, out: Row, seen: set<Metric>, m: Metric) {
    m in out0.metrics && m in out.metrics && out.metrics[m] == out0.metrics[m] && (m in seen <==> m in seen0)
  }

  predicate Added(out0: Row, seen0: set<Metric>, row: Row, out: Row, seen: set<Metric>, m: Metric) {
    if Value(row, m).None? then Kept(out0, seen0, out, seen, m)
    else
      && m in out0.metrics && m in out.metrics && out0.metrics[m].Some? && m in seen
      && out.metrics[m] == Some(out0.metrics[m].value + Value(row, m).value)
  }

  lemma GroupTotalStep(rows: seq<Row>, i: nat, live: seq<Dim>, key: Key, m: Metric)
    requires i < |rows|
    ensures GroupTotal(rows[..i + 1], live, key, m) ==
            if KeyOf(rows[i], live) == key then Plus(GroupTotal(rows[..i], live, key, m), Value(rows[i], m))
            else GroupTotal(rows[..i], live, key, m)
  {
    assert rows[..i + 1][..i] == rows[..i];
  }

  lemma GroupsStep(rows: seq<Row>, i: nat, live: seq<Dim>)
    requires i < |rows|
    ensures Groups(rows[..i + 1], live) ==
            if KeyOf(rows[i], live) in Groups(rows[..i], live) then Groups(rows[..i], live)
            else Groups(rows[..i], live) + [KeyOf(rows[i], live)]
  {
    assert KeysOf(rows[..i + 1], live)[..i] == KeysOf(rows[..i], live);
  }

  lemma {:induction false} FirstsSame(keys: seq<Key>)
    ensures forall k :: k in Firsts(keys) <==> k in keys
    ensures forall i, j :: 0 <= i < j < |Firsts(keys)| ==> Firsts(keys)[i] != Firsts(keys)[j]
  {
    if keys != [] {
      var n := |keys| - 1;
      FirstsSame(keys[..n]);
      assert keys == keys[..n] + [keys[n]];
    }
  }

  /** A group's total is null exactly when every row of the group has a null. */
  lemma {:induction false} NullIffAllNull(rows: seq<Row>, live: seq<Dim>, key: Key, m: Metric)
    ensures GroupTotal(rows, live, key, m).None? <==>
            forall i :: 0 <= i < |rows| && KeyOf(rows[i], live) == key ==> Value(rows[i], m).None?
  {
    if rows != [] {
      var n := |rows| - 1;
      NullIffAllNull(rows[..n], live, key, m);
      assert forall i :: 0 <= i < n ==> rows[..n][i] == rows[i];
    }
  }

  lemma NotYetSeen(rows: seq<Row>, live: seq<Dim>, key: Key, m: Metric)
    requires key !in Groups(rows, live)
    ensures GroupTotal(rows, live, key, m).None?
  {
    FirstsSame(KeysOf(rows, live));
    NullIffAllNull(rows, live, key, m);
    assert forall i :: 0 <= i < |rows| ==> KeysOf(rows, live)[i] in KeysOf(rows, live);
  }

  lemma {:induction false} KeyCellIs(row: Row, live: seq<Dim>, d: Dim)
    ensures KeyCell(live, KeyOf(row, live), d) == if d in live then Cell(row, d) else ""
  {
    if live != [] && live[0] != d {
      assert KeyOf(row, live)[1..] == KeyOf(row, live[1..]);
      KeyCellIs(row, live[1..], d);
    }
  }

  lemma FirstRowCells(row: Row, dims: seq<Dim>, live: seq<Dim>)
    ensures Blanked(dims, LiveSet(live), Some(row)) == KeyCells(dims, live, KeyOf(row, live))
  {
    forall d | d in dims
      ensures Blanked(dims, LiveSet(live), Some(row))[d] == KeyCell(live, KeyOf(row, live), d)
    {
      KeyCellIs(row, live, d);
    }
  }

  lemma SummedOnward(
    out0: Row, seen0: set<Metric>, out: Row, seen: set<Metric>, rows: seq<Row>, i: nat, metrics: seq<Metric>,
    live: seq<Dim>)
    requires i < |rows| && Summed(out0, seen0, rows[..i], metrics, live, KeyOf(rows[i], live))
    requires out.metrics.Keys == out0.metrics.Keys && seen <= out.metrics.Keys
    requires forall m :: m in metrics ==> Added(out0, seen0, rows[i], out, seen, m)
    ensures Summed(out, seen, rows[..i + 1], metrics, live, KeyOf(rows[i], live))
  {
    var key := KeyOf(rows[i], live);
    forall m | m in metrics
      ensures SummedMetric(out, seen, GroupTotal(rows[..i + 1], live, key, m), m)
    {
      assert SummedMetric(out0, seen0, GroupTotal(rows[..i], live, key, m), m);
      assert Added(out0, seen0, rows[i], out, seen, m);
      GroupTotalStep(rows, i, live, key, m);
    }
  }

  lemma OthersUnchanged(
    out: Row, seen: set<Metric>, rows: seq<Row>, i: nat, metrics: seq<Metric>, live: seq<Dim>, key: Key)
    requires i < |rows| && Summed(out, seen, rows[..i], metrics, live, key) && key != KeyOf(rows[i], live)
    ensures Summed(out, seen, rows[..i + 1], metrics, live, key)
  {
    forall m | m in metrics
      ensures SummedMetric(out, seen, GroupTotal(rows[..i + 1], live, key, m), m)
    {
      assert SummedMetric(out, seen, GroupTotal(rows[..i], live, key, m), m);
      GroupTotalStep(rows, i, live, key, m);
    }
  }

  lemma StartsAtZero(out: Row, rows: seq<Row>, metrics: seq<Metric>, live: seq<Dim>, key: Key)
    requires out.metrics == Zeros(metrics) && key !in Groups(rows, live)
    ensures Summed(out, {}, rows, metrics, live, key)
  {
    forall m | m in metrics
      ensures SummedMetric(out, {}, GroupTotal(rows, live, key, m), m)
    {
      NotYetSeen(rows, live, key, m);
    }
  }

  /** The grouping state after some rows: for each group met, its running row and non-null metrics. */
  ghost predicate Grouped(
    groups: map<Key, Row>, nonNull: map<Key, set<Metric>>, rows: seq<Row>, dims: seq<Dim>, metrics: seq<Metric>,
    live: seq<Dim>)
  {
    && groups.Keys == nonNull.Keys
    && (forall key :: key in groups <==> key in Groups(rows, live))
    && (forall key {:trigger Running(groups, nonNull, rows, dims, metrics, live, key)} ::
          key in groups ==> Running(groups, nonNull, rows, dims, metrics, live, key))
  }

  ghost predicate Running(
    groups: map<Key, Row>, nonNull: map<Key, set<Metric>>, rows: seq<Row>, dims: seq<Dim>, metrics: seq<Metric>,
    live: seq<Dim>, key: Key)
  {
    && key in groups && key in nonNull
    && groups[key].cells == KeyCells(dims, live, key) && groups[key].mask == Some(Mask(dims, LiveSet(live)))
    && Summed(groups[key], nonNull[key], rows, metrics, live, key)
  }

  /** One round of the loop over the rows. */
  method GroupOne(
    groups0: map<Key, Row>, nonNull0: map<Key, set<Metric>>, ghost rows: seq<Row>, i: nat, row: Row, dims: seq<Dim>,
    metrics: seq<Metric>, live: seq<Dim>)
    returns (groups: map<Key, Row>, nonNull: map<Key, set<Metric>>)
    requires i < |rows| && row == rows[i] && Distinct(metrics)
    requires Grouped(groups0, nonNull0, rows[..i], dims, metrics, live)
    ensures Grouped(groups, nonNull, rows[..i + 1], dims, metrics, live)
  {
    var key := KeyOf(row, live);
    var running, seen := GroupSoFar(groups0, nonNull0, rows[..i], row, dims, metrics, live);
    SummedIsSome(running, seen, rows[..i], metrics, live, key);
    var out, seenNow := AddRow(running, seen, row, metrics);
    SummedOnward(running, seen, out, seenNow, rows, i, metrics, live);
    groups, nonNull := groups0[key := out], nonNull0[key := seenNow];
    GroupedOnward(groups0, nonNull0, rows, i, dims, metrics, live, out, seenNow);
  }

  /** The group of `row`, begun with a blank row when it is new. */
  method GroupSoFar(
    groups: map<Key, Row>, nonNull: map<Key, set<Metric>>, ghost rows: seq<Row>, row: Row, dims: seq<Dim>,
    metrics: seq<Metric>, live: seq<Dim>)
    returns (running: Row, seen: set<Metric>)
    requires Grouped(groups, nonNull, rows, dims, metrics, live)
    ensures Summed(running, seen, rows, metrics, live, KeyOf(row, live))
    ensures running.cells == KeyCells(dims, live, KeyOf(row, live)) && running.mask == Some(Mask(dims, LiveSet(live)))
  {
    var key := KeyOf(row, live);
    if key !in groups {
      running := EmptyRollupRow(dims, metrics, LiveSet(live), Some(row));
      seen := {};
      FirstRowCells(row, dims, live);
      StartsAtZero(running, rows, metrics, live, key);
    } else {
      assert Running(groups, nonNull, rows, dims, metrics, live, key);
      running, seen := groups[key], nonNull[key];
    }
  }

  lemma GroupedOnward(
    groups: map<Key, Row>, nonNull: map<Key, set<Metric>>, rows: seq<Row>, i: nat, dims: seq<Dim>,
    metrics: seq<Metric>, live: seq<Dim>, out: Row, seen: set<Metric>)
    requires i < |rows| && Grouped(groups, nonNull, rows[..i], dims, metrics, live)
    requires Summed(out, seen, rows[..i + 1], metrics, live, KeyOf(rows[i], live))
    requires out.cells == KeyCells(dims, live, KeyOf(rows[i], live)) && out.mask == Some(Mask(dims, LiveSet(live)))
    ensures Grouped(groups[KeyOf(rows[i], live) := out], nonNull[KeyOf(rows[i], live) := seen], rows[..i + 1], dims,
                    metrics, live)
  {
    var key := KeyOf(rows[i], live);
    GroupsStep(rows, i, live);
    var groups1, nonNull1 := groups[key := out], nonNull[key := seen];
    forall other | other in groups1
      ensures Running(groups1, nonNull1, rows[..i + 1], dims, metrics, live, other)
    {
      if other != key {
        assert Running(groups, nonNull, rows[..i], dims, metrics, live, other);
        OthersUnchanged(groups[other], nonNull[other], rows, i, metrics, live, other);
      }
    }
  }

  lemma SummedIsSome(out: Row, seen: set<Metric>, rows: seq<Row>, metrics: seq<Metric>, live: seq<Dim>, key: Key)
    requires Summed(out, seen, rows, metrics, live, key)
    ensures forall m :: m in metrics ==> m in out.metrics && out.metrics[m].Some?
  {
    forall m | m in metrics
      ensures m in out.metrics && out.metrics[m].Some?
    {
      assert SummedMetric(out, seen, GroupTotal(rows, live, key, m), m);
    }
  }

  /** The last loop: a metric never seen non-null in a group is null. */
  method NullUnseen(out0: Row, seen: set<Metric>, metrics: seq<Metric>) returns (out: Row)
    requires Same(metrics, out0.metrics.Keys)
    ensures out == out0.(metrics := map m | m in metrics :: if m in seen then out0.metrics[m] else None)
  {
    out := out0;
    for i := 0 to |metrics|
      invariant out.cells == out0.cells && out.mask == out0.mask && out.metrics.Keys == out0.metrics.Keys
      invariant forall m :: m in metrics ==>
        out.metrics[m] == if m in metrics[..i] && m !in seen then None else out0.metrics[m]
    {
      assert metrics[..i + 1] == metrics[..i] + [metrics[i]];
      if metrics[i] !in seen {
        out := out.(metrics := out.metrics[metrics[i] := None]);
      }
    }
    assert metrics[..|metrics|] == metrics;
  }

  lemma NulledIsGroupRow(
    out: Row, seen: set<Metric>, rows: seq<Row>, dims: seq<Dim>, metrics: seq<Metric>, live: seq<Dim>, key: Key)
    requires Summed(out, seen, rows, metrics, live, key)
    requires out.cells == KeyCells(dims, live, key) && out.mask == Some(Mask(dims, LiveSet(live)))
    ensures out.(metrics := map m | m in metrics :: if m in seen then out.metrics[m] else None)
         == GroupRow(rows, dims, metrics, live, key)
  {
    forall m | m in metrics
      ensures m in out.metrics
      ensures (if m in seen then out.metrics[m] else None) == GroupTotal(rows, live, key, m)
    {
      assert SummedMetric(out, seen, GroupTotal(rows, live, key, m), m);
    }
  }

  /** `_aggregate_rows_for_set`; `order` is the insertion order of the groups dict. */
  method AggregateRowsForSet(rows: seq<Row>, dims: seq<Dim>, metrics: seq<Metric>, live: seq<Dim>)
    returns (out: seq<Row>)
    requires Distinct(metrics)
    ensures out == Aggregate(rows, dims, metrics, live)
  {
    if rows == [] && live == [] {
      var row := EmptyRollupRow(dims, metrics, LiveSet(live), None);
      assert LiveSet(live) == {};
      return [row];
    }
    var groups: map<Key, Row>, nonNull: map<Key, set<Metric>> := map[], map[];
    var order: seq<Key> := [];
    for i := 0 to |rows|
      invariant Grouped(groups, nonNull, rows[..i], dims, metrics, live)
      invariant order == Groups(rows[..i], live)
    {
      GroupsStep(rows, i, live);
      var key := KeyOf(rows[i], live);
      if key !in groups {
        order := order + [key];
      }
      groups, nonNull := GroupOne(groups, nonNull, rows, i, rows[i], dims, metrics, live);
    }
    assert rows[..|rows|] == rows;
    out := [];
    for j := 0 to |order|
      invariant out == GroupRows(rows, dims, metrics, live, order[..j])
    {
      var key := order[j];
      assert key in groups;
      assert Running(groups, nonNull, rows, dims, metrics, live, key);
      NulledIsGroupRow(groups[key], nonNull[key], rows, dims, metrics, live, key);
      var nulled := NullUnseen(groups[key], nonNull[key], metrics);
      out := out + [nulled];
    }
    assert order[..|order|] == order;
  }

  // ----- The grand total -------------------------------------------------------------------------

  /** SUM over the whole input, null when it has no value. */
  function Sum(rows: seq<Row>, m: Metric): Option<real> {
    if rows == [] then None else Plus(Sum(rows[..|rows| - 1], m), Value(rows[|rows| - 1], m))
  }

  /** `SqlDialect.sum`: CASE WHEN COUNT(*) = 0 THEN 0 ELSE SUM(m) END. */
  function SqlSum(rows: seq<Row>, m: Metric): Option<real> {
    if rows == [] then Some(0.0) else Sum(rows, m)
  }

  lemma {:induction false} GroupsOfNothingLive(rows: seq<Row>)
    requires rows != []
    ensures Groups(rows, []) == [[]]
    ensures forall m :: GroupTotal(rows, [], [], m) == Sum(rows, m)
  {
    var n := |rows| - 1;
    assert rows[..n + 1] == rows;
    GroupsStep(rows, n, []);
    assert KeyOf(rows[n], []) == [];
    if n == 0 {
      assert Groups(rows[..n], []) == [];
    } else {
      GroupsOfNothingLive(rows[..n]);
    }
  }

  /** The grand total is one row, and each of its metrics is what the SQL dialects' sum computes. */
  lemma GrandTotalIsSqlSum(rows: seq<Row>, dims: seq<Dim>, metrics: seq<Metric>)
    ensures var total := Aggregate(rows, dims, metrics, []);
            |total| == 1 && forall m :: m in metrics ==> total[0].metrics[m] == SqlSum(rows, m)
  {
    if rows != [] {
      GroupsOfNothingLive(rows);
    }
  }

  // ----- Rolling up again ------------------------------------------------------------------------

  lemma PlusLaws(a: Option<real>, b: Option<real>, c: Option<real>)
    ensures Plus(a, b) == Plus(b, a) && Plus(Plus(a, b), c) == Plus(a, Plus(b, c))
  {
  }

  /** The part of a key over `live` that a coarser grain keeps. */
  function Project(live: seq<Dim>, key: Key, fewer: seq<Dim>): (part: Key)
    ensures |part| == |fewer| && forall i :: 0 <= i < |fewer| ==> part[i] == KeyCell(live, key, fewer[i])
  {
    seq(|fewer|, i requires 0 <= i < |fewer| => KeyCell(live, key, fewer[i]))
  }

  function Projections(live: seq<Dim>, keys: seq<Key>, fewer: seq<Dim>): (parts: seq<Key>)
    ensures |parts| == |keys| && forall i :: 0 <= i < |keys| ==> parts[i] == Project(live, keys[i], fewer)
  {
    seq(|keys|, i requires 0 <= i < |keys| => Project(live, keys[i], fewer))
  }

  predicate Within(fewer: seq<Dim>, live: seq<Dim>) {
    forall d :: d in fewer ==> d in live
  }

  lemma WithinNothing(fewer: seq<Dim>)
    ensures Within(fewer, []) <==> fewer == []
  {
    if fewer != [] {
      assert fewer[0] in fewer;
    }
  }

  lemma ProjectKey(row: Row, live: seq<Dim>, fewer: seq<Dim>)
    requires Within(fewer, live)
    ensures Project(live, KeyOf(row, live), fewer) == KeyOf(row, fewer)
  {
    forall i | 0 <= i < |fewer|
      ensures KeyCell(live, KeyOf(row, live), fewer[i]) == Cell(row, fewer[i])
    {
      KeyCellIs(row, live, fewer[i]);
    }
  }

  lemma GroupRowKey(
    rows: seq<Row>, dims: seq<Dim>, metrics: seq<Metric>, live: seq<Dim>, key: Key, fewer: seq<Dim>)
    requires Within(fewer, dims)
    ensures KeyOf(GroupRow(rows, dims, metrics, live, key), fewer) == Project(live, key, fewer)
  {
  }

  /** Dropping repeats before projecting does not change which projected keys come first. */
  lemma {:induction false} FirstsOfProjections(live: seq<Dim>, keys: seq<Key>, fewer: seq<Dim>)
    ensures Firsts(Projections(live, Firsts(keys), fewer)) == Firsts(Projections(live, keys, fewer))
  {
    if keys != [] {
      var n := |keys| - 1;
      var front, last := keys[..n], keys[n];
      FirstsOfProjections(live, front, fewer);
      var parts := Projections(live, keys, fewer);
      assert parts[..n] == Projections(live, front, fewer);
      if last in Firsts(front) {
        FirstsSame(front);
        var i :| 0 <= i < n && front[i] == last;
        assert parts[..n][i] == Project(live, last, fewer);
        FirstsSame(parts[..n]);
        assert Firsts(parts) == Firsts(parts[..n]);
      } else {
        var before := Firsts(front);
        var more := Projections(live, before + [last], fewer);
        assert more[..|before|] == Projections(live, before, fewer);
        assert Firsts(keys) == before + [last];
        assert Firsts(parts) == Firsts(more);
      }
    }
  }

  /** The subtotals of `keys`, summed over those that project to `part`. */
  function Retotal(
    rows: seq<Row>, live: seq<Dim>, keys: seq<Key>, fewer: seq<Dim>, part: Key, m: Metric): Option<real>
  {
    if keys == [] then None
    else
      var n := |keys| - 1;
      var before := Retotal(rows, live, keys[..n], fewer, part, m);
      if Project(live, keys[n], fewer) == part then Plus(before, GroupTotal(rows, live, keys[n], m)) else before
  }

  lemma {:induction false} SubtotalsRetotal(
    rows: seq<Row>, dims: seq<Dim>, metrics: seq<Metric>, live: seq<Dim>, keys: seq<Key>, fewer: seq<Dim>, part: Key,
    m: Metric)
    requires Within(fewer, dims) && m in metrics
    ensures GroupTotal(GroupRows(rows, dims, metrics, live, keys), fewer, part, m)
         == Retotal(rows, live, keys, fewer, part, m)
  {
    if keys != [] {
      var n := |keys| - 1;
      var out := GroupRows(rows, dims, metrics, live, keys);
      assert out[..n] == GroupRows(rows, dims, metrics, live, keys[..n]);
      SubtotalsRetotal(rows, dims, metrics, live, keys[..n], fewer, part, m);
      GroupRowKey(rows, dims, metrics, live, keys[n], fewer);
    }
  }

  /** One more detail row adds its value to the one subtotal of its key. */
  lemma {:induction false} RetotalStep(
    rows: seq<Row>, live: seq<Dim>, keys: seq<Key>, fewer: seq<Dim>, part: Key, m: Metric, i: nat)
    requires i < |rows| && Within(fewer, live) && Unique(keys)
    ensures Retotal(rows[..i + 1], live, keys, fewer, part, m) ==
            var before := Retotal(rows[..i], live, keys, fewer, part, m);
            if KeyOf(rows[i], live) in keys && KeyOf(rows[i], fewer) == part
              then Plus(before, Value(rows[i], m))
              else before
  {
    if keys != [] {
      var n := |keys| - 1;
      RetotalStep(rows, live, keys[..n], fewer, part, m, i);
      GroupTotalStep(rows, i, live, keys[n], m);
      ProjectKey(rows[i], live, fewer);
      var key, value := KeyOf(rows[i], live), Value(rows[i], m);
      assert key in keys <==> key in keys[..n] || key == keys[n];
      var before, total := Retotal(rows[..i], live, keys[..n], fewer, part, m), GroupTotal(rows[..i], live, keys[n], m);
      PlusLaws(before, total, value);
      PlusLaws(before, value, total);
      PlusLaws(total, value, value);
    }
  }

  predicate Unique(keys: seq<Key>) {
    forall i, j :: 0 <= i < j < |keys| ==> keys[i] != keys[j]
  }

  lemma {:induction false} NothingToRetotal(live: seq<Dim>, keys: seq<Key>, fewer: seq<Dim>, part: Key, m: Metric)
    ensures Retotal([], live, keys, fewer, part, m).None?
  {
    if keys != [] {
      NothingToRetotal(live, keys[..|keys| - 1], fewer, part, m);
    }
  }

  /** For any distinct keys that include all groups, the subtotals add up to the coarser total. */
  lemma {:induction false} RetotalIsTotal(
    rows: seq<Row>, live: seq<Dim>, keys: seq<Key>, fewer: seq<Dim>, part: Key, m: Metric, i: nat)
    requires i <= |rows| && Within(fewer, live) && Unique(keys)
    requires forall j :: 0 <= j < i ==> KeyOf(rows[j], live) in keys
    ensures Retotal(rows[..i], live, keys, fewer, part, m) == GroupTotal(rows[..i], fewer, part, m)
  {
    if i == 0 {
      NothingToRetotal(live, keys, fewer, part, m);
    } else {
      RetotalIsTotal(rows, live, keys, fewer, part, m, i - 1);
      RetotalStep(rows, live, keys, fewer, part, m, i - 1);
      GroupTotalStep(rows, i - 1, fewer, part, m);
    }
  }

  lemma CoarserTotal(
    rows: seq<Row>, dims: seq<Dim>, metrics: seq<Metric>, live: seq<Dim>, fewer: seq<Dim>, part: Key, m: Metric)
    requires Within(live, dims) && Within(fewer, live) && m in metrics
    ensures GroupTotal(GroupRows(rows, dims, metrics, live, Groups(rows, live)), fewer, part, m)
         == GroupTotal(rows, fewer, part, m)
  {
    var keys := Groups(rows, live);
    FirstsSame(KeysOf(rows, live));
    forall j | 0 <= j < |rows|
      ensures KeyOf(rows[j], live) in keys
    {
      assert KeysOf(rows, live)[j] == KeyOf(rows[j], live);
    }
    SubtotalsRetotal(rows, dims, metrics, live, keys, fewer, part, m);
    RetotalIsTotal(rows, live, keys, fewer, part, m, |rows|);
    assert rows[..|rows|] == rows;
  }

  lemma CoarserGroups(rows: seq<Row>, dims: seq<Dim>, metrics: seq<Metric>, live: seq<Dim>, fewer: seq<Dim>)
    requires Within(live, dims) && Within(fewer, live)
    ensures Groups(GroupRows(rows, dims, metrics, live, Groups(rows, live)), fewer) == Groups(rows, fewer)
  {
    var keys := Groups(rows, live);
    var out := GroupRows(rows, dims, metrics, live, keys);
    forall i | 0 <= i < |out|
      ensures KeysOf(out, fewer)[i] == Projections(live, keys, fewer)[i]
    {
      GroupRowKey(rows, dims, metrics, live, keys[i], fewer);
    }
    assert KeysOf(out, fewer) == Projections(live, keys, fewer);
    forall i | 0 <= i < |rows|
      ensures Projections(live, KeysOf(rows, live), fewer)[i] == KeysOf(rows, fewer)[i]
    {
      ProjectKey(rows[i], live, fewer);
    }
    assert Projections(live, KeysOf(rows, live), fewer) == KeysOf(rows, fewer);
    FirstsOfProjections(live, KeysOf(rows, live), fewer);
  }

  /** Rolling a grain up to a coarser one is rolling up the detail rows, row for row. */
  lemma RollupComposes(rows: seq<Row>, dims: seq<Dim>, metrics: seq<Metric>, live: seq<Dim>, fewer: seq<Dim>)
    requires Within(live, dims) && Within(fewer, live)
    ensures Aggregate(Aggregate(rows, dims, metrics, live), dims, metrics, fewer)
         == Aggregate(rows, dims, metrics, fewer)
  {
    if rows == [] && live == [] {
      WithinNothing(fewer);
      ZeroAgain(dims, metrics);
    } else {
      var out := GroupRows(rows, dims, metrics, live, Groups(rows, live));
      CoarserGroups(rows, dims, metrics, live, fewer);
      forall key
        ensures GroupRow(out, dims, metrics, fewer, key) == GroupRow(rows, dims, metrics, fewer, key)
      {
        forall m | m in metrics
          ensures GroupTotal(out, fewer, key, m) == GroupTotal(rows, fewer, key, m)
        {
          CoarserTotal(rows, dims, metrics, live, fewer, key, m);
        }
      }
      NoRowsNoGroups(rows, live);
    }
  }

  lemma NoRowsNoGroups(rows: seq<Row>, live: seq<Dim>)
    ensures rows == [] <==> Groups(rows, live) == []
  {
    FirstsSame(KeysOf(rows, live));
    if rows != [] {
      assert KeysOf(rows, live)[0] in KeysOf(rows, live);
    }
  }

  lemma ZeroAgain(dims: seq<Dim>, metrics: seq<Metric>)
    ensures Aggregate([ZeroRow(dims, metrics)], dims, metrics, []) == [ZeroRow(dims, metrics)]
  {
    var zero := ZeroRow(dims, metrics);
    GroupsOfNothingLive([zero]);
    assert LiveSet([]) == {};
    assert KeyCells(dims, [], []) == Blanked(dims, {}, None);
    forall m | m in metrics
      ensures GroupTotal([zero], [], [], m) == Some(0.0)
    {
      assert Sum([zero][..0], m) == None;
    }
    assert (map m | m in metrics :: GroupTotal([zero], [], [], m)) == Zeros(metrics);
    assert GroupRow([zero], dims, metrics, [], []) == zero;
    assert GroupRows([zero], dims, metrics, [], [[]]) == [zero];
  }

  // ----- Grains ----------------------------------------------------------------------------------

  /** Masks tell grains apart: equal masks mean the same live dimensions. */
  lemma {:induction false} MaskDetermines(dims: seq<Dim>, a: set<Dim>, b: set<Dim>)
    ensures Mask(dims, a) == Mask(dims, b) <==> forall d :: d in dims ==> (d in a <==> d in b)
  {
    if dims != [] {
      var n := |dims| - 1;
      MaskDetermines(dims[..n], a, b);
      assert dims == dims[..n] + [dims[n]];
    }
  }

  lemma {:induction false} MaskOfAllLive(dims: seq<Dim>, live: set<Dim>)
    requires forall d :: d in dims ==> d in live
    ensures Mask(dims, live) == 0
  {
    if dims != [] {
      MaskOfAllLive(dims[..|dims| - 1], live);
    }
  }

  /** `k` one bits: `2^k - 1`. */
  function Ones(k: nat): (mask: nat)
    ensures mask + 1 == Shift(1, k)
  {
    if k == 0 then 0 else 2 * Ones(k - 1) + 1
  }

  /** With the first `k` of `n` distinct dimensions live, the mask is `2^(n-k) - 1`. */
  lemma {:induction false} PrefixMask(dims: seq<Dim>, k: nat, n: nat)
    requires k <= n <= |dims| && Distinct(dims)
    ensures Mask(dims[..n], LiveSet(dims[..k])) == Ones(n - k)
    decreases n
  {
    if n == k {
      MaskOfAllLive(dims[..n], LiveSet(dims[..k]));
    } else {
      PrefixMask(dims, k, n - 1);
      assert dims[..n][..n - 1] == dims[..n - 1];
      assert dims[n - 1] !in dims[..k];
    }
  }

  lemma {:induction false} OnesGrow(a: nat, b: nat)
    requires a < b
    ensures Ones(a) < Ones(b)
    decreases b
  {
    if a > 0 {
      OnesGrow(a - 1, b - 1);
    } else if b > 1 {
      OnesGrow(a, b - 1);
    }
  }

  /** Whether the grain with the first `k` of `n` dimensions live is requested. */
  predicate Wanted(grains: Grains, n: int, k: int) {
    (grains.detail && k == n) || (grains.subtotals && 1 <= k < n) || (grains.grandTotal && k == 0)
  }

  /** The requested prefixes longer than `level`, longest first, and nothing else. */
  predicate WantedAbove(sets: seq<seq<Dim>>, dims: seq<Dim>, grains: Grains, level: int) {
    && (forall i :: 0 <= i < |sets| ==> WantedPrefix(sets[i], dims, grains) && |sets[i]| > level)
    && (forall i, j :: 0 <= i < j < |sets| ==> |sets[i]| > |sets[j]|)
    && (forall k {:trigger InSets(sets, dims, k)} ::
          0 <= k <= |dims| && k > level && Wanted(grains, |dims|, k) ==> InSets(sets, dims, k))
  }

  predicate WantedPrefix(prefix: seq<Dim>, dims: seq<Dim>, grains: Grains) {
    |prefix| <= |dims| && prefix == dims[..|prefix|] && Wanted(grains, |dims|, |prefix|)
  }

  predicate WantedPrefixes(sets: seq<seq<Dim>>, dims: seq<Dim>, grains: Grains) {
    WantedAbove(sets, dims, grains, -1)
  }

  lemma NextLevel(sets: seq<seq<Dim>>, dims: seq<Dim>, grains: Grains, level: nat)
    requires level <= |dims| && WantedAbove(sets, dims, grains, level)
    ensures if Wanted(grains, |dims|, level) then WantedAbove(sets + [dims[..level]], dims, grains, level - 1)
            else WantedAbove(sets, dims, grains, level - 1)
  {
    var more := sets + [dims[..level]];
    forall k | 0 <= k <= |dims| && k > level && Wanted(grains, |dims|, k)
      ensures InSets(more, dims, k)
    {
      assert InSets(sets, dims, k);
    }
    assert more[|sets|] == dims[..level];
  }

  /** `_requested_grouping_sets`. */
  method RequestedGroupingSets(dims: seq<Dim>, grains: Grains) returns (sets: seq<seq<Dim>>)
    requires dims != []
    ensures WantedPrefixes(sets, dims, grains)
  {
    var n := |dims|;
    assert dims[..n] == dims;
    sets := [];
    NextLevel(sets, dims, grains, n);
    if grains.detail {
      sets := sets + [dims];
    }
    if grains.subtotals {
      var level := n - 1;
      while level > 0
        invariant 0 <= level < n && WantedAbove(sets, dims, grains, level)
      {
        NextLevel(sets, dims, grains, level);
        sets := sets + [dims[..level]];
        level := level - 1;
      }
    }
    assert WantedAbove(sets, dims, grains, 0);
    NextLevel(sets, dims, grains, 0);
    if grains.grandTotal {
      sets := sets + [[]];
    }
  }

  /** The rows of one grain, told by their mask. */
  function WithMask(rows: seq<Row>, mask: nat): seq<Row> {
    if rows == [] then []
    else if rows[0].mask == Some(mask) then [rows[0]] + WithMask(rows[1..], mask)
    else WithMask(rows[1..], mask)
  }

  lemma Associate(a: seq<Row>, b: seq<Row>, c: seq<Row>)
    ensures a + (b + c) == a + b + c
  {
  }

  lemma {:induction false} WithMaskConcat(a: seq<Row>, b: seq<Row>, mask: nat)
    ensures WithMask(a + b, mask) == WithMask(a, mask) + WithMask(b, mask)
  {
    if a == [] {
      assert a + b == b;
    } else {
      var first, rest := a[0], a[1..];
      assert (a + b)[0] == first && (a + b)[1..] == rest + b;
      WithMaskConcat(rest, b, mask);
      Associate([first], WithMask(rest, mask), WithMask(b, mask));
    }
  }

  lemma {:induction false} UniformMask(rows: seq<Row>, own: nat, mask: nat)
    requires AllMasked(rows, own)
    ensures WithMask(rows, mask) == if own == mask then rows else []
  {
    if rows != [] {
      UniformMask(rows[1..], own, mask);
      assert rows == [rows[0]] + rows[1..];
    }
  }

  predicate AllMasked(rows: seq<Row>, mask: nat) {
    forall i :: 0 <= i < |rows| ==> rows[i].mask == Some(mask)
  }

  lemma AggregateOwnMask(rows: seq<Row>, dims: seq<Dim>, metrics: seq<Metric>, live: seq<Dim>)
    ensures AllMasked(Aggregate(rows, dims, metrics, live), Mask(dims, LiveSet(live)))
  {
    if rows == [] && live == [] {
      assert LiveSet(live) == {};
    }
  }

  lemma AggregateMask(rows: seq<Row>, dims: seq<Dim>, metrics: seq<Metric>, k: nat)
    requires k <= |dims| && Distinct(dims)
    ensures AllMasked(Aggregate(rows, dims, metrics, dims[..k]), Ones(|dims| - k))
  {
    var live, out := dims[..k], Aggregate(rows, dims, metrics, dims[..k]);
    MaskOfPrefix(dims, k);
    AggregateOwnMask(rows, dims, metrics, live);
    assert AllMasked(out, Mask(dims, LiveSet(live)));
  }

  lemma MaskOfPrefix(dims: seq<Dim>, k: nat)
    requires k <= |dims| && Distinct(dims)
    ensures Mask(dims, LiveSet(dims[..k])) == Ones(|dims| - k)
  {
    PrefixMask(dims, k, |dims|);
    assert dims[..|dims|] == dims;
  }

  predicate InSets(sets: seq<seq<Dim>>, dims: seq<Dim>, k: int) {
    0 <= k <= |dims| && dims[..k] in sets
  }

  // ----- The whole rollup ------------------------------------------------------------------------

  /** The rollups of the requested grains with at most `k` live dimensions, finest first. */
  function RollupFrom(
    detail: seq<Row>, dims: seq<Dim>, metrics: seq<Metric>, grains: Grains, k: int): seq<Row>
    requires -1 <= k <= |dims|
    decreases k + 1
  {
    if k < 0 then []
    else
      (if Wanted(grains, |dims|, k) then Aggregate(detail, dims, metrics, dims[..k]) else [])
      + RollupFrom(detail, dims, metrics, grains, k - 1)
  }

  /** Grains that are not requested contribute nothing. */
  lemma {:induction false} SkipUnwanted(
    detail: seq<Row>, dims: seq<Dim>, metrics: seq<Metric>, grains: Grains, level: int, k: int)
    requires -1 <= level <= k <= |dims|
    requires forall j :: level < j <= k ==> !Wanted(grains, |dims|, j)
    ensures RollupFrom(detail, dims, metrics, grains, k) == RollupFrom(detail, dims, metrics, grains, level)
    decreases k - level
  {
    if level < k {
      SkipUnwanted(detail, dims, metrics, grains, level, k - 1);
    }
  }

  predicate DetailOnly(grains: Grains, n: nat) {
    grains.detail && !grains.grandTotal && (!grains.subtotals || n == 1)
  }

  predicate NothingWanted(grains: Grains, n: nat) {
    !grains.detail && !grains.grandTotal && (!grains.subtotals || n == 1)
  }

  lemma PrefixListed(sets: seq<seq<Dim>>, dims: seq<Dim>, grains: Grains, k: int)
    requires WantedPrefixes(sets, dims, grains)
    ensures 0 <= k <= |dims| ==> (InSets(sets, dims, k) <==> Wanted(grains, |dims|, k))
  {
    if InSets(sets, dims, k) {
      var i :| 0 <= i < |sets| && sets[i] == dims[..k];
      assert |sets[i]| == k;
    }
  }

  lemma SecondIsShorter(sets: seq<seq<Dim>>, dims: seq<Dim>, grains: Grains)
    requires WantedPrefixes(sets, dims, grains)
    ensures |sets| <= 1 || |sets[1]| < |sets[0]|
  {
  }

  lemma SetsAreWanted(sets: seq<seq<Dim>>, dims: seq<Dim>, grains: Grains)
    requires dims != [] && WantedPrefixes(sets, dims, grains)
    ensures sets == [] <==> NothingWanted(grains, |dims|)
    ensures sets == [dims] <==> DetailOnly(grains, |dims|)
  {
    var n := |dims|;
    PrefixListed(sets, dims, grains, n);
    PrefixListed(sets, dims, grains, 1);
    PrefixListed(sets, dims, grains, 0);
    assert dims[..n] == dims && |dims[..0]| == 0 && |dims[..1]| == 1;
    if sets != [] {
      PrefixListed(sets, dims, grains, |sets[0]|);
      if DetailOnly(grains, n) {
        assert sets[0] == dims;
        assert forall i :: 0 <= i < |sets| ==> |sets[i]| == n;
        SecondIsShorter(sets, dims, grains);
      }
    }
  }

  /** No set lies strictly between two consecutive ones, above the first, or below the last. */
  lemma NotBetween(sets: seq<seq<Dim>>, dims: seq<Dim>, grains: Grains, i: nat, j: int)
    requires WantedPrefixes(sets, dims, grains) && i <= |sets| && InSets(sets, dims, j)
    ensures (i > 0 && j >= |sets[i - 1]|) || (i < |sets| && j <= |sets[i]|)
  {
    var m :| 0 <= m < |sets| && sets[m] == dims[..j];
    assert |sets[m]| == j;
    assert m < i - 1 ==> |sets[m]| > |sets[i - 1]|;
  }

  lemma NoneWantedBetween(sets: seq<seq<Dim>>, dims: seq<Dim>, grains: Grains, i: nat, j: int)
    requires WantedPrefixes(sets, dims, grains) && i <= |sets| && 0 <= j <= |dims|
    requires (i > 0 ==> j < |sets[i - 1]|) && (i < |sets| ==> j > |sets[i]|)
    ensures !Wanted(grains, |dims|, j)
  {
    PrefixListed(sets, dims, grains, j);
    if InSets(sets, dims, j) {
      NotBetween(sets, dims, grains, i, j);
    }
  }

  /** `rollup_detail_rows`: one result set. */
  method RollupDetailRows(detail: seq<Row>, dims: seq<Dim>, metrics: seq<Metric>, grains: Grains)
    returns (results: seq<seq<Row>>)
    requires Distinct(metrics)
    ensures |results| == 1
    ensures dims == [] || DetailOnly(grains, |dims|) ==> results[0] == detail
    ensures dims != [] && NothingWanted(grains, |dims|) ==> results[0] == []
    ensures dims != [] && !DetailOnly(grains, |dims|) ==>
      results[0] == RollupFrom(detail, dims, metrics, grains, |dims|)
  {
    if dims == [] {
      return [detail];
    }
    var sets := RequestedGroupingSets(dims, grains);
    SetsAreWanted(sets, dims, grains);
    if sets == [] {
      TakeRest(detail, dims, metrics, grains, sets, []);
      return [[]];
    }
    if sets == [dims] {
      return [detail];
    }
    var rolled := RollSets(detail, dims, metrics, grains, sets);
    results := [rolled];
  }

  /** The loop over the requested grouping sets. */
  method RollSets(
    detail: seq<Row>, dims: seq<Dim>, metrics: seq<Metric>, ghost grains: Grains, sets: seq<seq<Dim>>)
    returns (rolled: seq<Row>)
    requires Distinct(metrics) && WantedPrefixes(sets, dims, grains)
    ensures rolled == RollupFrom(detail, dims, metrics, grains, |dims|)
  {
    rolled := [];
    for i := 0 to |sets|
      invariant Rolling(detail, dims, metrics, grains, sets, rolled, i)
    {
      NextGrain(detail, dims, metrics, grains, sets, i);
      var part := AggregateRowsForSet(detail, dims, metrics, sets[i]);
      TakeGrain(detail, dims, metrics, grains, sets, i, rolled, part);
      rolled := rolled + part;
    }
    TakeRest(detail, dims, metrics, grains, sets, rolled);
  }

  /** The longest grain not yet rolled up after the first `i` sets. */
  function Next(sets: seq<seq<Dim>>, dims: seq<Dim>, i: nat): int
    requires i <= |sets|
  {
    if i == 0 then |dims| else |sets[i - 1]| - 1
  }

  /** After the first `i` sets, the rollups of the remaining grains are what is missing. */
  ghost predicate Rolling(
    detail: seq<Row>, dims: seq<Dim>, metrics: seq<Metric>, grains: Grains, sets: seq<seq<Dim>>, rolled: seq<Row>,
    i: int)
  {
    && 0 <= i <= |sets| && (i == 0 ==> rolled == []) && -1 <= Next(sets, dims, i) <= |dims|
    && rolled + RollupFrom(detail, dims, metrics, grains, Next(sets, dims, i))
       == RollupFrom(detail, dims, metrics, grains, |dims|)
  }

  lemma NextGrain(
    detail: seq<Row>, dims: seq<Dim>, metrics: seq<Metric>, grains: Grains, sets: seq<seq<Dim>>, i: nat)
    requires WantedPrefixes(sets, dims, grains) && i < |sets| && -1 <= Next(sets, dims, i) <= |dims|
    ensures |sets[i]| <= |dims|
    ensures RollupFrom(detail, dims, metrics, grains, Next(sets, dims, i)) ==
      Aggregate(detail, dims, metrics, sets[i]) + RollupFrom(detail, dims, metrics, grains, |sets[i]| - 1)
  {
    var level, next := |sets[i]|, Next(sets, dims, i);
    assert WantedPrefix(sets[i], dims, grains);
    assert i > 0 ==> |sets[i - 1]| > level;
    forall j | level < j <= next
      ensures !Wanted(grains, |dims|, j)
    {
      NoneWantedBetween(sets, dims, grains, i, j);
    }
    SkipUnwanted(detail, dims, metrics, grains, level, next);
  }

  lemma TakeGrain(
    detail: seq<Row>, dims: seq<Dim>, metrics: seq<Metric>, grains: Grains, sets: seq<seq<Dim>>, i: nat,
    rolled: seq<Row>, part: seq<Row>)
    requires i < |sets| && |sets[i]| <= |dims| && Rolling(detail, dims, metrics, grains, sets, rolled, i)
    requires RollupFrom(detail, dims, metrics, grains, Next(sets, dims, i)) ==
      part + RollupFrom(detail, dims, metrics, grains, |sets[i]| - 1)
    ensures Rolling(detail, dims, metrics, grains, sets, rolled + part, i + 1)
  {
    Associate(rolled, part, RollupFrom(detail, dims, metrics, grains, |sets[i]| - 1));
    var after := i + 1;
    assert Next(sets, dims, after) == |sets[i]| - 1;
  }

  lemma TakeRest(
    detail: seq<Row>, dims: seq<Dim>, metrics: seq<Metric>, grains: Grains, sets: seq<seq<Dim>>, rolled: seq<Row>)
    requires WantedPrefixes(sets, dims, grains) && Rolling(detail, dims, metrics, grains, sets, rolled, |sets|)
    ensures rolled == RollupFrom(detail, dims, metrics, grains, |dims|)
  {
    var next := Next(sets, dims, |sets|);
    forall j | -1 < j <= next
      ensures !Wanted(grains, |dims|, j)
    {
      NoneWantedBetween(sets, dims, grains, |sets|, j);
    }
    SkipUnwanted(detail, dims, metrics, grains, -1, next);
    assert rolled + [] == rolled;
  }

  // ----- Telling the grains apart ----------------------------------------------------------------

  /** Masks tell the grains apart exactly when no dimension is requested twice. */
  lemma GrainsApartIffDistinct(dims: seq<Dim>)
    ensures Distinct(dims) <==> forall j, k :: 0 <= j < k <= |dims| ==> GrainMask(dims, j) != GrainMask(dims, k)
  {
    var n := |dims|;
    if Distinct(dims) {
      forall j, k | 0 <= j < k <= n
        ensures GrainMask(dims, j) != GrainMask(dims, k)
      {
        MaskOfPrefix(dims, j);
        MaskOfPrefix(dims, k);
        OnesGrow(n - k, n - j);
      }
    } else {
      var i, j :| 0 <= i < j < n && dims[i] == dims[j];
      assert dims[..j + 1] == dims[..j] + [dims[j]] && dims[..j][i] == dims[j];
      assert LiveSet(dims[..j + 1]) == LiveSet(dims[..j]);
      var k := j + 1;
      assert GrainMask(dims, j) == GrainMask(dims, k);
    }
  }

  /** The mask of the grain whose first `k` dimensions are live. */
  function GrainMask(dims: seq<Dim>, k: int): nat {
    if 0 <= k <= |dims| then Mask(dims, LiveSet(dims[..k])) else 0
  }

  predicate HasMask(r: Row, n: int, k: int) {
    0 <= k <= n && r.mask == Some(Ones(n - k))
  }

  predicate Requested(grains: Grains, n: int, k: int, j: int) {
    j <= k && Wanted(grains, n, j)
  }

  /** The rows of grain `j`, if it is requested and has at most `k` live dimensions. */
  function Grade(detail: seq<Row>, dims: seq<Dim>, metrics: seq<Metric>, grains: Grains, k: int, j: nat): seq<Row>
    requires j <= |dims|
  {
    if Requested(grains, |dims|, k, j) then Aggregate(detail, dims, metrics, dims[..j]) else []
  }

  /** The rows of `out` with the mask of grain `j` are that grain's. */
  predicate GradeIs(
    out: seq<Row>, detail: seq<Row>, dims: seq<Dim>, metrics: seq<Metric>, grains: Grains, k: int, j: int)
  {
    0 <= j <= |dims| ==> WithMask(out, Ones(|dims| - j)) == Grade(detail, dims, metrics, grains, k, j)
  }

  /** The row carries the mask of a requested grain with at most `k` live dimensions. */
  ghost predicate OfGrain(r: Row, grains: Grains, n: int, k: int) {
    exists j :: Requested(grains, n, k, j) && HasMask(r, n, j)
  }

  function MaskOf(row: Row): nat {
    if row.mask.Some? then row.mask.value else 0
  }

  /** Grains follow one another from the finest to the coarsest. */
  predicate FinestFirst(out: seq<Row>) {
    forall i, j :: 0 <= i < j < |out| ==> MaskOf(out[i]) <= MaskOf(out[j])
  }

  /** The rows of each requested grain up to `k` can be told by their mask; no other grain has rows. */
  ghost predicate Told(
    out: seq<Row>, detail: seq<Row>, dims: seq<Dim>, metrics: seq<Metric>, grains: Grains, k: int)
  {
    && (forall j :: GradeIs(out, detail, dims, metrics, grains, k, j))
    && (forall i :: 0 <= i < |out| ==> OfGrain(out[i], grains, |dims|, k))
    && FinestFirst(out)
  }

  lemma OfGrainMask(r: Row, grains: Grains, n: nat, k: int)
    requires -1 <= k < n && OfGrain(r, grains, n, k)
    ensures MaskOf(r) >= Ones(n - (k + 1))
  {
    var j :| Requested(grains, n, k, j) && HasMask(r, n, j);
    OnesGrow(n - (k + 1), n - j);
  }

  lemma OneGrainMore(part: seq<Row>, rest: seq<Row>, n: nat, k: nat, j: nat)
    requires k <= n && j <= n && AllMasked(part, Ones(n - k))
    ensures WithMask(part + rest, Ones(n - j)) ==
      if j == k then part + WithMask(rest, Ones(n - j)) else WithMask(rest, Ones(n - j))
  {
    WithMaskConcat(part, rest, Ones(n - j));
    UniformMask(part, Ones(n - k), Ones(n - j));
    if j < k {
      OnesGrow(n - k, n - j);
    } else if k < j {
      OnesGrow(n - j, n - k);
    }
  }

  lemma FinestFirstPrepend(part: seq<Row>, rest: seq<Row>, mask: nat)
    requires FinestFirst(rest) && AllMasked(part, mask) && forall i :: 0 <= i < |rest| ==> MaskOf(rest[i]) >= mask
    ensures FinestFirst(part + rest)
  {
  }

  /** With distinct dimensions, the rollup's rows can be told by their masks, grain by grain. */
  lemma {:induction false} RollupTold(
    detail: seq<Row>, dims: seq<Dim>, metrics: seq<Metric>, grains: Grains, k: int)
    requires Distinct(dims) && -1 <= k <= |dims|
    ensures Told(RollupFrom(detail, dims, metrics, grains, k), detail, dims, metrics, grains, k)
    decreases k + 1
  {
    if k >= 0 {
      var rest := RollupFrom(detail, dims, metrics, grains, k - 1);
      RollupTold(detail, dims, metrics, grains, k - 1);
      if Wanted(grains, |dims|, k) {
        AggregateMask(detail, dims, metrics, k);
        PrependGrain(detail, dims, metrics, grains, k, Aggregate(detail, dims, metrics, dims[..k]), rest);
      } else {
        assert [] + rest == rest;
        SkipGrain(detail, dims, metrics, grains, k, rest);
      }
    }
  }

  lemma SkipGrain(
    detail: seq<Row>, dims: seq<Dim>, metrics: seq<Metric>, grains: Grains, k: nat, rest: seq<Row>)
    requires k <= |dims| && !Wanted(grains, |dims|, k) && Told(rest, detail, dims, metrics, grains, k - 1)
    ensures Told(rest, detail, dims, metrics, grains, k)
  {
    var n, before := |dims|, k - 1;
    forall j
      ensures GradeIs(rest, detail, dims, metrics, grains, k, j)
    {
      assert GradeIs(rest, detail, dims, metrics, grains, before, j);
      assert Requested(grains, n, k, j) <==> Requested(grains, n, before, j);
    }
    OfGrainLater(rest, grains, n, before, k);
  }

  lemma OfGrainLater(rows: seq<Row>, grains: Grains, n: int, before: int, k: int)
    requires before <= k && forall i :: 0 <= i < |rows| ==> OfGrain(rows[i], grains, n, before)
    ensures forall i :: 0 <= i < |rows| ==> OfGrain(rows[i], grains, n, k)
  {
    forall i | 0 <= i < |rows|
      ensures OfGrain(rows[i], grains, n, k)
    {
      assert OfGrain(rows[i], grains, n, before);
      var j :| Requested(grains, n, before, j) && HasMask(rows[i], n, j);
      assert Requested(grains, n, k, j);
    }
  }

  lemma GradeNext(
    detail: seq<Row>, dims: seq<Dim>, metrics: seq<Metric>, grains: Grains, k: nat, before: int, j: nat)
    requires before == k - 1 && j <= |dims|
    ensures j == k ==> Grade(detail, dims, metrics, grains, before, j) == []
    ensures j != k ==> Grade(detail, dims, metrics, grains, k, j) == Grade(detail, dims, metrics, grains, before, j)
  {
    assert j != k ==> (Requested(grains, |dims|, k, j) <==> Requested(grains, |dims|, before, j));
  }

  lemma PrependGrade(
    detail: seq<Row>, dims: seq<Dim>, metrics: seq<Metric>, grains: Grains, k: nat, part: seq<Row>, rest: seq<Row>,
    before: int, j: nat)
    requires k <= |dims| && j <= |dims| && before == k - 1 && part == Grade(detail, dims, metrics, grains, k, k)
    requires AllMasked(part, Ones(|dims| - k))
    requires WithMask(rest, Ones(|dims| - j)) == Grade(detail, dims, metrics, grains, before, j)
    ensures WithMask(part + rest, Ones(|dims| - j)) == Grade(detail, dims, metrics, grains, k, j)
  {
    var mask := Ones(|dims| - j);
    GradeNext(detail, dims, metrics, grains, k, before, j);
    OneGrainMore(part, rest, |dims|, k, j);
    if j == k {
      assert part + WithMask(rest, mask) == part;
    }
  }

  lemma PrependMasks(part: seq<Row>, rest: seq<Row>, grains: Grains, n: nat, k: nat)
    requires k <= n && Wanted(grains, n, k) && AllMasked(part, Ones(n - k)) && FinestFirst(rest)
    requires forall i :: 0 <= i < |rest| ==> OfGrain(rest[i], grains, n, k - 1)
    ensures FinestFirst(part + rest)
    ensures forall i :: 0 <= i < |part + rest| ==> OfGrain((part + rest)[i], grains, n, k)
  {
    var before := k - 1;
    forall i | 0 <= i < |rest|
      ensures MaskOf(rest[i]) >= Ones(n - k)
    {
      OfGrainMask(rest[i], grains, n, before);
    }
    FinestFirstPrepend(part, rest, Ones(n - k));
    OfGrainLater(rest, grains, n, before, k);
    forall i | 0 <= i < |part|
      ensures OfGrain(part[i], grains, n, k)
    {
      assert Requested(grains, n, k, k) && HasMask(part[i], n, k);
    }
  }

  lemma PrependGrain(
    detail: seq<Row>, dims: seq<Dim>, metrics: seq<Metric>, grains: Grains, k: nat, part: seq<Row>, rest: seq<Row>)
    requires k <= |dims| && Wanted(grains, |dims|, k) && part == Grade(detail, dims, metrics, grains, k, k)
    requires AllMasked(part, Ones(|dims| - k)) && Told(rest, detail, dims, metrics, grains, k - 1)
    ensures Told(part + rest, detail, dims, metrics, grains, k)
  {
    var before := k - 1;
    forall j
      ensures GradeIs(part + rest, detail, dims, metrics, grains, k, j)
    {
      assert GradeIs(rest, detail, dims, metrics, grains, before, j);
      if 0 <= j <= |dims| {
        PrependGrade(detail, dims, metrics, grains, k, part, rest, before, j);
      }
    }
    PrependMasks(part, rest, grains, |dims|, k);
  }
}
