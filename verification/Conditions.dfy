// Filters and bounds rendered as a WHERE clause with bound parameters, in two SQL dialects
// (precis_mcp/analytical/sql.py and precis_mcp/engine/inspect.py).

module Conditions {
  import opened Common
  import opened Strings
  import Filters

  type Row = Filters.Row
  datatype Dialect = ClickHouse | Databricks
  datatype Binding = Text(text: string) | Texts(texts: seq<string>) | Limit(limit: nat)
  type Parameters = map<string, Binding>

  datatype Result<+T> = Ok(value: T) | Err(error: Error)
  datatype Error = InvalidColumn(column: string) | InvalidParameter(name: string) | Collision(name: string)
    | Unresolved(cause: Filters.Error)

  /** The predicates that can be rendered; parameters are named, never inlined. */
  datatype Condition =
    | Equals(column: string, name: string)
    | AtLeast(column: string, name: string)
    | AtMost(column: string, name: string)
    | InArray(column: string, name: string)
    | InMarkers(column: string, names: seq<string>)
    | Never
    | Committed

  /** SQL truth; a null column makes every comparison not true. */
  predicate Holds(cond: Condition, ps: Parameters, row: Row) {
    match cond
    case Equals(column, name) => column in row && name in ps && ps[name] == Text(row[column])
    case AtLeast(column, name) => column in row && name in ps && ps[name].Text? && Leq(ps[name].text, row[column])
    case AtMost(column, name) => column in row && name in ps && ps[name].Text? && Leq(row[column], ps[name].text)
    case InArray(column, name) => column in row && name in ps && ps[name].Texts? && row[column] in ps[name].texts
    case InMarkers(column, names) =>
      column in row && exists i :: 0 <= i < |names| && names[i] in ps && ps[names[i]] == Text(row[column])
    case Never => false
    case Committed => "commit_id" in row && row["commit_id"] != "__uncommitted__"
  }

  predicate AllHold(conds: seq<Condition>, ps: Parameters, row: Row) {
    forall i :: 0 <= i < |conds| ==> Holds(conds[i], ps, row)
  }

  /** The parameters a condition reads are bound. */
  predicate Closed(cond: Condition, ps: Parameters) {
    match cond
    case Equals(_, name) => name in ps
    case AtLeast(_, name) => name in ps
    case AtMost(_, name) => name in ps
    case InArray(_, name) => name in ps
    case InMarkers(_, names) => forall i :: 0 <= i < |names| ==> names[i] in ps
    case Never => true
    case Committed => true
  }

  predicate AllClosed(conds: seq<Condition>, ps: Parameters) {
    forall i :: 0 <= i < |conds| ==> Closed(conds[i], ps)
  }

  /** `later` binds more names and rebinds none. */
  predicate Grows(ps: Parameters, later: Parameters) {
    forall name :: name in ps ==> name in later && later[name] == ps[name]
  }

  lemma HoldsStays(cond: Condition, ps: Parameters, later: Parameters, row: Row)
    requires Closed(cond, ps) && Grows(ps, later)
    ensures Holds(cond, ps, row) <==> Holds(cond, later, row)
    ensures Closed(cond, later)
  {
  }

  lemma AllHoldStays(conds: seq<Condition>, ps: Parameters, later: Parameters, row: Row)
    requires AllClosed(conds, ps) && Grows(ps, later)
    ensures AllHold(conds, ps, row) <==> AllHold(conds, later, row)
    ensures AllClosed(conds, later)
  {
    forall i | 0 <= i < |conds|
      ensures Holds(conds[i], ps, row) <==> Holds(conds[i], later, row)
      ensures Closed(conds[i], later)
    {
      HoldsStays(conds[i], ps, later, row);
    }
  }

  // ----- Parameter names -------------------------------------------------------------------------

  function FilterName(column: string): string {
    "dimf_" + column
  }

  function Marker(name: string, index: nat): string {
    name + "_" + Decimal(index)
  }

  lemma MarkersDiffer(a: string, i: nat, b: string, j: nat)
    requires Marker(FilterName(a), i) == Marker(FilterName(b), j)
    ensures a == b && i == j
  {
    LastUnderscore(FilterName(a), Decimal(i), FilterName(b), Decimal(j));
    assert a == FilterName(a)[5..] && b == FilterName(b)[5..];
    DecimalInjective(i, j);
  }

  lemma FilterNamesDiffer(a: string, b: string)
    requires FilterName(a) == FilterName(b)
    ensures a == b
  {
    assert a == FilterName(a)[5..] && b == FilterName(b)[5..];
  }

  lemma FilterNameSafe(column: string)
    requires Name(column)
    ensures Name(FilterName(column))
  {
    var s := FilterName(column);
    assert s[0] == 'd' && s[1] == 'i' && s[2] == 'm' && s[3] == 'f' && s[4] == '_';
    forall i | 0 <= i < |s|
      ensures Letter(s[i]) || Digit(s[i])
    {
      if i >= 5 {
        assert s[i] == column[i - 5];
      }
    }
  }

  lemma MarkerSafe(name: string, index: nat)
    requires Name(name)
    ensures Name(Marker(name, index))
  {
    var s := Marker(name, index);
    forall i | 0 <= i < |s|
      ensures Letter(s[i]) || Digit(s[i])
    {
      if i < |name| {
        assert s[i] == name[i];
      } else if i > |name| {
        assert s[i] == Decimal(index)[i - |name| - 1];
      }
    }
  }

  lemma MarkerIndex(name: string, i: nat, j: nat)
    requires Marker(name, i) == Marker(name, j)
    ensures i == j
  {
    LastUnderscore(name, Decimal(i), name, Decimal(j));
    DecimalInjective(i, j);
  }

  // ----- in_values -------------------------------------------------------------------------------

  ghost predicate IsMarker(p: string, name: string, n: nat) {
    exists i: nat :: i < n && p == Marker(name, i)
  }

  /** None of the first `n` markers of `name` is bound. */
  ghost predicate Unbound(name: string, n: nat, ps: Parameters) {
    forall p :: IsMarker(p, name, n) ==> p !in ps
  }

  /** The condition reads `values` for `column`, under parameters that all belong to `name`. */
  ghost predicate Renders(
    dialect: Dialect, cond: Condition, ps0: Parameters, ps: Parameters, column: string, name: string,
    values: seq<string>)
  {
    && Closed(cond, ps)
    && (forall p :: p in ps0 && (dialect.ClickHouse? ==> p != name) ==> p in ps && ps[p] == ps0[p])
    && (forall p :: p in ps && p !in ps0 ==> if dialect.ClickHouse? then p == name else IsMarker(p, name, |values|))
    && forall row :: Holds(cond, ps, row) <==> column in row && row[column] in values
  }

  /** `SqlDialect.in_values`. */
  method InValues(dialect: Dialect, column: string, name: string, values: seq<string>, ps0: Parameters)
    returns (r: Result<Condition>, ps: Parameters)
    ensures r.Ok? <==> Name(name) && (dialect.ClickHouse? || Unbound(name, |values|, ps0))
    ensures r.Ok? ==> Renders(dialect, r.value, ps0, ps, column, name, values)
  {
    ps := ps0;
    if !Name(name) {
      return Err(InvalidParameter(name)), ps;
    }
    if dialect.ClickHouse? {
      ps := ps[name := Texts(values)];
      return Ok(InArray(column, name)), ps;
    }
    if values == [] {
      return Ok(Never), ps;
    }
    var markers: seq<string> := [];
    for index := 0 to |values|
      invariant Marked(name, values, index, markers, ps0, ps) && Unbound(name, index, ps0)
    {
      var key := Marker(name, index);
      FreshMarker(name, values, index, markers, ps0, ps);
      if key in ps {
        assert IsMarker(key, name, |values|);
        return Err(Collision(key)), ps;
      }
      MarkerSafe(name, index);
      assert Name(key);
      MarkOne(name, values, index, markers, ps0, ps);
      ps := ps[key := Text(values[index])];
      markers := markers + [key];
    }
    r := Ok(InMarkers(column, markers));
    MarkersRead(column, name, values, markers, ps0, ps);
  }

  /** The state of the loop after `index` values. */
  ghost predicate Marked(
    name: string, values: seq<string>, index: nat, markers: seq<string>, ps0: Parameters, ps: Parameters)
  {
    && index <= |values| && |markers| == index && Grows(ps0, ps)
    && (forall j :: 0 <= j < index ==> markers[j] == Marker(name, j))
    && (forall j :: 0 <= j < index ==> markers[j] in ps && ps[markers[j]] == Text(values[j]))
    && (forall p :: p in ps && p !in ps0 ==> IsMarker(p, name, index))
  }

  lemma FreshMarker(
    name: string, values: seq<string>, index: nat, markers: seq<string>, ps0: Parameters, ps: Parameters)
    requires Marked(name, values, index, markers, ps0, ps)
    ensures Marker(name, index) in ps ==> Marker(name, index) in ps0
    ensures Unbound(name, index, ps0) && Marker(name, index) !in ps0 ==> Unbound(name, index + 1, ps0)
  {
    var key := Marker(name, index);
    if IsMarker(key, name, index) {
      var i: nat :| i < index && key == Marker(name, i);
      MarkerIndex(name, index, i);
    }
  }

  lemma MarkOne(
    name: string, values: seq<string>, index: nat, markers: seq<string>, ps0: Parameters, ps: Parameters)
    requires Marked(name, values, index, markers, ps0, ps) && index < |values| && Marker(name, index) !in ps
    ensures Marked(name, values, index + 1, markers + [Marker(name, index)], ps0,
                   ps[Marker(name, index) := Text(values[index])])
  {
    var key := Marker(name, index);
    var after := ps[key := Text(values[index])];
    forall p | p in after && p !in ps0
      ensures IsMarker(p, name, index + 1)
    {
      if p != key {
        assert IsMarker(p, name, index);
      }
    }
  }

  lemma MarkersRead(
    column: string, name: string, values: seq<string>, markers: seq<string>, ps0: Parameters, ps: Parameters)
    requires Marked(name, values, |values|, markers, ps0, ps)
    ensures Renders(Databricks, InMarkers(column, markers), ps0, ps, column, name, values)
  {
    var cond := InMarkers(column, markers);
    forall row: Row
      ensures Holds(cond, ps, row) <==> column in row && row[column] in values
    {
      if column in row && row[column] in values {
        var i :| 0 <= i < |values| && values[i] == row[column];
        assert ps[markers[i]] == Text(row[column]);
      }
    }
  }

  // ----- The WHERE clause ------------------------------------------------------------------------

  predicate Bounds(
    scenario: Option<string>, start: Option<string>, end: Option<string>, periodColumn: string, row: Row)
  {
    && (scenario.Some? ==> "scenario" in row && row["scenario"] == scenario.value)
    && (start.Some? ==> periodColumn in row && Leq(start.value, row[periodColumn]))
    && (end.Some? ==> periodColumn in row && Leq(row[periodColumn], end.value))
  }

  predicate AdmitsOnly(filters: map<string, seq<string>>, done: set<string>, row: Row) {
    forall c :: c in done && c in filters ==> c in row && row[c] in filters[c]
  }

  /** A parameter bound for the limit and the bounds, or for the filter on a column of `done`. */
  ghost predicate Accounted(dialect: Dialect, done: set<string>, p: string) {
    || p in {"inspect_limit", "scenario_id", "period_start", "period_end"}
    || exists c :: c in done && OwnedBy(dialect, p, c)
  }

  ghost predicate OwnedBy(dialect: Dialect, p: string, column: string) {
    if dialect.ClickHouse? then p == FilterName(column) else exists i: nat :: p == Marker(FilterName(column), i)
  }

  lemma NotReserved(column: string, i: nat)
    ensures FilterName(column) !in {"inspect_limit", "scenario_id", "period_start", "period_end"}
    ensures Marker(FilterName(column), i) !in {"inspect_limit", "scenario_id", "period_start", "period_end"}
  {
    assert FilterName(column)[0] == 'd' && Marker(FilterName(column), i)[0] == 'd';
    assert "inspect_limit"[0] == 'i' && "scenario_id"[0] == 's' && "period_start"[0] == 'p' && "period_end"[0] == 'p';
  }

  /** The names a column's filter would bind are not bound for any other column. */
  lemma NamesFree(dialect: Dialect, ps: Parameters, done: set<string>, column: string, n: nat)
    requires forall p :: p in ps ==> Accounted(dialect, done, p)
    requires column !in done
    ensures dialect.ClickHouse? ==> FilterName(column) !in ps
    ensures dialect.Databricks? ==> Unbound(FilterName(column), n, ps)
  {
    if dialect.ClickHouse? && FilterName(column) in ps {
      NotReserved(column, 0);
      var c :| c in done && OwnedBy(dialect, FilterName(column), c);
      FilterNamesDiffer(column, c);
    }
    if dialect.Databricks? {
      forall p | IsMarker(p, FilterName(column), n)
        ensures p !in ps
      {
        var i: nat :| i < n && p == Marker(FilterName(column), i);
        NotReserved(column, i);
        if c :| c in done && OwnedBy(dialect, p, c) {
          var j: nat :| p == Marker(FilterName(c), j);
          MarkersDiffer(column, i, c, j);
        }
      }
    }
  }

  /** The conditions rendered so far, for the bounds and the filters on `done`. */
  ghost predicate Rendered(
    dialect: Dialect, conds: seq<Condition>, ps: Parameters, scenario: Option<string>, start: Option<string>,
    end: Option<string>, periodColumn: string, filters: map<string, seq<string>>, done: set<string>)
  {
    && AllClosed(conds, ps)
    && (forall p :: p in ps ==> Accounted(dialect, done, p))
    && forall row :: AllHold(conds, ps, row) <==>
         Bounds(scenario, start, end, periodColumn, row) && AdmitsOnly(filters, done, row)
  }

  lemma AllHoldAppend(conds: seq<Condition>, cond: Condition, ps: Parameters, row: Row)
    ensures AllHold(conds + [cond], ps, row) <==> AllHold(conds, ps, row) && Holds(cond, ps, row)
    ensures AllClosed(conds + [cond], ps) <==> AllClosed(conds, ps) && Closed(cond, ps)
  {
    var more := conds + [cond];
    assert more[|conds|] == cond;
    assert forall i :: 0 <= i < |conds| ==> more[i] == conds[i];
  }

  lemma RenderOne(
    dialect: Dialect, conds: seq<Condition>, ps0: Parameters, scenario: Option<string>, start: Option<string>,
    end: Option<string>, periodColumn: string, filters: map<string, seq<string>>, done: set<string>, column: string,
    cond: Condition, ps: Parameters)
    requires Rendered(dialect, conds, ps0, scenario, start, end, periodColumn, filters, done)
    requires column in filters && column !in done
    requires Renders(dialect, cond, ps0, ps, column, FilterName(column), filters[column])
    ensures Rendered(dialect, conds + [cond], ps, scenario, start, end, periodColumn, filters, done + {column})
    ensures Grows(ps0, ps)
  {
    NamesFree(dialect, ps0, done, column, |filters[column]|);
    assert Grows(ps0, ps);
    forall p | p in ps
      ensures Accounted(dialect, done + {column}, p)
    {
      if p in ps0 {
        AccountedLater(dialect, done, column, p);
      } else {
        assert OwnedBy(dialect, p, column);
      }
    }
    forall row: Row
      ensures AllHold(conds + [cond], ps, row) <==>
        Bounds(scenario, start, end, periodColumn, row) && AdmitsOnly(filters, done + {column}, row)
      ensures AllClosed(conds + [cond], ps)
    {
      AllHoldAppend(conds, cond, ps, row);
      AllHoldStays(conds, ps0, ps, row);
    }
  }

  lemma AccountedLater(dialect: Dialect, done: set<string>, column: string, p: string)
    requires Accounted(dialect, done, p)
    ensures Accounted(dialect, done + {column}, p)
  {
    if p !in {"inspect_limit", "scenario_id", "period_start", "period_end"} {
      var c :| c in done && OwnedBy(dialect, p, c);
      assert c in done + {column};
    }
  }

  /** `_base_conditions`; the columns are visited in any order. */
  method BaseConditions(
    dialect: Dialect, filters: map<string, seq<string>>, scenario: Option<string>, start: Option<string>,
    end: Option<string>, periodColumn: string, ps0: Parameters)
    returns (r: Result<seq<Condition>>, ps: Parameters)
    requires ps0.Keys == {"inspect_limit"}
    ensures r.Ok? <==> Name(periodColumn) && forall c :: c in filters ==> Name(c)
    ensures r.Err? ==> r.error.InvalidColumn? && !Name(r.error.column)
    ensures r.Ok? ==> AllClosed(r.value, ps) && Grows(ps0, ps)
    ensures r.Ok? ==> forall row :: AllHold(r.value, ps, row) <==>
      Bounds(scenario, start, end, periodColumn, row) && Filters.Admits(filters, row)
  {
    ps := ps0;
    if !Name(periodColumn) {
      return Err(InvalidColumn(periodColumn)), ps;
    }
    var conds: seq<Condition>;
    conds, ps := BoundConditions(dialect, scenario, start, end, periodColumn, ps);
    var done, left: set<string> := {}, filters.Keys;
    while left != {}
      invariant left <= filters.Keys && forall c :: c in filters ==> c in done <==> c !in left
      invariant done <= filters.Keys && forall c :: c in done ==> Name(c)
      invariant Rendered(dialect, conds, ps, scenario, start, end, periodColumn, filters, done) && Grows(ps0, ps)
    {
      var column :| column in left;
      if !Name(column) {
        return Err(InvalidColumn(column)), ps;
      }
      FilterNameSafe(column);
      NamesFree(dialect, ps, done, column, |filters[column]|);
      var one, after := InValues(dialect, column, FilterName(column), filters[column], ps);
      RenderOne(dialect, conds, ps, scenario, start, end, periodColumn, filters, done, column, one.value, after);
      conds, ps := conds + [one.value], after;
      done, left := done + {column}, left - {column};
    }
    assert forall row :: AdmitsOnly(filters, done, row) <==> Filters.Admits(filters, row);
    r := Ok(conds);
  }

  /** The scenario and period conditions. */
  method BoundConditions(
    dialect: Dialect, scenario: Option<string>, start: Option<string>, end: Option<string>, periodColumn: string,
    ps0: Parameters)
    returns (conds: seq<Condition>, ps: Parameters)
    requires ps0.Keys == {"inspect_limit"}
    ensures Rendered(dialect, conds, ps, scenario, start, end, periodColumn, map[], {}) && Grows(ps0, ps)
  {
    conds, ps := [], ps0;
    if scenario.Some? {
      conds, ps := AddBound(Equals("scenario", "scenario_id"), "scenario_id", scenario.value, conds, ps);
    }
    assert forall row :: AllHold(conds, ps, row) <==> Bounds(scenario, None, None, periodColumn, row);
    if start.Some? {
      conds, ps := AddBound(AtLeast(periodColumn, "period_start"), "period_start", start.value, conds, ps);
    }
    assert forall row :: AllHold(conds, ps, row) <==> Bounds(scenario, start, None, periodColumn, row);
    if end.Some? {
      conds, ps := AddBound(AtMost(periodColumn, "period_end"), "period_end", end.value, conds, ps);
    }
  }

  /** Binds one value and adds the condition that reads it. */
  method AddBound(cond: Condition, name: string, value: string, conds0: seq<Condition>, ps0: Parameters)
    returns (conds: seq<Condition>, ps: Parameters)
    requires cond.Equals? || cond.AtLeast? || cond.AtMost?
    requires cond.name == name && name !in ps0 && AllClosed(conds0, ps0)
    ensures conds == conds0 + [cond] && ps == ps0[name := Text(value)] && AllClosed(conds, ps)
    ensures forall row :: AllHold(conds, ps, row) <==> AllHold(conds0, ps0, row) && Holds(cond, ps, row)
  {
    conds, ps := conds0 + [cond], ps0[name := Text(value)];
    forall row: Row
      ensures AllHold(conds, ps, row) <==> AllHold(conds0, ps0, row) && Holds(cond, ps, row)
      ensures AllClosed(conds, ps)
    {
      AllHoldAppend(conds0, cond, ps, row);
      AllHoldStays(conds0, ps0, ps, row);
    }
  }

  /** `_clickhouse_sql`: the conditions of the inspection query, and its parameters. */
  method InspectSql(
    dialect: Dialect, filters: map<string, seq<string>>, limit: nat, scenario: Option<string>, start: Option<string>,
    end: Option<string>, periodColumn: string, versioned: bool)
    returns (r: Result<seq<Condition>>, ps: Parameters)
    ensures r.Ok? <==> Name(periodColumn) && forall c :: c in filters ==> Name(c)
    ensures r.Err? ==> r.error.InvalidColumn? && !Name(r.error.column)
    ensures r.Ok? ==> "inspect_limit" in ps && ps["inspect_limit"] == Limit(limit)
    ensures r.Ok? ==> forall row :: AllHold(r.value, ps, row) <==>
      && Bounds(scenario, start, end, periodColumn, row) && Filters.Admits(filters, row)
      && (versioned ==> "commit_id" in row && row["commit_id"] != "__uncommitted__")
  {
    ps := map["inspect_limit" := Limit(limit)];
    r, ps := BaseConditions(dialect, filters, scenario, start, end, periodColumn, ps);
    if r.Ok? && versioned {
      var conds := r.value;
      r := Ok(conds + [Committed]);
      forall row: Row
        ensures AllHold(conds + [Committed], ps, row) <==> AllHold(conds, ps, row) && Holds(Committed, map[], row)
      {
        AllHoldAppend(conds, Committed, ps, row);
      }
    }
  }

  /** Every view column that the filters resolve to is a name. */
  predicate NamedColumns(rs: seq<Filters.Resolved>) {
    forall c :: c in Filters.Winners(rs, Filters.Leaves(rs)) ==> Name(c)
  }

  /** The requested keys have targets whose leaf dimensions and columns correspond. */
  predicate KeysCorrespond(cat: Filters.Catalogue, domain: string, requested: seq<Filters.Filter>) {
    var keys := Filters.KeysOf(requested);
    Filters.Targeted(cat, domain, keys) && Filters.Corresponding(cat, domain, keys)
  }

  /** An inspection with requested filters: a row passes exactly when it meets the bounds and each filter. */
  method InspectFiltered(
    cat: Filters.Catalogue, domain: string, requested: seq<Filters.Filter>, answers: seq<seq<string>>,
    dialect: Dialect, limit: nat, scenario: Option<string>, start: Option<string>, end: Option<string>,
    periodColumn: string, versioned: bool)
    returns (r: Result<seq<Condition>>, ps: Parameters)
    requires |answers| == |requested|
    ensures r.Ok? <==>
      && Name(periodColumn) && Filters.AllResolve(cat, domain, requested, answers)
      && NamedColumns(Filters.Resolutions(cat, domain, requested, answers))
    ensures r.Ok? && KeysCorrespond(cat, domain, requested) ==>
      forall row :: AllHold(r.value, ps, row) <==>
        && Bounds(scenario, start, end, periodColumn, row)
        && Filters.MeetsAll(row, Filters.Resolutions(cat, domain, requested, answers))
        && (versioned ==> "commit_id" in row && row["commit_id"] != "__uncommitted__")
    ensures r.Err? && r.error.Unresolved? <==> !Filters.AllResolve(cat, domain, requested, answers)
  {
    ps := map[];
    var boxes := Filters.ResolveFilters(cat, domain, requested, answers);
    if boxes.Err? {
      return Err(Unresolved(boxes.error)), ps;
    }
    r, ps := InspectSql(dialect, boxes.value, limit, scenario, start, end, periodColumn, versioned);
    ghost var keys := Filters.KeysOf(requested);
    if KeysCorrespond(cat, domain, requested) {
      forall row: Row
        ensures Filters.Admits(boxes.value, row) <==>
          Filters.MeetsAll(row, Filters.Resolutions(cat, domain, requested, answers))
      {
        Filters.CorrespondingIsKept(cat, domain, keys, requested, answers, boxes.value, row);
      }
    }
  }
}
