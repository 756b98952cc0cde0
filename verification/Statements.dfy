// Statement checks and statement flattening (`validate_catalogue`, `resolve_statement` in
// precis_mcp/engine/catalogue.py).

module Statements {
  import opened Common
  import opened CycleCheck

  const SEPARATOR := "separator"

  datatype Statement = Statement(lines: Option<seq<string>>, concat: Option<seq<string>>)
  type Catalogue = map<string, Statement>

  datatype Error =
    | Circular(name: string)
    | Unknown(name: string)  // a KeyError
    | NoBody(name: string)   // the assertion that `concat` is not None
  datatype Result = Ok(entries: seq<string>) | Err(error: Error)

  // ----- resolve_statement -----------------------------------------------------------------------

  function Resolve(stmts: Catalogue, name: string, visiting: set<string>): Result
    decreases |stmts.Keys - visiting|, 0
  {
    if name in visiting then Err(Circular(name))
    else if name !in stmts then Err(Unknown(name))
    else if stmts[name].lines.Some? then Ok(stmts[name].lines.value)
    else if stmts[name].concat.None? then Err(NoBody(name))
    else
      Shrinks(stmts.Keys, visiting, name);
      ResolveAll(stmts, stmts[name].concat.value, visiting + {name})
  }

  function ResolveAll(stmts: Catalogue, entries: seq<string>, visiting: set<string>): Result
    decreases |stmts.Keys - visiting|, |entries| + 1
  {
    if entries == [] then Ok([])
    else
      var first := if entries[0] == SEPARATOR then Ok([SEPARATOR]) else Resolve(stmts, entries[0], visiting);
      if first.Err? then first
      else
        var rest := ResolveAll(stmts, entries[1..], visiting);
        if rest.Err? then rest else Ok(first.entries + rest.entries)
  }

  lemma Shrinks(keys: set<string>, visiting: set<string>, name: string)
    requires name in keys && name !in visiting
    ensures |keys - (visiting + {name})| < |keys - visiting|
  {
    assert keys - visiting == (keys - (visiting + {name})) + {name};
  }

  // ----- The statement's concat tree and its frontier --------------------------------------------

  datatype Tree = Separator | Lines(entries: seq<string>) | Concat(children: seq<Tree>)

  function Size(t: Tree): nat {
    1 + if t.Concat? then Sizes(t.children) else 0
  }

  function Sizes(ts: seq<Tree>): nat {
    if ts == [] then 0 else Size(ts[0]) + Sizes(ts[1..])
  }

  /** The depth-first flattening. */
  function Frontier(t: Tree): seq<string> {
    match t
    case Separator => [SEPARATOR]
    case Lines(entries) => entries
    case Concat(children) => Frontiers(children)
  }

  function Frontiers(ts: seq<Tree>): seq<string> {
    if ts == [] then [] else Frontier(ts[0]) + Frontiers(ts[1..])
  }

  /** `t` is the (finite) unfolding of statement `name`. */
  predicate Unfolds(stmts: Catalogue, name: string, t: Tree)
    decreases t
  {
    name in stmts &&
    if stmts[name].lines.Some? then t == Lines(stmts[name].lines.value)
    else stmts[name].concat.Some? && t.Concat? && UnfoldsAll(stmts, stmts[name].concat.value, t.children)
  }

  predicate UnfoldsAll(stmts: Catalogue, entries: seq<string>, ts: seq<Tree>)
    decreases ts
  {
    |entries| == |ts| &&
    (entries != [] ==>
       (if entries[0] == SEPARATOR then ts[0] == Separator else Unfolds(stmts, entries[0], ts[0])) &&
       UnfoldsAll(stmts, entries[1..], ts[1..]))
  }

  /** What resolves is the frontier of an unfolding. */
  lemma {:induction false} ResolvedUnfolds(stmts: Catalogue, name: string, visiting: set<string>) returns (t: Tree)
    requires Resolve(stmts, name, visiting).Ok?
    ensures Unfolds(stmts, name, t) && Resolve(stmts, name, visiting) == Ok(Frontier(t))
    decreases |stmts.Keys - visiting|, 0
  {
    if stmts[name].lines.Some? {
      t := Lines(stmts[name].lines.value);
    } else {
      Shrinks(stmts.Keys, visiting, name);
      var ts := ResolvedUnfoldsAll(stmts, stmts[name].concat.value, visiting + {name});
      t := Concat(ts);
    }
  }

  lemma {:induction false} ResolvedUnfoldsAll(stmts: Catalogue, entries: seq<string>, visiting: set<string>)
    returns (ts: seq<Tree>)
    requires ResolveAll(stmts, entries, visiting).Ok?
    ensures UnfoldsAll(stmts, entries, ts) && ResolveAll(stmts, entries, visiting) == Ok(Frontiers(ts))
    decreases |stmts.Keys - visiting|, |entries| + 1
  {
    if entries == [] {
      ts := [];
    } else {
      var first := Separator;
      if entries[0] != SEPARATOR {
        first := ResolvedUnfolds(stmts, entries[0], visiting);
      }
      var rest := ResolvedUnfoldsAll(stmts, entries[1..], visiting);
      ts := [first] + rest;
      assert ts[1..] == rest;
    }
  }

  /** Every statement being resolved unfolds, if at all, into something larger than `n`. */
  ghost predicate Above(stmts: Catalogue, visiting: set<string>, n: nat) {
    forall v, t :: v in visiting && Unfolds(stmts, v, t) ==> Size(t) > n
  }

  lemma {:induction false} UnfoldsOnce(stmts: Catalogue, name: string, t: Tree, u: Tree)
    requires Unfolds(stmts, name, t) && Unfolds(stmts, name, u)
    ensures t == u
    decreases t
  {
    if stmts[name].lines.None? {
      UnfoldsAllOnce(stmts, stmts[name].concat.value, t.children, u.children);
    }
  }

  lemma {:induction false} UnfoldsAllOnce(stmts: Catalogue, entries: seq<string>, ts: seq<Tree>, us: seq<Tree>)
    requires UnfoldsAll(stmts, entries, ts) && UnfoldsAll(stmts, entries, us)
    ensures ts == us
    decreases ts
  {
    if entries != [] {
      if entries[0] != SEPARATOR {
        UnfoldsOnce(stmts, entries[0], ts[0], us[0]);
      }
      UnfoldsAllOnce(stmts, entries[1..], ts[1..], us[1..]);
      assert ts == [ts[0]] + ts[1..] && us == [us[0]] + us[1..];
    }
  }

  /** What has a finite unfolding resolves to its frontier: it cannot meet itself on the way. */
  lemma {:induction false} UnfoldedResolves(stmts: Catalogue, name: string, visiting: set<string>, t: Tree)
    requires Unfolds(stmts, name, t) && Above(stmts, visiting, Size(t))
    ensures Resolve(stmts, name, visiting) == Ok(Frontier(t))
    decreases t
  {
    assert name !in visiting;
    if stmts[name].lines.None? {
      forall v, u | v in visiting + {name} && Unfolds(stmts, v, u)
        ensures Size(u) > Sizes(t.children)
      {
        if v == name {
          UnfoldsOnce(stmts, name, t, u);
        }
      }
      UnfoldedResolvesAll(stmts, stmts[name].concat.value, visiting + {name}, t.children);
    }
  }

  lemma {:induction false} UnfoldedResolvesAll(stmts: Catalogue, entries: seq<string>, visiting: set<string>,
                                             ts: seq<Tree>)
    requires UnfoldsAll(stmts, entries, ts) && Above(stmts, visiting, Sizes(ts))
    ensures ResolveAll(stmts, entries, visiting) == Ok(Frontiers(ts))
    decreases ts
  {
    if entries != [] {
      if entries[0] != SEPARATOR {
        UnfoldedResolves(stmts, entries[0], visiting, ts[0]);
      }
      UnfoldedResolvesAll(stmts, entries[1..], visiting, ts[1..]);
    }
  }

  /** Resolution succeeds exactly on statements with a finite concat tree, and flattens it depth first. */
  lemma ResolveIsFlattening(stmts: Catalogue, name: string, entries: seq<string>)
    ensures Resolve(stmts, name, {}) == Ok(entries) <==> exists t :: Unfolds(stmts, name, t) && Frontier(t) == entries
  {
    if Resolve(stmts, name, {}) == Ok(entries) {
      var t := ResolvedUnfolds(stmts, name, {});
    }
    if t :| Unfolds(stmts, name, t) && Frontier(t) == entries {
      UnfoldedResolves(stmts, name, {}, t);
    }
  }

  // ----- When it raises --------------------------------------------------------------------------

  /** The statements that resolving `name` descends into. */
  function References(stmts: Catalogue, name: string): set<string>
    requires name in stmts
  {
    if stmts[name].lines.Some? || stmts[name].concat.None? then {}
    else set e | e in stmts[name].concat.value && e != SEPARATOR
  }

  function ConcatGraph(stmts: Catalogue): Graph {
    map name | name in stmts :: References(stmts, name)
  }

  /** Every statement has a body and refers only to statements. */
  predicate Closed(stmts: Catalogue) {
    forall name :: name in stmts ==>
      (stmts[name].lines.Some? || stmts[name].concat.Some?) && References(stmts, name) <= stmts.Keys
  }

  /** The walk meets a statement already being resolved, or itself. */
  predicate Meets(p: seq<string>, visiting: set<string>) {
    (exists i :: 0 <= i < |p| && p[i] in visiting) || exists i, j :: 0 <= i < j < |p| && p[i] == p[j]
  }

  ghost predicate Doomed(stmts: Catalogue, name: string, visiting: set<string>) {
    exists p :: Walk(ConcatGraph(stmts), p) && p[0] == name && Meets(p, visiting)
  }

  lemma DoomedStep(stmts: Catalogue, name: string, visiting: set<string>)
    requires Closed(stmts) && name in stmts && name !in visiting
    ensures Doomed(stmts, name, visiting) <==>
            exists e :: e in References(stmts, name) && Doomed(stmts, e, visiting + {name})
  {
    var graph := ConcatGraph(stmts);
    if Doomed(stmts, name, visiting) {
      var p :| Walk(graph, p) && p[0] == name && Meets(p, visiting);
      var q := p[1..];
      assert q != [] && q[0] in References(stmts, name);
      assert forall i :: 0 <= i < |q| ==> q[i] == p[i + 1];
      if i :| 0 <= i < |p| && p[i] in visiting {
        assert q[i - 1] in visiting + {name};
      } else {
        var i, j :| 0 <= i < j < |p| && p[i] == p[j];
        if i == 0 {
          assert q[j - 1] in visiting + {name};
        } else {
          assert q[i - 1] == q[j - 1];
        }
      }
      assert Doomed(stmts, q[0], visiting + {name});
    }
    if e :| e in References(stmts, name) && Doomed(stmts, e, visiting + {name}) {
      var q :| Walk(graph, q) && q[0] == e && Meets(q, visiting + {name});
      var p := [name] + q;
      assert forall i :: 1 <= i < |p| ==> p[i] == q[i - 1];
      if i :| 0 <= i < |q| && q[i] in visiting + {name} {
        if q[i] == name {
          assert p[0] == p[i + 1];
        } else {
          assert p[i + 1] in visiting;
        }
      } else {
        var i, j :| 0 <= i < j < |q| && q[i] == q[j];
        assert p[i + 1] == p[j + 1];
      }
      assert Walk(graph, p) && Meets(p, visiting);
    }
  }

  lemma DoomedNow(stmts: Catalogue, name: string, visiting: set<string>)
    requires name in stmts && name in visiting
    ensures Doomed(stmts, name, visiting)
  {
    var p := [name];
    assert Walk(ConcatGraph(stmts), p);
    assert p[0] in visiting;
  }

  /** On a closed catalogue, resolution either succeeds or meets a statement twice on one walk. */
  lemma {:induction false} RaisesWhenDoomed(stmts: Catalogue, name: string, visiting: set<string>)
    requires Closed(stmts) && name in stmts
    ensures if Doomed(stmts, name, visiting)
            then Resolve(stmts, name, visiting).Err? && Resolve(stmts, name, visiting).error.Circular?
            else Resolve(stmts, name, visiting).Ok?
    decreases |stmts.Keys - visiting|, 0
  {
    if name in visiting {
      DoomedNow(stmts, name, visiting);
    } else {
      DoomedStep(stmts, name, visiting);
      if stmts[name].lines.None? {
        Shrinks(stmts.Keys, visiting, name);
        RaisesWhenAnyDoomed(stmts, stmts[name].concat.value, visiting + {name});
      }
    }
  }

  lemma {:induction false} RaisesWhenAnyDoomed(stmts: Catalogue, entries: seq<string>, visiting: set<string>)
    requires Closed(stmts) && forall e :: e in entries && e != SEPARATOR ==> e in stmts
    ensures if exists e :: e in entries && e != SEPARATOR && Doomed(stmts, e, visiting)
            then ResolveAll(stmts, entries, visiting).Err? && ResolveAll(stmts, entries, visiting).error.Circular?
            else ResolveAll(stmts, entries, visiting).Ok?
    decreases |stmts.Keys - visiting|, |entries| + 1
  {
    if entries != [] {
      if entries[0] != SEPARATOR {
        RaisesWhenDoomed(stmts, entries[0], visiting);
      }
      RaisesWhenAnyDoomed(stmts, entries[1..], visiting);
      assert forall e :: e in entries <==> e == entries[0] || e in entries[1..];
    }
  }

  /** A cycle of concat references can be reached from `name`. */
  ghost predicate ReachesCycle(stmts: Catalogue, name: string) {
    exists p, i :: LoopFrom(ConcatGraph(stmts), name, p, i)
  }

  /** A walk from `name` that ends where it was at step `i`. */
  predicate LoopFrom(graph: Graph, name: string, p: seq<string>, i: int) {
    Walk(graph, p) && p[0] == name && 0 <= i < |p| - 1 && p[i] == p[|p| - 1]
  }

  /** On a closed catalogue, `resolve_statement` raises exactly when a concat cycle is reachable. */
  lemma RaisesIffCycleReachable(stmts: Catalogue, name: string)
    requires Closed(stmts) && name in stmts
    ensures Resolve(stmts, name, {}).Err? <==> ReachesCycle(stmts, name)
    ensures Resolve(stmts, name, {}).Err? ==> Resolve(stmts, name, {}).error.Circular?
  {
    RaisesWhenDoomed(stmts, name, {});
    if Doomed(stmts, name, {}) {
      var p :| Walk(ConcatGraph(stmts), p) && p[0] == name && Meets(p, {});
      var i, j :| 0 <= i < j < |p| && p[i] == p[j];
      var q := p[..j + 1];
      assert LoopFrom(ConcatGraph(stmts), name, q, i);
    }
    if ReachesCycle(stmts, name) {
      var p, i :| LoopFrom(ConcatGraph(stmts), name, p, i);
      var j := |p| - 1;
      assert p[i] == p[j] && i < j;
      assert Meets(p, {});
    }
  }

  // ----- The statement checks of validate_catalogue ----------------------------------------------

  predicate WellFormed(metrics: set<string>, stmt: Statement, names: set<string>) {
    && (stmt.lines.Some? <==> stmt.concat.None?)
    && (stmt.lines.Some? ==> forall e :: e in stmt.lines.value ==> e == SEPARATOR || e in metrics)
    && (stmt.concat.Some? ==> forall e :: e in stmt.concat.value ==> e == SEPARATOR || e in names)
  }

  /** One statement's checks, in the order in which they are made. */
  method CheckStatement(metrics: set<string>, stmt: Statement, names: set<string>) returns (ok: bool)
    ensures ok <==> WellFormed(metrics, stmt, names)
  {
    if stmt.lines.Some? && stmt.concat.Some? {
      return false;
    }
    if stmt.lines.None? && stmt.concat.None? {
      return false;
    }
    if stmt.lines.Some? {
      ok := CheckEntries(stmt.lines.value, metrics);
      if !ok {
        return;
      }
    }
    if stmt.concat.Some? {
      ok := CheckEntries(stmt.concat.value, names);
      if !ok {
        return;
      }
    }
    ok := true;
  }

  /** Every entry is a separator or one of `known`. */
  method CheckEntries(entries: seq<string>, known: set<string>) returns (ok: bool)
    ensures ok <==> forall e :: e in entries ==> e == SEPARATOR || e in known
  {
    for i := 0 to |entries|
      invariant forall j :: 0 <= j < i ==> entries[j] == SEPARATOR || entries[j] in known
    {
      if entries[i] != SEPARATOR && entries[i] !in known {
        return false;
      }
    }
    ok := true;
  }

  /** The loop over statements, then the cycle check. */
  method Validate(metrics: set<string>, stmts: Catalogue) returns (accepted: bool)
    ensures accepted <==>
            (forall name :: name in stmts ==> WellFormed(metrics, stmts[name], stmts.Keys))
            && Acyclic(ConcatGraph(stmts))
  {
    var todo := stmts.Keys;
    while todo != {}
      invariant todo <= stmts.Keys
      invariant forall name :: name in stmts && name !in todo ==> WellFormed(metrics, stmts[name], stmts.Keys)
      decreases todo
    {
      var name :| name in todo;
      var ok := CheckStatement(metrics, stmts[name], stmts.Keys);
      if !ok {
        return false;
      }
      todo := todo - {name};
    }
    var cycle := HasCycle(ConcatGraph(stmts));
    accepted := cycle.None?;
  }

  predicate OnlyMetrics(metrics: set<string>, entries: seq<string>) {
    forall e :: e in entries ==> e == SEPARATOR || e in metrics
  }

  /** What resolves in a well-formed catalogue consists of metric keys and separators. */
  lemma {:induction false} ResolvesToMetrics(metrics: set<string>, stmts: Catalogue, name: string,
                                          visiting: set<string>)
    requires forall n :: n in stmts ==> WellFormed(metrics, stmts[n], stmts.Keys)
    requires Resolve(stmts, name, visiting).Ok?
    ensures OnlyMetrics(metrics, Resolve(stmts, name, visiting).entries)
    decreases |stmts.Keys - visiting|, 0
  {
    assert WellFormed(metrics, stmts[name], stmts.Keys);
    if stmts[name].lines.None? {
      Shrinks(stmts.Keys, visiting, name);
      ResolvesAllToMetrics(metrics, stmts, stmts[name].concat.value, visiting + {name});
    }
  }

  lemma {:induction false} ResolvesAllToMetrics(metrics: set<string>, stmts: Catalogue, entries: seq<string>,
                                             visiting: set<string>)
    requires forall n :: n in stmts ==> WellFormed(metrics, stmts[n], stmts.Keys)
    requires ResolveAll(stmts, entries, visiting).Ok?
    ensures OnlyMetrics(metrics, ResolveAll(stmts, entries, visiting).entries)
    decreases |stmts.Keys - visiting|, |entries| + 1
  {
    if entries != [] {
      if entries[0] != SEPARATOR {
        ResolvesToMetrics(metrics, stmts, entries[0], visiting);
      }
      ResolvesAllToMetrics(metrics, stmts, entries[1..], visiting);
    }
  }

  lemma ReachableCycle(stmts: Catalogue, name: string)
    requires ReachesCycle(stmts, name)
    ensures !Acyclic(ConcatGraph(stmts))
  {
    var p, i :| LoopFrom(ConcatGraph(stmts), name, p, i);
    LoopIsCycle(ConcatGraph(stmts), p, i);
  }

  lemma LoopIsCycle(graph: Graph, p: seq<string>, i: nat)
    requires Walk(graph, p) && i < |p| - 1 && p[i] == p[|p| - 1]
    ensures !Acyclic(graph)
  {
    WalkSuffix(graph, p, i);
    assert Cycle(graph, p[i..]);
  }

  lemma WalkSuffix(graph: Graph, p: seq<string>, i: nat)
    requires Walk(graph, p) && i < |p|
    ensures Walk(graph, p[i..])
  {
    var q := p[i..];
    forall k | 0 <= k < |q| - 1
      ensures q[k + 1] in graph[q[k]]
    {
      assert p[i + k + 1] in graph[p[i + k]];
    }
  }

  lemma WellFormedClosed(metrics: set<string>, stmts: Catalogue)
    requires forall n :: n in stmts ==> WellFormed(metrics, stmts[n], stmts.Keys)
    ensures Closed(stmts)
  {
  }

  /** An accepted catalogue resolves every statement, to metric keys and separators only. */
  lemma AcceptedResolves(metrics: set<string>, stmts: Catalogue, name: string)
    requires forall n :: n in stmts ==> WellFormed(metrics, stmts[n], stmts.Keys)
    requires Acyclic(ConcatGraph(stmts)) && name in stmts
    ensures Resolve(stmts, name, {}).Ok? && OnlyMetrics(metrics, Resolve(stmts, name, {}).entries)
  {
    WellFormedClosed(metrics, stmts);
    RaisesIffCycleReachable(stmts, name);
    if ReachesCycle(stmts, name) {
      ReachableCycle(stmts, name);
    } else {
      ResolvesToMetrics(metrics, stmts, name, {});
    }
  }
}
