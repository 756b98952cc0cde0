/** Sums over finite maps: the `SUM(size)` of a table, one weight per row. */
module Totals {
  ghost function Total<K, V>(m: map<K, V>, weight: V -> nat): nat
    decreases |m|
  {
    if m == map[] then 0
    else
      var k :| k in m;
      weight(m[k]) + Total(m - {k}, weight)
  }

  /** The sum does not depend on the order in which rows are added up. */
  lemma {:induction false} TotalSplit<K, V>(m: map<K, V>, weight: V -> nat, k: K)
    requires k in m
    ensures Total(m, weight) == weight(m[k]) + Total(m - {k}, weight)
    decreases |m|
  {
    var j :| j in m && Total(m, weight) == weight(m[j]) + Total(m - {j}, weight);
    if j != k {
      TotalSplit(m - {j}, weight, k);
      TotalSplit(m - {k}, weight, j);
      assert m - {j} - {k} == m - {k} - {j};
    }
  }

  lemma TotalInsert<K, V>(m: map<K, V>, weight: V -> nat, k: K, v: V)
    ensures Total(m[k := v], weight) == Total(m - {k}, weight) + weight(v)
  {
    TotalSplit(m[k := v], weight, k);
    assert m[k := v] - {k} == m - {k};
  }

  lemma TotalWithout<K, V>(m: map<K, V>, weight: V -> nat, k: K)
    ensures Total(m, weight) == Total(m - {k}, weight) + (if k in m then weight(m[k]) else 0)
  {
    if k in m {
      TotalSplit(m, weight, k);
    } else {
      assert m - {k} == m;
    }
  }

  /** Rows with the same keys and the same weights add up to the same total. */
  lemma {:induction false} TotalAlike<K, V>(m: map<K, V>, n: map<K, V>, weight: V -> nat)
    requires m.Keys == n.Keys
    requires forall k :: k in m ==> weight(m[k]) == weight(n[k])
    ensures Total(m, weight) == Total(n, weight)
    decreases |m|
  {
    if m == map[] {
      assert n == map[];
    } else {
      var k :| k in m;
      TotalSplit(m, weight, k);
      TotalSplit(n, weight, k);
      TotalAlike(m - {k}, n - {k}, weight);
    }
  }

  /** Part of a table adds up to no more than the whole, and has no more rows. */
  lemma {:induction false} TotalPart<K, V, W>(part: map<K, V>, pw: V -> nat, whole: map<K, W>, ww: W -> nat)
    requires part.Keys <= whole.Keys
    requires forall k :: k in part ==> pw(part[k]) <= ww(whole[k])
    ensures Total(part, pw) <= Total(whole, ww) && |part| <= |whole|
    decreases |part|
  {
    if part != map[] {
      var k :| k in part;
      TotalSplit(part, pw, k);
      TotalSplit(whole, ww, k);
      TotalPart(part - {k}, pw, whole - {k}, ww);
      assert |part - {k}| == |part| - 1 && |whole - {k}| == |whole| - 1;
    }
  }
}
