/** Sums over finite maps, and cardinality facts about maps and their key sets. */
module MapSums {

  ghost function Pick<K, V>(m: map<K, V>): (k: K)
    requires m != map[]
    ensures k in m
  {
    var k :| k in m; k
  }

  /** The sum of all values of `m`. */
  ghost function Total<K>(m: map<K, nat>): nat
    decreases |m|
  {
    if m == map[] then 0 else
      var k := Pick(m);
      assert |m - {k}| < |m| by { CardinalityMinus(m, {k}); }
      m[k] + Total(m - {k})
  }

  function Restrict<K, V>(m: map<K, V>, s: set<K>): map<K, V> {
    map k | k in m && k in s :: m[k]
  }

  lemma CardinalityMinus<K, V>(m: map<K, V>, s: set<K>)
    requires s <= m.Keys
    ensures |m - s| == |m| - |s|
  {
    assert (m - s).Keys == m.Keys - s;
    assert |m.Keys - s| == |m.Keys| - |s|;
  }

  lemma CardinalityUpdate<K, V>(m: map<K, V>, k: K, v: V)
    ensures |m[k := v]| == if k in m then |m| else |m| + 1
  {
    assert m[k := v].Keys == m.Keys + {k};
    if k in m {
      assert m.Keys + {k} == m.Keys;
    }
  }

  lemma {:induction false} TotalRemove<K>(m: map<K, nat>, k: K)
    requires k in m
    ensures Total(m) == m[k] + Total(m - {k})
    decreases |m|
  {
    var p := Pick(m);
    if p != k {
      CardinalityMinus(m, {p});
      CardinalityMinus(m, {k});
      TotalRemove(m - {p}, k);
      TotalRemove(m - {k}, p);
      assert m - {p} - {k} == m - {k} - {p};
    }
  }

  lemma TotalUpdate<K>(m: map<K, nat>, k: K, v: nat)
    ensures Total(m[k := v]) == Total(m) - (if k in m then m[k] else 0) + v
  {
    TotalRemove(m[k := v], k);
    if k in m {
      TotalRemove(m, k);
      assert m[k := v] - {k} == m - {k};
    } else {
      assert m[k := v] - {k} == m;
    }
  }

  /** Removing a set of keys splits the sum in two. */
  lemma {:induction false} TotalSplit<K>(m: map<K, nat>, s: set<K>)
    requires s <= m.Keys
    ensures Total(m) == Total(m - s) + Total(Restrict(m, s))
    decreases |s|
  {
    if s == {} {
      assert m - s == m;
      assert Restrict(m, s) == map[];
    } else {
      var k :| k in s;
      TotalSplit(m - {k}, s - {k});
      assert m - {k} - (s - {k}) == m - s;
      assert Restrict(m - {k}, s - {k}) == Restrict(m, s) - {k};
      TotalRemove(m, k);
      TotalRemove(Restrict(m, s), k);
    }
  }
}
