/** The sum of a map's values. */
module Sums {

  ghost function SumOver(keys: set<int>, m: map<int, int>): int
    requires keys <= m.Keys
  {
    if !exists k :: k in keys then 0
    else
      var k :| k in keys;
      m[k] + SumOver(keys - {k}, m)
  }

  ghost function SumMap(m: map<int, int>): int {
    SumOver(m.Keys, m)
  }

  lemma {:induction false} SumOverRemove(keys: set<int>, m: map<int, int>, k: int)
    requires keys <= m.Keys && k in keys
    ensures SumOver(keys, m) == m[k] + SumOver(keys - {k}, m)
  {
    var j :| j in keys && SumOver(keys, m) == m[j] + SumOver(keys - {j}, m);
    if j != k {
      SumOverRemove(keys - {j}, m, k);
      SumOverRemove(keys - {k}, m, j);
      assert keys - {j} - {k} == keys - {k} - {j};
    }
  }

  lemma {:induction false} SumOverAgrees(keys: set<int>, m: map<int, int>, n: map<int, int>)
    requires keys <= m.Keys && keys <= n.Keys && forall k | k in keys :: m[k] == n[k]
    ensures SumOver(keys, m) == SumOver(keys, n)
  {
    if k :| k in keys {
      SumOverRemove(keys, m, k);
      SumOverRemove(keys, n, k);
      SumOverAgrees(keys - {k}, m, n);
    }
  }

  lemma SumMapUpdate(m: map<int, int>, k: int, v: int)
    ensures SumMap(m[k := v]) == SumMap(m) + v - (if k in m then m[k] else 0)
  {
    var n := m[k := v];
    SumOverRemove(n.Keys, n, k);
    if k in m {
      SumOverRemove(m.Keys, m, k);
      assert n.Keys == m.Keys;
    } else {
      assert n.Keys - {k} == m.Keys;
    }
    SumOverAgrees(m.Keys - {k}, m, n);
    assert m.Keys - {k} == n.Keys - {k};
  }
}
