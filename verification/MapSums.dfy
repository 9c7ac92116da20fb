/** The sum of the values of a finite map of counters. */
module MapSums {
  ghost function Sum<K(!new)>(m: map<K, int>): int {
    if m == map[] then 0 else var k :| k in m; m[k] + Sum(m - {k})
  }

  /** Any key may be taken out first. */
  lemma {:induction false} SumRemove<K(!new)>(m: map<K, int>, k: K)
    requires k in m
    ensures Sum(m) == m[k] + Sum(m - {k})
    decreases m.Keys
  {
    var j :| j in m && Sum(m) == m[j] + Sum(m - {j});
    if j != k {
      SumRemove(m - {j}, k);
      if m - {k} != map[] {
        SumRemove(m - {k}, j);
      }
      assert m - {j} - {k} == m - {k} - {j};
    }
  }

  lemma SumUpdate<K(!new)>(m: map<K, int>, k: K, v: int)
    ensures Sum(m[k := v]) == Sum(m) + v - if k in m then m[k] else 0
  {
    SumRemove(m[k := v], k);
    if k in m {
      SumRemove(m, k);
      assert m[k := v] - {k} == m - {k};
    } else {
      assert m[k := v] - {k} == m;
    }
  }

  /** Cutting a map in two along a set of keys cuts its sum in two. */
  lemma {:induction false} SumSplit<K(!new)>(m: map<K, int>, keys: set<K>)
    ensures Sum(m) == Sum(m - keys) + Sum(m - (m.Keys - keys))
    decreases m.Keys
  {
    if m == map[] {
      assert m - keys == map[] && m - (m.Keys - keys) == map[];
    } else {
      var k :| k in m;
      var rest := m - {k};
      SumRemove(m, k);
      SumSplit(rest, keys);
      if k in keys {
        SumRemove(m - (m.Keys - keys), k);
        assert m - (m.Keys - keys) - {k} == rest - (rest.Keys - keys);
        assert m - keys == rest - keys;
      } else {
        SumRemove(m - keys, k);
        assert m - keys - {k} == rest - keys;
        assert m - (m.Keys - keys) == rest - (rest.Keys - keys);
      }
    }
  }
}
