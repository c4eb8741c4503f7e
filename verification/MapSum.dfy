/** The sum of a map's values, as `sum(m.values())` takes it. */
module MapSum {

  ghost function Sum<K>(m: map<K, nat>): nat {
    if m == map[] then 0 else
      var k :| k in m;
      m[k] + Sum(m - {k})
  }

  /** Any key may be taken first. */
  lemma {:induction false} SumTakes<K>(m: map<K, nat>, k: K)
    requires k in m
    ensures Sum(m) == m[k] + Sum(m - {k})
    decreases |m|
  {
    var first :| first in m && Sum(m) == m[first] + Sum(m - {first});
    if first != k {
      SumTakes(m - {first}, k);
      SumTakes(m - {k}, first);
      assert (m - {first}) - {k} == (m - {k}) - {first};
    }
  }

  lemma SumUpdates<K>(m: map<K, nat>, k: K, v: nat)
    ensures Sum(m[k := v]) == Sum(m) - (if k in m then m[k] else 0) + v
  {
    SumTakes(m[k := v], k);
    assert m[k := v] - {k} == m - {k};
    if k in m { SumTakes(m, k); } else { assert m - {k} == m; }
  }

  lemma SumDrops<K>(m: map<K, nat>, k: K)
    ensures Sum(m - {k}) == Sum(m) - if k in m then m[k] else 0
  {
    if k in m { SumTakes(m, k); } else { assert m - {k} == m; }
  }

  lemma SameMap<K, V>(a: map<K, V>, b: map<K, V>)
    requires forall k :: k in a ==> k in b && b[k] == a[k]
    requires forall k :: k in b ==> k in a
    ensures a == b
  {
  }
}
