/** The sum of the values of a finite map. */
module Totals {

  ghost function Total<K>(m: map<K, int>): int
  {
    if m == map[] then 0
    else
      var k :| k in m;
      m[k] + Total(m - {k})
  }

  lemma {:induction false} TotalRemove<K>(m: map<K, int>, k: K)
    requires k in m
    ensures Total(m) == m[k] + Total(m - {k})
    decreases |m|
  {
    var first :| first in m && Total(m) == m[first] + Total(m - {first});
    if first != k {
      var rest := m - {first};
      assert rest.Keys == m.Keys - {first} && (m - {k}).Keys == m.Keys - {k};
      TotalRemove(rest, k);
      TotalRemove(m - {k}, first);
      assert rest - {k} == (m - {k}) - {first};
    }
  }

  lemma TotalUpdate<K>(m: map<K, int>, k: K, v: int)
    ensures Total(m[k := v]) == Total(m) + v - (if k in m then m[k] else 0)
  {
    var m' := m[k := v];
    TotalRemove(m', k);
    if k in m {
      TotalRemove(m, k);
      assert m' - {k} == m - {k};
    } else {
      assert m' - {k} == m;
    }
  }

  /** Larger values and extra non-negative entries make a larger total. */
  lemma {:induction false} TotalMonotone<K>(m: map<K, int>, n: map<K, int>)
    requires forall k :: k in m ==> k in n && m[k] <= n[k]
    requires forall k :: k in n && k !in m ==> n[k] >= 0
    ensures Total(m) <= Total(n)
    decreases |n|
  {
    if n == map[] {
      assert m == map[];
    } else {
      var k :| k in n;
      TotalRemove(n, k);
      if k in m {
        TotalRemove(m, k);
        TotalMonotone(m - {k}, n - {k});
      } else {
        TotalMonotone(m, n - {k});
      }
    }
  }
}
