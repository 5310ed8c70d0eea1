/** Sums over the values of a finite map. */
module MapSums {

  ghost function Total<K>(m: map<K, int>): int
    decreases |m|
  {
    if m == map[] then 0
    else
      var k :| k in m;
      m[k] + Total(m - {k})
  }

  /** The sum does not depend on the order in which keys are taken. */
  lemma {:induction false} TotalRemove<K>(m: map<K, int>, k: K)
    requires k in m
    ensures Total(m) == m[k] + Total(m - {k})
    decreases |m|
  {
    var c :| c in m && Total(m) == m[c] + Total(m - {c});
    if c != k {
      TotalRemove(m - {c}, k);
      TotalRemove(m - {k}, c);
      assert m - {c} - {k} == m - {k} - {c};
    }
  }

  lemma TotalUpdate<K>(m: map<K, int>, k: K, v: int)
    ensures Total(m[k := v]) == Total(m) - (if k in m then m[k] else 0) + v
  {
    TotalRemove(m[k := v], k);
    if k in m {
      TotalRemove(m, k);
      assert m[k := v] - {k} == m - {k};
    } else {
      assert m[k := v] - {k} == m;
    }
  }

  lemma {:induction false} TotalNonNegative<K>(m: map<K, int>)
    requires forall k :: k in m ==> m[k] >= 0
    ensures Total(m) >= 0
    decreases |m|
  {
    if m != map[] {
      var c :| c in m && Total(m) == m[c] + Total(m - {c});
      TotalNonNegative(m - {c});
    }
  }

  /** Two different entries together are at most the sum. */
  lemma TwoEntries<K>(m: map<K, int>, a: K, b: K)
    requires a in m && b in m && a != b && forall k :: k in m ==> m[k] >= 0
    ensures m[a] + m[b] <= Total(m)
  {
    TotalRemove(m, a);
    TotalRemove(m - {a}, b);
    TotalNonNegative(m - {a} - {b});
  }
}
