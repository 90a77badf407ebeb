/** Sums over the values of a finite map. */
module MapSums {

  ghost function Total<K, V>(m: map<K, V>, f: V -> int): int {
    if m == map[] then 0
    else
      var k :| k in m;
      f(m[k]) + Total(m - {k}, f)
  }

  /** Any key may be taken out first. */
  lemma {:induction false} TotalWithout<K, V>(m: map<K, V>, k: K, f: V -> int)
    requires k in m
    ensures Total(m, f) == f(m[k]) + Total(m - {k}, f)
    decreases |m|
  {
    var j :| j in m && Total(m, f) == f(m[j]) + Total(m - {j}, f);
    if j != k {
      TotalWithout(m - {j}, k, f);
      TotalWithout(m - {k}, j, f);
      assert (m - {j}) - {k} == (m - {k}) - {j};
    }
  }

  lemma TotalUpdate<K, V>(m: map<K, V>, k: K, v: V, f: V -> int)
    ensures Total(m[k := v], f) == Total(m, f) + f(v) - (if k in m then f(m[k]) else 0)
  {
    TotalWithout(m[k := v], k, f);
    if k in m {
      TotalWithout(m, k, f);
      assert m[k := v] - {k} == m - {k};
    } else {
      assert m[k := v] - {k} == m;
    }
  }

  /** A sum of nonnegative terms is nonnegative, and zero exactly when every term is. */
  lemma {:induction false} TotalSign<K, V>(m: map<K, V>, f: V -> int)
    requires forall k :: k in m ==> f(m[k]) >= 0
    ensures Total(m, f) >= 0
    ensures Total(m, f) == 0 <==> forall k :: k in m ==> f(m[k]) == 0
    decreases |m|
  {
    if m != map[] {
      var j :| j in m;
      TotalWithout(m, j, f);
      TotalSign(m - {j}, f);
      assert forall k :: k in m && k != j ==> k in m - {j} && (m - {j})[k] == m[k];
    }
  }
}
