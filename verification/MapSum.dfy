/** Sums over the entries of a finite map, in an order nobody may depend on. */
module MapSum {

  ghost function Pick<K, V>(m: map<K, V>): (k: K)
    requires m != map[]
    ensures k in m
  {
    var k :| k in m;
    k
  }

  ghost function Sum<K, V>(m: map<K, V>, f: (K, V) -> int): int
    decreases |m|
  {
    if m == map[] then 0
    else
      var k := Pick(m);
      f(k, m[k]) + Sum(m - {k}, f)
  }

  /** Any key may be taken first. */
  lemma {:induction false} SumAt<K, V>(m: map<K, V>, f: (K, V) -> int, k: K)
    requires k in m
    ensures Sum(m, f) == f(k, m[k]) + Sum(m - {k}, f)
    decreases |m|
  {
    var p := Pick(m);
    if p != k {
      SumAt(m - {p}, f, k);
      SumAt(m - {k}, f, p);
      assert m - {p} - {k} == m - {k} - {p};
    }
  }

  lemma {:induction false} SumUpdate<K, V>(m: map<K, V>, f: (K, V) -> int, k: K, v: V)
    ensures Sum(m[k := v], f) == Sum(m, f) - (if k in m then f(k, m[k]) else 0) + f(k, v)
  {
    SumAt(m[k := v], f, k);
    assert m[k := v] - {k} == m - {k};
    if k in m {
      SumAt(m, f, k);
    } else {
      assert m - {k} == m;
    }
  }

  lemma {:induction false} SumMono<K, V>(m: map<K, V>, f: (K, V) -> int, g: (K, V) -> int)
    requires forall k :: k in m ==> f(k, m[k]) <= g(k, m[k])
    ensures Sum(m, f) <= Sum(m, g)
    decreases |m|
  {
    if m != map[] {
      SumMono(m - {Pick(m)}, f, g);
    }
  }

  lemma {:induction false} SumZero<K, V>(m: map<K, V>, f: (K, V) -> int)
    requires forall k :: k in m ==> f(k, m[k]) == 0
    ensures Sum(m, f) == 0
    decreases |m|
  {
    if m != map[] {
      SumZero(m - {Pick(m)}, f);
    }
  }
}
