/** The sum of the values of a finite map. It picks keys in no particular order; the lemmas show
    that the order does not matter. */
module MapSums {

  ghost function Sum<K>(m: map<K, int>): int
    decreases |m|
  {
    if m == map[] then 0 else
      var k :| k in m;
      Shrinks(m, k);
      m[k] + Sum(m - {k})
  }

  lemma Shrinks<K, V>(m: map<K, V>, k: K)
    requires k in m
    ensures |m - {k}| == |m| - 1
  {
    assert (m - {k}).Keys == m.Keys - {k};
  }

  lemma {:induction false} SumRemove<K>(m: map<K, int>, k: K)
    requires k in m
    ensures Sum(m) == m[k] + Sum(m - {k})
    decreases |m|
  {
    var c :| c in m && Sum(m) == m[c] + Sum(m - {c});
    if c != k {
      Shrinks(m, c);
      Shrinks(m, k);
      SumRemove(m - {c}, k);
      SumRemove(m - {k}, c);
      assert m - {c} - {k} == m - {k} - {c};
    }
  }

  lemma SumInsert<K>(m: map<K, int>, k: K, v: int)
    requires k !in m
    ensures Sum(m[k := v]) == Sum(m) + v
  {
    SumRemove(m[k := v], k);
    assert m[k := v] - {k} == m;
  }

  lemma SumUpdate<K>(m: map<K, int>, k: K, v: int)
    requires k in m
    ensures Sum(m[k := v]) == Sum(m) - m[k] + v
  {
    SumRemove(m[k := v], k);
    SumRemove(m, k);
    assert m[k := v] - {k} == m - {k};
  }

  lemma UnionMinus<K, V>(a: map<K, V>, b: map<K, V>, k: K)
    requires k in a && a.Keys !! b.Keys
    ensures (a + b) - {k} == (a - {k}) + b && (a + b)[k] == a[k]
  {}

  lemma {:induction false} SumUnion<K>(a: map<K, int>, b: map<K, int>)
    requires a.Keys !! b.Keys
    ensures Sum(a + b) == Sum(a) + Sum(b)
    decreases |a|
  {
    if a == map[] {
      assert a + b == b;
    } else {
      var k :| k in a;
      Shrinks(a, k);
      SumUnion(a - {k}, b);
      SumRemove(a, k);
      SumRemove(a + b, k);
      UnionMinus(a, b, k);
    }
  }
}
