/** Sums of multisets held in a map, used to count jobs across queues and leases. */
module Bags {

  ghost function Sum<K, V>(m: map<K, multiset<V>>): multiset<V> {
    if m == map[] then multiset{}
    else
      var k :| k in m;
      m[k] + Sum(m - {k})
  }

  ghost function At<K, V>(m: map<K, multiset<V>>, k: K): multiset<V> {
    if k in m then m[k] else multiset{}
  }

  lemma {:induction false} SumRemove<K, V>(m: map<K, multiset<V>>, k: K)
    requires k in m
    ensures Sum(m) == m[k] + Sum(m - {k})
    decreases |m|
  {
    var chosen :| chosen in m && Sum(m) == m[chosen] + Sum(m - {chosen});
    if chosen != k {
      SumRemove(m - {chosen}, k);
      SumRemove(m - {k}, chosen);
      assert m - {chosen} - {k} == m - {k} - {chosen};
    }
  }

  /** Replacing one entry changes the sum by that entry alone. */
  lemma SumUpdate<K, V>(m: map<K, multiset<V>>, k: K, v: multiset<V>)
    ensures Sum(m[k := v]) + At(m, k) == Sum(m) + v
  {
    SumRemove(m[k := v], k);
    assert m[k := v] - {k} == m - {k};
    if k in m {
      SumRemove(m, k);
    } else {
      assert m - {k} == m;
    }
  }

  lemma SumDrop<K, V>(m: map<K, multiset<V>>, k: K)
    ensures Sum(m - {k}) + At(m, k) == Sum(m)
  {
    if k in m {
      SumRemove(m, k);
    } else {
      assert m - {k} == m;
    }
  }

  /** An entry is part of the sum. */
  lemma SumAtLeast<K, V>(m: map<K, multiset<V>>, k: K)
    ensures At(m, k) <= Sum(m)
  {
    SumDrop(m, k);
  }

  /** Changing one of three summands. */
  lemma Exchange<V>(x: multiset<V>, x': multiset<V>, y: multiset<V>, z: multiset<V>, a: multiset<V>, b: multiset<V>)
    requires x' + a == x + b
    ensures (x' + y + z) + a == (x + y + z) + b
    ensures (y + x' + z) + a == (y + x + z) + b
    ensures (y + z + x') + a == (y + z + x) + b
  {
    assert x' + y + z + a == (x' + a) + y + z;
    assert x + y + z + b == (x + b) + y + z;
    assert y + x' + z + a == (x' + a) + y + z;
    assert y + x + z + b == (x + b) + y + z;
    assert y + z + x' + a == (x' + a) + y + z;
    assert y + z + x + b == (x + b) + y + z;
  }

  lemma Cancel<V>(x: multiset<V>, x': multiset<V>, a: multiset<V>, b: multiset<V>)
    requires x' + a == x + (a + b)
    ensures x' == x + b
  {
    forall v ensures x'[v] == (x + b)[v] {
      assert (x' + a)[v] == (x + (a + b))[v];
    }
  }
}
