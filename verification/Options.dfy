/** Optional values, a map less one entry, and the size of a subset. */
module Options {
  datatype Option<+T> = None | Some(value: T)

  function Without<K(==), V>(m: map<K, V>, k: K): (r: map<K, V>) {
    map x | x in m && x != k :: m[x]
  }

  lemma {:induction false} SubsetSize<T>(a: set<T>, b: set<T>)
    requires a <= b
    ensures |a| <= |b|
  {
    assert |a + (b - a)| == |a| + |b - a|;
    assert a + (b - a) == b;
  }
}
