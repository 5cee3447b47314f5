/** Sums over finite maps. */
module Sums {
  ghost function Sum<K>(m: map<K, nat>): (n: nat)
    decreases |m|
  {
    if m == map[] then 0
    else
      var k :| k in m;
      assert (m - {k}).Keys == m.Keys - {k};
      m[k] + Sum(m - {k})
  }

  function At<K>(m: map<K, nat>, k: K): (n: nat) {
    if k in m then m[k] else 0
  }

  /** Any one entry can be taken out first. */
  lemma {:induction false} SumPick<K>(m: map<K, nat>, k: K)
    ensures Sum(m) == At(m, k) + Sum(m - {k})
    decreases |m|
  {
    assert k !in m ==> m - {k} == m;
    if k in m {
      var x :| x in m && Sum(m) == m[x] + Sum(m - {x});
      assert (m - {x}).Keys == m.Keys - {x} && (m - {k}).Keys == m.Keys - {k};
      if x != k {
        SumPick(m - {x}, k);
        SumPick(m - {k}, x);
        assert m - {x} - {k} == m - {k} - {x};
      }
    }
  }

  lemma {:induction false} SumSet<K>(m: map<K, nat>, k: K, n: nat)
    ensures Sum(m[k := n]) == Sum(m) - At(m, k) + n
  {
    SumPick(m, k);
    SumPick(m[k := n], k);
    assert m[k := n] - {k} == m - {k};
  }

  lemma {:induction false} SumDrop<K>(m: map<K, nat>, k: K)
    ensures Sum(m - {k}) == Sum(m) - At(m, k)
  {
    SumPick(m, k);
  }
}
