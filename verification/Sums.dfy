/** Sums of the values of a map, in whatever order they are added. */
module Sums {
  import opened Base

  ghost function Sum<K(!new)>(m: map<K, nat>): nat {
    if m == map[] then 0
    else
      var k :| k in m;
      m[k] + Sum(m - {k})
  }

  lemma {:induction false} SumRemove<K(!new)>(m: map<K, nat>, k: K)
    requires k in m
    ensures Sum(m) == m[k] + Sum(m - {k})
    decreases |m|
  {
    var x :| x in m && Sum(m) == m[x] + Sum(m - {x});
    if x != k {
      assert |m - {x}| < |m| && |m - {k}| < |m| by {
        assert (m - {x}).Keys == m.Keys - {x};
        assert (m - {k}).Keys == m.Keys - {k};
      }
      SumRemove(m - {x}, k);
      SumRemove(m - {k}, x);
      assert m - {x} - {k} == m - {k} - {x};
    }
  }

  lemma {:induction false} SumAdd<K(!new)>(m: map<K, nat>, k: K, value: nat)
    requires k !in m
    ensures Sum(m[k := value]) == Sum(m) + value
  {
    SumRemove(m[k := value], k);
    assert m[k := value] - {k} == m;
  }

  lemma {:induction false} SumLess<K(!new)>(small: map<K, nat>, big: map<K, nat>)
    requires small.Keys <= big.Keys && forall k :: k in small ==> small[k] == big[k]
    ensures Sum(small) <= Sum(big)
    decreases |small|
  {
    if small != map[] {
      var k := Pick(small.Keys);
      SumRemove(small, k);
      SumRemove(big, k);
      assert (small - {k}).Keys == small.Keys - {k};
      SumLess(small - {k}, big - {k});
    }
  }

  lemma {:induction false} SumUnion<K(!new)>(a: map<K, nat>, b: map<K, nat>)
    requires a.Keys !! b.Keys
    ensures Sum(a + b) == Sum(a) + Sum(b)
    decreases |b|
  {
    if b == map[] {
      assert a + b == a;
    } else {
      var k := Pick(b.Keys);
      RemoveLater(a, b, k);
      SumUnion(a, b - {k});
      SumRemove(b, k);
      SumRemove(a + b, k);
    }
  }

  lemma {:induction false} RemoveLater<K(!new)>(a: map<K, nat>, b: map<K, nat>, k: K)
    requires a.Keys !! b.Keys && k in b
    ensures a + b - {k} == a + (b - {k}) && |b - {k}| < |b| && (a + b)[k] == b[k]
  {
    assert (b - {k}).Keys == b.Keys - {k};
  }
}
