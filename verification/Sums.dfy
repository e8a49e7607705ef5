/** Sums of real weights over finite maps and over sequences. */
module Sums {

  ghost function SomeKey<K(!new)>(m: map<K, real>): (k: K)
    requires m.Keys != {}
    ensures k in m
  {
    var k :| k in m;
    k
  }

  ghost function Sum<K(!new)>(m: map<K, real>): real
    decreases m.Keys
  {
    if m.Keys == {} then 0.0
    else
      var k := SomeKey(m);
      m[k] + Sum(m - {k})
  }

  /** Any key may be taken out first: the sum does not depend on an order of the keys. */
  lemma {:induction false} SumTakeOut<K(!new)>(m: map<K, real>, k: K)
    requires k in m
    ensures Sum(m) == m[k] + Sum(m - {k})
    decreases m.Keys
  {
    var j := SomeKey(m);
    if j != k {
      SumTakeOut(m - {j}, k);
      SumTakeOut(m - {k}, j);
      assert m - {j} - {k} == m - {k} - {j};
    }
  }

  lemma SumUpdate<K(!new)>(m: map<K, real>, k: K, w: real)
    ensures Sum(m[k := w]) == Sum(m) - (if k in m then m[k] else 0.0) + w
  {
    SumTakeOut(m[k := w], k);
    if k in m {
      SumTakeOut(m, k);
      assert m[k := w] - {k} == m - {k};
    } else {
      assert m[k := w] - {k} == m;
    }
  }

  lemma {:induction false} SumZero<K(!new)>(m: map<K, real>)
    requires forall k | k in m :: m[k] == 0.0
    ensures Sum(m) == 0.0
    decreases m.Keys
  {
    if m.Keys != {} {
      var k := SomeKey(m);
      SumZero(m - {k});
    }
  }

  lemma {:induction false} SumNonNegative<K(!new)>(m: map<K, real>)
    requires forall k | k in m :: m[k] >= 0.0
    ensures Sum(m) >= 0.0
    decreases m.Keys
  {
    if m.Keys != {} {
      var k := SomeKey(m);
      SumNonNegative(m - {k});
    }
  }
}
