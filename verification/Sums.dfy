/** Sums of a weight over the values of a finite map.  Counters, reservations and the
    total token supply are all sums of this kind, so one update law serves them all. */
module Sums {

  ghost function Sum<K(!new), V>(m: map<K, V>, w: V -> nat): (s: nat)
    decreases |m|
  {
    if m == map[] then 0
    else
      var k :| k in m;
      w(m[k]) + Sum(m - {k}, w)
  }

  /** The order in which keys are picked does not matter. */
  lemma {:induction false} SumRemove<K(!new), V>(m: map<K, V>, w: V -> nat, k: K)
    requires k in m
    ensures Sum(m, w) == w(m[k]) + Sum(m - {k}, w)
    decreases |m|
  {
    var p :| p in m && Sum(m, w) == w(m[p]) + Sum(m - {p}, w);
    if p != k {
      SumRemove(m - {p}, w, k);
      SumRemove(m - {k}, w, p);
      assert m - {p} - {k} == m - {k} - {p};
    }
  }

  /** Writing one entry changes the sum by the difference of the two weights. */
  lemma {:induction false} SumUpdate<K(!new), V>(m: map<K, V>, w: V -> nat, k: K, v: V)
    ensures k in m ==> Sum(m[k := v], w) == Sum(m, w) - w(m[k]) + w(v)
    ensures k !in m ==> Sum(m[k := v], w) == Sum(m, w) + w(v)
  {
    SumRemove(m[k := v], w, k);
    assert m[k := v] - {k} == m - {k};
    if k in m {
      SumRemove(m, w, k);
    } else {
      assert m - {k} == m;
    }
  }

  lemma {:induction false} SumBound<K(!new), V>(m: map<K, V>, w: V -> nat, k: K)
    requires k in m
    ensures w(m[k]) <= Sum(m, w)
  {
    SumRemove(m, w, k);
  }

  lemma {:induction false} SumZero<K(!new), V>(m: map<K, V>, w: V -> nat)
    requires forall k :: k in m ==> w(m[k]) == 0
    ensures Sum(m, w) == 0
    decreases |m|
  {
    if m != map[] {
      var k :| k in m;
      SumRemove(m, w, k);
      SumZero(m - {k}, w);
    }
  }

  lemma {:induction false} SumSame<K(!new), V>(m: map<K, V>, w: V -> nat, w': V -> nat)
    requires forall k :: k in m ==> w(m[k]) == w'(m[k])
    ensures Sum(m, w) == Sum(m, w')
    decreases |m|
  {
    if m != map[] {
      var k :| k in m;
      SumRemove(m, w, k);
      SumRemove(m, w', k);
      SumSame(m - {k}, w, w');
    }
  }

  lemma {:induction false} SumMonotone<K(!new), V>(m: map<K, V>, w: V -> nat, w': V -> nat)
    requires forall k :: k in m ==> w(m[k]) <= w'(m[k])
    ensures Sum(m, w) <= Sum(m, w')
    decreases |m|
  {
    if m != map[] {
      var k :| k in m;
      SumRemove(m, w, k);
      SumRemove(m, w', k);
      SumMonotone(m - {k}, w, w');
    }
  }

  lemma {:induction false} SumStrict<K(!new), V>(m: map<K, V>, w: V -> nat, w': V -> nat, k: K)
    requires forall k :: k in m ==> w(m[k]) <= w'(m[k])
    requires k in m && w(m[k]) < w'(m[k])
    ensures Sum(m, w) < Sum(m, w')
  {
    SumRemove(m, w, k);
    SumRemove(m, w', k);
    SumMonotone(m - {k}, w, w');
  }

  /** Sums over two maps with the same keys compare as their entries do. */
  lemma {:induction false} SumPointwise<K(!new), V>(m: map<K, V>, m': map<K, V>, w: V -> nat)
    requires m'.Keys == m.Keys
    requires forall k :: k in m ==> w(m'[k]) <= w(m[k])
    ensures Sum(m', w) <= Sum(m, w)
    decreases |m|
  {
    if m != map[] {
      var k :| k in m;
      SumRemove(m, w, k);
      SumRemove(m', w, k);
      SumPointwise(m - {k}, m' - {k}, w);
    } else {
      assert m' == map[];
    }
  }

  lemma {:induction false} SumPlus<K(!new), V>(m: map<K, V>, w: V -> nat, a: V -> nat, b: V -> nat)
    requires forall k :: k in m ==> w(m[k]) == a(m[k]) + b(m[k])
    ensures Sum(m, w) == Sum(m, a) + Sum(m, b)
    decreases |m|
  {
    if m != map[] {
      var k :| k in m;
      SumRemove(m, w, k);
      SumRemove(m, a, k);
      SumRemove(m, b, k);
      SumPlus(m - {k}, w, a, b);
    }
  }
}
