/** Sums over finite maps: how a total changes when one entry does. */
module MapSums {

  ghost function Pick<K, V>(m: map<K, V>): (k: K)
    requires |m| > 0
    ensures k in m
  {
    var k :| k in m;
    k
  }

  lemma Without<K, V>(m: map<K, V>, k: K)
    requires k in m
    ensures |m - {k}| == |m| - 1
  {
    assert (m - {k}).Keys == m.Keys - {k};
  }

  /** The sum of `w(m[k])` over the keys of `m`. */
  ghost function Sum<K, V>(m: map<K, V>, w: V -> int): int
    decreases |m|
  {
    if |m| == 0 then 0
    else
      var k := Pick(m);
      Without(m, k);
      w(m[k]) + Sum(m - {k}, w)
  }

  /** Any key may be taken out first. */
  lemma {:induction false} SumSplit<K, V>(m: map<K, V>, w: V -> int, k: K)
    requires k in m
    ensures Sum(m, w) == w(m[k]) + Sum(m - {k}, w)
    decreases |m|
  {
    var p := Pick(m);
    Without(m, p);
    Without(m, k);
    if p != k {
      assert Sum(m, w) == w(m[p]) + Sum(m - {p}, w);
      SumSplit(m - {p}, w, k);
      SumSplit(m - {k}, w, p);
      assert m - {p} - {k} == m - {k} - {p};
    }
  }

  /** Replacing or adding one entry. */
  lemma SumUpdate<K, V>(m: map<K, V>, w: V -> int, k: K, v: V)
    ensures Sum(m[k := v], w) == Sum(m, w) + w(v) - (if k in m then w(m[k]) else 0)
  {
    hide Sum;
    var m' := m[k := v];
    SumSplit(m', w, k);
    assert m' - {k} == m - {k};
    if k in m {
      SumSplit(m, w, k);
    } else {
      assert m - {k} == m;
    }
  }

  lemma {:induction false} SumBounds<K, V>(m: map<K, V>, w: V -> int, v: V -> int)
    requires forall k :: k in m ==> w(m[k]) <= v(m[k])
    ensures Sum(m, w) <= Sum(m, v)
    decreases |m|
  {
    if |m| > 0 {
      var k :| k in m;
      SumSplit(m, w, k);
      SumSplit(m, v, k);
      Without(m, k);
      SumBounds(m - {k}, w, v);
    }
  }

  lemma {:induction false} SumConst<K, V>(m: map<K, V>, w: V -> int, c: int)
    requires forall k :: k in m ==> w(m[k]) == c
    ensures Sum(m, w) == c * |m|
    decreases |m|
  {
    if |m| > 0 {
      var k :| k in m;
      SumSplit(m, w, k);
      Without(m, k);
      SumConst(m - {k}, w, c);
      assert c * |m| == c + c * (|m| - 1);
    }
  }

  /** A sum of non-negative terms that is not zero has a term that is not zero. */
  lemma SumWitness<K, V>(m: map<K, V>, w: V -> int) returns (k: K)
    requires forall k :: k in m ==> w(m[k]) >= 0
    requires Sum(m, w) > 0
    ensures k in m && w(m[k]) > 0
  {
    if forall k :: k in m ==> w(m[k]) == 0 {
      SumConst(m, w, 0);
    }
    k :| k in m && w(m[k]) != 0;
  }

  lemma SumAtLeast<K, V>(m: map<K, V>, w: V -> int, k: K)
    requires forall k :: k in m ==> w(m[k]) >= 0
    requires k in m
    ensures Sum(m, w) >= w(m[k])
  {
    SumSplit(m, w, k);
    var rest := m - {k};
    SumConst(rest, (v: V) => 0, 0);
    SumBounds(rest, (v: V) => 0, w);
  }
}
