/** The blocks of a Bloom filter as sets of bits. What a block must hold is determined by
    the set of hashes inserted, so neither the order of the inserts nor the threads that
    make them matter. */
module BloomBits {
  import opened Arithmetic

  /** Every bit of `v` is set in `w`. */
  predicate Covers(w: bv64, v: bv64) { w & v == v }

  function Or(a: bv64, b: bv64): bv64 { a | b }

  lemma CoversTrans(a: bv64, b: bv64, c: bv64)
    requires Covers(a, b) && Covers(b, c)
    ensures Covers(a, c)
  {
  }

  lemma OrAbove(a: bv64, b: bv64)
    ensures Covers(Or(a, b), a)
  {
  }

  lemma OrAboveSecond(a: bv64, b: bv64)
    ensures Covers(Or(a, b), b)
  {
  }

  lemma OrBelow(w: bv64, a: bv64, b: bv64)
    requires Covers(w, a) && Covers(w, b)
    ensures Covers(w, Or(a, b))
  {
  }

  lemma CoversBoth(a: bv64, b: bv64)
    requires Covers(a, b) && Covers(b, a)
    ensures a == b
  {
  }

  // ---- a filter of `n` blocks ----

  const HASH_SKIP := 65536

  /** The bits of a hash behind those that pick the mask pick the block. */
  function BlockId(hash: nat, n: nat): (id: nat)
    requires n > 0
    ensures id < n
  {
    (hash / HASH_SKIP) % n
  }

  /** The masks: how the low bits of a hash pick the bits to set. */
  type Masks = nat -> bv64

  function MaskOf(masks: Masks, hash: nat): bv64 { masks(hash % HASH_SKIP) }

  /** A block holds the bits of every hash that belongs to it. */
  ghost predicate Enough(masks: Masks, n: nat, hashes: set<nat>, b: nat, v: bv64)
    requires n > 0
  {
    forall h :: h in hashes && BlockId(h, n) == b ==> Covers(v, MaskOf(masks, h))
  }

  /** And no other bits. */
  ghost predicate Least(masks: Masks, n: nat, hashes: set<nat>, b: nat, v: bv64)
    requires n > 0
  {
    Enough(masks, n, hashes, b, v) && forall w :: Enough(masks, n, hashes, b, w) ==> Covers(w, v)
  }

  ghost predicate BuiltFrom(masks: Masks, blocks: seq<bv64>, n: nat, hashes: set<nat>) {
    0 < n <= |blocks| && forall b :: 0 <= b < n ==> Least(masks, n, hashes, b, blocks[b])
  }

  predicate Find(masks: Masks, blocks: seq<bv64>, n: nat, hash: nat)
    requires 0 < n <= |blocks|
  {
    Covers(blocks[BlockId(hash, n)], MaskOf(masks, hash))
  }

  /** A hash that was inserted is found. */
  lemma NoFalseNegative(masks: Masks, blocks: seq<bv64>, n: nat, hashes: set<nat>, hash: nat)
    requires BuiltFrom(masks, blocks, n, hashes) && hash in hashes
    ensures Find(masks, blocks, n, hash)
  {
    assert Least(masks, n, hashes, BlockId(hash, n), blocks[BlockId(hash, n)]);
  }

  predicate Overlaps(x: bv64, m: bv64) { x & m != 0 }

  /** A hash is found if and only if every bit of its mask is set in the mask of an inserted
      hash of the same block. */
  lemma FoundIff(masks: Masks, blocks: seq<bv64>, n: nat, hashes: set<nat>, hash: nat)
    requires BuiltFrom(masks, blocks, n, hashes)
    ensures Find(masks, blocks, n, hash) <==>
      forall x: bv64 :: Overlaps(x, masks(hash % 65536)) ==>
        exists h :: h in hashes && (h / 65536) % n == (hash / 65536) % n && Overlaps(x, masks(h % 65536))
  {
    hide Least, Overlaps, Covers;
    var b, m := BlockId(hash, n), MaskOf(masks, hash);
    var v := blocks[b];
    assert Least(masks, n, hashes, b, v);
    LeastKnows(masks, n, hashes, b, v);
    if Covers(v, m) {
      forall x: bv64 | Overlaps(x, m)
        ensures exists h :: h in hashes && BlockId(h, n) == b && Overlaps(x, MaskOf(masks, h))
      {
        if forall h :: h in hashes && BlockId(h, n) == b ==> !Overlaps(x, MaskOf(masks, h)) {
          WithoutIsEnough(masks, n, hashes, b, v, x);
          NotWithout(v, m, x);
        }
      }
    } else {
      NotCovered(v, m);
      forall h | h in hashes && BlockId(h, n) == b
        ensures !Overlaps(!v, MaskOf(masks, h))
      {
        NothingOutside(v, MaskOf(masks, h));
      }
    }
  }

  lemma NotCovered(v: bv64, m: bv64)
    requires !Covers(v, m)
    ensures Overlaps(!v, m)
  {
    assert (v & m) | (!v & m) == m;
  }

  lemma NothingOutside(v: bv64, m: bv64)
    requires Covers(v, m)
    ensures !Overlaps(!v, m)
  {
    assert !v & (v & m) == 0;
  }

  lemma NotWithout(v: bv64, m: bv64, x: bv64)
    requires Covers(v, m) && Overlaps(x, m)
    ensures !Covers(v & !x, v)
  {
  }

  lemma Without(v: bv64, m: bv64, x: bv64)
    requires Covers(v, m) && !Overlaps(x, m)
    ensures Covers(v & !x, m)
  {
  }

  lemma WithoutIsEnough(masks: Masks, n: nat, hashes: set<nat>, b: nat, v: bv64, x: bv64)
    requires n > 0 && Enough(masks, n, hashes, b, v)
    requires forall h :: h in hashes && BlockId(h, n) == b ==> !Overlaps(x, MaskOf(masks, h))
    ensures Enough(masks, n, hashes, b, v & !x)
  {
    hide Covers, Overlaps, BlockId, MaskOf;
    forall h | h in hashes && BlockId(h, n) == b
      ensures Covers(v & !x, MaskOf(masks, h))
    {
      Without(v, MaskOf(masks, h), x);
    }
  }

  lemma LeastKnows(masks: Masks, n: nat, hashes: set<nat>, b: nat, v: bv64)
    requires n > 0 && Least(masks, n, hashes, b, v)
    ensures Enough(masks, n, hashes, b, v) && forall w :: Enough(masks, n, hashes, b, w) ==> Covers(w, v)
  {
  }

  /** The hashes determine the filter. */
  lemma SameFilter(masks: Masks, blocks: seq<bv64>, others: seq<bv64>, n: nat, hashes: set<nat>)
    requires BuiltFrom(masks, blocks, n, hashes) && BuiltFrom(masks, others, n, hashes)
    ensures blocks[..n] == others[..n]
  {
    forall b | 0 <= b < n
      ensures blocks[b] == others[b]
    {
      assert Least(masks, n, hashes, b, blocks[b]) && Least(masks, n, hashes, b, others[b]);
      CoversBoth(blocks[b], others[b]);
    }
  }

  lemma EmptyFilter(masks: Masks, blocks: seq<bv64>, n: nat)
    requires 0 < n <= |blocks| && forall b :: 0 <= b < n ==> blocks[b] == 0
    ensures BuiltFrom(masks, blocks, n, {})
  {
    forall b | 0 <= b < n
      ensures Least(masks, n, {}, b, blocks[b])
    {
    }
  }

  lemma InsertStep(masks: Masks, blocks: seq<bv64>, n: nat, hashes: set<nat>, hash: nat)
    requires BuiltFrom(masks, blocks, n, hashes)
    ensures var id := BlockId(hash, n);
      BuiltFrom(masks, blocks[id := Or(blocks[id], MaskOf(masks, hash))], n, hashes + {hash})
  {
    hide Or, Covers, BlockId, MaskOf, Least;
    var id, m := BlockId(hash, n), MaskOf(masks, hash);
    var blocks' := blocks[id := Or(blocks[id], m)];
    forall b | 0 <= b < n
      ensures Least(masks, n, hashes + {hash}, b, blocks'[b])
    {
      assert Least(masks, n, hashes, b, blocks[b]);
      if b == id {
        GrowBlock(masks, n, hashes, hash, b, blocks[b]);
      } else {
        SameBlock(masks, n, hashes, hash, b, blocks[b]);
      }
    }
  }

  lemma GrowBlock(masks: Masks, n: nat, hashes: set<nat>, hash: nat, b: nat, v: bv64)
    requires n > 0 && Least(masks, n, hashes, b, v) && BlockId(hash, n) == b
    ensures Least(masks, n, hashes + {hash}, b, Or(v, MaskOf(masks, hash)))
  {
    hide Or, Covers, BlockId, MaskOf;
    var m := MaskOf(masks, hash);
    OrAbove(v, m);
    OrAboveSecond(v, m);
    forall h | h in hashes + {hash} && BlockId(h, n) == b
      ensures Covers(Or(v, m), MaskOf(masks, h))
    {
      if h in hashes {
        CoversTrans(Or(v, m), v, MaskOf(masks, h));
      }
    }
    forall w | Enough(masks, n, hashes + {hash}, b, w)
      ensures Covers(w, Or(v, m))
    {
      assert Enough(masks, n, hashes, b, w);
      OrBelow(w, v, m);
    }
  }

  lemma SameBlock(masks: Masks, n: nat, hashes: set<nat>, hash: nat, b: nat, v: bv64)
    requires n > 0 && Least(masks, n, hashes, b, v) && BlockId(hash, n) != b
    ensures Least(masks, n, hashes + {hash}, b, v)
  {
    hide Or, Covers, BlockId, MaskOf;
    forall w | Enough(masks, n, hashes + {hash}, b, w)
      ensures Covers(w, v)
    {
      assert Enough(masks, n, hashes, b, w);
    }
  }

  // ---- folding ----

  /** The bits of the blocks `b`, `b + n`, `b + 2n`, ... in the first `slices` slices. */
  function Folded(blocks: seq<bv64>, n: nat, slices: nat, b: nat): bv64
    requires b < n && slices * n <= |blocks|
    decreases slices
  {
    if slices == 0 then 0
    else
      Multiples(slices - 1, slices, n);
      Or(Folded(blocks, n, slices - 1, b), blocks[(slices - 1) * n + b])
  }

  lemma SliceIndex(k: nat, slices: nat, n: nat, b: nat)
    requires k < slices && b < n
    ensures k * n + b < slices * n
  {
    Multiples(k, slices, n);
  }

  lemma {:induction false} FoldedCovers(blocks: seq<bv64>, n: nat, slices: nat, b: nat, k: nat)
    requires b < n && slices * n <= |blocks| && k < slices
    ensures k * n + b < |blocks| && Covers(Folded(blocks, n, slices, b), blocks[k * n + b])
    decreases slices
  {
    hide Or, Covers;
    SliceIndex(k, slices, n, b);
    Multiples(slices - 1, slices, n);
    var f := Folded(blocks, n, slices - 1, b);
    OrAbove(f, blocks[(slices - 1) * n + b]);
    OrAboveSecond(f, blocks[(slices - 1) * n + b]);
    if k < slices - 1 {
      FoldedCovers(blocks, n, slices - 1, b, k);
      CoversTrans(Folded(blocks, n, slices, b), f, blocks[k * n + b]);
    }
  }

  lemma {:induction false} FoldedLeast(blocks: seq<bv64>, n: nat, slices: nat, b: nat, w: bv64)
    requires b < n && slices * n <= |blocks|
    requires forall k :: 0 <= k < slices ==> CoversAt(w, blocks, k * n + b)
    ensures Covers(w, Folded(blocks, n, slices, b))
    decreases slices
  {
    hide Or, Covers;
    if slices == 0 {
      CoversZero(w);
    } else {
      Multiples(slices - 1, slices, n);
      assert CoversAt(w, blocks, (slices - 1) * n + b);
      FoldedLeast(blocks, n, slices - 1, b, w);
      OrBelow(w, Folded(blocks, n, slices - 1, b), blocks[(slices - 1) * n + b]);
    }
  }

  lemma CoversZero(w: bv64)
    ensures Covers(w, 0)
  {
  }

  predicate CoversAt(w: bv64, blocks: seq<bv64>, i: int) {
    0 <= i < |blocks| ==> Covers(w, blocks[i])
  }

  /** A block number in the large filter is one in the small filter, plus some slices. */
  lemma BlockIdFolds(hash: nat, n: nat, slices: nat)
    requires n > 0 && slices > 0
    ensures slices * n > 0
    ensures var k := BlockId(hash, slices * n) / n;
      0 <= k < slices && BlockId(hash, slices * n) == k * n + BlockId(hash, n)
  {
    Multiples(slices, 1, n);
    RemainderFolds(hash / HASH_SKIP, n, slices);
  }

  lemma RemainderFolds(x: nat, n: nat, slices: nat)
    requires n > 0 && slices > 0 && slices * n > 0
    ensures var k := (x % (slices * n)) / n;
      0 <= k < slices && x % (slices * n) == k * n + x % n
  {
    var big := slices * n;
    var id := x % big;
    Split(x, big);
    Split(id, n);
    FoldParts(x, n, slices, big, x / big, id, id / n, id % n);
  }

  lemma FoldParts(x: int, n: nat, slices: nat, big: nat, q: int, id: int, k: int, b: nat)
    requires big == slices * n && b < n && x == q * big + id && id == k * n + b && 0 <= id < big
    ensures x % n == b && 0 <= k < slices
  {
    Regroup(q, slices, n, big);
    Distribute(q * slices, k, n);
    Divide(x, n, q * slices + k, b);
    Multiples(k, slices, n);
    Multiples(k, 0, n);
  }

  lemma Regroup(q: int, slices: int, n: int, big: int)
    requires big == slices * n
    ensures q * big == (q * slices) * n
  {
  }

  /** Folding the blocks of a filter gives the filter of the smaller size that would have
      been built from the same hashes. */
  lemma FoldIsSmaller(masks: Masks, blocks: seq<bv64>, n: nat, slices: nat, hashes: set<nat>, folded: seq<bv64>)
    requires n > 0 && slices > 0 && slices * n > 0 && BuiltFrom(masks, blocks, slices * n, hashes)
    requires |folded| >= n && forall b :: 0 <= b < n ==> folded[b] == Folded(blocks, n, slices, b)
    ensures BuiltFrom(masks, folded, n, hashes)
  {
    hide Least, Folded;
    forall b | 0 <= b < n
      ensures Least(masks, n, hashes, b, folded[b])
    {
      FoldEnough(masks, blocks, n, slices, hashes, b);
      FoldLeast(masks, blocks, n, slices, hashes, b);
    }
  }

  lemma FoldEnough(masks: Masks, blocks: seq<bv64>, n: nat, slices: nat, hashes: set<nat>, b: nat)
    requires n > 0 && slices > 0 && slices * n > 0 && BuiltFrom(masks, blocks, slices * n, hashes) && b < n
    ensures Enough(masks, n, hashes, b, Folded(blocks, n, slices, b))
  {
    hide Or, Covers, Folded, BlockId, MaskOf;
    forall h | h in hashes && BlockId(h, n) == b
      ensures Covers(Folded(blocks, n, slices, b), MaskOf(masks, h))
    {
      BlockIdFolds(h, n, slices);
      var id := BlockId(h, slices * n);
      assert Least(masks, slices * n, hashes, id, blocks[id]);
      FoldedCovers(blocks, n, slices, b, id / n);
      CoversTrans(Folded(blocks, n, slices, b), blocks[id], MaskOf(masks, h));
    }
  }

  lemma FoldLeast(masks: Masks, blocks: seq<bv64>, n: nat, slices: nat, hashes: set<nat>, b: nat)
    requires n > 0 && slices > 0 && slices * n > 0 && BuiltFrom(masks, blocks, slices * n, hashes) && b < n
    requires Enough(masks, n, hashes, b, Folded(blocks, n, slices, b))
    ensures Least(masks, n, hashes, b, Folded(blocks, n, slices, b))
  {
    hide Or, Covers, Folded, BlockId, MaskOf, BuiltFrom;
    BuiltLength(masks, blocks, slices * n, hashes);
    forall w | Enough(masks, n, hashes, b, w)
      ensures Covers(w, Folded(blocks, n, slices, b))
    {
      forall k | 0 <= k < slices
        ensures CoversAt(w, blocks, k * n + b)
      {
        SliceCovered(masks, blocks, n, slices, hashes, b, k, w);
      }
      FoldedLeast(blocks, n, slices, b, w);
    }
  }

  lemma BuiltLength(masks: Masks, blocks: seq<bv64>, n: nat, hashes: set<nat>)
    requires BuiltFrom(masks, blocks, n, hashes)
    ensures n <= |blocks|
  {
  }

  lemma SliceCovered(masks: Masks, blocks: seq<bv64>, n: nat, slices: nat, hashes: set<nat>, b: nat, k: nat, w: bv64)
    requires n > 0 && slices > 0 && slices * n > 0 && BuiltFrom(masks, blocks, slices * n, hashes) && b < n
    requires k < slices
    requires Enough(masks, n, hashes, b, w)
    ensures k * n + b < |blocks| && Covers(w, blocks[k * n + b])
  {
    hide Or, Covers, BlockId, MaskOf;
    SliceIndex(k, slices, n, b);
    var id := k * n + b;
    forall h | h in hashes && BlockId(h, slices * n) == id
      ensures Covers(w, MaskOf(masks, h))
    {
      BlockIdFolds(h, n, slices);
      Divide(id, n, k, b);
    }
    assert Least(masks, slices * n, hashes, id, blocks[id]);
    assert Enough(masks, slices * n, hashes, id, w);
  }
}
