/** How many bits of a filter are set, and that folding sets no more of them. */
module BloomFolding {
  import opened Arithmetic
  import opened BloomBits

  function Twice(b: bv64): bv64 { b + b }

  /** How many of `k` bits of `v` are set, from the given one up. */
  function CountFrom(v: bv64, bit: bv64, k: nat): nat
    decreases k
  {
    if k == 0 then 0 else (if Overlaps(v, bit) then 1 else 0) + CountFrom(v, Twice(bit), k - 1)
  }

  function PopCount(v: bv64): nat { CountFrom(v, 1, 64) }

  lemma {:induction false} OrCount(a: bv64, b: bv64, bit: bv64, k: nat)
    ensures CountFrom(Or(a, b), bit, k) <= CountFrom(a, bit, k) + CountFrom(b, bit, k)
    decreases k
  {
    hide Or;
    if k > 0 {
      OrCount(a, b, Twice(bit), k - 1);
      OrBit(a, b, bit);
    }
  }

  lemma OrBit(a: bv64, b: bv64, bit: bv64)
    ensures Overlaps(Or(a, b), bit) ==> Overlaps(a, bit) || Overlaps(b, bit)
  {
  }

  lemma {:induction false} ZeroCount(bit: bv64, k: nat)
    ensures CountFrom(0, bit, k) == 0
    decreases k
  {
    if k > 0 {
      ZeroCount(Twice(bit), k - 1);
    }
  }

  // ---- it is the number of bits ----

  /** Bit `p` alone. */
  function Bit(p: nat): bv64 {
    if p == 0 then 1 else Twice(Bit(p - 1))
  }

  lemma {:induction false} BitsApart(p: nat, q: nat)
    requires p < q < 64
    ensures !Overlaps(Bit(p), Bit(q))
    decreases p
  {
    hide Overlaps, Twice;
    if p == 0 {
      EvenBit(Bit(q - 1));
    } else {
      BitsApart(p - 1, q - 1);
      DoubleApart(Bit(p - 1), Bit(q - 1));
    }
  }

  lemma EvenBit(a: bv64)
    ensures !Overlaps(1, Twice(a))
  {
  }

  lemma DoubleApart(a: bv64, b: bv64)
    requires !Overlaps(a, b)
    ensures !Overlaps(Twice(a), Twice(b))
  {
  }

  lemma {:induction false} StaysZero(p: nat, q: nat)
    requires p <= q && Bit(p) == 0
    ensures Bit(q) == 0
    decreases q
  {
    if p < q {
      StaysZero(p, q - 1);
    }
  }

  lemma NextBit(q: nat)
    ensures Bit(q + 1) == Twice(Bit(q))
  {
  }

  lemma SevenOn(p: nat, b: bv64)
    requires Bit(p) == b
    ensures Bit(p + 7) == Twice(Twice(Twice(Twice(Twice(Twice(Twice(b)))))))
  {
    hide Bit, Twice;
    NextBit(p);
    NextBit(p + 1);
    NextBit(p + 2);
    NextBit(p + 3);
    NextBit(p + 4);
    NextBit(p + 5);
    NextBit(p + 6);
  }

  lemma LastBit()
    ensures Bit(63) == 0x8000_0000_0000_0000
  {
    SevenOn(0, 1);
    SevenOn(7, 0x80);
    SevenOn(14, 0x4000);
    SevenOn(21, 0x20_0000);
    SevenOn(28, 0x1000_0000);
    SevenOn(35, 0x8_0000_0000);
    SevenOn(42, 0x400_0000_0000);
    SevenOn(49, 0x2_0000_0000_0000);
    SevenOn(56, 0x100_0000_0000_0000);
  }

  lemma BitIsThere(p: nat)
    requires p < 64
    ensures Bit(p) != 0
  {
    hide Bit;
    LastBit();
    if Bit(p) == 0 {
      StaysZero(p, 63);
    }
  }

  lemma OrKeeps(a: bv64, b: bv64, bit: bv64)
    requires Overlaps(a, bit)
    ensures Overlaps(Or(a, b), bit)
  {
  }

  lemma OtherBit(v: bv64, a: bv64, b: bv64)
    requires !Overlaps(a, b)
    ensures Overlaps(Or(v, a), b) <==> Overlaps(v, b)
  {
    hide Overlaps, Or;
    OrBit(v, a, b);
    if Overlaps(v, b) {
      OrKeeps(v, a, b);
    }
  }

  lemma OwnBit(v: bv64, a: bv64)
    requires a != 0
    ensures Overlaps(Or(v, a), a)
  {
    assert (v | a) & a == a;
  }

  lemma Swapped(a: bv64, b: bv64)
    ensures Overlaps(a, b) <==> Overlaps(b, a)
  {
    assert a & b == b & a;
  }

  lemma OneBitMore(v: bv64, p: nat, q: nat)
    requires p < 64 && q < 64 && !Overlaps(v, Bit(p))
    ensures Overlaps(Or(v, Bit(p)), Bit(q)) <==> p == q || Overlaps(v, Bit(q))
  {
    hide Bit, Or, Overlaps;
    if p == q {
      BitIsThere(p);
      OwnBit(v, Bit(p));
    } else {
      if p < q {
        BitsApart(p, q);
      } else {
        BitsApart(q, p);
        Swapped(Bit(q), Bit(p));
      }
      OtherBit(v, Bit(p), Bit(q));
    }
  }

  lemma {:induction false} CountSetBit(v: bv64, p: nat, q: nat, k: nat)
    requires p < 64 && q + k <= 64 && !Overlaps(v, Bit(p))
    ensures CountFrom(Or(v, Bit(p)), Bit(q), k) == CountFrom(v, Bit(q), k) + if q <= p < q + k then 1 else 0
    decreases k
  {
    hide Bit, Or, Overlaps, Twice;
    if k > 0 {
      CountSetBit(v, p, q + 1, k - 1);
      NextBit(q);
      OneBitMore(v, p, q);
    }
  }

  /** No bit of zero is set, and each bit that is added counts once. */
  lemma PopCountIs(v: bv64, p: nat)
    requires p < 64 && !Overlaps(v, Bit(p))
    ensures PopCount(0) == 0 && PopCount(Or(v, Bit(p))) == PopCount(v) + 1
  {
    hide CountFrom, Or, Overlaps;
    ZeroCount(1, 64);
    CountSetBit(v, p, 0, 64);
    assert Bit(0) == 1;
  }

  /** The bits set in the first `k` blocks. */
  function Bits(blocks: seq<bv64>, k: nat): nat
    requires k <= |blocks|
  {
    if k == 0 then 0 else Bits(blocks, k - 1) + PopCount(blocks[k - 1])
  }

  lemma {:induction false} SameBits(blocks: seq<bv64>, others: seq<bv64>, k: nat)
    requires k <= |blocks| && k <= |others| && forall b :: 0 <= b < k ==> blocks[b] == others[b]
    ensures Bits(blocks, k) == Bits(others, k)
  {
    if k > 0 {
      SameBits(blocks, others, k - 1);
    }
  }

  /** The first `m` blocks of the folded filter. */
  function FoldedBits(blocks: seq<bv64>, n: nat, slices: nat, m: nat): nat
    requires m <= n && slices * n <= |blocks|
  {
    if m == 0 then 0 else FoldedBits(blocks, n, slices, m - 1) + PopCount(Folded(blocks, n, slices, m - 1))
  }

  /** One more slice adds at most the bits that are set in it. */
  lemma {:induction false} SliceAdds(blocks: seq<bv64>, n: nat, slices: nat, m: nat)
    requires m <= n && slices * n + n <= |blocks|
    ensures slices * n + n == (slices + 1) * n
    ensures FoldedBits(blocks, n, slices + 1, m) + Bits(blocks, slices * n)
         <= FoldedBits(blocks, n, slices, m) + Bits(blocks, slices * n + m)
    decreases m
  {
    hide CountFrom, Or;
    if m > 0 {
      SliceAdds(blocks, n, slices, m - 1);
      OrCount(Folded(blocks, n, slices, m - 1), blocks[slices * n + m - 1], 1, 64);
    }
  }

  /** Folding sets no bit twice. */
  lemma {:induction false} FoldingShrinks(blocks: seq<bv64>, n: nat, slices: nat)
    requires slices * n <= |blocks|
    ensures FoldedBits(blocks, n, slices, n) <= Bits(blocks, slices * n)
    decreases slices
  {
    hide PopCount;
    if slices == 0 {
      NothingFolded(blocks, n, n);
    } else {
      Multiples(slices - 1, slices, n);
      assert slices * n == (slices - 1) * n + n;
      FoldingShrinks(blocks, n, slices - 1);
      SliceAdds(blocks, n, slices - 1, n);
    }
  }

  lemma {:induction false} NothingFolded(blocks: seq<bv64>, n: nat, m: nat)
    requires m <= n
    ensures FoldedBits(blocks, n, 0, m) == 0
    decreases m
  {
    if m > 0 {
      NothingFolded(blocks, n, m - 1);
      ZeroCount(1, 64);
    }
  }

  /** A smaller filter of the same hashes has no more bits set. */
  lemma SmallerHasFewer(masks: Masks, blocks: seq<bv64>, n: nat, slices: nat, hashes: set<nat>, small: seq<bv64>)
    requires n > 0 && slices > 0 && slices * n > 0
    requires BuiltFrom(masks, blocks, slices * n, hashes) && BuiltFrom(masks, small, n, hashes)
    ensures n <= |small| && slices * n <= |blocks| && Bits(small, n) <= Bits(blocks, slices * n)
  {
    hide PopCount, Folded, Least, Bits, FoldedBits;
    var folded := seq(n, b requires 0 <= b < n => Folded(blocks, n, slices, b));
    FoldIsSmaller(masks, blocks, n, slices, hashes, folded);
    SameFilter(masks, small, folded, n, hashes);
    forall b | 0 <= b < n
      ensures small[b] == folded[b]
    {
      assert small[..n][b] == folded[..n][b];
    }
    SameBits(small, folded, n);
    FoldedIs(blocks, n, slices, folded, n);
    FoldingShrinks(blocks, n, slices);
  }

  lemma {:induction false} FoldedIs(blocks: seq<bv64>, n: nat, slices: nat, folded: seq<bv64>, m: nat)
    requires m <= n <= |folded| && slices * n <= |blocks|
    requires forall b :: 0 <= b < n ==> folded[b] == Folded(blocks, n, slices, b)
    ensures Bits(folded, m) == FoldedBits(blocks, n, slices, m)
    decreases m
  {
    if m > 0 {
      FoldedIs(blocks, n, slices, folded, m - 1);
    }
  }
}
