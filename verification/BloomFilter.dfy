/** The blocked Bloom filter that carries the join keys of one table to another. */
module BloomFilter {
  import opened Arithmetic
  import opened BloomBits
  import opened BloomFolding
  import PartitionSort
  import opened JoinTree
  import opened PredicateTransfer

  /** The smallest power of two that is not less than `x`. */
  method Log2(x: nat) returns (k: nat)
    requires x > 0
    ensures x <= Pow2(k) && (k > 0 ==> Pow2(k - 1) < x)
  {
    k := 0;
    while Pow2(k) < x
      invariant k > 0 ==> Pow2(k - 1) < x
      decreases x - Pow2(k)
    {
      k := k + 1;
    }
  }

  /** Which rows pass, in order. */
  function Selected(masks: Masks, blocks: seq<bv64>, n: nat, hashes: seq<nat>, k: nat): (s: seq<nat>)
    requires 0 < n <= |blocks| && k <= |hashes|
    ensures |s| <= k
  {
    if k == 0 then []
    else
      Selected(masks, blocks, n, hashes, k - 1) + if Find(masks, blocks, n, hashes[k - 1]) then [k - 1] else []
  }

  lemma {:induction false} SelectedIff(masks: Masks, blocks: seq<bv64>, n: nat, hashes: seq<nat>, k: nat, i: nat)
    requires 0 < n <= |blocks| && k <= |hashes| && i < k
    ensures i in Selected(masks, blocks, n, hashes, k) <==> Find(masks, blocks, n, hashes[i])
    decreases k
  {
    hide Find;
    if i < k - 1 {
      SelectedIff(masks, blocks, n, hashes, k - 1, i);
    } else {
      SelectedBelow(masks, blocks, n, hashes, k - 1);
    }
  }

  lemma {:induction false} SelectedBelow(masks: Masks, blocks: seq<bv64>, n: nat, hashes: seq<nat>, k: nat)
    requires 0 < n <= |blocks| && k <= |hashes|
    ensures forall i :: i in Selected(masks, blocks, n, hashes, k) ==> i < k
    decreases k
  {
    hide Find;
    if k > 0 {
      SelectedBelow(masks, blocks, n, hashes, k - 1);
    }
  }

  predicate Ascending(s: seq<nat>) {
    forall i, j :: 0 <= i < j < |s| ==> s[i] < s[j]
  }

  lemma OneMore(s: seq<nat>, x: nat)
    requires Ascending(s) && forall y :: y in s ==> y < x
    ensures Ascending(s + [x])
  {
    var more := s + [x];
    forall i, j | 0 <= i < j < |more|
      ensures more[i] < more[j]
    {
      assert s[i] in s;
    }
  }

  /** Each row at most once, in the order of the rows. */
  lemma {:induction false} SelectedAscending(masks: Masks, blocks: seq<bv64>, n: nat, hashes: seq<nat>, k: nat)
    requires 0 < n <= |blocks| && k <= |hashes|
    ensures Ascending(Selected(masks, blocks, n, hashes, k))
    decreases k
  {
    hide Find, Ascending;
    if k == 0 {
      assert Ascending([]) by { NoneAscending(); }
    } else {
      SelectedAscending(masks, blocks, n, hashes, k - 1);
      SelectedBelow(masks, blocks, n, hashes, k - 1);
      var before := Selected(masks, blocks, n, hashes, k - 1);
      assert before + [] == before;
      OneMore(before, k - 1);
    }
  }

  lemma NoneAscending()
    ensures Ascending([])
  {
  }

  function ToSet(hashes: seq<nat>): set<nat> { set h | h in hashes }

  lemma EnoughBlocks(masks: Masks, blocks: seq<bv64>, log: nat, folds: nat, hashes: set<nat>)
    requires folds <= log && BuiltFrom(masks, blocks, Pow2(log), hashes)
    ensures Pow2(folds) * Pow2(log - folds) <= |blocks| && Pow2(log - folds) <= |blocks|
  {
    Pow2Add(folds, log - folds);
    Multiples(Pow2(folds), 1, Pow2(log - folds));
  }

  lemma FoldKeeps(masks: Masks, blocks: seq<bv64>, log: nat, folds: nat, hashes: set<nat>, folded: seq<bv64>)
    requires folds <= log && BuiltFrom(masks, blocks, Pow2(log), hashes) && |folded| == |blocks|
    requires Pow2(folds) * Pow2(log - folds) <= |blocks|
    requires forall b :: 0 <= b < Pow2(log - folds) && b < |folded| ==>
      folded[b] == Folded(blocks, Pow2(log - folds), Pow2(folds), b)
    ensures BuiltFrom(masks, folded, Pow2(log - folds), hashes)
  {
    hide BuiltFrom, Folded;
    EnoughBlocks(masks, blocks, log, folds, hashes);
    Pow2Add(folds, log - folds);
    FoldIsSmaller(masks, blocks, Pow2(log - folds), Pow2(folds), hashes, folded);
  }

  /** Ors all slices of `n` blocks into the first one. */
  method FoldSlices(blocks: array<bv64>, n: nat, slices: nat)
    requires n > 0 && slices > 0 && slices * n <= blocks.Length
    modifies blocks
    ensures forall b :: 0 <= b < n ==> b < blocks.Length && blocks[b] == Folded(old(blocks[..]), n, slices, b)
  {
    hide Folded, Or;
    ghost var before := blocks[..];
    Multiples(1, slices, n);
    Multiples(slices, 1, n);
    OneSlice(before, n);
    var slice := 1;
    while slice < slices
      invariant 1 <= slice <= slices && n <= slice * n <= |before|
      invariant forall b :: 0 <= b < n ==> blocks[b] == Folded(before, n, slice, b)
      invariant forall b :: n <= b < blocks.Length ==> blocks[b] == before[b]
    {
      Multiples(slice, slices, n);
      Multiples(slice + 1, slices, n);
      Multiples(slices, slice + 1, n);
      var i := 0;
      while i < n
        invariant 0 <= i <= n
        invariant forall b :: 0 <= b < i ==> blocks[b] == Folded(before, n, slice + 1, b)
        invariant forall b :: i <= b < n ==> blocks[b] == Folded(before, n, slice, b)
        invariant forall b :: n <= b < blocks.Length ==> blocks[b] == before[b]
      {
        MoreFolded(before, n, slice, i);
        blocks[i] := Or(blocks[i], blocks[slice * n + i]);
        i := i + 1;
      }
      slice := slice + 1;
    }
  }

  const MIN_LOG_BLOCKS := 4
  const PREFETCH_ITERATIONS := 16

  class BlockedBloomFilter {
    const masks: Masks
    var logBlocks: nat
    var blocks: array<bv64>
    ghost var inserted: set<nat>       // the hashes inserted so far

    ghost predicate Valid()
      reads this, blocks
    {
      BuiltFrom(masks, blocks[..], Pow2(logBlocks), inserted)
    }

    /** At least eight bits per row, and at least 512 bits. */
    constructor (rows: nat, masks: Masks)
      ensures Valid() && fresh(blocks) && inserted == {} && this.masks == masks
      ensures logBlocks >= 3 && 8 * rows <= 64 * Pow2(logBlocks)
      ensures logBlocks > 3 ==> 64 * Pow2(logBlocks - 1) < 8 * rows
    {
      var bits := if rows * 8 < 512 then 512 else rows * 8;
      var logBits := Log2(bits);
      assert logBits >= 9 by { Small(logBits); }
      Pow2Add(6, logBits - 6);
      assert Pow2(6) == 64;
      if logBits > 9 {
        Pow2Add(6, logBits - 7);
        Pow2Add(9, logBits - 10);
        assert Pow2(9) == 2 * Pow2(8) && Pow2(logBits - 1) >= 512 by { Small(8); }
      }
      this.masks := masks;
      logBlocks := logBits - 6;
      blocks := new bv64[Pow2(logBits - 6)](_ => 0);
      inserted := {};
      new;
      EmptyFilter(masks, blocks[..], Pow2(logBlocks));
    }

    method InsertOne(hash: nat)
      requires Valid()
      modifies blocks, this`inserted
      ensures Valid() && inserted == old(inserted) + {hash}
    {
      var id := BlockId(hash, Pow2(logBlocks));
      InsertStep(masks, blocks[..], Pow2(logBlocks), inserted, hash);
      ghost var before := blocks[..];
      blocks[id] := Or(blocks[id], MaskOf(masks, hash));
      assert blocks[..] == before[id := Or(before[id], MaskOf(masks, hash))];
      inserted := inserted + {hash};
    }

    method Insert(hashes: seq<nat>)
      requires Valid()
      modifies blocks, this`inserted
      ensures Valid() && inserted == old(inserted) + ToSet(hashes)
    {
      for i := 0 to |hashes|
        invariant Valid() && inserted == old(inserted) + ToSet(hashes[..i])
      {
        InsertOne(hashes[i]);
        assert ToSet(hashes[..i + 1]) == ToSet(hashes[..i]) + {hashes[i]} by {
          assert hashes[..i + 1] == hashes[..i] + [hashes[i]];
        }
      }
      assert hashes[..|hashes|] == hashes;
    }

    method FindOne(hash: nat) returns (r: bool)
      requires Valid()
      ensures r == Find(masks, blocks[..], Pow2(logBlocks), hash)
      ensures hash in inserted ==> r
    {
      hide Covers, MaskOf, BlockId;
      r := Covers(blocks[BlockId(hash, Pow2(logBlocks))], MaskOf(masks, hash));
      if hash in inserted {
        NoFalseNegative(masks, blocks[..], Pow2(logBlocks), inserted, hash);
      }
    }

    /** The rows that pass. The index of a row is stored first and counted only if the row
        passes; with prefetching the last rows are left to a second loop. */
    method FindAll(hashes: seq<nat>, prefetch: bool, sel: array<nat>) returns (count: nat)
      requires Valid() && sel.Length >= |hashes| && sel as object != blocks as object
      modifies sel
      ensures count <= |hashes| && sel[..count] == Selected(masks, blocks[..], Pow2(logBlocks), hashes, |hashes|)
    {
      hide Find, BuiltFrom;
      BuiltLength(masks, blocks[..], Pow2(logBlocks), inserted);
      ghost var n, all := Pow2(logBlocks), blocks[..];
      count := 0;
      var done := 0;
      if prefetch && |hashes| > PREFETCH_ITERATIONS {
        var i := 0;
        while i < |hashes| - PREFETCH_ITERATIONS
          invariant 0 <= i <= |hashes| && Valid() && blocks[..] == all
          invariant count <= i && sel[..count] == Selected(masks, all, n, hashes, i)
        {
          var r := FindOne(hashes[i]);
          sel[count] := i;
          count := count + if r then 1 else 0;
          i := i + 1;
        }
        done := i;
      }
      while done < |hashes|
        invariant 0 <= done <= |hashes| && Valid() && blocks[..] == all
        invariant count <= done && sel[..count] == Selected(masks, all, n, hashes, done)
      {
        var r := FindOne(hashes[done]);
        sel[count] := done;
        count := count + if r then 1 else 0;
        done := done + 1;
      }
    }

    /** Makes the filter smaller by a power of two. */
    method SingleFold(folds: nat)
      requires Valid() && folds <= logBlocks
      modifies blocks, this`logBlocks
      ensures Valid() && logBlocks == old(logBlocks) - folds && inserted == old(inserted)
    {
      hide BuiltFrom, Folded, Pow2;
      ghost var before := blocks[..];
      EnoughBlocks(masks, before, logBlocks, folds, inserted);
      FoldSlices(blocks, Pow2(logBlocks - folds), Pow2(folds));
      FoldKeeps(masks, before, logBlocks, folds, inserted, blocks[..]);
      logBlocks := logBlocks - folds;
    }

    /** Stops at the largest size, not larger than the present one, at which a quarter of
        the bits is set, but not below the minimum: at every size in between fewer bits
        would be set. A filter that was made smaller has less than half of its bits set. */
    method Fold()
      requires Valid()
      modifies blocks, this`logBlocks
      ensures Valid() && inserted == old(inserted) && logBlocks <= old(logBlocks)
      ensures logBlocks < old(logBlocks) ==> logBlocks >= MIN_LOG_BLOCKS
      ensures logBlocks <= MIN_LOG_BLOCKS || Dense(blocks[..], logBlocks)
      ensures SparseAbove(masks, inserted, logBlocks, old(logBlocks))
      ensures logBlocks < old(logBlocks) ==> BelowHalf(blocks[..], logBlocks)
    {
      hide Dense, BelowHalf, BuiltFrom, Pow2, Bits, SparseAbove;
      NoneAbove(masks, inserted, logBlocks);
      while true
        invariant Valid() && inserted == old(inserted) && logBlocks <= old(logBlocks)
        invariant logBlocks < old(logBlocks) ==> logBlocks >= MIN_LOG_BLOCKS
        invariant SparseAbove(masks, inserted, logBlocks, old(logBlocks))
        invariant logBlocks < old(logBlocks) ==> BelowHalf(blocks[..], logBlocks)
        decreases logBlocks
      {
        if logBlocks <= MIN_LOG_BLOCKS {
          break;
        }
        var bits := CountBits();
        DenseIs(blocks[..], logBlocks, bits);
        if 4 * bits >= 64 * Pow2(logBlocks) {
          break;
        }
        var folds := FoldsAtOnce(bits, logBlocks);
        StaysSparse(masks, blocks[..], logBlocks, folds, inserted, bits, old(logBlocks));
        ghost var before := blocks[..];
        SingleFold(folds);
        StaysBelowHalf(masks, before, logBlocks, folds, inserted, blocks[..]);
      }
    }

    method CountBits() returns (bits: nat)
      requires Valid()
      ensures Pow2(logBlocks) <= blocks.Length && bits == Bits(blocks[..], Pow2(logBlocks))
    {
      hide PopCount, Least, Pow2;
      bits := 0;
      for i := 0 to Pow2(logBlocks)
        invariant bits == Bits(blocks[..], i)
      {
        bits := bits + PopCount(blocks[i]);
      }
    }
  }

  /** How often to fold at once, given the bits set now. */
  method FoldsAtOnce(bits: nat, log: nat) returns (folds: nat)
    requires log > MIN_LOG_BLOCKS && 4 * bits < 64 * Pow2(log)
    ensures 1 <= folds <= log - MIN_LOG_BLOCKS
    ensures forall l: nat :: log - folds < l <= log ==> 4 * bits < 64 * Pow2(l)
    ensures log - folds == MIN_LOG_BLOCKS || 4 * bits >= 64 * Pow2(log - folds)
  {
    hide Pow2;
    folds := 1;
    while log - folds > MIN_LOG_BLOCKS && 4 * bits < 64 * Pow2(log - folds)
      invariant 1 <= folds <= log - MIN_LOG_BLOCKS
      invariant forall l: nat :: log - folds < l <= log ==> 4 * bits < 64 * Pow2(l)
    {
      folds := folds + 1;
    }
  }

  lemma NoneAbove(masks: Masks, hashes: set<nat>, log: nat)
    ensures SparseAbove(masks, hashes, log, log)
  {
  }

  /** At least a quarter of the bits of a filter is set. */
  predicate Dense(blocks: seq<bv64>, log: nat) {
    Pow2(log) <= |blocks| && 4 * Bits(blocks, Pow2(log)) >= 64 * Pow2(log)
  }

  /** Less than half of the bits of a filter are set. */
  predicate BelowHalf(blocks: seq<bv64>, log: nat) {
    Pow2(log) <= |blocks| && 2 * Bits(blocks, Pow2(log)) < 64 * Pow2(log)
  }

  lemma DenseIs(blocks: seq<bv64>, log: nat, bits: nat)
    requires Pow2(log) <= |blocks| && bits == Bits(blocks, Pow2(log))
    ensures Dense(blocks, log) <==> 4 * bits >= 64 * Pow2(log)
  {
  }

  /** The filters of the sizes above `lo` and up to `hi` would be sparse. */
  ghost predicate SparseAbove(masks: Masks, hashes: set<nat>, lo: nat, hi: nat) {
    forall l: nat, other: seq<bv64> :: lo < l <= hi && BuiltFrom(masks, other, Pow2(l), hashes) ==> !Dense(other, l)
  }

  /** A filter of the hashes at any of the sizes that are skipped has no more bits set
      than the present one. */
  lemma StaysSparse(masks: Masks, blocks: seq<bv64>, log: nat, folds: nat, hashes: set<nat>, bits: nat, hi: nat)
    requires folds <= log && BuiltFrom(masks, blocks, Pow2(log), hashes) && Pow2(log) <= |blocks|
    requires bits == Bits(blocks, Pow2(log)) && SparseAbove(masks, hashes, log, hi)
    requires forall l: nat :: log - folds < l <= log ==> 4 * bits < 64 * Pow2(l)
    ensures SparseAbove(masks, hashes, log - folds, hi)
  {
    hide BuiltFrom, Dense, Bits, PopCount, Pow2;
    forall l: nat, other: seq<bv64> | log - folds < l <= hi && BuiltFrom(masks, other, Pow2(l), hashes)
      ensures !Dense(other, l)
    {
      if l <= log {
        SkippedSize(masks, blocks, log, log - l, hashes, other);
        DenseIs(other, l, Bits(other, Pow2(l)));
      }
    }
  }

  /** Twice the size would still be sparse. */
  lemma StaysBelowHalf(masks: Masks, before: seq<bv64>, log: nat, folds: nat, hashes: set<nat>, after: seq<bv64>)
    requires BuiltFrom(masks, before, Pow2(log + folds), hashes) && BuiltFrom(masks, after, Pow2(log), hashes)
    requires Pow2(log + folds) <= |before| && 4 * Bits(before, Pow2(log + folds)) < 64 * Pow2(log + 1)
    ensures BelowHalf(after, log)
  {
    hide BuiltFrom, Bits;
    SkippedSize(masks, before, log + folds, folds, hashes, after);
  }

  lemma SkippedSize(masks: Masks, blocks: seq<bv64>, log: nat, g: nat, hashes: set<nat>, other: seq<bv64>)
    requires g <= log && BuiltFrom(masks, blocks, Pow2(log), hashes) && BuiltFrom(masks, other, Pow2(log - g), hashes)
    ensures Pow2(log - g) <= |other| && Pow2(log) <= |blocks| && Bits(other, Pow2(log - g)) <= Bits(blocks, Pow2(log))
  {
    hide BuiltFrom, Bits, PopCount;
    Pow2Add(g, log - g);
    SmallerHasFewer(masks, blocks, Pow2(log - g), Pow2(g), hashes, other);
  }

  lemma OneSlice(blocks: seq<bv64>, n: nat)
    requires n <= |blocks|
    ensures 1 * n <= |blocks| && forall b :: 0 <= b < n ==> Folded(blocks, n, 1, b) == blocks[b]
  {
    forall b | 0 <= b < n
      ensures Folded(blocks, n, 1, b) == blocks[b]
    {
      assert 0 * n + b == b;
      OrZero(blocks[b]);
    }
  }

  lemma OrZero(v: bv64)
    ensures Or(0, v) == v
  {
  }

  lemma MoreFolded(blocks: seq<bv64>, n: nat, slice: nat, b: nat)
    requires b < n && (slice + 1) * n <= |blocks|
    ensures slice * n <= |blocks| && slice * n + b < |blocks|
    ensures Folded(blocks, n, slice + 1, b) == Or(Folded(blocks, n, slice, b), blocks[slice * n + b])
  {
    hide Or;
    Multiples(slice, slice + 1, n);
  }

  lemma Small(k: nat)
    ensures k < 9 ==> Pow2(k) < 512
    ensures Pow2(8) == 256
  {
    assert Pow2(0) == 1 && Pow2(1) == 2 && Pow2(2) == 4 && Pow2(3) == 8 && Pow2(4) == 16;
    assert Pow2(5) == 32 && Pow2(6) == 64 && Pow2(7) == 128 && Pow2(8) == 256;
  }

  // ---- a batch of one thread ----

  const PARTITION_OFFSET := 8388608

  function PartitionIds(hashes: seq<nat>, num: nat): seq<nat>
    requires num > 0
  {
    seq(|hashes|, i requires 0 <= i < |hashes| => (hashes[i] / PARTITION_OFFSET) % num)
  }

  /** The hashes of the partitions that are not to be done any more. */
  function DoneOf(hashes: seq<nat>, ids: seq<nat>, todo: seq<nat>): set<nat>
    requires |ids| == |hashes|
  {
    set r | 0 <= r < |hashes| && ids[r] !in todo :: hashes[r]
  }

  /** Between the starts of two partitions are exactly the hashes of the first one. */
  lemma PartitionHolds(hashes: seq<nat>, ids: seq<nat>, num: nat, out: seq<nat>, p: nat)
    requires |ids| == |hashes| == |out| && p < num && forall i :: 0 <= i < |ids| ==> ids[i] < num
    requires forall r :: 0 <= r < |ids| ==>
      PartitionSort.Slot(ids, r) < |out| && out[PartitionSort.Slot(ids, r)] == hashes[r]
    ensures var lo, hi := PartitionSort.Before(ids, |ids|, p), PartitionSort.Before(ids, |ids|, p + 1);
      lo <= hi <= |out| && ToSet(out[lo..hi]) == set r | 0 <= r < |ids| && ids[r] == p :: hashes[r]
  {
    hide PartitionSort.Count;
    var lo, hi := PartitionSort.Before(ids, |ids|, p), PartitionSort.Before(ids, |ids|, p + 1);
    PartitionSort.AllBefore(ids, |ids|, num);
    if p + 1 < num {
      PartitionSort.BeforeMono(ids, |ids|, p + 1, num);
    }
    forall h | h in ToSet(out[lo..hi])
      ensures exists r :: 0 <= r < |ids| && ids[r] == p && hashes[r] == h
    {
      var k :| lo <= k < hi && out[k] == h;
      var r := PartitionSort.SlotTaken(ids, |ids|, p, k - lo);
      assert PartitionSort.Slot(ids, r) == k;
    }
    forall r | 0 <= r < |ids| && ids[r] == p
      ensures hashes[r] in ToSet(out[lo..hi])
    {
      PartitionSort.SlotInRange(ids, r, num);
      var k := PartitionSort.Slot(ids, r);
      assert out[lo..hi][k - lo] == hashes[r];
    }
  }

  predicate Distinct(s: seq<nat>) {
    forall i, j :: 0 <= i < j < |s| ==> s[i] != s[j]
  }

  /** Takes the first element out; the last one moves to its place. */
  function SwapOut(s: seq<nat>): (t: seq<nat>)
    requires |s| > 0
  {
    if |s| == 1 then [] else [s[|s| - 1]] + s[1..|s| - 1]
  }

  lemma SwapOutRest(s: seq<nat>)
    requires |s| > 0 && Distinct(s)
    ensures Distinct(SwapOut(s)) && forall x :: x in SwapOut(s) <==> x in s && x != s[0]
  {
    var t := SwapOut(s);
    forall x | x in s && x != s[0]
      ensures x in t
    {
      var i :| 0 <= i < |s| && s[i] == x;
      if i < |s| - 1 {
        assert t[i] == x;
      } else {
        assert t[0] == x;
      }
    }
    assert forall i :: 0 < i < |t| ==> t[i] == s[i];
  }

  lemma MoreDone(hashes: seq<nat>, ids: seq<nat>, todo: seq<nat>, less: seq<nat>, p: nat)
    requires |ids| == |hashes| && forall x :: x in less <==> x in todo && x != p
    ensures DoneOf(hashes, ids, less) == DoneOf(hashes, ids, todo) + set r | 0 <= r < |ids| && ids[r] == p :: hashes[r]
  {
  }

  /** The partitions that are not empty. */
  method Unprocessed(ranges: seq<nat>, num: nat) returns (todo: seq<nat>)
    requires |ranges| == num + 1
    ensures Distinct(todo) && forall p :: p in todo ==> p < num
    ensures forall p :: 0 <= p < num ==> (p in todo <==> ranges[p + 1] != ranges[p])
  {
    todo := [];
    for i := 0 to num
      invariant Distinct(todo) && forall p :: p in todo ==> p < i
      invariant forall p :: 0 <= p < i ==> (p in todo <==> ranges[p + 1] != ranges[p])
    {
      if ranges[i + 1] != ranges[i] {
        assert forall k :: 0 <= k < |todo| ==> todo[k] in todo;
        todo := todo + [i];
      }
    }
  }

  /** One thread's batch: sorted into partitions, then inserted partition by partition. The
      filter is the one that inserts in the order of the rows would give. */
  method PushNextBatch(filter: BlockedBloomFilter, hashes: seq<nat>, num: nat)
    requires filter.Valid() && num > 0
    modifies filter.blocks, filter`inserted
    ensures filter.Valid() && filter.inserted == old(filter.inserted) + ToSet(hashes)
  {
    hide BuiltFrom, PartitionSort.Slot, PartitionSort.Before, PartitionSort.Count;
    var ids := PartitionIds(hashes, num);
    var ranges := new nat[num + 1];
    var out := new nat[|hashes|];
    PartitionSort.Sort(hashes, ids, num, ranges, out);
    var starts, sorted := ranges[..], out[..];
    var todo: seq<nat> := Unprocessed(starts, num);
    NoneDone(hashes, ids, num, starts, sorted, todo);
    while |todo| > 0
      invariant filter.Valid() && Distinct(todo) && (forall p :: p in todo ==> p < num)
      invariant filter.inserted == old(filter.inserted) + DoneOf(hashes, ids, todo)
      decreases |todo|
    {
      var p := todo[0];
      assert p in todo;
      PartitionHolds(hashes, ids, num, sorted, p);
      filter.Insert(sorted[starts[p]..starts[p + 1]]);
      SwapOutRest(todo);
      MoreDone(hashes, ids, todo, SwapOut(todo), p);
      todo := SwapOut(todo);
    }
    assert DoneOf(hashes, ids, []) == ToSet(hashes);
  }

  lemma NoneDone(hashes: seq<nat>, ids: seq<nat>, num: nat, ranges: seq<nat>, out: seq<nat>, todo: seq<nat>)
    requires |ids| == |hashes| == |out| && |ranges| == num + 1 && forall i :: 0 <= i < |ids| ==> ids[i] < num
    requires forall p :: 0 <= p <= num ==> ranges[p] == PartitionSort.Before(ids, |ids|, p)
    requires forall p :: 0 <= p < num && p !in todo ==> ranges[p + 1] == ranges[p]
    ensures DoneOf(hashes, ids, todo) == {}
  {
    hide PartitionSort.Before, PartitionSort.Count;
    forall r | 0 <= r < |ids|
      ensures ids[r] in todo
    {
      PartitionSort.SlotInRange(ids, r, num);
    }
  }

  // ---- Bloom filters in predicate transfer ----

  function Image(hash: Key -> nat, keys: set<Key>): set<nat> {
    set k | k in keys :: hash(k)
  }

  /** A test of hashed keys by some Bloom filter built from these keys. */
  ghost predicate BloomTest(test: Filter, hash: Key -> nat, masks: Masks, keys: set<Key>) {
    exists blocks: seq<bv64>, n: nat ::
      0 < n <= |blocks| && BuiltFrom(masks, blocks, n, Image(hash, keys)) && forall k :: test(k) <==>
        Find(masks, blocks, n, hash(k))
  }

  /** Transfers that use Bloom filters never lose a row of the join. */
  lemma BloomIsSafe(build: Builder, hash: Key -> nat, masks: Masks)
    requires forall back: bool, i: nat, keys: set<Key> :: BloomTest(build(back, i, keys), hash, masks, keys)
    ensures NoFalseNegatives(build)
  {
    hide BuiltFrom, Find;
    forall back: bool, i: nat, keys: set<Key>, k: Key | k in keys
      ensures build(back, i, keys)(k)
    {
      assert BloomTest(build(back, i, keys), hash, masks, keys);
      var blocks: seq<bv64>, n: nat :|
        0 < n <= |blocks| && BuiltFrom(masks, blocks, n, Image(hash, keys)) && forall k ::
          build(back, i, keys)(k) <==> Find(masks, blocks, n, hash(k));
      NoFalseNegative(masks, blocks, n, Image(hash, keys), hash(k));
    }
  }

  function AllKeys(batches: seq<seq<Key>>, n: nat): set<Key>
    requires n <= |batches|
  {
    if n == 0 then {} else AllKeys(batches, n - 1) + KeySet(batches[n - 1])
  }

  function KeySet(keys: seq<Key>): set<Key> { set k | k in keys }

  function Hashes(hash: Key -> nat, keys: seq<Key>): seq<nat> {
    seq(|keys|, i requires 0 <= i < |keys| => hash(keys[i]))
  }

  lemma MoreKeys(hash: Key -> nat, batches: seq<seq<Key>>, n: nat)
    requires n < |batches|
    ensures Image(hash, AllKeys(batches, n + 1)) == Image(hash, AllKeys(batches, n)) + ToSet(Hashes(hash, batches[n]))
  {
    var keys, hashes := batches[n], Hashes(hash, batches[n]);
    forall h | h in Image(hash, AllKeys(batches, n + 1))
      ensures h in Image(hash, AllKeys(batches, n)) || h in ToSet(hashes)
    {
      var k :| k in AllKeys(batches, n + 1) && hash(k) == h;
      if k in keys {
        var i :| 0 <= i < |keys| && keys[i] == k;
        assert hashes[i] == h;
      }
    }
    forall h | h in ToSet(hashes)
      ensures h in Image(hash, AllKeys(batches, n + 1))
    {
      var i :| 0 <= i < |hashes| && hashes[i] == h;
      assert keys[i] in AllKeys(batches, n + 1);
    }
  }

  /** Builds the filter of a table batch by batch, and makes it smaller if asked to. What it
      tests is the filter of exactly the keys of the table, so that no key is missed. */
  method BuildFilter(batches: seq<seq<Key>>, rows: nat, hash: Key -> nat, masks: Masks, num: nat, fold: bool)
    returns (test: Filter)
    requires num > 0
    ensures BloomTest(test, hash, masks, AllKeys(batches, |batches|))
    ensures forall k :: k in AllKeys(batches, |batches|) ==> test(k)
  {
    hide BuiltFrom, Find, ToSet, Pow2;
    var filter := new BlockedBloomFilter(rows, masks);
    for i := 0 to |batches|
      invariant fresh(filter) && fresh(filter.blocks) && filter.Valid() && filter.masks == masks
      invariant filter.inserted == Image(hash, AllKeys(batches, i))
    {
      MoreKeys(hash, batches, i);
      PushNextBatch(filter, Hashes(hash, batches[i]), num);
    }
    if fold {
      filter.Fold();
    }
    var blocks, n := filter.blocks[..], Pow2(filter.logBlocks);
    BuiltLength(masks, blocks, n, filter.inserted);
    test := k => Find(masks, blocks, n, hash(k));
    ghost var keys := AllKeys(batches, |batches|);
    assert BloomTest(test, hash, masks, keys);
    forall k | k in keys
      ensures test(k)
    {
      NoFalseNegative(masks, blocks, n, Image(hash, keys), hash(k));
    }
  }
}
