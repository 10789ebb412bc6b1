/** The bucket sort that brings the hashes of one partition together. */
module PartitionSort {

  /** How many of the first `n` rows are in partition `p`. */
  function Count(ids: seq<nat>, n: nat, p: nat): (c: nat)
    requires n <= |ids|
    ensures c <= n
  {
    if n == 0 then 0 else Count(ids, n - 1, p) + if ids[n - 1] == p then 1 else 0
  }

  /** How many of the first `n` rows are in a partition before `p`. */
  function Before(ids: seq<nat>, n: nat, p: nat): nat
    requires n <= |ids|
  {
    if p == 0 then 0 else Before(ids, n, p - 1) + Count(ids, n, p - 1)
  }

  /** Where row `r` ends up: behind the smaller partitions, and behind the rows of its own
      partition that come before it. */
  function Slot(ids: seq<nat>, r: nat): nat
    requires r < |ids|
  {
    Before(ids, |ids|, ids[r]) + Count(ids, r, ids[r])
  }

  lemma {:induction false} CountMono(ids: seq<nat>, m: nat, n: nat, p: nat)
    requires m <= n <= |ids|
    ensures Count(ids, m, p) <= Count(ids, n, p)
    decreases n
  {
    if m < n {
      CountMono(ids, m, n - 1, p);
    }
  }

  lemma {:induction false} BeforeMono(ids: seq<nat>, n: nat, p: nat, q: nat)
    requires n <= |ids| && p < q
    ensures Before(ids, n, p) + Count(ids, n, p) <= Before(ids, n, q)
    decreases q
  {
    if p < q - 1 {
      BeforeMono(ids, n, p, q - 1);
    }
  }

  /** One more row adds one to all partitions behind its own. */
  lemma {:induction false} BeforeStep(ids: seq<nat>, n: nat, p: nat)
    requires n < |ids|
    ensures Before(ids, n + 1, p) == Before(ids, n, p) + if ids[n] < p then 1 else 0
    decreases p
  {
    if p > 0 {
      BeforeStep(ids, n, p - 1);
    }
  }

  lemma {:induction false} AllBefore(ids: seq<nat>, n: nat, num: nat)
    requires n <= |ids| && forall i :: 0 <= i < n ==> ids[i] < num
    ensures Before(ids, n, num) == n
    decreases n
  {
    if n == 0 {
      NoneBefore(ids, num);
    } else {
      AllBefore(ids, n - 1, num);
      BeforeStep(ids, n - 1, num);
    }
  }

  lemma {:induction false} NoneBefore(ids: seq<nat>, p: nat)
    ensures Before(ids, 0, p) == 0
    decreases p
  {
    if p > 0 {
      NoneBefore(ids, p - 1);
    }
  }

  /** Different rows go to different slots. */
  lemma SlotsDiffer(ids: seq<nat>, r: nat, q: nat)
    requires r < q < |ids|
    ensures Slot(ids, r) != Slot(ids, q)
  {
    var n := |ids|;
    CountMono(ids, r + 1, q, ids[r]);
    CountMono(ids, r + 1, n, ids[r]);
    CountMono(ids, q + 1, n, ids[q]);
    if ids[r] < ids[q] {
      BeforeMono(ids, n, ids[r], ids[q]);
    } else if ids[q] < ids[r] {
      BeforeMono(ids, n, ids[q], ids[r]);
    }
  }

  lemma SlotInRange(ids: seq<nat>, r: nat, num: nat)
    requires r < |ids| && forall i :: 0 <= i < |ids| ==> ids[i] < num
    ensures Before(ids, |ids|, ids[r]) <= Slot(ids, r) < Before(ids, |ids|, ids[r] + 1) <= |ids|
  {
    CountMono(ids, r + 1, |ids|, ids[r]);
    AllBefore(ids, |ids|, num);
    if ids[r] + 1 < num {
      BeforeMono(ids, |ids|, ids[r] + 1, num);
    }
  }

  /** Every slot of a partition is taken by one of its rows. */
  lemma {:induction false} SlotTaken(ids: seq<nat>, n: nat, p: nat, c: nat) returns (r: nat)
    requires n <= |ids| && c < Count(ids, n, p)
    ensures r < n && ids[r] == p && Count(ids, r, p) == c
    decreases n
  {
    if ids[n - 1] == p && c == Count(ids, n - 1, p) {
      r := n - 1;
    } else {
      r := SlotTaken(ids, n - 1, p, c);
    }
  }

  /** Counts, then starts of the partitions, then each row to its slot. */
  method Sort(hashes: seq<nat>, ids: seq<nat>, num: nat, ranges: array<nat>, out: array<nat>)
    requires |ids| == |hashes| == out.Length && ranges.Length == num + 1 && ranges != out
    requires forall i :: 0 <= i < |ids| ==> ids[i] < num
    modifies ranges, out
    ensures forall p :: 0 <= p <= num ==> ranges[p] == Before(ids, |ids|, p)
    ensures forall r :: 0 <= r < |ids| ==> Slot(ids, r) < |hashes| && out[Slot(ids, r)] == hashes[r]
  {
    CountRows(ids, num, ranges);
    StartOfPartitions(ids, num, ranges);
    Scatter(hashes, ids, num, ranges, out);
  }

  method CountRows(ids: seq<nat>, num: nat, ranges: array<nat>)
    requires ranges.Length == num + 1 && forall i :: 0 <= i < |ids| ==> ids[i] < num
    modifies ranges
    ensures ranges[0] == 0 && forall p :: 0 <= p < num ==> ranges[p + 1] == Count(ids, |ids|, p)
  {
    for p := 0 to num + 1
      invariant forall q :: 0 <= q < p ==> ranges[q] == 0
    {
      ranges[p] := 0;
    }
    for i := 0 to |ids|
      invariant ranges[0] == 0 && forall p :: 0 <= p < num ==> ranges[p + 1] == Count(ids, i, p)
    {
      ranges[ids[i] + 1] := ranges[ids[i] + 1] + 1;
    }
  }

  method StartOfPartitions(ids: seq<nat>, num: nat, ranges: array<nat>)
    requires ranges.Length == num + 1
    requires ranges[0] == 0 && forall p :: 0 <= p < num ==> ranges[p + 1] == Count(ids, |ids|, p)
    modifies ranges
    ensures ranges[0] == 0 && forall p :: 0 <= p < num ==> ranges[p + 1] == Before(ids, |ids|, p)
  {
    var sum := 0;
    for i := 0 to num
      invariant sum == Before(ids, |ids|, i) && ranges[0] == 0
      invariant forall p :: 0 <= p < i ==> ranges[p + 1] == Before(ids, |ids|, p)
      invariant forall p :: i <= p < num ==> ranges[p + 1] == Count(ids, |ids|, p)
    {
      var next := sum + ranges[i + 1];
      ranges[i + 1] := sum;
      sum := next;
    }
  }

  method Scatter(hashes: seq<nat>, ids: seq<nat>, num: nat, ranges: array<nat>, out: array<nat>)
    requires |ids| == |hashes| == out.Length && ranges.Length == num + 1 && ranges != out
    requires forall i :: 0 <= i < |ids| ==> ids[i] < num
    requires ranges[0] == 0 && forall p :: 0 <= p < num ==> ranges[p + 1] == Before(ids, |ids|, p)
    modifies ranges, out
    ensures forall p :: 0 <= p <= num ==> ranges[p] == Before(ids, |ids|, p)
    ensures forall r :: 0 <= r < |ids| ==> Slot(ids, r) < |hashes| && out[Slot(ids, r)] == hashes[r]
  {
    for i := 0 to |ids|
      invariant ranges[0] == 0 && forall p :: 0 <= p < num ==> ranges[p + 1] == Before(ids, |ids|, p) + Count(ids, i, p)
      invariant forall r :: 0 <= r < i ==> Slot(ids, r) < |hashes| && out[Slot(ids, r)] == hashes[r]
    {
      var p := ids[i];
      var pos := ranges[p + 1];
      SlotInRange(ids, i, num);
      ranges[p + 1] := pos + 1;
      forall r | 0 <= r < i
        ensures Slot(ids, r) != pos
      {
        SlotsDiffer(ids, r, i);
      }
      out[pos] := hashes[i];
    }
    forall p | 0 <= p <= num
      ensures ranges[p] == Before(ids, |ids|, p)
    {
      if p > 0 {
        assert ranges[(p - 1) + 1] == Before(ids, |ids|, p - 1) + Count(ids, |ids|, p - 1);
      }
    }
  }
}
