/** Matching the segments of an object key against a glob pattern in which `**` stands for
    several segments. */
module KeyMatch {

  type Glob = (string, string) -> bool

  predicate IsStars(segment: string) { segment == "**" }

  // ---- what a match is ----

  /** How many segments of the key a segment of the pattern may take. */
  predicate BlockOk(glob: Glob, key: seq<string>, pattern: seq<string>, i: nat, from: nat, size: nat)
    requires i < |pattern| && from + size <= |key|
  {
    if pattern[i] == "**" then i + 1 < |pattern| || size > 0
    else size == 1 && glob(key[from], pattern[i])
  }

  function End(sizes: seq<nat>, i: nat): nat
    requires i <= |sizes|
  {
    if i == 0 then 0 else End(sizes, i - 1) + sizes[i - 1]
  }

  lemma {:induction false} EndMono(sizes: seq<nat>, i: nat, j: nat)
    requires i <= j <= |sizes|
    ensures End(sizes, i) <= End(sizes, j)
    decreases j
  {
    if i < j {
      EndMono(sizes, i, j - 1);
    }
  }

  /** The key is cut into consecutive blocks, one for each segment of the pattern. */
  predicate IsCut(glob: Glob, key: seq<string>, pattern: seq<string>, sizes: seq<nat>) {
    && |sizes| == |pattern| && End(sizes, |sizes|) == |key|
    && forall i :: 0 <= i < |pattern| ==>
         End(sizes, i) + sizes[i] <= |key| && BlockOk(glob, key, pattern, i, End(sizes, i), sizes[i])
  }

  ghost predicate Matches(glob: Glob, key: seq<string>, pattern: seq<string>) {
    exists sizes :: IsCut(glob, key, pattern, sizes)
  }

  // ---- from segment to segment ----

  predicate MatchesFrom(glob: Glob, key: seq<string>, k: nat, pattern: seq<string>, p: nat)
    requires k <= |key| && p <= |pattern|
    decreases |pattern| - p
  {
    if p == |pattern| then k == |key|
    else if IsStars(pattern[p]) then
      var q := p + 1;
      if q == |pattern| then k < |key| else exists m :: k <= m <= |key| && MatchesFrom(glob, key, m, pattern, q)
    else k < |key| && glob(key[k], pattern[p]) && MatchesFrom(glob, key, k + 1, pattern, p + 1)
  }

  lemma CutEnds(glob: Glob, key: seq<string>, pattern: seq<string>, sizes: seq<nat>)
    requires IsCut(glob, key, pattern, sizes)
    ensures |sizes| == |pattern| && End(sizes, |sizes|) == |key|
  {
  }

  lemma CutBlock(glob: Glob, key: seq<string>, pattern: seq<string>, sizes: seq<nat>, i: nat)
    requires IsCut(glob, key, pattern, sizes) && i < |pattern|
    ensures End(sizes, i) + sizes[i] <= |key| && BlockOk(glob, key, pattern, i, End(sizes, i), sizes[i])
  {
  }

  lemma {:induction false} CutMatches(glob: Glob, key: seq<string>, pattern: seq<string>, sizes: seq<nat>, p: nat)
    requires IsCut(glob, key, pattern, sizes) && p <= |pattern|
    ensures End(sizes, p) <= |key| && MatchesFrom(glob, key, End(sizes, p), pattern, p)
    decreases |pattern| - p
  {
    hide IsCut;
    assert |sizes| == |pattern| && End(sizes, |sizes|) == |key| by { CutEnds(glob, key, pattern, sizes); }
    EndMono(sizes, p, |sizes|);
    if p < |pattern| {
      CutBlock(glob, key, pattern, sizes, p);
      assert BlockOk(glob, key, pattern, p, End(sizes, p), sizes[p]);
      CutMatches(glob, key, pattern, sizes, p + 1);
      assert End(sizes, p + 1) == End(sizes, p) + sizes[p];
      EndMono(sizes, p + 1, |sizes|);
    }
  }

  /** The sizes of the first blocks, which end at `k`. */
  predicate IsCutUpTo(glob: Glob, key: seq<string>, k: nat, pattern: seq<string>, sizes: seq<nat>) {
    && |sizes| <= |pattern| && End(sizes, |sizes|) == k <= |key|
    && forall i :: 0 <= i < |sizes| ==>
         End(sizes, i) + sizes[i] <= |key| && BlockOk(glob, key, pattern, i, End(sizes, i), sizes[i])
  }

  lemma {:induction false} EndMore(sizes: seq<nat>, size: nat, i: nat)
    requires i <= |sizes|
    ensures End(sizes + [size], i) == End(sizes, i)
    decreases i
  {
    if i > 0 {
      EndMore(sizes, size, i - 1);
    }
  }

  lemma EndLast(sizes: seq<nat>, size: nat)
    ensures End(sizes + [size], |sizes| + 1) == End(sizes, |sizes|) + size
  {
    EndMore(sizes, size, |sizes|);
  }

  lemma CutMore(glob: Glob, key: seq<string>, k: nat, pattern: seq<string>, sizes: seq<nat>, size: nat)
    requires IsCutUpTo(glob, key, k, pattern, sizes) && |sizes| < |pattern| && k + size <= |key|
    requires BlockOk(glob, key, pattern, |sizes|, k, size)
    ensures IsCutUpTo(glob, key, k + size, pattern, sizes + [size])
  {
    hide BlockOk, End;
    var sizes' := sizes + [size];
    EndMore(sizes, size, |sizes|);
    assert End(sizes', |sizes'|) == k + size by { EndLast(sizes, size); }
    forall i | 0 <= i < |sizes'|
      ensures End(sizes', i) + sizes'[i] <= |key| && BlockOk(glob, key, pattern, i, End(sizes', i), sizes'[i])
    {
      EndMore(sizes, size, i);
    }
  }

  lemma {:induction false} MatchIsCut(glob: Glob, key: seq<string>, k: nat, pattern: seq<string>, sizes: seq<nat>)
    returns (cut: seq<nat>)
    requires IsCutUpTo(glob, key, k, pattern, sizes) && MatchesFrom(glob, key, k, pattern, |sizes|)
    ensures IsCut(glob, key, pattern, cut)
    decreases |pattern| - |sizes|
  {
    hide End;
    var p := |sizes|;
    if p == |pattern| {
      cut := sizes;
    } else {
      var size: nat;
      if !IsStars(pattern[p]) {
        size := 1;
      } else if p + 1 == |pattern| {
        size := |key| - k;
      } else {
        var m :| k <= m <= |key| && MatchesFrom(glob, key, m, pattern, p + 1);
        size := m - k;
      }
      CutMore(glob, key, k, pattern, sizes, size);
      cut := MatchIsCut(glob, key, k + size, pattern, sizes + [size]);
    }
  }

  lemma MatchesIff(glob: Glob, key: seq<string>, pattern: seq<string>)
    ensures Matches(glob, key, pattern) <==> MatchesFrom(glob, key, 0, pattern, 0)
  {
    if Matches(glob, key, pattern) {
      var sizes :| IsCut(glob, key, pattern, sizes);
      CutMatches(glob, key, pattern, sizes, 0);
    }
    if MatchesFrom(glob, key, 0, pattern, 0) {
      var cut := MatchIsCut(glob, key, 0, pattern, []);
    }
  }

  // ---- the matcher ----

  /** Nothing left of the key, but something left of the pattern. */
  lemma {:induction false} NeedsMore(glob: Glob, key: seq<string>, pattern: seq<string>, p: nat)
    requires p < |pattern|
    ensures !MatchesFrom(glob, key, |key|, pattern, p)
    decreases |pattern| - p
  {
    if p + 1 < |pattern| {
      NeedsMore(glob, key, pattern, p + 1);
    }
  }

  method MatchAt(glob: Glob, key: seq<string>, k0: nat, pattern: seq<string>, p0: nat) returns (r: bool)
    requires k0 <= |key| && p0 <= |pattern|
    ensures r <==> MatchesFrom(glob, key, k0, pattern, p0)
    decreases |pattern| - p0
  {
    var k: nat, p: nat := k0, p0;
    while k != |key| && p != |pattern|
      invariant k <= |key| && p0 <= p <= |pattern|
      invariant MatchesFrom(glob, key, k, pattern, p) <==> MatchesFrom(glob, key, k0, pattern, p0)
      decreases |key| - k
    {
      if IsStars(pattern[p]) {
        if p + 1 == |pattern| {
          return true;
        }
        ghost var start, q := k, p + 1;
        while k != |key|
          invariant start <= k <= |key|
          invariant forall m :: start <= m < k ==> !MatchesFrom(glob, key, m, pattern, q)
          decreases |key| - k
        {
          var here := MatchAt(glob, key, k, pattern, p + 1);
          if here {
            return true;
          }
          k := k + 1;
        }
        NeedsMore(glob, key, pattern, p + 1);
        return false;
      }
      if !glob(key[k], pattern[p]) {
        return false;
      }
      k, p := k + 1, p + 1;
    }
    if p < |pattern| {
      NeedsMore(glob, key, pattern, p);
    }
    r := k == |key| && p == |pattern|;
  }

  method Match(glob: Glob, key: seq<string>, pattern: seq<string>) returns (r: bool)
    ensures r <==> Matches(glob, key, pattern)
  {
    r := MatchAt(glob, key, 0, pattern, 0);
    MatchesIff(glob, key, pattern);
  }
}
