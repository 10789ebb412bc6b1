/** A newline-delimited file cut into read requests: what the owner of each buffer
    emits, and why the buffers in order emit the lines of the file. */
module NdjsonBuffers {
  import opened JsonText
  import opened NdjsonLines

  /** Bytes the parser may touch behind the text it is given. */
  const PADDING := 4

  /** Where the read position stands after `k` requests of `request` bytes. */
  function Position(file: string, request: nat, k: nat): (p: nat)
    ensures p <= |file|
  {
    if k * request <= |file| then k * request else |file|
  }

  lemma PositionStep(file: string, request: nat, k: nat)
    ensures Position(file, request, k) <= Position(file, request, k + 1) <= Position(file, request, k) + request
    ensures Position(file, request, k + 1) < Position(file, request, k) + request
      ==> Position(file, request, k + 1) == |file|
  {
    assert (k + 1) * request == k * request + request;
  }

  /** The bytes of buffer `k`. */
  function Slice(file: string, request: nat, k: nat): (s: string)
    ensures |s| <= request
    ensures Position(file, request, k) + |s| == Position(file, request, k + 1)
  {
    PositionStep(file, request, k);
    file[Position(file, request, k)..Position(file, request, k + 1)]
  }

  /** A short read is the last one of the file. */
  predicate IsLast(file: string, request: nat, k: nat) {
    |Slice(file, request, k)| < request
  }

  /** The line that crosses from one buffer into the next, with the newline that
      precedes it. */
  function Stitched(prev: string, cur: string): string
    requires HasNewline(prev) && HasNewline(cur)
  {
    AfterLastIsNewline(prev);
    prev[AfterLastNewline(prev, 0, |prev|) - 1..] + cur[..NextNewline(cur, 0, |cur|) + 1]
  }

  lemma AfterLastIsNewline(s: string)
    requires HasNewline(s)
    ensures AfterLastNewline(s, 0, |s|) > 0
  {
    AfterLastSplit(s, 0, 0, |s|);
    NoNewlineAfterLast(s, 0, |s|);
  }

  /** The crossing line can be rebuilt, is small enough and is not blank. */
  predicate StitchOk(prev: string, cur: string, maxObject: nat) {
    && HasNewline(prev) && HasNewline(cur)
    && |Stitched(prev, cur)| <= maxObject
    && !Blank(Stitched(prev, cur), 0, |Stitched(prev, cur)|)
  }

  predicate BoundaryOk(file: string, request: nat, maxObject: nat, k: nat)
    requires k > 0
  {
    StitchOk(Slice(file, request, k - 1), Slice(file, request, k), maxObject)
  }

  /** Everything the owner of buffer `k` emits; nothing if it cannot rebuild the line
      that crosses into it. */
  function BufferUnits(file: string, request: nat, k: nat): seq<string> {
    var cur := Slice(file, request, k);
    var last := IsLast(file, request, k);
    if k == 0 then ParseUnits(cur, 0, |cur|, last)
    else OwnerUnits(Slice(file, request, k - 1), cur, last)
  }

  /** The crossing line, then the lines that start inside the buffer. */
  function OwnerUnits(prev: string, cur: string, last: bool): seq<string> {
    if HasNewline(prev) && HasNewline(cur) then
      var line := Stitched(prev, cur);
      [Trim(line, 0, |line|)] + ParseUnits(cur, NextNewline(cur, 0, |cur|) + 1, |cur|, last)
    else []
  }

  ghost predicate BoundariesOk(file: string, request: nat, maxObject: nat, m: nat) {
    forall k :: 1 <= k < m ==> BoundaryOk(file, request, maxObject, k)
  }

  function UnitsUpTo(file: string, request: nat, m: nat): seq<string> {
    if m == 0 then [] else UnitsUpTo(file, request, m - 1) + BufferUnits(file, request, m - 1)
  }

  /** How far into the file the units of the first `m` buffers reach. */
  function Covered(file: string, request: nat, m: nat): (c: nat)
    ensures c <= Position(file, request, m)
  {
    if m == 0 then 0
    else
      PositionStep(file, request, m - 1);
      End(file, Position(file, request, m - 1), Position(file, request, m), IsLast(file, request, m - 1))
  }

  /** The end of the text parsed from a buffer that holds `[p, r)`. */
  function End(file: string, p: nat, r: nat, last: bool): (e: nat)
    requires p <= r <= |file|
    ensures p <= e <= r
  {
    if last then r else AfterLastNewline(file, p, r)
  }

  // ---- buffers as windows of the file ----

  lemma WindowSame(file: string, p: nat, r: nat)
    requires p <= r <= |file|
    ensures Same(file[p..r], 0, r - p, file, p)
  {
    assert file[p..r][0..r - p] == file[p..r];
    SliceSame(file[p..r], 0, r - p, file, p);
  }

  lemma ParseRest(file: string, p: nat, r: nat, offset: nat, last: bool)
    requires p + offset <= r <= |file|
    requires offset > 0 ==> file[p + offset - 1] == '\n'
    ensures p + offset <= End(file, p, r, last)
    ensures ParseUnits(file[p..r], offset, r - p, last) == Lines(file, p + offset, End(file, p, r, last))
  {
    hide ParseUnits, Lines, Same;
    WindowSame(file, p, r);
    SameWithin(file[p..r], 0, r - p, file, p, offset, r - p);
    SameParse(file[p..r], offset, r - p, file, p, last);
    if last {
      ParseLast(file, p + offset, r);
    } else {
      ParseNotLast(file, p + offset, r);
      AfterLastSplit(file, p, p + offset, r);
    }
  }

  /** The crossing line runs from the end of the last line of one buffer to the end of
      the first line of the next. */
  lemma StitchInFile(file: string, q: nat, p: nat, r: nat)
    requires q <= p <= r <= |file|
    requires HasNewline(file[q..p]) && HasNewline(file[p..r])
    ensures var c, h := AfterLastNewline(file, q, p), p + NextNewline(file[p..r], 0, r - p);
      && q < c <= h < r && file[h] == '\n'
      && NextNewline(file, c, h) == h
      && Stitched(file[q..p], file[p..r]) == file[c - 1..h + 1]
  {
    hide NextNewline, AfterLastNewline;
    StitchEnds(file, q, p, r);
    var c, h := AfterLastNewline(file, q, p), p + NextNewline(file[p..r], 0, r - p);
    NoNewlineAfterLast(file, q, p);
    NewlineSplit(file, p, h, r);
    NewlineSplit(file, c, p, h);
    SlicesJoin(file, q, c - 1, p, h + 1, r);
  }

  lemma StitchEnds(file: string, q: nat, p: nat, r: nat)
    requires q <= p <= r <= |file|
    requires HasNewline(file[q..p]) && HasNewline(file[p..r])
    ensures AfterLastNewline(file, q, p) == q + AfterLastNewline(file[q..p], 0, p - q) > q
    ensures var h := p + NextNewline(file[p..r], 0, r - p); h == NextNewline(file, p, r) < r && file[h] == '\n'
  {
    hide Same, NextNewline, AfterLastNewline;
    WindowSame(file, q, p);
    WindowSame(file, p, r);
    AfterLastIsNewline(file[q..p]);
    SameAfterLast(file[q..p], 0, p - q, file, q);
    SameNewline(file[p..r], 0, r - p, file, p);
  }

  lemma SlicesJoin(s: string, q: nat, a: nat, p: nat, b: nat, r: nat)
    requires q <= a <= p <= b <= r <= |s|
    ensures s[q..p][a - q..] + s[p..r][..b - p] == s[a..b]
  {
  }

  lemma StitchedIsLine(file: string, c: nat, h: nat)
    requires 0 < c <= h < |file| && file[c - 1] == '\n' && file[h] == '\n' && NextNewline(file, c, h) == h
    ensures var line := file[c - 1..h + 1];
      !Blank(line, 0, |line|) ==> Lines(file, c, h + 1) == [Trim(line, 0, |line|)]
  {
    var line := file[c - 1..h + 1];
    if !Blank(line, 0, |line|) {
      WindowSame(file, c - 1, h + 1);
      SameTrim(line, 0, |line|, file, c - 1);
      SameIndent(line, 0, |line|, file, c - 1);
      IndentSplit(file, c - 1, h, h + 1);
      IndentSplit(file, c - 1, c, h);
      TrimPadded(file, c - 1, c, h, h + 1);
      NewlineSplit(file, c, h, h + 1);
    }
  }

  lemma OwnerAdds(file: string, q: nat, p: nat, r: nat, last: bool, maxObject: nat)
    requires q <= p <= r <= |file|
    requires StitchOk(file[q..p], file[p..r], maxObject)
    ensures var c := AfterLastNewline(file, q, p);
      && q < c
      && OwnerUnits(file[q..p], file[p..r], last) == Lines(file, c, End(file, p, r, last))
  {
    hide ParseUnits, Lines, OwnerUnits, HasNewline, AfterLastNewline, NextNewline, End;
    StitchInFile(file, q, p, r);
    var c, h := AfterLastNewline(file, q, p), p + NextNewline(file[p..r], 0, r - p);
    ParseRest(file, p, r, h + 1 - p, last);
    OwnerJoins(file[q..p], file[p..r], last, maxObject, file, c, h, End(file, p, r, last));
  }

  lemma OwnerJoins(prev: string, cur: string, last: bool, maxObject: nat, file: string, c: nat, h: nat, e: nat)
    requires StitchOk(prev, cur, maxObject)
    requires 0 < c <= h < e <= |file| && file[c - 1] == '\n' && file[h] == '\n' && NextNewline(file, c, h) == h
    requires Stitched(prev, cur) == file[c - 1..h + 1]
    requires ParseUnits(cur, NextNewline(cur, 0, |cur|) + 1, |cur|, last) == Lines(file, h + 1, e)
    ensures OwnerUnits(prev, cur, last) == Lines(file, c, e)
  {
    hide ParseUnits, Lines, Stitched, Blank, Trim, HasNewline, NextNewline, IsSpace;
    StitchedIsLine(file, c, h);
    LinesSplit(file, c, h + 1, e);
  }

  /** One more buffer emits exactly the lines it adds to the covered text. */
  lemma BufferAdds(file: string, request: nat, maxObject: nat, k: nat)
    requires request > 0
    requires k > 0 ==> BoundaryOk(file, request, maxObject, k)
    ensures Covered(file, request, k) <= Covered(file, request, k + 1)
    ensures BufferUnits(file, request, k) == Lines(file, Covered(file, request, k), Covered(file, request, k + 1))
    ensures k > 0 ==> Covered(file, request, k) > 0 && file[Covered(file, request, k) - 1] == '\n'
  {
    hide ParseUnits, Lines, Stitched, OwnerUnits, AfterLastNewline, NextNewline;
    var p, r := Position(file, request, k), Position(file, request, k + 1);
    var last := IsLast(file, request, k);
    PositionStep(file, request, k);
    if k == 0 {
      assert 0 * request == 0;
      ParseRest(file, 0, r, 0, last);
    } else {
      var q := Position(file, request, k - 1);
      PositionStep(file, request, k - 1);
      assert IsLast(file, request, k - 1) ==> p == |file| == r;
      assert HasNewline(Slice(file, request, k));
      OwnerAdds(file, q, p, r, last, maxObject);
    }
  }

  /** The buffers in order emit the lines of the covered text, each once. */
  lemma {:induction false} UnitsAreLines(file: string, request: nat, maxObject: nat, m: nat)
    requires request > 0
    requires BoundariesOk(file, request, maxObject, m)
    ensures UnitsUpTo(file, request, m) == Lines(file, 0, Covered(file, request, m))
    decreases m
  {
    hide BufferUnits, Lines, BoundaryOk, End;
    if m == 0 {
      BlankLines(file, 0, 0);
    } else {
      UnitsAreLines(file, request, maxObject, m - 1);
      BufferAdds(file, request, maxObject, m - 1);
      LinesSplit(file, 0, Covered(file, request, m - 1), Covered(file, request, m));
    }
  }
}
