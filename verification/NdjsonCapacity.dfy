/** Which files the parallel scan reads completely, and two families it does not. */
module NdjsonCapacity {
  import opened JsonText
  import opened NdjsonLines
  import opened NdjsonBuffers
  import opened NdjsonScan
  import opened NdjsonProgress
  import opened NdjsonResult
  import opened Arithmetic

  predicate LineStart(file: string, a: nat)
    requires a <= |file|
  {
    a == 0 || file[a - 1] == '\n'
  }

  /** Every line ends with a newline, is not blank, and fits into the maximum object size
      together with the newlines around it. */
  ghost predicate LinesFit(file: string, maxObject: nat) {
    forall a :: 0 <= a < |file| && LineStart(file, a) ==> LineFits(file, maxObject, a)
  }

  predicate LineFits(file: string, maxObject: nat, a: nat)
    requires a <= |file|
  {
    var h := NextNewline(file, a, |file|);
    h < |file| && h - a + 2 <= maxObject && !Blank(file, a, h)
  }

  /** A window as long as the longest line holds a newline. */
  lemma NewlineWithin(file: string, maxObject: nat, q: nat, p: nat)
    requires LinesFit(file, maxObject) && q < p <= |file|
    requires p - q >= maxObject - 1 || p == |file|
    ensures NextNewline(file, q, p) < p
  {
    hide NextNewline, AfterLastNewline, Blank;
    var a := AfterLastNewline(file, 0, q);
    assert LineStart(file, a);
    assert LineFits(file, maxObject, a);
    NoNewlineAfterLast(file, 0, q);
    NewlineSplit(file, a, q, |file|);
    NewlineSplit(file, q, p, |file|);
  }

  lemma SliceHasNewline(c: Config, k: nat)
    requires Request(c) > 0 && LinesFit(c.file, c.maxObject) && k < NumBuffers(c)
    ensures HasNewline(Text(c, k))
  {
    hide NextNewline, NumBuffers, LinesFit;
    RealIff(c, k);
    var p, r := Position(c.file, Request(c), k), Position(c.file, Request(c), k + 1);
    PositionStep(c.file, Request(c), k);
    NewlineWithin(c.file, c.maxObject, p, r);
    WindowSame(c.file, p, r);
    SameNewline(c.file[p..r], 0, r - p, c.file, p);
  }

  /** A line cut out together with the newlines around it. */
  lemma CutLine(file: string, maxObject: nat, a: nat, h: nat)
    requires LinesFit(file, maxObject) && 0 < a <= h < |file|
    requires file[a - 1] == '\n' && file[h] == '\n' && NextNewline(file, a, h) == h
    ensures var line := file[a - 1..h + 1]; |line| <= maxObject && !Blank(line, 0, |line|)
  {
    hide Indent, Same;
    assert LineStart(file, a);
    assert LineFits(file, maxObject, a);
    NewlineSplit(file, a, h, |file|);
    assert NextNewline(file, a, |file|) == h;
    var line := file[a - 1..h + 1];
    WindowSame(file, a - 1, h + 1);
    SameIndent(line, 0, |line|, file, a - 1);
    IndentSplit(file, a - 1, a, h + 1);
    IndentSplit(file, a, h, h + 1);
  }

  lemma BoundaryFits(c: Config, k: nat)
    requires Request(c) > 0 && LinesFit(c.file, c.maxObject) && 0 < k < NumBuffers(c)
    ensures BoundaryOk(c.file, Request(c), c.maxObject, k)
  {
    hide NumBuffers, LinesFit, HasNewline, Stitched, Blank, NextNewline, AfterLastNewline, Request;
    var q, p, r := Position(c.file, Request(c), k - 1), Position(c.file, Request(c), k), Position(c.file, Request(c),
      k + 1);
    PositionStep(c.file, Request(c), k - 1);
    PositionStep(c.file, Request(c), k);
    SliceHasNewline(c, k - 1);
    SliceHasNewline(c, k);
    hide Position;
    CrossingOk(c.file, c.maxObject, q, p, r);
  }

  lemma CrossingOk(file: string, maxObject: nat, q: nat, p: nat, r: nat)
    requires LinesFit(file, maxObject) && q <= p <= r <= |file| && HasNewline(file[q..p]) && HasNewline(file[p..r])
    ensures StitchOk(file[q..p], file[p..r], maxObject)
  {
    hide LinesFit, HasNewline, Stitched, Blank, NextNewline, AfterLastNewline;
    StitchInFile(file, q, p, r);
    CutLine(file, maxObject, AfterLastNewline(file, q, p), p + NextNewline(file[p..r], 0, r - p));
  }

  lemma EndsWithNewline(file: string, maxObject: nat, p: nat)
    requires LinesFit(file, maxObject) && p < |file|
    ensures AfterLastNewline(file, p, |file|) == |file|
  {
    var a := AfterLastNewline(file, 0, |file|);
    NoNewlineAfterLast(file, 0, |file|);
    assert LineStart(file, a);
    if a < |file| {
      assert false;
    }
  }

  /** The line that crosses into buffer `k` is put together in a buffer of twice the maximum
      object size: the part of it in the previous buffer is copied before its size is known,
      and padding follows the whole line. */
  predicate FitsTogether(c: Config, k: nat)
    requires k > 0
  {
    var prev, cur := Text(c, k - 1), Text(c, k);
    && HasNewline(prev) && HasNewline(cur)
    && |prev| - AfterLastNewline(prev, 0, |prev|) + 1 <= 2 * c.maxObject
    && |Stitched(prev, cur)| + PADDING <= 2 * c.maxObject
  }

  lemma CrossingFits(c: Config, k: nat)
    requires Request(c) > 0 && c.maxObject >= PADDING && k > 0 && BoundaryOk(c.file, Request(c), c.maxObject, k)
    ensures FitsTogether(c, k)
  {
    hide HasNewline, Stitched, AfterLastNewline;
    AfterLastIsNewline(Text(c, k - 1));
  }

  /** If every line fits, the scan delivers all lines, and each line that crosses a boundary
      fits where it is put together. */
  lemma FittingFile(c: Config)
    requires Request(c) > 0 && LinesFit(c.file, c.maxObject)
    ensures AllBoundariesOk(c) && !LosesTail(c)
    ensures c.maxObject >= PADDING ==> forall k :: 1 <= k < NumBuffers(c) ==> FitsTogether(c, k)
  {
    hide NumBuffers, LinesFit, BoundaryOk, AfterLastNewline, FitsTogether;
    forall k | 1 <= k < NumBuffers(c)
      ensures BoundaryOk(c.file, Request(c), c.maxObject, k)
    {
      BoundaryFits(c, k);
    }
    if c.maxObject >= PADDING {
      forall k | 1 <= k < NumBuffers(c)
        ensures FitsTogether(c, k)
      {
        CrossingFits(c, k);
      }
    }
    if EndsOnRequest(c) {
      var m := NumBuffers(c);
      RealIff(c, 0);
      LastBuffer(c, m - 1);
      RealIff(c, m - 1);
      EndsWithNewline(c.file, c.maxObject, Position(c.file, Request(c), m - 1));
      EmptyBlank(c.file);
    }
  }

  // ---- what the exact conditions shut out ----

  function Ones(n: nat): string { seq(n, _ => '1') }

  lemma {:induction false} NoNewlineInOnes(s: string, lo: nat, hi: nat)
    requires lo <= hi <= |s| && forall k :: lo <= k < hi ==> s[k] == '1'
    ensures AfterLastNewline(s, lo, hi) == lo && (lo < hi ==> !Blank(s, lo, hi))
    decreases hi
  {
    if lo < hi {
      NoNewlineInOnes(s, lo, hi - 1);
    }
  }

  /** A file that is one long number without a newline, exactly as long as a read
      request: the scan succeeds and delivers nothing. */
  lemma TailIsLost(maxObject: nat)
    requires 2 * maxObject > PADDING
    ensures var c := Config(Ones(2 * maxObject - PADDING), maxObject);
      AllBoundariesOk(c) && LosesTail(c) && Covered(c.file, Request(c), NumBuffers(c)) == 0
  {
    var c := Config(Ones(2 * maxObject - PADDING), maxObject);
    var r := Request(c);
    Divide(r, r, 1, 0);
    OneBuffer(r);
    NoNewlineInOnes(c.file, 0, r);
  }

  lemma OneBuffer(r: nat)
    requires r > 0
    ensures (r + r - 1) / r == 1
  {
    Ceiling(r, r);
    var q := (r + r - 1) / r;
    Multiples(q, 1, r);
    Multiples(1, q, r);
  }

  /** Blank lines are skipped inside a buffer, but not across a boundary: the scan of
      this file fails although its lines are "1...1" and "1". */
  lemma BlankLineAcross(maxObject: nat)
    requires maxObject >= 4
    ensures var c := Config(Ones(2 * maxObject - PADDING - 1) + "\n\n1\n", maxObject);
      Request(c) > 0 && !AllBoundariesOk(c)
  {
    var r := 2 * maxObject - PADDING;
    var prev, cur := Ones(r - 1) + "\n", "\n1\n";
    var c := Config(Ones(r - 1) + "\n\n1\n", maxObject);
    assert c.file == prev + cur;
    TwoSlices(prev, cur, r);
    assert Real(c, 1);
    RealIff(c, 1);
    BlankCrossing(prev);
    assert !BoundaryOk(c.file, r, maxObject, 1);
  }

  lemma TwoSlices(prev: string, cur: string, r: nat)
    requires |prev| == r && |cur| <= r
    ensures Slice(prev + cur, r, 0) == prev && Slice(prev + cur, r, 1) == cur
  {
    assert 0 * r == 0 && 1 * r == r && 2 * r == r + r;
    assert Position(prev + cur, r, 0) == 0 && Position(prev + cur, r, 1) == r;
    assert Position(prev + cur, r, 2) == |prev + cur|;
  }

  /** A newline at the end of one buffer and one at the start of the next. */
  lemma BlankCrossing(prev: string)
    requires |prev| > 0 && prev[|prev| - 1] == '\n'
    ensures HasNewline(prev) ==> Blank(Stitched(prev, "\n1\n"), 0, |Stitched(prev, "\n1\n")|)
  {
    var cur := "\n1\n";
    assert AfterLastNewline(prev, 0, |prev|) == |prev|;
    if HasNewline(prev) {
      assert NextNewline(cur, 0, |cur|) == 0;
      assert Stitched(prev, cur) == "\n\n";
      assert Blank("\n\n", 0, 2);
    }
  }
}
