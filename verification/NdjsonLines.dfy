/** What one thread makes of one buffer of a newline-delimited file, and why the
    buffers together give the lines of the file. */
module NdjsonLines {
  import opened JsonText

  /** Values handed out per call of the scan. */
  const VECTOR_SIZE := 2048

  /** The lines of a window of text: trimmed, blank ones left out, an unterminated
      last line included. */
  function Lines(s: string, lo: nat, hi: nat): seq<string>
    requires lo <= hi <= |s|
    decreases hi - lo
  {
    var j := NextNewline(s, lo, hi);
    var here := if Blank(s, lo, j) then [] else [Trim(s, lo, j)];
    if j == hi then here else here + Lines(s, j + 1, hi)
  }

  /** The units parsed from the rest of a buffer. An unterminated tail is a unit only
      in the last buffer of the file. */
  function ParseUnits(s: string, lo: nat, hi: nat, last: bool): seq<string>
    requires lo <= hi <= |s|
    decreases hi - lo
  {
    var i := Indent(s, lo, hi);
    if i == hi then []
    else
      var j := NextNewline(s, i, hi);
      if j == hi && !last then []
      else [Trim(s, i, j)] + ParseUnits(s, j, hi, last)
  }

  /** The units of one call with room for `budget` more, and where the call stops. */
  function Chunk(s: string, lo: nat, hi: nat, budget: nat, last: bool): (r: (seq<string>, nat))
    requires lo <= hi <= |s|
    ensures lo <= r.1 <= hi
    decreases budget
  {
    if budget == 0 then ([], lo)
    else
      var i := Indent(s, lo, hi);
      if i == hi then ([], hi)
      else
        var j := NextNewline(s, i, hi);
        if j == hi && !last then ([], hi)
        else
          var rest := Chunk(s, Indent(s, j, hi), hi, budget - 1, last);
          ([Trim(s, i, j)] + rest.0, rest.1)
  }

  lemma ParseStep(s: string, lo: nat, hi: nat, last: bool)
    requires lo <= hi <= |s|
    ensures var i := Indent(s, lo, hi);
      if i == hi then ParseUnits(s, lo, hi, last) == []
      else
        var j := NextNewline(s, i, hi);
        ParseUnits(s, lo, hi, last) == if j == hi && !last then [] else [Trim(s, i, j)] + ParseUnits(s, j, hi, last)
  {
    hide Indent, NextNewline, Trim;
  }

  lemma ChunkStep(s: string, lo: nat, hi: nat, budget: nat, last: bool)
    requires lo <= hi <= |s|
    ensures budget == 0 ==> Chunk(s, lo, hi, budget, last) == ([], lo)
    ensures budget > 0 ==>
      var i := Indent(s, lo, hi);
      if i == hi then Chunk(s, lo, hi, budget, last) == ([], hi)
      else
        var j := NextNewline(s, i, hi);
        if j == hi && !last then Chunk(s, lo, hi, budget, last) == ([], hi)
        else
          var rest := Chunk(s, Indent(s, j, hi), hi, budget - 1, last);
          Chunk(s, lo, hi, budget, last) == ([Trim(s, i, j)] + rest.0, rest.1)
  {
    hide Indent, NextNewline, Trim;
  }

  method ParseNextChunk(buffer: string, offset: nat, scanCount: nat, last: bool)
    returns (units: seq<string>, next: nat)
    requires offset <= |buffer| && scanCount <= VECTOR_SIZE
    ensures var r := Chunk(buffer, offset, |buffer|, VECTOR_SIZE - scanCount, last);
      units == r.0 && next == r.1
  {
    hide Indent, NextNewline, Trim, Blank, IsSpace, Chunk;
    units, next := [], offset;
    var count := scanCount;
    while count < VECTOR_SIZE
      invariant offset <= next <= |buffer| && scanCount <= count <= VECTOR_SIZE
      invariant var all := Chunk(buffer, offset, |buffer|, VECTOR_SIZE - scanCount, last);
        var rest := Chunk(buffer, next, |buffer|, VECTOR_SIZE - count, last);
        all.0 == units + rest.0 && all.1 == rest.1
    {
      ChunkStep(buffer, next, |buffer|, VECTOR_SIZE - count, last);
      var start := SkipWhitespace(buffer, next);
      if start == |buffer| {
        next := start;
        break;
      }
      var end := FindNewline(buffer, start);
      if end == |buffer| && !last {
        next := |buffer|;
        break;
      }
      var unit := TrimWhitespace(buffer, start, end);
      units := units + [unit];
      next := SkipWhitespace(buffer, end);
      count := count + 1;
    }
    if count == VECTOR_SIZE {
      ChunkStep(buffer, next, |buffer|, 0, last);
    }
  }

  // ---- a call against the whole buffer ----

  lemma ParseFromIndent(s: string, lo: nat, hi: nat, last: bool)
    requires lo <= hi <= |s|
    ensures ParseUnits(s, lo, hi, last) == ParseUnits(s, Indent(s, lo, hi), hi, last)
  {
    assert Indent(s, Indent(s, lo, hi), hi) == Indent(s, lo, hi);
  }

  /** A call takes the next units in order and leaves the others for later calls; a
      call that returns nothing has reached the end of the buffer. */
  lemma {:induction false} ChunkIsPrefix(s: string, lo: nat, hi: nat, budget: nat, last: bool)
    requires lo <= hi <= |s|
    ensures var r := Chunk(s, lo, hi, budget, last);
      && ParseUnits(s, lo, hi, last) == r.0 + ParseUnits(s, r.1, hi, last)
      && (r.0 == [] && budget > 0 ==> r.1 == hi)
      && (r.0 != [] ==> r.1 > lo)
    decreases budget
  {
    hide Indent, NextNewline, Trim, Blank, IsSpace, Chunk, ParseUnits;
    ChunkStep(s, lo, hi, budget, last);
    ParseStep(s, lo, hi, last);
    ParseStep(s, hi, hi, last);
    if budget > 0 {
      var i := Indent(s, lo, hi);
      if i < hi {
        var j := NextNewline(s, i, hi);
        LineNotEmpty(s, i, hi);
        if j < hi || last {
          var k := Indent(s, j, hi);
          ChunkIsPrefix(s, k, hi, budget - 1, last);
          ParseFromIndent(s, j, hi, last);
        }
      }
    }
  }

  lemma LineNotEmpty(s: string, i: nat, hi: nat)
    requires i < hi <= |s| && !IsSpace(s[i])
    ensures NextNewline(s, i, hi) > i
  {
  }

  // ---- lines ----

  lemma AtNewline(s: string, j: nat, hi: nat)
    requires j < hi <= |s|
    ensures NextNewline(s, j, hi) == j <==> s[j] == '\n'
  {
  }

  lemma {:induction false} LinesSplit(s: string, lo: nat, mid: nat, hi: nat)
    requires lo <= mid <= hi <= |s|
    requires lo < mid ==> s[mid - 1] == '\n'
    ensures Lines(s, lo, hi) == Lines(s, lo, mid) + Lines(s, mid, hi)
    decreases mid - lo
  {
    hide NextNewline, Blank, Trim;
    if lo < mid {
      var j := NextNewline(s, lo, hi);
      AtNewline(s, mid - 1, mid);
      NewlineSplit(s, lo, mid - 1, mid);
      NewlineSplit(s, lo, mid, hi);
      LinesSplit(s, j + 1, mid, hi);
    } else {
      NoLines(s, lo);
    }
  }

  lemma NoLines(s: string, lo: nat)
    requires lo <= |s|
    ensures Lines(s, lo, lo) == []
  {
  }

  lemma {:induction false} BlankLines(s: string, lo: nat, hi: nat)
    requires lo <= hi <= |s| && Blank(s, lo, hi)
    ensures Lines(s, lo, hi) == []
    decreases hi - lo
  {
    var j := NextNewline(s, lo, hi);
    IndentSplit(s, lo, j, hi);
    if j < hi {
      BlankLines(s, j + 1, hi);
    }
  }

  /** Blank lines before a text and the whitespace at its start do not matter. */
  lemma LinesSkipBlank(s: string, lo: nat, i: nat, hi: nat)
    requires lo <= i < hi <= |s|
    requires Blank(s, lo, i) && !IsSpace(s[i])
    ensures var j := NextNewline(s, i, hi);
      Lines(s, lo, hi) == [Trim(s, i, j)] + if j == hi then [] else Lines(s, j + 1, hi)
  {
    var a := AfterLastNewline(s, lo, i);
    IndentSplit(s, lo, a, i);
    BlankLines(s, lo, a);
    LinesSplit(s, lo, a, hi);
    NoNewlineAfterLast(s, lo, i);
    NewlineSplit(s, a, i, hi);
    var j := NextNewline(s, i, hi);
    IndentSplit(s, a, i, j);
  }

  lemma LinesAtNewline(s: string, j: nat, hi: nat)
    requires j < hi <= |s| && s[j] == '\n'
    ensures Lines(s, j, hi) == Lines(s, j + 1, hi)
  {
    assert NextNewline(s, j, hi) == j;
    assert Blank(s, j, j);
  }

  // ---- the lines, character by character ----

  datatype Piece = Piece(start: nat, end: nat)

  /** A stretch without a newline that neither starts nor ends with whitespace, and in front
      of which there is nothing else. */
  predicate First(s: string, lo: nat, hi: nat, piece: Piece)
    requires lo <= hi <= |s|
  {
    && lo <= piece.start < piece.end <= hi
    && AllWhite(s, lo, piece.start) && NoNewline(s, piece.start, piece.end)
    && !White(s[piece.start]) && !White(s[piece.end - 1])
  }

  /** One such stretch behind the other, with a newline between two of them; the rest of the
      window is whitespace. */
  predicate Pieces(s: string, lo: nat, hi: nat, at: seq<Piece>)
    requires lo <= hi <= |s|
    decreases |at|
  {
    if at == [] then AllWhite(s, lo, hi)
    else
      && First(s, lo, hi, at[0]) && Pieces(s, at[0].end, hi, at[1..])
      && (|at| > 1 ==> at[1].start <= hi && !NoNewline(s, at[0].end, at[1].start))
  }

  /** These texts are the lines of the first `hi` characters. */
  ghost predicate AreLines(s: string, hi: nat, units: seq<string>)
    requires hi <= |s|
  {
    exists at :: PiecesOf(s, hi, units, at)
  }

  ghost predicate PiecesOf(s: string, hi: nat, units: seq<string>, at: seq<Piece>)
    requires hi <= |s|
  {
    Pieces(s, 0, hi, at) && units == Texts(s, at)
  }

  function Texts(s: string, at: seq<Piece>): (units: seq<string>)
    ensures |units| == |at|
    ensures forall i :: 0 <= i < |at| && at[i].start <= at[i].end <= |s| ==> units[i] == s[at[i].start..at[i].end]
  {
    if at == [] then []
    else [if at[0].start <= at[0].end <= |s| then s[at[0].start..at[0].end] else ""] + Texts(s, at[1..])
  }

  lemma MorePieces(s: string, lo: nat, mid: nat, hi: nat, at: seq<Piece>)
    requires lo <= mid <= hi <= |s| && Pieces(s, mid, hi, at) && AllWhite(s, lo, mid)
    ensures Pieces(s, lo, hi, at)
  {
  }

  lemma NewlineIsWhite()
    ensures White('\n')
  {
  }

  lemma FirstPiece(s: string, lo: nat, j: nat, hi: nat, piece: Piece, at: seq<Piece>)
    requires lo <= j <= hi <= |s| && NoNewline(s, lo, j) && First(s, lo, j, piece) && AllWhite(s, piece.end, j)
    requires if j == hi then at == [] else s[j] == '\n' && Pieces(s, j + 1, hi, at)
    ensures Pieces(s, lo, hi, [piece] + at)
  {
    hide White;
    assert ([piece] + at)[1..] == at;
    if j < hi {
      assert White(s[j]) by { NewlineIsWhite(); }
      MorePieces(s, piece.end, j + 1, hi, at);
    }
  }

  /** Each unit is the text between two newlines without the whitespace around it. */
  lemma {:induction false} LinesArePieces(s: string, lo: nat, hi: nat) returns (at: seq<Piece>)
    requires lo <= hi <= |s|
    ensures Pieces(s, lo, hi, at) && Lines(s, lo, hi) == Texts(s, at)
    decreases hi - lo
  {
    hide NextNewline, Blank, Trim, Pieces, White;
    NewlineIsWhite();
    var j := NextNewline(s, lo, hi);
    NextNewlineIs(s, lo, hi);
    BlankIff(s, lo, j);
    at := [];
    if j < hi {
      at := LinesArePieces(s, j + 1, hi);
    }
    if !Blank(s, lo, j) {
      var a, b := TrimIs(s, lo, j);
      FirstPiece(s, lo, j, hi, Piece(a, b), at);
      assert ([Piece(a, b)] + at)[1..] == at;
      at := [Piece(a, b)] + at;
    } else if j < hi {
      MorePieces(s, lo, j + 1, hi, at);
    } else {
      NoPieces(s, lo, hi);
    }
  }

  lemma NoPieces(s: string, lo: nat, hi: nat)
    requires lo <= hi <= |s| && AllWhite(s, lo, hi)
    ensures Pieces(s, lo, hi, [])
  {
  }

  /** There is only one such way to cut a window. */
  lemma {:induction false} OnlyPieces(s: string, lo: nat, hi: nat, at: seq<Piece>, at': seq<Piece>)
    requires lo <= hi <= |s| && Pieces(s, lo, hi, at) && Pieces(s, lo, hi, at')
    ensures at == at'
    decreases |at|
  {
    if at != [] && at' != [] {
      NotLonger(s, lo, hi, at, at');
      NotLonger(s, lo, hi, at', at);
      OnlyPieces(s, at[0].end, hi, at[1..], at'[1..]);
      assert at == [at[0]] + at[1..] && at' == [at'[0]] + at'[1..];
    }
  }

  /** Behind the end of the first stretch everything is whitespace up to the next newline. */
  lemma NotLonger(s: string, lo: nat, hi: nat, at: seq<Piece>, at': seq<Piece>)
    requires lo <= hi <= |s| && Pieces(s, lo, hi, at) && Pieces(s, lo, hi, at') && at != [] && at' != []
    ensures at[0].start == at'[0].start && at'[0].end <= at[0].end
  {
    assert at[0].start == at'[0].start;
    if |at| > 1 {
      var k :| at[0].end <= k < at[1].start && s[k] == '\n';
      assert First(s, at[0].end, hi, at[1]);
      assert at'[0].end <= k;
    }
  }

  /** So these texts are the lines if and only if they are the units of a scan. */
  lemma LinesAre(s: string, hi: nat, units: seq<string>)
    requires hi <= |s|
    ensures AreLines(s, hi, units) <==> units == Lines(s, 0, hi)
  {
    hide Lines, Pieces;
    var at := LinesArePieces(s, 0, hi);
    assert PiecesOf(s, hi, Lines(s, 0, hi), at);
    if AreLines(s, hi, units) {
      var at' :| PiecesOf(s, hi, units, at');
      OnlyPieces(s, 0, hi, at, at');
    }
  }

  /** In the last buffer everything is parsed. */
  lemma {:induction false} ParseLast(s: string, lo: nat, hi: nat)
    requires lo <= hi <= |s|
    ensures ParseUnits(s, lo, hi, true) == Lines(s, lo, hi)
    decreases hi - lo
  {
    hide Lines, Trim, Indent, NextNewline;
    var i := Indent(s, lo, hi);
    IndentBlanks(s, lo, hi);
    if i == hi {
      BlankLines(s, lo, hi);
    } else {
      var j := NextNewline(s, i, hi);
      assert ParseUnits(s, lo, hi, true) == [Trim(s, i, j)] + ParseUnits(s, j, hi, true);
      LinesSkipBlank(s, lo, i, hi);
      if j < hi {
        ParseLast(s, j, hi);
        LinesAtNewline(s, j, hi);
      }
    }
  }

  /** In any other buffer the text up to the last newline is parsed. */
  lemma {:induction false} ParseNotLast(s: string, lo: nat, hi: nat)
    requires lo <= hi <= |s|
    ensures ParseUnits(s, lo, hi, false) == Lines(s, lo, AfterLastNewline(s, lo, hi))
    decreases hi - lo
  {
    hide Lines, Trim, Indent, NextNewline, AfterLastNewline;
    var e := AfterLastNewline(s, lo, hi);
    var i := Indent(s, lo, hi);
    IndentBlanks(s, lo, hi);
    if i == hi {
      IndentSplit(s, lo, e, hi);
      BlankLines(s, lo, e);
    } else {
      var j := NextNewline(s, i, hi);
      AfterLastSplit(s, lo, i, hi);
      if j == hi {
        IndentSplit(s, lo, e, i);
        BlankLines(s, lo, e);
      } else {
        LastBehind(s, lo, j, hi);
        ParseNotLast(s, j, hi);
        NewlineSplit(s, i, e, hi);
        LinesSkipBlank(s, lo, i, e);
        LinesAtNewline(s, j, e);
      }
    }
  }

  lemma {:induction false} IndentBlanks(s: string, lo: nat, hi: nat)
    requires lo <= hi <= |s|
    ensures Blank(s, lo, Indent(s, lo, hi))
    decreases hi - lo
  {
    if lo < hi && IsSpace(s[lo]) {
      IndentBlanks(s, lo + 1, hi);
      IndentSplit(s, lo, lo + 1, Indent(s, lo, hi));
    }
  }

  /** The last newline is at or behind any other. */
  lemma LastBehind(s: string, lo: nat, j: nat, hi: nat)
    requires lo <= j < hi <= |s| && s[j] == '\n'
    ensures j < AfterLastNewline(s, lo, hi) == AfterLastNewline(s, j, hi)
  {
    hide AfterLastNewline;
    AtNewline(s, j, hi);
    AfterLastSplit(s, lo, j, hi);
    AfterLastSplit(s, j, j + 1, hi);
    AtNewline(s, j, j + 1);
    LastIsNewline(s, j);
  }

  lemma LastIsNewline(s: string, j: nat)
    requires j < |s| && s[j] == '\n'
    ensures AfterLastNewline(s, j, j + 1) == j + 1
  {
  }

  lemma SameWithin(s: string, lo: nat, hi: nat, t: string, d: int, a: nat, b: nat)
    requires Same(s, lo, hi, t, d) && lo <= a <= b <= hi
    ensures Same(s, a, b, t, d)
  {
  }

  lemma {:induction false} SameParse(s: string, lo: nat, hi: nat, t: string, d: int, last: bool)
    requires Same(s, lo, hi, t, d)
    ensures ParseUnits(t, lo + d, hi + d, last) == ParseUnits(s, lo, hi, last)
    decreases hi - lo
  {
    hide Indent, NextNewline, Trim;
    SameIndent(s, lo, hi, t, d);
    var i := Indent(s, lo, hi);
    if i < hi {
      SameWithin(s, lo, hi, t, d, i, hi);
      SameNewline(s, i, hi, t, d);
      var j := NextNewline(s, i, hi);
      SameWithin(s, lo, hi, t, d, i, j);
      SameWithin(s, lo, hi, t, d, j, hi);
      SameTrim(s, i, j, t, d);
      if j < hi || last {
        SameParse(s, j, hi, t, d, last);
      }
    }
  }
}
