/** The scan of a file that holds one JSON array, or JSON values one after the other.
    One thread reads it buffer by buffer and carries a value that is cut off at the end
    of a buffer over into the next one. */
module CarryScan {
  import opened Arithmetic
  import opened Wrappers
  import opened JsonText
  import opened JsonValues
  import opened NdjsonLines
  import opened NdjsonBuffers

  datatype Error =
    | ObjectTooLarge
    | InvalidAtEnd
    | NotAnArray
    | MissingBracket
    | TrailingData
    | UnexpectedCharacter
    | InvalidJson

  datatype Outcome = Ok(units: seq<string>) | Err(error: Error)

  function Prepend(units: seq<string>, rest: Outcome): Outcome {
    match rest
    case Ok(more) => Ok(units + more)
    case Err(_) => rest
  }

  lemma PrependMore(units: seq<string>, unit: string, rest: Outcome)
    ensures Prepend(units, Prepend([unit], rest)) == Prepend(units + [unit], rest)
  {
  }

  /** A file, its format, and what the parser makes of the text of one value. */
  datatype Input = Input(file: string, isArray: bool, valid: string -> bool)

  /** Nothing is not a value. */
  predicate InputOk(c: Input) { !c.valid("") }

  lemma NotEmpty(c: Input, s: string, i: nat, j: nat)
    requires InputOk(c) && i <= j <= |s| && c.valid(s[i..j])
    ensures i < j
  {
    var t := s[i..j];
    assert |t| == 0 ==> t == "";
  }

  // ---- the whole file at once ----

  datatype Start = At(position: nat) | Bad(error: Error)

  /** Behind the bracket that opens the top-level array, given a text up to `e`. */
  function ArrayStart(s: string, e: nat): (r: Start)
    requires e <= |s|
    ensures r.At? ==> r.position <= e
  {
    var i := Indent(s, 0, e);
    if i == e then At(e)
    else if s[i] != '[' then Bad(NotAnArray)
    else
      var k := Indent(s, i + 1, e);
      if k == e then Bad(MissingBracket)
      else if s[k] != ']' then At(k)
      else if Indent(s, k + 1, e) != e then Bad(TrailingData)
      else At(e)
  }

  /** The values from position `lo` to the end of the file. */
  function Values(c: Input, lo: nat): Outcome
    requires InputOk(c) && lo <= |c.file|
    decreases |c.file| - lo
  {
    var n := |c.file|;
    var i := Indent(c.file, lo, n);
    if i == n then Ok([])
    else
      var j := NextJson(c.file, i, n);
      if !c.valid(c.file[i..j]) then Err(InvalidJson)
      else if !c.isArray then
        NotEmpty(c, c.file, i, j);
        Prepend([Trim(c.file, i, j)], Values(c, j))
      else
        var k := Indent(c.file, j, n);
        if k < n && IsSeparator(c.file[k]) then Prepend([Trim(c.file, i, j)], Values(c, k + 1))
        else Err(UnexpectedCharacter)
  }

  function OnePass(c: Input): Outcome
    requires InputOk(c)
  {
    if !c.isArray then Values(c, 0)
    else
      match ArrayStart(c.file, |c.file|)
      case Bad(e) => Err(e)
      case At(p) => Values(c, p)
  }

  // ---- buffer by buffer ----

  /** The rest of the scan, from `offset` in a buffer that ends at `position` in the file,
      when the call in progress has found `count` values so far. */
  function Rest(c: Input, capacity: nat, b: string, offset: nat, position: nat, last: bool, count: nat): Outcome
    requires InputOk(c) && position <= |c.file| && |b| + PADDING <= capacity && offset <= |b|
    requires capacity > PADDING
    requires count <= VECTOR_SIZE && (count > 0 ==> offset > 0)
    decreases |c.file| - position, 1, |b| - offset, if count == VECTOR_SIZE then 1 else 0
  {
    if count == VECTOR_SIZE then Rest(c, capacity, b, offset, position, last, 0)
    else
      var e := |b|;
      var i := Indent(b, offset, e);
      if i == e then Refill(c, capacity, "", position, last)
      else
        var j := NextJson(b, i, e);
        if j == e && !last then
          if count == 0 then Err(ObjectTooLarge) else Refill(c, capacity, b[i..], position, last)
        else if !c.valid(b[i..j]) then Err(InvalidJson)
        else if !c.isArray then
          NotEmpty(c, b, i, j);
          Prepend([Trim(b, i, j)], Rest(c, capacity, b, Indent(b, j, e), position, last, count + 1))
        else
          var k := Indent(b, j, e);
          if k < e && IsSeparator(b[k])
          then Prepend([Trim(b, i, j)], Rest(c, capacity, b, Indent(b, k + 1, e), position, last, count + 1))
          else Err(UnexpectedCharacter)
  }

  /** The rest of the scan from the end of a buffer of which `carried` is left over. */
  function Refill(c: Input, capacity: nat, carried: string, position: nat, last: bool): Outcome
    requires InputOk(c) && position <= |c.file| && |carried| + PADDING < capacity
    decreases |c.file| - position, 0, 0, 0
  {
    var request := capacity - |carried| - PADDING;
    var size := Min(request, |c.file| - position);
    if last then Ok([])
    else if size == 0 && carried != "" then Err(InvalidAtEnd)
    else if size == 0 then Ok([])
    else Rest(c, capacity, carried + c.file[position..position + size], 0, position + size, size < request, 0)
  }

  /** The scan of the file with buffers of this capacity. */
  function Buffered(c: Input, capacity: nat): Outcome
    requires InputOk(c) && capacity > PADDING
  {
    var size := Min(capacity - PADDING, |c.file|);
    var b := c.file[..size];
    var start := if c.isArray then ArrayStart(b, size) else At(0);
    match start
    case Bad(e) => Err(e)
    case At(p) => if b == "" then Ok([]) else Rest(c, capacity, b, p, size, size < capacity - PADDING, 0)
  }

  // ---- a buffer is a window of the file ----

  lemma ValuesSkipBlank(c: Input, lo: nat, m: nat)
    requires InputOk(c) && lo <= m <= |c.file| && Blank(c.file, lo, m)
    ensures Values(c, lo) == Values(c, m)
  {
    IndentSplit(c.file, lo, m, |c.file|);
  }

  /** In a window, a position that is not at the end is the same in the file. */
  lemma IndentInFile(b: string, o: nat, file: string, d: nat)
    requires Same(b, 0, |b|, file, d) && o <= |b|
    ensures var i := Indent(b, o, |b|);
      && Indent(file, o + d, |b| + d) == i + d
      && (i < |b| ==> Indent(file, o + d, |file|) == i + d)
  {
    SameIndent(b, o, |b|, file, d);
    IndentSplit(file, o + d, |b| + d, |file|);
  }

  lemma JsonInFile(b: string, i: nat, file: string, d: nat, last: bool)
    requires Same(b, 0, |b|, file, d) && i < |b| && (last ==> |b| + d == |file|)
    requires NextJson(b, i, |b|) < |b| || last
    ensures NextJson(file, i + d, |file|) == NextJson(b, i, |b|) + d
  {
    SameNextJson(b, i, |b|, file, d);
    if !last {
      NextJsonStable(file, i + d, |b| + d, |file|);
    }
  }

  /** One value of the file, then the rest. */
  lemma ValuesStep(c: Input, lo: nat, i: nat, j: nat)
    requires InputOk(c) && lo <= i < |c.file| && i == Indent(c.file, lo, |c.file|) && j == NextJson(c.file, i, |c.file|)
    ensures !c.valid(c.file[i..j]) ==> Values(c, lo) == Err(InvalidJson)
    ensures c.valid(c.file[i..j]) && !c.isArray ==> Values(c, lo) == Prepend([Trim(c.file, i, j)], Values(c, j))
    ensures c.valid(c.file[i..j]) && c.isArray ==>
      var k := Indent(c.file, j, |c.file|);
      Values(c, lo) == if k < |c.file| && IsSeparator(c.file[k]) then Prepend([Trim(c.file, i, j)], Values(c, k + 1))
                       else Err(UnexpectedCharacter)
  {
  }

  /** One value of a buffer is one value of the file. */
  lemma ValueInFile(c: Input, b: string, o: nat, d: nat, last: bool, i: nat, j: nat)
    requires InputOk(c) && Same(b, 0, |b|, c.file, d) && o <= |b| && (last ==> |b| + d == |c.file|)
    requires i == Indent(b, o, |b|) && i < |b| && j == NextJson(b, i, |b|) && (j < |b| || last)
    ensures !c.valid(b[i..j]) ==> Values(c, o + d) == Err(InvalidJson)
    ensures c.valid(b[i..j]) && !c.isArray ==> Values(c, o + d) == Prepend([Trim(b, i, j)], Values(c, j + d))
    ensures c.valid(b[i..j]) && c.isArray && Indent(b, j, |b|) < |b| ==>
      var k := Indent(b, j, |b|);
      Values(c, o + d) == if IsSeparator(b[k]) then
        Prepend([Trim(b, i, j)], Values(c, k + d + 1)) else Err(UnexpectedCharacter)
  {
    hide Indent, NextJson, Values, Trim;
    IndentInFile(b, o, c.file, d);
    JsonInFile(b, i, c.file, d, last);
    IndentInFile(b, j, c.file, d);
    SameTrim(b, i, j, c.file, d);
    SameSlice(b, i, j, c.file, d);
    ValuesStep(c, o + d, i + d, j + d);
  }

  // ---- the buffered scan refines the scan in one pass ----

  /** What a buffer holds: the text that ends at `position`. */
  ghost predicate Window(c: Input, b: string, position: nat) {
    |b| <= position <= |c.file| && Same(b, 0, |b|, c.file, position - |b|)
  }

  /** Whitespace skipped in a buffer does not matter in the file. */
  lemma SkipInFile(c: Input, b: string, o: nat, d: nat)
    requires InputOk(c) && Same(b, 0, |b|, c.file, d) && o <= |b|
    ensures Values(c, o + d) == Values(c, Indent(b, o, |b|) + d)
  {
    hide Values;
    IndentInFile(b, o, c.file, d);
    IndentBlanks(c.file, o + d, |b| + d);
    ValuesSkipBlank(c, o + d, Indent(b, o, |b|) + d);
  }

  lemma WindowSuffix(c: Input, b: string, i: nat, position: nat)
    requires Window(c, b, position) && i <= |b|
    ensures Window(c, b[i..], position)
  {
  }

  lemma WindowGrows(c: Input, b: string, position: nat, size: nat)
    requires Window(c, b, position) && position + size <= |c.file|
    ensures Window(c, b + c.file[position..position + size], position + size)
  {
  }

  lemma RestBlank(c: Input, capacity: nat, b: string, offset: nat, position: nat, last: bool, count: nat)
    requires InputOk(c) && position <= |c.file| && |b| + PADDING <= capacity && offset <= |b| && capacity > PADDING
    requires count < VECTOR_SIZE && (count > 0 ==> offset > 0) && Indent(b, offset, |b|) == |b|
    ensures Rest(c, capacity, b, offset, position, last, count) == Refill(c, capacity, "", position, last)
  {
  }

  /** After a full call the next one starts where it stopped. */
  lemma RestFull(c: Input, capacity: nat, b: string, offset: nat, position: nat, last: bool)
    requires InputOk(c) && position <= |c.file| && |b| + PADDING <= capacity && 0 < offset <= |b|
    ensures Rest(c, capacity, b, offset, position, last, VECTOR_SIZE) == Rest(c, capacity, b, offset, position, last, 0)
    ensures offset == |b| ==> Rest(c, capacity, b, offset, position, last, 0) == Refill(c, capacity, "", position, last)
  {
  }

  /** How the rest of the scan depends on the next value in the buffer. */
  lemma RestStep(c: Input, capacity: nat, b: string, offset: nat, position: nat, last: bool, count: nat, i: nat, j: nat)
    requires InputOk(c) && position <= |c.file| && |b| + PADDING <= capacity && offset <= |b| && capacity > PADDING
    requires count < VECTOR_SIZE && (count > 0 ==> offset > 0)
    requires i == Indent(b, offset, |b|) && i < |b| && j == NextJson(b, i, |b|)
    ensures var r := Rest(c, capacity, b, offset, position, last, count);
      var k := Indent(b, j, |b|);
      var found := j < |b| || last;
      && (!found ==> r == if count == 0 then Err(ObjectTooLarge) else Refill(c, capacity, b[i..], position, last))
      && (found && !c.valid(b[i..j]) ==> r == Err(InvalidJson))
      && (found && c.valid(b[i..j]) ==> i < j)
      && (found && c.valid(b[i..j]) && !c.isArray ==>
            r == Prepend([Trim(b, i, j)], Rest(c, capacity, b, k, position, last, count + 1)))
      && (found && c.valid(b[i..j]) && c.isArray ==>
            r == if k < |b| && IsSeparator(b[k])
                 then Prepend([Trim(b, i, j)], Rest(c, capacity, b, Indent(b, k + 1, |b|), position, last, count + 1))
                 else Err(UnexpectedCharacter))
  {
    hide Indent, NextJson, Trim;
    if c.valid(b[i..j]) {
      NotEmpty(c, b, i, j);
    }
  }

  lemma {:induction false} RestAgrees(c: Input, capacity: nat, b: string, offset: nat, position: nat, last: bool,
                                      count: nat)
    requires InputOk(c) && position <= |c.file| && |b| + PADDING <= capacity && offset <= |b| && capacity > PADDING
    requires count <= VECTOR_SIZE && (count > 0 ==> offset > 0)
    requires Window(c, b, position) && (last ==> position == |c.file|)
    ensures var r := Rest(c, capacity, b, offset, position, last, count);
      r.Ok? ==> Values(c, position - |b| + offset) == r
    decreases |c.file| - position, 1, |b| - offset, if count == VECTOR_SIZE then 2 else 1
  {
    hide Values, Indent, NextJson, Trim, Refill, Same;
    var e, d := |b|, position - |b|;
    if count == VECTOR_SIZE {
      RestAgrees(c, capacity, b, offset, position, last, 0);
    } else {
      var i := Indent(b, offset, e);
      SkipInFile(c, b, offset, d);
      WindowSuffix(c, b, i, position);
      if i == e {
        RefillAgrees(c, capacity, b[i..], position, last);
      } else if NextJson(b, i, e) == e && !last {
        if count > 0 {
          RefillAgrees(c, capacity, b[i..], position, last);
        }
      } else if Rest(c, capacity, b, offset, position, last, count).Ok? {
        ValueAgrees(c, capacity, b, offset, position, last, count, i, NextJson(b, i, e));
      }
    }
  }

  lemma {:induction false} ValueAgrees(c: Input, capacity: nat, b: string, offset: nat, position: nat, last: bool,
                                       count: nat,
                                       i: nat, j: nat)
    requires InputOk(c) && position <= |c.file| && |b| + PADDING <= capacity && offset <= |b| && capacity > PADDING
    requires count < VECTOR_SIZE && (count > 0 ==> offset > 0)
    requires Window(c, b, position) && (last ==> position == |c.file|)
    requires i == Indent(b, offset, |b|) && i < |b| && j == NextJson(b, i, |b|) && (j < |b| || last)
    requires Rest(c, capacity, b, offset, position, last, count).Ok?
    ensures Values(c, position - |b| + offset) == Rest(c, capacity, b, offset, position, last, count)
    decreases |c.file| - position, 1, |b| - offset, 0
  {
    hide Values, Indent, NextJson, Trim, Refill, Rest, Same;
    var d := position - |b|;
    RestStep(c, capacity, b, offset, position, last, count, i, j);
    ValueInFile(c, b, offset, d, last, i, j);
    var next := if c.isArray then Indent(b, j, |b|) + 1 else j;
    SkipInFile(c, b, next, d);
    RestAgrees(c, capacity, b, Indent(b, next, |b|), position, last, count + 1);
  }

  lemma {:induction false} RefillAgrees(c: Input, capacity: nat, carried: string, position: nat, last: bool)
    requires InputOk(c) && position <= |c.file| && |carried| + PADDING < capacity
    requires Window(c, carried, position) && (last ==> position == |c.file| && carried == "")
    ensures var r := Refill(c, capacity, carried, position, last);
      r.Ok? ==> Values(c, position - |carried|) == r
    decreases |c.file| - position, 0, 0, 0
  {
    hide Rest, Window;
    var request := capacity - |carried| - PADDING;
    var size := Min(request, |c.file| - position);
    if !last && size > 0 {
      WindowGrows(c, carried, position, size);
      RestAgrees(c, capacity, carried + c.file[position..position + size], 0, position + size, size < request, 0);
    }
  }

  // ---- the first buffer ----

  /** The first buffer holds nothing but whitespace, or an empty array, and the rest of the
      file is not blank. What follows is then read as if the array had been opened. */
  predicate StartsShort(c: Input, capacity: nat)
    requires capacity > PADDING
  {
    var e := Min(capacity - PADDING, |c.file|);
    c.isArray && ArrayStart(c.file, e) == At(e) && !Blank(c.file, e, |c.file|)
  }

  lemma StartAgrees(c: Input, e: nat)
    requires InputOk(c) && e <= |c.file| && c.isArray
    requires ArrayStart(c.file, e).At? && (ArrayStart(c.file, e) == At(e) ==> Blank(c.file, e, |c.file|))
    ensures OnePass(c) == Values(c, ArrayStart(c.file, e).position)
  {
    hide Values, Indent;
    var n := |c.file|;
    var i := Indent(c.file, 0, e);
    IndentSplit(c.file, 0, e, n);
    if i < e && c.file[i] == '[' {
      IndentSplit(c.file, i + 1, e, n);
      var k := Indent(c.file, i + 1, e);
      if k < e {
        IndentSplit(c.file, k + 1, e, n);
      }
    }
    if ArrayStart(c.file, e) == At(e) {
      ValuesSkipBlank(c, e, n);
    }
  }

  lemma SameStart(b: string, e: nat, file: string)
    requires e <= |b| && Same(b, 0, e, file, 0)
    ensures ArrayStart(b, e) == ArrayStart(file, e)
  {
    hide Indent;
    SameIndent(b, 0, e, file, 0);
    var i := Indent(b, 0, e);
    if i < e {
      SameIndent(b, i + 1, e, file, 0);
      var k := Indent(b, i + 1, e);
      if k < e {
        SameIndent(b, k + 1, e, file, 0);
      }
    }
  }

  lemma FirstUnit(c: Input, lo: nat)
    requires InputOk(c) && lo <= |c.file| && c.isArray && !Blank(c.file, lo, |c.file|) && Values(c, lo).Ok?
    ensures var i := Indent(c.file, lo, |c.file|);
      var j := NextJson(c.file, i, |c.file|);
      && c.valid(c.file[i..j]) && j < |c.file|
      && Values(c, lo).units != [] && Values(c, lo).units[0] == Trim(c.file, i, j)
  {
    hide Indent, NextJson, Trim, Values;
    var i := Indent(c.file, lo, |c.file|);
    ValuesStep(c, lo, i, NextJson(c.file, i, |c.file|));
  }

  /** The whole file, when its first part holds only whitespace or an empty array. */
  lemma WholeStart(c: Input, e: nat)
    requires e <= |c.file| && ArrayStart(c.file, e) == At(e) && !Blank(c.file, e, |c.file|)
    ensures var n := |c.file|;
      var i := Indent(c.file, e, n);
      var k := Indent(c.file, i + 1, n);
      var start := ArrayStart(c.file, n);
      start.Bad? || start == At(n) || (c.file[i] == '[' && k < n && start == At(k))
  {
    hide Indent;
    var n := |c.file|;
    var a := Indent(c.file, 0, e);
    IndentSplit(c.file, 0, e, n);
    if a < e {
      IndentSplit(c.file, a + 1, e, n);
      IndentSplit(c.file, Indent(c.file, a + 1, e) + 1, e, n);
    }
  }

  /** An array read as one value has another first unit than the values in it. */
  lemma OtherUnits(c: Input, e: nat)
    requires InputOk(c) && e <= |c.file| && c.isArray
    requires ArrayStart(c.file, e) == At(e) && !Blank(c.file, e, |c.file|) && Values(c, e).Ok?
    ensures OnePass(c) != Values(c, e)
  {
    hide Values, Indent, NextJson, Trim, ArrayStart;
    var n := |c.file|;
    var i := Indent(c.file, e, n);
    var k := Indent(c.file, i + 1, n);
    WholeStart(c, e);
    FirstUnit(c, e);
    if ArrayStart(c.file, n) == At(n) {
      NoValues(c);
    } else if ArrayStart(c.file, n) == At(k) && Values(c, k).Ok? {
      IndentAtStart(c.file, k);
      FirstUnit(c, k);
      ArrayIsNotFirst(c, i, k);
    }
  }

  lemma IndentAtStart(s: string, k: nat)
    requires k < |s| && !IsSpace(s[k])
    ensures Indent(s, k, |s|) == k
  {
  }

  lemma ArrayIsNotFirst(c: Input, i: nat, k: nat)
    requires InputOk(c) && i < k < |c.file| && c.file[i] == '[' && k == Indent(c.file, i + 1, |c.file|)
    requires NextJson(c.file, i, |c.file|) < |c.file| && c.valid(c.file[k..NextJson(c.file, k, |c.file|)])
    ensures Trim(c.file, i, NextJson(c.file, i, |c.file|)) != Trim(c.file, k, NextJson(c.file, k, |c.file|))
  {
    hide SkipNested, PlainEnd;
    var n := |c.file|;
    var j, j' := NextJson(c.file, i, n), NextJson(c.file, k, n);
    NotEmpty(c, c.file, k, j');
    ArrayTrimmed(c.file, i, n);
    FirstKept(c.file, k, j');
    if c.file[k] == '[' {
      IndentBlanks(c.file, i + 1, n);
      InnerEndsFirst(c.file, i, k, n);
    }
  }

  lemma ArrayTrimmed(s: string, i: nat, e: nat)
    requires i < e <= |s| && s[i] == '[' && NextJson(s, i, e) < e
    ensures Trim(s, i, NextJson(s, i, e)) == s[i..NextJson(s, i, e)] && i < NextJson(s, i, e)
  {
    NestedEnd(s, i + 1, e, 1);
  }

  lemma {:induction false} FirstKept(s: string, k: nat, j: nat)
    requires k < j <= |s| && !IsSpace(s[k])
    ensures var t := Trim(s, k, j); 0 < |t| <= j - k && t[0] == s[k]
    decreases j
  {
    if k + 1 < j {
      FirstKept(s, k, j - 1);
    }
  }

  /** If the buffered scan comes to an end without an error, it has found exactly the
      values of a scan in one pass, whatever the capacity of the buffers is; unless the
      array does not really start in the first buffer, when it has found others. */
  lemma BufferedIsOnePass(c: Input, capacity: nat)
    requires InputOk(c) && capacity > PADDING && Buffered(c, capacity).Ok?
    ensures OnePass(c) == Buffered(c, capacity) <==> !StartsShort(c, capacity)
  {
    hide Rest, Values, ArrayStart;
    var size := Min(capacity - PADDING, |c.file|);
    var b := c.file[..size];
    assert Window(c, b, size);
    SameStart(b, size, c.file);
    var start := if c.isArray then ArrayStart(b, size) else At(0);
    if b == "" {
      NoValues(c);
      EmptyBlank(c.file);
      if c.isArray {
        StartAgrees(c, size);
      }
    } else {
      RestAgrees(c, capacity, b, start.position, size, size < capacity - PADDING, 0);
      if StartsShort(c, capacity) {
        OtherUnits(c, size);
      } else if c.isArray {
        StartAgrees(c, size);
      }
    }
  }

  lemma NoValues(c: Input)
    requires InputOk(c)
    ensures Values(c, |c.file|) == Ok([])
  {
  }
}
