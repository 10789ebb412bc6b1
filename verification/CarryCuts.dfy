/** Where the ends of the buffers may fall. A scan with a carried remainder raises errors
    that a scan in one pass does not; whether it does can be told from the places of the
    values in the file and the capacity of the buffers. */
module CarryCuts {
  import opened Arithmetic
  import opened JsonText
  import opened JsonValues
  import opened NdjsonLines
  import opened NdjsonBuffers
  import opened CarryScan

  /** Where a value starts and ends, and where the text behind it goes on: behind its
      separator in an array, right behind it elsewhere. */
  datatype Span = Span(start: nat, end: nat, next: nat)

  function SpanAt(s: string, isArray: bool, i: nat): (x: Span)
    requires i < |s|
    ensures x.start == i <= x.end <= x.next
  {
    var j := NextJson(s, i, |s|);
    Span(i, j, if isArray then Indent(s, j, |s|) + 1 else j)
  }

  /** The places of the values from `lo` on. */
  function Spans(s: string, isArray: bool, lo: nat): seq<Span>
    requires lo <= |s|
    decreases |s| - lo
  {
    var i := Indent(s, lo, |s|);
    if i == |s| then []
    else
      var x := SpanAt(s, isArray, i);
      if i < x.next <= |s| then [x] + Spans(s, isArray, x.next) else [x]
  }

  /** The first value from `y` on that does not end in front of `p`. */
  function FirstBehind(spans: seq<Span>, y: nat, p: nat): (x: nat)
    requires y <= |spans|
    ensures y <= x <= |spans|
    ensures forall z :: y <= z < x ==> spans[z].end < p
    ensures x < |spans| ==> spans[x].end >= p
    decreases |spans| - y
  {
    if y < |spans| && spans[y].end < p then FirstBehind(spans, y + 1, p) else y
  }

  /** Buffers of `room` bytes, the first of them at `d`. Value `a` is the first one in it,
      and the values in front of `y` are known to end in it. If the file goes on behind
      the buffer or ends with it, then
      - each value that ends in the buffer has its separator in it,
      - a value that is cut off is not the first in the buffer, nor the first of a call,
      - and it does not end with the file.
      The next buffer starts with the value that was cut off, or else behind this one. */
  predicate GoodCuts(spans: seq<Span>, room: nat, n: nat, d: nat, a: nat, y: nat)
    requires room > 0 && a <= y <= |spans|
    decreases |spans| - a, if d <= n then n - d + 1 else 0
  {
    var p := d + room;
    p > n ||
    var x := FirstBehind(spans, y, p);
    && (forall z :: y <= z < x ==> spans[z].next <= p)
    && if x < |spans| && spans[x].start < p
       then (x - a) % VECTOR_SIZE != 0 && p < n && GoodCuts(spans, room, n, spans[x].start, x, x)
       else GoodCuts(spans, room, n, p, x, x)
  }

  /** The first buffer does not end between the bracket that opens the array and what
      follows it. */
  predicate OpensInTime(s: string, e: nat) {
    var i := Indent(s, 0, |s|);
    i < e && i < |s| && s[i] == '[' ==> Indent(s, i + 1, |s|) < e
  }

  /** No buffer ends where it must not. */
  predicate NoBadCut(c: Input, capacity: nat)
    requires capacity > PADDING
  {
    var room, n := capacity - PADDING, |c.file|;
    if !c.isArray then GoodCuts(Spans(c.file, false, 0), room, n, 0, 0, 0)
    else
      match ArrayStart(c.file, n)
      case Bad(_) => false
      case At(start) => OpensInTime(c.file, Min(room, n)) && GoodCuts(Spans(c.file, true, start), room, n, 0, 0, 0)
  }

  // ---- the end of a value does not move back when more text arrives ----

  lemma {:induction false} StringGrows(s: string, i: nat, e: nat, e': nat)
    requires i <= e <= e' <= |s|
    ensures SkipString(s, i, e) <= SkipString(s, i, e')
    decreases e - i
  {
    if i < e && s[i] != '"' {
      if s[i] != '\\' {
        StringGrows(s, i + 1, e, e');
      } else if i + 2 <= e {
        StringGrows(s, i + 2, e, e');
      }
    }
  }

  lemma {:induction false} NestedGrows(s: string, i: nat, e: nat, e': nat, parents: int)
    requires i <= e <= e' <= |s| && SkipNested(s, i, e, parents) == e
    ensures SkipNested(s, i, e', parents) >= e
    decreases e - i
  {
    if i < e {
      if s[i] == '"' {
        StringGrows(s, i + 1, e, e');
        var j := SkipString(s, i + 1, e);
        if j < e {
          StringStable(s, i + 1, e, e');
          if parents != 0 {
            NestedGrows(s, j, e, e', parents);
          }
        }
      } else if s[i] == '{' || s[i] == '[' {
        NestedGrows(s, i + 1, e, e', parents + 1);
      } else if s[i] == '}' || s[i] == ']' {
        if parents != 1 {
          NestedGrows(s, i + 1, e, e', parents - 1);
        }
      } else {
        NestedGrows(s, i + 1, e, e', parents);
      }
    }
  }

  lemma {:induction false} PlainGrows(s: string, i: nat, e: nat, e': nat)
    requires i <= e <= e' <= |s| && PlainEnd(s, i, e) == e
    ensures PlainEnd(s, i, e') >= e
    decreases e - i
  {
    if i < e {
      PlainGrows(s, i + 1, e, e');
    }
  }

  /** A value that is not known to end in a buffer does not end in it. */
  lemma JsonGrows(s: string, i: nat, e: nat, e': nat)
    requires i < e <= e' <= |s| && NextJson(s, i, e) == e
    ensures NextJson(s, i, e') >= e
  {
    hide SkipNested, PlainEnd;
    if s[i] == '{' || s[i] == '[' || s[i] == '"' {
      NestedGrows(s, i, e, e', 0);
    } else {
      PlainGrows(s, i, e, e');
    }
  }

  // ---- the places of the values, seen from a buffer ----

  lemma SpansSkipBlank(s: string, isArray: bool, lo: nat, m: nat)
    requires lo <= m <= |s| && Blank(s, lo, m)
    ensures Spans(s, isArray, lo) == Spans(s, isArray, m)
  {
    IndentSplit(s, lo, m, |s|);
  }

  lemma SpansInFile(b: string, o: nat, s: string, isArray: bool, d: nat)
    requires Same(b, 0, |b|, s, d) && o <= |b|
    ensures Spans(s, isArray, o + d) == Spans(s, isArray, Indent(b, o, |b|) + d)
  {
    hide Spans;
    IndentInFile(b, o, s, d);
    IndentBlanks(s, o + d, |b| + d);
    SpansSkipBlank(s, isArray, o + d, Indent(b, o, |b|) + d);
  }

  /** In a file without errors each value is valid and has its separator. */
  lemma SpansStep(c: Input, lo: nat)
    requires InputOk(c) && lo <= |c.file| && Values(c, lo).Ok? && Indent(c.file, lo, |c.file|) < |c.file|
    ensures var x := SpanAt(c.file, c.isArray, Indent(c.file, lo, |c.file|));
      && c.valid(c.file[x.start..x.end]) && x.start < x.end && x.next <= |c.file|
      && Spans(c.file, c.isArray, lo) == [x] + Spans(c.file, c.isArray, x.next)
      && Values(c, x.next).Ok?
      && (c.isArray ==> IsSeparator(c.file[x.next - 1]))
  {
    hide Values, Indent, NextJson, Trim;
    var i := Indent(c.file, lo, |c.file|);
    var j := NextJson(c.file, i, |c.file|);
    ValuesStep(c, lo, i, j);
    if c.valid(c.file[i..j]) {
      NotEmpty(c, c.file, i, j);
    }
  }

  /** How the value at `i` of a buffer lies in the file. */
  lemma SpanInFile(c: Input, b: string, i: nat, d: nat, last: bool)
    requires Same(b, 0, |b|, c.file, d) && i < |b| && (last ==> |b| + d == |c.file|)
    ensures var x, j := SpanAt(c.file, c.isArray, i + d), NextJson(b, i, |b|);
      && (j == |b| && !last ==> x.end >= |b| + d)
      && (j < |b| || last ==> x.end == j + d)
      && (c.isArray && (j < |b| || last) ==>
            var k := Indent(b, j, |b|);
            if k < |b| then x.next == k + d + 1 else x.next > |b| + d)
  {
    hide Indent, NextJson;
    var j := NextJson(b, i, |b|);
    if j < |b| || last {
      JsonInFile(b, i, c.file, d, last);
      IndentInFile(b, j, c.file, d);
      IndentSplit(c.file, j + d, |b| + d, |c.file|);
    } else {
      SameNextJson(b, i, |b|, c.file, d);
      JsonGrows(c.file, i + d, |b| + d, |c.file|);
    }
  }

  lemma SpansStart(s: string, isArray: bool, lo: nat)
    requires lo <= |s|
    ensures var spans := Spans(s, isArray, lo);
      spans != [] ==> lo <= spans[0].start < |s| && spans[0] == SpanAt(s, isArray, Indent(s, lo, |s|))
  {
    hide Indent, NextJson;
  }

  // ---- the condition, value by value ----

  lemma CutsBlank(spans: seq<Span>, room: nat, n: nat, d: nat, a: nat, y: nat)
    requires room > 0 && a <= y <= |spans| && d + room <= n
    requires y < |spans| ==> d + room <= spans[y].start <= spans[y].end
    ensures GoodCuts(spans, room, n, d, a, y) <==> GoodCuts(spans, room, n, d + room, y, y)
  {
  }

  lemma CutsOff(spans: seq<Span>, room: nat, n: nat, d: nat, a: nat, y: nat)
    requires room > 0 && a <= y < |spans| && spans[y].start < d + room <= n && d + room <= spans[y].end
    ensures GoodCuts(spans, room, n, d, a, y) <==>
            (y - a) % VECTOR_SIZE != 0 && d + room < n && GoodCuts(spans, room, n, spans[y].start, y, y)
  {
  }

  lemma CutsInside(spans: seq<Span>, room: nat, n: nat, d: nat, a: nat, y: nat)
    requires room > 0 && a <= y < |spans| && spans[y].end < d + room <= n
    ensures GoodCuts(spans, room, n, d, a, y) <==> spans[y].next <= d + room && GoodCuts(spans, room, n, d, a, y + 1)
  {
    var p := d + room;
    assert FirstBehind(spans, y, p) == FirstBehind(spans, y + 1, p);
  }

  lemma CutsLast(spans: seq<Span>, room: nat, n: nat, d: nat, a: nat, y: nat)
    requires room > 0 && a <= y <= |spans| && d + room > n
    ensures GoodCuts(spans, room, n, d, a, y)
  {
  }

  // ---- a buffer is left without an error ----

  /** The scan stands at `offset` in a buffer, in front of value `y`, and has looked at the
      values from `a` on in it. */
  ghost predicate Stands(c: Input, capacity: nat, b: string, offset: nat, position: nat, count: nat,
                         spans: seq<Span>, a: nat, y: nat)
  {
    && InputOk(c) && capacity > PADDING && |b| + PADDING <= capacity && offset <= |b| && Window(c, b, position)
    && (|b| < capacity - PADDING ==> position == |c.file|)
    && Values(c, position - |b| + offset).Ok?
    && a <= y <= |spans| && spans[y..] == Spans(c.file, c.isArray, position - |b| + offset)
    && count <= VECTOR_SIZE && (count > 0 ==> offset > 0)
    && (count == (y - a) % VECTOR_SIZE || (count == VECTOR_SIZE && (y - a) % VECTOR_SIZE == 0))
  }

  predicate Cuts(c: Input, capacity: nat, b: string, position: nat, spans: seq<Span>, a: nat, y: nat)
    requires capacity > PADDING && a <= y <= |spans| && |b| <= position
  {
    GoodCuts(spans, capacity - PADDING, |c.file|, position - |b|, a, y)
  }

  lemma {:induction false} RefillCuts(c: Input, capacity: nat, carried: string, position: nat, spans: seq<Span>, y: nat)
    requires InputOk(c) && |carried| + PADDING < capacity && Window(c, carried, position) && position <= |c.file|
    requires Values(c, position - |carried|).Ok?
    requires y <= |spans| && spans[y..] == Spans(c.file, c.isArray, position - |carried|)
    ensures Refill(c, capacity, carried, position, false).Ok? <==>
      if position == |c.file| then carried == ""
      else GoodCuts(spans, capacity - PADDING, |c.file|, position - |carried|, y, y)
    decreases |c.file| - position, 0, 0, 0
  {
    hide Rest, Window, GoodCuts, Values, Spans;
    var request := capacity - |carried| - PADDING;
    var size := Min(request, |c.file| - position);
    if size > 0 {
      var b := carried + c.file[position..position + size];
      WindowGrows(c, carried, position, size);
      RestCuts(c, capacity, b, 0, position + size, 0, spans, y, y);
    }
  }

  /** Nothing but whitespace is left in the buffer. */
  lemma {:induction false} BlankCuts(c: Input, capacity: nat, b: string, offset: nat, position: nat, count: nat,
                                     spans: seq<Span>, a: nat, y: nat)
    requires Stands(c, capacity, b, offset, position, count, spans, a, y) && count < VECTOR_SIZE
    requires Indent(b, offset, |b|) == |b|
    ensures Rest(c, capacity, b, offset, position, |b| < capacity - PADDING, count).Ok?
       <==> Cuts(c, capacity, b, position, spans, a, y)
    decreases |c.file| - position, 1, |b| - offset, 0
  {
    hide Values, Indent, Rest, Same, Spans, GoodCuts;
    var room, n, d := capacity - PADDING, |c.file|, position - |b|;
    RestBlank(c, capacity, b, offset, position, |b| < room, count);
    SkipInFile(c, b, offset, d);
    SpansInFile(b, offset, c.file, c.isArray, d);
    if |b| < room {
      CutsLast(spans, room, n, d, a, y);
    } else {
      WindowSuffix(c, b, |b|, position);
      assert b[|b|..] == "";
      RefillCuts(c, capacity, "", position, spans, y);
      SpansStart(c.file, c.isArray, position);
      assert y < |spans| ==> spans[y] == spans[y..][0];
      CutsBlank(spans, room, n, d, a, y);
      if position == n {
        CutsLast(spans, room, n, position, y, y);
      }
    }
  }

  /** The value in front is cut off. */
  lemma {:induction false} CutOff(c: Input, capacity: nat, b: string, offset: nat, position: nat, count: nat,
                                  spans: seq<Span>, a: nat, y: nat)
    requires Stands(c, capacity, b, offset, position, count, spans, a, y) && count < VECTOR_SIZE
    requires |b| == capacity - PADDING && Indent(b, offset, |b|) < |b|
    requires NextJson(b, Indent(b, offset, |b|), |b|) == |b|
    ensures Rest(c, capacity, b, offset, position, false, count).Ok? <==> Cuts(c, capacity, b, position, spans, a, y)
    decreases |c.file| - position, 1, |b| - offset, 0
  {
    hide Values, Indent, NextJson, Trim, Rest, Refill, Same, Spans, GoodCuts;
    var room, n, d := capacity - PADDING, |c.file|, position - |b|;
    var i := Indent(b, offset, |b|);
    RestStep(c, capacity, b, offset, position, false, count, i, |b|);
    SkipInFile(c, b, offset, d);
    SpansInFile(b, offset, c.file, c.isArray, d);
    FrontSpan(c, b, offset, d, spans, y);
    SpanInFile(c, b, i, d, false);
    CutsOff(spans, room, n, d, a, y);
    if count > 0 {
      WindowSuffix(c, b, i, position);
      RefillCuts(c, capacity, b[i..], position, spans, y);
    }
  }

  /** The value in front of the scan. */
  lemma FrontSpan(c: Input, b: string, offset: nat, d: nat, spans: seq<Span>, y: nat)
    requires InputOk(c) && Same(b, 0, |b|, c.file, d) && offset <= |b| && Values(c, offset + d).Ok?
    requires Indent(b, offset, |b|) < |b| <= |c.file| - d
    requires y <= |spans| && spans[y..] == Spans(c.file, c.isArray, offset + d)
    ensures var x := SpanAt(c.file, c.isArray, Indent(b, offset, |b|) + d);
      && y < |spans| && spans[y] == x && x.next <= |c.file| && x.start < x.end
      && spans[y + 1..] == Spans(c.file, c.isArray, x.next) && Values(c, x.next).Ok?
      && c.valid(c.file[x.start..x.end]) && (c.isArray ==> IsSeparator(c.file[x.next - 1]))
  {
    hide Values, Indent, NextJson, Spans, Same;
    IndentInFile(b, offset, c.file, d);
    SpansStep(c, offset + d);
    var x := SpanAt(c.file, c.isArray, Indent(b, offset, |b|) + d);
    assert spans[y..] == [x] + Spans(c.file, c.isArray, x.next);
    assert spans[y] == spans[y..][0];
    assert spans[y + 1..] == spans[y..][1..];
  }

  /** Where the scan goes on behind a value that ends in the buffer. */
  function Behind(c: Input, b: string, i: nat): nat
    requires i < |b|
  {
    var j := NextJson(b, i, |b|);
    if c.isArray then Indent(b, j, |b|) + 1 else j
  }

  lemma RestFront(c: Input, capacity: nat, b: string, offset: nat, position: nat, count: nat, spans: seq<Span>,
                  a: nat, y: nat)
    requires Stands(c, capacity, b, offset, position, count, spans, a, y) && count < VECTOR_SIZE
    requires var i := Indent(b, offset, |b|); i < |b| && (NextJson(b, i, |b|) < |b| || |b| < capacity - PADDING)
    ensures var last, next := |b| < capacity - PADDING, Behind(c, b, Indent(b, offset, |b|));
      if next <= |b| then
        && offset < next
        && (Rest(c, capacity, b, offset, position, last, count).Ok?
            <==> Rest(c, capacity, b, Indent(b, next, |b|), position, last, count + 1).Ok?)
      else Rest(c, capacity, b, offset, position, last, count).Err?
  {
    hide Values, Indent, NextJson, Trim, Rest, Refill, Same, Spans, GoodCuts;
    var d, last := position - |b|, |b| < capacity - PADDING;
    var i := Indent(b, offset, |b|);
    var j := NextJson(b, i, |b|);
    FrontSpan(c, b, offset, d, spans, y);
    SpanInFile(c, b, i, d, last);
    SameWithin(b, 0, |b|, c.file, d, i, j);
    SameSlice(b, i, j, c.file, d);
    var k := Indent(b, j, |b|);
    if k < |b| {
      SameChar(b, c.file, d, k);
    }
    assert c.valid(b[i..j]) && (c.isArray && k < |b| ==> IsSeparator(b[k]));
    RestBehind(c, capacity, b, offset, position, last, count);
  }

  /** A valid value with its separator is left behind. */
  lemma RestBehind(c: Input, capacity: nat, b: string, offset: nat, position: nat, last: bool, count: nat)
    requires InputOk(c) && position <= |c.file| && |b| + PADDING <= capacity && offset <= |b| && capacity > PADDING
    requires count < VECTOR_SIZE && (count > 0 ==> offset > 0) && Indent(b, offset, |b|) < |b|
    requires var i := Indent(b, offset, |b|);
      var j := NextJson(b, i, |b|);
      var k := Indent(b, j, |b|);
      (j < |b| || last) && c.valid(b[i..j]) && (c.isArray && k < |b| ==> IsSeparator(b[k]))
    ensures var next := Behind(c, b, Indent(b, offset, |b|));
      if next <= |b| then
        && offset < next
        && (Rest(c, capacity, b, offset, position, last, count).Ok?
            <==> Rest(c, capacity, b, Indent(b, next, |b|), position, last, count + 1).Ok?)
      else Rest(c, capacity, b, offset, position, last, count).Err?
  {
    hide Indent, NextJson, Trim, Rest, Refill;
    var i := Indent(b, offset, |b|);
    RestStep(c, capacity, b, offset, position, last, count, i, NextJson(b, i, |b|));
  }

  lemma SameChar(b: string, s: string, d: nat, k: nat)
    requires Same(b, 0, |b|, s, d) && k < |b|
    ensures k + d < |s| && b[k] == s[k + d]
  {
  }

  lemma SpanBehind(c: Input, capacity: nat, b: string, offset: nat, position: nat, count: nat, spans: seq<Span>,
                   a: nat, y: nat)
    requires Stands(c, capacity, b, offset, position, count, spans, a, y)
    requires var i := Indent(b, offset, |b|); i < |b| && (NextJson(b, i, |b|) < |b| || |b| < capacity - PADDING)
    ensures var i := Indent(b, offset, |b|);
      && y < |spans|
      && (|b| == capacity - PADDING ==>
           spans[y].end < position && (Behind(c, b, i) <= |b| <==> spans[y].next <= position))
      && (Behind(c, b, i) <= |b| ==>
            && spans[y].next == Behind(c, b, i) + position - |b|
            && spans[y + 1..] == Spans(c.file, c.isArray, Behind(c, b, i) + position - |b|)
            && Values(c, Behind(c, b, i) + position - |b|).Ok?)
  {
    hide Values, Indent, NextJson, Same, Spans;
    var d := position - |b|;
    FrontSpan(c, b, offset, d, spans, y);
    SpanInFile(c, b, Indent(b, offset, |b|), d, |b| < capacity - PADDING);
  }

  /** The value in front ends in the buffer. */
  lemma {:induction false} ValueCuts(c: Input, capacity: nat, b: string, offset: nat, position: nat, count: nat,
                                     spans: seq<Span>, a: nat, y: nat)
    requires Stands(c, capacity, b, offset, position, count, spans, a, y) && count < VECTOR_SIZE
    requires var i := Indent(b, offset, |b|); i < |b| && (NextJson(b, i, |b|) < |b| || |b| < capacity - PADDING)
    ensures Rest(c, capacity, b, offset, position, |b| < capacity - PADDING, count).Ok?
       <==> Cuts(c, capacity, b, position, spans, a, y)
    decreases |c.file| - position, 1, |b| - offset, 0
  {
    hide Values, Indent, NextJson, Rest, Same, Spans, GoodCuts, Behind;
    var room, n, d := capacity - PADDING, |c.file|, position - |b|;
    RestFront(c, capacity, b, offset, position, count, spans, a, y);
    SpanBehind(c, capacity, b, offset, position, count, spans, a, y);
    var next := Behind(c, b, Indent(b, offset, |b|));
    if next <= |b| {
      GoOn(c, capacity, b, offset, position, count, spans, a, y, next);
      RestCuts(c, capacity, b, Indent(b, next, |b|), position, count + 1, spans, a, y + 1);
    }
    if |b| < room {
      CutsLast(spans, room, n, d, a, y);
      CutsLast(spans, room, n, d, a, y + 1);
      assert next <= |b| by { LastBehindIn(c, capacity, b, offset, position, count, spans, a, y); }
    } else {
      CutsInside(spans, room, n, d, a, y);
    }
  }

  lemma LastBehindIn(c: Input, capacity: nat, b: string, offset: nat, position: nat, count: nat, spans: seq<Span>,
                     a: nat, y: nat)
    requires Stands(c, capacity, b, offset, position, count, spans, a, y) && |b| < capacity - PADDING
    requires Indent(b, offset, |b|) < |b|
    ensures Behind(c, b, Indent(b, offset, |b|)) <= |b|
  {
    hide Values, Indent, NextJson, Same, Spans;
    FrontSpan(c, b, offset, position - |b|, spans, y);
    SpanInFile(c, b, Indent(b, offset, |b|), position - |b|, true);
  }

  lemma GoOn(c: Input, capacity: nat, b: string, offset: nat, position: nat, count: nat, spans: seq<Span>, a: nat,
             y: nat,
             next: nat)
    requires Stands(c, capacity, b, offset, position, count, spans, a, y) && count < VECTOR_SIZE && y < |spans|
    requires offset < next <= |b| && spans[y + 1..] == Spans(c.file, c.isArray, next + position - |b|)
    requires Values(c, next + position - |b|).Ok?
    ensures Indent(b, next, |b|) > offset
    ensures Stands(c, capacity, b, Indent(b, next, |b|), position, count + 1, spans, a, y + 1)
  {
    hide Values, Indent, Same, Spans;
    SkipInFile(c, b, next, position - |b|);
    SpansInFile(b, next, c.file, c.isArray, position - |b|);
    OneMore(y - a, count);
  }

  lemma OneMore(m: nat, count: nat)
    requires count < VECTOR_SIZE && count == m % VECTOR_SIZE
    ensures count + 1 == (m + 1) % VECTOR_SIZE || (count + 1 == VECTOR_SIZE && (m + 1) % VECTOR_SIZE == 0)
  {
  }

  lemma {:induction false} RestCuts(c: Input, capacity: nat, b: string, offset: nat, position: nat, count: nat,
                                    spans: seq<Span>, a: nat, y: nat)
    requires Stands(c, capacity, b, offset, position, count, spans, a, y)
    ensures Rest(c, capacity, b, offset, position, |b| < capacity - PADDING, count).Ok?
       <==> Cuts(c, capacity, b, position, spans, a, y)
    decreases |c.file| - position, 1, |b| - offset, if count == VECTOR_SIZE then 2 else 1
  {
    hide Values, Indent, NextJson, Trim, Refill, Same, Spans, GoodCuts;
    var e, last := |b|, |b| < capacity - PADDING;
    if count == VECTOR_SIZE {
      RestCuts(c, capacity, b, offset, position, 0, spans, a, y);
    } else {
      var i := Indent(b, offset, e);
      if i == e {
        BlankCuts(c, capacity, b, offset, position, count, spans, a, y);
      } else if NextJson(b, i, e) == e && !last {
        CutOff(c, capacity, b, offset, position, count, spans, a, y);
      } else {
        ValueCuts(c, capacity, b, offset, position, count, spans, a, y);
      }
    }
  }

  // ---- the whole scan ----

  /** Given a file with a good start, its first part has one unless it ends behind the
      bracket. */
  lemma OpensIff(s: string, e: nat)
    requires e <= |s| && ArrayStart(s, |s|).At?
    ensures OpensInTime(s, e) <==> ArrayStart(s, e).At?
  {
    hide Indent;
    var n := |s|;
    IndentSplit(s, 0, e, n);
    var i := Indent(s, 0, e);
    if i < e {
      IndentSplit(s, i + 1, e, n);
      var k := Indent(s, i + 1, e);
      if k < e {
        IndentSplit(s, k + 1, e, n);
      }
    }
  }

  lemma SameSpans(s: string, e: nat)
    requires e <= |s| && ArrayStart(s, e).At? && ArrayStart(s, |s|).At?
    requires (ArrayStart(s, e) == At(e) ==> Blank(s, e, |s|))
    ensures Spans(s, true, ArrayStart(s, e).position) == Spans(s, true, ArrayStart(s, |s|).position)
  {
    hide Indent, Spans;
    var n := |s|;
    IndentSplit(s, 0, e, n);
    var i := Indent(s, 0, e);
    if i < e {
      IndentSplit(s, i + 1, e, n);
      var k := Indent(s, i + 1, e);
      if k < e {
        IndentSplit(s, k + 1, e, n);
      }
    }
    if ArrayStart(s, e) == At(e) {
      SpansSkipBlank(s, true, e, n);
    }
  }

  lemma FirstBuffer(c: Input, capacity: nat, start: nat, spans: seq<Span>)
    requires InputOk(c) && capacity > PADDING && start <= Min(capacity - PADDING, |c.file|)
    requires Values(c, start).Ok? && spans == Spans(c.file, c.isArray, start)
    ensures var size := Min(capacity - PADDING, |c.file|);
      Rest(c, capacity, c.file[..size], start, size, size < capacity - PADDING, 0).Ok?
      <==> GoodCuts(spans, capacity - PADDING, |c.file|, 0, 0, 0)
  {
    hide Rest, Values, Spans, GoodCuts;
    var size := Min(capacity - PADDING, |c.file|);
    assert Window(c, c.file[..size], size);
    assert spans[0..] == spans;
    RestCuts(c, capacity, c.file[..size], start, size, 0, spans, 0, 0);
  }

  lemma NoFile(c: Input, capacity: nat)
    requires capacity > PADDING && c.file == "" && InputOk(c) && OnePass(c).Ok?
    ensures NoBadCut(c, capacity) && Buffered(c, capacity).Ok?
  {
    hide Values, Spans;
    CutsLast(Spans(c.file, c.isArray, 0), capacity - PADDING, 0, 0, 0, 0);
  }

  /** Of a file without errors, the buffered scan raises no error if and only if no buffer
      ends where it must not. */
  lemma ErrorsAreBadCuts(c: Input, capacity: nat)
    requires InputOk(c) && capacity > PADDING && OnePass(c).Ok? && !StartsShort(c, capacity)
    ensures Buffered(c, capacity).Ok? <==> NoBadCut(c, capacity)
  {
    hide Rest, Values, ArrayStart, Spans, GoodCuts, OpensInTime;
    var size := Min(capacity - PADDING, |c.file|);
    var b := c.file[..size];
    if c.file == "" {
      NoFile(c, capacity);
    } else if !c.isArray {
      FirstBuffer(c, capacity, 0, Spans(c.file, false, 0));
    } else {
      assert Window(c, b, size);
      SameStart(b, size, c.file);
      OpensIff(c.file, size);
      if ArrayStart(c.file, size).At? {
        StartAgrees(c, size);
        SameSpans(c.file, size);
        var start := ArrayStart(c.file, size).position;
        FirstBuffer(c, capacity, start, Spans(c.file, true, start));
      }
    }
  }

  /** The buffered scan of a file without errors gives its values if and only if the array
      starts in the first buffer and no buffer ends where it must not. */
  lemma BufferedIff(c: Input, capacity: nat)
    requires InputOk(c) && capacity > PADDING && OnePass(c).Ok?
    ensures Buffered(c, capacity) == OnePass(c) <==> !StartsShort(c, capacity) && NoBadCut(c, capacity)
  {
    hide Buffered, OnePass, StartsShort, NoBadCut;
    if Buffered(c, capacity).Ok? {
      BufferedIsOnePass(c, capacity);
    }
    if !StartsShort(c, capacity) {
      ErrorsAreBadCuts(c, capacity);
    }
  }

  /** Values one after the other, exactly as many bytes as one buffer takes: the scan
      succeeds if and only if each of them is valid and ends before the file does. So it
      fails whenever there is no whitespace behind the last one. */
  lemma ExactFit(c: Input, capacity: nat)
    requires InputOk(c) && !c.isArray && capacity > PADDING && |c.file| == capacity - PADDING
    ensures Buffered(c, capacity).Ok? <==>
      OnePass(c).Ok? && forall x :: x in Spans(c.file, false, 0) ==> x.end < |c.file|
  {
    hide Buffered, OnePass, Spans;
    var spans, n := Spans(c.file, false, 0), |c.file|;
    if Buffered(c, capacity).Ok? {
      BufferedIsOnePass(c, capacity);
    }
    if OnePass(c).Ok? {
      ErrorsAreBadCuts(c, capacity);
      ExactCuts(c.file, spans);
    }
  }

  lemma ExactCuts(s: string, spans: seq<Span>)
    requires |s| > 0 && spans == Spans(s, false, 0)
    ensures GoodCuts(spans, |s|, |s|, 0, 0, 0) <==> forall x :: x in spans ==> x.end < |s|
  {
    hide Spans;
    var n := |s|;
    var x := FirstBehind(spans, 0, n);
    forall z | 0 <= z < |spans|
      ensures spans[z].start < n && spans[z].next == spans[z].end
    {
      PlainSpans(s, 0, z);
    }
    CutsLast(spans, n, n, n, |spans|, |spans|);
    if x < |spans| {
      assert spans[x] in spans;
    }
  }

  lemma {:induction false} PlainSpans(s: string, lo: nat, z: nat)
    requires lo <= |s| && z < |Spans(s, false, lo)|
    ensures var x := Spans(s, false, lo)[z]; x.start < |s| && x.next == x.end
    decreases z
  {
    hide Indent, NextJson;
    if z > 0 {
      var x := SpanAt(s, false, Indent(s, lo, |s|));
      PlainSpans(s, x.next, z - 1);
    }
  }

  function Blanks(n: nat): string { seq(n, _ => ' ') }

  lemma {:induction false} SpacesBlank(s: string, i: nat, k: nat)
    requires i <= k <= |s| && forall z :: i <= z < k ==> s[z] == ' '
    ensures Blank(s, i, k)
    decreases k - i
  {
    if i < k {
      SpacesBlank(s, i + 1, k);
    }
  }

  /** In buffers of every size: the end of the buffer falls on the end of the only value. */
  lemma ExactFitFails(capacity: nat, valid: string -> bool)
    requires capacity >= PADDING + 2 && !valid("") && valid("{" + Blanks(capacity - PADDING - 2) + "}")
    ensures var c := Input("{" + Blanks(capacity - PADDING - 2) + "}", false, valid);
      OnePass(c).Ok? && Buffered(c, capacity) == Err(ObjectTooLarge)
  {
    hide Values, Rest, NextJson, Indent;
    var c := Input("{" + Blanks(capacity - PADDING - 2) + "}", false, valid);
    var f, n := c.file, |c.file|;
    BlankObject(f);
    assert f[0..n] == f && f[..n] == f;
    ValuesStep(c, 0, 0, n);
    NoValues(c);
    RestStep(c, capacity, f, 0, n, false, 0, 0, n);
  }

  lemma BlankObject(f: string)
    requires |f| >= 2 && f == "{" + Blanks(|f| - 2) + "}"
    ensures Indent(f, 0, |f|) == 0 && NextJson(f, 0, |f|) == |f|
  {
    var n := |f|;
    SpacesBlank(f, 1, n - 1);
    NestedSpaces(f, 1, n - 1, n, 1);
  }

  /** In buffers of every size: the end of the buffer falls between a value and its
      separator. */
  lemma LateSeparatorFails(capacity: nat, valid: string -> bool)
    requires capacity >= PADDING + 4 && !valid("") && valid("{}")
    ensures var c := Input("[{}" + Blanks(capacity - PADDING - 3) + ",{}]", true, valid);
      OnePass(c).Ok? && Buffered(c, capacity) == Err(UnexpectedCharacter)
  {
    var c := Input("[{}" + Blanks(capacity - PADDING - 3) + ",{}]", true, valid);
    TwoObjects(c, capacity - PADDING);
    CutBeforeSeparator(c, capacity);
  }

  lemma TwoObjects(c: Input, room: nat)
    requires InputOk(c) && c.isArray && c.valid("{}") && room > 3 && c.file == "[{}" + Blanks(room - 3) + ",{}]"
    ensures OnePass(c).Ok?
  {
    hide Values, NextJson, Indent, ArrayStart;
    var f, n := c.file, |c.file|;
    FirstObject(f, room);
    EmptyObject(f, room + 1);
    ValuesStep(c, 1, 1, 3);
    IndentSplit(f, 3, room, n);
    IndentAtStart(f, room);
    ValuesStep(c, room + 1, room + 1, room + 3);
    IndentAtStart(f, room + 3);
    NoValues(c);
  }

  lemma CutBeforeSeparator(c: Input, capacity: nat)
    requires InputOk(c) && c.isArray && c.valid("{}") && capacity > PADDING + 3
    requires c.file == "[{}" + Blanks(capacity - PADDING - 3) + ",{}]"
    ensures Buffered(c, capacity) == Err(UnexpectedCharacter)
  {
    hide Rest, NextJson, Indent, ArrayStart;
    var room := capacity - PADDING;
    var b := c.file[..room];
    FirstObject(b, room);
    RestStep(c, capacity, b, 1, room, false, 0, 1, 3);
  }

  /** The text of an array up to the end of a buffer. */
  lemma FirstObject(f: string, room: nat)
    requires 3 < room <= |f| && f[..room] == "[{}" + Blanks(room - 3)
    ensures ArrayStart(f, |f|) == At(1) && Indent(f, 1, |f|) == 1 && NextJson(f, 1, |f|) == 3
    ensures f[1..3] == "{}" && Blank(f, 3, room)
  {
    hide NextJson;
    assert f[0] == f[..room][0] && f[1] == f[..room][1] && f[2] == f[..room][2];
    EmptyObject(f, 1);
    forall z | 3 <= z < room
      ensures f[z] == ' '
    {
      assert f[z] == f[..room][z];
    }
    SpacesBlank(f, 3, room);
  }

  lemma EmptyObject(f: string, i: nat)
    requires i + 1 < |f| && f[i] == '{' && f[i + 1] == '}'
    ensures Indent(f, i, |f|) == i && NextJson(f, i, |f|) == i + 2 && f[i..i + 2] == "{}"
  {
    NestedStep(f, i, |f|, 0);
    NestedStep(f, i + 1, |f|, 1);
  }
}
