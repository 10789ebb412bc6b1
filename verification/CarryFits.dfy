/** Files that the scan with a carried remainder reads, however its buffers fall: no value
    fills a buffer, and no buffer holds more values than one call hands out. */
module CarryFits {
  import opened Arithmetic
  import opened JsonText
  import opened JsonValues
  import opened JsonSyntax
  import opened NdjsonLines
  import opened NdjsonBuffers
  import opened CarryScan
  import opened CarryCuts
  import opened CarryMeaning

  /** Each value ends less than a buffer behind the one before it, and in front of the end of
      the file; as many values as a call hands out start a buffer apart; and in an array the
      separator follows at once. */
  predicate Small(c: Input, room: nat, at: seq<Place>) {
    && (at != [] ==> at[0].end < room)
    && (forall i :: 0 < i < |at| ==> at[i].end < at[i - 1].end + room)
    && (forall i :: 0 <= i < |at| ==> at[i].end < |c.file|)
    && (forall i, j :: 0 <= i < j < |at| && i + 2048 <= j ==> at[i].start + room <= at[j].start)
    && (c.isArray ==> forall i :: 0 <= i < |at| ==> at[i].next == at[i].end + 1)
  }

  // ---- the places of the values ----

  function SpansOf(at: seq<Place>): (spans: seq<Span>)
    ensures |spans| == |at|
    ensures forall i :: 0 <= i < |at| ==> spans[i] == Span(at[i].start, at[i].end, at[i].next)
  {
    if at == [] then [] else [Span(at[0].start, at[0].end, at[0].next)] + SpansOf(at[1..])
  }

  lemma {:induction false} SpansAre(c: Input, lo: nat, at: seq<Place>, units: seq<string>)
    requires lo <= |c.file| && AreValues(c, lo, at, units)
    ensures Spans(c.file, c.isArray, lo) == SpansOf(at)
    decreases |at|
  {
    hide Indent, NextJson, Ends, White;
    AllBlank(c.file, lo);
    if at != [] {
      var s, p := c.file, at[0];
      StartIs(s, lo, p.start);
      OnlyEnd(s, p.start, |s|, p.end);
      if c.isArray {
        SeparatorsAre(s[p.next - 1]);
        StartIs(s, p.end, p.next - 1);
      }
      SpansAre(c, p.next, at[1..], units[1..]);
    }
  }

  predicate InOrder(at: seq<Place>) {
    && (forall i :: 0 <= i < |at| ==> at[i].start <= at[i].end <= at[i].next)
    && (forall i, j :: 0 <= i < j < |at| ==> at[i].next <= at[j].start)
  }

  lemma {:induction false} PlacesInOrder(c: Input, lo: nat, at: seq<Place>, units: seq<string>)
    requires lo <= |c.file| && AreValues(c, lo, at, units)
    ensures InOrder(at) && forall i :: 0 <= i < |at| ==> lo <= at[i].start
    decreases |at|
  {
    hide IsValue;
    if at != [] {
      PlaceAhead(c, lo, at[0]);
      PlacesInOrder(c, at[0].next, at[1..], units[1..]);
      forall i | 1 <= i < |at|
        ensures at[0].next <= at[i].start && at[i] == at[1..][i - 1]
      {
      }
    }
  }

  // ---- no buffer ends where it must not ----

  lemma CutOff(spans: seq<Span>, room: nat, n: nat, d: nat, a: nat, x: nat)
    requires room > 0 && a < x < |spans| && x == FirstBehind(spans, a, d + room) && d + room < n
    requires (forall z :: a <= z < x ==> spans[z].next <= d + room) && spans[x].start < d + room
    requires (x - a) % VECTOR_SIZE != 0 && GoodCuts(spans, room, n, spans[x].start, x, x)
    ensures GoodCuts(spans, room, n, d, a, a)
  {
  }

  lemma NotCutOff(spans: seq<Span>, room: nat, n: nat, d: nat, a: nat, x: nat)
    requires room > 0 && a <= x <= |spans| && x == FirstBehind(spans, a, d + room) && d + room <= n
    requires forall z :: a <= z < x ==> spans[z].next <= d + room
    requires x < |spans| ==> spans[x].start >= d + room
    requires GoodCuts(spans, room, n, d + room, x, x)
    ensures GoodCuts(spans, room, n, d, a, a)
  {
  }

  lemma BehindTheFile(spans: seq<Span>, room: nat, n: nat, d: nat, a: nat)
    requires room > 0 && a <= |spans| && d + room > n
    ensures GoodCuts(spans, room, n, d, a, a)
  {
  }

  lemma {:induction false} SmallCuts(c: Input, room: nat, at: seq<Place>, d: nat, a: nat)
    requires room > 0 && a <= |at| && Small(c, room, at) && InOrder(at)
    requires !c.isArray ==> forall i :: 0 <= i < |at| ==> at[i].next == at[i].end
    requires a < |at| ==> d <= at[a].start && at[a].end < d + room
    ensures GoodCuts(SpansOf(at), room, |c.file|, d, a, a)
    decreases |at| - a, if d <= |c.file| then |c.file| - d + 1 else 0
  {
    hide GoodCuts, Small, InOrder, SpansOf;
    var spans, n, p := SpansOf(at), |c.file|, d + room;
    if p > n {
      BehindTheFile(spans, room, n, d, a);
    } else {
      var x := FirstBehind(spans, a, p);
      assert a < |at| ==> x > a;
      forall z | a <= z < x
        ensures spans[z].next <= p
      {
        NextAtOnce(c, room, at, z);
      }
      if x < |at| && at[x].start < p {
        CutInside(c, room, at, d, a, x);
        SmallCuts(c, room, at, at[x].start, x);
        CutOff(spans, room, n, d, a, x);
      } else {
        if x < |at| {
          assert spans[x - 1].end < p;
          NextBuffer(c, room, at, p, x);
        }
        SmallCuts(c, room, at, p, x);
        NotCutOff(spans, room, n, d, a, x);
      }
    }
  }

  lemma NextAtOnce(c: Input, room: nat, at: seq<Place>, z: nat)
    requires Small(c, room, at) && z < |at| && (!c.isArray ==> at[z].next == at[z].end)
    ensures at[z].next <= at[z].end + 1
  {
  }

  lemma NextBuffer(c: Input, room: nat, at: seq<Place>, p: nat, x: nat)
    requires Small(c, room, at) && x <= |at| && (x > 0 ==> at[x - 1].end < p)
    ensures x < |at| ==> at[x].end < p + room
  {
  }

  /** A value that is cut off is neither the first of its buffer nor the first of a call. */
  lemma CutInside(c: Input, room: nat, at: seq<Place>, d: nat, a: nat, x: nat)
    requires room > 0 && a < x < |at| && Small(c, room, at) && InOrder(at)
    requires d <= at[a].start && at[x].start < d + room <= at[x].end
    ensures (x - a) % VECTOR_SIZE != 0 && d + room < |c.file|
    ensures at[x].end < at[x].start + room
  {
    assert at[x].end < at[x - 1].end + room;
  }

  // ---- the theorem ----

  /** Such a file of values one after the other is read without an error. */
  lemma SmallValuesFit(c: Input, capacity: nat, at: seq<Place>, units: seq<string>)
    requires InputOk(c) && capacity > PADDING && !c.isArray
    requires AreValues(c, 0, at, units) && Small(c, capacity - PADDING, at)
    ensures Buffered(c, capacity) == Ok(units)
  {
    hide Buffered, OnePass, Spans, GoodCuts, AreValues;
    OnePassIs(c, units);
    PlacesInOrder(c, 0, at, units);
    SpansAre(c, 0, at, units);
    PlainNext(c, 0, at, units);
    SmallCuts(c, capacity - PADDING, at, 0, 0);
    BufferedIff(c, capacity);
  }

  lemma {:induction false} PlainNext(c: Input, lo: nat, at: seq<Place>, units: seq<string>)
    requires lo <= |c.file| && AreValues(c, lo, at, units) && !c.isArray
    ensures forall i :: 0 <= i < |at| ==> at[i].next == at[i].end
    decreases |at|
  {
    if at != [] {
      PlainNext(c, at[0].next, at[1..], units[1..]);
      forall i | 1 <= i < |at|
        ensures at[i].next == at[i].end
      {
        assert at[i] == at[1..][i - 1];
      }
    }
  }

  /** And so is such an array. */
  lemma SmallArrayFits(c: Input, capacity: nat, i: nat, k: nat, at: seq<Place>, units: seq<string>)
    requires InputOk(c) && capacity > PADDING && c.isArray && HasElement(c.file, i, k)
    requires AreValues(c, k, at, units) && Small(c, capacity - PADDING, at)
    ensures Buffered(c, capacity) == Ok(units)
  {
    hide Buffered, OnePass, Spans, GoodCuts, ArrayStart, AreValues, White;
    assert ValuesFrom(c, k, units);
    OnePassIs(c, units);
    PlacesInOrder(c, k, at, units);
    SpansAre(c, k, at, units);
    FirstElement(c, k, at, units);
    SmallCuts(c, capacity - PADDING, at, 0, 0);
    ArrayStartIs(c.file);
    var e := Min(capacity - PADDING, |c.file|);
    OpenedIn(c.file, i, k, e);
    OpenedIn(c.file, i, k, |c.file|);
    BufferedIff(c, capacity);
  }

  lemma FirstElement(c: Input, k: nat, at: seq<Place>, units: seq<string>)
    requires k < |c.file| && !White(c.file[k]) && AreValues(c, k, at, units)
    ensures at != [] && at[0].start == k
  {
    hide White, Ends;
  }

  lemma OpenedIn(s: string, i: nat, k: nat, e: nat)
    requires HasElement(s, i, k) && k < e <= |s|
    ensures ArrayStart(s, e) == At(k) && OpensInTime(s, e)
  {
    hide Indent, White;
    BracketNotWhite(s[i]);
    IndentIs(s, 0, e);
    IndentIs(s, i + 1, e);
    StartIs(s, 0, i);
    StartIs(s, i + 1, k);
  }
}
