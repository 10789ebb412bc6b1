/** What the scan in one pass accepts and delivers, said by the characters of the file. */
module CarryMeaning {
  import opened JsonText
  import opened JsonValues
  import opened JsonSyntax
  import opened CarryScan

  /** Where a value starts, where its text and the value itself end, and where the text goes
      on behind it. */
  datatype Place = Place(start: nat, stop: nat, end: nat, next: nat)

  /** The first thing from `lo` on is a valid value. In an array a comma or a closing bracket
      follows it. */
  predicate IsValue(c: Input, lo: nat, p: Place) {
    var s, n := c.file, |c.file|;
    && lo <= p.start < p.stop <= p.end <= p.next <= n
    && AllWhite(s, lo, p.start) && !White(s[p.start])
    && Ends(s, p.start, n, p.end) && c.valid(s[p.start..p.end])
    && !White(s[p.stop - 1]) && AllWhite(s, p.stop, p.end)
    && if c.isArray then p.end < p.next && AllWhite(s, p.end, p.next - 1) && s[p.next - 1] in {',', ']'}
       else p.next == p.end
  }

  /** From `lo` on there is one value behind the other up to the end, and these are their
      texts. */
  predicate AreValues(c: Input, lo: nat, at: seq<Place>, units: seq<string>)
    requires lo <= |c.file|
    decreases |at|
  {
    if at == [] then units == [] && AllWhite(c.file, lo, |c.file|)
    else
      && IsValue(c, lo, at[0]) && units != [] && units[0] == c.file[at[0].start..at[0].stop]
      && AreValues(c, at[0].next, at[1..], units[1..])
  }

  ghost predicate ValuesFrom(c: Input, lo: nat, units: seq<string>)
    requires lo <= |c.file|
  {
    exists at :: AreValues(c, lo, at, units)
  }

  /** The file opens an array at `i`: a bracket behind nothing but whitespace. */
  predicate OpensArray(s: string, i: nat) {
    i < |s| && s[i] == '[' && AllWhite(s, 0, i)
  }

  /** The array is closed at `k`, right behind the bracket that opens it at `i`, and there is
      nothing else in the file. */
  predicate IsEmptyArray(s: string, i: nat, k: nat) {
    OpensArray(s, i) && i < k < |s| && AllWhite(s, i + 1, k) && s[k] == ']' && AllWhite(s, k + 1, |s|)
  }

  /** The array is closed in the same way, but there is something behind it. */
  predicate ClosesEarly(s: string, i: nat, k: nat) {
    OpensArray(s, i) && i < k < |s| && AllWhite(s, i + 1, k) && s[k] == ']' && !AllWhite(s, k + 1, |s|)
  }

  /** There is something else than a closing bracket behind the opening one. */
  predicate HasElement(s: string, i: nat, k: nat) {
    OpensArray(s, i) && i < k < |s| && AllWhite(s, i + 1, k) && !White(s[k]) && s[k] != ']'
  }

  /** The file is read without an error, and these are its units. */
  ghost predicate Accepted(c: Input, units: seq<string>) {
    if !c.isArray then ValuesFrom(c, 0, units)
    else
      || (AllWhite(c.file, 0, |c.file|) && units == [])
      || (exists i, k :: IsEmptyArray(c.file, i, k) && units == [])
      || (exists i, k :: HasElement(c.file, i, k) && ValuesFrom(c, k, units))
  }

  // ---- one value ----

  lemma StartIs(s: string, lo: nat, i: nat)
    requires lo <= i < |s| && AllWhite(s, lo, i) && !White(s[i])
    ensures Indent(s, lo, |s|) == i
  {
    hide Indent, White;
    IndentIs(s, lo, |s|);
  }

  lemma AllBlank(s: string, lo: nat)
    requires lo <= |s|
    ensures Indent(s, lo, |s|) == |s| <==> AllWhite(s, lo, |s|)
  {
    hide Indent, White;
    IndentIs(s, lo, |s|);
  }

  lemma TextIs(s: string, i: nat, stop: nat, j: nat)
    requires i < stop <= j <= |s| && !White(s[i]) && !White(s[stop - 1]) && AllWhite(s, stop, j)
    ensures Trim(s, i, j) == s[i..stop]
  {
    hide White, Trim;
    var a, b := TrimIs(s, i, j);
    assert a == i && b == stop;
  }

  /** A value of the scan is one of these. */
  lemma ValueIs(c: Input, lo: nat) returns (p: Place)
    requires InputOk(c) && lo <= |c.file| && Values(c, lo).Ok? && Indent(c.file, lo, |c.file|) < |c.file|
    ensures IsValue(c, lo, p)
    ensures Values(c, lo) == Prepend([c.file[p.start..p.stop]], Values(c, p.next))
  {
    hide Indent, NextJson, Trim, Values, White, Ends, Prepend;
    var s, n := c.file, |c.file|;
    var i := Indent(s, lo, n);
    var j := NextJson(s, i, n);
    var k := Indent(s, j, n);
    IndentIs(s, lo, n);
    IndentIs(s, j, n);
    ValuesStep(c, lo, i, j);
    ValueEndIs(s, i, n);
    NotEmpty(c, s, i, j) by { OnlyIfValid(c, lo, i, j); }
    var a, b := TrimIs(s, i, j);
    assert a == i;
    p := Place(i, b, j, if c.isArray then k + 1 else j);
    if c.isArray {
      OnlyIfSeparated(c, lo, i, j, k);
    }
  }

  lemma OnlyIfValid(c: Input, lo: nat, i: nat, j: nat)
    requires InputOk(c) && lo <= i < |c.file| && i == Indent(c.file, lo, |c.file|) && j == NextJson(c.file, i, |c.file|)
    requires Values(c, lo).Ok?
    ensures c.valid(c.file[i..j])
  {
  }

  lemma OnlyIfSeparated(c: Input, lo: nat, i: nat, j: nat, k: nat)
    requires InputOk(c) && lo <= i < |c.file| && i == Indent(c.file, lo, |c.file|) && j == NextJson(c.file, i, |c.file|)
    requires Values(c, lo).Ok? && k == Indent(c.file, j, |c.file|) && c.isArray
    ensures k < |c.file| && c.file[k] in {',', ']'}
  {
  }

  lemma {:induction false} ValuesFound(c: Input, lo: nat) returns (at: seq<Place>)
    requires InputOk(c) && lo <= |c.file| && Values(c, lo).Ok?
    ensures AreValues(c, lo, at, Values(c, lo).units)
    decreases |c.file| - lo
  {
    hide Indent, IsValue, Values;
    AllBlank(c.file, lo);
    if Indent(c.file, lo, |c.file|) == |c.file| {
      at := [];
      NoneFound(c, lo);
    } else {
      var p := ValueIs(c, lo);
      PlaceAhead(c, lo, p);
      var rest := ValuesFound(c, p.next);
      at := [p] + rest;
      assert at[1..] == rest;
      assert Values(c, lo).units[1..] == Values(c, p.next).units;
    }
  }

  lemma NoneFound(c: Input, lo: nat)
    requires InputOk(c) && lo <= |c.file| && Indent(c.file, lo, |c.file|) == |c.file|
    ensures Values(c, lo) == Ok([])
  {
  }

  lemma PlaceAhead(c: Input, lo: nat, p: Place)
    requires IsValue(c, lo, p)
    ensures lo <= p.start < p.stop <= p.end <= p.next <= |c.file| && lo < p.next
  {
  }

  lemma {:induction false} ValuesDelivered(c: Input, lo: nat, at: seq<Place>, units: seq<string>)
    requires InputOk(c) && lo <= |c.file| && AreValues(c, lo, at, units)
    ensures Values(c, lo) == Ok(units)
    decreases |at|
  {
    hide Indent, IsValue, Values;
    if at == [] {
      AllBlank(c.file, lo);
      NoneFound(c, lo);
    } else {
      PlaceAhead(c, lo, at[0]);
      ValuesDelivered(c, at[0].next, at[1..], units[1..]);
      OneDelivered(c, lo, at[0]);
      assert [units[0]] + units[1..] == units;
    }
  }

  lemma OneDelivered(c: Input, lo: nat, p: Place)
    requires InputOk(c) && lo <= |c.file| && IsValue(c, lo, p)
    ensures p.start < p.stop <= |c.file| && p.next <= |c.file|
    ensures Values(c, lo) == Prepend([c.file[p.start..p.stop]], Values(c, p.next))
  {
    hide Indent, NextJson, Trim, Values, White, Ends, Prepend;
    var s, n := c.file, |c.file|;
    StartIs(s, lo, p.start);
    OnlyEnd(s, p.start, n, p.end);
    TextIs(s, p.start, p.stop, p.end);
    ValuesStep(c, lo, p.start, p.end);
    if c.isArray {
      SeparatorsAre(s[p.next - 1]);
      StartIs(s, p.end, p.next - 1);
    }
  }

  lemma SeparatorsAre(ch: char)
    ensures IsSeparator(ch) <==> ch in {',', ']'}
    ensures ch in {',', ']'} ==> !White(ch)
  {
  }

  /** The scan gives these units if and only if they are the texts of the values. */
  lemma ValuesAre(c: Input, lo: nat, units: seq<string>)
    requires InputOk(c) && lo <= |c.file|
    ensures Values(c, lo) == Ok(units) <==> ValuesFrom(c, lo, units)
  {
    hide Values, AreValues;
    if Values(c, lo).Ok? {
      var at := ValuesFound(c, lo);
    }
    if ValuesFrom(c, lo, units) {
      var at :| AreValues(c, lo, at, units);
      ValuesDelivered(c, lo, at, units);
    }
  }

  // ---- what is wrong with a file that is not read ----

  /** From `lo` on there are these values, up to `hi`. */
  predicate ValuesUpTo(c: Input, lo: nat, at: seq<Place>, hi: nat)
    decreases |at|
  {
    if at == [] then lo == hi else IsValue(c, lo, at[0]) && ValuesUpTo(c, at[0].next, at[1..], hi)
  }

  /** The next value starts at `i` and ends at `j`, and is not valid; or it is, but neither a
      comma nor a closing bracket follows. */
  predicate Wrong(c: Input, lo: nat, i: nat, j: nat, e: Error) {
    var s, n := c.file, |c.file|;
    && lo <= i < n && i <= j <= n && AllWhite(s, lo, i) && !White(s[i]) && Ends(s, i, n, j)
    && if !c.valid(s[i..j]) then e == InvalidJson
       else e == UnexpectedCharacter && c.isArray && Unseparated(s, j)
  }

  /** Behind the whitespace from `j` on there is no separator. */
  predicate Unseparated(s: string, j: nat)
    requires j <= |s|
  {
    forall k :: j <= k < |s| && AllWhite(s, j, k) ==> s[k] !in {',', ']'}
  }

  ghost predicate FailsWith(c: Input, lo: nat, e: Error) {
    exists at, hi, i, j :: ValuesUpTo(c, lo, at, hi) && Wrong(c, hi, i, j, e)
  }

  lemma {:induction false} ErrorFound(c: Input, lo: nat) returns (at: seq<Place>, hi: nat, i: nat, j: nat)
    requires InputOk(c) && lo <= |c.file| && Values(c, lo).Err?
    ensures ValuesUpTo(c, lo, at, hi) && Wrong(c, hi, i, j, Values(c, lo).error)
    decreases |c.file| - lo
  {
    hide Indent, NextJson, Trim, Values, White, Ends, IsValue, Wrong;
    var s, n := c.file, |c.file|;
    i := Indent(s, lo, n);
    if i == n {
      NoneFound(c, lo);
      assert false;
    }
    j := NextJson(s, i, n);
    ValuesStep(c, lo, i, j);
    at, hi := [], lo;
    if !c.valid(s[i..j]) || (c.isArray && (Indent(s, j, n) == n || !IsSeparator(s[Indent(s, j, n)]))) {
      WrongHere(c, lo, i, j);
    } else {
      var p := NextPlace(c, lo, i, j);
      PlaceAhead(c, lo, p);
      OneDelivered(c, lo, p);
      var rest: seq<Place>;
      rest, hi, i, j := ErrorFound(c, p.next);
      at := [p] + rest;
      assert at[1..] == rest;
    }
  }

  lemma WrongHere(c: Input, lo: nat, i: nat, j: nat)
    requires InputOk(c) && lo <= i < |c.file| && i == Indent(c.file, lo, |c.file|) && j == NextJson(c.file, i, |c.file|)
    requires !c.valid(c.file[i..j]) || (c.isArray &&
      (Indent(c.file, j, |c.file|) == |c.file| || !IsSeparator(c.file[Indent(c.file, j, |c.file|)])))
    ensures Values(c, lo).Err? && Wrong(c, lo, i, j, Values(c, lo).error)
  {
    hide Indent, NextJson, White, Ends, Values;
    var s, n := c.file, |c.file|;
    ValuesStep(c, lo, i, j);
    IndentIs(s, lo, n);
    ValueEndIs(s, i, n);
    IndentIs(s, j, n);
    forall k | j <= k < n && AllWhite(s, j, k) && c.valid(s[i..j])
      ensures s[k] !in {',', ']'}
    {
      SeparatorsAre(s[k]);
    }
  }

  /** The place of a value that is followed by what must follow it. */
  lemma NextPlace(c: Input, lo: nat, i: nat, j: nat) returns (p: Place)
    requires InputOk(c) && lo <= i < |c.file| && i == Indent(c.file, lo, |c.file|) && j == NextJson(c.file, i, |c.file|)
    requires c.valid(c.file[i..j])
    requires c.isArray ==>
      Indent(c.file, j, |c.file|) < |c.file| && IsSeparator(c.file[Indent(c.file, j, |c.file|)])
    ensures IsValue(c, lo, p)
  {
    hide Indent, NextJson, Trim, White, Ends;
    var s, n := c.file, |c.file|;
    IndentIs(s, lo, n);
    IndentIs(s, j, n);
    ValueEndIs(s, i, n);
    NotEmpty(c, s, i, j);
    var a, b := TrimIs(s, i, j);
    p := Place(i, b, j, if c.isArray then Indent(s, j, n) + 1 else j);
  }

  lemma {:induction false} ErrorRaised(c: Input, lo: nat, at: seq<Place>, hi: nat, i: nat, j: nat, e: Error)
    requires InputOk(c) && lo <= |c.file| && ValuesUpTo(c, lo, at, hi) && Wrong(c, hi, i, j, e)
    ensures Values(c, lo) == Err(e)
    decreases |at|
  {
    hide Indent, NextJson, Values, White, Ends, IsValue;
    if at == [] {
      var s, n := c.file, |c.file|;
      StartIs(s, lo, i);
      OnlyEnd(s, i, n, j);
      ValuesStep(c, lo, i, j);
      if c.valid(s[i..j]) {
        IndentIs(s, j, n);
        if Indent(s, j, n) < n {
          SeparatorsAre(s[Indent(s, j, n)]);
        }
      }
    } else {
      PlaceAhead(c, lo, at[0]);
      OneDelivered(c, lo, at[0]);
      ErrorRaised(c, at[0].next, at[1..], hi, i, j, e);
    }
  }

  /** The scan stops with this error if and only if this is wrong with the first value that
      is not in order. */
  lemma ErrorsAre(c: Input, lo: nat, e: Error)
    requires InputOk(c) && lo <= |c.file|
    ensures Values(c, lo) == Err(e) <==> FailsWith(c, lo, e)
  {
    hide Values, ValuesUpTo, Wrong;
    if Values(c, lo) == Err(e) {
      var at, hi, i, j := ErrorFound(c, lo);
    }
    if FailsWith(c, lo, e) {
      var at, hi: nat, i: nat, j: nat :| ValuesUpTo(c, lo, at, hi) && Wrong(c, hi, i, j, e);
      ErrorRaised(c, lo, at, hi, i, j, e);
    }
  }

  // ---- the whole file ----

  /** Where the elements of the array start, by the characters. */
  lemma ArrayStartIs(s: string)
    ensures match ArrayStart(s, |s|)
      case Bad(e) =>
        && !AllWhite(s, 0, |s|) && (forall i, k :: !IsEmptyArray(s, i, k)) && (forall i, k :: !HasElement(s, i, k))
        && (e == NotAnArray <==> forall i :: !OpensArray(s, i))
        && (e == MissingBracket <==> exists i: nat :: OpensArray(s, i) && AllWhite(s, i + 1, |s|))
        && (e == TrailingData <==> exists i, k :: ClosesEarly(s, i, k))
      case At(p) =>
        && p <= |s|
        && (p == |s| ==> AllWhite(s, 0, |s|) || exists i, k :: IsEmptyArray(s, i, k))
        && (p < |s| ==> exists i :: HasElement(s, i, p))
        && forall i, k :: HasElement(s, i, k) ==> k == p
  {
    hide Indent, White;
    var n := |s|;
    var i := Indent(s, 0, n);
    IndentIs(s, 0, n);
    forall a: nat | OpensArray(s, a)
      ensures a == i
    {
      BracketNotWhite(s[a]);
    }
    if i < n && s[i] == '[' {
      assert OpensArray(s, i);
      var k := Indent(s, i + 1, n);
      IndentIs(s, i + 1, n);
      forall a: nat, b: nat | IsEmptyArray(s, a, b) || HasElement(s, a, b) || ClosesEarly(s, a, b)
        ensures a == i && b == k
      {
        assert OpensArray(s, a);
        BracketNotWhite(s[b]);
      }
      if k < n && s[k] == ']' {
        IndentIs(s, k + 1, n);
        assert Indent(s, k + 1, n) == n ==> IsEmptyArray(s, i, k);
        assert Indent(s, k + 1, n) < n ==> ClosesEarly(s, i, k);
      } else if k < n {
        assert HasElement(s, i, k);
      }
    }
  }

  lemma BracketNotWhite(ch: char)
    ensures ch == '[' || ch == ']' ==> !White(ch)
  {
  }

  /** The scan in one pass reads the file without an error, and gives these units, if and
      only if the file is made of their values. */
  lemma OnePassIs(c: Input, units: seq<string>)
    requires InputOk(c)
    ensures OnePass(c) == Ok(units) <==> Accepted(c, units)
  {
    hide Values, ArrayStart, ValuesFrom, IsEmptyArray, HasElement;
    if !c.isArray {
      ValuesAre(c, 0, units);
    } else {
      ArrayStartIs(c.file);
      ElementsInside(c.file);
      match ArrayStart(c.file, |c.file|)
      case Bad(_) =>
      case At(p) =>
        ValuesAre(c, p, units);
        NoValues(c);
    }
  }

  lemma ElementsInside(s: string)
    ensures forall i: nat, k: nat :: IsEmptyArray(s, i, k) || HasElement(s, i, k) ==> !AllWhite(s, 0, |s|) && k < |s|
    ensures forall i, k, j, l :: !(IsEmptyArray(s, i, k) && HasElement(s, j, l))
  {
    forall i: nat | OpensArray(s, i)
      ensures !AllWhite(s, 0, |s|)
    {
      BracketNotWhite(s[i]);
    }
  }
}
