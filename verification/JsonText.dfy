/** Character-level helpers of the JSON scanner: whitespace, trimming and the
    newline searches. All functions look at a window `[lo, hi)` of a text, so
    that a buffer and the part of the file it was read from can be compared. */
module JsonText {
  import opened Wrappers

  predicate IsSpace(c: char) {
    c == ' ' || c == '\t' || c == '\n' || c == 11 as char || c == 12 as char || c == '\r'
  }

  /** First position that is not whitespace, `hi` if there is none. */
  function Indent(s: string, lo: nat, hi: nat): (i: nat)
    requires lo <= hi <= |s|
    ensures lo <= i <= hi
    ensures i < hi ==> !IsSpace(s[i])
    decreases hi - lo
  {
    if lo == hi || !IsSpace(s[lo]) then lo else Indent(s, lo + 1, hi)
  }

  /** One past the last position that is not whitespace, `lo` if there is none. */
  function TrimEnd(s: string, lo: nat, hi: nat): (i: nat)
    requires lo <= hi <= |s|
    ensures lo <= i <= hi
    decreases hi
  {
    if lo == hi || !IsSpace(s[hi - 1]) then hi else TrimEnd(s, lo, hi - 1)
  }

  predicate Blank(s: string, lo: nat, hi: nat)
    requires lo <= hi <= |s|
  {
    Indent(s, lo, hi) == hi
  }

  /** The text of a window with the whitespace around it removed. */
  function Trim(s: string, lo: nat, hi: nat): string
    requires lo <= hi <= |s|
  {
    var i := Indent(s, lo, hi);
    s[i..TrimEnd(s, i, hi)]
  }

  /** First newline, `hi` if there is none. */
  function NextNewline(s: string, lo: nat, hi: nat): (i: nat)
    requires lo <= hi <= |s|
    ensures lo <= i <= hi
    ensures i < hi ==> s[i] == '\n'
    decreases hi - lo
  {
    if lo == hi || s[lo] == '\n' then lo else NextNewline(s, lo + 1, hi)
  }

  /** One past the last newline, `lo` if there is none. */
  function AfterLastNewline(s: string, lo: nat, hi: nat): (i: nat)
    requires lo <= hi <= |s|
    ensures lo <= i <= hi
    ensures i > lo ==> s[i - 1] == '\n'
    decreases hi
  {
    if lo == hi || s[hi - 1] == '\n' then hi else AfterLastNewline(s, lo, hi - 1)
  }

  predicate HasNewline(s: string) {
    NextNewline(s, 0, |s|) < |s|
  }

  // ---- what they find, character by character ----

  predicate White(c: char) { c in {' ', '\t', '\n', 11 as char, 12 as char, '\r'} }

  predicate AllWhite(s: string, lo: nat, hi: nat)
    requires hi <= |s|
  {
    forall k :: lo <= k < hi ==> White(s[k])
  }

  predicate NoNewline(s: string, lo: nat, hi: nat)
    requires hi <= |s|
  {
    forall k :: lo <= k < hi ==> s[k] != '\n'
  }

  lemma {:induction false} IndentIs(s: string, lo: nat, hi: nat)
    requires lo <= hi <= |s|
    ensures var i := Indent(s, lo, hi); AllWhite(s, lo, i) && (i < hi ==> !White(s[i]))
    decreases hi - lo
  {
    if lo < hi && IsSpace(s[lo]) {
      IndentIs(s, lo + 1, hi);
    }
  }

  lemma BlankIff(s: string, lo: nat, hi: nat)
    requires lo <= hi <= |s|
    ensures Blank(s, lo, hi) <==> AllWhite(s, lo, hi)
  {
    IndentIs(s, lo, hi);
  }

  lemma {:induction false} TrimEndIs(s: string, lo: nat, hi: nat)
    requires lo <= hi <= |s|
    ensures var i := TrimEnd(s, lo, hi); AllWhite(s, i, hi) && (i > lo ==> !White(s[i - 1]))
    decreases hi
  {
    if lo < hi && IsSpace(s[hi - 1]) {
      TrimEndIs(s, lo, hi - 1);
    }
  }

  /** What is left of a window is a part of it that neither starts nor ends with whitespace;
      everything else is whitespace. */
  lemma TrimIs(s: string, lo: nat, hi: nat) returns (a: nat, b: nat)
    requires lo <= hi <= |s|
    ensures lo <= a <= b <= hi && Trim(s, lo, hi) == s[a..b]
    ensures AllWhite(s, lo, a) && AllWhite(s, b, hi)
    ensures a < b ==> !White(s[a]) && !White(s[b - 1])
    ensures a == b ==> AllWhite(s, lo, hi)
  {
    hide Indent, TrimEnd;
    a := Indent(s, lo, hi);
    b := TrimEnd(s, a, hi);
    IndentIs(s, lo, hi);
    TrimEndIs(s, a, hi);
  }

  lemma {:induction false} NextNewlineIs(s: string, lo: nat, hi: nat)
    requires lo <= hi <= |s|
    ensures NoNewline(s, lo, NextNewline(s, lo, hi))
    decreases hi - lo
  {
    if lo < hi && s[lo] != '\n' {
      NextNewlineIs(s, lo + 1, hi);
    }
  }

  lemma {:induction false} AfterLastIs(s: string, lo: nat, hi: nat)
    requires lo <= hi <= |s|
    ensures NoNewline(s, AfterLastNewline(s, lo, hi), hi)
    decreases hi
  {
    if lo < hi && s[hi - 1] != '\n' {
      AfterLastIs(s, lo, hi - 1);
    }
  }

  // ---- the scanner's loops ----

  method SkipWhitespace(buffer: string, offset: nat) returns (next: nat)
    requires offset <= |buffer|
    ensures next == Indent(buffer, offset, |buffer|)
  {
    next := offset;
    while next != |buffer|
      invariant offset <= next <= |buffer|
      invariant Indent(buffer, offset, |buffer|) == Indent(buffer, next, |buffer|)
      decreases |buffer| - next
    {
      if !IsSpace(buffer[next]) {
        break;
      }
      next := next + 1;
    }
  }

  method FindNewline(buffer: string, lo: nat) returns (i: nat)
    requires lo <= |buffer|
    ensures i == NextNewline(buffer, lo, |buffer|)
  {
    i := lo;
    while i < |buffer| && buffer[i] != '\n'
      invariant lo <= i <= |buffer|
      invariant NextNewline(buffer, lo, |buffer|) == NextNewline(buffer, i, |buffer|)
    {
      i := i + 1;
    }
  }

  /** The backward search has no bound of its own: from a buffer without a newline it runs
      on in front of it, which is what `None` stands for. */
  method PreviousNewline(buffer: string) returns (i: Option<nat>)
    ensures i.Some? <==> HasNewline(buffer)
    ensures i.Some? ==> i.value + 1 == AfterLastNewline(buffer, 0, |buffer|) && buffer[i.value] == '\n'
  {
    var ptr := |buffer|;
    while ptr > 0
      invariant 0 <= ptr <= |buffer|
      invariant AfterLastNewline(buffer, 0, |buffer|) == AfterLastNewline(buffer, 0, ptr)
      invariant NextNewline(buffer, ptr, |buffer|) == |buffer|
    {
      ptr := ptr - 1;
      if buffer[ptr] == '\n' {
        NewlineSplit(buffer, 0, ptr, |buffer|);
        return Some(ptr);
      }
    }
    i := None;
  }

  method TrimWhitespace(buffer: string, lo: nat, hi: nat) returns (unit: string)
    requires lo <= hi <= |buffer|
    ensures unit == Trim(buffer, lo, hi)
  {
    var start, size := lo, hi - lo;
    while size != 0 && IsSpace(buffer[start])
      invariant lo <= start && size >= 0 && start + size == hi
      invariant Indent(buffer, lo, hi) == Indent(buffer, start, hi)
    {
      start, size := start + 1, size - 1;
    }
    while size != 0 && IsSpace(buffer[start + size - 1])
      invariant size >= 0 && start + size <= hi
      invariant start == Indent(buffer, lo, hi)
      invariant TrimEnd(buffer, start, hi) == TrimEnd(buffer, start, start + size)
    {
      size := size - 1;
    }
    unit := buffer[start..start + size];
  }

  // ---- the same text in two places ----

  /** The window `[lo, hi)` of `s` reappears in `t`, moved by `d`. */
  ghost predicate Same(s: string, lo: nat, hi: nat, t: string, d: int) {
    && lo <= hi <= |s| && 0 <= lo + d && hi + d <= |t|
    && forall k :: lo <= k < hi ==> s[k] == t[k + d]
  }

  lemma SliceSame(s: string, lo: nat, hi: nat, t: string, d: int)
    requires lo <= hi <= |s| && 0 <= lo + d && hi + d <= |t| && s[lo..hi] == t[lo + d..hi + d]
    ensures Same(s, lo, hi, t, d)
  {
    forall k | lo <= k < hi
      ensures s[k] == t[k + d]
    {
      assert s[lo..hi][k - lo] == t[lo + d..hi + d][k - lo];
    }
  }

  lemma SameSlice(s: string, lo: nat, hi: nat, t: string, d: int)
    requires Same(s, lo, hi, t, d)
    ensures s[lo..hi] == t[lo + d..hi + d]
  {
  }

  lemma {:induction false} SameIndent(s: string, lo: nat, hi: nat, t: string, d: int)
    requires Same(s, lo, hi, t, d)
    ensures Indent(t, lo + d, hi + d) == Indent(s, lo, hi) + d
    decreases hi - lo
  {
    if lo < hi {
      SameIndent(s, lo + 1, hi, t, d);
    }
  }

  lemma {:induction false} SameNewline(s: string, lo: nat, hi: nat, t: string, d: int)
    requires Same(s, lo, hi, t, d)
    ensures NextNewline(t, lo + d, hi + d) == NextNewline(s, lo, hi) + d
    decreases hi - lo
  {
    if lo < hi {
      SameNewline(s, lo + 1, hi, t, d);
    }
  }

  lemma {:induction false} SameAfterLast(s: string, lo: nat, hi: nat, t: string, d: int)
    requires Same(s, lo, hi, t, d)
    ensures AfterLastNewline(t, lo + d, hi + d) == AfterLastNewline(s, lo, hi) + d
    decreases hi
  {
    if lo < hi {
      SameAfterLast(s, lo, hi - 1, t, d);
    }
  }

  lemma {:induction false} SameTrimEnd(s: string, lo: nat, hi: nat, t: string, d: int)
    requires Same(s, lo, hi, t, d)
    ensures TrimEnd(t, lo + d, hi + d) == TrimEnd(s, lo, hi) + d
    decreases hi
  {
    if lo < hi {
      SameTrimEnd(s, lo, hi - 1, t, d);
    }
  }

  lemma SameTrim(s: string, lo: nat, hi: nat, t: string, d: int)
    requires Same(s, lo, hi, t, d)
    ensures Trim(t, lo + d, hi + d) == Trim(s, lo, hi)
  {
    SameIndent(s, lo, hi, t, d);
    var i := Indent(s, lo, hi);
    SameTrimEnd(s, i, hi, t, d);
    SameSlice(s, i, TrimEnd(s, i, hi), t, d);
  }

  // ---- splitting windows ----

  lemma {:induction false} NewlineSplit(s: string, i: nat, m: nat, e: nat)
    requires i <= m <= e <= |s|
    ensures NextNewline(s, i, e) == if NextNewline(s, i, m) < m then NextNewline(s, i, m) else NextNewline(s, m, e)
    decreases m - i
  {
    if i < m && s[i] != '\n' {
      NewlineSplit(s, i + 1, m, e);
    }
  }

  lemma {:induction false} IndentSplit(s: string, i: nat, m: nat, e: nat)
    requires i <= m <= e <= |s|
    ensures Indent(s, i, e) == if Blank(s, i, m) then Indent(s, m, e) else Indent(s, i, m)
    decreases m - i
  {
    if i < m && IsSpace(s[i]) {
      IndentSplit(s, i + 1, m, e);
    }
  }

  lemma {:induction false} AfterLastSplit(s: string, i: nat, m: nat, e: nat)
    requires i <= m <= e <= |s|
    ensures NextNewline(s, m, e) < e ==> AfterLastNewline(s, i, e) == AfterLastNewline(s, m, e)
    ensures NextNewline(s, m, e) == e ==>
      AfterLastNewline(s, i, e) == AfterLastNewline(s, i, m) && AfterLastNewline(s, m, e) == m
    decreases e - m
  {
    if m < e {
      NewlineSplit(s, m, e - 1, e);
      AfterLastSplit(s, i, m, e - 1);
    }
  }

  lemma {:induction false} NoNewlineAfterLast(s: string, i: nat, e: nat)
    requires i <= e <= |s|
    ensures NextNewline(s, AfterLastNewline(s, i, e), e) == e
    decreases e
  {
    if i < e && s[e - 1] != '\n' {
      NoNewlineAfterLast(s, i, e - 1);
      NewlineSplit(s, AfterLastNewline(s, i, e), e - 1, e);
    }
  }

  lemma EmptyBlank(s: string)
    ensures Blank(s, |s|, |s|)
  {
  }

  /** Trailing whitespace does not change the trimmed text. */
  lemma {:induction false} TrimEndSpace(s: string, i: nat, m: nat, e: nat)
    requires i <= m <= e <= |s| && Blank(s, m, e)
    ensures TrimEnd(s, i, e) == TrimEnd(s, i, m)
    decreases e
  {
    if m < e {
      IndentSplit(s, m, e - 1, e);
      TrimEndSpace(s, i, m, e - 1);
    }
  }

  /** Whitespace on either side does not change the trimmed text. */
  lemma TrimPadded(s: string, lo: nat, i: nat, m: nat, hi: nat)
    requires lo <= i <= m <= hi <= |s|
    requires Blank(s, lo, i) && Blank(s, m, hi) && !Blank(s, i, m)
    ensures Trim(s, lo, hi) == Trim(s, i, m)
  {
    IndentSplit(s, lo, i, hi);
    IndentSplit(s, i, m, hi);
    TrimEndSpace(s, Indent(s, i, m), m, hi);
  }
}
