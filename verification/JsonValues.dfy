/** Where a JSON value ends, for files that are not newline-delimited. Positions are
    taken in a window `[i, e)` of a text; the answer `e` says that the value is not
    known to end inside the window. */
module JsonValues {
  import opened JsonText

  /** Behind the closing quote of the string whose text starts at `i`. */
  function SkipString(s: string, i: nat, e: nat): (r: nat)
    requires i <= e <= |s|
    ensures i <= r <= e
    decreases e - i
  {
    if i == e then e
    else if s[i] == '"' then i + 1
    else if s[i] == '\\' then (if i + 1 == e then e else SkipString(s, i + 2, e))
    else SkipString(s, i + 1, e)
  }

  /** Behind the bracket that closes the outermost of `parents` open ones. */
  function SkipNested(s: string, i: nat, e: nat, parents: int): (r: nat)
    requires i <= e <= |s|
    ensures i <= r <= e
    ensures i < e ==> i < r
    decreases e - i
  {
    if i == e then e
    else if s[i] == '{' || s[i] == '[' then SkipNested(s, i + 1, e, parents + 1)
    else if s[i] == '}' || s[i] == ']' then (if parents == 1 then i + 1 else SkipNested(s, i + 1, e, parents - 1))
    else if s[i] == '"' then
      var j := SkipString(s, i + 1, e);
      if parents == 0 then j else SkipNested(s, j, e, parents)
    else SkipNested(s, i + 1, e, parents)
  }

  predicate IsSeparator(c: char) { c == ',' || c == ']' }

  function PlainEnd(s: string, i: nat, e: nat): (r: nat)
    requires i <= e <= |s|
    ensures i <= r <= e
    decreases e - i
  {
    if i == e || IsSeparator(s[i]) then i else PlainEnd(s, i + 1, e)
  }

  function NextJson(s: string, i: nat, e: nat): (r: nat)
    requires i < e <= |s|
    ensures i <= r <= e
  {
    if s[i] == '{' || s[i] == '[' || s[i] == '"' then SkipNested(s, i, e, 0) else PlainEnd(s, i, e)
  }

  // ---- the scanner's loops ----

  method FindStringEnd(s: string, i: nat, e: nat) returns (ptr: nat)
    requires i <= e <= |s|
    ensures ptr == SkipString(s, i, e)
  {
    ptr := i;
    while ptr != e
      invariant i <= ptr <= e
      invariant SkipString(s, ptr, e) == SkipString(s, i, e)
      decreases e - ptr
    {
      var c := s[ptr];
      ptr := ptr + 1;
      if c == '"' {
        break;
      } else if c == '\\' {
        if ptr != e {
          ptr := ptr + 1;
        }
      }
    }
  }

  method FindNestedEnd(s: string, i: nat, e: nat) returns (ptr: nat)
    requires i <= e <= |s|
    ensures ptr == SkipNested(s, i, e, 0)
  {
    ptr := i;
    var parents: int := 0;
    while ptr != e
      invariant i <= ptr <= e
      invariant SkipNested(s, ptr, e, parents) == SkipNested(s, i, e, 0)
      decreases e - ptr
    {
      var c := s[ptr];
      ptr := ptr + 1;
      if c == '{' || c == '[' {
        parents := parents + 1;
        continue;
      } else if c == '}' || c == ']' {
        parents := parents - 1;
      } else if c == '"' {
        ptr := FindStringEnd(s, ptr, e);
      } else {
        continue;
      }
      if parents == 0 {
        break;
      }
    }
  }

  method FindNextJson(s: string, i: nat, e: nat) returns (ptr: nat)
    requires i < e <= |s|
    ensures ptr == NextJson(s, i, e)
  {
    ptr := i;
    if s[i] == '{' || s[i] == '[' || s[i] == '"' {
      ptr := FindNestedEnd(s, i, e);
    } else {
      while ptr != e && !IsSeparator(s[ptr])
        invariant i <= ptr <= e
        invariant PlainEnd(s, ptr, e) == PlainEnd(s, i, e)
      {
        ptr := ptr + 1;
      }
    }
  }

  // ---- the end of a value does not move when more text arrives ----

  lemma {:induction false} StringStable(s: string, i: nat, e: nat, e': nat)
    requires i <= e <= e' <= |s| && SkipString(s, i, e) < e
    ensures SkipString(s, i, e') == SkipString(s, i, e)
    decreases e - i
  {
    if s[i] != '"' {
      StringStable(s, if s[i] == '\\' then i + 2 else i + 1, e, e');
    }
  }

  lemma {:induction false} NestedStable(s: string, i: nat, e: nat, e': nat, parents: int)
    requires i <= e <= e' <= |s| && SkipNested(s, i, e, parents) < e
    ensures SkipNested(s, i, e', parents) == SkipNested(s, i, e, parents)
    decreases e - i
  {
    if s[i] == '{' || s[i] == '[' {
      NestedStable(s, i + 1, e, e', parents + 1);
    } else if s[i] == '}' || s[i] == ']' {
      if parents != 1 {
        NestedStable(s, i + 1, e, e', parents - 1);
      }
    } else if s[i] == '"' {
      StringStable(s, i + 1, e, e');
      if parents != 0 {
        NestedStable(s, SkipString(s, i + 1, e), e, e', parents);
      }
    } else {
      NestedStable(s, i + 1, e, e', parents);
    }
  }

  lemma {:induction false} PlainStable(s: string, i: nat, e: nat, e': nat)
    requires i <= e <= e' <= |s| && PlainEnd(s, i, e) < e
    ensures PlainEnd(s, i, e') == PlainEnd(s, i, e)
    decreases e - i
  {
    if !IsSeparator(s[i]) {
      PlainStable(s, i + 1, e, e');
    }
  }

  /** A value that ends inside a buffer ends at the same place in every longer text. */
  lemma NextJsonStable(s: string, i: nat, e: nat, e': nat)
    requires i < e <= e' <= |s| && NextJson(s, i, e) < e
    ensures NextJson(s, i, e') == NextJson(s, i, e)
  {
    if s[i] == '{' || s[i] == '[' || s[i] == '"' {
      NestedStable(s, i, e, e', 0);
    } else {
      PlainStable(s, i, e, e');
    }
  }

  // ---- nesting ----

  /** With one more bracket open the end comes no earlier. */
  lemma {:induction false} NestedMono(s: string, i: nat, e: nat, parents: int)
    requires i <= e <= |s| && parents >= 1
    ensures SkipNested(s, i, e, parents) <= SkipNested(s, i, e, parents + 1)
    decreases e - i
  {
    if i < e {
      if s[i] == '{' || s[i] == '[' {
        NestedMono(s, i + 1, e, parents + 1);
      } else if s[i] == '}' || s[i] == ']' {
        if parents > 1 {
          NestedMono(s, i + 1, e, parents - 1);
        }
      } else {
        NestedMono(s, if s[i] == '"' then SkipString(s, i + 1, e) else i + 1, e, parents);
      }
    }
  }

  lemma {:induction false} NestedEnd(s: string, i: nat, e: nat, parents: int)
    requires i <= e <= |s| && parents >= 1 && SkipNested(s, i, e, parents) < e
    ensures var r := SkipNested(s, i, e, parents); i < r && (s[r - 1] == '}' || s[r - 1] == ']')
    decreases e - i
  {
    if s[i] == '{' || s[i] == '[' {
      NestedEnd(s, i + 1, e, parents + 1);
    } else if s[i] == '}' || s[i] == ']' {
      if parents > 1 {
        NestedEnd(s, i + 1, e, parents - 1);
      }
    } else {
      NestedEnd(s, if s[i] == '"' then SkipString(s, i + 1, e) else i + 1, e, parents);
    }
  }

  lemma {:induction false} NestedSpaces(s: string, i: nat, k: nat, e: nat, parents: int)
    requires i <= k <= e <= |s| && Blank(s, i, k)
    ensures SkipNested(s, i, e, parents) == SkipNested(s, k, e, parents)
    decreases k - i
  {
    if i < k {
      NestedSpaces(s, i + 1, k, e, parents);
    }
  }

  /** The first of the values in an array ends before the array does. */
  lemma InnerEndsFirst(s: string, i: nat, k: nat, e: nat)
    requires i < k < e <= |s| && s[i] == '[' && s[k] == '[' && Blank(s, i + 1, k)
    ensures NextJson(s, k, e) <= NextJson(s, i, e)
  {
    NestedSpaces(s, i + 1, k, e, 1);
    NestedMono(s, k + 1, e, 1);
  }

  // ---- windows of another text ----

  lemma {:induction false} SameString(s: string, lo: nat, hi: nat, t: string, d: int)
    requires Same(s, lo, hi, t, d)
    ensures SkipString(t, lo + d, hi + d) == SkipString(s, lo, hi) + d
    decreases hi - lo
  {
    if lo < hi && s[lo] != '"' {
      if s[lo] != '\\' {
        SameString(s, lo + 1, hi, t, d);
      } else if lo + 1 < hi {
        SameString(s, lo + 2, hi, t, d);
      }
    }
  }

  lemma SameFirst(s: string, lo: nat, hi: nat, t: string, d: int)
    requires Same(s, lo, hi, t, d) && lo < hi
    ensures hi <= |s| && 0 <= lo + d < hi + d <= |t| && s[lo] == t[lo + d] && Same(s, lo + 1, hi, t, d)
  {
  }

  lemma SameLater(s: string, lo: nat, hi: nat, t: string, d: int, a: nat)
    requires Same(s, lo, hi, t, d) && lo <= a <= hi
    ensures Same(s, a, hi, t, d)
  {
  }

  lemma SameEnds(s: string, lo: nat, hi: nat, t: string, d: int)
    requires Same(s, lo, hi, t, d)
    ensures lo <= hi <= |s| && 0 <= lo + d <= hi + d <= |t|
  {
  }

  lemma NestedAtEnd(s: string, i: nat, parents: int)
    requires i <= |s|
    ensures SkipNested(s, i, i, parents) == i
  {
  }

  /** The next character decides where the search goes on. */
  lemma NestedStep(s: string, i: nat, e: nat, parents: int)
    requires i < e <= |s|
    ensures s[i] == '{' || s[i] == '[' ==> SkipNested(s, i, e, parents) == SkipNested(s, i + 1, e, parents + 1)
    ensures s[i] == '}' || s[i] == ']' ==>
      SkipNested(s, i, e, parents) == if parents == 1 then i + 1 else SkipNested(s, i + 1, e, parents - 1)
    ensures s[i] == '"' ==>
      var j := SkipString(s, i + 1, e);
      SkipNested(s, i, e, parents) == if parents == 0 then j else SkipNested(s, j, e, parents)
    ensures s[i] != '{' && s[i] != '[' && s[i] != '}' && s[i] != ']' && s[i] != '"' ==>
      SkipNested(s, i, e, parents) == SkipNested(s, i + 1, e, parents)
  {
    hide SkipString;
  }

  lemma {:induction false} SameNested(s: string, lo: nat, hi: nat, t: string, d: int, parents: int)
    requires Same(s, lo, hi, t, d)
    ensures SkipNested(t, lo + d, hi + d, parents) == SkipNested(s, lo, hi, parents) + d
    decreases hi - lo
  {
    hide Same, SkipString, SkipNested;
    SameEnds(s, lo, hi, t, d);
    if lo == hi {
      NestedAtEnd(s, lo, parents);
      NestedAtEnd(t, lo + d, parents);
    } else {
      SameFirst(s, lo, hi, t, d);
      NestedStep(s, lo, hi, parents);
      NestedStep(t, lo + d, hi + d, parents);
      if s[lo] == '{' || s[lo] == '[' {
        SameNested(s, lo + 1, hi, t, d, parents + 1);
      } else if s[lo] == '}' || s[lo] == ']' {
        SameNested(s, lo + 1, hi, t, d, parents - 1);
      } else if s[lo] == '"' {
        SameString(s, lo + 1, hi, t, d);
        var j := SkipString(s, lo + 1, hi);
        SameLater(s, lo, hi, t, d, j);
        SameNested(s, j, hi, t, d, parents);
      } else {
        SameNested(s, lo + 1, hi, t, d, parents);
      }
    }
  }

  lemma {:induction false} SamePlain(s: string, lo: nat, hi: nat, t: string, d: int)
    requires Same(s, lo, hi, t, d)
    ensures PlainEnd(t, lo + d, hi + d) == PlainEnd(s, lo, hi) + d
    decreases hi - lo
  {
    if lo < hi {
      SamePlain(s, lo + 1, hi, t, d);
    }
  }

  lemma SameNextJson(s: string, lo: nat, hi: nat, t: string, d: int)
    requires Same(s, lo, hi, t, d) && lo < hi
    ensures NextJson(t, lo + d, hi + d) == NextJson(s, lo, hi) + d
  {
    SameNested(s, lo, hi, t, d, 0);
    SamePlain(s, lo, hi, t, d);
  }
}
