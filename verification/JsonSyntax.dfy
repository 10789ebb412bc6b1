/** Where a JSON value ends, said without the scanner: a string ends at the first quote that
    is not escaped, and a value where the brackets outside of strings are closed again. */
module JsonSyntax {
  import opened JsonText
  import opened JsonValues

  // ---- strings ----

  /** The backslashes right in front of `q`, counted back to `i`. */
  function Backslashes(s: string, i: nat, q: nat): nat
    requires i <= q <= |s|
    decreases q - i
  {
    if i < q && s[q - 1] == '\\' then Backslashes(s, i, q - 1) + 1 else 0
  }

  /** The quote at `q` ends the string whose text starts at `i`. */
  predicate Closes(s: string, i: nat, q: nat)
    requires i <= q < |s|
  {
    s[q] == '"' && Backslashes(s, i, q) % 2 == 0
  }

  predicate NoClosing(s: string, i: nat, e: nat)
    requires i <= e <= |s|
  {
    forall q :: i <= q < e ==> !Closes(s, i, q)
  }

  /** Behind a character that is not a backslash, and behind an escaped one, the count can
      start anew. */
  lemma {:induction false} CountAnew(s: string, i: nat, q: nat)
    requires i < q <= |s|
    ensures s[i] != '\\' ==> Backslashes(s, i, q) == Backslashes(s, i + 1, q)
    ensures s[i] == '\\' && i + 2 <= q ==> Backslashes(s, i, q) % 2 == Backslashes(s, i + 2, q) % 2
    decreases q - i
  {
    assert Backslashes(s, i, i) == 0;
    assert Backslashes(s, i, i + 1) == if s[i] == '\\' then 1 else 0;
    if i + 2 < q || (s[i] != '\\' && i + 1 < q) {
      CountAnew(s, i, q - 1);
    }
  }

  /** The end of a string is behind the first closing quote, if there is one. */
  lemma {:induction false} StringEndIs(s: string, i: nat, e: nat)
    requires i <= e <= |s|
    ensures var r := SkipString(s, i, e);
      || (r == e && NoClosing(s, i, e))
      || (i < r && Closes(s, i, r - 1) && NoClosing(s, i, r - 1))
    decreases e - i
  {
    if i < e && s[i] != '"' {
      var next := if s[i] == '\\' then i + 2 else i + 1;
      if next <= e {
        StringEndIs(s, next, e);
        forall q | next <= q < e
          ensures Closes(s, i, q) <==> Closes(s, next, q)
        {
          CountAnew(s, i, q);
        }
        assert Backslashes(s, i, i) == 0;
        assert s[i] == '\\' ==> Backslashes(s, i, i + 1) == 1;
      }
    }
  }

  // ---- brackets ----

  datatype Mode = Outside | Inside | Escaped

  /** Whether a character is in a string, and escaped in it. */
  function After(mode: Mode, c: char): Mode {
    match mode
    case Outside => if c == '"' then Inside else Outside
    case Inside => if c == '"' then Outside else if c == '\\' then Escaped else Inside
    case Escaped => Inside
  }

  function ModeAt(s: string, i: nat, p: nat): Mode
    requires i <= p <= |s|
    decreases p - i
  {
    if i == p then Outside else After(ModeAt(s, i, p - 1), s[p - 1])
  }

  function Change(c: char): int {
    if c == '{' || c == '[' then 1 else if c == '}' || c == ']' then -1 else 0
  }

  /** The brackets between `i` and `p` that are not in strings, opened less closed. */
  function Depth(s: string, i: nat, p: nat): int
    requires i <= p <= |s|
    decreases p - i
  {
    if i == p then 0
    else Depth(s, i, p - 1) + if ModeAt(s, i, p - 1).Outside? then Change(s[p - 1]) else 0
  }

  predicate Balanced(s: string, i: nat, p: nat)
    requires i <= p <= |s|
  {
    ModeAt(s, i, p).Outside? && Depth(s, i, p) == 0
  }

  predicate NoneBalanced(s: string, i: nat, lo: nat, hi: nat)
    requires i <= lo && hi <= |s| + 1
  {
    forall p :: lo <= p < hi ==> !Balanced(s, i, p)
  }

  /** The first place behind `lo` at which everything that was opened from `i` on is closed,
      or `e` if there is none. */
  predicate FirstBalanced(s: string, i: nat, lo: nat, e: nat, r: nat)
    requires i <= lo <= e <= |s|
  {
    || (r == e && NoneBalanced(s, i, lo + 1, e + 1))
    || (lo < r <= e && Balanced(s, i, r) && NoneBalanced(s, i, lo + 1, r))
  }

  /** One character further. */
  lemma Onward(s: string, i: nat, p: nat)
    requires i <= p < |s|
    ensures ModeAt(s, i, p + 1) == After(ModeAt(s, i, p), s[p])
    ensures Depth(s, i, p + 1) == Depth(s, i, p) + if ModeAt(s, i, p).Outside? then Change(s[p]) else 0
  {
  }

  /** Inside a string nothing is balanced. */
  lemma {:induction false} StringInside(s: string, i: nat, p: nat, e: nat)
    requires i <= p <= e <= |s| && ModeAt(s, i, p).Inside?
    ensures var r := SkipString(s, p, e);
      && (forall q :: p <= q < r ==> !ModeAt(s, i, q).Outside?)
      && Depth(s, i, r) == Depth(s, i, p)
      && (ModeAt(s, i, r).Outside? || r == e)
    decreases e - p
  {
    hide ModeAt, Depth, SkipString;
    SkipStep(s, p, e);
    if p < e {
      Onward(s, i, p);
      if s[p] == '\\' && p + 1 < e {
        Onward(s, i, p + 1);
        StringInside(s, i, p + 2, e);
      } else if s[p] != '"' && s[p] != '\\' {
        StringInside(s, i, p + 1, e);
      }
    }
  }

  lemma SkipStep(s: string, i: nat, e: nat)
    requires i <= e <= |s|
    ensures SkipString(s, i, e) ==
      if i == e then e
      else if s[i] == '"' then i + 1
      else if s[i] == '\\' then (if i + 1 == e then e else SkipString(s, i + 2, e))
      else SkipString(s, i + 1, e)
  {
  }

  predicate Opens(c: char) { c == '{' || c == '[' || c == '"' }

  /** From a place at which `parents` brackets are open. */
  lemma {:induction false} NestedEndIs(s: string, i: nat, p: nat, e: nat, parents: nat)
    requires i <= p <= e <= |s| && ModeAt(s, i, p).Outside? && Depth(s, i, p) == parents
    requires parents == 0 ==> p < e && Opens(s[p])
    ensures FirstBalanced(s, i, p, e, SkipNested(s, p, e, parents))
    decreases e - p
  {
    hide ModeAt, Depth, SkipString, SkipNested;
    if p == e {
      NestedAtEnd(s, p, parents);
    } else {
      NestedStep(s, p, e, parents);
      Onward(s, i, p);
      if s[p] == '"' {
        var j := SkipString(s, p + 1, e);
        StringInside(s, i, p + 1, e);
        if ModeAt(s, i, j).Outside? && parents > 0 {
          NestedEndIs(s, i, j, e, parents);
        } else if parents > 0 {
          NestedAtEnd(s, e, parents);
        }
      } else if parents + Change(s[p]) > 0 {
        NestedEndIs(s, i, p + 1, e, parents + Change(s[p]));
      }
    }
  }

  lemma {:induction false} PlainEndIs(s: string, i: nat, e: nat)
    requires i <= e <= |s|
    ensures var r := PlainEnd(s, i, e);
      (r < e ==> s[r] == ',' || s[r] == ']') && forall p :: i <= p < r ==> s[p] != ',' && s[p] != ']'
    decreases e - i
  {
    if i < e && !IsSeparator(s[i]) {
      PlainEndIs(s, i + 1, e);
    }
  }

  /** The value that starts at `i` ends at `r`, as far as the window `[i, e)` shows. */
  predicate Ends(s: string, i: nat, e: nat, r: nat)
    requires i < e <= |s|
  {
    if s[i] == '{' || s[i] == '[' || s[i] == '"' then FirstBalanced(s, i, i, e, r)
    else
      && i <= r <= e && (r < e ==> s[r] == ',' || s[r] == ']')
      && forall p :: i <= p < r ==> s[p] != ',' && s[p] != ']'
  }

  lemma ValueEndIs(s: string, i: nat, e: nat)
    requires i < e <= |s|
    ensures Ends(s, i, e, NextJson(s, i, e))
  {
    if Opens(s[i]) {
      NestedEndIs(s, i, i, e, 0);
    } else {
      PlainEndIs(s, i, e);
    }
  }

  /** And nowhere else. */
  lemma OnlyEnd(s: string, i: nat, e: nat, r: nat)
    requires i < e <= |s|
    ensures Ends(s, i, e, r) <==> r == NextJson(s, i, e)
  {
    hide NextJson, Balanced;
    ValueEndIs(s, i, e);
  }
}
