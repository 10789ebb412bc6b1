/** The paths the reader accepts, as a grammar: how each token may be written, and that a
    path is read as some tokens if and only if it is written as one after the other. */
module JsonPathGrammar {
  import opened Wrappers
  import opened JsonPath
  import opened JsonPathText
  import opened JsonPathWildcard

  /** The number that some digits stand for. */
  function Number(digits: string): int {
    if digits == "" then 0
    else Number(digits[..|digits| - 1]) * 10 + (digits[|digits| - 1] as int - '0' as int)
  }

  /** Behind the first `skip` characters there are one to nineteen digits and a bracket. The
      character behind nineteen digits may also be another one. */
  predicate IsIndex(text: string, skip: nat, n: nat) {
    && skip + 1 < |text| <= skip + 20
    && (forall k :: skip <= k < |text| - 1 ==> '0' <= text[k] <= '9')
    && Number(text[skip..|text| - 1]) == n
    && (text[|text| - 1] == ']' || |text| == skip + 20)
  }

  /** How a token may be written. */
  predicate Spells(text: string, token: Token) {
    match token
    case AnyKey => text == ".*"
    case AnyIndex => text == "[*]"
    case Key(name) =>
      && name != ""
      && if |text| > 1 && text[1] == '"' then '"' !in name && text == ".\"" + name + "\""
         else name[0] != '*' && '.' !in name && '[' !in name && text == "." + name
    case Index(n, fromBack) =>
      if fromBack then (IsIndex(text, 2, n) && text[..2] == "[-") || (IsIndex(text, 3, n) && text[..3] == "[#-")
      else (text == "[#]" && n == 4294967295) || (IsIndex(text, 1, n) && text[0] == '[')
  }

  /** The text consists of these tokens, one after the other. */
  predicate Spelled(text: string, tokens: seq<Token>)
    decreases |tokens|
  {
    if tokens == [] then text == ""
    else exists n: nat :: 0 < n <= |text| && Spells(text[..n], tokens[0]) && Spelled(text[n..], tokens[1..])
  }

  // ---- numbers ----

  lemma {:induction false} NumberIs(s: string, i: nat, e: nat)
    requires i <= e <= |s| && forall k :: i <= k < e ==> IsDigit(s[k])
    ensures ValueOf(s, i, e, 0) == Number(s[i..e])
    decreases e
  {
    if i < e {
      NumberIs(s, i, e - 1);
      ValueSplit(s, i, e - 1, e, 0);
      assert s[i..e][..e - i - 1] == s[i..e - 1];
    }
  }

  /** What the reader of digits finds. */
  lemma {:induction false} DigitsAre(s: string, i: nat, read: nat, value: nat)
    requires i <= |s| && read <= SAFE_DIGITS && Digits(s, i, read, value).Some?
    ensures var d := Digits(s, i, read, value).value;
      && i <= d.1 <= |s| && (forall k :: i <= k < d.1 ==> IsDigit(s[k])) && d.0 == ValueOf(s, i, d.1, value)
      && read + (d.1 - i) <= SAFE_DIGITS
      && (read + (d.1 - i) == SAFE_DIGITS || (d.1 < |s| && s[d.1] == ']'))
    decreases SAFE_DIGITS - read
  {
    if read < SAFE_DIGITS && i < |s| && s[i] != ']' && IsDigit(s[i]) {
      DigitsAre(s, i + 1, read + 1, DigitOf(s[i]) + value * 10);
    }
  }

  lemma DigitsFound(s: string, j: nat, e: nat)
    requires j < e < |s| && e - j <= SAFE_DIGITS && forall k :: j <= k < e ==> IsDigit(s[k])
    requires s[e] == ']' || e - j == SAFE_DIGITS
    ensures Digits(s, j, 0, 0).Some? && Digits(s, j, 0, 0).value.0 == Number(s[j..e]) && Digits(s, j, 0, 0).value.1 == e
  {
    hide Digits, ValueOf;
    NumberIs(s, j, e);
    if s[e] == ']' {
      ReadDigits(s, j, e, 0, 0);
    } else {
      DigitsRead(s, j, 0, 0);
    }
  }

  // ---- one token is read as it is written ----

  lemma {:induction false} PlainEnds(s: string, i: nat, e: nat)
    requires i <= e <= |s| && (forall k :: i <= k < e ==> s[k] != '.' && s[k] != '[')
    requires e == |s| || s[e] == '.' || s[e] == '['
    ensures StringEnd(s, i, false) == e
    decreases e - i
  {
    if i < e {
      PlainEnds(s, i + 1, e);
    }
  }

  lemma KeyRead(s: string, i: nat, n: nat, name: string)
    requires i < n <= |s| && Spells(s[i..n], Key(name)) && (n == |s| || s[n] == '.' || s[n] == '[')
    ensures i + 1 < |s| && s[i] == '.' && ReadKey(s, i + 1) == Some(Step(Key(name), n))
  {
    var text := s[i..n];
    assert s[i] == text[0] && s[i + 1] == text[1];
    if text[1] == '"' {
      assert Starts(s, i, Render(Key(name)));
      ReadsKey(s, i, name);
    } else {
      assert s[i + 1..n] == text[1..] == name;
      forall k | i + 1 <= k < n
        ensures s[k] != '.' && s[k] != '['
      {
        assert s[k] == name[k - i - 1];
      }
      PlainEnds(s, i + 1, n);
    }
  }

  lemma Within(s: string, i: nat, n: nat, skip: nat)
    requires i + skip < n <= |s|
    ensures s[i..n][skip..n - i - 1] == s[i + skip..n - 1]
  {
    var a, b := s[i..n][skip..n - i - 1], s[i + skip..n - 1];
    forall k | 0 <= k < |a|
      ensures a[k] == b[k]
    {
      assert a[k] == s[i..n][skip + k] == s[i + skip + k];
    }
  }

  lemma IndexRead(s: string, i: nat, n: nat, skip: nat, index: nat)
    requires i < n <= |s| && IsIndex(s[i..n], skip, index) && skip > 0
    ensures i + skip < |s| && IsDigit(s[i + skip]) && Digits(s, i + skip, 0, 0) == Some((index, n - 1))
  {
    hide Digits, Number;
    var text := s[i..n];
    assert s[n - 1] == text[|text| - 1];
    forall k | i + skip <= k < n - 1
      ensures IsDigit(s[k])
    {
      assert s[k] == text[k - i];
    }
    Within(s, i, n, skip);
    DigitsFound(s, i + skip, n - 1);
  }

  lemma IndexStep(s: string, i: nat, n: nat, index: nat, fromBack: bool)
    requires i < n <= |s| && Spells(s[i..n], Index(index, fromBack))
    ensures i + 1 < |s| && s[i] == '[' && ReadIndex(s, i + 1) == Some(Step(Index(index, fromBack), n))
  {
    hide Digits, Number;
    var text := s[i..n];
    assert s[i] == text[0] && s[i + 1] == text[1];
    if text == "[#]" {
      assert s[i + 2] == text[2];
    } else if !fromBack {
      IndexRead(s, i, n, 1, index);
    } else if IsIndex(text, 2, index) && text[..2] == "[-" {
      assert text[..2][0] == '[' && text[..2][1] == '-';
      IndexRead(s, i, n, 2, index);
    } else {
      assert text[..3][0] == '[' && text[..3][1] == '#' && text[..3][2] == '-';
      assert s[i + 2] == text[2];
      IndexRead(s, i, n, 3, index);
    }
  }

  lemma SpelledStep(s: string, i: nat, n: nat, token: Token)
    requires i < n <= |s| && Spells(s[i..n], token) && (n == |s| || s[n] == '.' || s[n] == '[')
    ensures StepAt(s, i) == Some(Step(token, n))
  {
    hide ReadKey, ReadIndex;
    match token
    case Key(name) => KeyRead(s, i, n, name);
    case Index(index, fromBack) => IndexStep(s, i, n, index, fromBack);
    case AnyKey => assert Starts(s, i, ".*"); ReadsStar(s, i);
    case AnyIndex => assert Starts(s, i, "[*]"); ReadsStar(s, i);
  }

  // ---- and what is read is written so ----

  lemma {:induction false} StringEndsAt(s: string, i: nat, escaped: bool)
    requires i <= |s|
    ensures var e := StringEnd(s, i, escaped);
      && (e < |s| ==> if escaped then s[e] == '"' else s[e] == '.' || s[e] == '[')
      && forall k :: i <= k < e ==> if escaped then s[k] != '"' else s[k] != '.' && s[k] != '['
    decreases |s| - i
  {
    if i < |s| && !(escaped && s[i] == '"') && !(!escaped && (s[i] == '.' || s[i] == '[')) {
      StringEndsAt(s, i + 1, escaped);
    }
  }

  lemma KeySpelled(s: string, i: nat)
    requires i + 1 < |s| && s[i] == '.' && ReadKey(s, i + 1).Some?
    ensures var step := ReadKey(s, i + 1).value; Spells(s[i..step.next], step.token)
  {
    var step := ReadKey(s, i + 1).value;
    var text := s[i..step.next];
    assert text[0] == '.' && text[1] == s[i + 1];
    if s[i + 1] != '*' {
      var escaped := s[i + 1] == '"';
      StringEndsAt(s, if escaped then i + 2 else i + 1, escaped);
      var name := step.token.name;
      if escaped {
        assert text == ".\"" + name + "\"";
      } else {
        assert text == "." + name && name[0] == s[i + 1];
      }
    }
  }

  lemma NumberSpelled(s: string, i: nat, skip: nat)
    requires i + skip < |s| && skip > 0 && Digits(s, i + skip, 0, 0).Some?
    requires var d := Digits(s, i + skip, 0, 0).value; i + skip < d.1 < |s|
    ensures var d := Digits(s, i + skip, 0, 0).value; IsIndex(s[i..d.1 + 1], skip, d.0)
  {
    hide Digits, Number, ValueOf;
    var d := Digits(s, i + skip, 0, 0).value;
    DigitsAre(s, i + skip, 0, 0);
    NumberIs(s, i + skip, d.1);
    var text := s[i..d.1 + 1];
    Within(s, i, d.1 + 1, skip);
    assert text[|text| - 1] == s[d.1];
  }

  lemma IndexSpelled(s: string, i: nat)
    requires i + 1 < |s| && s[i] == '[' && ReadIndex(s, i + 1).Some? && ReadIndex(s, i + 1).value.next <= |s|
    ensures var step := ReadIndex(s, i + 1).value; Spells(s[i..step.next], step.token)
  {
    hide Digits, IsIndex;
    var step := ReadIndex(s, i + 1).value;
    var text := s[i..step.next];
    assert text[0] == '[' && text[1] == s[i + 1];
    if s[i + 1] == '*' {
      assert text == "[*]";
    } else if s[i + 1] == '#' && s[i + 2] == ']' {
      assert text == "[#]";
    } else {
      var skip := if s[i + 1] == '#' then 3 else if s[i + 1] == '-' then 2 else 1;
      assert skip == 3 ==> text[2] == s[i + 2];
      NumberSpelled(s, i, skip);
    }
  }

  lemma StepSpelled(s: string, i: nat)
    requires i < |s| && StepAt(s, i).Some? && StepAt(s, i).value.next <= |s|
    ensures var step := StepAt(s, i).value; i < step.next && Spells(s[i..step.next], step.token)
  {
    hide ReadKey, ReadIndex, Spells;
    if s[i] == '.' {
      KeySpelled(s, i);
    } else {
      IndexSpelled(s, i);
    }
  }

  /** Every token starts with a dot or a bracket. */
  lemma SpellsStarts(text: string, token: Token)
    requires Spells(text, token)
    ensures |text| > 1 && (text[0] == '.' || text[0] == '[')
  {
    hide Number;
    if token.Index? && token.fromBack {
      assert text[0] == if IsIndex(text, 2, token.index) && text[..2] == "[-" then text[..2][0] else text[..3][0];
    }
  }

  lemma SpelledStarts(text: string, tokens: seq<Token>)
    requires Spelled(text, tokens)
    ensures text == "" || text[0] == '.' || text[0] == '['
  {
    hide Spells;
    if tokens != [] {
      var n: nat :| 0 < n <= |text| && Spells(text[..n], tokens[0]) && Spelled(text[n..], tokens[1..]);
      SpellsStarts(text[..n], tokens[0]);
      assert text[0] == text[..n][0];
    }
  }

  lemma Suffix(s: string, i: nat, n: nat)
    requires i + n <= |s|
    ensures s[i..][..n] == s[i..i + n] && s[i..][n..] == s[i + n..]
  {
  }

  /** A path is read as these tokens if and only if it is written so. */
  lemma {:induction false} ReadAsSpelled(s: string, i: nat, tokens: seq<Token>)
    requires i <= |s|
    ensures Tokenize(s, i) == Ok(tokens) <==> Spelled(s[i..], tokens)
    decreases |s| - i
  {
    hide Tokenize, StepAt, Spells;
    if i == |s| {
      TokenizeEnd(s);
    } else {
      TokenizeStep(s, i);
      if Tokenize(s, i) == Ok(tokens) {
        StepSpelled(s, i);
        var next := StepAt(s, i).value.next;
        assert tokens[1..] == Tokenize(s, next).tokens;
        ReadAsSpelled(s, next, tokens[1..]);
        Suffix(s, i, next - i);
        assert Spells(s[i..][..next - i], tokens[0]);
      }
      if Spelled(s[i..], tokens) {
        SpelledRead(s, i, tokens);
      }
    }
  }

  lemma {:induction false} SpelledRead(s: string, i: nat, tokens: seq<Token>)
    requires i < |s| && Spelled(s[i..], tokens)
    ensures Tokenize(s, i) == Ok(tokens)
    decreases |s| - i, 0
  {
    hide Tokenize, StepAt, Spells;
    var n: nat :| 0 < n <= |s[i..]| && Spells(s[i..][..n], tokens[0]) && Spelled(s[i..][n..], tokens[1..]);
    Suffix(s, i, n);
    SpelledStarts(s[i + n..], tokens[1..]);
    SpelledStep(s, i, i + n, tokens[0]);
    TokenizeStep(s, i);
    ReadAsSpelled(s, i + n, tokens[1..]);
    assert [tokens[0]] + tokens[1..] == tokens;
  }

  // ---- what follows for the usual paths ----

  /** One token in front of a path that is not empty goes on with the next one. */
  lemma TokenInFront(text: string, token: Token, rest: string, tokens: seq<Token>)
    requires text != "" && Spells(text, token) && (rest == "" || rest[0] == '.' || rest[0] == '[')
    ensures Tokenize("$" + text + rest, 1) == Ok([token] + tokens) <==> Tokenize("$" + rest, 1) == Ok(tokens)
  {
    hide Tokenize, Spells, StepAt;
    var s, n := "$" + text + rest, |text|;
    assert s[1..1 + n] == text && s[1 + n..] == rest && ("$" + rest)[1..] == rest;
    SpelledStep(s, 1, 1 + n, token);
    TokenizeStep(s, 1);
    ReadAsSpelled(s, 1 + n, tokens);
    ReadAsSpelled("$" + rest, 1, tokens);
    assert forall more: seq<Token> :: [token] + more == [token] + tokens ==> more == tokens by {
      forall more: seq<Token> | [token] + more == [token] + tokens
        ensures more == tokens
      {
        assert ([token] + more)[1..] == more && ([token] + tokens)[1..] == tokens;
      }
    }
  }

  /** A name without quotes is the whole text up to the next token. */
  lemma PlainKey(name: string, rest: string, tokens: seq<Token>)
    requires name != "" && name[0] != '*' && name[0] != '"' && '.' !in name && '[' !in name
    requires rest == "" || rest[0] == '.' || rest[0] == '['
    ensures Tokenize("$." + name + rest, 1) == Ok([Key(name)] + tokens) <==> Tokenize("$" + rest, 1) == Ok(tokens)
  {
    hide Tokenize;
    assert ("." + name)[1] == name[0];
    TokenInFront("." + name, Key(name), rest, tokens);
    assert "$" + ("." + name) + rest == "$." + name + rest;
  }

  /** Counting from the back, with or without the hash. */
  lemma BackIndex(front: string, n: nat, rest: string, tokens: seq<Token>)
    requires front == "[-" || front == "[#-"
    requires |Decimal(n)| <= SAFE_DIGITS && (rest == "" || rest[0] == '.' || rest[0] == '[')
    ensures Tokenize("$" + front + Decimal(n) + "]" + rest, 1) == Ok([Index(n, true)] + tokens) <==>
      Tokenize("$" + rest, 1) == Ok(tokens)
  {
    hide Tokenize, Decimal, IsIndex;
    var digits := Decimal(n);
    DecimalSpells(n, front);
    TokenInFront(front + digits + "]", Index(n, true), rest, tokens);
    assert "$" + (front + digits + "]") + rest == "$" + front + digits + "]" + rest;
  }

  lemma DecimalSpells(n: nat, front: string)
    requires 0 < |Decimal(n)| <= SAFE_DIGITS
    ensures IsIndex(front + Decimal(n) + "]", |front|, n)
    ensures (front + Decimal(n) + "]")[..|front|] == front
  {
    hide Number, Decimal;
    var digits := Decimal(n);
    var text := front + digits + "]";
    assert text[|front|..|text| - 1] == digits == digits[0..|digits|];
    NumberIs(digits, 0, |digits|);
    DecimalValue(n);
  }

  /** The hash alone stands for a place behind the end, and selects nothing. */
  lemma HashSelectsNothing(val: Json, rest: string, tokens: seq<Token>)
    requires rest == "" || rest[0] == '.' || rest[0] == '['
    ensures Tokenize("$[#]" + rest, 1) == Ok([Index(NO_INDEX, false)] + tokens) <==>
      Tokenize("$" + rest, 1) == Ok(tokens)
    ensures (val.Array? ==> |val.items| <= NO_INDEX) ==> Eval(val, [Index(NO_INDEX, false)] + tokens) == None
  {
    hide Tokenize;
    TokenInFront("[#]", Index(NO_INDEX, false), rest, tokens);
    assert "$" + "[#]" + rest == "$[#]" + rest;
  }

  // ---- what a token selects ----

  lemma {:induction false} FindFieldIs(fields: seq<Field>, key: string, i: nat)
    requires i <= |fields|
    ensures match FindField(fields, key, i)
      case None => forall j :: i <= j < |fields| ==> fields[j].key != key
      case Some(k) => i <= k < |fields| && fields[k].key == key && forall j :: i <= j < k ==> fields[j].key != key
    decreases |fields| - i
  {
    if i < |fields| && fields[i].key != key {
      FindFieldIs(fields, key, i + 1);
    }
  }

  /** Which child a token takes: the first field of that name; the element at that place,
      counted from the front, or from one at the back; or any of them. */
  lemma TakesIff(val: Json, token: Token, i: nat)
    ensures Takes(val, token, i) <==>
      match token
      case Key(name) =>
        && val.Object? && i < |val.fields| && val.fields[i].key == name
        && forall j :: 0 <= j < i ==> val.fields[j].key != name
      case Index(n, fromBack) =>
        val.Array? && i < |val.items| && if fromBack && n > 0 then i + n == |val.items| else i == n
      case AnyKey => val.Object? && i < |val.fields|
      case AnyIndex => val.Array? && i < |val.items|
  {
    if token.Key? && val.Object? {
      FindFieldIs(val.fields, token.name, 0);
    }
  }

  /** No token selects the value itself, one token the child it takes, and a path is followed
      piece by piece. */
  lemma EvalOne(val: Json, token: Token, v: Json)
    requires !IsWildcard(token)
    ensures Eval(val, []) == Some(val)
    ensures Eval(val, [token]) == Some(v) <==>
      exists i: nat :: Takes(val, token, i) && v == if val.Object? then val.fields[i].value else val.items[i]
  {
    assert [token][1..] == [];
    var r := Selected(val, token);
    if r.Some? {
      assert Takes(val, token, r.value);
      assert Eval(val, [token]) == Eval(Children(val)[r.value], []) == Some(Children(val)[r.value]);
    }
  }

  lemma {:induction false} EvalJoin(val: Json, a: seq<Token>, b: seq<Token>)
    ensures Eval(val, a + b) == match Eval(val, a) case None => None case Some(v) => Eval(v, b)
    decreases |a|
  {
    hide Selected, Children;
    if a == [] {
      assert a + b == b;
    } else {
      assert (a + b)[0] == a[0] && (a + b)[1..] == a[1..] + b;
      match Selected(val, a[0])
      case None =>
      case Some(i) => EvalJoin(Children(val)[i], a[1..], b);
    }
  }

  /** The same for places in a document. */
  lemma {:induction false} ValueAtJoin(val: Json, tokens: seq<Token>, a: Address, more: seq<Token>, b: Address)
    requires Fits(val, tokens, a) && Fits(ValueAt(val, a), more, b)
    ensures Fits(val, tokens + more, a + b) && ValueAt(val, a + b) == ValueAt(ValueAt(val, a), b)
    decreases |tokens|
  {
    hide Takes, Children;
    if tokens == [] {
      assert tokens + more == more && a + b == b;
    } else {
      TakesChild(val, tokens[0], a[0]);
      ValueAtJoin(Children(val)[a[0]], tokens[1..], a[1..], more, b);
      assert (tokens + more)[0] == tokens[0] && (tokens + more)[1..] == tokens[1..] + more;
      assert (a + b)[0] == a[0] && (a + b)[1..] == a[1..] + b;
    }
  }

  /** One place comes before another if it is the smaller one where they first differ. */
  lemma {:induction false} BeforeIff(a: Address, b: Address)
    ensures Before(a, b) <==>
      exists k :: 0 <= k < |a| && k < |b| && a[k] < b[k] && forall j :: 0 <= j < k ==> a[j] == b[j]
    decreases |a|
  {
    if a != [] && b != [] && a[0] == b[0] {
      var c, d := a[1..], b[1..];
      BeforeIff(c, d);
      if Before(c, d) {
        var k :| 0 <= k < |c| && k < |d| && c[k] < d[k] && forall j :: 0 <= j < k ==> c[j] == d[j];
        FirstDifference(a, b, k);
      }
      if k :| 0 <= k < |a| && k < |b| && a[k] < b[k] && forall j :: 0 <= j < k ==> a[j] == b[j] {
        assert c[k - 1] < d[k - 1] && forall j :: 0 <= j < k - 1 ==> c[j] == a[j + 1] && d[j] == b[j + 1];
      }
    }
  }

  lemma FirstDifference(a: Address, b: Address, k: nat)
    requires a != [] && b != [] && a[0] == b[0] && k + 1 < |a| && k + 1 < |b| && a[1..][k] < b[1..][k]
    requires forall j :: 0 <= j < k ==> a[1..][j] == b[1..][j]
    ensures a[k + 1] < b[k + 1] && forall j :: 0 <= j < k + 1 ==> a[j] == b[j]
  {
    forall j | 0 < j < k + 1
      ensures a[j] == b[j]
    {
      assert a[j] == a[1..][j - 1] && b[j] == b[1..][j - 1];
    }
  }
}
