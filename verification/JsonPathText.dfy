/** Paths as text: which sequences of tokens can be written down and are read back as they
    were; and where the reader of array indices goes too far. */
module JsonPathText {
  import opened Wrappers
  import opened JsonPath

  function DigitChar(d: nat): (c: char)
    requires d < 10
    ensures IsDigit(c) && DigitOf(c) == d
  {
    ('0' as int + d) as char
  }

  function Decimal(n: nat): (s: string)
    ensures |s| > 0 && forall i :: 0 <= i < |s| ==> IsDigit(s[i])
  {
    if n < 10 then [DigitChar(n)] else Decimal(n / 10) + [DigitChar(n % 10)]
  }

  function Render(token: Token): string {
    match token
    case Key(name) => ".\"" + name + "\""
    case AnyKey => ".*"
    case Index(index, fromBack) => (if fromBack then "[#-" else "[") + Decimal(index) + "]"
    case AnyIndex => "[*]"
  }

  function RenderAll(tokens: seq<Token>): string
    decreases |tokens|
  {
    if tokens == [] then "" else Render(tokens[0]) + RenderAll(tokens[1..])
  }

  /** Keys are not empty and have no quote in them; indices have at most nineteen digits. */
  predicate Writable(token: Token) {
    match token
    case Key(name) => name != "" && '"' !in name
    case Index(index, _) => |Decimal(index)| <= SAFE_DIGITS
    case _ => true
  }

  // ---- digits ----

  /** The number written in a stretch of digits, behind a number read before. */
  function ValueOf(s: string, i: nat, e: nat, value: nat): nat
    requires i <= e <= |s| && forall k :: i <= k < e ==> IsDigit(s[k])
    decreases e - i
  {
    if i == e then value else ValueOf(s, i + 1, e, DigitOf(s[i]) + value * 10)
  }

  lemma {:induction false} ReadDigits(s: string, i: nat, e: nat, read: nat, value: nat)
    requires i <= e < |s| && s[e] == ']' && (forall k :: i <= k < e ==> IsDigit(s[k])) && read + (e - i) <= SAFE_DIGITS
    ensures Digits(s, i, read, value) == Some((ValueOf(s, i, e, value), e))
    decreases e - i
  {
    if i < e {
      ReadDigits(s, i + 1, e, read + 1, DigitOf(s[i]) + value * 10);
    }
  }

  lemma {:induction false} ValueSplit(s: string, i: nat, m: nat, e: nat, value: nat)
    requires i <= m <= e <= |s| && forall k :: i <= k < e ==> IsDigit(s[k])
    ensures ValueOf(s, i, e, value) == ValueOf(s, m, e, ValueOf(s, i, m, value))
    decreases m - i
  {
    if i < m {
      ValueSplit(s, i + 1, m, e, DigitOf(s[i]) + value * 10);
    }
  }

  lemma {:induction false} ValueSame(s: string, i: nat, e: nat, t: string, j: nat, value: nat)
    requires i <= e <= |s| && j + (e - i) <= |t| && s[i..e] == t[j..j + (e - i)]
    requires forall k :: i <= k < e ==> IsDigit(s[k])
    ensures forall k :: j <= k < j + (e - i) ==> IsDigit(t[k])
    ensures ValueOf(s, i, e, value) == ValueOf(t, j, j + (e - i), value)
    decreases e - i
  {
    forall k | j <= k < j + (e - i)
      ensures IsDigit(t[k])
    {
      assert t[j..j + (e - i)][k - j] == s[i..e][k - j];
    }
    if i < e {
      assert s[i] == s[i..e][0] == t[j];
      assert s[i + 1..e] == s[i..e][1..];
      assert t[j + 1..j + (e - i)] == t[j..j + (e - i)][1..];
      ValueSame(s, i + 1, e, t, j + 1, DigitOf(s[i]) + value * 10);
    }
  }

  lemma {:induction false} DecimalValue(n: nat)
    ensures ValueOf(Decimal(n), 0, |Decimal(n)|, 0) == n
    decreases n
  {
    var s := Decimal(n);
    if n >= 10 {
      var t := Decimal(n / 10);
      DecimalValue(n / 10);
      ValueSplit(s, 0, |t|, |s|, 0);
      assert t[0..|t|] == s[0..|t|];
      ValueSame(t, 0, |t|, s, 0, 0);
    }
  }

  /** More digits make a larger number. */
  lemma {:induction false} ValueGrows(s: string, i: nat, e: nat, value: nat)
    requires i <= e <= |s| && value > 0 && forall k :: i <= k < e ==> IsDigit(s[k])
    ensures ValueOf(s, i, e, value) >= value && (i < e ==> ValueOf(s, i, e, value) > value)
    decreases e - i
  {
    if i < e {
      ValueGrows(s, i + 1, e, DigitOf(s[i]) + value * 10);
    }
  }

  lemma {:induction false} LeadingDigit(n: nat)
    requires n > 0
    ensures DigitOf(Decimal(n)[0]) > 0
    decreases n
  {
    if n >= 10 {
      LeadingDigit(n / 10);
    }
  }

  /** The first digits of a number are a smaller number. */
  lemma FirstDigits(n: nat, e: nat)
    requires 0 < e < |Decimal(n)|
    ensures ValueOf(Decimal(n), 0, e, 0) < n
  {
    var s := Decimal(n);
    LeadingDigit(n);
    ValueGrows(s, 1, e, DigitOf(s[0]));
    DecimalValue(n);
    ValueSplit(s, 0, e, |s|, 0);
    ValueGrows(s, e, |s|, ValueOf(s, 0, e, 0));
  }

  // ---- one token, then the rest ----

  /** The text at `i` is the text of a token. */
  predicate Starts(s: string, i: nat, text: string) {
    i + |text| <= |s| && s[i..i + |text|] == text
  }

  lemma Inside(s: string, i: nat, text: string, a: nat, b: nat)
    requires Starts(s, i, text) && a <= b <= |text|
    ensures i + |text| <= |s| && s[i + a..i + b] == text[a..b]
  {
    forall k | a <= k < b
      ensures s[i + k] == text[k]
    {
      assert s[i..i + |text|][k] == text[k];
    }
  }

  lemma {:induction false} KeyEnds(s: string, i: nat, e: nat)
    requires i <= e < |s| && s[e] == '"' && forall k :: i <= k < e ==> s[k] != '"'
    ensures StringEnd(s, i, true) == e
    decreases e - i
  {
    if i < e {
      KeyEnds(s, i + 1, e);
    }
  }

  lemma ReadsKey(s: string, i: nat, name: string)
    requires Starts(s, i, Render(Key(name))) && Writable(Key(name))
    ensures i + 1 < |s| && s[i] == '.' && ReadKey(s, i + 1) == Some(Step(Key(name), i + |Render(Key(name))|))
  {
    var text := Render(Key(name));
    var e := i + |text| - 1;
    assert s[i] == text[0] && s[i + 1] == text[1] && s[e] == text[|text| - 1];
    Inside(s, i, text, 2, |text| - 1);
    assert s[i + 2..e] == name;
    forall k | i + 2 <= k < e
      ensures s[k] != '"'
    {
      assert s[k] == name[k - i - 2];
    }
    KeyEnds(s, i + 2, e);
  }

  lemma ReadsNumber(s: string, j: nat, index: nat)
    requires Starts(s, j, Decimal(index)) && j + |Decimal(index)| < |s| && s[j + |Decimal(index)|] == ']'
    requires |Decimal(index)| <= SAFE_DIGITS
    ensures Digits(s, j, 0, 0) == Some((index, j + |Decimal(index)|)) && IsDigit(s[j])
  {
    hide Digits, Decimal, IsDigit;
    var digits := Decimal(index);
    assert digits[0..|digits|] == digits;
    ValueSame(digits, 0, |digits|, s, j, 0);
    DecimalValue(index);
    ReadDigits(s, j, j + |digits|, 0, 0);
  }

  lemma ReadsIndex(s: string, i: nat, index: nat, fromBack: bool)
    requires Starts(s, i, Render(Index(index, fromBack))) && Writable(Index(index, fromBack))
    ensures i + 1 < |s| && s[i] == '[' && i + |Render(Index(index, fromBack))| <= |s|
    ensures ReadIndex(s, i + 1) == Some(Step(Index(index, fromBack), i + |Render(Index(index, fromBack))|))
  {
    hide Digits, Decimal;
    var text, digits := Render(Index(index, fromBack)), Decimal(index);
    var at := if fromBack then 3 else 1;
    assert s[i] == text[0] && s[i + |text| - 1] == text[|text| - 1];
    Inside(s, i, text, at, |text| - 1);
    assert text[at..|text| - 1] == digits;
    ReadsNumber(s, i + at, index);
    if fromBack {
      assert s[i + 1] == text[1] && s[i + 2] == text[2];
    }
  }

  lemma ReadsStar(s: string, i: nat)
    ensures Starts(s, i, ".*") ==> i + 2 <= |s| && s[i] == '.' && ReadKey(s, i + 1) == Some(Step(AnyKey, i + 2))
    ensures Starts(s, i, "[*]") ==> i + 3 <= |s| && s[i] == '[' && ReadIndex(s, i + 1) == Some(Step(AnyIndex, i + 3))
  {
    if Starts(s, i, ".*") {
      assert s[i] == ".*"[0] && s[i + 1] == ".*"[1];
    }
    if Starts(s, i, "[*]") {
      assert s[i] == "[*]"[0] && s[i + 1] == "[*]"[1] && s[i + 2] == "[*]"[2];
    }
  }

  lemma ReadsToken(s: string, i: nat, token: Token)
    requires Starts(s, i, Render(token)) && Writable(token)
    ensures i + |Render(token)| <= |s| && Tokenize(s, i) == Prepend(token, Tokenize(s, i + |Render(token)|))
  {
    hide ReadKey, ReadIndex, Decimal, Starts;
    match token
    case Key(name) => ReadsKey(s, i, name);
    case Index(index, fromBack) => ReadsIndex(s, i, index, fromBack);
    case AnyKey => ReadsStar(s, i);
    case AnyIndex => ReadsStar(s, i);
  }

  lemma {:induction false} QuoteEnds(s: string, i: nat, q: nat)
    requires i <= q < |s| && s[q] == '"'
    ensures StringEnd(s, i, true) <= q
    decreases q - i
  {
    if i < q {
      QuoteEnds(s, i + 1, q);
    }
  }

  lemma MisreadsKey(s: string, i: nat, name: string)
    requires Starts(s, i, Render(Key(name))) && !Writable(Key(name))
    ensures i + 1 < |s| && s[i] == '.'
    ensures ReadKey(s, i + 1).Some? ==> ReadKey(s, i + 1).value.token != Key(name)
  {
    var text := Render(Key(name));
    assert s[i] == text[0] && s[i + 1] == text[1];
    var q := if name == "" then 0 else var q :| 0 <= q < |name| && name[q] == '"'; q;
    assert s[i + 2 + q] == text[2 + q] == '"';
    QuoteEnds(s, i + 2, i + 2 + q);
  }

  lemma MisreadsNumber(s: string, j: nat, index: nat)
    requires Starts(s, j, Decimal(index)) && |Decimal(index)| > SAFE_DIGITS
    ensures Digits(s, j, 0, 0).Some? && Digits(s, j, 0, 0).value.0 != index
  {
    hide Digits, Decimal, IsDigit, Starts, ValueOf;
    var digits := Decimal(index);
    Inside(s, j, digits, 0, SAFE_DIGITS);
    ValueSame(digits, 0, SAFE_DIGITS, s, j, 0);
    FirstDigits(index, SAFE_DIGITS);
    DigitsRead(s, j, 0, 0);
  }

  lemma MisreadsIndex(s: string, i: nat, index: nat, fromBack: bool)
    requires Starts(s, i, Render(Index(index, fromBack))) && !Writable(Index(index, fromBack))
    ensures i + 1 < |s| && s[i] == '['
    ensures ReadIndex(s, i + 1).Some? ==> ReadIndex(s, i + 1).value.token != Index(index, fromBack)
  {
    hide Digits, Decimal;
    var text, digits := Render(Index(index, fromBack)), Decimal(index);
    var at := if fromBack then 3 else 1;
    assert s[i] == text[0] && s[i + 1] == text[1];
    Inside(s, i, text, at, |text| - 1);
    assert text[at..|text| - 1] == digits;
    MisreadsNumber(s, i + at, index);
    assert s[i + at] == digits[0];
    if fromBack {
      assert s[i + 2] == text[2];
    }
  }

  /** Any other token is refused, or read as another one. */
  lemma MisreadsToken(s: string, i: nat, token: Token)
    requires Starts(s, i, Render(token)) && !Writable(token)
    ensures i <= |s| && (Tokenize(s, i).Ok? ==> |Tokenize(s, i).tokens| > 0 && Tokenize(s, i).tokens[0] != token)
  {
    hide ReadKey, ReadIndex, Decimal, Starts;
    match token
    case Key(name) => MisreadsKey(s, i, name);
    case Index(index, fromBack) => MisreadsIndex(s, i, index, fromBack);
  }

  lemma {:induction false} ReadsAll(s: string, i: nat, tokens: seq<Token>)
    requires i <= |s| && s[i..] == RenderAll(tokens)
    ensures Tokenize(s, i) == Ok(tokens) <==> forall k :: 0 <= k < |tokens| ==> Writable(tokens[k])
    decreases |tokens|
  {
    hide Tokenize, Render, Writable;
    if tokens == [] {
      TokenizeEnd(s);
    } else {
      var text := Render(tokens[0]);
      assert s[i..i + |text|] == s[i..][..|text|] == text;
      assert s[i + |text|..] == s[i..][|text|..] == RenderAll(tokens[1..]);
      if Writable(tokens[0]) {
        ReadsToken(s, i, tokens[0]);
        ReadsAll(s, i + |text|, tokens[1..]);
        assert [tokens[0]] + tokens[1..] == tokens;
        assert tokens == [tokens[0]] + tokens[1..];
      } else {
        MisreadsToken(s, i, tokens[0]);
      }
    }
  }

  /** What is written is read back if and only if every token is writable. */
  lemma RoundTrip(tokens: seq<Token>)
    ensures Tokenize("$" + RenderAll(tokens), 1) == Ok(tokens) <==>
      forall k :: 0 <= k < |tokens| ==> Writable(tokens[k])
  {
    var s := "$" + RenderAll(tokens);
    assert s[1..] == RenderAll(tokens);
    ReadsAll(s, 1, tokens);
  }

  // ---- too many digits ----

  /** Where the number of an index starts whose text starts at `i`. */
  function NumberStart(s: string, i: nat): nat
    requires i < |s|
  {
    if s[i] == '#' then i + 2 else if s[i] == '-' then i + 1 else i
  }

  predicate NineteenDigits(s: string, m: nat) {
    m + SAFE_DIGITS <= |s| && forall k :: m <= k < m + SAFE_DIGITS ==> IsDigit(s[k])
  }

  /** An index that starts with nineteen digits, and has no bracket behind them. */
  predicate OpenNineteen(s: string, i: nat) {
    && i + 1 < |s| && s[i] == '[' && (s[i + 1] == '#' ==> i + 2 < |s| && s[i + 2] == '-')
    && var m := NumberStart(s, i + 1);
       NineteenDigits(s, m) && (m + SAFE_DIGITS < |s| ==> s[m + SAFE_DIGITS] != ']')
  }

  predicate EndsWithNineteen(s: string, i: nat) {
    OpenNineteen(s, i) && NumberStart(s, i + 1) + SAFE_DIGITS == |s|
  }

  lemma {:induction false} DigitsIff(s: string, i: nat, read: nat, value: nat)
    requires read <= i <= |s| && read <= SAFE_DIGITS && forall k :: i - read <= k < i ==> IsDigit(s[k])
    ensures match Digits(s, i, read, value)
      case None => true
      case Some(d) =>
        && (d.1 < |s| && s[d.1] == ']' <==>
              !(NineteenDigits(s, i - read) && (i - read + SAFE_DIGITS < |s| ==> s[i - read + SAFE_DIGITS] != ']')))
        && (d.1 == |s| <==> NineteenDigits(s, i - read) && i - read + SAFE_DIGITS == |s|)
    decreases SAFE_DIGITS - read
  {
    assert read < SAFE_DIGITS && i < |s| && !IsDigit(s[i]) ==> !NineteenDigits(s, i - read);
    if read < SAFE_DIGITS && i < |s| && s[i] != ']' && IsDigit(s[i]) {
      DigitsIff(s, i + 1, read + 1, DigitOf(s[i]) + value * 10);
    }
  }

  /** An index that is read is closed by a bracket, unless it has nineteen digits and no
      bracket; the reader leaves the path if and only if it ends with these digits. */
  lemma IndexClosedIff(s: string, i: nat)
    requires i + 1 < |s| && s[i] == '[' && ReadIndex(s, i + 1).Some?
    ensures var next := ReadIndex(s, i + 1).value.next;
      && (next <= |s| && s[next - 1] == ']' <==> !OpenNineteen(s, i))
      && (next > |s| <==> EndsWithNineteen(s, i))
  {
    hide Digits, NineteenDigits;
    var m := NumberStart(s, i + 1);
    if m <= |s| {
      DigitsIff(s, m, 0, 0);
    }
    if s[i + 1] == '*' {
      NoNumber(s, m);
    }
  }

  /** Such an index is read. */
  lemma NineteenRead(s: string, i: nat)
    requires OpenNineteen(s, i)
    ensures ReadIndex(s, i + 1).Some?
  {
    hide Digits;
    DigitsRead(s, NumberStart(s, i + 1), 0, 0);
    assert IsDigit(s[NumberStart(s, i + 1)]);
  }

  lemma {:induction false} DigitsRead(s: string, i: nat, read: nat, value: nat)
    requires read <= SAFE_DIGITS && read <= i <= |s| && NineteenDigits(s, i - read)
    ensures Digits(s, i, read, value) ==
      Some((ValueOf(s, i, i - read + SAFE_DIGITS, value), i - read + SAFE_DIGITS))
    decreases SAFE_DIGITS - read
  {
    if read < SAFE_DIGITS {
      DigitsRead(s, i + 1, read + 1, DigitOf(s[i]) + value * 10);
    }
  }

  lemma NoNumber(s: string, m: nat)
    requires m > |s| || m == |s| || !IsDigit(s[m])
    ensures !NineteenDigits(s, m)
  {
  }

  // ---- on the way through a path ----

  /** The token at `i`, if there is one. */
  function StepAt(s: string, i: nat): Option<Step>
    requires i < |s|
  {
    if i + 1 == |s| || (s[i] != '.' && s[i] != '[') then None
    else if s[i] == '.' then ReadKey(s, i + 1)
    else ReadIndex(s, i + 1)
  }

  /** Reading from `i` on comes to `j`. */
  predicate Reaches(s: string, i: nat, j: nat)
    requires i <= |s|
    decreases |s| - i
  {
    i == j || (i < |s| && StepAt(s, i).Some? && i < StepAt(s, i).value.next <= |s|
      && Reaches(s, StepAt(s, i).value.next, j))
  }

  /** The same paths, read by a reader that looks for the bracket of every index. */
  function Strict(s: string, i: nat): Tokens
    requires i <= |s|
    decreases |s| - i
  {
    if i == |s| then Ok([])
    else
      match StepAt(s, i)
      case None => PathError
      case Some(step) =>
        if step.next <= i || step.next > |s| || (s[i] == '[' && s[step.next - 1] != ']') then PathError
        else Prepend(step.token, Strict(s, step.next))
  }

  lemma TokenizeStep(s: string, i: nat)
    requires i < |s|
    ensures match StepAt(s, i)
      case None => Tokenize(s, i) == PathError
      case Some(step) =>
        && i < step.next
        && Tokenize(s, i) == if step.next > |s| then Overrun else Prepend(step.token, Tokenize(s, step.next))
  {
    hide ReadKey, ReadIndex;
  }

  /** The reader leaves the path if and only if it comes to an index with nineteen digits at
      the end of the path. */
  lemma {:induction false} OverrunIff(s: string, i: nat)
    requires i <= |s|
    ensures Tokenize(s, i) == Overrun <==> exists j :: Reaches(s, i, j) && EndsWithNineteen(s, j)
    decreases |s| - i
  {
    hide Tokenize, StepAt, EndsWithNineteen;
    if i < |s| {
      TokenizeStep(s, i);
      NineteenAt(s, i);
      if StepAt(s, i).Some? && StepAt(s, i).value.next <= |s| {
        var next := StepAt(s, i).value.next;
        OverrunIff(s, next);
        if Tokenize(s, next) == Overrun {
          var j :| Reaches(s, next, j) && EndsWithNineteen(s, j);
          assert Reaches(s, i, j);
        }
      } else if Tokenize(s, i) == Overrun {
        assert Reaches(s, i, i);
      }
    } else {
      NotAtEnd(s, i);
      TokenizeEnd(s);
    }
  }

  lemma NotAtEnd(s: string, i: nat)
    requires i >= |s|
    ensures !EndsWithNineteen(s, i) && !OpenNineteen(s, i)
  {
  }

  /** What an index with nineteen digits means for the step at it. */
  lemma NineteenAt(s: string, i: nat)
    requires i < |s|
    ensures EndsWithNineteen(s, i) <==> StepAt(s, i).Some? && StepAt(s, i).value.next > |s|
    ensures OpenNineteen(s, i) <==>
      StepAt(s, i).Some? && s[i] == '[' && (StepAt(s, i).value.next > |s| || s[StepAt(s, i).value.next - 1] != ']')
  {
    hide ReadKey, ReadIndex, NineteenDigits, NumberStart;
    if OpenNineteen(s, i) {
      NineteenRead(s, i);
    }
    if i + 1 < |s| && s[i] == '[' && ReadIndex(s, i + 1).Some? {
      IndexClosedIff(s, i);
    }
  }

  /** A path that is not refused is read as by the strict reader if and only if reading it
      never comes to an index with nineteen digits and no bracket. */
  lemma {:induction false} StrictIff(s: string, i: nat)
    requires i <= |s|
    ensures Tokenize(s, i) == Strict(s, i) <==>
      Tokenize(s, i) == PathError || !exists j :: Reaches(s, i, j) && OpenNineteen(s, j)
    ensures Strict(s, i) != Overrun && (Strict(s, i).Ok? ==> Tokenize(s, i) == Strict(s, i))
    decreases |s| - i
  {
    hide Tokenize, StepAt, OpenNineteen;
    if i < |s| {
      TokenizeStep(s, i);
      NineteenAt(s, i);
      assert Reaches(s, i, i);
      if StepAt(s, i).Some? && StepAt(s, i).value.next <= |s| {
        var next := StepAt(s, i).value.next;
        StrictIff(s, next);
        if exists j :: Reaches(s, next, j) && OpenNineteen(s, j) {
          var j :| Reaches(s, next, j) && OpenNineteen(s, j);
          assert Reaches(s, i, j);
        }
      }
    } else {
      NotAtEnd(s, i);
      TokenizeEnd(s);
    }
  }

  /** No nineteen digits in a row. */
  ghost predicate ShortNumbers(s: string) {
    forall m: nat :: !NineteenDigits(s, m)
  }

  /** Numbers of up to eighteen digits are always read as they should be. */
  lemma NeverRunsOver(s: string, i: nat)
    requires i <= |s| && ShortNumbers(s)
    ensures Tokenize(s, i) == Strict(s, i) != Overrun
  {
    hide Tokenize, Strict;
    StrictIff(s, i);
  }

  const NINETEEN := "1111111111111111111"

  /** Nineteen digits at the end of a path: the reader steps over the end. */
  lemma RunsOver()
    ensures Tokenize("$[" + NINETEEN, 1) == Overrun
  {
    var s := "$[" + NINETEEN;
    DigitsRead(s, 2, 0, 0);
  }

  /** Nineteen digits and then no bracket: the path is accepted all the same. */
  lemma UnclosedIndexAccepted()
    ensures Tokenize("$[" + NINETEEN + "x", 1).Ok?
  {
    var s := "$[" + NINETEEN + "x";
    DigitsRead(s, 2, 0, 0);
    TokenizeEnd(s);
  }
}
