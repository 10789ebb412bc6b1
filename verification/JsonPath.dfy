/** The path language of the JSON functions: how a path is read, and what it selects. */
module JsonPath {
  import opened Wrappers

  datatype Token = Key(name: string) | AnyKey | Index(index: nat, fromBack: bool) | AnyIndex

  /** One token and where the next one starts. */
  datatype Step = Step(token: Token, next: nat)

  datatype Tokens = Ok(tokens: seq<Token>) | PathError | Overrun

  const SAFE_DIGITS := 19
  const NO_INDEX := 4294967295

  // ---- reading a path ----

  /** Where an object key stops: at the closing quote, or before the next token. */
  function StringEnd(s: string, i: nat, escaped: bool): (e: nat)
    requires i <= |s|
    ensures i <= e <= |s|
    decreases |s| - i
  {
    if i == |s| then i
    else if escaped && s[i] == '"' then i
    else if !escaped && (s[i] == '.' || s[i] == '[') then i
    else StringEnd(s, i + 1, escaped)
  }

  function ReadKey(s: string, i: nat): (r: Option<Step>)
    requires i < |s|
    ensures r.Some? ==> i < r.value.next <= |s|
  {
    if s[i] == '*' then Some(Step(AnyKey, i + 1))
    else
      var escaped := s[i] == '"';
      var j := if escaped then i + 1 else i;
      var e := StringEnd(s, j, escaped);
      if e == j || (escaped && e == |s|) then None
      else Some(Step(Key(s[j..e]), if escaped then e + 1 else e))
  }

  predicate IsDigit(c: char) { '0' <= c <= '9' }

  function DigitOf(c: char): nat
    requires IsDigit(c)
  {
    c as int - '0' as int
  }

  /** The digits from `i` on up to a closing bracket, but no more than fit. */
  function Digits(s: string, i: nat, read: nat, value: nat): (r: Option<(nat, nat)>)
    requires i <= |s| && read <= SAFE_DIGITS
    ensures r.Some? ==> i <= r.value.1 <= |s|
    decreases SAFE_DIGITS - read
  {
    if read == SAFE_DIGITS then Some((value, i))
    else if i == |s| then None
    else if s[i] == ']' then Some((value, i))
    else if IsDigit(s[i]) then Digits(s, i + 1, read + 1, DigitOf(s[i]) + value * 10)
    else None
  }

  /** The next token may start behind the end: the bracket after nineteen digits is not
      looked at. */
  function ReadIndex(s: string, i: nat): (r: Option<Step>)
    requires i < |s|
    ensures r.Some? ==> i < r.value.next <= |s| + 1
  {
    if s[i] == '*' then
      if i + 1 == |s| || s[i + 1] != ']' then None else Some(Step(AnyIndex, i + 2))
    else if s[i] == '#' && (i + 1 == |s| || (s[i + 1] != ']' && s[i + 1] != '-')) then None
    else if s[i] == '#' && s[i + 1] == ']' then Some(Step(Index(NO_INDEX, false), i + 2))
    else
      var j := if s[i] == '#' then i + 2 else if s[i] == '-' then i + 1 else i;
      match Digits(s, j, 0, 0)
      case None => None
      case Some(d) => if d.1 == j then None else Some(Step(Index(d.0, j != i), d.1 + 1))
  }

  function Prepend(token: Token, rest: Tokens): Tokens {
    match rest
    case Ok(tokens) => Ok([token] + tokens)
    case _ => rest
  }

  function Extend(done: seq<Token>, rest: Tokens): Tokens {
    match rest
    case Ok(tokens) => Ok(done + tokens)
    case _ => rest
  }

  lemma ExtendMore(done: seq<Token>, token: Token, rest: Tokens)
    ensures Extend(done, Prepend(token, rest)) == Extend(done + [token], rest)
  {
  }

  /** All tokens from position `i` on. */
  function Tokenize(s: string, i: nat): Tokens
    requires i <= |s|
    decreases |s| - i
  {
    if i == |s| then Ok([])
    else if i + 1 == |s| || (s[i] != '.' && s[i] != '[') then PathError
    else
      match if s[i] == '.' then ReadKey(s, i + 1) else ReadIndex(s, i + 1)
      case None => PathError
      case Some(step) => if step.next > |s| then Overrun else Prepend(step.token, Tokenize(s, step.next))
  }

  predicate IsWildcard(token: Token) { token.AnyKey? || token.AnyIndex? }

  predicate HasWildcard(tokens: seq<Token>) {
    exists i :: 0 <= i < |tokens| && IsWildcard(tokens[i])
  }

  // ---- the loops ----

  method ScanString(s: string, i: nat, escaped: bool) returns (size: nat)
    requires i <= |s|
    ensures size == if escaped && StringEnd(s, i, escaped) == |s| then 0 else StringEnd(s, i, escaped) - i
  {
    var ptr := i;
    if escaped {
      while ptr != |s|
        invariant i <= ptr <= |s| && StringEnd(s, ptr, true) == StringEnd(s, i, true)
        decreases |s| - ptr
      {
        if s[ptr] == '"' {
          break;
        }
        ptr := ptr + 1;
      }
      size := if ptr == |s| then 0 else ptr - i;
    } else {
      while ptr != |s|
        invariant i <= ptr <= |s| && StringEnd(s, ptr, false) == StringEnd(s, i, false)
        decreases |s| - ptr
      {
        if s[ptr] == '.' || s[ptr] == '[' {
          break;
        }
        ptr := ptr + 1;
      }
      size := ptr - i;
    }
  }

  method ScanInteger(s: string, i: nat) returns (size: nat, index: nat)
    requires i <= |s|
    ensures match Digits(s, i, 0, 0)
            case None => size == 0
            case Some(d) => size == d.1 - i && index == d.0
  {
    var ptr := i;
    index := 0;
    var read := 0;
    while read < SAFE_DIGITS
      invariant 0 <= read <= SAFE_DIGITS && i <= ptr <= |s|
      invariant Digits(s, ptr, read, index) == Digits(s, i, 0, 0)
    {
      if ptr == |s| {
        return 0, index;
      }
      if s[ptr] == ']' {
        break;
      }
      if !IsDigit(s[ptr]) {
        return 0, index;
      }
      index := DigitOf(s[ptr]) + index * 10;
      ptr := ptr + 1;
      read := read + 1;
    }
    size := ptr - i;
  }

  method NextKey(s: string, i: nat) returns (r: Option<Step>)
    requires i < |s|
    ensures r == ReadKey(s, i)
  {
    if s[i] == '*' {
      return Some(Step(AnyKey, i + 1));
    }
    var escaped := s[i] == '"';
    var ptr := if escaped then i + 1 else i;
    var size := ScanString(s, ptr, escaped);
    if size == 0 {
      return None;
    }
    var name := s[ptr..ptr + size];
    ptr := ptr + size;
    if escaped {
      ptr := ptr + 1;
    }
    r := Some(Step(Key(name), ptr));
  }

  method NextIndex(s: string, i: nat) returns (r: Option<Step>)
    requires i < |s|
    ensures r == ReadIndex(s, i)
  {
    var ptr, fromBack := i, false;
    if s[ptr] == '*' {
      ptr := ptr + 1;
      if ptr == |s| || s[ptr] != ']' {
        return None;
      }
      return Some(Step(AnyIndex, ptr + 1));
    }
    if s[ptr] == '#' {
      ptr := ptr + 1;
      if ptr == |s| {
        return None;
      }
      if s[ptr] == ']' {
        return Some(Step(Index(NO_INDEX, false), ptr + 1));
      }
      if s[ptr] != '-' {
        return None;
      }
      fromBack := true;
    }
    if s[ptr] == '-' {
      ptr := ptr + 1;
      fromBack := true;
    }
    var size, index := ScanInteger(s, ptr);
    if size == 0 {
      return None;
    }
    r := Some(Step(Index(index, fromBack), ptr + size + 1));
  }

  datatype PathType = Regular | Wildcard | Invalid | RanOver

  /** Reads the whole path once, before it is used. */
  method ValidatePath(s: string) returns (r: PathType)
    requires |s| >= 1 && s[0] == '$'
    ensures match Tokenize(s, 1)
            case Ok(tokens) => r == if HasWildcard(tokens) then Wildcard else Regular
            case PathError => r == Invalid
            case Overrun => r == RanOver
  {
    hide ReadKey, ReadIndex, HasWildcard, IsWildcard;
    var ptr: nat := 1;
    ghost var done: seq<Token> := [];
    r := Regular;
    NoWildcard();
    while ptr != |s|
      invariant 1 <= ptr <= |s| && (r == Regular || r == Wildcard)
      invariant r == Wildcard <==> HasWildcard(done)
      invariant Tokenize(s, 1) == Extend(done, Tokenize(s, ptr))
      decreases |s| - ptr
    {
      var c := s[ptr];
      ptr := ptr + 1;
      if ptr == |s| {
        return Invalid;
      }
      var step: Option<Step>;
      if c == '.' {
        step := NextKey(s, ptr);
      } else if c == '[' {
        step := NextIndex(s, ptr);
      } else {
        return Invalid;
      }
      if step.None? {
        return Invalid;
      }
      if step.value.next > |s| {
        return RanOver;
      }
      if IsWildcard(step.value.token) {
        r := Wildcard;
      }
      WildcardMore(done, step.value.token);
      ExtendMore(done, step.value.token, Tokenize(s, step.value.next));
      ptr := step.value.next;
      done := done + [step.value.token];
    }
    assert done + [] == done;
  }

  lemma NoWildcard()
    ensures !HasWildcard([])
  {
  }

  lemma WildcardMore(tokens: seq<Token>, token: Token)
    ensures HasWildcard(tokens + [token]) <==> HasWildcard(tokens) || IsWildcard(token)
  {
    var more := tokens + [token];
    assert more[|tokens|] == token;
    if HasWildcard(tokens) {
      var i :| 0 <= i < |tokens| && IsWildcard(tokens[i]);
      assert IsWildcard(more[i]);
    }
  }

  // ---- what a path selects ----

  datatype Json = Object(fields: seq<Field>) | Array(items: seq<Json>) | Scalar(text: string)
  datatype Field = Field(key: string, value: Json)

  /** The first field with this key. */
  function FindField(fields: seq<Field>, key: string, i: nat): Option<nat>
    requires i <= |fields|
    decreases |fields| - i
  {
    if i == |fields| then None
    else if fields[i].key == key then Some(i)
    else FindField(fields, key, i + 1)
  }

  /** The place an index stands for; counting from the back starts at one. */
  function Place(size: nat, index: nat, fromBack: bool): Option<nat> {
    if !fromBack || index == 0 then (if index < size then Some(index) else None)
    else if index <= size then Some(size - index)
    else None
  }

  function Children(val: Json): seq<Json> {
    match val
    case Object(fields) => seq(|fields|, i requires 0 <= i < |fields| => fields[i].value)
    case Array(items) => items
    case Scalar(_) => []
  }

  /** The child that a token without wildcard selects. */
  function Selected(val: Json, token: Token): (r: Option<nat>)
    ensures r.Some? ==> r.value < |Children(val)|
  {
    match token
    case Key(name) =>
      if val.Object? then FoundIn(val.fields, name, 0); FindField(val.fields, name, 0) else None
    case Index(index, fromBack) => if val.Array? then Place(|val.items|, index, fromBack) else None
    case _ => None
  }

  lemma {:induction false} FoundIn(fields: seq<Field>, key: string, i: nat)
    requires i <= |fields|
    ensures FindField(fields, key, i).Some? ==> FindField(fields, key, i).value < |fields|
    decreases |fields| - i
  {
    if i < |fields| {
      FoundIn(fields, key, i + 1);
    }
  }

  /** The value at the end of a path without wildcards. */
  function Eval(val: Json, tokens: seq<Token>): Option<Json>
    decreases |tokens|
  {
    if tokens == [] then Some(val)
    else
      match Selected(val, tokens[0])
      case None => None
      case Some(i) => Eval(Children(val)[i], tokens[1..])
  }

  method GetField(val: Json, name: string) returns (r: Option<Json>)
    requires val.Object?
    ensures r == match Selected(val, Key(name)) case None => None case Some(i) => Some(Children(val)[i])
  {
    var i := 0;
    while i < |val.fields|
      invariant 0 <= i <= |val.fields| && FindField(val.fields, name, i) == FindField(val.fields, name, 0)
    {
      if val.fields[i].key == name {
        return Some(val.fields[i].value);
      }
      i := i + 1;
    }
    r := None;
  }

  method GetItem(val: Json, index: nat, fromBack: bool) returns (r: Option<Json>)
    requires val.Array?
    ensures r == match Selected(val, Index(index, fromBack)) case None => None case Some(i) => Some(Children(val)[i])
  {
    var at: int := index;
    if fromBack && at != 0 {
      at := |val.items| - at;
    }
    r := if 0 <= at < |val.items| then Some(val.items[at]) else None;
  }

  /** The rest of a validated path is a validated path. */
  lemma TokenizeRest(s: string, i: nat)
    requires i < |s| && Tokenize(s, i).Ok?
    ensures i + 1 < |s| && (s[i] == '.' || s[i] == '[')
    ensures var step := if s[i] == '.' then ReadKey(s, i + 1) else ReadIndex(s, i + 1);
      && step.Some? && i < step.value.next <= |s| && Tokenize(s, step.value.next).Ok?
      && Tokenize(s, i).tokens == [step.value.token] + Tokenize(s, step.value.next).tokens
  {
    hide ReadKey, ReadIndex;
  }

  /** A key is read where a key stands, an index where an index stands. */
  lemma TokenKind(s: string, i: nat)
    requires i < |s|
    ensures ReadKey(s, i).Some? ==> ReadKey(s, i).value.token.Key? || ReadKey(s, i).value.token.AnyKey?
    ensures ReadIndex(s, i).Some? ==> ReadIndex(s, i).value.token.Index? || ReadIndex(s, i).value.token.AnyIndex?
  {
    hide Digits, StringEnd;
  }

  /** Follows a validated path without wildcards. */
  method GetPath(root: Json, s: string) returns (r: Option<Json>)
    requires |s| >= 1 && Tokenize(s, 1).Ok? && !HasWildcard(Tokenize(s, 1).tokens)
    ensures r == Eval(root, Tokenize(s, 1).tokens)
  {
    hide Tokenize, ReadKey, ReadIndex, Selected, HasWildcard, IsWildcard;
    var val, ptr := root, 1;
    while ptr != |s|
      invariant 1 <= ptr <= |s| && Tokenize(s, ptr).Ok? && !HasWildcard(Tokenize(s, ptr).tokens)
      invariant Eval(val, Tokenize(s, ptr).tokens) == Eval(root, Tokenize(s, 1).tokens)
      decreases |s| - ptr
    {
      TokenizeRest(s, ptr);
      TokenKind(s, ptr + 1);
      var step: Option<Step>;
      var next: Option<Json>;
      if s[ptr] == '.' {
        step := NextKey(s, ptr + 1);
        NoWildcardHead(step.value.token, Tokenize(s, step.value.next).tokens);
        if !val.Object? {
          NothingThere(val, step.value.token);
          return None;
        }
        next := GetField(val, step.value.token.name);
      } else {
        step := NextIndex(s, ptr + 1);
        NoWildcardHead(step.value.token, Tokenize(s, step.value.next).tokens);
        if !val.Array? {
          NothingThere(val, step.value.token);
          return None;
        }
        next := GetItem(val, step.value.token.index, step.value.token.fromBack);
      }
      EvalHead(val, step.value.token, Tokenize(s, step.value.next).tokens);
      if next.None? {
        return None;
      }
      val, ptr := next.value, step.value.next;
    }
    r := Some(val);
    TokenizeEnd(s);
  }

  lemma TokenizeEnd(s: string)
    ensures Tokenize(s, |s|) == Ok([])
  {
  }

  lemma NoWildcardHead(token: Token, rest: seq<Token>)
    requires !HasWildcard([token] + rest)
    ensures !IsWildcard(token) && !HasWildcard(rest)
    ensures token.Key? || token.Index?
  {
    var all := [token] + rest;
    assert all[0] == token;
    forall i | 0 <= i < |rest|
      ensures !IsWildcard(rest[i])
    {
      assert all[i + 1] == rest[i];
    }
  }

  lemma NothingThere(val: Json, token: Token)
    requires (token.Key? && !val.Object?) || (token.Index? && !val.Array?)
    ensures Selected(val, token) == None
    ensures forall rest :: Eval(val, [token] + rest) == None
  {
  }

  lemma EvalHead(val: Json, token: Token, rest: seq<Token>)
    ensures Eval(val, [token] + rest) == match Selected(val, token) case None => None
      case Some(i) => Eval(Children(val)[i], rest)
  {
    hide Selected;
    assert ([token] + rest)[1..] == rest;
  }
}
