/** Paths with wildcards: all values they select, in document order. */
module JsonPathWildcard {
  import opened Wrappers
  import opened JsonPath

  /** A place in a document: which child to take, level by level. */
  type Address = seq<nat>

  predicate Takes(val: Json, token: Token, i: nat) {
    && i < |Children(val)|
    && match token
       case AnyKey => val.Object?
       case AnyIndex => val.Array?
       case _ => Selected(val, token) == Some(i)
  }

  /** The address follows the path. */
  predicate Fits(val: Json, tokens: seq<Token>, a: Address)
    decreases |tokens|
  {
    && |a| == |tokens|
    && (tokens != [] ==> Takes(val, tokens[0], a[0]) && Fits(Children(val)[a[0]], tokens[1..], a[1..]))
  }

  function ValueAt(val: Json, a: Address): Json
    decreases |a|
  {
    if a == [] || a[0] >= |Children(val)| then val else ValueAt(Children(val)[a[0]], a[1..])
  }

  /** Document order. */
  predicate Before(a: Address, b: Address)
    decreases |a|
  {
    a != [] && b != [] && (a[0] < b[0] || (a[0] == b[0] && Before(a[1..], b[1..])))
  }

  function Under(i: nat, places: seq<Address>): seq<Address> {
    seq(|places|, k requires 0 <= k < |places| => [i] + places[k])
  }

  /** All places a path selects. */
  function All(val: Json, tokens: seq<Token>): seq<Address>
    decreases |tokens|, 2, 0
  {
    if tokens == [] then [[]]
    else From(val, tokens, 0)
  }

  /** Those under the children from `i` on. */
  function From(val: Json, tokens: seq<Token>, i: nat): seq<Address>
    requires tokens != [] && i <= |Children(val)|
    decreases |tokens|, 1, |Children(val)| - i
  {
    if i == |Children(val)| then []
    else
      (if Takes(val, tokens[0], i) then Under(i, All(Children(val)[i], tokens[1..])) else []) + From(val, tokens, i + 1)
  }

  // ---- exactly the places that fit, each once, in order ----

  lemma InUnder(i: nat, places: seq<Address>, a: Address)
    ensures a in Under(i, places) <==> a != [] && a[0] == i && a[1..] in places
  {
    if a in Under(i, places) {
      var k :| 0 <= k < |places| && Under(i, places)[k] == a;
      assert a[1..] == places[k];
    }
    if a != [] && a[0] == i && a[1..] in places {
      var k :| 0 <= k < |places| && places[k] == a[1..];
      assert Under(i, places)[k] == a;
    }
  }

  lemma {:induction false} InFrom(val: Json, tokens: seq<Token>, i: nat, a: Address)
    requires tokens != [] && i <= |Children(val)|
    ensures a in From(val, tokens, i) <==>
      a != [] && i <= a[0] < |Children(val)| && Takes(val, tokens[0], a[0])
        && a[1..] in All(Children(val)[a[0]], tokens[1..])
    decreases |Children(val)| - i
  {
    hide Takes, Children, All;
    if i < |Children(val)| {
      InFrom(val, tokens, i + 1, a);
      InUnder(i, All(Children(val)[i], tokens[1..]), a);
    }
  }

  /** A place is selected if and only if it fits the path. */
  lemma {:induction false} SelectedIffFits(val: Json, tokens: seq<Token>, a: Address)
    ensures a in All(val, tokens) <==> Fits(val, tokens, a)
    decreases |tokens|
  {
    hide Takes, Children;
    if tokens != [] {
      InFrom(val, tokens, 0, a);
      if a != [] && a[0] < |Children(val)| {
        SelectedIffFits(Children(val)[a[0]], tokens[1..], a[1..]);
      }
      TakesChild(val, tokens[0], if a == [] then 0 else a[0]);
    }
  }

  lemma TakesChild(val: Json, token: Token, i: nat)
    ensures Takes(val, token, i) ==> i < |Children(val)|
  {
  }

  predicate Ascending(places: seq<Address>) {
    forall j, k :: 0 <= j < k < |places| ==> Before(places[j], places[k])
  }

  lemma UnderAscending(i: nat, places: seq<Address>)
    requires Ascending(places)
    ensures Ascending(Under(i, places))
  {
    var under := Under(i, places);
    forall j, k | 0 <= j < k < |under|
      ensures Before(under[j], under[k])
    {
      assert under[j][1..] == places[j] && under[k][1..] == places[k];
    }
  }

  lemma JoinAscending(a: seq<Address>, b: seq<Address>, i: nat)
    requires Ascending(a) && Ascending(b)
    requires forall k :: 0 <= k < |a| ==> a[k] != [] && a[k][0] == i
    requires forall k :: 0 <= k < |b| ==> b[k] != [] && b[k][0] > i
    ensures Ascending(a + b)
  {
  }

  lemma {:induction false} FromAscending(val: Json, tokens: seq<Token>, i: nat)
    requires tokens != [] && i <= |Children(val)|
    ensures Ascending(From(val, tokens, i))
    ensures forall k :: 0 <= k < |From(val, tokens, i)| ==>
      From(val, tokens, i)[k] != [] && From(val, tokens, i)[k][0] >= i
    decreases |tokens|, 1, |Children(val)| - i
  {
    hide Takes, Children, All, Before;
    if i < |Children(val)| {
      FromAscending(val, tokens, i + 1);
      AllAscending(Children(val)[i], tokens[1..]);
      UnderAscending(i, All(Children(val)[i], tokens[1..]));
      JoinAscending(Under(i, All(Children(val)[i], tokens[1..])), From(val, tokens, i + 1), i);
    }
  }

  lemma {:induction false} AllAscending(val: Json, tokens: seq<Token>)
    ensures Ascending(All(val, tokens))
    decreases |tokens|, 2, 0
  {
    if tokens != [] {
      FromAscending(val, tokens, 0);
    }
  }

  // ---- without wildcards ----

  lemma {:induction false} FromOne(val: Json, tokens: seq<Token>, i: nat)
    requires tokens != [] && !IsWildcard(tokens[0]) && i <= |Children(val)|
    ensures var child := Selected(val, tokens[0]);
      From(val, tokens, i) == if child.Some?
        && i <= child.value then Under(child.value, All(Children(val)[child.value], tokens[1..])) else []
    decreases |Children(val)| - i
  {
    hide Children, Selected, All;
    if i < |Children(val)| {
      FromOne(val, tokens, i + 1);
    }
    SelectedBound(val, tokens[0]);
  }

  lemma SelectedBound(val: Json, token: Token)
    ensures Selected(val, token).Some? ==> Selected(val, token).value < |Children(val)|
  {
  }

  /** A path without wildcards selects its value and nothing else. */
  lemma {:induction false} NoWildcardSelectsOne(val: Json, tokens: seq<Token>)
    requires !HasWildcard(tokens)
    ensures match Eval(val, tokens)
            case None => All(val, tokens) == []
            case Some(v) => |All(val, tokens)| == 1 && ValueAt(val, All(val, tokens)[0]) == v
    decreases |tokens|
  {
    hide Children, Selected;
    if tokens != [] {
      assert tokens == [tokens[0]] + tokens[1..];
      NoWildcardHead(tokens[0], tokens[1..]);
      FromOne(val, tokens, 0);
      SelectedBound(val, tokens[0]);
      var child := Selected(val, tokens[0]);
      if child.Some? {
        NoWildcardSelectsOne(Children(val)[child.value], tokens[1..]);
      }
    }
  }

  // ---- the recursive walk ----

  function Values(val: Json, places: seq<Address>): seq<Json> {
    seq(|places|, k requires 0 <= k < |places| => ValueAt(val, places[k]))
  }

  lemma UnderValues(val: Json, i: nat, places: seq<Address>)
    requires i < |Children(val)|
    ensures Values(val, Under(i, places)) == Values(Children(val)[i], places)
  {
    hide Children;
    forall k | 0 <= k < |places|
      ensures ValueAt(val, Under(i, places)[k]) == ValueAt(Children(val)[i], places[k])
    {
      assert ([i] + places[k])[1..] == places[k];
    }
  }

  lemma ValuesJoin(val: Json, a: seq<Address>, b: seq<Address>)
    ensures Values(val, a + b) == Values(val, a) + Values(val, b)
  {
  }

  /** All values that a validated path selects from position `start` on, in document order. */
  method Collect(root: Json, s: string, start: nat) returns (vals: seq<Json>)
    requires 1 <= start <= |s| && Tokenize(s, start).Ok?
    ensures vals == Values(root, All(root, Tokenize(s, start).tokens))
    decreases |s| - start, 0
  {
    hide Tokenize, ReadKey, ReadIndex, Selected, All, Values;
    var val, ptr := root, start;
    while ptr != |s|
      invariant start <= ptr <= |s| && Tokenize(s, ptr).Ok?
      invariant Values(val, All(val, Tokenize(s, ptr).tokens)) == Values(root, All(root, Tokenize(s, start).tokens))
      decreases |s| - ptr
    {
      TokenizeRest(s, ptr);
      TokenKind(s, ptr + 1);
      var step: Option<Step>;
      var isKey := s[ptr] == '.';
      if isKey {
        step := NextKey(s, ptr + 1);
      } else {
        step := NextIndex(s, ptr + 1);
      }
      var token, next := step.value.token, step.value.next;
      ghost var rest := Tokenize(s, next).tokens;
      if (isKey && !val.Object?) || (!isKey && !val.Array?) {
        NoneSelected(val, token, rest);
        return [];
      }
      if token.AnyKey? || token.AnyIndex? {
        vals := CollectChildren(val, s, next);
        AllSelected(val, token, rest);
        return;
      }
      var found: Option<Json>;
      if isKey {
        found := GetField(val, token.name);
      } else {
        found := GetItem(val, token.index, token.fromBack);
      }
      OneSelected(val, token, rest);
      if found.None? {
        return [];
      }
      val, ptr := found.value, next;
    }
    vals := [val];
    JustHere(s, val);
  }

  lemma JustHere(s: string, val: Json)
    ensures Tokenize(s, |s|).Ok? && Values(val, All(val, Tokenize(s, |s|).tokens)) == [val]
  {
  }

  lemma NoneSelected(val: Json, token: Token, rest: seq<Token>)
    requires (!val.Object? && (token.Key? || token.AnyKey?)) || (!val.Array? && (token.Index? || token.AnyIndex?))
    ensures Values(val, All(val, [token] + rest)) == []
  {
    NothingFrom(val, [token] + rest, 0);
  }

  lemma {:induction false} NothingFrom(val: Json, tokens: seq<Token>, i: nat)
    requires tokens != [] && i <= |Children(val)|
    requires var token := tokens[0];
      (!val.Object? && (token.Key? || token.AnyKey?)) || (!val.Array? && (token.Index? || token.AnyIndex?))
    ensures From(val, tokens, i) == []
    decreases |Children(val)| - i
  {
    if i < |Children(val)| {
      NothingFrom(val, tokens, i + 1);
    }
  }

  lemma OneSelected(val: Json, token: Token, rest: seq<Token>)
    requires !IsWildcard(token)
    ensures Values(val, All(val, [token] + rest)) ==
      match Selected(val, token) case None => [] case Some(i) => Values(Children(val)[i], All(Children(val)[i], rest))
  {
    hide Selected, Children, Values;
    var tokens := [token] + rest;
    assert tokens[1..] == rest;
    FromOne(val, tokens, 0);
    var child := Selected(val, token);
    SelectedBound(val, token);
    if child.Some? {
      UnderValues(val, child.value, All(Children(val)[child.value], rest));
    } else {
      NoValues(val);
    }
  }

  lemma NoValues(val: Json)
    ensures Values(val, []) == []
  {
  }

  /** The values under the children from `i` on, one child after the other. */
  function Each(val: Json, rest: seq<Token>, i: nat): seq<Json>
    requires i <= |Children(val)|
    decreases |Children(val)| - i
  {
    if i == |Children(val)| then []
    else Values(Children(val)[i], All(Children(val)[i], rest)) + Each(val, rest, i + 1)
  }

  lemma AllSelected(val: Json, token: Token, rest: seq<Token>)
    requires (token.AnyKey? && val.Object?) || (token.AnyIndex? && val.Array?)
    ensures Values(val, All(val, [token] + rest)) == Each(val, rest, 0)
  {
    hide Values;
    EachFrom(val, [token] + rest, 0);
    assert ([token] + rest)[1..] == rest;
  }

  lemma {:induction false} EachFrom(val: Json, tokens: seq<Token>, i: nat)
    requires tokens != [] && i <= |Children(val)|
    requires (tokens[0].AnyKey? && val.Object?) || (tokens[0].AnyIndex? && val.Array?)
    ensures Values(val, From(val, tokens, i)) == Each(val, tokens[1..], i)
    decreases |Children(val)| - i
  {
    hide Values, All, Children;
    if i < |Children(val)| {
      EachFrom(val, tokens, i + 1);
      var places := All(Children(val)[i], tokens[1..]);
      UnderValues(val, i, places);
      ValuesJoin(val, Under(i, places), From(val, tokens, i + 1));
    } else {
      NoValues(val);
    }
  }

  method CollectChildren(val: Json, s: string, next: nat) returns (vals: seq<Json>)
    requires 1 <= next <= |s| && Tokenize(s, next).Ok?
    ensures vals == Each(val, Tokenize(s, next).tokens, 0)
    decreases |s| - next, 1
  {
    hide Tokenize, All, Values, Children, Each;
    vals := [];
    var kids := Children(val);
    for i := 0 to |kids|
      invariant Each(val, Tokenize(s, next).tokens, 0) == vals + Each(val, Tokenize(s, next).tokens, i)
    {
      ghost var tokens := Tokenize(s, next).tokens;
      var more := Collect(kids[i], s, next);
      EachStep(val, tokens, i, vals, more);
      vals := vals + more;
    }
    EachEnd(val, Tokenize(s, next).tokens);
  }

  lemma EachStep(val: Json, rest: seq<Token>, i: nat, done: seq<Json>, more: seq<Json>)
    requires i < |Children(val)| && more == Values(Children(val)[i], All(Children(val)[i], rest))
    ensures done + Each(val, rest, i) == (done + more) + Each(val, rest, i + 1)
  {
    hide Values, All, Children;
    assert Each(val, rest, i) == more + Each(val, rest, i + 1);
  }

  lemma EachEnd(val: Json, rest: seq<Token>)
    ensures Each(val, rest, |Children(val)|) == []
  {
  }
}
