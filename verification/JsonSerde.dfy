/** Objects written as JSON and read back. Writer and reader are driven by the same schema
    and keep a stack of the containers they are in. */
module JsonSerde {
  import opened Arithmetic
  import opened Wrappers

  datatype Json =
    | Null
    | Bool(b: bool)
    | Sint(i: int)
    | Uint(u: nat)
    | Real(r: real)
    | Str(s: string)
    | Arr(items: seq<Json>)
    | Obj(fields: seq<Field>)

  datatype Field = Field(tag: string, value: Json)

  // ---- typed values ----

  datatype Kind = BoolKind | SignedKind(bits: nat) | UnsignedKind(bits: nat) | RealKind | StringKind | HugeKind

  datatype Schema =
    | Plain(kind: Kind)
    | Nullable(inner: Schema)
    | List(item: Schema)
    | Struct(props: seq<Prop>)

  datatype Prop = Prop(tag: string, schema: Schema)

  datatype Value =
    | BoolV(b: bool)
    | IntV(i: int)
    | RealV(r: real)
    | StrV(s: string)
    | HugeV(upper: int, lower: nat)
    | NullV
    | PresentV(value: Value)
    | ListV(items: seq<Value>)
    | StructV(members: seq<Value>)

  predicate Signed(i: int, bits: nat) { bits > 0 && 0 - Pow2(bits - 1) <= i < Pow2(bits - 1) }
  predicate Unsigned(i: int, bits: nat) { 0 <= i < Pow2(bits) }

  /** The value belongs to the schema. A value that may be null is not itself of a type that
      may be null, and no two properties have the same tag. */
  predicate Typed(schema: Schema, v: Value)
    decreases schema, v
  {
    match schema
    case Plain(kind) => (
      match kind
      case BoolKind => v.BoolV?
      case SignedKind(bits) => v.IntV? && Signed(v.i, bits)
      case UnsignedKind(bits) => v.IntV? && Unsigned(v.i, bits)
      case RealKind => v.RealV?
      case StringKind => v.StrV?
      case HugeKind => v.HugeV? && Signed(v.upper, 64) && Unsigned(v.lower, 64))
    case Nullable(inner) => v.NullV? || (v.PresentV? && !inner.Nullable? && Typed(inner, v.value))
    case List(item) => v.ListV? && forall i :: 0 <= i < |v.items| ==> Typed(item, v.items[i])
    case Struct(props) =>
      && v.StructV? && |v.members| == |props|
      && (forall i, j :: 0 <= i < j < |props| ==> props[i].tag != props[j].tag)
      && (forall i :: 0 <= i < |props| ==> Typed(props[i].schema, v.members[i]))
  }

  // ---- the text of a value ----

  function Encode(schema: Schema, v: Value): Json
    requires Typed(schema, v)
    decreases schema, v
  {
    match schema
    case Plain(kind) => (
      match kind
      case BoolKind => Bool(v.b)
      case SignedKind(_) => Sint(v.i)
      case UnsignedKind(_) => Uint(v.i)
      case RealKind => Real(v.r)
      case StringKind => Str(v.s)
      case HugeKind => Obj([Field("upper", Sint(v.upper)), Field("lower", Uint(v.lower))]))
    case Nullable(inner) => if v.NullV? then Null else Encode(inner, v.value)
    case List(item) => Arr(seq(|v.items|, i requires 0 <= i < |v.items| => Encode(item, v.items[i])))
    case Struct(props) =>
      Obj(seq(|props|, i requires 0 <= i < |props| => Field(props[i].tag, Encode(props[i].schema, v.members[i]))))
  }

  // ---- writing in place ----

  /** A place inside a document. */
  type Address = seq<nat>

  function Size(j: Json): nat {
    match j
    case Arr(items) => |items|
    case Obj(fields) => |fields|
    case _ => 0
  }

  function Child(j: Json, i: nat): Json
    requires i < Size(j)
  {
    if j.Arr? then j.items[i] else j.fields[i].value
  }

  function SetChild(j: Json, i: nat, c: Json): (r: Json)
    requires i < Size(j)
    ensures Size(r) == Size(j) && Child(r, i) == c && (r.Arr? <==> j.Arr?) && (r.Obj? <==> j.Obj?)
  {
    if j.Arr? then Arr(j.items[i := c]) else Obj(j.fields[i := j.fields[i].(value := c)])
  }

  predicate Within(j: Json, a: Address)
    decreases |a|
  {
    a == [] || (a[0] < Size(j) && Within(Child(j, a[0]), a[1..]))
  }

  function At(j: Json, a: Address): Json
    requires Within(j, a)
    decreases |a|
  {
    if a == [] then j else At(Child(j, a[0]), a[1..])
  }

  predicate IsContainer(j: Json) { j.Arr? || j.Obj? }

  /** One more element of an array, or one more member of an object. */
  function Push(j: Json, tag: string, v: Json): (r: Json)
    requires IsContainer(j)
    ensures Size(r) == Size(j) + 1 && Child(r, Size(j)) == v && (r.Arr? <==> j.Arr?)
  {
    if j.Arr? then Arr(j.items + [v]) else Obj(j.fields + [Field(tag, v)])
  }

  /** The document after `v` has been pushed to the container at `a`. */
  function PushAt(j: Json, a: Address, tag: string, v: Json): Json
    requires Within(j, a) && IsContainer(At(j, a))
    decreases |a|
  {
    if a == [] then Push(j, tag, v) else SetChild(j, a[0], PushAt(Child(j, a[0]), a[1..], tag, v))
  }

  /** The new child can be found where it was pushed. */
  lemma {:induction false} PushedThere(j: Json, a: Address, tag: string, v: Json)
    requires Within(j, a) && IsContainer(At(j, a))
    ensures var r := PushAt(j, a, tag, v);
      && Within(r, a) && At(r, a) == Push(At(j, a), tag, v)
      && Within(r, a + [Size(At(j, a))]) && At(r, a + [Size(At(j, a))]) == v
    decreases |a|
  {
    var n := Size(At(j, a));
    if a == [] {
      assert [n][1..] == [];
    } else {
      PushedThere(Child(j, a[0]), a[1..], tag, v);
      assert (a + [n])[0] == a[0] && (a + [n])[1..] == a[1..] + [n];
    }
  }

  /** Pushing into a child that was just pushed is the same as pushing the fuller child. */
  lemma {:induction false} PushInto(j: Json, a: Address, tag: string, v: Json, tag': string, w: Json)
    requires Within(j, a) && IsContainer(At(j, a)) && IsContainer(v)
    ensures var n := Size(At(j, a));
      var r := PushAt(j, a, tag, v);
      && Within(r, a + [n]) && At(r, a + [n]) == v
      && PushAt(r, a + [n], tag', w) == PushAt(j, a, tag, Push(v, tag', w))
    decreases |a|
  {
    hide Push;
    var n := Size(At(j, a));
    PushedThere(j, a, tag, v);
    if a == [] {
      PushIntoTop(j, tag, v, tag', w);
    } else {
      hide At, Within, PushAt, SetChild;
      WithinChild(j, a);
      var c, b, full := Child(j, a[0]), a[1..], a + [n];
      PushInto(c, b, tag, v, tag', w);
      assert full[0] == a[0] && full[1..] == b + [n];
      var c', r := PushAt(c, b, tag, v), PushAt(j, a, tag, v);
      PushAtChild(j, a, tag, v);
      PushAtChild(r, full, tag', w);
      PushAtChild(j, a, tag, Push(v, tag', w));
      SetTwice(j, a[0], c', PushAt(c', b + [n], tag', w));
    }
  }

  lemma PushAtChild(j: Json, a: Address, tag: string, v: Json)
    requires Within(j, a) && a != [] && IsContainer(At(j, a))
    ensures a[0] < Size(j) && Within(Child(j, a[0]), a[1..]) && IsContainer(At(Child(j, a[0]), a[1..]))
    ensures PushAt(j, a, tag, v) == SetChild(j, a[0], PushAt(Child(j, a[0]), a[1..], tag, v))
  {
    hide SetChild, Push;
  }

  lemma SetTwice(j: Json, i: nat, c: Json, d: Json)
    requires i < Size(j)
    ensures SetChild(SetChild(j, i, c), i, d) == SetChild(j, i, d)
  {
  }

  lemma WithinChild(j: Json, a: Address)
    requires Within(j, a) && a != []
    ensures a[0] < Size(j) && Within(Child(j, a[0]), a[1..]) && At(j, a) == At(Child(j, a[0]), a[1..])
  {
  }

  lemma PushIntoTop(j: Json, tag: string, v: Json, tag': string, w: Json)
    requires IsContainer(j) && IsContainer(v)
    ensures var n, r := Size(j), Push(j, tag, v);
      && Within(r, [n]) && IsContainer(At(r, [n])) && PushAt(j, [], tag, v) == r
      && PushAt(r, [n], tag', w) == PushAt(j, [], tag, Push(v, tag', w))
  {
    var n, r := Size(j), Push(j, tag, v);
    assert [n][1..] == [];
    assert PushAt(r, [n], tag', w) == SetChild(r, n, Push(v, tag', w));
  }

  /** The elements written so far. */
  function EncodeItems(item: Schema, items: seq<Value>, n: nat): seq<Json>
    requires n <= |items| && forall i :: 0 <= i < n ==> Typed(item, items[i])
  {
    seq(n, i requires 0 <= i < n => Encode(item, items[i]))
  }

  function EncodeMembers(props: seq<Prop>, members: seq<Value>, n: nat): seq<Field>
    requires n <= |props| == |members| && forall i :: 0 <= i < n ==> Typed(props[i].schema, members[i])
  {
    seq(n, i requires 0 <= i < n => Field(props[i].tag, Encode(props[i].schema, members[i])))
  }

  lemma NoItems(item: Schema, items: seq<Value>)
    ensures EncodeItems(item, items, 0) == []
  {
  }

  lemma MoreItems(item: Schema, items: seq<Value>, k: nat, tag: string)
    requires k < |items| && forall i :: 0 <= i <= k ==> Typed(item, items[i])
    ensures Push(Arr(EncodeItems(item, items, k)), tag, Encode(item, items[k])) == Arr(EncodeItems(item, items, k + 1))
  {
    hide Encode, Typed;
  }

  lemma NoMembers(props: seq<Prop>, members: seq<Value>)
    requires |props| == |members|
    ensures EncodeMembers(props, members, 0) == []
  {
  }

  lemma MoreMembers(props: seq<Prop>, members: seq<Value>, k: nat)
    requires k < |props| == |members| && forall i :: 0 <= i <= k ==> Typed(props[i].schema, members[i])
    ensures Push(Obj(EncodeMembers(props, members, k)), props[k].tag, Encode(props[k].schema, members[k]))
         == Obj(EncodeMembers(props, members, k + 1))
  {
    hide Encode, Typed;
  }

  class Writer {
    var root: Json
    var tag: string
    var stack: seq<Address>

    /** The innermost container is there. */
    ghost predicate Ready()
      reads this
    {
      |stack| > 0 && Within(root, stack[|stack| - 1]) && IsContainer(At(root, stack[|stack| - 1]))
    }

    ghost function Top(): Address
      requires |stack| > 0
      reads this
    {
      stack[|stack| - 1]
    }

    constructor ()
      ensures Ready() && root == Obj([]) && stack == [[]]
    {
      root, tag, stack := Obj([]), "", [[]];
    }

    method PushValue(v: Json)
      requires Ready()
      modifies this`root
      ensures Ready() && root == PushAt(old(root), Top(), tag, v)
    {
      PushedThere(root, stack[|stack| - 1], tag, v);
      root := PushAt(root, stack[|stack| - 1], tag, v);
    }

    /** A new container is attached first and filled afterwards. */
    method Enter(v: Json)
      requires Ready() && IsContainer(v)
      modifies this`root, this`stack
      ensures stack == old(stack) + [old(Top()) + [Size(At(old(root), old(Top())))]]
      ensures root == PushAt(old(root), old(Top()), tag, v) && Within(root, Top()) && At(root, Top()) == v
    {
      var top := stack[|stack| - 1];
      PushedThere(root, top, tag, v);
      var n := Size(At(root, top));
      root := PushAt(root, top, tag, v);
      stack := stack + [top + [n]];
    }

    method WriteHuge(upper: int, lower: nat)
      requires Ready()
      modifies this
      ensures Ready() && stack == old(stack)
      ensures root ==
        PushAt(old(root), Top(), old(tag), Obj([Field("upper", Sint(upper)), Field("lower", Uint(lower))]))
    {
      hide PushAt, Within, At;
      ghost var root0, a, tag0 := root, Top(), tag;
      Enter(Obj([]));
      tag := "upper";
      PushInto(root0, a, tag0, Obj([]), "upper", Sint(upper));
      PushValue(Sint(upper));
      assert Push(Obj([]), "upper", Sint(upper)) == Obj([Field("upper", Sint(upper))]);
      tag := "lower";
      PushInto(root0, a, tag0, Obj([Field("upper", Sint(upper))]), "lower", Uint(lower));
      PushValue(Uint(lower));
      assert Push(Obj([Field("upper", Sint(upper))]), "lower", Uint(lower)) ==
        Obj([Field("upper", Sint(upper)), Field("lower", Uint(lower))]);
      stack := stack[..|stack| - 1];
      PushedThere(root0, a, tag0, Obj([Field("upper", Sint(upper)), Field("lower", Uint(lower))]));
    }

    method WritePlain(kind: Kind, v: Value)
      requires Ready() && Typed(Plain(kind), v)
      modifies this
      ensures Ready() && stack == old(stack) && root == PushAt(old(root), Top(), old(tag), Encode(Plain(kind), v))
    {
      match kind
      case BoolKind => PushValue(Bool(v.b));
      case SignedKind(_) => PushValue(Sint(v.i));
      case UnsignedKind(_) => PushValue(Uint(v.i));
      case RealKind => PushValue(Real(v.r));
      case StringKind => PushValue(Str(v.s));
      case HugeKind => WriteHuge(v.upper, v.lower);
    }

    /** Writing a value adds its text to the innermost container and leaves the stack as it
        was. */
    method Write(schema: Schema, v: Value)
      requires Ready() && Typed(schema, v)
      modifies this
      ensures Ready() && stack == old(stack) && root == PushAt(old(root), Top(), old(tag), Encode(schema, v))
      decreases schema, v
    {
      match schema
      case Plain(kind) => WritePlain(kind, v);
      case Nullable(inner) =>
        if v.NullV? {
          PushValue(Null);
        } else {
          Write(inner, v.value);
        }
      case List(item) => WriteList(item, v.items, schema, v);
      case Struct(props) => WriteStruct(props, v.members, schema, v);
    }

    method WriteList(item: Schema, items: seq<Value>, ghost schema: Schema, ghost v: Value)
      requires Ready() && schema == List(item) && v == ListV(items) && Typed(schema, v)
      modifies this
      ensures Ready() && stack == old(stack) && root == PushAt(old(root), Top(), old(tag), Encode(schema, v))
      decreases schema, v, 0
    {
      hide PushAt, Encode, Within, At, Push, EncodeItems;
      ghost var root0, a, tag0, stack0 := root, Top(), tag, stack;
      Enter(Arr([]));
      NoItems(item, items);
      for k := 0 to |items|
        invariant Ready() && stack == stack0 + [a + [Size(At(root0, a))]]
        invariant root == PushAt(root0, a, tag0, Arr(EncodeItems(item, items, k)))
      {
        PushInto(root0, a, tag0, Arr(EncodeItems(item, items, k)), tag, Encode(item, items[k]));
        MoreItems(item, items, k, tag);
        Write(item, items[k]);
      }
      stack := stack[..|stack| - 1];
      PushedThere(root0, a, tag0, Arr(EncodeItems(item, items, |items|)));
      assert Encode(schema, v) == Arr(EncodeItems(item, items, |items|)) by { EncodeList(item, items); }
    }

    method WriteStruct(props: seq<Prop>, members: seq<Value>, ghost schema: Schema, ghost v: Value)
      requires Ready() && schema == Struct(props) && v == StructV(members) && Typed(schema, v)
      modifies this
      ensures Ready() && stack == old(stack) && root == PushAt(old(root), Top(), old(tag), Encode(schema, v))
      decreases schema, v, 0
    {
      hide PushAt, Encode, Within, At, Push, EncodeMembers;
      ghost var root0, a, tag0, stack0 := root, Top(), tag, stack;
      Enter(Obj([]));
      NoMembers(props, members);
      for k := 0 to |props|
        invariant Ready() && stack == stack0 + [a + [Size(At(root0, a))]]
        invariant root == PushAt(root0, a, tag0, Obj(EncodeMembers(props, members, k)))
      {
        tag := props[k].tag;
        PushInto(root0, a, tag0, Obj(EncodeMembers(props, members, k)), tag, Encode(props[k].schema, members[k]));
        MoreMembers(props, members, k);
        Write(props[k].schema, members[k]);
      }
      stack := stack[..|stack| - 1];
      PushedThere(root0, a, tag0, Obj(EncodeMembers(props, members, |props|)));
      assert Encode(schema, v) == Obj(EncodeMembers(props, members, |props|)) by { EncodeStruct(props, members); }
    }
  }

  lemma EncodeList(item: Schema, items: seq<Value>)
    requires Typed(List(item), ListV(items))
    ensures Encode(List(item), ListV(items)) == Arr(EncodeItems(item, items, |items|))
  {
  }

  lemma EncodeStruct(props: seq<Prop>, members: seq<Value>)
    requires Typed(Struct(props), StructV(members))
    ensures Encode(Struct(props), StructV(members)) == Obj(EncodeMembers(props, members, |props|))
  {
  }

  // ---- reading ----

  /** The first member with this tag. */
  function Lookup(fields: seq<Field>, tag: string, i: nat): Option<Json>
    requires i <= |fields|
    decreases |fields| - i
  {
    if i == |fields| then None
    else if fields[i].tag == tag then Some(fields[i].value)
    else Lookup(fields, tag, i + 1)
  }

  lemma {:induction false} LookupIs(fields: seq<Field>, tag: string, i: nat)
    requires i <= |fields|
    ensures match Lookup(fields, tag, i)
      case None => forall j :: i <= j < |fields| ==> fields[j].tag != tag
      case Some(value) =>
        exists k ::
          i <= k < |fields| && fields[k] == Field(tag, value) && forall j :: i <= j < k ==> fields[j].tag != tag
    decreases |fields| - i
  {
    if i < |fields| {
      if fields[i].tag == tag {
        assert fields[i] == Field(tag, fields[i].value);
      } else {
        LookupIs(fields, tag, i + 1);
      }
    }
  }

  /** Numbers are cut to the width asked for. */
  function WrapSigned(i: int, bits: nat): int {
    if bits == 0 then 0 else Wrapped(i, Pow2(bits - 1), Pow2(bits))
  }

  function Wrapped(i: int, half: int, range: nat): int
    requires range > 0
  {
    (i + half) % range - half
  }

  function DecodePlain(kind: Kind, j: Json): Option<Value> {
    match kind
    case BoolKind => if j.Bool? then Some(BoolV(j.b)) else None
    case SignedKind(bits) =>
      if j.Sint? then Some(IntV(WrapSigned(j.i, bits))) else if j.Uint? then Some(IntV(WrapSigned(j.u, bits))) else None
    case UnsignedKind(bits) => if j.Uint? then Some(IntV(j.u % Pow2(bits))) else None
    case RealKind => if j.Real? then Some(RealV(j.r)) else None
    case StringKind => if j.Str? then Some(StrV(j.s)) else None
    case HugeKind =>
      if !j.Obj? then None
      else
        match (Lookup(j.fields, "upper", 0), Lookup(j.fields, "lower", 0))
        case (Some(Sint(upper)), Some(Uint(lower))) => Some(HugeV(WrapSigned(upper, 64), lower % Pow2(64)))
        case (Some(Uint(upper)), Some(Uint(lower))) => Some(HugeV(WrapSigned(upper, 64), lower % Pow2(64)))
        case _ => None
  }

  function Decode(schema: Schema, j: Json): Option<Value>
    decreases schema, 1
  {
    match schema
    case Plain(kind) => DecodePlain(kind, j)
    case Nullable(inner) =>
      if j.Null? then Some(NullV)
      else (match Decode(inner, j) case None => None case Some(v) => Some(PresentV(v)))
    case List(item) =>
      if !j.Arr? then None
      else (match DecodeItems(item, j.items, 0, |j.items|) case None => None case Some(vs) => Some(ListV(vs)))
    case Struct(props) =>
      if !j.Obj? then None
      else (match DecodeMembers(props, j.fields, |props|) case None => None case Some(vs) => Some(StructV(vs)))
  }

  /** The next `count` elements from `c` on. To see whether an element is null the reader
      looks ahead; it goes on to the next element only by reading one that is not null. */
  function DecodeItems(item: Schema, items: seq<Json>, c: nat, count: nat): Option<seq<Value>>
    decreases item, 2, count
  {
    if count == 0 then Some([])
    else if c >= |items| then None
    else if item.Nullable? && items[c].Null? then
      match DecodeItems(item, items, c, count - 1)
      case None => None
      case Some(vs) => Some([NullV] + vs)
    else
      match Decode(item, items[c])
      case None => None
      case Some(v) =>
        (match DecodeItems(item, items, c + 1, count - 1)
         case None => None
         case Some(vs) => Some([v] + vs))
  }

  function DecodeMembers(props: seq<Prop>, fields: seq<Field>, n: nat): Option<seq<Value>>
    requires n <= |props|
    decreases props, n
  {
    if n == 0 then Some([])
    else
      match DecodeMembers(props, fields, n - 1)
      case None => None
      case Some(vs) => (
        match Lookup(fields, props[n - 1].tag, 0)
        case None => None
        case Some(j) => (match Decode(props[n - 1].schema, j) case None => None case Some(v) => Some(vs + [v])))
  }

  /** A property is read from the first member with its tag. */
  predicate ReadFrom(fields: seq<Field>, k: nat, prop: Prop, v: Value) {
    && k < |fields| && fields[k].tag == prop.tag && (forall j :: 0 <= j < k ==> fields[j].tag != prop.tag)
    && Decode(prop.schema, fields[k].value) == Some(v)
  }

  ghost predicate IsRead(fields: seq<Field>, prop: Prop, v: Value) {
    exists k :: ReadFrom(fields, k, prop, v)
  }

  lemma ReadIff(fields: seq<Field>, prop: Prop, v: Value)
    ensures IsRead(fields, prop, v) <==>
      Lookup(fields, prop.tag, 0).Some? && Decode(prop.schema, Lookup(fields, prop.tag, 0).value) == Some(v)
  {
    hide Decode, Lookup;
    LookupIs(fields, prop.tag, 0);
    if Lookup(fields, prop.tag, 0).Some? {
      var value := Lookup(fields, prop.tag, 0).value;
      var k: nat :| k < |fields| && fields[k] == Field(prop.tag, value)
        && forall j :: 0 <= j < k ==> fields[j].tag != prop.tag;
      assert Decode(prop.schema, value) == Some(v) ==> ReadFrom(fields, k, prop, v);
    }
  }

  /** The members of an object are read if and only if each is, whatever their order and
      whatever else the object holds. */
  lemma {:induction false} MembersRead(props: seq<Prop>, fields: seq<Field>, n: nat, vs: seq<Value>)
    requires n <= |props|
    ensures DecodeMembers(props, fields, n) == Some(vs) <==>
      |vs| == n && forall i :: 0 <= i < n ==> IsRead(fields, props[i], vs[i])
    decreases n
  {
    hide Decode, IsRead, Lookup;
    if n > 0 && vs != [] {
      var front, last := vs[..|vs| - 1], vs[|vs| - 1];
      assert vs == front + [last];
      MembersRead(props, fields, n - 1, front);
      ReadIff(fields, props[n - 1], last);
      if |vs| == n && forall i :: 0 <= i < n ==> IsRead(fields, props[i], vs[i]) {
        forall i | 0 <= i < n - 1
          ensures IsRead(fields, props[i], front[i])
        {
          assert front[i] == vs[i];
        }
      }
      if DecodeMembers(props, fields, n) == Some(vs) {
        var some := DecodeMembers(props, fields, n - 1).value;
        assert (some + [last])[..|some|] == some;
        assert some == front;
      }
    }
  }

  // ---- what was written is read back ----

  lemma WrapKeeps(i: int, bits: nat)
    ensures Signed(i, bits) ==> WrapSigned(i, bits) == i
    ensures Unsigned(i, bits) ==> i % Pow2(bits) == i
  {
    if Signed(i, bits) {
      assert Pow2(bits) == 2 * Pow2(bits - 1);
      SmallMod(i + Pow2(bits - 1), Pow2(bits));
    }
    if Unsigned(i, bits) {
      SmallMod(i, Pow2(bits));
    }
  }

  lemma SmallMod(a: int, b: int)
    requires 0 <= a < b
    ensures a % b == a
  {
  }

  lemma {:induction false} LookupAt(fields: seq<Field>, i: nat, k: nat)
    requires i <= k < |fields| && forall a, b :: 0 <= a < b < |fields| ==> fields[a].tag != fields[b].tag
    ensures Lookup(fields, fields[k].tag, i) == Some(fields[k].value)
    decreases k - i
  {
    if i < k {
      LookupAt(fields, i + 1, k);
    }
  }

  lemma PlainRoundTrip(kind: Kind, v: Value)
    requires Typed(Plain(kind), v)
    ensures DecodePlain(kind, Encode(Plain(kind), v)) == Some(v)
  {
    hide Pow2, WrapSigned;
    match kind
    case SignedKind(bits) => WrapKeeps(v.i, bits);
    case UnsignedKind(bits) => WrapKeeps(v.i, bits);
    case HugeKind =>
      WrapKeeps(v.upper, 64);
      WrapKeeps(v.lower, 64);
      var fields := [Field("upper", Sint(v.upper)), Field("lower", Uint(v.lower))];
      assert "upper"[0] != "lower"[0];
      LookupAt(fields, 0, 0);
      LookupAt(fields, 0, 1);
    case _ =>
  }

  /** What a document says, without the schema. */
  predicate Shows(j: Json, v: Value)
    decreases v
  {
    match v
    case BoolV(b) => j == Bool(b)
    case IntV(i) => j == Sint(i) || (i >= 0 && j == Uint(i))
    case RealV(r) => j == Real(r)
    case StrV(s) => j == Str(s)
    case HugeV(upper, lower) => j == Obj([Field("upper", Sint(upper)), Field("lower", Uint(lower))])
    case NullV => j == Null
    case PresentV(value) => Shows(j, value)
    case ListV(items) => j.Arr? && |j.items| == |items| && forall i :: 0 <= i < |items| ==> Shows(j.items[i], items[i])
    case StructV(members) =>
      j.Obj? && |j.fields| == |members| && forall i :: 0 <= i < |members| ==> Shows(j.fields[i].value, members[i])
  }

  /** The text written for a value shows it, each member under its own tag. */
  lemma {:induction false} EncodeShows(schema: Schema, v: Value)
    requires Typed(schema, v)
    ensures Shows(Encode(schema, v), v)
    ensures schema.Struct? ==>
      && Encode(schema, v).Obj? && |Encode(schema, v).fields| == |schema.props|
      && forall i :: 0 <= i < |schema.props| ==> Encode(schema, v).fields[i].tag == schema.props[i].tag
    decreases schema, v
  {
    match schema
    case Plain(kind) =>
    case Nullable(inner) =>
      if v.PresentV? {
        EncodeShows(inner, v.value);
      }
    case List(item) =>
      forall i | 0 <= i < |v.items|
        ensures Shows(Encode(item, v.items[i]), v.items[i])
      {
        EncodeShows(item, v.items[i]);
      }
    case Struct(props) =>
      forall i | 0 <= i < |props|
        ensures Shows(Encode(props[i].schema, v.members[i]), v.members[i])
      {
        EncodeShows(props[i].schema, v.members[i]);
      }
  }

  predicate Congruent(a: int, b: int, range: nat)
    requires range > 0
  {
    (a - b) % range == 0
  }

  /** An integer is read from a number of either sign, as the one number of the width asked
      for that differs from it by a multiple of the range; from anything else it is not. */
  lemma SignedRead(j: Json, bits: nat)
    requires bits > 0
    ensures match DecodePlain(SignedKind(bits), j)
      case None => !j.Sint? && !j.Uint?
      case Some(v) =>
        && v.IntV? && Signed(v.i, bits) && (j.Sint? || j.Uint?)
        && Congruent(v.i, if j.Sint? then j.i else j.u, Pow2(bits))
  {
    hide Pow2, WrapSigned, Signed, Congruent;
    if j.Sint? || j.Uint? {
      WrapSignedIs(if j.Sint? then j.i else j.u, bits);
    }
  }

  lemma UnsignedRead(j: Json, bits: nat)
    ensures match DecodePlain(UnsignedKind(bits), j)
      case None => !j.Uint?
      case Some(v) => v.IntV? && Unsigned(v.i, bits) && j.Uint? && Congruent(v.i, j.u, Pow2(bits))
  {
    hide Pow2;
    if j.Uint? {
      WrapIs(j.u, 0, Pow2(bits));
    }
  }

  lemma WrapSignedIs(i: int, bits: nat)
    requires bits > 0
    ensures Signed(WrapSigned(i, bits), bits) && Congruent(WrapSigned(i, bits), i, Pow2(bits))
  {
    hide Pow2, Congruent, Wrapped;
    Doubled(bits);
    WrapIs(i, Pow2(bits - 1), Pow2(bits));
  }

  lemma Doubled(bits: nat)
    requires bits > 0
    ensures Pow2(bits) == 2 * Pow2(bits - 1)
  {
  }

  lemma WrapIs(i: int, half: int, range: nat)
    requires range > 0
    ensures var r := Wrapped(i, half, range); -half <= r < range - half && Congruent(r, i, range)
  {
    var q := (i + half) / range;
    Split(i + half, range);
    assert (i + half) % range - half - i == (-q) * range;
    Divide((-q) * range, range, -q, 0);
  }

  /** Only null is written as null, so that a value that is there is not taken for one that
      is not. */
  lemma NotNull(schema: Schema, v: Value)
    requires Typed(schema, v) && !schema.Nullable?
    ensures !Encode(schema, v).Null?
  {
  }

  /** In every list the nulls come last. */
  predicate NullsLast(schema: Schema, v: Value)
    requires Typed(schema, v)
    decreases schema, v
  {
    match schema
    case Plain(_) => true
    case Nullable(inner) => v.PresentV? ==> NullsLast(inner, v.value)
    case List(item) =>
      && (forall i :: 0 <= i < |v.items| ==> NullsLast(item, v.items[i]))
      && (forall i, j :: 0 <= i < j < |v.items| && v.items[i].NullV? ==> v.items[j].NullV?)
    case Struct(props) => forall i :: 0 <= i < |props| ==> NullsLast(props[i].schema, v.members[i])
  }

  /** What was written is read back if and only if the nulls come last in every list. */
  lemma {:induction false} RoundTrip(schema: Schema, v: Value)
    requires Typed(schema, v)
    ensures Decode(schema, Encode(schema, v)) == Some(v) <==> NullsLast(schema, v)
    decreases schema, v, 1
  {
    match schema
    case Plain(kind) => PlainRoundTrip(kind, v);
    case Nullable(inner) =>
      if v.PresentV? {
        NotNull(inner, v.value);
        RoundTrip(inner, v.value);
      }
    case List(item) =>
      EncodeList(item, v.items);
      ItemsRoundTrip(item, v, 0);
      assert v.items[0..] == v.items;
    case Struct(props) =>
      EncodeStruct(props, v.members);
      MembersRoundTrip(props, v, |props|);
      assert v.members[..|props|] == v.members;
  }

  predicate NullsLastFrom(item: Schema, items: seq<Value>, c: nat)
    requires c <= |items| && forall i :: 0 <= i < |items| ==> Typed(item, items[i])
  {
    && (forall i :: c <= i < |items| ==> NullsLast(item, items[i]))
    && (forall i, j :: c <= i < j < |items| && items[i].NullV? ==> items[j].NullV?)
  }

  function Nulls(n: nat): seq<Value> { seq(n, _ => NullV) }

  /** From the first null on the reader sees nothing but null. */
  lemma {:induction false} Stuck(item: Schema, items: seq<Json>, c: nat, count: nat)
    requires item.Nullable? && c < |items| && items[c].Null?
    ensures DecodeItems(item, items, c, count) == Some(Nulls(count))
    decreases count
  {
    if count == 0 {
      assert Nulls(0) == [];
    } else {
      Stuck(item, items, c, count - 1);
      assert [NullV] + Nulls(count - 1) == Nulls(count);
    }
  }

  lemma NullTail(item: Schema, items: seq<Value>, c: nat)
    requires c < |items| && items[c].NullV? && item.Nullable? && forall i :: 0 <= i < |items| ==> Typed(item, items[i])
    ensures items[c..] == Nulls(|items| - c) <==> NullsLastFrom(item, items, c)
  {
    if items[c..] == Nulls(|items| - c) {
      forall i | c <= i < |items|
        ensures items[i].NullV?
      {
        assert items[c..][i - c] == Nulls(|items| - c)[i - c];
      }
    }
  }

  lemma {:induction false} ItemsRoundTrip(item: Schema, v: Value, c: nat)
    requires Typed(List(item), v) && c <= |v.items|
    ensures DecodeItems(item, EncodeItems(item, v.items, |v.items|), c, |v.items| - c) == Some(v.items[c..])
      <==> NullsLastFrom(item, v.items, c)
    decreases List(item), v, 0, |v.items| - c
  {
    hide Encode, Decode, NullsLast, Typed;
    TypedItems(item, v);
    var items, n := v.items, |v.items|;
    if c == n {
      assert items[c..] == [];
    } else {
      var texts := EncodeItems(item, items, n);
      NullText(item, items[c]);
      if item.Nullable? && items[c].NullV? {
        Stuck(item, texts, c, n - c);
        NullTail(item, items, c);
      } else {
        ItemsRoundTrip(item, v, c + 1);
        RoundTrip(item, items[c]);
        SameHead(items, c, Decode(item, texts[c]), DecodeItems(item, texts, c + 1, n - c - 1));
        NullsStep(item, items, c);
      }
    }
  }

  /** A list equals another if and only if its first element and its rest do. */
  lemma SameHead(items: seq<Value>, c: nat, head: Option<Value>, rest: Option<seq<Value>>)
    requires c < |items|
    ensures head.Some? && rest.Some? ==>
      ([head.value] + rest.value == items[c..] <==> head.value == items[c] && rest.value == items[c + 1..])
  {
    assert items[c..] == [items[c]] + items[c + 1..];
    if head.Some? && rest.Some? && [head.value] + rest.value == items[c..] {
      assert head.value == ([head.value] + rest.value)[0] == items[c];
      assert rest.value == ([head.value] + rest.value)[1..] == items[c + 1..];
    }
  }

  lemma SameLast(items: seq<Value>, n: nat, front: Option<seq<Value>>, last: Option<Value>)
    requires n < |items|
    ensures front.Some? && last.Some? ==>
      (front.value + [last.value] == items[..n + 1] <==> front.value == items[..n] && last.value == items[n])
  {
    assert items[..n + 1] == items[..n] + [items[n]];
    if front.Some? && last.Some? && front.value + [last.value] == items[..n + 1] {
      assert |front.value| == n;
      assert last.value == (front.value + [last.value])[n] == items[n];
      assert front.value == (front.value + [last.value])[..n] == items[..n];
    }
  }

  lemma TypedItems(item: Schema, v: Value)
    requires Typed(List(item), v)
    ensures v.ListV? && forall i :: 0 <= i < |v.items| ==> Typed(item, v.items[i])
  {
  }

  lemma NullsStep(item: Schema, items: seq<Value>, c: nat)
    requires c < |items| && (forall i :: 0 <= i < |items| ==> Typed(item, items[i])) && !items[c].NullV?
    ensures NullsLastFrom(item, items, c) <==> NullsLast(item, items[c]) && NullsLastFrom(item, items, c + 1)
  {
    hide NullsLast, Typed;
  }

  lemma NullText(schema: Schema, v: Value)
    requires Typed(schema, v)
    ensures Encode(schema, v).Null? <==> v.NullV?
    ensures v.NullV? ==> schema.Nullable?
  {
    if schema.Nullable? && v.PresentV? {
      NotNull(schema.inner, v.value);
    }
  }

  lemma StructFacts(props: seq<Prop>, v: Value)
    requires Typed(Struct(props), v)
    ensures v.StructV? && |v.members| == |props|
    ensures forall i :: 0 <= i < |props| ==> Typed(props[i].schema, v.members[i])
    ensures var fields := EncodeMembers(props, v.members, |props|);
      && |fields| == |props|
      && forall i :: 0 <= i < |props| ==>
           && fields[i].value == Encode(props[i].schema, v.members[i])
           && Lookup(fields, props[i].tag, 0) == Some(fields[i].value)
  {
    hide Encode, Lookup;
    var fields := EncodeMembers(props, v.members, |props|);
    forall i | 0 <= i < |props|
      ensures fields[i].value == Encode(props[i].schema, v.members[i])
      ensures Lookup(fields, props[i].tag, 0) == Some(fields[i].value)
    {
      LookupAt(fields, 0, i);
    }
  }

  lemma {:induction false} MembersRoundTrip(props: seq<Prop>, v: Value, n: nat)
    requires Typed(Struct(props), v) && n <= |props|
    ensures DecodeMembers(props, EncodeMembers(props, v.members, |props|), n) == Some(v.members[..n])
      <==> forall i :: 0 <= i < n ==> NullsLast(props[i].schema, v.members[i])
    decreases Struct(props), v, 0, n
  {
    hide Encode, Decode, NullsLast, Lookup, EncodeMembers, Typed;
    StructFacts(props, v);
    if n > 0 {
      var fields := EncodeMembers(props, v.members, |props|);
      MembersRoundTrip(props, v, n - 1);
      RoundTrip(props[n - 1].schema, v.members[n - 1]);
      SameLast(v.members, n - 1, DecodeMembers(props, fields, n - 1), Decode(props[n - 1].schema, fields[n - 1].value));
    }
  }

  /** A null in front of another element: the element is lost. */
  lemma NullHidesTheNext()
    ensures var item := Nullable(Struct([Prop("a", Plain(BoolKind))]));
      var schema, v := List(item), ListV([NullV, PresentV(StructV([BoolV(true)]))]);
      Typed(schema, v) && Decode(schema, Encode(schema, v)) == Some(ListV([NullV, NullV]))
  {
    var item := Nullable(Struct([Prop("a", Plain(BoolKind))]));
    var v := ListV([NullV, PresentV(StructV([BoolV(true)]))]);
    assert Typed(item, NullV) && Typed(item, PresentV(StructV([BoolV(true)])));
    EncodeList(item, v.items);
    var texts := EncodeItems(item, v.items, 2);
    assert texts[0] == Null;
    Stuck(item, texts, 0, 2);
    assert Nulls(2) == [NullV, NullV];
  }
}
