/** The reader: a stack of the containers it is in, each with its place in the array. */
module JsonSerdeReader {
  import opened Arithmetic
  import opened Wrappers
  import opened JsonSerde

  datatype Frame = Frame(val: Json, next: nat)

  /** The member with the current tag, or the next element. */
  function Upcoming(f: Frame, tag: string): Option<Json> {
    match f.val
    case Obj(fields) => Lookup(fields, tag, 0)
    case Arr(items) => if f.next < |items| then Some(items[f.next]) else None
    case _ => None
  }

  function Moved(f: Frame): Frame {
    if f.val.Arr? then f.(next := f.next + 1) else f
  }

  /** Where reading this value leaves the container it is in. */
  function After(schema: Schema, j: Json, f: Frame): Frame {
    if schema.Nullable? && j.Null? then f else Moved(f)
  }

  function Join(done: seq<Value>, rest: Option<seq<Value>>): Option<seq<Value>> {
    match rest
    case None => None
    case Some(vs) => Some(done + vs)
  }

  lemma JoinMore(done: seq<Value>, v: Value, rest: Option<seq<Value>>)
    ensures Join(done, Join([v], rest)) == Join(done + [v], rest)
  {
    match rest
    case None =>
    case Some(vs) => assert done + ([v] + vs) == (done + [v]) + vs;
  }

  lemma JoinNothing(rest: Option<seq<Value>>)
    ensures Join([], rest) == rest
  {
    match rest
    case None =>
    case Some(vs) => assert [] + vs == vs;
  }

  /** One element, then the others. */
  lemma ItemsStep(item: Schema, items: seq<Json>, c: nat, count: nat)
    requires count > 0 && c < |items|
    ensures var f := After(item, items[c], Frame(Arr(items), c));
      DecodeItems(item, items, c, count) ==
        match Decode(item, items[c]) case None => None
          case Some(v) => Join([v], DecodeItems(item, items, f.next, count - 1))
  {
  }

  lemma {:induction false} MembersFail(props: seq<Prop>, fields: seq<Field>, k: nat, n: nat)
    requires k <= n <= |props| && DecodeMembers(props, fields, k).None?
    ensures DecodeMembers(props, fields, n).None?
    decreases n
  {
    if k < n {
      MembersFail(props, fields, k, n - 1);
    }
  }

  class Reader {
    var stack: seq<Frame>
    var tag: string

    constructor (root: Json)
      ensures stack == [Frame(root, 0)]
    {
      stack, tag := [Frame(root, 0)], "";
    }

    ghost function Top(): Frame
      requires |stack| > 0
      reads this
    {
      stack[|stack| - 1]
    }

    /** In an object the first member with the current tag, in an array the next element;
        only the latter moves the reader on. */
    method GetNextValue() returns (j: Option<Json>)
      requires |stack| > 0
      modifies this`stack
      ensures j == Upcoming(old(Top()), tag)
      ensures j.Some? ==> stack == old(stack)[|old(stack)| - 1 := Moved(old(Top()))]
    {
      var n := |stack| - 1;
      var parent := stack[n];
      if parent.val.Obj? {
        var fields := parent.val.fields;
        var i := 0;
        while i < |fields|
          invariant 0 <= i <= |fields| && Lookup(fields, tag, i) == Lookup(fields, tag, 0) && stack == old(stack)
        {
          if fields[i].tag == tag {
            return Some(fields[i].value);
          }
          i := i + 1;
        }
        return None;
      }
      if !parent.val.Arr? || parent.next >= |parent.val.items| {
        return None;
      }
      stack := stack[n := parent.(next := parent.next + 1)];
      j := Some(parent.val.items[parent.next]);
    }

    /** Looks at the next value and goes back to where it was. */
    method OnNullableBegin() returns (present: Option<bool>)
      requires |stack| > 0
      modifies this`stack
      ensures match Upcoming(old(Top()), tag)
              case None => present == None
              case Some(j) => present == Some(!j.Null?) && stack == old(stack)
    {
      var n := |stack| - 1;
      var saved := stack[n];
      var j := GetNextValue();
      if j.None? {
        return None;
      }
      stack := stack[n := saved];
      present := Some(!j.value.Null?);
    }

    method ReadHuge(j: Json) returns (r: Option<Value>)
      requires |stack| > 0
      modifies this
      ensures r == DecodePlain(HugeKind, j) && (r.Some? ==> stack == old(stack))
    {
      if !j.Obj? {
        return None;
      }
      stack := stack + [Frame(j, 0)];
      tag := "upper";
      var upper := GetNextValue();
      if upper.None? || !(upper.value.Sint? || upper.value.Uint?) {
        return None;
      }
      tag := "lower";
      var lower := GetNextValue();
      if lower.None? || !lower.value.Uint? {
        return None;
      }
      stack := stack[..|stack| - 1];
      r := Some(HugeV(WrapSigned(if upper.value.Sint? then
        upper.value.i else upper.value.u, 64), lower.value.u % Pow2(64)));
    }

    method ReadPlain(kind: Kind) returns (r: Option<Value>)
      requires |stack| > 0
      modifies this
      ensures match Upcoming(old(Top()), old(tag))
              case None => r == None
              case Some(j) =>
                r == DecodePlain(kind, j) && (r.Some? ==> stack == old(stack)[|old(stack)| - 1 := Moved(old(Top()))])
    {
      var j := GetNextValue();
      if j.None? {
        return None;
      }
      if kind.HugeKind? {
        r := ReadHuge(j.value);
      } else {
        r := DecodePlain(kind, j.value);
      }
    }

    /** Reading takes the next value of the innermost container, and leaves the rest of the
        stack as it was. */
    method Read(schema: Schema) returns (r: Option<Value>)
      requires |stack| > 0
      modifies this
      ensures match Upcoming(old(Top()), old(tag))
              case None => r == None
              case Some(j) =>
                && r == Decode(schema, j)
                && (r.Some? ==> stack == old(stack)[|old(stack)| - 1 := After(schema, j, old(Top()))])
      decreases schema, 1
    {
      match schema
      case Plain(kind) => r := ReadPlain(kind);
      case Nullable(inner) =>
        var present := OnNullableBegin();
        if present.None? {
          return None;
        }
        if !present.value {
          return Some(NullV);
        }
        r := Read(inner);
        if r.Some? {
          r := Some(PresentV(r.value));
        }
      case List(item) =>
        var j := GetNextValue();
        if j.None? || !j.value.Arr? {
          return None;
        }
        r := ReadItems(item, j.value.items);
      case Struct(props) =>
        var j := GetNextValue();
        if j.None? || !j.value.Obj? {
          return None;
        }
        r := ReadMembers(props, j.value.fields);
    }

    method ReadItems(item: Schema, items: seq<Json>) returns (r: Option<Value>)
      requires |stack| > 0
      modifies this
      ensures r == Decode(List(item), Arr(items)) && (r.Some? ==> stack == old(stack))
      decreases item, 2
    {
      hide Decode, DecodeItems;
      ghost var below := stack;
      stack := stack + [Frame(Arr(items), 0)];
      var done: seq<Value> := [];
      ghost var c: nat := 0;
      JoinNothing(DecodeItems(item, items, 0, |items|));
      for k := 0 to |items|
        invariant stack == below + [Frame(Arr(items), c)] && c <= k
        invariant DecodeItems(item, items, 0, |items|) == Join(done, DecodeItems(item, items, c, |items| - k))
      {
        ItemsStep(item, items, c, |items| - k);
        var v := Read(item);
        if v.None? {
          ListFails(item, items);
          return None;
        }
        c := After(item, items[c], Frame(Arr(items), c)).next;
        JoinMore(done, v.value, DecodeItems(item, items, c, |items| - k - 1));
        done := done + [v.value];
      }
      stack := stack[..|stack| - 1];
      r := Some(ListV(done));
      ListDone(item, items, c, done);
    }

    method ReadMembers(props: seq<Prop>, fields: seq<Field>) returns (r: Option<Value>)
      requires |stack| > 0
      modifies this
      ensures r == Decode(Struct(props), Obj(fields)) && (r.Some? ==> stack == old(stack))
      decreases props
    {
      hide Decode;
      ghost var below := stack;
      stack := stack + [Frame(Obj(fields), 0)];
      var done: seq<Value> := [];
      for k := 0 to |props|
        invariant stack == below + [Frame(Obj(fields), 0)] && DecodeMembers(props, fields, k) == Some(done)
      {
        tag := props[k].tag;
        var v := Read(props[k].schema);
        if v.None? {
          MembersFail(props, fields, k + 1, |props|);
          StructIs(props, fields);
          return None;
        }
        done := done + [v.value];
      }
      stack := stack[..|stack| - 1];
      r := Some(StructV(done));
      StructIs(props, fields);
    }
  }

  lemma ListFails(item: Schema, items: seq<Json>)
    requires DecodeItems(item, items, 0, |items|).None?
    ensures Decode(List(item), Arr(items)) == None
  {
  }

  lemma ListDone(item: Schema, items: seq<Json>, c: nat, done: seq<Value>)
    requires DecodeItems(item, items, 0, |items|) == Join(done, DecodeItems(item, items, c, 0))
    ensures Decode(List(item), Arr(items)) == Some(ListV(done))
  {
    assert done + [] == done;
  }

  lemma StructIs(props: seq<Prop>, fields: seq<Field>)
    ensures Decode(Struct(props), Obj(fields)) ==
      match DecodeMembers(props, fields, |props|) case None => None case Some(vs) => Some(StructV(vs))
  {
  }

  /** A value written as a property of the root object and read from it again. */
  method SaveAndLoad(schema: Schema, tag: string, v: Value) returns (r: Option<Value>)
    requires Typed(schema, v)
    ensures r == Some(v) <==> NullsLast(schema, v)
  {
    hide Encode, Decode, NullsLast, Typed;
    var writer := new Writer();
    writer.tag := tag;
    writer.Write(schema, v);
    assert writer.stack == [[]];
    assert writer.root == Obj([Field(tag, Encode(schema, v))]);
    var reader := new Reader(writer.root);
    reader.tag := tag;
    LookupAt(writer.root.fields, 0, 0);
    r := reader.Read(schema);
    RoundTrip(schema, v);
  }
}
