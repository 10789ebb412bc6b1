/** The thread that scans such a file: its buffer, its place in it, and what it carries
    over. */
module CarryReader {
  import opened Arithmetic
  import opened Wrappers
  import opened JsonText
  import opened JsonValues
  import opened NdjsonLines
  import opened NdjsonBuffers
  import opened CarryScan
  import opened CarryCuts
  import opened CarryMeaning

  /** The loop over the values of a buffer: the units, where it stops, and what is left
      over for the next buffer. */
  method TakeValues(c: Input, capacity: nat, b: string, start: nat, position: nat, last: bool)
    returns (units: seq<string>, offset: nat, carried: string, error: Option<Error>)
    requires InputOk(c) && capacity > PADDING && position <= |c.file| && start <= |b| && |b| + PADDING <= capacity
    ensures start <= offset <= |b| && |units| <= VECTOR_SIZE && |carried| + PADDING < capacity
    ensures |carried| <= |b| && carried == b[|b| - |carried|..]
    ensures error.Some? ==> Rest(c, capacity, b, start, position, last, 0) == Err(error.value)
    ensures error.None? && offset < |b| ==>
      carried == ""
        && Rest(c, capacity, b, start, position, last, 0) ==
           Prepend(units, Rest(c, capacity, b, offset, position, last, 0))
    ensures error.None? && offset == |b| ==>
      Rest(c, capacity, b, start, position, last, 0) == Prepend(units, Refill(c, capacity, carried, position, last))
    ensures error.None? ==> if units == [] then offset == |b| && carried == "" else offset > start
  {
    hide Indent, NextJson, Trim, Refill, Rest;
    units, offset, carried, error := [], start, "", None;
    while |units| < VECTOR_SIZE
      invariant |units| <= VECTOR_SIZE && start <= offset <= |b|
      invariant |units| > 0 ==> offset > start
      invariant Rest(c, capacity, b, start, position, last, 0) ==
        Prepend(units, Rest(c, capacity, b, offset, position, last, |units|))
    {
      var i := SkipWhitespace(b, offset);
      if i == |b| {
        RestBlank(c, capacity, b, offset, position, last, |units|);
        offset := i;
        return;
      }
      var j := FindNextJson(b, i, |b|);
      RestStep(c, capacity, b, offset, position, last, |units|, i, j);
      if j == |b| && !last {
        if |units| == 0 {
          error := Some(ObjectTooLarge);
        } else {
          carried, offset := b[i..], |b|;
        }
        return;
      }
      if !c.valid(b[i..j]) {
        error := Some(InvalidJson);
        return;
      }
      var unit := TrimWhitespace(b, i, j);
      var next := j;
      if c.isArray {
        next := SkipWhitespace(b, j);
        if next == |b| || !IsSeparator(b[next]) {
          error := Some(UnexpectedCharacter);
          return;
        }
        next := next + 1;
      }
      offset := SkipWhitespace(b, next);
      PrependMore(units, unit, Rest(c, capacity, b, offset, position, last, |units| + 1));
      units := units + [unit];
    }
    RestFull(c, capacity, b, offset, position, last);
  }

  lemma FromStart(s: string, n: nat)
    requires n <= |s|
    ensures "" + s[0..n] == s[..n]
  {
  }

  class Reader {
    const input: Input
    const capacity: nat

    var filesLeft: bool          // the file has not been taken yet
    var hasReader: bool          // the file is open
    var started: bool            // a buffer has been read
    var buffer: string
    var offset: nat
    var carried: string          // the text of a value that was cut off
    var position: nat            // where the next read starts
    var last: bool               // the last read reached the end of the file

    ghost predicate Valid()
      reads this
    {
      && InputOk(input) && capacity > PADDING
      && position <= |input.file| && offset <= |buffer| && |buffer| + PADDING <= capacity
      && |carried| + PADDING < capacity && (carried != "" ==> offset == |buffer|)
      && Window(input, buffer, position) && Window(input, carried, position)
      && (hasReader ==> !filesLeft)
      && (!hasReader ==> offset == |buffer|)
      && (filesLeft || (hasReader && !started) ==> !started && position == 0 && buffer == "" && carried == "" && !last)
    }

    /** What the rest of the scan will come to. */
    ghost function Expect(): Outcome
      requires Valid()
      reads this
    {
      if filesLeft || (hasReader && !started) then Buffered(input, capacity)
      else if !hasReader then Ok([])
      else if offset == |buffer| then Refill(input, capacity, carried, position, last)
      else Rest(input, capacity, buffer, offset, position, last, 0)
    }

    constructor (input: Input, capacity: nat)
      requires InputOk(input) && capacity > PADDING
      ensures Valid() && Expect() == Buffered(input, capacity)
      ensures this.input == input && this.capacity == capacity
    {
      this.input, this.capacity := input, capacity;
      filesLeft, hasReader, started := true, false, false;
      buffer, offset, carried, position, last := "", 0, "", 0, false;
    }

    method SkipOverArrayStart() returns (error: Option<Error>)
      requires offset == 0
      modifies this`offset
      ensures match ArrayStart(buffer, |buffer|)
              case Bad(e) => error == Some(e)
              case At(p) => error == None && offset == p
    {
      offset := SkipWhitespace(buffer, 0);
      if offset == |buffer| {
        return None;
      }
      if buffer[offset] != '[' {
        return Some(NotAnArray);
      }
      offset := SkipWhitespace(buffer, offset + 1);
      if offset >= |buffer| {
        return Some(MissingBracket);
      }
      if buffer[offset] == ']' {
        offset := SkipWhitespace(buffer, offset + 1);
        if offset != |buffer| {
          return Some(TrailingData);
        }
      }
      return None;
    }

    /** Reads behind what is carried over. The buffer is then the text of the file from the
        value that was cut off on, as much of it as there is room for; it is the last one if
        room is left. This fails if the file has ended with the value cut off. */
    method Fill() returns (error: Option<Error>)
      requires Valid() && hasReader && !last && offset == |buffer|
      modifies this`buffer, this`offset, this`position, this`last, this`started, this`carried
      ensures error == if old(position) == |input.file| && old(carried) != "" then Some(InvalidAtEnd) else None
      ensures error.None? ==>
        && Window(input, buffer, position) && position - |buffer| == old(position) - |old(carried)|
        && position == Min(position - |buffer| + capacity - PADDING, |input.file|)
        && last == (|buffer| < capacity - PADDING)
        && offset == 0 && carried == "" && started
      ensures error.None? ==> buffer == old(carried) + input.file[old(position)..position]
    {
      hide Same;
      var request := capacity - |carried| - PADDING;
      var size := Min(request, |input.file| - position);
      last := size < request;
      if size == 0 && carried != "" {
        return Some(InvalidAtEnd);
      }
      WindowGrows(input, carried, position, size);
      buffer := carried + input.file[position..position + size];
      position := position + size;
      offset, carried, started := 0, "", true;
      error := None;
    }

    /** Reads a buffer, and opens the array in the first one. */
    method ReadBuffer() returns (error: Option<Error>)
      requires Valid() && hasReader && !last && offset == |buffer|
      modifies this`buffer, this`offset, this`position, this`last, this`started, this`carried
      ensures error.Some? ==> old(Expect()) == Err(error.value)
      ensures error.None? && buffer == "" ==>
        Valid() && last && offset == |buffer| && position == old(position) && Expect() == old(Expect()) == Ok([])
      ensures error.None? && buffer != "" ==>
        Valid() && started && carried == "" && position > old(position)
        && old(Expect()) == Rest(input, capacity, buffer, offset, position, last, 0)
    {
      hide Rest, Indent, ArrayStart;
      var first := !started;
      error := Fill();
      if error.None? && first {
        FromStart(input.file, position);
        if input.isArray {
          error := SkipOverArrayStart();
        }
      }
    }

    /** Goes on to the next buffer; `more` is false when the file is used up. */
    method ReadNextBuffer() returns (more: bool, error: Option<Error>)
      requires Valid() && offset == |buffer|
      modifies this
      ensures error.Some? ==> old(Expect()) == Err(error.value)
      ensures error.None? && !more ==> Valid() && Expect() == old(Expect()) == Ok([])
      ensures error.None? && more ==>
        Valid() && hasReader && started && carried == "" && position > old(position)
        && old(Expect()) == Rest(input, capacity, buffer, offset, position, last, 0)
    {
      error := None;
      while true
        invariant Valid() && offset == |buffer| && Expect() == old(Expect()) && position == old(position)
        invariant error == None
        decreases if filesLeft then 1 else 0, if hasReader then 1 else 0, if last then 0 else 1
      {
        if hasReader {
          if last {
            hasReader, carried := false, "";
            continue;
          }
          error := ReadBuffer();
          if error.Some? {
            return false, error;
          }
          if buffer != "" {
            return true, None;
          }
        } else {
          last := false;
          if !filesLeft {
            return false, None;
          }
          filesLeft, hasReader := false, true;
        }
      }
    }

    /** Takes values out of the buffer, at most as many as one call hands out. */
    method ParseNextChunk() returns (units: seq<string>, error: Option<Error>)
      requires Valid() && hasReader && started && carried == ""
      modifies this`offset, this`carried
      ensures error.Some? ==> Rest(input, capacity, buffer, old(offset), position, last, 0) == Err(error.value)
      ensures error.None? ==>
        && Valid() && |units| <= VECTOR_SIZE
        && Rest(input, capacity, buffer, old(offset), position, last, 0) == Prepend(units, Expect())
        && (units == [] ==> offset == |buffer| && carried == "") && (units != [] ==> offset > old(offset))
    {
      hide Rest, Refill, Buffered, Window;
      units, offset, carried, error := TakeValues(input, capacity, buffer, offset, position, last);
      WindowSuffix(input, buffer, |buffer| - |carried|, position);
    }

    /** One call of the scan: some values, or none when the file is used up. */
    method ReadNext() returns (units: seq<string>, error: Option<Error>)
      requires Valid()
      modifies this
      ensures error.Some? ==> old(Expect()) == Err(error.value)
      ensures error.None? ==>
        && Valid() && |units| <= VECTOR_SIZE && old(Expect()) == Prepend(units, Expect())
        && (units == [] ==> old(Expect()) == Ok([]))
        && (units != [] ==>
             position > old(position) || (position == old(position) && |buffer| == old(|buffer|)
               && offset > old(offset)))
    {
      hide Rest, Refill, Buffered;
      units, error := [], None;
      while |units| == 0
        invariant Valid() && error == None && |units| <= VECTOR_SIZE && old(Expect()) == Prepend(units, Expect())
        invariant position > old(position) || (position == old(position) && buffer == old(buffer)
          && offset >= old(offset))
        invariant units != [] && position == old(position) ==> offset > old(offset)
        decreases |input.file| - position, |buffer| - offset
      {
        if offset == |buffer| {
          var more: bool;
          more, error := ReadNextBuffer();
          if error.Some? || !more {
            return;
          }
        }
        units, error := ParseNextChunk();
        if error.Some? {
          return;
        }
      }
    }

    /** The calls of the scan until there is nothing left. */
    method ReadAll() returns (r: Outcome)
      requires Valid()
      modifies this
      ensures r == old(Expect())
    {
      hide Expect, Valid, Prepend;
      var all: seq<string> := [];
      PrependNone(Expect());
      while true
        invariant Valid() && old(Expect()) == Prepend(all, Expect())
        decreases |input.file| - position, |buffer| - offset
      {
        KnownBounds();
        ghost var before := Expect();
        var units, error := ReadNext();
        PrependEnds(all, before);
        if error.Some? {
          return Err(error.value);
        }
        KnownBounds();
        if units == [] {
          return Ok(all);
        }
        PrependJoin(all, units, Expect());
        all := all + units;
      }
    }

    lemma KnownBounds()
      requires Valid()
      ensures position <= |input.file| && offset <= |buffer|
    {
    }
  }

  lemma PrependNone(rest: Outcome)
    ensures Prepend([], rest) == rest
  {
  }

  lemma PrependEnds(units: seq<string>, rest: Outcome)
    ensures rest.Err? ==> Prepend(units, rest) == rest
    ensures rest == Ok([]) ==> Prepend(units, rest) == Ok(units)
  {
  }

  lemma PrependJoin(units: seq<string>, more: seq<string>, rest: Outcome)
    ensures Prepend(units, Prepend(more, rest)) == Prepend(units + more, rest)
  {
  }

  /** A whole scan, from opening the file to its end. */
  method ScanFile(c: Input, capacity: nat) returns (r: Outcome)
    requires InputOk(c) && capacity > PADDING
    ensures r == Buffered(c, capacity)
    ensures r.Ok? ==> (r == OnePass(c) <==> !StartsShort(c, capacity))
    ensures OnePass(c).Ok? ==> (r == OnePass(c) <==> !StartsShort(c, capacity) && NoBadCut(c, capacity))
    ensures r.Ok? && !StartsShort(c, capacity) ==> Accepted(c, r.units)
    ensures forall units :: Accepted(c, units) ==>
      (r == Ok(units) <==> !StartsShort(c, capacity) && NoBadCut(c, capacity))
  {
    hide Buffered, OnePass, StartsShort, NoBadCut, Accepted;
    var reader := new Reader(c, capacity);
    r := reader.ReadAll();
    if r.Ok? {
      BufferedIsOnePass(c, capacity);
    }
    if OnePass(c).Ok? {
      BufferedIff(c, capacity);
    }
    forall units: seq<string>
      ensures OnePass(c) == Ok(units) <==> Accepted(c, units)
    {
      OnePassIs(c, units);
    }
  }
}
