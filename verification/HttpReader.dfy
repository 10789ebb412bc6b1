/** The buffered reader of a file that is fetched by range requests. */
module HttpReader {
  import opened Arithmetic
  import opened Slices

  const READ_BUFFER_LEN := 1000000

  /** A range request with inclusive bounds, as in section 14.1.2 of RFC 9110. */
  datatype Range = Range(first: nat, last: nat)

  datatype Call = Seek(location: nat) | ReadAt(size: nat, location: nat) | ReadNext(size: nat)

  // ---- a plain file ----

  /** What a call returns on a plain file, and where it leaves the file position. */
  function PlainResult(file: string, offset: nat, call: Call): string
    requires offset <= |file| && InFile(file, call)
  {
    match call
    case Seek(_) => ""
    case ReadAt(size, location) => file[location..location + size]
    case ReadNext(size) => file[offset..offset + Min(|file| - offset, size)]
  }

  function PlainOffset(file: string, offset: nat, call: Call): (r: nat)
    requires offset <= |file| && InFile(file, call)
    ensures r <= |file|
  {
    match call
    case Seek(location) => location
    case ReadAt(size, location) => location + size
    case ReadNext(size) => offset + Min(|file| - offset, size)
  }

  predicate InFile(file: string, call: Call) {
    match call
    case Seek(location) => location <= |file|
    case ReadAt(size, location) => location + size <= |file|
    case ReadNext(_) => true
  }

  function Plain(file: string, offset: nat, calls: seq<Call>): seq<string>
    requires offset <= |file| && forall i :: 0 <= i < |calls| ==> InFile(file, calls[i])
    decreases |calls|
  {
    if calls == [] then []
    else [PlainResult(file, offset, calls[0])] + Plain(file, PlainOffset(file, offset, calls[0]), calls[1..])
  }

  /** A read goes on where the file position was set, or where the last read stopped. */
  lemma ReadsGoOn(file: string, offset: nat, first: Call, size: nat)
    requires offset <= |file| && InFile(file, first)
    ensures Plain(file, offset, [first, ReadNext(size)]) ==
      match first
      case Seek(location) => ["", file[location..Min(location + size, |file|)]]
      case ReadAt(n, location) => [file[location..location + n], file[location + n..Min(location + n + size, |file|)]]
      case ReadNext(n) =>
        var mid := Min(offset + n, |file|);
        [file[offset..mid], file[mid..Min(mid + size, |file|)]]
  {
    var calls := [first, ReadNext(size)];
    assert calls[1..] == [ReadNext(size)];
    var next := PlainOffset(file, offset, first);
    assert Plain(file, next, calls[1..]) == [PlainResult(file, next, ReadNext(size))];
  }

  /** The range asked for when the bytes from `from` on are missing and those up to `to` are
      wanted: a whole buffer if the file is that long, or more if more is wanted. */
  function Wanted(file: string, from: nat, to: nat): seq<Range>
    requires to <= |file|
  {
    if from >= to then [] else [Range(from, Max(to, Min(from + READ_BUFFER_LEN, |file|)) - 1)]
  }

  function Max(a: nat, b: nat): nat { if a >= b then a else b }

  lemma WantedIs(file: string, from: nat, to: nat)
    requires to <= |file|
    ensures from >= to ==> Wanted(file, from, to) == []
    ensures from < to ==>
      var more := Min(READ_BUFFER_LEN, |file| - from);
      Wanted(file, from, to) == [if to - from > more then Range(from, to - 1) else Range(from, from + more - 1)]
  {
  }

  lemma Front(s: string, front: string, middle: string, behind: string)
    requires s == front + middle + behind && |front| == 0
    ensures |middle| <= |s| && s[..|middle|] == middle
  {
  }

  /** Only bytes of the file are asked for. */
  predicate InRange(requests: seq<Range>, size: nat) {
    forall i :: 0 <= i < |requests| ==> requests[i].first <= requests[i].last < size
  }

  lemma OneRangeMore(requests: seq<Range>, size: nat, range: Range)
    requires InRange(requests, size) && range.first <= range.last < size
    ensures InRange(requests + [range], size)
  {
  }

  // ---- the reader ----

  class HttpFile {
    const file: string           // what the server holds
    const direct: bool           // buffering is switched off
    const cached: bool           // the whole file has been downloaded
    const readBuffer: array<char>
    var available: nat
    var index: nat
    var offset: nat
    var start: nat
    var end: nat
    ghost var requests: seq<Range>

    /** The buffer mirrors the part of the file between `start` and `end`. */
    ghost predicate Valid()
      reads this, readBuffer
    {
      && readBuffer.Length == READ_BUFFER_LEN
      && start <= end <= |file| && end - start <= READ_BUFFER_LEN
      && readBuffer[..end - start] == file[start..end]
      && InRange(requests, |file|)
    }

    constructor (file: string, direct: bool, cached: bool)
      ensures Valid() && fresh(readBuffer) && this.file == file && offset == 0 && requests == []
    {
      this.file, this.direct, this.cached := file, direct, cached;
      readBuffer := new char[READ_BUFFER_LEN];
      available, index, offset, start, end, requests := 0, 0, 0, 0, 0, [];
    }

    /** Fetches `size` bytes from `location` into `into`, from `at` on. */
    method GetRange(location: nat, into: array<char>, at: nat, size: nat)
      requires 0 < size && location + size <= |file| && at + size <= into.Length
      modifies into, this`requests
      ensures requests == old(requests) + [Range(location, location + size - 1)]
      ensures into[..] == old(into[..at]) + file[location..location + size] + old(into[at + size..])
    {
      var i := 0;
      while i < size
        invariant 0 <= i <= size && requests == old(requests)
        invariant forall k :: 0 <= k < at || at + i <= k < into.Length ==> into[k] == old(into[k])
        invariant forall k :: at <= k < at + i ==> into[k] == file[location + k - at]
      {
        into[at + i] := file[location + i];
        i := i + 1;
      }
      requests := requests + [Range(location, location + size - 1)];
    }

    /** What is left in the buffer goes on at the current position. */
    ghost predicate InStep()
      reads this
    {
      available > 0 ==> start + index == offset && offset + available == end
    }

    /** Takes `size` bytes out of the buffer. */
    method Take(out: array<char>, at: nat, size: nat, ghost location: nat)
      requires offset == location + at <= |file| && at <= out.Length && out[..at] == file[location..offset]
      requires Valid() && InStep() && 0 < size <= available && at + size <= out.Length && out != readBuffer
      modifies out, this`index, this`available, this`offset
      ensures Valid() && InStep() && available == old(available) - size && offset == old(offset) + size
      ensures out[..at + size] == file[location..offset]
    {
      CopyOut(out, at, size, location);
      index, available, offset := index + size, available - size, offset + size;
    }

    method CopyOut(out: array<char>, at: nat, size: nat, ghost location: nat)
      requires offset == location + at <= |file| && at <= out.Length && out[..at] == file[location..offset]
      requires Valid() && InStep() && 0 < size <= available && at + size <= out.Length && out != readBuffer
      modifies out
      ensures out[..at + size] == file[location..offset + size]
    {
      for i := 0 to size
        invariant out[..at + i] == file[location..offset + i] && readBuffer[..] == old(readBuffer[..])
      {
        assert readBuffer[index + i] == file[offset + i] by { Mirrors(index + i); }
        out[at + i] := readBuffer[index + i];
        assert out[..at + i + 1] == file[location..offset + i] + [file[offset + i]];
      }
    }

    /** The buffer holds what stands in the file from its start on. */
    lemma Mirrors(k: nat)
      requires Valid() && start + k < end
      ensures k < readBuffer.Length && start + k < |file| && readBuffer[k] == file[start + k]
    {
      assert readBuffer[..end - start][k] == file[start..end][k];
    }

    /** Fills the buffer from the current position on. */
    method Fill(size: nat)
      requires Valid() && 0 < size <= READ_BUFFER_LEN && offset + size <= |file|
      modifies readBuffer, this`requests, this`available, this`index, this`start, this`end
      ensures Valid() && InStep() && available == size
      ensures requests == old(requests) + [Range(offset, offset + size - 1)]
    {
      hide InRange;
      OneRangeMore(requests, |file|, Range(offset, offset + size - 1));
      ghost var front, behind := readBuffer[..0], readBuffer[size..];
      GetRange(offset, readBuffer, 0, size);
      Front(readBuffer[..], front, file[offset..offset + size], behind);
      assert readBuffer[..size] == readBuffer[..][..size];
      available, index := size, 0;
      start, end := offset, offset + size;
    }

    /** A read at a position inside the file gives the bytes of the file. Bytes that are in
        the buffer are not asked for again; the others with one request. */
    method Read(out: array<char>, size: nat, location: nat)
      requires Valid() && location + size <= |file| && out.Length >= size && out != readBuffer
      modifies this, readBuffer, out
      ensures Valid() && offset == location + size
      ensures out[..size] == file[location..location + size]
      ensures |requests| <= |old(requests)| + 1 && (size == 0 || cached ==> requests == old(requests))
      ensures !cached && direct && size > 0 ==> requests == old(requests) + [Range(location, location + size - 1)]
      ensures !cached && !direct ==>
        requests == old(requests)
          + Wanted(file, if old(start) <= location < old(end) then old(end) else location, location + size)
    {
      hide InStep, Wanted, Max, InRange;
      if cached {
        CopyFile(out, size, location);
        offset := location + size;
        return;
      }
      if direct && size > 0 {
        OneRangeMore(requests, |file|, Range(location, location + size - 1));
        ghost var front, behind := out[..0], out[size..];
        GetRange(location, out, 0, size);
        available, index, offset := 0, 0, location + size;
        Front(out[..], front, file[location..location + size], behind);
        assert out[..size] == out[..][..size];
        return;
      }
      hide Valid;
      Position(location);
      WantedIs(file, location + available, location + size);
      Buffered(out, size, location);
    }

    /** Goes to a position, in the buffer if it holds it. */
    method Position(location: nat)
      requires Valid()
      modifies this`offset, this`index, this`available
      ensures Valid() && InStep() && offset == location
      ensures location + available == if start <= location < end then end else location
    {
      if start <= location < end {
        offset, index := location, location - start;
        available := (end - start) - index;
      } else {
        available, index, offset := 0, 0, location;
      }
    }

    method CopyFile(out: array<char>, size: nat, location: nat)
      requires location + size <= |file| && out.Length >= size
      modifies out
      ensures out[..size] == file[location..location + size]
    {
      for i := 0 to size
        invariant forall k :: 0 <= k < i ==> out[k] == file[location + k]
      {
        out[i] := file[location + i];
      }
    }

    /** Fetches what is left right to its place, past the buffer. */
    method Bypass(out: array<char>, at: nat, size: nat, ghost location: nat)
      requires offset == location + at <= |file| && at <= out.Length && out[..at] == file[location..offset]
      requires Valid() && 0 < size && offset + size <= |file| && at + size <= out.Length && out != readBuffer
      modifies out, this`requests, this`available, this`index, this`offset
      ensures Valid() && offset == old(offset) + size
      ensures requests == old(requests) + [Range(old(offset), old(offset) + size - 1)]
      ensures out[..at + size] == file[location..offset]
    {
      hide InRange;
      OneRangeMore(requests, |file|, Range(offset, offset + size - 1));
      ghost var before := out[..at];
      GetRange(offset, out, at, size);
      available, index, offset := 0, 0, offset + size;
      assert out[..at + size] == out[..][..at + size];
      SliceGrows(file, location, offset - size, offset);
    }

    /** Nothing is left in the buffer: fills it, or fetches everything past it if it is too
        small. */
    method Fetch(out: array<char>, at: nat, left: nat, ghost location: nat) returns (all: bool)
      requires offset == location + at <= |file| && at <= out.Length && out[..at] == file[location..offset]
      requires Valid() && 0 < left && offset + left <= |file| && at + left <= out.Length && out != readBuffer
      modifies this, readBuffer, out
      ensures Valid() && requests == old(requests) + Wanted(file, old(offset), old(offset) + left)
      ensures all ==> offset == old(offset) + left && out[..at + left] == file[location..offset]
      ensures !all ==> InStep() && offset == old(offset) && left <= available && out[..] == old(out[..])
    {
      hide Valid, InStep, Wanted, Max;
      WantedIs(file, offset, offset + left);
      var more := Min(READ_BUFFER_LEN, |file| - offset);
      all := left > more;
      if all {
        Bypass(out, at, left, location);
      } else {
        Fill(more);
      }
    }

    /** The loop over the buffer: what is there, then one request for the rest. */
    method Buffered(out: array<char>, size: nat, location: nat)
      requires Valid() && InStep() && location + size <= |file| && out.Length >= size && out != readBuffer
      requires offset == location
      modifies this, readBuffer, out
      ensures Valid() && offset == location + size
      ensures out[..size] == file[location..location + size]
      ensures requests == old(requests) + Wanted(file, location + old(available), location + size)
    {
      hide Valid, InStep, Wanted, Max;
      ghost var asked, from, fetched := requests, location + available, false;
      ghost var wanted := Wanted(file, from, location + size);
      WantedIs(file, from, location + size);
      var left: nat, done: nat := size, 0;
      while left > 0
        invariant Valid() && InStep() && left + done == size && offset == location + done
        invariant out[..done] == file[location..offset]
        invariant !fetched ==> requests == asked && offset + available == from
        invariant fetched ==> requests == asked + wanted && left <= available
        decreases left, if available == 0 then 1 else 0
      {
        var n := Min(available, left);
        if n > 0 {
          Take(out, done, n, location);
          left, done := left - n, done + n;
        }
        if left > 0 && available == 0 {
          var all := Fetch(out, done, left, location);
          if all {
            return;
          }
          fetched := true;
        }
      }
    }

    /** A read at the current position stops at the end of the file. */
    method ReadOn(out: array<char>, size: nat) returns (count: nat)
      requires Valid() && offset <= |file| && out.Length >= size && out != readBuffer
      modifies this, readBuffer, out
      ensures Valid() && count == Min(|file| - old(offset), size) && offset == old(offset) + count
      ensures out[..count] == file[old(offset)..old(offset) + count]
      ensures |requests| <= |old(requests)| + 1
    {
      count := Min(|file| - offset, size);
      Read(out, count, offset);
    }

    /** Any sequence of calls gives what a plain file would give. */
    method Perform(calls: seq<Call>) returns (results: seq<string>)
      requires Valid() && offset <= |file| && forall i :: 0 <= i < |calls| ==> InFile(file, calls[i])
      modifies this, readBuffer
      ensures Valid() && results == Plain(file, old(offset), calls)
      ensures |requests| <= |old(requests)| + |calls|
    {
      results := [];
      var i := 0;
      while i < |calls|
        invariant 0 <= i <= |calls| && Valid() && offset <= |file| && |requests| <= |old(requests)| + i
        invariant Plain(file, old(offset), calls) == results + Plain(file, offset, calls[i..])
      {
        ghost var before := offset;
        var result := One(calls[i]);
        assert calls[i..][0] == calls[i] && calls[i..][1..] == calls[i + 1..];
        results := results + [result];
        i := i + 1;
      }
    }

    method One(call: Call) returns (result: string)
      requires Valid() && offset <= |file| && InFile(file, call)
      modifies this, readBuffer
      ensures Valid() && result == PlainResult(file, old(offset), call)
      ensures offset == PlainOffset(file, old(offset), call) && |requests| <= |old(requests)| + 1
    {
      match call
      case Seek(location) =>
        offset, result := location, "";
      case ReadAt(size, location) =>
        var out := new char[size];
        Read(out, size, location);
        result := out[..size];
      case ReadNext(size) =>
        var out := new char[size];
        var count := ReadOn(out, size);
        result := out[..count];
    }
  }
}
