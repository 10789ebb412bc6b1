/** Reading a pipe twice: what is read while the format is being detected is kept, and is
    handed out again before the rest of the pipe. */
module PipeReplay {
  import opened Arithmetic
  import opened Slices

  /** The text of the first `n` buffers. */
  function Joined(buffers: seq<string>, n: nat): string
    requires n <= |buffers|
  {
    if n == 0 then "" else Joined(buffers, n - 1) + buffers[n - 1]
  }

  lemma {:induction false} JoinedMore(buffers: seq<string>, more: string, n: nat)
    requires n <= |buffers|
    ensures Joined(buffers + [more], n) == Joined(buffers, n)
    decreases n
  {
    if n > 0 {
      JoinedMore(buffers, more, n - 1);
    }
  }

  lemma {:induction false} JoinedPrefix(buffers: seq<string>, m: nat, n: nat)
    requires m <= n <= |buffers|
    ensures |Joined(buffers, m)| <= |Joined(buffers, n)|
    ensures Joined(buffers, m) == Joined(buffers, n)[..|Joined(buffers, m)|]
    decreases n
  {
    if m < n {
      JoinedPrefix(buffers, m, n - 1);
    }
  }

  /** A piece of a text that follows another at the start of a stream. */
  lemma PartOfPrefix(s: string, size: nat, before: string, part: string, within: nat, n: nat)
    requires size <= |s| && |before| + |part| <= size && before + part == s[..size][..|before| + |part|]
    requires within + n <= |part|
    ensures part[within..within + n] == s[|before| + within..|before| + within + n]
  {
    var whole, m := before + part, |before| + |part|;
    assert whole == s[..m] by { assert s[..size][..m] == s[..m]; }
    assert part == s[|before|..m] by { assert part == whole[|before|..] && s[..m][|before|..] == s[|before|..m]; }
    assert s[|before|..m][within..within + n] == s[|before| + within..|before| + within + n];
  }

  function Total(sizes: seq<nat>): nat {
    if sizes == [] then 0 else sizes[0] + Total(sizes[1..])
  }

  class FileHandle {
    const stream: string             // everything that will ever come out of the pipe
    var taken: nat                   // how much has come out so far
    var position: nat
    var cachedBuffers: seq<string>
    var cachedSize: nat

    ghost predicate Valid()
      reads this
    {
      && position <= cachedSize <= taken <= |stream|
      && (taken > cachedSize ==> position == cachedSize)
      && Joined(cachedBuffers, |cachedBuffers|) == stream[..cachedSize]
    }

    /** Where in the stream the next read goes on. */
    ghost function Place(): nat
      requires Valid()
      reads this
    {
      position + (taken - cachedSize)
    }

    constructor (stream: string)
      ensures Valid() && this.stream == stream && Place() == 0 && taken == cachedSize == 0
    {
      this.stream := stream;
      taken, position, cachedBuffers, cachedSize := 0, 0, [], 0;
    }

    /** The pipe hands out as much as it likes, but nothing only at its end. */
    method PipeRead(size: nat) returns (bytes: string)
      requires taken <= |stream|
      modifies this`taken
      ensures old(taken) <= taken <= |stream| && bytes == stream[old(taken)..taken] && |bytes| <= size
      ensures bytes == "" ==> size == 0 || taken == |stream|
    {
      var most := Min(size, |stream| - taken);
      var n: nat :| n <= most && (most > 0 ==> n > 0);
      bytes := stream[taken..taken + n];
      taken := taken + n;
    }

    /** Reads until the request is met or the pipe is empty. */
    method ReadInternal(size: nat) returns (bytes: string)
      requires taken <= |stream|
      modifies this`taken
      ensures taken == old(taken) + Min(size, |stream| - old(taken)) && bytes == stream[old(taken)..taken]
    {
      bytes := "";
      while |bytes| < size
        invariant old(taken) <= taken <= |stream| && bytes == stream[old(taken)..taken] && |bytes| <= size
        decreases |stream| - taken
      {
        var before := taken;
        var more := PipeRead(size - |bytes|);
        if more == "" {
          break;
        }
        assert stream[old(taken)..before] + stream[before..taken] == stream[old(taken)..taken];
        bytes := bytes + more;
      }
    }

    /** A read during detection. */
    method SampleRead(size: nat) returns (bytes: string)
      requires Valid() && taken == cachedSize
      modifies this
      ensures Valid() && taken == cachedSize == old(taken) + Min(size, |stream| - old(taken))
      ensures bytes == stream[old(taken)..taken]
    {
      bytes := ReadInternal(size);
      if |bytes| > 0 {
        JoinedMore(cachedBuffers, bytes, |cachedBuffers|);
        assert stream[..cachedSize] + bytes == stream[..cachedSize + |bytes|];
        cachedBuffers := cachedBuffers + [bytes];
      }
      cachedSize := cachedSize + |bytes|;
      position := position + |bytes|;
    }

    method Reset()
      requires Valid() && taken == cachedSize
      modifies this`position
      ensures Valid() && Place() == 0
    {
      position := 0;
    }

    /** Copies from the buffers kept, from `position` on. */
    method ReadFromCache(size: nat) returns (bytes: string)
      requires Valid()
      modifies this`position
      ensures Valid() && position == old(position) + Min(size, cachedSize - old(position))
      ensures bytes == stream[old(position)..position]
    {
      hide Valid, Joined;
      KnownSizes();
      bytes := "";
      var left: nat := size;
      var total: nat := 0;
      var i := 0;
      while i < |cachedBuffers|
        invariant 0 <= i <= |cachedBuffers| && total == |Joined(cachedBuffers, i)| && Valid()
        invariant old(position) <= position <= cachedSize <= |stream|
        invariant bytes == stream[old(position)..position] && left + |bytes| == size
        invariant left == 0 || position >= total
        decreases |cachedBuffers| - i
      {
        var buffer := cachedBuffers[i];
        if left == 0 {
          break;
        }
        NextTotal(i);
        if position < total + |buffer| {
          var within := position - total;
          var n := Min(left, |buffer| - within);
          BufferInStream(i, within, n);
          SliceGrows(stream, old(position), position, position + n);
          bytes := bytes + buffer[within..within + n];
          left := left - n;
          MoveOn(n);
        }
        total := total + |buffer|;
        i := i + 1;
      }
    }

    lemma KnownSizes()
      requires Valid()
      ensures position <= cachedSize <= |stream| && |Joined(cachedBuffers, |cachedBuffers|)| == cachedSize
      ensures |Joined(cachedBuffers, 0)| == 0
    {
    }

    lemma NextTotal(i: nat)
      requires i < |cachedBuffers|
      ensures |Joined(cachedBuffers, i + 1)| == |Joined(cachedBuffers, i)| + |cachedBuffers[i]|
    {
    }

    /** Moves on within the cache. */
    method MoveOn(n: nat)
      requires Valid() && position + n <= cachedSize
      modifies this`position
      ensures Valid() && position == old(position) + n
    {
      position := position + n;
    }

    lemma BufferInStream(i: nat, within: nat, n: nat)
      requires Valid() && i < |cachedBuffers| && within + n <= |cachedBuffers[i]|
      ensures var at := |Joined(cachedBuffers, i)| + within;
        at + n <= cachedSize <= |stream| && cachedBuffers[i][within..within + n] == stream[at..at + n]
    {
      JoinedPrefix(cachedBuffers, i + 1, |cachedBuffers|);
      PartOfPrefix(stream, cachedSize, Joined(cachedBuffers, i), cachedBuffers[i], within, n);
    }

    /** A read after detection: first what was kept, then the pipe. */
    method Read(size: nat) returns (bytes: string)
      requires Valid()
      modifies this`position, this`taken
      ensures Valid() && Place() == old(Place()) + Min(size, |stream| - old(Place()))
      ensures bytes == stream[old(Place())..Place()]
    {
      hide Joined;
      bytes := "";
      var left: nat := size;
      if |cachedBuffers| != 0 || position < cachedSize {
        bytes := ReadFromCache(size);
        left := left - |bytes|;
      }
      if left != 0 {
        ghost var here := Place();
        var more := ReadInternal(left);
        SliceGrows(stream, old(Place()), here, Place());
        bytes := bytes + more;
      }
    }
  }

  /** Any reads during detection, then a reset, then any reads: together these give the
      stream from its first byte on, without a gap and without repetition. */
  method DetectThenRead(stream: string, samples: seq<nat>, sizes: seq<nat>) returns (all: string)
    ensures all == stream[..Min(Total(sizes), |stream|)]
  {
    hide Joined;
    var handle := new FileHandle(stream);
    for i := 0 to |samples|
      invariant handle.Valid() && handle.taken == handle.cachedSize && handle.stream == stream
    {
      var sample := handle.SampleRead(samples[i]);
    }
    handle.Reset();
    all := "";
    var i := 0;
    while i < |sizes|
      invariant 0 <= i <= |sizes| && handle.Valid() && handle.stream == stream
      invariant all == stream[..handle.Place()]
      invariant Min(Total(sizes), |stream|) == Min(handle.Place() + Total(sizes[i..]), |stream|)
    {
      var before := handle.taken + handle.position - handle.cachedSize;
      var bytes := handle.Read(sizes[i]);
      assert sizes[i..][1..] == sizes[i + 1..];
      SliceGrows(stream, 0, before, handle.Place());
      assert stream[..before] == stream[0..before];
      all := all + bytes;
      i := i + 1;
    }
  }
}
