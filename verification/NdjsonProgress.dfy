/** What holds of every run of the parallel scan: no thread ever touches a buffer that
    is gone, and the scan can neither get stuck nor go on for ever. */
module NdjsonProgress {
  import opened JsonText
  import opened NdjsonLines
  import opened NdjsonBuffers
  import opened NdjsonScan
  import opened NdjsonInvariant
  import opened NdjsonSteps
  import opened MapSums
  import opened Arithmetic

  /** The number of buffers that hold some of the file. */
  function NumBuffers(c: Config): nat
    requires Request(c) > 0
  {
    (|c.file| + Request(c) - 1) / Request(c)
  }

  lemma RealIff(c: Config, k: nat)
    requires Request(c) > 0
    ensures Real(c, k) <==> k < NumBuffers(c)
    ensures Position(c.file, Request(c), k) == |c.file| <==> k >= NumBuffers(c)
  {
    hide Slice, NumBuffers;
    Ceiling(|c.file|, Request(c));
    assert NumBuffers(c) == (|c.file| + Request(c) - 1) / Request(c) by { CountIs(c); }
    Multiples(k, NumBuffers(c), Request(c));
    PositionStep(c.file, Request(c), k);
  }

  lemma CountIs(c: Config)
    requires Request(c) > 0
    ensures NumBuffers(c) == (|c.file| + Request(c) - 1) / Request(c)
  {
  }

  // ---- no use of a buffer after its removal ----

  /** No schedule makes a thread read a removed buffer, remove a buffer twice or read a
      closed file; a thread fails only at a boundary that cannot be joined. */
  lemma NothingBreaks(c: Config, tids: set<nat>, schedule: seq<nat>)
    requires Request(c) > 0 && Feasible(c, Init(tids), schedule)
    ensures var s := Run(c, Init(tids), schedule);
      forall t :: t in s.threads ==> !s.threads[t].Broken? && (s.threads[t].Failed? ==> !Joins(c, s.threads[t].index))
  {
    hide Run, Feasible, Init, Real, Joins, OwnOk, LinkOk, ViewOf, CountersOk, OutputOk, ReadsOk;
    InitInv(c, tids);
    RunInv(c, Init(tids), schedule);
    var s := Run(c, Init(tids), schedule);
    forall t | t in s.threads
      ensures !s.threads[t].Broken? && (s.threads[t].Failed? ==> !Joins(c, s.threads[t].index))
    {
      assert ThreadOk(c, s, t);
    }
  }

  /** The life of a published buffer. It stays in the map with its slice until both its
      owner and the owner of the next buffer have released it. */
  lemma BufferLives(c: Config, tids: set<nat>, schedule: seq<nat>, k: nat)
    requires Request(c) > 0 && Feasible(c, Init(tids), schedule)
    requires var s := Run(c, Init(tids), schedule);
      k < |s.owners| && Real(c, k) && !At(s, k).Claimed? && !At(s, k).ReadIn? && !At(s, k).Ready?
    ensures var s := Run(c, Init(tids), schedule);
      && (k !in s.buffers ==> k in s.ownerDone && (Last(c, k) || k in s.nextDone))
      && (k in s.buffers ==> s.buffers[k].block in s.memory && s.memory[s.buffers[k].block] == Text(c, k))
  {
    hide Run, Feasible, Init, Inv, Real, At, Last, Text;
    InitInv(c, tids);
    RunInv(c, Init(tids), schedule);
    BufferStands(c, Run(c, Init(tids), schedule), k);
  }

  lemma BufferStands(c: Config, s: State, k: nat)
    requires Inv(c, s) && k < |s.owners| && Real(c, k)
    requires !At(s, k).Claimed? && !At(s, k).ReadIn? && !At(s, k).Ready?
    ensures k !in s.buffers ==> k in s.ownerDone && (Last(c, k) || k in s.nextDone)
    ensures k in s.buffers ==> s.buffers[k].block in s.memory && s.memory[s.buffers[k].block] == Text(c, k)
  {
    hide Inv, Real, At, Last, Text, Units, Joins, ParseUnits;
    RealText(c, k);
    BufferKnown(c, s, k);
  }

  lemma BufferKnown(c: Config, s: State, k: nat)
    requires Inv(c, s) && k < |s.owners| && Real(c, k)
    ensures |s.batches| == |s.owners| && OwnOk(c, k, ViewOf(s, k))
  {
    hide OwnOk, LinkOk, ViewOf, Real, OutputOk, ReadsOk, Position, ThreadOk;
  }

  // ---- the scan does not get stuck ----

  /** As long as some thread has work left, some thread can take a step. */
  lemma NotStuck(c: Config, s: State, t: nat) returns (u: nat)
    requires Inv(c, s) && t in s.threads && !Terminal(s.threads[t])
    ensures Enabled(s, u)
  {
    hide Inv, Real, OwnOk, LinkOk, ViewOf, CountersOk, OutputOk, ReadsOk, ThreadOk;
    if s.threads[t].Stitching? {
      u := StitchUnblocked(c, s, t);
    } else if s.threads[t].Closing? && s.requestedReads != s.actualReads {
      u := ReadPending(c, s);
    } else {
      u := t;
    }
  }

  /** The file waits to be closed only for a thread that is about to read. */
  lemma ReadPending(c: Config, s: State) returns (u: nat)
    requires Inv(c, s) && s.requestedReads != s.actualReads
    ensures Enabled(s, u)
  {
    hide Real, OwnOk, LinkOk, ViewOf, CountersOk, OutputOk, ThreadOk;
    SumConst(s.threads, (th: Thread) => 0, 0);
    SumBounds(s.threads, (th: Thread) => 0, InFlight);
    u := SumWitness(s.threads, InFlight);
  }

  /** A thread waits for the previous buffer only while the owner of that buffer is about
      to publish it. */
  lemma StitchUnblocked(c: Config, s: State, t: nat) returns (u: nat)
    requires Inv(c, s) && t in s.threads && s.threads[t].Stitching?
    ensures Enabled(s, u)
  {
    hide Inv, Real, Text, Last, Joins, Units, ParseUnits, LineOk;
    var k := s.threads[t].buf.index;
    OwnerKnows(c, s, t);
    if k - 1 in s.buffers {
      u := t;
    } else {
      PreviousKnown(c, s, k);
      var p := ViewOf(s, k - 1);
      assert p.at.Claimed? || p.at.ReadIn? || p.at.Ready?;
      u := s.owners[k - 1];
    }
  }

  // ---- the scan does not go on for ever ----

  /** Steps a thread may still take without claiming another slice. */
  function Weight(c: Config, ended: bool, th: Thread): nat {
    match th
    case Idle => 8
    case NoReader(_) => if ended then 1 else 6
    case HasReader(_) => 4
    case Empty(_) => 3
    case Closing(_) => 2
    case Claimed(_, _) => 14 + Request(c)
    case ReadIn(_) => 13 + Request(c)
    case Ready(_) => 12 + Request(c)
    case Stitching(_) => 11 + Request(c)
    case Holding(_, _) => 10 + Request(c)
    case Copied(_, _) => 9 + Request(c)
    case Removing(_, _) => 8 + Request(c)
    case Emitting(_, _) => 7 + Request(c)
    case Parsing(buf, offset, _) => 6 + if offset <= buf.size then buf.size - offset else 0
    case Releasing(_) => 5
    case _ => 0
  }

  function WeightOf(c: Config, ended: bool): Thread -> int {
    (th: Thread) => Weight(c, ended, th)
  }

  ghost function Potential(c: Config, s: State): int {
    (Request(c) + 20) * (|c.file| - s.readPosition) + Sum(s.threads, WeightOf(c, s.ended))
  }

  ghost predicate Moves(c: Config, s: State, s': State, t: nat) {
    && t in s.threads && t in s'.threads && s'.threads == s.threads[t := s'.threads[t]]
    && (s.ended ==> s'.ended) && (s'.ended != s.ended ==> !s.threads[t].NoReader?)
    && s'.readPosition == s.readPosition
    && Weight(c, s'.ended, s'.threads[t]) < Weight(c, s.ended, s.threads[t])
  }

  lemma StartMoves(c: Config, s: State, t: nat)
    requires t in s.threads && s.threads[t].Idle?
    ensures Moves(c, s, Start(s, t), t)
  {
    hide Request;
  }

  lemma GetReaderMoves(c: Config, s: State, t: nat, block: nat)
    requires t in s.threads && s.threads[t] == NoReader(block)
    ensures Moves(c, s, GetReader(s, t, block), t)
  {
    hide Request;
  }

  lemma EmptyMoves(c: Config, s: State, t: nat, block: nat)
    requires t in s.threads && s.threads[t] == Empty(block)
    ensures Moves(c, s, Stop(s, t, block), t)
  {
    hide Request;
  }

  lemma CloseMoves(c: Config, s: State, t: nat, block: nat)
    requires t in s.threads && s.threads[t] == Closing(block)
    ensures Moves(c, s, Close(s, t, block), t)
  {
    hide Request;
  }

  lemma ReadMoves(c: Config, s: State, t: nat, buf: Buffer, position: nat)
    requires t in s.threads && s.threads[t] == Claimed(buf, position)
    ensures Moves(c, s, ReadSlice(c, s, t, buf, position), t)
  {
    hide Request;
  }

  lemma EndMoves(c: Config, s: State, t: nat, buf: Buffer)
    requires t in s.threads && s.threads[t] == ReadIn(buf)
    ensures Moves(c, s, EndScan(s, t, buf), t)
  {
    hide Request;
  }

  lemma PublishMoves(c: Config, s: State, t: nat, buf: Buffer)
    requires t in s.threads && s.threads[t] == Ready(buf) && buf.size <= Request(c)
    ensures Moves(c, s, Publish(s, t, buf), t)
  {
    hide Request;
  }

  lemma FindMoves(c: Config, s: State, t: nat, buf: Buffer)
    requires t in s.threads && s.threads[t] == Stitching(buf) && buf.index > 0 && buf.index - 1 in s.buffers
    ensures Moves(c, s, FindPrevious(s, t, buf), t)
  {
    hide Request;
  }

  lemma CopyMoves(c: Config, s: State, t: nat, buf: Buffer, previous: nat)
    requires t in s.threads && s.threads[t] == Holding(buf, previous)
    ensures Moves(c, s, CopyLine(c, s, t, buf, previous), t)
  {
    hide Request, HasNewline, Stitched;
  }

  lemma DropMoves(c: Config, s: State, t: nat, buf: Buffer, line: string)
    requires t in s.threads && s.threads[t] == Copied(buf, line)
    ensures Moves(c, s, DropPrevious(s, t, buf, line), t)
  {
    hide Request;
  }

  lemma RemoveMoves(c: Config, s: State, t: nat, buf: Buffer, line: string)
    requires t in s.threads && s.threads[t] == Removing(buf, line)
    ensures Moves(c, s, RemovePrevious(s, t, buf, line), t)
  {
    hide Request;
  }

  lemma EmitOnly(s: State, batch: nat, units: seq<string>, t: nat, th: Thread)
    ensures var s' := Emit(s, batch, units, t, th);
      s'.threads == s.threads[t := th] && s'.ended == s.ended && s'.readPosition == s.readPosition
  {
    hide Out;
  }

  lemma EmitMoves(c: Config, s: State, t: nat, buf: Buffer, line: string)
    requires t in s.threads && s.threads[t] == Emitting(buf, line) && buf.size <= Request(c)
    ensures Moves(c, s, EmitLine(s, t, buf, line), t)
  {
    hide Request, HasNewline, NextNewline, Blank, Trim, Emit;
    if buf.block in s.memory && buf.index < |s.batches| {
      var cur := s.memory[buf.block];
      EmitOnly(s, s.batches[buf.index], [Trim(line, 0, |line|)], t, Parsing(buf, NextNewline(cur, 0, |cur|) + 1, 1));
    }
  }

  lemma ParseMoves(c: Config, s: State, t: nat, buf: Buffer, offset: nat, scanCount: nat)
    requires t in s.threads && s.threads[t] == Parsing(buf, offset, scanCount)
    requires var s' := ParseChunk(s, t, buf, offset, scanCount);
      && s'.threads[t].Parsing? && s'.threads[t].buf == buf
      && offset < s'.threads[t].offset <= buf.size
    ensures Moves(c, s, ParseChunk(s, t, buf, offset, scanCount), t)
  {
    hide Request, Chunk, Emit;
    if buf.block in s.memory && offset <= |s.memory[buf.block]| && scanCount <= VECTOR_SIZE && buf.index < |s.batches| {
      var cur := s.memory[buf.block];
      var r := Chunk(cur, offset, |cur|, VECTOR_SIZE - scanCount, buf.last);
      EmitOnly(s, s.batches[buf.index], r.0, t, Parsing(buf, r.1, 0));
    }
  }

  lemma ReleaseMoves(c: Config, s: State, t: nat, buf: Buffer, scanCount: nat)
    requires t in s.threads && s.threads[t] == Parsing(buf, buf.size, scanCount)
    ensures Moves(c, s, Release(s, t, buf), t)
  {
    hide Request;
  }

  lemma ReuseMoves(c: Config, s: State, t: nat, buf: Buffer)
    requires t in s.threads && s.threads[t] == Releasing(buf)
    ensures Moves(c, s, Reuse(s, t, buf), t)
  {
    hide Request;
  }

  /** A step other than a claim brings one thread closer to its next claim. */
  lemma StepPays(c: Config, s: State, t: nat)
    requires Inv(c, s) && Enabled(s, t) && !s.threads[t].HasReader?
    ensures Moves(c, s, Advance(c, s, t), t)
  {
    hide Inv, Moves, Start, GetReader, Close, EndScan, Publish, ReadSlice, FindPrevious, CopyLine, DropPrevious;
    hide RemovePrevious, EmitLine, ParseChunk, Release, Reuse, Become;
    match s.threads[t]
    case Idle => StartMoves(c, s, t);
    case NoReader(block) => GetReaderMoves(c, s, t, block);
    case Empty(block) => EmptyMoves(c, s, t, block);
    case Closing(block) => CloseMoves(c, s, t, block);
    case Claimed(buf, position) => ReadMoves(c, s, t, buf, position);
    case ReadIn(buf) => EndMoves(c, s, t, buf);
    case Ready(buf) => SizeBound(c, s, t); PublishMoves(c, s, t, buf);
    case Stitching(buf) => FindMoves(c, s, t, buf);
    case Holding(buf, previous) => CopyMoves(c, s, t, buf, previous);
    case Copied(buf, line) => DropMoves(c, s, t, buf, line);
    case Removing(buf, line) => RemoveMoves(c, s, t, buf, line);
    case Emitting(buf, line) => SizeBound(c, s, t); EmitMoves(c, s, t, buf, line);
    case Parsing(buf, offset, scanCount) =>
      if offset == buf.size {
        ReleaseMoves(c, s, t, buf, scanCount);
      } else {
        ParsePays(c, s, t);
        ParseMoves(c, s, t, buf, offset, scanCount);
      }
    case Releasing(buf) => ReuseMoves(c, s, t, buf);
    case _ =>
  }

  /** A claim is paid for by the bytes it takes. */
  lemma ClaimPays(c: Config, s: State, t: nat)
    requires Inv(c, s) && Enabled(s, t) && s.threads[t].HasReader?
    ensures var s' := Advance(c, s, t);
      && t in s'.threads && s'.threads == s.threads[t := s'.threads[t]]
      && s.ended == s'.ended
      && s.readPosition <= s'.readPosition <= |c.file|
      && Weight(c, s.ended, s'.threads[t]) < 4 + (Request(c) + 20) * (s'.readPosition - s.readPosition)
  {
    hide Inv, Real, CountersOk, OutputOk, ReadsOk, OwnOk, LinkOk, ViewOf, ThreadOk, ClaimSlice, Weight;
    Known(c, s, t);
    SlicePays(c, s, t, s.threads[t].block);
  }

  lemma SlicePays(c: Config, s: State, t: nat, block: nat)
    requires t in s.threads && s.readPosition <= |c.file|
    ensures var s' := ClaimSlice(c, s, t, block);
      && t in s'.threads && s'.threads == s.threads[t := s'.threads[t]]
      && s.ended == s'.ended
      && s.readPosition <= s'.readPosition <= |c.file|
      && Weight(c, s.ended, s'.threads[t]) < 4 + (Request(c) + 20) * (s'.readPosition - s.readPosition)
  {
    hide Request;
    var size := ClaimSize(c, s);
    AtLeastOnce(Request(c) + 20, size);
  }

  lemma AtLeastOnce(w: nat, size: nat)
    ensures size > 0 ==> w * size >= w
    ensures size == 0 ==> w * size == 0
  {
    if size > 0 {
      assert w * size == w + w * (size - 1);
    }
  }

  lemma SizeBound(c: Config, s: State, t: nat)
    requires Inv(c, s) && t in s.threads && HasBuffer(s.threads[t])
    ensures s.threads[t].buf.size <= Request(c)
  {
    hide Real, CountersOk, OutputOk, ReadsOk, OwnOk, LinkOk, ViewOf, Joins;
    assert ThreadOk(c, s, t);
  }

  lemma ParsePays(c: Config, s: State, t: nat)
    requires Inv(c, s) && t in s.threads && s.threads[t].Parsing?
    requires s.threads[t].offset != s.threads[t].buf.size
    ensures var th := s.threads[t];
      var s' := ParseChunk(s, t, th.buf, th.offset, th.scanCount);
      && s'.threads[t].Parsing? && s'.threads[t].buf == th.buf
      && th.offset < s'.threads[t].offset <= th.buf.size
  {
    hide Inv, Real, Text, Last, CountersOk, OutputOk, ReadsOk, LinkOk, Joins, Units, ParseUnits, Chunk;
    var th := s.threads[t];
    Known(c, s, t);
    OwnerKnows(c, s, t);
    RealText(c, th.buf.index);
    var cur := Text(c, th.buf.index);
    ChunkIsPrefix(cur, th.offset, |cur|, VECTOR_SIZE - th.scanCount, th.buf.last);
  }

  /** What one thread gains, the sum over all threads gains. */
  lemma SumMoves(c: Config, s: State, s': State, t: nat)
    requires t in s.threads && t in s'.threads && s'.threads == s.threads[t := s'.threads[t]]
    requires (s.ended ==> s'.ended) && (s'.ended != s.ended ==> !s.threads[t].NoReader?)
    ensures Sum(s'.threads, WeightOf(c, s'.ended)) <= Sum(s.threads, WeightOf(c, s.ended))
      + Weight(c, s'.ended, s'.threads[t]) - Weight(c, s.ended, s.threads[t])
  {
    hide Request;
    SumUpdate(s.threads, WeightOf(c, s'.ended), t, s'.threads[t]);
    SumBounds(s.threads, WeightOf(c, s'.ended), WeightOf(c, s.ended));
  }

  lemma StepDecreases(c: Config, s: State, t: nat)
    requires Inv(c, s) && Enabled(s, t)
    ensures Potential(c, Advance(c, s, t)) < Potential(c, s)
  {
    hide Inv, Advance, Request, Sum;
    var s' := Advance(c, s, t);
    if s.threads[t].HasReader? {
      ClaimPays(c, s, t);
      Spent(Request(c) + 20, |c.file|, s.readPosition, s'.readPosition);
    } else {
      StepPays(c, s, t);
    }
    SumMoves(c, s, s', t);
  }

  lemma Spent(w: int, n: int, before: int, after: int)
    ensures w * (n - before) == w * (n - after) + w * (after - before)
  {
  }

  function NoWeight(th: Thread): int { 0 }

  lemma WeightsNatural(c: Config, ended: bool, threads: map<nat, Thread>)
    ensures Sum(threads, WeightOf(c, ended)) >= 0
  {
    hide Sum, Weight;
    SumConst(threads, NoWeight, 0);
    SumBounds(threads, NoWeight, WeightOf(c, ended));
  }

  lemma PotentialNatural(c: Config, s: State)
    requires s.readPosition <= |c.file|
    ensures Potential(c, s) >= 0
  {
    hide Sum, Weight, Request, WeightOf;
    WeightsNatural(c, s.ended, s.threads);
    NaturalProduct(Request(c) + 20, |c.file| - s.readPosition);
  }

  lemma {:induction false} RunDecreases(c: Config, s: State, schedule: seq<nat>)
    requires Inv(c, s) && Feasible(c, s, schedule)
    ensures |schedule| <= Potential(c, s)
    decreases |schedule|
  {
    hide Inv, Advance, Enabled, Potential;
    if schedule == [] {
      PotentialNatural(c, s) by { PositionInFile(c, s); }
    } else {
      var s' := Advance(c, s, schedule[0]);
      StepInv(c, s, schedule[0]);
      StepDecreases(c, s, schedule[0]);
      RunDecreases(c, s', schedule[1..]);
    }
  }

  lemma PositionInFile(c: Config, s: State)
    requires Inv(c, s)
    ensures s.readPosition <= |c.file|
  {
    hide OwnOk, LinkOk, ViewOf, Real, OutputOk, ReadsOk, ThreadOk;
  }

  /** No schedule is longer than this, whatever the threads do. */
  lemma RunsAreBounded(c: Config, tids: set<nat>, schedule: seq<nat>)
    requires Request(c) > 0 && Feasible(c, Init(tids), schedule)
    ensures |schedule| <= (Request(c) + 20) * |c.file| + 8 * |tids|
  {
    hide Inv, Feasible;
    InitInv(c, tids);
    RunDecreases(c, Init(tids), schedule);
    SumConst(Init(tids).threads, WeightOf(c, false), 8);
    assert Init(tids).threads.Keys == tids;
  }
}
