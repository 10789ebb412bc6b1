/** Every step of the parallel scan keeps the invariant. */
module NdjsonSteps {
  import opened JsonText
  import opened NdjsonLines
  import opened NdjsonBuffers
  import opened NdjsonScan
  import opened NdjsonInvariant
  import opened MapSums

  // ---- steps that concern one buffer, or none ----

  lemma FrameNone(c: Config, s: State, s': State, t: nat)
    requires Inv(c, s) && Touches(s, s', t, {})
    requires s'.owners == s.owners
    requires CountersOk(c, s') && OutputOk(c, s') && ReadsOk(s') && ThreadOk(c, s', t)
    ensures Inv(c, s')
  {
    hide Real, OwnOk, LinkOk, ViewOf, CountersOk, OutputOk, ReadsOk, Touches, ThreadOk;
    Frame(c, s, s', t, {});
  }

  lemma FrameOne(c: Config, s: State, s': State, t: nat, k: nat, w: View)
    requires Inv(c, s) && Touches(s, s', t, {k})
    requires s'.owners == s.owners && k < |s.owners| && Real(c, k)
    requires CountersOk(c, s') && OutputOk(c, s') && ReadsOk(s') && ThreadOk(c, s', t)
    requires ViewOf(s', k) == w && OwnOk(c, k, w)
    requires k > 0 ==> LinkOk(c, k - 1, ViewOf(s, k - 1), w)
    requires k + 1 < |s.owners| && Real(c, k + 1) ==> LinkOk(c, k, w, ViewOf(s, k + 1))
    ensures Inv(c, s')
  {
    hide Real, OwnOk, LinkOk, ViewOf, OutputOk, ReadsOk, Touches, ThreadOk, Position;
    if k > 0 {
      RealBefore(c, k - 1);
      ViewFrame(c, s, s', t, {k}, k - 1);
    }
    if k + 1 < |s.owners| && Real(c, k + 1) {
      ViewFrame(c, s, s', t, {k}, k + 1);
    }
    Frame(c, s, s', t, {k});
  }

  /** What the invariant says to the owner of buffer `k`. */
  lemma OwnerKnows(c: Config, s: State, t: nat)
    requires Inv(c, s) && t in s.threads && HasBuffer(s.threads[t])
    ensures var k := s.threads[t].buf.index;
      && k < |s.owners| && s.owners[k] == t && Real(c, k)
      && ViewOf(s, k).at == s.threads[t] && ViewOf(s, k).owner == t
      && OwnOk(c, k, ViewOf(s, k))
      && (k > 0 ==> LinkOk(c, k - 1, ViewOf(s, k - 1), ViewOf(s, k)))
      && (k + 1 < |s.owners| && Real(c, k + 1) ==> LinkOk(c, k, ViewOf(s, k), ViewOf(s, k + 1)))
  {
    hide Real, OwnOk, LinkOk, OutputOk, ReadsOk, Position;
    assert ThreadOk(c, s, t);
  }

  // ---- the parts a step usually leaves alone ----

  lemma KeepReads(s: State, s': State, t: nat)
    requires ReadsOk(s) && t in s.threads && t in s'.threads && s'.threads == s.threads[t := s'.threads[t]]
    requires s'.requestedReads - s'.actualReads ==
      s.requestedReads - s.actualReads + InFlight(s'.threads[t]) - InFlight(s.threads[t])
    ensures ReadsOk(s')
  {
    SumUpdate(s.threads, InFlight, t, s'.threads[t]);
  }

  /** No new claim. */
  lemma KeepCounters(c: Config, s: State, s': State)
    requires CountersOk(c, s) && OutputOk(c, s)
    requires s'.owners == s.owners && s'.batches == s.batches && s'.readPosition == s.readPosition
    requires s'.batchIndex >= s.batchIndex && s'.threads.Keys == s.threads.Keys
    requires forall k :: k in s'.buffers ==> k in s.buffers || (k < |s.owners| && Real(c, k))
    requires forall k :: k in s'.ownerDone ==> k in s.ownerDone || k < |s.owners|
    requires forall k :: k in s'.nextDone ==> k in s.nextDone || (k + 1 < |s.owners| && Real(c, k + 1))
    requires s'.ended || s'.closed ==> s.readPosition == |c.file|
    requires s'.closed ==> s'.requestedReads == s'.actualReads
    requires forall b :: b in s'.use ==> b < s'.nextBlock
    requires forall b :: b in s'.output ==>
      b in s.output || exists k :: 0 <= k < |s.batches| && Real(c, k) && s.batches[k] == b
    ensures CountersOk(c, s') && OutputOk(c, s')
  {
    hide Real, Position;
  }

  /** The view of a buffer after a step that only moves its owner. */
  lemma ViewMoved(s: State, s': State, t: nat, k: nat)
    requires k < |s.owners| == |s.batches| && s.owners[k] == t
    requires t in s.threads && t in s'.threads && Serves(s.threads[t], k) && Serves(s'.threads[t], k)
    requires s'.owners == s.owners && s'.batches == s.batches
    requires s'.buffers == s.buffers && s'.ownerDone == s.ownerDone && s'.nextDone == s.nextDone
    requires s'.output == s.output && s'.use == s.use && s'.memory == s.memory
    requires k in s.buffers ||
      (HasBuffer(s.threads[t]) && HasBuffer(s'.threads[t]) && s'.threads[t].buf == s.threads[t].buf)
    ensures ViewOf(s', k) == ViewOf(s, k).(at := s'.threads[t])
  {
  }

  /** The view of a buffer after its owner has read it in. */
  lemma ViewRead(s: State, s': State, t: nat, k: nat, text: string)
    requires k < |s.owners| == |s.batches| && s.owners[k] == t && k !in s.buffers
    requires t in s.threads && t in s'.threads && HasBuffer(s.threads[t]) && HasBuffer(s'.threads[t])
    requires s'.threads[t].buf == s.threads[t].buf && s.threads[t].buf.index == k
    requires s'.owners == s.owners && s'.batches == s.batches
    requires s'.buffers == s.buffers && s'.ownerDone == s.ownerDone && s'.nextDone == s.nextDone
    requires s'.output == s.output && s'.use == s.use
    requires s'.memory == s.memory[s.threads[t].buf.block := text]
    ensures ViewOf(s', k) == ViewOf(s, k).(at := s'.threads[t], text := text)
  {
  }

  /** The parts of the invariant that most steps need as facts. */
  lemma Known(c: Config, s: State, t: nat)
    requires Inv(c, s) && t in s.threads
    ensures CountersOk(c, s) && OutputOk(c, s) && ReadsOk(s) && ThreadOk(c, s, t)
    ensures Request(c) > 0 && |s.batches| == |s.owners| && s.readPosition <= |c.file|
    ensures s.ended || s.closed ==> s.readPosition == |c.file|
    ensures s.closed ==> s.requestedReads == s.actualReads
    ensures forall b :: b in s.use ==> b < s.nextBlock
  {
    hide Real, OwnOk, LinkOk, ViewOf, OutputOk, ReadsOk, ThreadOk;
  }

  predicate ThreadOk'(c: Config, s: State, t: nat) { t in s.threads && ThreadOk(c, s, t) }

  lemma CounterBounds(c: Config, s: State)
    requires CountersOk(c, s)
    ensures |s.batches| == |s.owners|
    ensures s.ended || s.closed ==> s.readPosition == |c.file|
    ensures s.closed ==> s.requestedReads == s.actualReads
    ensures forall b :: b in s.use ==> b < s.nextBlock
    ensures forall k :: k in s.buffers ==> k < |s.owners| && Real(c, k)
  {
    hide Real, Position;
  }

  /** The state after filing units under a batch index. */
  function Filed(s: State, batch: nat, units: seq<string>, threads: map<nat, Thread>): State {
    s.(output := s.output[batch := Out(s, batch) + units], threads := threads)
  }

  // ---- the steps: what they touch ----

  /** A step that changes neither memory nor the map nor the output. */
  lemma TouchPlain(s: State, s': State, t: nat, J: set<nat>)
    requires t in s.threads && t in s'.threads && s'.threads == s.threads[t := s'.threads[t]]
    requires ServesOnly(s.threads[t], J) && ServesOnly(s'.threads[t], J)
    requires |s.batches| == |s.owners| && s'.owners == s.owners && s'.batches == s.batches
    requires s'.readPosition == s.readPosition && (s.ended ==> s'.ended)
    requires s'.buffers == s.buffers && s'.ownerDone == s.ownerDone && s'.nextDone == s.nextDone
    requires s'.output == s.output && s'.use == s.use && s'.memory == s.memory
    ensures Touches(s, s', t, J)
  {
  }

  /** A step that changes the use or the contents of one block, which is not in use by
      others. */
  lemma TouchBlock(s: State, s': State, t: nat, J: set<nat>, b: nat, u: Use, text: string)
    requires t in s.threads && t in s'.threads && s'.threads == s.threads[t := s'.threads[t]]
    requires ServesOnly(s.threads[t], J) && ServesOnly(s'.threads[t], J)
    requires |s.batches| == |s.owners| && s'.owners == s.owners && s'.batches == s.batches
    requires s'.readPosition == s.readPosition && (s.ended ==> s'.ended)
    requires s'.ownerDone - J == s.ownerDone - J && s'.nextDone - J == s.nextDone - J
    requires s'.buffers - J == s.buffers - J
    requires s'.output == s.output
    requires s'.use == s.use[b := u] && (s'.memory == s.memory || s'.memory == s.memory[b := text])
    requires b in s.use ==> !Foreign(s.use[b], t, J)
    ensures Touches(s, s', t, J)
  {
    forall j | 0 <= j < |s.owners| && j !in J
      ensures && (j in s.buffers <==> j in s'.buffers)
          && (j in s.buffers ==> s'.buffers[j] == s.buffers[j])
          && (j in s.ownerDone <==> j in s'.ownerDone)
          && (j in s.nextDone <==> j in s'.nextDone)
    {
      assert j in s.buffers - J <==> j in s.buffers;
      assert j in s.ownerDone - J <==> j in s.ownerDone;
      assert j in s.nextDone - J <==> j in s.nextDone;
    }
  }

  /** A step that files units under the batch index of buffer `k`. */
  lemma TouchOutput(c: Config, s: State, s': State, t: nat, k: nat, units: seq<string>)
    requires t in s.threads && t in s'.threads && s'.threads == s.threads[t := s'.threads[t]]
    requires ServesOnly(s.threads[t], {k}) && ServesOnly(s'.threads[t], {k})
    requires CountersOk(c, s) && k < |s.batches| && Real(c, k)
    requires s' == Filed(s, s.batches[k], units, s'.threads)
    ensures Touches(s, s', t, {k})
    ensures Out(s', s.batches[k]) == Out(s, s.batches[k]) + units
  {
    hide Real, Position;
    forall j | 0 <= j < |s.owners| && j != k
      ensures Out(s', s.batches[j]) == Out(s, s.batches[j])
    {
      if j < k {
        RealDown(c, j, k);
        assert s.batches[j] < s.batches[k];
      } else {
        assert s.batches[k] < s.batches[j];
      }
    }
  }

  // ---- the steps ----

  lemma StepStart(c: Config, s: State, t: nat)
    requires Inv(c, s) && t in s.threads && s.threads[t].Idle?
    ensures Inv(c, Start(s, t))
  {
    hide Inv, Real, CountersOk, OutputOk, ReadsOk, Touches;
    var s' := Start(s, t);
    Known(c, s, t);
    KeepReads(s, s', t);
    KeepCounters(c, s, s');
    TouchBlock(s, s', t, {}, s.nextBlock, Private(t), "");
    FrameNone(c, s, s', t);
  }

  lemma StepGetReader(c: Config, s: State, t: nat, block: nat)
    requires Inv(c, s) && t in s.threads && s.threads[t] == NoReader(block)
    ensures Inv(c, GetReader(s, t, block))
  {
    hide Inv, Real, CountersOk, OutputOk, ReadsOk, Touches;
    var s' := GetReader(s, t, block);
    Known(c, s, t);
    KeepReads(s, s', t);
    KeepCounters(c, s, s');
    if s.ended {
      TouchBlock(s, s', t, {}, block, Free, "");
    } else {
      TouchPlain(s, s', t, {});
    }
    FrameNone(c, s, s', t);
  }

  lemma StepEmpty(c: Config, s: State, t: nat, block: nat)
    requires Inv(c, s) && t in s.threads && s.threads[t] == Empty(block)
    ensures Inv(c, Stop(s, t, block))
  {
    hide Inv, Real, CountersOk, OutputOk, ReadsOk, Touches;
    var s' := Stop(s, t, block);
    Known(c, s, t);
    KeepReads(s, s', t);
    KeepCounters(c, s, s');
    TouchPlain(s, s', t, {});
    FrameNone(c, s, s', t);
  }

  lemma StepClose(c: Config, s: State, t: nat, block: nat)
    requires Inv(c, s) && t in s.threads && s.threads[t] == Closing(block) && s.requestedReads == s.actualReads
    ensures Inv(c, Close(s, t, block))
  {
    hide Inv, Real, CountersOk, OutputOk, ReadsOk, Touches;
    var s' := Close(s, t, block);
    Known(c, s, t);
    KeepReads(s, s', t);
    KeepCounters(c, s, s');
    TouchPlain(s, s', t, {});
    FrameNone(c, s, s', t);
  }

  lemma StepEndScan(c: Config, s: State, t: nat, buf: Buffer)
    requires Inv(c, s) && t in s.threads && s.threads[t] == ReadIn(buf)
    ensures Inv(c, EndScan(s, t, buf))
  {
    hide Inv, Real, Text, Last, CountersOk, OutputOk, ReadsOk, Joins, Units, Touches, ViewOf, LinkOk;
    var s' := EndScan(s, t, buf);
    var k := buf.index;
    Known(c, s, t);
    OwnerKnows(c, s, t);
    if buf.last {
      LastIsEnd(c, s, k);
    }
    KeepReads(s, s', t);
    KeepCounters(c, s, s');
    TouchPlain(s, s', t, {k});
    ViewMoved(s, s', t, k);
    var w := ViewOf(s, k).(at := Ready(buf));
    LinkSame(c, s, k, ViewOf(s, k), w);
    FrameOne(c, s, s', t, k, w);
  }

  lemma LastIsEnd(c: Config, s: State, k: nat)
    requires CountersOk(c, s) && k < |s.owners| && Last(c, k)
    ensures s.readPosition == |c.file|
  {
    PositionStep(c.file, Request(c), k);
    EndStays(c, k + 1, |s.owners|);
  }

  lemma {:induction false} EndStays(c: Config, j: nat, k: nat)
    requires j <= k && Position(c.file, Request(c), j) == |c.file|
    ensures Position(c.file, Request(c), k) == |c.file|
    decreases k - j
  {
    if j < k {
      PositionStep(c.file, Request(c), j);
      EndStays(c, j + 1, k);
    }
  }

  lemma StepReadSlice(c: Config, s: State, t: nat, buf: Buffer, position: nat)
    requires Inv(c, s) && t in s.threads && s.threads[t] == Claimed(buf, position)
    ensures Inv(c, ReadSlice(c, s, t, buf, position))
  {
    hide Inv, Real, Text, Last, CountersOk, OutputOk, ReadsOk, Joins, Units, Touches, Position, LinkOk, ViewOf;
    var s' := ReadSlice(c, s, t, buf, position);
    var k := buf.index;
    Known(c, s, t);
    OwnerKnows(c, s, t);
    NotClosed(c, s, t);
    SliceText(c, k);
    OwnBlock(c, s, t);
    KeepReads(s, s', t);
    KeepCounters(c, s, s');
    assert s.use[buf.block := Private(t)] == s.use;
    TouchBlock(s, s', t, {k}, buf.block, Private(t), Text(c, k));
    ViewRead(s, s', t, k, Text(c, k));
    var w := ViewOf(s, k).(at := ReadIn(buf), text := Text(c, k));
    LinkSame(c, s, k, ViewOf(s, k), w);
    FrameOne(c, s, s', t, k, w);
  }

  /** A thread that has claimed a slice is the only one to write its block. */
  lemma OwnBlock(c: Config, s: State, t: nat)
    requires Inv(c, s) && t in s.threads && HasBuffer(s.threads[t])
    requires s.threads[t].Claimed? || s.threads[t].ReadIn? || s.threads[t].Ready?
    ensures var buf := s.threads[t].buf; buf.block in s.use && s.use[buf.block] == Private(t) && buf.index !in s.buffers
  {
    hide Inv, Real, Text, Last, Joins, Units;
    OwnerKnows(c, s, t);
  }

  /** The owner's move is of no concern to the neighbours: it has not yet turned to the
      previous buffer, and its own entry does not change. */
  lemma LinkSame(c: Config, s: State, k: nat, v: View, w: View)
    requires k < |s.owners| == |s.batches|
    requires v.entry == w.entry && v.ownerDone == w.ownerDone && v.nextDone == w.nextDone
    requires !v.at.Releasing? && !w.at.Releasing?
    requires v.at.Claimed? || v.at.ReadIn? || v.at.Ready?
    requires w.at.Claimed? || w.at.ReadIn? || w.at.Ready? || w.at.Stitching?
    ensures k > 0 && LinkOk(c, k - 1, ViewOf(s, k - 1), v) ==> LinkOk(c, k - 1, ViewOf(s, k - 1), w)
    ensures k + 1 < |s.owners| && LinkOk(c, k, v, ViewOf(s, k + 1)) ==> LinkOk(c, k, w, ViewOf(s, k + 1))
  {
    hide ViewOf, LineOk;
  }

  lemma SliceText(c: Config, k: nat)
    ensures var p := Position(c.file, Request(c), k);
      p + |Text(c, k)| <= |c.file| && Text(c, k) == c.file[p..p + |Text(c, k)|]
  {
  }

  /** The file is not closed while a claimed slice has not been read. */
  lemma NotClosed(c: Config, s: State, t: nat)
    requires Inv(c, s) && t in s.threads && s.threads[t].Claimed?
    ensures !s.closed
  {
    hide Real, OwnOk, LinkOk, ViewOf, OutputOk, ThreadOk, Position;
    SumAtLeast(s.threads, InFlight, t);
  }

  lemma StepPublish(c: Config, s: State, t: nat, buf: Buffer)
    requires Inv(c, s) && t in s.threads && s.threads[t] == Ready(buf)
    ensures Inv(c, Publish(s, t, buf))
  {
    hide Inv, Real, Text, Last, CountersOk, OutputOk, ReadsOk, Touches, OwnOk, LinkOk, ViewOf;
    var s' := Publish(s, t, buf);
    var k := buf.index;
    Known(c, s, t);
    OwnerKnows(c, s, t);
    OwnBlock(c, s, t);
    KeepReads(s, s', t);
    KeepCounters(c, s, s');
    TouchBlock(s, s', t, {k}, buf.block, Published(k), "");
    PublishAdds(c, k, ViewOf(s, k), buf);
    PublishLinks(c, s, k, ViewOf(s, k), buf);
    ViewPublished(s, t, buf);
    FrameOne(c, s, s', t, k, PublishView(ViewOf(s, k), k, buf));
  }

  lemma ViewPublished(s: State, t: nat, buf: Buffer)
    requires t in s.threads && s.threads[t] == Ready(buf)
    requires buf.index < |s.owners| == |s.batches| && s.owners[buf.index] == t && buf.index !in s.buffers
    ensures ViewOf(Publish(s, t, buf), buf.index) == PublishView(ViewOf(s, buf.index), buf.index, buf)
  {
  }

  function PublishView(v: View, k: nat, buf: Buffer): View {
    v.(at := if k == 0 then Parsing(buf, 0, 0) else Stitching(buf),
       entry := Present(Handle(if buf.last then 1 else 2, buf.block)),
       use := Published(k))
  }

  lemma PublishAdds(c: Config, k: nat, v: View, buf: Buffer)
    requires OwnOk(c, k, v) && v.at == Ready(buf)
    ensures v.entry == Absent
    ensures OwnOk(c, k, PublishView(v, k, buf))
  {
    hide Slice, IsLast, ParseUnits;
  }

  lemma PublishLinks(c: Config, s: State, k: nat, v: View, buf: Buffer)
    requires k < |s.owners| == |s.batches| && OwnOk(c, k, v) && v.at == Ready(buf)
    ensures k > 0 && LinkOk(c, k - 1, ViewOf(s, k - 1), v) ==>
      LinkOk(c, k - 1, ViewOf(s, k - 1), PublishView(v, k, buf))
    ensures k + 1 < |s.owners| && LinkOk(c, k, v, ViewOf(s, k + 1)) ==>
      LinkOk(c, k, PublishView(v, k, buf), ViewOf(s, k + 1))
  {
    hide ViewOf, LineOk, Text, Last;
  }

  lemma StepFindPrevious(c: Config, s: State, t: nat, buf: Buffer)
    requires Inv(c, s) && t in s.threads && s.threads[t] == Stitching(buf)
    requires buf.index > 0 && buf.index - 1 in s.buffers
    ensures Inv(c, FindPrevious(s, t, buf))
  {
    hide Inv, Real, Text, Last, CountersOk, OutputOk, ReadsOk, Touches, Units, Joins, OwnOk, LinkOk, ViewOf;
    var s' := FindPrevious(s, t, buf);
    var k := buf.index;
    Known(c, s, t);
    OwnerKnows(c, s, t);
    KeepReads(s, s', t);
    KeepCounters(c, s, s');
    TouchPlain(s, s', t, {k});
    ViewMoved(s, s', t, k);
    FindLinks(c, s, k);
    FrameOne(c, s, s', t, k, ViewOf(s, k).(at := s'.threads[t]));
  }

  lemma FindLinks(c: Config, s: State, k: nat)
    requires k > 0 && k < |s.owners| == |s.batches| && k - 1 in s.buffers
    requires OwnOk(c, k, ViewOf(s, k)) && ViewOf(s, k).at.Stitching? && LinkOk(c, k - 1, ViewOf(s, k - 1), ViewOf(s, k))
    ensures var w := ViewOf(s, k).(at := Holding(ViewOf(s, k).at.buf, s.buffers[k - 1].block));
      && OwnOk(c, k, w)
      && LinkOk(c, k - 1, ViewOf(s, k - 1), w)
      && (k + 1 < |s.owners| && LinkOk(c, k, ViewOf(s, k), ViewOf(s, k + 1)) ==> LinkOk(c, k, w, ViewOf(s, k + 1)))
  {
    hide At, Text, Last, Units, Joins, LineOk;
  }

  lemma StepCopyLine(c: Config, s: State, t: nat, buf: Buffer, previous: nat)
    requires Inv(c, s) && t in s.threads && s.threads[t] == Holding(buf, previous)
    ensures Inv(c, CopyLine(c, s, t, buf, previous))
  {
    hide Inv, Real, Text, Last, CountersOk, OutputOk, ReadsOk, Touches, Units, Joins, OwnOk, LinkOk, CopyLine, LineOk;
    hide ViewOf;
    var k := buf.index;
    Known(c, s, t);
    OwnerKnows(c, s, t);
    var th := CopyResult(c, s, t, buf, previous);
    var s' := Become(s, t, th);
    KeepReads(s, s', t);
    KeepCounters(c, s, s');
    TouchPlain(s, s', t, {k});
    ViewMoved(s, s', t, k);
    CopyLinks(c, s, k, ViewOf(s, k - 1), ViewOf(s, k), th);
    FrameOne(c, s, s', t, k, ViewOf(s, k).(at := th));
  }

  /** While a thread holds the previous buffer, that buffer is in the map and its memory
      holds its slice: the copy is the crossing line of the file. */
  lemma CopyResult(c: Config, s: State, t: nat, buf: Buffer, previous: nat) returns (th: Thread)
    requires Inv(c, s) && t in s.threads && s.threads[t] == Holding(buf, previous)
    ensures buf.index > 0 && buf.index in s.buffers && CopyLine(c, s, t, buf, previous) == Become(s, t, th)
    ensures (th == Failed(buf.index) && !Joins(c, buf.index)) ||
      (th.Copied? && th.buf == buf && LineOk(c, buf.index, th.line))
  {
    hide Inv, Real, Last, Units, Stitched, HasNewline, Slice;
    var k := buf.index;
    OwnerKnows(c, s, t);
    NeighbourOk(c, s, k);
    RealText(c, k);
    RealText(c, k - 1);
    assert PublishedOk(c, k - 1, ViewOf(s, k - 1));
    th := CopyLine(c, s, t, buf, previous).threads[t];
  }

  lemma RealText(c: Config, k: nat)
    ensures Real(c, k) <==> Text(c, k) != ""
  {
  }

  lemma NeighbourOk(c: Config, s: State, k: nat)
    requires Inv(c, s) && 0 < k < |s.owners| && Real(c, k)
    ensures |s.batches| == |s.owners| && Real(c, k - 1) && !Last(c, k - 1) && OwnOk(c, k - 1, ViewOf(s, k - 1))
  {
    hide OwnOk, LinkOk, ViewOf, Real, OutputOk, ReadsOk, Position, Last;
    RealBefore(c, k - 1);
  }

  lemma CopyLinks(c: Config, s: State, k: nat, p: View, v: View, th: Thread)
    requires k > 0 && k < |s.owners| == |s.batches| && OwnOk(c, k, v) && v.at.Holding? && LinkOk(c, k - 1, p, v)
    requires th == Failed(k) || (th.Copied? && th.buf == v.at.buf && LineOk(c, k, th.line))
    ensures OwnOk(c, k, v.(at := th))
    ensures LinkOk(c, k - 1, p, v.(at := th))
    ensures k + 1 < |s.owners| && LinkOk(c, k, v, ViewOf(s, k + 1)) ==> LinkOk(c, k, v.(at := th), ViewOf(s, k + 1))
  {
    hide ViewOf, LineOk, Text, Last, Units, Joins;
  }

  // ---- emitting units ----

  lemma EmitCounters(c: Config, s: State, s': State, k: nat, units: seq<string>)
    requires CountersOk(c, s) && OutputOk(c, s) && k < |s.batches| && Real(c, k)
    requires s' == Filed(s, s.batches[k], units, s'.threads) && s'.threads.Keys == s.threads.Keys
    ensures CountersOk(c, s') && OutputOk(c, s')
  {
    hide Real, Position;
    forall b | b in s'.output
      ensures exists j :: 0 <= j < |s'.batches| && Real(c, j) && s'.batches[j] == b
    {
      if b == s.batches[k] {
        assert Real(c, k) && s'.batches[k] == b;
      } else {
        assert b in s.output;
      }
    }
  }

  lemma ViewEmitted(s: State, s': State, t: nat, k: nat, units: seq<string>)
    requires k < |s.owners| == |s.batches| && s.owners[k] == t && k in s.buffers
    requires t in s.threads && t in s'.threads && Serves(s.threads[t], k) && Serves(s'.threads[t], k)
    requires s' == Filed(s, s.batches[k], units, s'.threads)
    ensures ViewOf(s', k) == ViewOf(s, k).(at := s'.threads[t], out := ViewOf(s, k).out + units)
  {
  }

  lemma StepEmits(c: Config, s: State, s': State, t: nat, k: nat, units: seq<string>)
    requires Inv(c, s) && t in s.threads && HasBuffer(s.threads[t]) && s.threads[t].buf.index == k
    requires k < |s.owners| == |s.batches| && k in s.buffers && Real(c, k)
    requires t in s'.threads && s'.threads == s.threads[t := s'.threads[t]]
    requires s'.threads[t].Parsing? && s'.threads[t].buf == s.threads[t].buf
    requires s.threads[t].Emitting? || s.threads[t].Parsing?
    requires s' == Filed(s, s.batches[k], units, s'.threads)
    requires OwnOk(c, k, ViewOf(s, k).(at := s'.threads[t], out := ViewOf(s, k).out + units))
    ensures Inv(c, s')
  {
    hide Inv, Real, Text, Last, CountersOk, OutputOk, ReadsOk, Touches, Units, Joins, OwnOk, ViewOf, LineOk, LinkOk;
    Known(c, s, t);
    OwnerKnows(c, s, t);
    EmitCounters(c, s, s', k, units);
    KeepReads(s, s', t);
    TouchOutput(c, s, s', t, k, units);
    ViewEmitted(s, s', t, k, units);
    var w := ViewOf(s, k).(at := s'.threads[t], out := ViewOf(s, k).out + units);
    ParseLinks(c, s, k, ViewOf(s, k), w);
    FrameOne(c, s, s', t, k, w);
  }

  lemma ParseLinks(c: Config, s: State, k: nat, v: View, w: View)
    requires k < |s.owners| == |s.batches|
    requires w == v.(at := w.at, out := w.out) && (v.at.Emitting? || v.at.Parsing?) && w.at.Parsing?
    ensures k > 0 && LinkOk(c, k - 1, ViewOf(s, k - 1), v) ==> LinkOk(c, k - 1, ViewOf(s, k - 1), w)
    ensures k + 1 < |s.owners| && LinkOk(c, k, v, ViewOf(s, k + 1)) ==> LinkOk(c, k, w, ViewOf(s, k + 1))
  {
    hide ViewOf, LineOk;
  }

  lemma StepEmitLine(c: Config, s: State, t: nat, buf: Buffer, line: string)
    requires Inv(c, s) && t in s.threads && s.threads[t] == Emitting(buf, line)
    ensures Inv(c, EmitLine(s, t, buf, line))
  {
    hide Inv, Real, Text, Last, CountersOk, OutputOk, ReadsOk, Touches, LinkOk, OwnOk, Joins, LineOk, ViewOf, Trim;
    hide Blank;
    var k := buf.index;
    Known(c, s, t);
    OwnerKnows(c, s, t);
    EmitSees(c, s, t, buf, line);
    if Blank(line, 0, |line|) {
      StepBlankLine(c, s, t, buf, line);
    } else {
      EmitOwn(c, k, ViewOf(s, k), buf, line);
      StepEmits(c, s, EmitLine(s, t, buf, line), t, k, [Trim(line, 0, |line|)]);
    }
  }

  lemma StepBlankLine(c: Config, s: State, t: nat, buf: Buffer, line: string)
    requires Inv(c, s) && t in s.threads && s.threads[t] == Emitting(buf, line) && Blank(line, 0, |line|)
    ensures Inv(c, Become(s, t, Failed(buf.index)))
  {
    hide Inv, Real, Text, Last, CountersOk, OutputOk, ReadsOk, Touches, LinkOk, OwnOk, Joins, LineOk, ViewOf, Blank;
    var s' := Become(s, t, Failed(buf.index));
    var k := buf.index;
    Known(c, s, t);
    OwnerKnows(c, s, t);
    EmitSees(c, s, t, buf, line);
    KeepReads(s, s', t);
    KeepCounters(c, s, s');
    TouchPlain(s, s', t, {k});
    ViewMoved(s, s', t, k);
    FailLinks(c, s, k);
    FrameOne(c, s, s', t, k, ViewOf(s, k).(at := Failed(k)));
  }

  /** The crossing line first, then the rest of the buffer: that is what the owner
      emits. */
  lemma EmitOwn(c: Config, k: nat, v: View, buf: Buffer, line: string)
    requires OwnOk(c, k, v) && v.at == Emitting(buf, line) && LineOk(c, k, line) && Joins(c, k)
    ensures var cur := Text(c, k);
      OwnOk(c, k, v.(at := Parsing(buf, NextNewline(cur, 0, |cur|) + 1, 1), out := v.out + [Trim(line, 0, |line|)]))
  {
    hide Slice, IsLast, ParseUnits, Stitched, Trim, BoundaryOk;
  }

  lemma EmitSees(c: Config, s: State, t: nat, buf: Buffer, line: string)
    requires Inv(c, s) && t in s.threads && s.threads[t] == Emitting(buf, line)
    ensures var k := buf.index;
      && k > 0 && k in s.buffers && LineOk(c, k, line) && HasNewline(Text(c, k))
      && buf.block in s.memory && s.memory[buf.block] == Text(c, k)
      && (Joins(c, k) <==> !Blank(line, 0, |line|))
  {
    hide Inv, Real, Last, Slice, HasNewline, Stitched;
    OwnerKnows(c, s, t);
    RealText(c, buf.index);
  }

  lemma FailLinks(c: Config, s: State, k: nat)
    requires k > 0 && k < |s.owners| == |s.batches| && OwnOk(c, k, ViewOf(s, k)) && ViewOf(s, k).at.Emitting?
    requires LinkOk(c, k - 1, ViewOf(s, k - 1), ViewOf(s, k))
    ensures var w := ViewOf(s, k).(at := Failed(k));
      && OwnOk(c, k, w)
      && LinkOk(c, k - 1, ViewOf(s, k - 1), w)
      && (k + 1 < |s.owners| && LinkOk(c, k, ViewOf(s, k), ViewOf(s, k + 1)) ==> LinkOk(c, k, w, ViewOf(s, k + 1)))
  {
    hide ViewOf, Text, Last, Units, Joins, LineOk;
  }

  lemma StepParseChunk(c: Config, s: State, t: nat, buf: Buffer, offset: nat, scanCount: nat)
    requires Inv(c, s) && t in s.threads && s.threads[t] == Parsing(buf, offset, scanCount)
    ensures Inv(c, ParseChunk(s, t, buf, offset, scanCount))
  {
    hide Inv, Real, Text, Last, CountersOk, OutputOk, ReadsOk, Touches, LinkOk, ParseUnits, Chunk, Units, Joins;
    var s' := ParseChunk(s, t, buf, offset, scanCount);
    var k := buf.index;
    var cur := Text(c, k);
    Known(c, s, t);
    OwnerKnows(c, s, t);
    RealText(c, k);
    var r := Chunk(cur, offset, |cur|, VECTOR_SIZE - scanCount, buf.last);
    ChunkIsPrefix(cur, offset, |cur|, VECTOR_SIZE - scanCount, buf.last);
    StepEmits(c, s, s', t, k, r.0);
  }

  // ---- releasing buffers ----

  /** The view of a buffer its owner has released. */
  function Released(v: View, at: Thread): View
    requires v.entry.Present? && v.entry.handle.readers > 0
  {
    v.(at := at, ownerDone := true, entry := Present(v.entry.handle.(readers := v.entry.handle.readers - 1)))
  }

  lemma StepRelease(c: Config, s: State, t: nat, buf: Buffer, scanCount: nat)
    requires Inv(c, s) && t in s.threads && s.threads[t] == Parsing(buf, buf.size, scanCount)
    ensures Inv(c, Release(s, t, buf))
  {
    hide Inv, Real, Text, Last, CountersOk, OutputOk, ReadsOk, Touches, Units, Joins, OwnOk, LinkOk, ViewOf;
    var k := buf.index;
    Known(c, s, t);
    OwnerKnows(c, s, t);
    ReleaseSees(c, s, t, buf);
    ViewReleased(s, t, buf);
    var at := if s.buffers[k].readers == 1 then Releasing(buf) else Idle;
    ReleaseOwn(c, k, ViewOf(s, k), buf, scanCount, at);
    ReleaseLinks(c, s, k, ViewOf(s, k), at);
    var s' := Release(s, t, buf);
    ReleaseCounters(c, s, t, buf);
    ReleaseTouches(s, t, buf);
    assert ThreadOk(c, s', t) by {
      if s.buffers[k].readers == 1 {
      } else {
        assert s'.threads[t] == HasReader(s.nextBlock);
      }
    }
    FrameOne(c, s, s', t, k, Released(ViewOf(s, k), at));
  }

  lemma ReleaseCounters(c: Config, s: State, t: nat, buf: Buffer)
    requires Inv(c, s) && t in s.threads && s.threads[t].Parsing? && s.threads[t].buf == buf
    requires buf.index in s.buffers && s.buffers[buf.index].readers > 0
    ensures var s' := Release(s, t, buf); CountersOk(c, s') && OutputOk(c, s') && ReadsOk(s')
  {
    hide Inv, Real, CountersOk, OutputOk, ReadsOk, Release;
    Known(c, s, t);
    CounterBounds(c, s);
    var s' := Release(s, t, buf);
    ReleaseFields(s, t, buf);
    KeepReads(s, s', t);
    KeepCounters(c, s, s');
  }

  /** What a release leaves alone. */
  predicate OnlyReleases(s: State, s': State, t: nat, k: nat) {
    && s'.owners == s.owners && s'.batches == s.batches && s'.readPosition == s.readPosition
    && s'.batchIndex == s.batchIndex && s'.requestedReads == s.requestedReads && s'.actualReads == s.actualReads
    && s'.ended == s.ended && s'.closed == s.closed && s'.output == s.output && s'.nextDone == s.nextDone
    && t in s'.threads && s'.threads == s.threads[t := s'.threads[t]] && !s'.threads[t].Claimed?
    && s'.buffers.Keys == s.buffers.Keys && s'.ownerDone == s.ownerDone + {k}
    && s'.nextBlock >= s.nextBlock && (forall b :: b in s'.use ==> b in s.use || b < s'.nextBlock)
  }

  lemma ReleaseFields(s: State, t: nat, buf: Buffer)
    requires t in s.threads && s.threads[t].Parsing? && s.threads[t].buf == buf
    requires buf.index in s.buffers && s.buffers[buf.index].readers > 0
    ensures OnlyReleases(s, Release(s, t, buf), t, buf.index)
  {
    hide OnlyReleases;
    if s.buffers[buf.index].readers == 1 {
      ReleaseLast(s, t, buf);
    } else {
      ReleaseFirst(s, t, buf);
    }
  }

  lemma ReleaseLast(s: State, t: nat, buf: Buffer)
    requires t in s.threads && s.threads[t].Parsing? && s.threads[t].buf == buf
    requires buf.index in s.buffers && s.buffers[buf.index].readers == 1
    ensures OnlyReleases(s, Release(s, t, buf), t, buf.index)
  {
  }

  lemma ReleaseFirst(s: State, t: nat, buf: Buffer)
    requires t in s.threads && s.threads[t].Parsing? && s.threads[t].buf == buf
    requires buf.index in s.buffers && s.buffers[buf.index].readers > 1
    ensures OnlyReleases(s, Release(s, t, buf), t, buf.index)
  {
  }

  lemma ReleaseTouches(s: State, t: nat, buf: Buffer)
    requires t in s.threads && s.threads[t].Parsing? && s.threads[t].buf == buf && |s.batches| == |s.owners|
    requires buf.index in s.buffers && s.buffers[buf.index].readers > 0
    requires buf.block in s.use && s.use[buf.block] == Published(buf.index) && s.nextBlock !in s.use
    ensures Touches(s, Release(s, t, buf), t, {buf.index})
  {
    hide Touches;
    var s' := Release(s, t, buf);
    var k := buf.index;
    if s.buffers[k].readers == 1 {
      assert s.use[buf.block := Published(k)] == s.use;
      TouchBlock(s, s', t, {k}, buf.block, Published(k), "");
    } else {
      TouchBlock(s, s', t, {k}, s.nextBlock, Private(t), "");
    }
  }

  lemma ReleaseSees(c: Config, s: State, t: nat, buf: Buffer)
    requires Inv(c, s) && t in s.threads && s.threads[t].Parsing? && s.threads[t].buf == buf
    ensures var k := buf.index;
      && k in s.buffers && s.buffers[k].readers > 0 && s.buffers[k].block == buf.block
      && k !in s.ownerDone && buf.last == Last(c, k)
      && buf.block in s.use && s.use[buf.block] == Published(k)
      && (s.buffers[k].readers == 1 || !buf.last)
      && ViewOf(s, k).entry == Present(s.buffers[k])
      && s.nextBlock !in s.use
  {
    hide Inv, Real, Text, Last, Units, Joins, LineOk;
    Known(c, s, t);
    OwnerKnows(c, s, t);
    var k := buf.index;
    if k in s.nextDone {
      NextDoneNeedsNext(c, s, k);
      RealBefore(c, k);
    }
  }

  lemma NextDoneNeedsNext(c: Config, s: State, k: nat)
    requires CountersOk(c, s) && k in s.nextDone
    ensures k + 1 < |s.owners| && Real(c, k + 1)
  {
    hide Real, Position;
  }

  lemma ViewReleased(s: State, t: nat, buf: Buffer)
    requires t in s.threads && s.threads[t].Parsing? && s.threads[t].buf == buf
    requires buf.index < |s.owners| == |s.batches| && s.owners[buf.index] == t
    requires buf.index in s.buffers && s.buffers[buf.index].readers > 0
    requires s.buffers[buf.index].block in s.use && s.nextBlock !in s.use
    ensures ViewOf(s, buf.index).entry == Present(s.buffers[buf.index])
    ensures ViewOf(Release(s, t, buf), buf.index) ==
      Released(ViewOf(s, buf.index), if s.buffers[buf.index].readers == 1 then Releasing(buf) else Idle)
  {
  }

  lemma ReleaseOwn(c: Config, k: nat, v: View, buf: Buffer, scanCount: nat, at: Thread)
    requires OwnOk(c, k, v) && v.at == Parsing(buf, buf.size, scanCount) && v.entry.handle.readers > 0
    requires at == if v.entry.handle.readers == 1 then Releasing(buf) else Idle
    requires v.entry.handle.readers == 1 || !buf.last
    ensures OwnOk(c, k, Released(v, at))
  {
    hide Text, Last, Units, Joins;
  }

  lemma ReleaseLinks(c: Config, s: State, k: nat, v: View, at: Thread)
    requires k < |s.owners| == |s.batches| && v.at.Parsing? && v.entry.Present? && v.entry.handle.readers > 0
    requires at.Idle? || at.Releasing?
    requires v.entry.handle.readers == 1 ==> at.Releasing?
    ensures k > 0 && LinkOk(c, k - 1, ViewOf(s, k - 1), v) ==> LinkOk(c, k - 1, ViewOf(s, k - 1), Released(v, at))
    ensures k + 1 < |s.owners| && LinkOk(c, k, v, ViewOf(s, k + 1)) ==> LinkOk(c, k, Released(v, at), ViewOf(s, k + 1))
  {
    hide ViewOf, LineOk;
  }

  /** The view of a buffer that is gone. */
  function Gone(v: View): View {
    v.(at := Idle, entry := Absent, text := "", use := Free)
  }

  lemma StepReuse(c: Config, s: State, t: nat, buf: Buffer)
    requires Inv(c, s) && t in s.threads && s.threads[t] == Releasing(buf)
    ensures Inv(c, Reuse(s, t, buf))
  {
    hide Inv, Real, Text, Last, CountersOk, OutputOk, ReadsOk, Touches, Units, Joins, OwnOk, LinkOk, ViewOf;
    var s' := Reuse(s, t, buf);
    var k := buf.index;
    Known(c, s, t);
    OwnerKnows(c, s, t);
    ReuseSees(c, s, t, buf);
    if buf.last {
      LastIsEnd(c, s, k);
    }
    ReuseCounters(c, s, t, buf);
    ViewGone(s, s', k);
    hide Reuse;
    if Real(c, k + 1) {
      RealBefore(c, k);
    }
    GoneOk(c, s, k, ViewOf(s, k));
    FrameOne(c, s, s', t, k, Gone(ViewOf(s, k)));
  }

  lemma ReuseCounters(c: Config, s: State, t: nat, buf: Buffer)
    requires CountersOk(c, s) && OutputOk(c, s) && ReadsOk(s) && ThreadOk'(c, s, t)
    requires buf.index in s.buffers && buf.block in s.use && s.use[buf.block] == Published(buf.index)
    requires s.threads[t] == Releasing(buf) && (buf.last ==> s.readPosition == |c.file|)
    ensures var s' := Reuse(s, t, buf);
      && CountersOk(c, s') && OutputOk(c, s') && ReadsOk(s') && ThreadOk'(c, s', t) && Touches(s, s', t, {buf.index})
  {
    hide Real, CountersOk, OutputOk, ReadsOk, Touches, Text, Last, Joins, BufOk;
    var s' := Reuse(s, t, buf);
    CounterBounds(c, s);
    KeepReads(s, s', t);
    KeepCounters(c, s, s');
    TouchBlock(s, s', t, {buf.index}, buf.block, Private(t), "");
  }

  lemma ReuseSees(c: Config, s: State, t: nat, buf: Buffer)
    requires Inv(c, s) && t in s.threads && s.threads[t] == Releasing(buf)
    ensures buf.index in s.buffers && buf.last == Last(c, buf.index)
    ensures buf.block in s.use && s.use[buf.block] == Published(buf.index)
  {
    hide Inv, Real, Text, Last, Units, Joins, LineOk;
    OwnerKnows(c, s, t);
  }

  lemma ViewGone(s: State, s': State, k: nat)
    requires k < |s.owners| == |s.batches| && s'.owners == s.owners && s'.batches == s.batches
    requires k !in s'.buffers && s'.ownerDone == s.ownerDone && s'.nextDone == s.nextDone && s'.output == s.output
    requires At(s', k) == Idle
    ensures ViewOf(s', k) == Gone(ViewOf(s, k))
  {
  }

  /** A buffer whose last reader is its owner may go: the next owner has let go of it. */
  lemma GoneOk(c: Config, s: State, k: nat, v: View)
    requires k < |s.owners| == |s.batches| && OwnOk(c, k, v) && v.at.Releasing?
    ensures OwnOk(c, k, Gone(v))
    ensures k > 0 && LinkOk(c, k - 1, ViewOf(s, k - 1), v) ==> LinkOk(c, k - 1, ViewOf(s, k - 1), Gone(v))
    ensures k + 1 < |s.owners| && !Last(c, k) && LinkOk(c, k, v, ViewOf(s, k + 1)) ==>
      LinkOk(c, k, Gone(v), ViewOf(s, k + 1))
  {
    hide ViewOf, LineOk, Text, Last, Units, Joins;
  }

  // ---- letting go of the previous buffer ----

  /** Two views that may stand for the buffers `k - 1` and `k` between their neighbours. */
  predicate PairFits(c: Config, s: State, k: nat, x: View, w: View)
    requires 0 < k < |s.owners| == |s.batches|
  {
    && (k > 1 ==> LinkOk(c, k - 2, ViewOf(s, k - 2), x))
    && OwnOk(c, k - 1, x)
    && LinkOk(c, k - 1, x, w)
    && OwnOk(c, k, w)
    && (k + 1 < |s.owners| && Real(c, k + 1) ==> LinkOk(c, k, w, ViewOf(s, k + 1)))
  }

  lemma FrameTwo(c: Config, s: State, s': State, t: nat, k: nat, x: View, w: View)
    requires 0 < k < |s.owners| == |s.batches| && s'.owners == s.owners && s'.batches == s.batches && t in s'.threads
    requires Touches(s, s', t, {k - 1, k})
    requires CountersOk(c, s') && OutputOk(c, s') && ReadsOk(s') && ThreadOk(c, s', t)
    requires Inv(c, s) && Real(c, k)
    requires ViewOf(s', k - 1) == x && ViewOf(s', k) == w && PairFits(c, s, k, x, w)
    ensures Inv(c, s')
  {
    hide Real, OwnOk, LinkOk, ViewOf, OutputOk, ReadsOk, Touches, ThreadOk, Position;
    if k > 1 {
      RealBefore(c, k - 1);
      RealBefore(c, k - 2);
      ViewFrame(c, s, s', t, {k - 1, k}, k - 2);
    }
    if k + 1 < |s.owners| && Real(c, k + 1) {
      ViewFrame(c, s, s', t, {k - 1, k}, k + 1);
    }
    Frame(c, s, s', t, {k - 1, k});
  }

  /** What the invariant says about the previous buffer. */
  lemma PreviousKnown(c: Config, s: State, k: nat)
    requires Inv(c, s) && 0 < k < |s.owners| && Real(c, k)
    ensures |s.batches| == |s.owners| && Real(c, k - 1) && !Last(c, k - 1)
    ensures OwnOk(c, k - 1, ViewOf(s, k - 1))
    ensures k > 1 ==> LinkOk(c, k - 2, ViewOf(s, k - 2), ViewOf(s, k - 1))
  {
    hide OwnOk, LinkOk, ViewOf, Real, OutputOk, ReadsOk, Position, Last;
    RealBefore(c, k - 1);
  }

  /** The view of the previous buffer once the next owner has let go of it. */
  function LetGo(v: View): View
    requires v.entry.Present? && v.entry.handle.readers > 0
  {
    v.(nextDone := true, entry := Present(v.entry.handle.(readers := v.entry.handle.readers - 1)))
  }

  lemma StepDropPrevious(c: Config, s: State, t: nat, buf: Buffer, line: string)
    requires Inv(c, s) && t in s.threads && s.threads[t] == Copied(buf, line)
    ensures Inv(c, DropPrevious(s, t, buf, line))
  {
    hide Inv, Real, Text, Last, CountersOk, OutputOk, ReadsOk, Touches, Units, Joins, OwnOk, LinkOk, ViewOf, LineOk;
    var k := buf.index;
    Known(c, s, t);
    OwnerKnows(c, s, t);
    DropSees(c, s, t, buf, line);
    PreviousKnown(c, s, k);
    var s' := DropPrevious(s, t, buf, line);
    var p, v := ViewOf(s, k - 1), ViewOf(s, k);
    DropCounters(c, s, t, buf, line);
    ViewDropped(s, t, buf, line);
    hide DropPrevious;
    DropOk(c, s, k, p, v, s'.threads[t]);
    FrameTwo(c, s, s', t, k, LetGo(p), v.(at := s'.threads[t]));
  }

  lemma DropCounters(c: Config, s: State, t: nat, buf: Buffer, line: string)
    requires CountersOk(c, s) && OutputOk(c, s) && ReadsOk(s) && ThreadOk'(c, s, t)
    requires 0 < buf.index && buf.index - 1 in s.buffers && s.buffers[buf.index - 1].readers > 0
    requires s.threads[t] == Copied(buf, line) && buf.block in s.use && s.use[buf.block] == Published(buf.index)
    ensures var s' := DropPrevious(s, t, buf, line);
      && CountersOk(c, s') && OutputOk(c, s') && ReadsOk(s') && ThreadOk'(c, s', t)
      && Touches(s, s', t, {buf.index - 1, buf.index})
  {
    hide Real, CountersOk, OutputOk, ReadsOk, Touches, Text, Last, Joins, BufOk;
    var s' := DropPrevious(s, t, buf, line);
    CounterBounds(c, s);
    KeepReads(s, s', t);
    KeepCounters(c, s, s');
    assert s.use[buf.block := s.use[buf.block]] == s.use;
    TouchBlock(s, s', t, {buf.index - 1, buf.index}, buf.block, s.use[buf.block], "");
  }

  lemma DropSees(c: Config, s: State, t: nat, buf: Buffer, line: string)
    requires Inv(c, s) && t in s.threads && s.threads[t] == Copied(buf, line)
    ensures var k := buf.index;
      && k > 0 && k - 1 in s.buffers && s.buffers[k - 1].readers > 0
      && k in s.buffers && s.buffers[k].block == buf.block && buf.block in s.use && s.use[buf.block] == Published(k)
      && ViewOf(s, k - 1).entry == Present(s.buffers[k - 1])
      && LineOk(c, k, line)
  {
    hide Inv, Real, Text, Last, Units, Joins, LineOk;
    OwnerKnows(c, s, t);
    PreviousKnown(c, s, buf.index);
  }

  lemma ViewDropped(s: State, t: nat, buf: Buffer, line: string)
    requires t in s.threads && s.threads[t] == Copied(buf, line)
    requires var k := buf.index;
      && 0 < k < |s.owners| == |s.batches| && s.owners[k] == t
      && k - 1 in s.buffers && s.buffers[k - 1].readers > 0 && k in s.buffers
    ensures var s' := DropPrevious(s, t, buf, line);
      && ViewOf(s, buf.index - 1).entry == Present(s.buffers[buf.index - 1])
      && ViewOf(s', buf.index - 1) == LetGo(ViewOf(s, buf.index - 1))
      && ViewOf(s', buf.index) == ViewOf(s, buf.index).(at := s'.threads[t])
  {
  }

  lemma DropOk(c: Config, s: State, k: nat, p: View, v: View, th: Thread)
    requires 0 < k < |s.owners| == |s.batches| && OwnOk(c, k, v) && v.at.Copied? && LinkOk(c, k - 1, p, v)
    requires OwnOk(c, k - 1, p) && !Last(c, k - 1) && p.entry.Present? && p.entry.handle.readers > 0
    requires th == if p.entry.handle.readers == 1 then Removing(v.at.buf, v.at.line) else Emitting(v.at.buf, v.at.line)
    ensures OwnOk(c, k - 1, LetGo(p)) && OwnOk(c, k, v.(at := th))
    ensures k > 1 && LinkOk(c, k - 2, ViewOf(s, k - 2), p) ==> LinkOk(c, k - 2, ViewOf(s, k - 2), LetGo(p))
    ensures LinkOk(c, k - 1, LetGo(p), v.(at := th))
    ensures k + 1 < |s.owners| && LinkOk(c, k, v, ViewOf(s, k + 1)) ==> LinkOk(c, k, v.(at := th), ViewOf(s, k + 1))
  {
    hide ViewOf, LineOk, Text, Last, Units, Joins;
  }

  lemma StepRemovePrevious(c: Config, s: State, t: nat, buf: Buffer, line: string)
    requires Inv(c, s) && t in s.threads && s.threads[t] == Removing(buf, line)
    ensures Inv(c, RemovePrevious(s, t, buf, line))
  {
    hide Inv, Real, Text, Last, CountersOk, OutputOk, ReadsOk, Touches, Units, Joins, OwnOk, LinkOk, ViewOf, LineOk;
    var k := buf.index;
    Known(c, s, t);
    OwnerKnows(c, s, t);
    RemoveSees(c, s, t, buf, line);
    PreviousKnown(c, s, k);
    var s' := RemovePrevious(s, t, buf, line);
    var p, v := ViewOf(s, k - 1), ViewOf(s, k);
    RemoveCounters(c, s, t, buf, line);
    ViewRemoved(s, t, buf, line);
    hide RemovePrevious;
    RemoveOk(c, s, k, p, v);
    FrameTwo(c, s, s', t, k, Gone(p), v.(at := Emitting(buf, line)));
  }

  lemma RemoveCounters(c: Config, s: State, t: nat, buf: Buffer, line: string)
    requires CountersOk(c, s) && OutputOk(c, s) && ReadsOk(s) && ThreadOk'(c, s, t)
    requires 0 < buf.index && buf.index - 1 in s.buffers && UsedFor(s, s.buffers[buf.index - 1].block, buf.index - 1)
    requires s.threads[t] == Removing(buf, line)
    ensures var s' := RemovePrevious(s, t, buf, line);
      && CountersOk(c, s') && OutputOk(c, s') && ReadsOk(s') && ThreadOk'(c, s', t)
      && Touches(s, s', t, {buf.index - 1, buf.index})
  {
    hide Real, CountersOk, OutputOk, ReadsOk, Touches, Text, Last, Joins, BufOk;
    var s' := RemovePrevious(s, t, buf, line);
    CounterBounds(c, s);
    KeepReads(s, s', t);
    KeepCounters(c, s, s');
    TouchBlock(s, s', t, {buf.index - 1, buf.index}, s.buffers[buf.index - 1].block, Free, "");
  }

  predicate UsedFor(s: State, block: nat, k: nat) {
    block in s.use && s.use[block] == Published(k)
  }

  /** What the last reader of the previous buffer sees. */
  predicate RemoveView(c: Config, s: State, k: nat, line: string) {
    && 0 < k < |s.owners| == |s.batches| && k - 1 in s.buffers && k in s.buffers
    && UsedFor(s, s.buffers[k - 1].block, k - 1) && UsedFor(s, s.buffers[k].block, k)
    && At(s, k - 1) == Idle
    && LineOk(c, k, line)
  }

  lemma RemoveSees(c: Config, s: State, t: nat, buf: Buffer, line: string)
    requires Inv(c, s) && t in s.threads && s.threads[t] == Removing(buf, line)
    ensures RemoveView(c, s, buf.index, line)
  {
    hide Inv, Real, Text, Last, Units, Joins, LineOk, OwnOk, LinkOk, ViewOf;
    OwnerKnows(c, s, t);
    SameLengths(c, s);
    var k := buf.index;
    NotTheFirst(c, k, ViewOf(s, k));
    PreviousKnown(c, s, k);
    RemovingViews(c, k, ViewOf(s, k - 1), ViewOf(s, k));
    PresentView(s, k - 1);
    PresentView(s, k);
  }

  lemma SameLengths(c: Config, s: State)
    requires Inv(c, s)
    ensures |s.batches| == |s.owners|
  {
    hide Real, Position, OutputOk, ReadsOk, ThreadOk, OwnOk, LinkOk;
  }

  lemma NotTheFirst(c: Config, k: nat, v: View)
    requires OwnOk(c, k, v) && v.at.Removing?
    ensures k > 0
  {
    hide Real, Text, Last, Units, Joins, ParseUnits, Position;
  }

  lemma RemovingViews(c: Config, k: nat, p: View, v: View)
    requires k > 0 && OwnOk(c, k - 1, p) && OwnOk(c, k, v) && LinkOk(c, k - 1, p, v) && v.at.Removing?
    ensures p.entry.Present? && v.entry.Present? && p.at == Idle && LineOk(c, k, v.at.line)
    ensures p.use == Published(k - 1) && v.use == Published(k)
  {
    hide Real, Text, Last, Units, Joins, LineOk, ParseUnits, Position;
  }

  lemma PresentView(s: State, k: nat)
    requires k < |s.owners| == |s.batches| && ViewOf(s, k).entry.Present? && ViewOf(s, k).use == Published(k)
    ensures k in s.buffers && UsedFor(s, s.buffers[k].block, k) && ViewOf(s, k).at == At(s, k)
  {
  }

  lemma ViewRemoved(s: State, t: nat, buf: Buffer, line: string)
    requires t in s.threads && s.threads[t] == Removing(buf, line)
    requires var k := buf.index;
      && 0 < k < |s.owners| == |s.batches| && s.owners[k] == t && k - 1 in s.buffers && k in s.buffers
      && s.buffers[k].block != s.buffers[k - 1].block && At(s, k - 1) == Idle
    ensures var s' := RemovePrevious(s, t, buf, line);
      && ViewOf(s, buf.index - 1).at == Idle
      && ViewOf(s', buf.index - 1) == Gone(ViewOf(s, buf.index - 1))
      && ViewOf(s', buf.index) == ViewOf(s, buf.index).(at := Emitting(buf, line))
  {
    var s' := RemovePrevious(s, t, buf, line);
    assert At(s', buf.index - 1) == Idle;
  }

  lemma RemoveOk(c: Config, s: State, k: nat, p: View, v: View)
    requires 0 < k < |s.owners| == |s.batches| && OwnOk(c, k, v) && v.at.Removing? && LinkOk(c, k - 1, p, v)
    requires OwnOk(c, k - 1, p) && p.at == Idle
    ensures OwnOk(c, k - 1, Gone(p)) && OwnOk(c, k, v.(at := Emitting(v.at.buf, v.at.line)))
    ensures k > 1 && LinkOk(c, k - 2, ViewOf(s, k - 2), p) ==> LinkOk(c, k - 2, ViewOf(s, k - 2), Gone(p))
    ensures LinkOk(c, k - 1, Gone(p), v.(at := Emitting(v.at.buf, v.at.line)))
    ensures k + 1 < |s.owners| && LinkOk(c, k, v, ViewOf(s, k + 1))
      ==> LinkOk(c, k, v.(at := Emitting(v.at.buf, v.at.line)), ViewOf(s, k + 1))
  {
    hide ViewOf, LineOk, Text, Last, Units, Joins;
  }

  // ---- claiming a slice ----

  lemma StepClaim(c: Config, s: State, t: nat, block: nat)
    requires Inv(c, s) && t in s.threads && s.threads[t] == HasReader(block)
    ensures s.readPosition <= |c.file|
    ensures Inv(c, ClaimSlice(c, s, t, block))
  {
    hide Inv, Real, Text, Last, CountersOk, OutputOk, ReadsOk, Touches, Units, Joins, OwnOk, LinkOk, ViewOf;
    var k := |s.owners|;
    Known(c, s, t);
    ClaimIsSlice(c, s);
    ClaimCounters(c, s, t, block);
    ClaimThread(c, s, t, block);
    ClaimTouches(c, s, t, block);
    var s' := ClaimSlice(c, s, t, block);
    if Real(c, k) {
      ClaimOwn(c, s, t, block);
      if k > 0 {
        RealBefore(c, k - 1);
        ClaimLink(c, s, t, block);
      }
    }
    Frame(c, s, s', t, {k});
  }

  /** The size of a claim is the length of the slice with the claimed index. */
  lemma ClaimIsSlice(c: Config, s: State)
    requires CountersOk(c, s)
    ensures var k := |s.owners|;
      && s.readPosition == Position(c.file, Request(c), k) <= |c.file|
      && |Text(c, k)| == ClaimSize(c, s)
      && s.readPosition + |Text(c, k)| == Position(c.file, Request(c), k + 1)
      && (Real(c, k) <==> |Text(c, k)| > 0)
      && (Last(c, k) <==> |Text(c, k)| < Request(c))
  {
    var k := |s.owners|;
    PositionStep(c.file, Request(c), k);
    assert (k + 1) * Request(c) == k * Request(c) + Request(c);
  }

  lemma ClaimCounters(c: Config, s: State, t: nat, block: nat)
    requires Inv(c, s) && t in s.threads && s.threads[t] == HasReader(block)
    ensures s.readPosition <= |c.file|
    ensures var s' := ClaimSlice(c, s, t, block);
      && s'.threads == s.threads[t := s'.threads[t]]
      && s'.owners == s.owners + [t] && s'.batches == s.batches + [s.batchIndex]
      && CountersOk(c, s') && OutputOk(c, s')
  {
    hide Inv, Real, Text, Last, ReadsOk, Position, OutputOk, ThreadOk;
    var k := |s.owners|;
    Known(c, s, t);
    ClaimIsSlice(c, s);
    var s' := ClaimSlice(c, s, t, block);
    assert forall j :: 0 <= j < k ==> s'.batches[j] == s.batches[j] && s'.owners[j] == s.owners[j];
    ClaimOutput(c, s, s');
  }

  lemma ClaimThread(c: Config, s: State, t: nat, block: nat)
    requires Inv(c, s) && t in s.threads && s.threads[t] == HasReader(block)
    ensures s.readPosition <= |c.file|
    ensures var s' := ClaimSlice(c, s, t, block); ReadsOk(s') && ThreadOk(c, s', t)
  {
    hide Inv, Real, Text, Last, ReadsOk, Position, OutputOk, CountersOk;
    Known(c, s, t);
    ClaimIsSlice(c, s);
    KeepReads(s, ClaimSlice(c, s, t, block), t);
  }

  lemma ClaimOutput(c: Config, s: State, s': State)
    requires CountersOk(c, s) && OutputOk(c, s) && |s'.batches| == |s'.owners| && s.batches <= s'.batches
    requires s'.output == s.output
    ensures OutputOk(c, s')
  {
    hide Real, Position, CountersOk;
    forall b | b in s'.output
      ensures exists j :: 0 <= j < |s'.batches| && Real(c, j) && s'.batches[j] == b
    {
      var j :| 0 <= j < |s.batches| && Real(c, j) && s.batches[j] == b;
      assert s'.batches[j] == b;
    }
  }

  lemma NoNextYet(c: Config, s: State)
    requires CountersOk(c, s)
    ensures |s.owners| > 0 ==> |s.owners| - 1 !in s.nextDone
    ensures |s.owners| !in s.nextDone && |s.owners| !in s.buffers && |s.owners| !in s.ownerDone
  {
    hide Real, Position;
  }

  lemma ClaimTouches(c: Config, s: State, t: nat, block: nat)
    requires t in s.threads && s.threads[t] == HasReader(block) && |s.batches| == |s.owners|
    requires s.readPosition <= |c.file|
    ensures Touches(s, ClaimSlice(c, s, t, block), t, {|s.owners|})
  {
    hide Touches;
    TouchClaim(s, ClaimSlice(c, s, t, block), t);
  }

  lemma TouchClaim(s: State, s': State, t: nat)
    requires t in s.threads && t in s'.threads && s'.threads == s.threads[t := s'.threads[t]]
    requires ServesOnly(s.threads[t], {|s.owners|}) && ServesOnly(s'.threads[t], {|s.owners|})
    requires |s.batches| == |s.owners| && s'.owners == s.owners + [t] && s'.batches == s.batches + [s.batchIndex]
    requires s'.readPosition >= s.readPosition && s'.ended == s.ended
    requires s'.buffers == s.buffers && s'.ownerDone == s.ownerDone && s'.nextDone == s.nextDone
    requires s'.output == s.output && s'.use == s.use && s'.memory == s.memory
    ensures Touches(s, s', t, {|s.owners|})
  {
  }

  lemma ClaimOwn(c: Config, s: State, t: nat, block: nat)
    requires Inv(c, s) && t in s.threads && s.threads[t] == HasReader(block)
    requires Real(c, |s.owners|)
    ensures s.readPosition <= |c.file|
    ensures OwnOk(c, |s.owners|, ViewOf(ClaimSlice(c, s, t, block), |s.owners|))
    ensures ViewOf(ClaimSlice(c, s, t, block), |s.owners|).at.Claimed?
  {
    hide Inv, Text, Last, ReadsOk, Position, Units, Joins, CountersOk, OutputOk;
    var k := |s.owners|;
    Known(c, s, t);
    ClaimIsSlice(c, s);
    hide Real;
    NoNextYet(c, s);
    FreshBatch(c, s);
  }

  /** Nothing has been filed under a batch index that has not been taken. */
  lemma FreshBatch(c: Config, s: State)
    requires CountersOk(c, s) && OutputOk(c, s)
    ensures s.batchIndex !in s.output
  {
    hide Real, Position;
  }

  lemma ClaimLink(c: Config, s: State, t: nat, block: nat)
    requires Inv(c, s) && t in s.threads && s.threads[t] == HasReader(block)
    requires |s.owners| > 0 && Real(c, |s.owners|) && Real(c, |s.owners| - 1)
    ensures s.readPosition <= |c.file|
    ensures var s' := ClaimSlice(c, s, t, block);
      LinkOk(c, |s.owners| - 1, ViewOf(s', |s.owners| - 1), ViewOf(s', |s.owners|))
  {
    hide Inv, Text, Last, ReadsOk, Position, Units, Joins, CountersOk, OutputOk, ViewOf, Touches, ClaimSlice, LineOk;
    var k := |s.owners|;
    Known(c, s, t);
    ClaimOwn(c, s, t, block);
    ClaimTouches(c, s, t, block);
    var s' := ClaimSlice(c, s, t, block);
    assert OwnOk(c, k - 1, ViewOf(s, k - 1)) && !Last(c, k - 1) && !ViewOf(s, k - 1).nextDone by { NoNextView(c, s); }
    hide Real;
    ViewFrame(c, s, s', t, {k}, k - 1);
  }

  lemma NoNextView(c: Config, s: State)
    requires Inv(c, s) && |s.owners| > 0 && Real(c, |s.owners|) && Real(c, |s.owners| - 1)
    ensures |s.batches| == |s.owners| && OwnOk(c, |s.owners| - 1, ViewOf(s, |s.owners| - 1))
    ensures !ViewOf(s, |s.owners| - 1).nextDone && !Last(c, |s.owners| - 1)
  {
    hide Real, OwnOk, LinkOk, OutputOk, ReadsOk, Position, Last;
    RealBefore(c, |s.owners| - 1);
    NoNextYet(c, s);
  }

  // ---- every step ----

  lemma StepInv(c: Config, s: State, t: nat)
    requires Inv(c, s) && Enabled(s, t)
    ensures Inv(c, Advance(c, s, t))
  {
    hide Inv, Start, GetReader, ClaimSlice, ReadSlice, EndScan, Publish, FindPrevious, CopyLine, DropPrevious;
    hide RemovePrevious, EmitLine, ParseChunk, Release, Reuse, Close, Become;
    match s.threads[t]
    case Idle => StepStart(c, s, t);
    case NoReader(block) => StepGetReader(c, s, t, block);
    case HasReader(block) => StepClaim(c, s, t, block);
    case Empty(block) => StepEmpty(c, s, t, block);
    case Claimed(buf, position) => StepReadSlice(c, s, t, buf, position);
    case ReadIn(buf) => StepEndScan(c, s, t, buf);
    case Ready(buf) => StepPublish(c, s, t, buf);
    case Stitching(buf) => StepFindPrevious(c, s, t, buf);
    case Holding(buf, previous) => StepCopyLine(c, s, t, buf, previous);
    case Copied(buf, line) => StepDropPrevious(c, s, t, buf, line);
    case Removing(buf, line) => StepRemovePrevious(c, s, t, buf, line);
    case Emitting(buf, line) => StepEmitLine(c, s, t, buf, line);
    case Parsing(buf, offset, scanCount) =>
      if offset == buf.size {
        StepRelease(c, s, t, buf, scanCount);
      } else {
        StepParseChunk(c, s, t, buf, offset, scanCount);
      }
    case Releasing(buf) => StepReuse(c, s, t, buf);
    case Closing(block) => StepClose(c, s, t, block);
    case _ =>
  }

  lemma InitInv(c: Config, tids: set<nat>)
    requires Request(c) > 0
    ensures Inv(c, Init(tids))
  {
    hide Real;
    SumConst(Init(tids).threads, InFlight, 0);
  }

  /** The invariant holds after every feasible schedule. */
  lemma {:induction false} RunInv(c: Config, s: State, schedule: seq<nat>)
    requires Inv(c, s) && Feasible(c, s, schedule)
    ensures Inv(c, Run(c, s, schedule))
    decreases |schedule|
  {
    hide Inv, Advance, Enabled;
    if schedule != [] {
      StepInv(c, s, schedule[0]);
      RunInv(c, Advance(c, s, schedule[0]), schedule[1..]);
    }
  }
}
