/** How the bytes are cut: every part of an upload but the last has the part size. */
module UploadParts {
  import opened Arithmetic
  import opened UploadProtocol
  import opened UploadInvariant
  import opened UploadSteps
  import opened UploadTheorems
  import opened UploadRaises
  import opened MapSums

  predicate Full(h: Handle, n: nat) {
    forall i :: 0 <= i < n && i < |h.uploads| ==> |h.uploads[i].data| == h.partSize
  }

  /** More bytes may come, or are waiting in a buffer. */
  predicate MoreToSend(h: Handle) { h.buffers != map[] || Working(h.writer) }

  predicate Cut(h: Handle) {
    && (MoreToSend(h) ==> Full(h, |h.uploads|))
    && (|h.uploads| > 0 ==> Full(h, |h.uploads| - 1) && |h.uploads[|h.uploads| - 1].data| <= h.partSize)
  }

  predicate SameData(us: seq<Upload>, vs: seq<Upload>) {
    |us| == |vs| && forall i :: 0 <= i < |us| ==> us[i].data == vs[i].data
  }

  /** A step that sends nothing new. */
  predicate SendsNothing(h: Handle, h': Handle) {
    h'.partSize == h.partSize && SameData(h.uploads, h'.uploads) && (MoreToSend(h') ==> MoreToSend(h))
  }

  lemma StillCut(h: Handle, h': Handle)
    requires Cut(h) && SendsNothing(h, h')
    ensures Cut(h')
  {
    hide MoreToSend;
  }

  lemma CallSends(h: Handle, op: Op)
    requires CanCall(h, op)
    ensures SendsNothing(h, Begin(h, op))
  {
  }

  lemma MovedData(us: seq<Upload>, i: nat, stage: Stage)
    requires i < |us|
    ensures SameData(us, Moved(us, i, stage)) && SameData(us, us)
  {
  }

  /** An upload thread only moves its own upload on. */
  lemma UploadMoves(h: Handle, pool: Pool, i: nat, ok: bool) returns (stage: Stage)
    requires CanUpload(h, i)
    ensures var us := StepUpload(h, pool, i, ok).0.uploads; us == h.uploads || us == Moved(h.uploads, i, stage)
  {
    hide Moved;
    stage := NextStage(h, i, ok);
  }

  lemma UploadLeaves(h: Handle, pool: Pool, i: nat, ok: bool)
    requires CanUpload(h, i)
    ensures var h' := StepUpload(h, pool, i, ok).0; h'.partSize == h.partSize && h'.buffers == h.buffers
  {
    hide Moved;
    match h.uploads[i].stage
    case Sending =>
    case Stored =>
    case Counted =>
    case _ =>
  }

  lemma UploadSends(h: Handle, pool: Pool, i: nat, ok: bool)
    requires CanUpload(h, i)
    ensures SendsNothing(h, StepUpload(h, pool, i, ok).0)
  {
    hide Working, StepUpload, Moved, SameData;
    BrokenIsOver();
    UploadAccepts(h, pool, i, ok);
    UploadLeaves(h, pool, i, ok);
    var stage := UploadMoves(h, pool, i, ok);
    MovedData(h.uploads, i, stage);
  }

  lemma LocateSends(h: Handle, w: Progress)
    requires h.partSize > 0 && h.writer == Writing(w)
    ensures SendsNothing(h, Locate(h, w))
  {
  }

  lemma SlotSends(h: Handle, pool: Pool, w: Progress, part: nat, ok: bool)
    requires Working(h.writer)
    ensures SendsNothing(h, Acquire(h, pool, w, part, ok).0) && SendsNothing(h, Retry(h, pool, w, part, ok).0)
    ensures SendsNothing(h, Insert(h, w, part))
  {
    hide Working;
  }

  lemma CopySends(h: Handle, w: Progress, part: nat)
    requires h.writer == Holding(w, part)
    ensures SendsNothing(h, Copy(h, w, part))
  {
    hide Place;
  }

  lemma FlushSends(h: Handle, part: nat, after: After)
    requires HandleOk(h) && h.writer == Flushing(part, after)
    ensures SendsNothing(h, Flush(h, part, after))
  {
    hide HandleOk, Flush;
    FlushShape(h, part, after);
    assert h.buffers != map[];
  }

  lemma NextFlushSends(h: Handle, end: End, todo: set<nat>, pick: nat)
    requires todo != {} ==> pick in todo
    ensures SendsNothing(h, NextFlush(h, end, todo, pick))
  {
    hide Working;
    assert NextFlush(h, end, todo, pick).buffers == h.buffers;
    if h.buffers == map[] {
      NextFlushOver(h, end, todo, pick);
    }
  }

  lemma EndSends(h: Handle, end: End, ok: bool)
    ensures SendsNothing(h, Pass(h, end)) && SendsNothing(h, Complete(h, ok))
  {
    hide Working, Body;
    EndOver(h, end, ok);
  }

  /** Only here something is sent: a full buffer in the middle of a write, or what is left
      at the end. */
  lemma LaunchCuts(h: Handle, part: nat, after: After)
    requires HandleOk(h) && Cut(h) && h.writer == Launching(part, after)
    ensures Launch(h, part, after).partSize == h.partSize && Cut(Launch(h, part, after))
  {
    hide HandleOk, Launch;
    LaunchShape(h, part, after);
    LaunchedSize(h, part, after);
    var h' := Launch(h, part, after);
    assert Full(h, |h.uploads|);
    forall i | 0 <= i < |h.uploads|
      ensures |h'.uploads[i].data| == h.partSize
    {
      assert h'.uploads[i] == h.uploads[i];
    }
  }

  lemma LaunchedSize(h: Handle, part: nat, after: After)
    requires HandleOk(h) && h.writer == Launching(part, after)
    ensures h.buffers != map[] && |Pending(h)| <= h.partSize && (after.Resume? ==> |Pending(h)| == h.partSize)
  {
    hide UploadsOk, CountsOk, TagsOk, RequestOk, Sent;
  }

  lemma WriterCuts(limit: nat, h: Handle, pool: Pool, ok: bool, pick: nat)
    requires HandleOk(h) && Cut(h) && CanStep(limit, h, pool, pick)
    ensures h.partSize > 0
    ensures var h' := StepWriter(limit, h, pool, ok, pick).0; h'.partSize == h.partSize && Cut(h')
  {
    hide Cut, SendsNothing, Locate, Acquire, Retry, Insert, Copy, Flush, Launch, NextFlush, Pass, Complete;
    assert h.partSize > 0;
    hide HandleOk;
    if h.writer.Launching? {
      LaunchCuts(h, h.writer.part, h.writer.after);
    } else {
      WriterSends(limit, h, pool, ok, pick);
      var h' := StepWriter(limit, h, pool, ok, pick).0;
      assert h'.partSize == h.partSize by { SameSize(h, h'); }
      StillCut(h, h');
    }
  }

  lemma SameSize(h: Handle, h': Handle)
    requires SendsNothing(h, h')
    ensures h'.partSize == h.partSize
  {
  }

  lemma WriterSends(limit: nat, h: Handle, pool: Pool, ok: bool, pick: nat)
    requires HandleOk(h) && h.partSize > 0 && CanStep(limit, h, pool, pick) && !h.writer.Launching?
    ensures SendsNothing(h, StepWriter(limit, h, pool, ok, pick).0)
  {
    hide HandleOk, SendsNothing, Locate, Acquire, Retry, Insert, Copy, Flush, Launch, NextFlush, Pass, Complete;
    match h.writer
    case Writing(w) => LocateSends(h, w);
    case Blocked(w, part) => SlotSends(h, pool, w, part, ok);
    case Starved(w, part, _) => SlotSends(h, pool, w, part, ok);
    case Granted(w, part) => SlotSends(h, pool, w, part, ok);
    case Holding(w, part) => CopySends(h, w, part);
    case Flushing(part, after) => FlushSends(h, part, after);
    case FlushAll(end, todo) => NextFlushSends(h, end, todo, pick);
    case Barrier(end) => EndSends(h, end, ok);
    case Completing(end) => EndSends(h, end, ok);
    case _ =>
  }

  lemma NextCuts(limit: nat, s: State, e: Event, k: nat)
    requires Inv(limit, s) && Enabled(limit, s, e) && k in s.handles && Cut(s.handles[k])
    ensures k in Next(limit, s, e).handles && Cut(Next(limit, s, e).handles[k])
    ensures Next(limit, s, e).handles[k].partSize == s.handles[k].partSize
  {
    hide HandleOk, Inv, Cut, SendsNothing, StepWriter, StepUpload, Begin, CanStep, CanUpload, CanCall;
    var h := s.handles[k];
    assert HandleOk(h) by { KnowsHandle(limit, s, k); }
    if e.h == k {
      match e
      case Call(_, op) =>
        CallSends(h, op);
        StillCut(h, Begin(h, op));
        SameSize(h, Begin(h, op));
      case Step(_, ok, pick) => WriterCuts(limit, h, s.pool, ok, pick);
      case UploadStep(_, i, ok) =>
        UploadSends(h, s.pool, i, ok);
        StillCut(h, StepUpload(h, s.pool, i, ok).0);
        SameSize(h, StepUpload(h, s.pool, i, ok).0);
    }
  }

  lemma {:induction false} RunCuts(limit: nat, s: State, events: seq<Event>, k: nat)
    requires Inv(limit, s) && Feasible(limit, s, events) && k in s.handles && Cut(s.handles[k])
    ensures k in Run(limit, s, events).handles && Cut(Run(limit, s, events).handles[k])
    ensures Run(limit, s, events).handles[k].partSize == s.handles[k].partSize
    decreases |events|
  {
    hide Inv, Enabled, Next, Cut;
    if events != [] {
      NextInv(limit, s, events[0]);
      NextCuts(limit, s, events[0], k);
      RunCuts(limit, Next(limit, s, events[0]), events[1..], k);
    }
  }

  /** Of a completed object, every part but the last has exactly the part size, and the last
      one is neither empty nor larger. */
  lemma PartSizes(limit: nat, sizes: map<nat, nat>, events: seq<Event>, k: nat)
    requires Reachable(limit, sizes, events) && k in sizes && k in Run(limit, Init(sizes), events).handles
    requires Run(limit, Init(sizes), events).handles[k].requests != []
    ensures var body := Run(limit, Init(sizes), events).handles[k].requests[0];
      && (forall i :: 0 <= i < |body| - 1 ==> |body[i].tag| == sizes[k])
      && (|body| > 0 ==> 0 < |body[|body| - 1].tag| <= sizes[k])
  {
    hide Run, Inv, Feasible;
    InitInv(limit, sizes);
    RunCuts(limit, Init(sizes), events, k);
    ReachableInv(limit, sizes, events);
    var s := Run(limit, Init(sizes), events);
    BodyOf(limit, s, k);
  }

  lemma BodyOf(limit: nat, s: State, k: nat)
    requires Inv(limit, s) && k in s.handles && s.handles[k].requests != []
    ensures BodyIs(s.handles[k].requests[0], s.handles[k].uploads)
    ensures forall i :: 0 <= i < |s.handles[k].uploads| ==> s.handles[k].uploads[i].data != ""
  {
    hide CountsOk, TagsOk, DataOk, WriterOk;
    assert HandleOk(s.handles[k]);
  }
}
