/** When a call on a handle raises an error, and when it has to wait. */
module UploadRaises {
  import opened Arithmetic
  import opened UploadProtocol
  import opened UploadInvariant
  import opened UploadSteps
  import opened UploadTheorems
  import opened MapSums

  // ---- causes ----

  /** The event is a reason for handle `k` to raise an error: an upload request or the
      completion request is answered with a failure, or bytes are written that do not
      follow the `before` bytes written so far. */
  predicate Fault(s: State, e: Event, k: nat, before: nat) {
    && e.h == k && k in s.handles
    && match e
       case Call(_, Write(data, location)) => data != "" && location != before
       case Call(_, _) => false
       case Step(_, ok, _) => s.handles[k].writer.Completing? && !ok
       case UploadStep(_, i, ok) => i < |s.handles[k].uploads| && s.handles[k].uploads[i].stage.Sending? && !ok
  }

  /** None of the events is one. */
  ghost predicate Faultless(limit: nat, s: State, events: seq<Event>, k: nat, before: nat)
    requires Feasible(limit, s, events)
    decreases |events|
  {
    events == [] ||
    (!Fault(s, events[0], k, before)
     && Faultless(limit, Next(limit, s, events[0]), events[1..], k, before + |BytesOf(events[0], k)|))
  }

  // ---- a handle without a fault ----

  /** The bytes still to be copied go where the handle expects them. */
  predicate InPlace(h: Handle) {
    match h.writer
    case Writing(w) => w.written < |w.data| ==> w.location + w.written == h.fileOffset
    case Flushing(_, after) => after.Resume? ==> after.w.location + after.w.written == h.fileOffset
    case Launching(_, after) => after.Resume? ==> after.w.location + after.w.written == h.fileOffset
    case _ => true
  }

  predicate Clean(h: Handle) { !h.hasError && !Raised(h.writer) && InPlace(h) }

  lemma LocateClean(h: Handle, w: Progress)
    requires Clean(h) && h.partSize > 0 && h.writer == Writing(w)
    ensures Clean(Locate(h, w))
  {
  }

  lemma SlotClean(h: Handle, pool: Pool, w: Progress, part: nat, ok: bool)
    requires !h.hasError
    ensures Clean(Acquire(h, pool, w, part, ok).0) && Clean(Retry(h, pool, w, part, ok).0) && Clean(Insert(h, w, part))
  {
  }

  lemma CopyClean(h: Handle, w: Progress, part: nat)
    requires Clean(h) && HandleOk(h) && h.writer == Holding(w, part)
    ensures Clean(Copy(h, w, part))
  {
    hide HandleOk, Copy, Pending;
    CopyShape(h, w, part);
    HoldingAligned(h, w, part);
  }

  lemma HoldingAligned(h: Handle, w: Progress, part: nat)
    requires HandleOk(h) && h.writer == Holding(w, part)
    ensures w.location + w.written == h.fileOffset
  {
    hide UploadsOk, CountsOk, TagsOk, DataOk, RequestOk;
  }

  lemma FlushClean(h: Handle, part: nat, after: After)
    requires Clean(h) && h.writer == Flushing(part, after)
    ensures Clean(Flush(h, part, after))
  {
  }

  lemma LaunchClean(h: Handle, part: nat, after: After)
    requires Clean(h) && h.writer == Launching(part, after)
    ensures Clean(Launch(h, part, after))
  {
  }

  lemma EndClean(h: Handle, end: End, todo: set<nat>, pick: nat, ok: bool)
    requires !h.hasError && (todo != {} ==> pick in todo)
    ensures Clean(NextFlush(h, end, todo, pick)) && Clean(Pass(h, end)) && (ok ==> Clean(Complete(h, ok)))
  {
    hide Body;
  }

  lemma WriterClean(limit: nat, h: Handle, pool: Pool, ok: bool, pick: nat)
    requires Clean(h) && HandleOk(h) && CanStep(limit, h, pool, pick) && (h.writer.Completing? ==> ok)
    ensures h.partSize > 0 && Clean(StepWriter(limit, h, pool, ok, pick).0)
  {
    hide Clean, Locate, Acquire, Retry, Insert, Copy, Flush, Launch, NextFlush, Pass, Complete;
    assert h.partSize > 0 && !h.hasError by { CleanKnows(h); }
    hide HandleOk;
    match h.writer
    case Writing(w) => LocateClean(h, w);
    case Blocked(w, part) => SlotClean(h, pool, w, part, ok);
    case Starved(w, part, _) => SlotClean(h, pool, w, part, ok);
    case Granted(w, part) => SlotClean(h, pool, w, part, ok);
    case Holding(w, part) => CopyClean(h, w, part);
    case Flushing(part, after) => FlushClean(h, part, after);
    case Launching(part, after) => LaunchClean(h, part, after);
    case FlushAll(end, todo) => EndClean(h, end, todo, pick, ok);
    case Barrier(end) => EndClean(h, end, {}, pick, ok);
    case Completing(end) => EndClean(h, end, {}, pick, ok);
    case _ =>
  }

  lemma CleanKnows(h: Handle)
    requires Clean(h) && HandleOk(h)
    ensures h.partSize > 0 && !h.hasError
  {
  }

  /** Between two calls the handle expects the next byte behind those written so far. */
  lemma CallClean(h: Handle, op: Op, before: nat)
    requires Clean(h) && HandleOk(h) && CanCall(h, op) && |h.accepted + Unwritten(h.writer)| == before
    requires op.Write? && op.data != "" ==> op.location == before
    ensures Clean(Begin(h, op))
  {
    hide UploadsOk, CountsOk, TagsOk, DataOk, RequestOk;
  }

  lemma UploadClean(h: Handle, pool: Pool, i: nat, ok: bool)
    requires Clean(h) && CanUpload(h, i) && (h.uploads[i].stage.Sending? ==> ok)
    ensures Clean(StepUpload(h, pool, i, ok).0)
  {
  }

  lemma NextClean(limit: nat, s: State, e: Event, k: nat, before: nat)
    requires Inv(limit, s) && Enabled(limit, s, e) && k in s.handles && Clean(s.handles[k])
    requires |s.handles[k].accepted + Unwritten(s.handles[k].writer)| == before && !Fault(s, e, k, before)
    ensures k in Next(limit, s, e).handles && Clean(Next(limit, s, e).handles[k])
  {
    hide HandleOk, Inv, Clean, StepWriter, StepUpload, Begin, CanStep, Unwritten;
    assert HandleOk(s.handles[k]) by { KnowsHandle(limit, s, k); }
    if e.h == k {
      match e
      case Call(_, op) => CallClean(s.handles[k], op, before);
      case Step(_, ok, pick) => WriterClean(limit, s.handles[k], s.pool, ok, pick);
      case UploadStep(_, i, ok) => UploadClean(s.handles[k], s.pool, i, ok);
    }
  }

  lemma KnowsHandle(limit: nat, s: State, k: nat)
    requires Inv(limit, s) && k in s.handles
    ensures HandleOk(s.handles[k])
  {
  }

  lemma {:induction false} RunClean(limit: nat, s: State, events: seq<Event>, k: nat, before: nat)
    requires Inv(limit, s) && Feasible(limit, s, events) && k in s.handles && Clean(s.handles[k])
    requires |s.handles[k].accepted + Unwritten(s.handles[k].writer)| == before
    requires Faultless(limit, s, events, k, before)
    ensures Smooth(limit, s, events, k)
    decreases |events|
  {
    hide Inv, Enabled, Next, Unwritten, BytesOf, InPlace, Raised, Fault;
    if events != [] {
      var e := events[0];
      var s1 := Next(limit, s, e);
      NextInv(limit, s, e);
      NextClean(limit, s, e, k, before);
      NextAccepts(limit, s, e, k);
      RunClean(limit, s1, events[1..], k, before + |BytesOf(e, k)|);
    }
  }

  /** A handle raises an error only for a reason: an upload or the completion was answered
      with a failure, or a write did not follow the bytes written before. */
  lemma RaisesForReason(limit: nat, sizes: map<nat, nat>, events: seq<Event>, k: nat)
    requires Reachable(limit, sizes, events) && k in sizes && !Smooth(limit, Init(sizes), events, k)
    ensures !Faultless(limit, Init(sizes), events, k, 0)
  {
    hide Inv, Feasible, Smooth, Faultless;
    InitInv(limit, sizes);
    if Faultless(limit, Init(sizes), events, k, 0) {
      RunClean(limit, Init(sizes), events, k, 0);
    }
  }

  // ---- over the events alone ----

  predicate WritesTo(e: Event, k: nat) {
    e.Call? && e.h == k && e.op.Write? && e.op.data != ""
  }

  /** Each call of Write on handle `k` that writes something starts at the number of bytes
      passed to Write on it before. */
  predicate Sequential(events: seq<Event>, k: nat) {
    forall i :: 0 <= i < |events| && WritesTo(events[i], k) ==>
      events[i].op.location == |Written(events[..i], k)|
  }

  /** Every request is answered with success. */
  predicate Answered(events: seq<Event>, k: nat) {
    forall i :: 0 <= i < |events| && !events[i].Call? && events[i].h == k ==> events[i].ok
  }

  predicate SequentialFrom(events: seq<Event>, k: nat, before: nat) {
    forall i :: 0 <= i < |events| && WritesTo(events[i], k) ==>
      events[i].op.location == before + |Written(events[..i], k)|
  }

  lemma SequentialRest(events: seq<Event>, k: nat, before: nat)
    requires events != [] && SequentialFrom(events, k, before)
    ensures SequentialFrom(events[1..], k, before + |BytesOf(events[0], k)|)
  {
    hide BytesOf;
    var rest := events[1..];
    forall i | 0 <= i < |rest| && WritesTo(rest[i], k)
      ensures rest[i].op.location == before + |BytesOf(events[0], k)| + |Written(rest[..i], k)|
    {
      assert events[i + 1] == rest[i];
      assert events[..i + 1][1..] == rest[..i];
    }
  }

  lemma {:induction false} NoFaults(limit: nat, s: State, events: seq<Event>, k: nat, before: nat)
    requires Feasible(limit, s, events) && SequentialFrom(events, k, before) && Answered(events, k)
    ensures Faultless(limit, s, events, k, before)
    decreases |events|
  {
    hide Enabled, Next, BytesOf;
    if events != [] {
      assert Written(events[..0], k) == "";
      SequentialRest(events, k, before);
      AnsweredRest(events, k);
      hide SequentialFrom, Answered;
      NoFaults(limit, Next(limit, s, events[0]), events[1..], k, before + |BytesOf(events[0], k)|);
    }
  }

  lemma AnsweredRest(events: seq<Event>, k: nat)
    requires events != [] && Answered(events, k)
    ensures Answered(events[1..], k)
  {
  }

  /** Sequential writes whose requests are answered with success never raise an error. */
  lemma SequentialNeverRaises(limit: nat, sizes: map<nat, nat>, events: seq<Event>, k: nat)
    requires Reachable(limit, sizes, events) && k in sizes && Sequential(events, k) && Answered(events, k)
    ensures Smooth(limit, Init(sizes), events, k)
  {
    hide Feasible, Smooth, Faultless, Init;
    NoFaults(limit, Init(sizes), events, k, 0);
    if !Smooth(limit, Init(sizes), events, k) {
      RaisesForReason(limit, sizes, events, k);
    }
  }

  // ---- and these are reasons ----

  /** A call of Write is in progress, or the next one is awaited. */
  predicate Working(w: Writer) {
    match w
    case Open => true
    case Writing(_) => true
    case Blocked(_, _) => true
    case Starved(_, _, _) => true
    case Granted(_, _) => true
    case Holding(_, _) => true
    case Flushing(_, after) => after.Resume?
    case Launching(_, after) => after.Resume?
    case _ => false
  }

  lemma FlushOver(h: Handle, part: nat, after: After)
    requires after.Rest?
    ensures !Working(Flush(h, part, after).writer)
  {
  }

  lemma LaunchOver(h: Handle, part: nat, after: After)
    requires after.Rest?
    ensures !Working(Launch(h, part, after).writer)
  {
  }

  lemma NextFlushOver(h: Handle, end: End, todo: set<nat>, pick: nat)
    requires todo != {} ==> pick in todo
    ensures !Working(NextFlush(h, end, todo, pick).writer)
  {
  }

  lemma EndOver(h: Handle, end: End, ok: bool)
    ensures !Working(Pass(h, end).writer) && !Working(Complete(h, ok).writer)
  {
    hide Body;
  }

  /** After the end or an error there are no more writes. */
  lemma NoMoreWrites(limit: nat, h: Handle, pool: Pool, ok: bool, pick: nat)
    requires !Working(h.writer) && h.partSize > 0 && CanStep(limit, h, pool, pick)
    ensures !Working(StepWriter(limit, h, pool, ok, pick).0.writer)
  {
    hide Locate, Acquire, Retry, Insert, Copy, Flush, Launch, NextFlush, Pass, Complete;
    match h.writer
    case Flushing(part, after) => FlushOver(h, part, after);
    case Launching(part, after) => LaunchOver(h, part, after);
    case FlushAll(end, todo) => NextFlushOver(h, end, todo, pick);
    case Barrier(end) => EndOver(h, end, ok);
    case Completing(end) => EndOver(h, end, ok);
    case _ =>
  }

  lemma UploadNoWrites(h: Handle, pool: Pool, i: nat, ok: bool)
    requires !Working(h.writer) && CanUpload(h, i)
    ensures !Working(StepUpload(h, pool, i, ok).0.writer)
  {
    hide Working;
    UploadAccepts(h, pool, i, ok);
    assert !Working(Broken) by { BrokenIsOver(); }
  }

  lemma BrokenIsOver()
    ensures !Working(Broken)
  {
  }

  lemma NextNoWrites(limit: nat, s: State, e: Event, k: nat)
    requires Enabled(limit, s, e) && k in s.handles && !Working(s.handles[k].writer)
    ensures k in Next(limit, s, e).handles && !Working(Next(limit, s, e).handles[k].writer)
  {
    hide StepWriter, StepUpload, CanStep, CanUpload;
    if e.h == k {
      match e
      case Call(_, op) =>
      case Step(_, ok, pick) => NoMoreWrites(limit, s.handles[k], s.pool, ok, pick);
      case UploadStep(_, i, ok) => UploadNoWrites(s.handles[k], s.pool, i, ok);
    }
  }

  lemma WorkingNotRaised(w: Writer)
    requires Working(w)
    ensures !Raised(w)
  {
  }

  /** As long as writes go on, the handle has or awaits exactly the bytes passed to it. */
  lemma {:induction false} WorkingRun(limit: nat, s: State, events: seq<Event>, k: nat)
    requires Inv(limit, s) && Feasible(limit, s, events) && k in s.handles
    ensures k in Run(limit, s, events).handles
    ensures var h := Run(limit, s, events).handles[k];
      Working(h.writer) ==>
        Working(s.handles[k].writer)
        && h.accepted + Unwritten(h.writer) ==
             s.handles[k].accepted + Unwritten(s.handles[k].writer) + Written(events, k)
    decreases |events|
  {
    hide Inv, Enabled, Next, Unwritten, BytesOf, Working, Raised;
    if events == [] {
      assert Written(events, k) == "";
    } else {
      var e := events[0];
      NextInv(limit, s, e);
      NextAccepts(limit, s, e, k);
      var s1 := Next(limit, s, e);
      WorkingRun(limit, s1, events[1..], k);
      if !Working(s.handles[k].writer) {
        NextNoWrites(limit, s, e, k);
      } else if Working(s1.handles[k].writer) {
        WorkingNotRaised(s1.handles[k].writer);
      }
    }
  }

  /** The first step of a Write raises an error if and only if it writes something and does
      not start at the number of bytes written before. */
  lemma WriteRaisesIff(limit: nat, sizes: map<nat, nat>, events: seq<Event>, k: nat, data: string, location: nat)
    requires Reachable(limit, sizes, events) && k in Run(limit, Init(sizes), events).handles && k in sizes
    requires CanCall(Run(limit, Init(sizes), events).handles[k], Write(data, location))
    ensures var h := Begin(Run(limit, Init(sizes), events).handles[k], Write(data, location));
      h.partSize > 0 && h.writer.Writing?
        && (Raised(Locate(h, h.writer.w).writer) <==> data != "" && location != |Written(events, k)|)
  {
    hide Run, Inv, Feasible, Written;
    InitInv(limit, sizes);
    WorkingRun(limit, Init(sizes), events, k);
    ReachableInv(limit, sizes, events);
    var h := Run(limit, Init(sizes), events).handles[k];
    OpenOffset(limit, Run(limit, Init(sizes), events), k);
    assert "" + Written(events, k) == Written(events, k) && h.accepted + "" == h.accepted;
  }

  lemma OpenOffset(limit: nat, s: State, k: nat)
    requires Inv(limit, s) && k in s.handles && s.handles[k].writer.Open?
    ensures s.handles[k].partSize > 0 && s.handles[k].fileOffset == |s.handles[k].accepted|
  {
    hide UploadsOk, CountsOk, TagsOk, DataOk, RequestOk;
    assert HandleOk(s.handles[k]);
  }

  /** An error flag that is set stays set. */
  lemma ErrorStays(limit: nat, s: State, e: Event, k: nat)
    requires Enabled(limit, s, e) && k in s.handles && s.handles[k].hasError
    ensures k in Next(limit, s, e).handles && Next(limit, s, e).handles[k].hasError
  {
    hide CanStep, CanUpload, StepWriter, StepUpload, Begin;
    if e.h == k {
      match e
      case Call(_, op) => CallError(s.handles[k], op);
      case Step(_, ok, pick) => WriterError(limit, s.handles[k], s.pool, ok, pick);
      case UploadStep(_, i, ok) => UploadError(s.handles[k], s.pool, i, ok);
    }
  }

  lemma CallError(h: Handle, op: Op)
    ensures Begin(h, op).hasError == h.hasError
  {
  }

  lemma LocateError(h: Handle, pool: Pool, w: Progress, part: nat, ok: bool)
    requires h.partSize > 0
    ensures Locate(h, w).hasError == Acquire(h, pool, w, part, ok).0.hasError == h.hasError
    ensures Retry(h, pool, w, part, ok).0.hasError == Insert(h, w, part).hasError == h.hasError
  {
  }

  lemma CopyError(h: Handle, w: Progress, part: nat)
    ensures Copy(h, w, part).hasError == h.hasError
  {
    hide Place;
  }

  lemma FlushError(h: Handle, part: nat, after: After)
    ensures Flush(h, part, after).hasError == Launch(h, part, after).hasError == h.hasError
  {
  }

  lemma EndError(h: Handle, end: End, todo: set<nat>, pick: nat, ok: bool)
    requires todo != {} ==> pick in todo
    ensures NextFlush(h, end, todo, pick).hasError == Pass(h, end).hasError == Complete(h, ok).hasError == h.hasError
  {
    hide Body;
  }

  lemma WriterError(limit: nat, h: Handle, pool: Pool, ok: bool, pick: nat)
    requires h.partSize > 0 && CanStep(limit, h, pool, pick)
    ensures StepWriter(limit, h, pool, ok, pick).0.hasError == h.hasError
  {
    hide Locate, Acquire, Retry, Insert, Copy, Flush, Launch, NextFlush, Pass, Complete;
    match h.writer
    case Writing(w) => LocateError(h, pool, w, 0, ok);
    case Blocked(w, part) => LocateError(h, pool, w, part, ok);
    case Starved(w, part, _) => LocateError(h, pool, w, part, ok);
    case Granted(w, part) => LocateError(h, pool, w, part, ok);
    case Holding(w, part) => CopyError(h, w, part);
    case Flushing(part, after) => FlushError(h, part, after);
    case Launching(part, after) => FlushError(h, part, after);
    case FlushAll(end, todo) => EndError(h, end, todo, pick, ok);
    case Barrier(end) => EndError(h, end, {}, pick, ok);
    case Completing(end) => EndError(h, end, {}, pick, ok);
    case _ =>
  }

  lemma UploadError(h: Handle, pool: Pool, i: nat, ok: bool)
    requires CanUpload(h, i) && h.hasError
    ensures StepUpload(h, pool, i, ok).0.hasError
  {
  }

  lemma {:induction false} ErrorRun(limit: nat, s: State, events: seq<Event>, k: nat)
    requires Feasible(limit, s, events) && k in s.handles && s.handles[k].hasError
    ensures k in Run(limit, s, events).handles && Run(limit, s, events).handles[k].hasError
    decreases |events|
  {
    hide Enabled, Next;
    if events != [] {
      ErrorStays(limit, s, events[0], k);
      ErrorRun(limit, Next(limit, s, events[0]), events[1..], k);
    }
  }

  /** A failed upload is not hidden: whatever happens later, no call of FileSync or Close on
      the handle returns normally, and no completion request is sent. */
  lemma FailureShows(limit: nat, s: State, k: nat, i: nat, more: seq<Event>)
    requires Inv(limit, s) && Enabled(limit, s, UploadStep(k, i, false)) && s.handles[k].uploads[i].stage.Sending?
    requires Feasible(limit, Next(limit, s, UploadStep(k, i, false)), more)
    ensures var s' := Run(limit, Next(limit, s, UploadStep(k, i, false)), more);
      k in s'.handles && !s'.handles[k].writer.Ended? && s'.handles[k].requests == []
  {
    hide Run, Inv, Feasible;
    var s1 := Next(limit, s, UploadStep(k, i, false));
    NextInv(limit, s, UploadStep(k, i, false));
    RunInv(limit, s1, more);
    ErrorRun(limit, s1, more, k);
    NotEnded(limit, Run(limit, s1, more), k);
  }

  lemma NotEnded(limit: nat, s: State, k: nat)
    requires Inv(limit, s) && k in s.handles && s.handles[k].hasError
    ensures !s.handles[k].writer.Ended? && s.handles[k].requests == []
  {
    hide UploadsOk, CountsOk, TagsOk, DataOk;
    assert HandleOk(s.handles[k]);
  }

  // ---- waiting ----

  lemma {:induction false} SomeLive(us: seq<Upload>, n: nat) returns (i: nat)
    requires n <= |us| && Total(us, n, Live) > 0
    ensures i < n && !Done(us[i].stage)
    decreases n
  {
    if Done(us[n - 1].stage) {
      i := SomeLive(us, n - 1);
    } else {
      i := n - 1;
    }
  }

  /** A writer in the middle of a call can go on, unless it waits for a slot that is not
      there, for memory, or for an upload that is not done. */
  lemma WaitsForReason(limit: nat, sizes: map<nat, nat>, events: seq<Event>, k: nat)
    requires Reachable(limit, sizes, events) && k in Run(limit, Init(sizes), events).handles
    ensures var s := Run(limit, Init(sizes), events);
      var h := s.handles[k];
      || h.writer.Open? || h.writer.Ended? || h.writer.Threw? || h.writer.Terminated?
      || (exists pick :: CanStep(limit, h, s.pool, pick))
      || (h.writer.Blocked? && s.pool.inUse + s.pool.waiting >= limit)
      || (h.writer.Starved? && s.pool.inUse >= h.writer.seen)
      || (h.writer.Barrier? && exists i :: 0 <= i < |h.uploads| && !Done(h.uploads[i].stage))
  {
    hide Run, Init, Feasible, Inv, UploadsOk, TagsOk, DataOk, RequestOk, Total, Live, CanStep;
    ReachableInv(limit, sizes, events);
    var s := Run(limit, Init(sizes), events);
    var h := s.handles[k];
    KnowsHandle(limit, s, k);
    assert CountsOk(h);
    CanStepIf(limit, h, s.pool);
    if h.writer.Barrier? && h.inProgress > 0 {
      var i := SomeLive(h.uploads, |h.uploads|);
    }
  }

  lemma CanStepIf(limit: nat, h: Handle, pool: Pool)
    ensures || h.writer.Open? || h.writer.Ended? || h.writer.Threw? || h.writer.Terminated? || h.writer.Broken?
      || (exists pick :: CanStep(limit, h, pool, pick))
      || (h.writer.Blocked? && pool.inUse + pool.waiting >= limit)
      || (h.writer.Starved? && pool.inUse >= h.writer.seen)
      || (h.writer.Barrier? && h.inProgress > 0)
  {
    var pick: nat := if h.writer.FlushAll? && h.writer.todo != {} then (var p :| p in h.writer.todo; p) else 0;
    assert CanStep(limit, h, pool, pick) || !CanStep(limit, h, pool, pick);
  }
}
