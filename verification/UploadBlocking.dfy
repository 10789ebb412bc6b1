/** When a writer that waits for a slot or for memory can go on, and when it waits for
    ever. */
module UploadBlocking {
  import opened UploadProtocol
  import opened UploadInvariant
  import opened UploadSteps
  import opened UploadTheorems
  import opened MapSums

  function FailedSlot(stage: Stage): int { if Failing(stage) then 1 else 0 }

  /** This upload will give its slot back unless it fails. */
  predicate Returning(stage: Stage) {
    stage.Sending? || stage.Stored? || stage.Tagged? || stage.Counted?
  }

  function ReturningSlot(stage: Stage): int { if Returning(stage) then 1 else 0 }

  /** The slots a handle never gives back. */
  function LostSlots(h: Handle): int { Total(h.uploads, |h.uploads|, FailedSlot) }

  predicate SomeReturning(h: Handle) {
    exists i :: 0 <= i < |h.uploads| && Returning(h.uploads[i].stage)
  }

  lemma {:induction false} TotalSplits(us: seq<Upload>, n: nat)
    requires n <= |us|
    ensures Total(us, n, SlotOf) == Total(us, n, FailedSlot) + Total(us, n, ReturningSlot)
    decreases n
  {
    if n > 0 {
      TotalSplits(us, n - 1);
    }
  }

  lemma ReturningCount(h: Handle)
    ensures Total(h.uploads, |h.uploads|, ReturningSlot) > 0 <==> SomeReturning(h)
    ensures Total(h.uploads, |h.uploads|, ReturningSlot) >= 0
  {
    TotalNatural(h.uploads, |h.uploads|, ReturningSlot);
    if SomeReturning(h) {
      var i :| 0 <= i < |h.uploads| && Returning(h.uploads[i].stage);
      TotalAtLeast(h.uploads, |h.uploads|, i, ReturningSlot);
    } else {
      TotalConst(h.uploads, |h.uploads|, ReturningSlot, 0);
    }
  }

  lemma SumSingle(m: map<nat, Handle>, k: nat, w: Handle -> int)
    requires m.Keys == {k}
    ensures Sum(m, w) == w(m[k])
  {
    SumSplit(m, w, k);
    assert (m - {k}).Keys == {};
    assert |m - {k}| == 0;
  }

  /** With a single handle, a writer that waits for a slot has an upload in flight that
      can return one exactly if fewer uploads than the limit have failed. */
  lemma BlockedWriter(limit: nat, s: State, k: nat)
    requires Inv(limit, s) && s.handles.Keys == {k} && s.handles[k].writer.Blocked?
    requires s.pool.inUse + s.pool.waiting >= limit
    ensures SomeReturning(s.handles[k]) <==> LostSlots(s.handles[k]) < limit
  {
    hide UploadsOk, CountsOk, TagsOk, DataOk, RequestOk, Total;
    var h := s.handles[k];
    assert HandleOk(h);
    SumSingle(s.handles, k, Slots);
    SumSingle(s.handles, k, Waits);
    TotalSplits(h.uploads, |h.uploads|);
    ReturningCount(h);
  }

  // ---- waiting for ever ----

  lemma LostStays(h: Handle, pool: Pool, i: nat, ok: bool)
    requires CanUpload(h, i)
    ensures LostSlots(StepUpload(h, pool, i, ok).0) >= LostSlots(h)
  {
    hide Total;
    forall st: Stage {
      TotalSet(h.uploads, |h.uploads|, i, h.uploads[i].(stage := st), FailedSlot);
    }
  }

  lemma LostStaysWriter(limit: nat, h: Handle, pool: Pool, ok: bool, pick: nat)
    requires CanStep(limit, h, pool, pick) && h.partSize > 0
    ensures LostSlots(StepWriter(limit, h, pool, ok, pick).0) >= LostSlots(h)
  {
    hide Total, Locate, Acquire, Retry, Insert, Copy, Flush, NextFlush, Pass, Complete;
    match h.writer
    case Launching(part, after) =>
      if part in h.buffers && h.buffers[part].filled <= |h.buffers[part].bytes| {
        TotalAppend(h.uploads, Upload(part, h.buffers[part].bytes[..h.buffers[part].filled], Sending), FailedSlot);
      }
    case _ => UploadsStay(limit, h, pool, ok, pick);
  }

  lemma UploadsStay(limit: nat, h: Handle, pool: Pool, ok: bool, pick: nat)
    requires CanStep(limit, h, pool, pick) && h.partSize > 0 && !h.writer.Launching?
    ensures StepWriter(limit, h, pool, ok, pick).0.uploads == h.uploads
  {
    hide Body, Place, CanStep, Acquire, Retry, Copy, Complete, Pass;
    match h.writer
    case Blocked(w, part) => AcquireUploads(h, pool, w, part, ok);
    case Starved(w, part, _) => AcquireUploads(h, pool, w, part, ok);
    case Holding(w, part) => CopyUploads(h, w, part);
    case Barrier(end) => EndUploads(h, end, ok);
    case Completing(end) => EndUploads(h, end, ok);
    case _ =>
  }

  lemma AcquireUploads(h: Handle, pool: Pool, w: Progress, part: nat, ok: bool)
    ensures Acquire(h, pool, w, part, ok).0.uploads == h.uploads
    ensures Retry(h, pool, w, part, ok).0.uploads == h.uploads
  {
  }

  lemma CopyUploads(h: Handle, w: Progress, part: nat)
    ensures Copy(h, w, part).uploads == h.uploads
  {
    hide Place;
  }

  lemma EndUploads(h: Handle, end: End, ok: bool)
    ensures Pass(h, end).uploads == h.uploads && Complete(h, ok).uploads == h.uploads
  {
    hide Body;
  }

  lemma LostGrows(limit: nat, s: State, e: Event)
    requires Inv(limit, s) && Enabled(limit, s, e)
    ensures Sum(Next(limit, s, e).handles, LostSlots) >= Sum(s.handles, LostSlots)
  {
    hide Inv, LostSlots, StepWriter, StepUpload;
    var h := s.handles[e.h];
    match e {
      case Call(_, op) => CallKeepsLost(h, op);
      case Step(_, ok, pick) => LostStaysWriter(limit, h, s.pool, ok, pick);
      case UploadStep(_, i, ok) => LostStays(h, s.pool, i, ok);
    }
    SumUpdate(s.handles, LostSlots, e.h, Next(limit, s, e).handles[e.h]);
  }

  lemma CallKeepsLost(h: Handle, op: Op)
    ensures LostSlots(Begin(h, op)) == LostSlots(h)
  {
  }

  lemma LostInUse(limit: nat, s: State)
    requires Inv(limit, s)
    ensures Sum(s.handles, LostSlots) <= s.pool.inUse
  {
    hide HandleOk, Total;
    forall k | k in s.handles
      ensures LostSlots(s.handles[k]) <= Slots(s.handles[k])
    {
      TotalSplits(s.handles[k].uploads, |s.handles[k].uploads|);
      ReturningCount(s.handles[k]);
    }
    SumBounds(s.handles, LostSlots, Slots);
  }

  lemma StaysBlocked(limit: nat, s: State, e: Event, k: nat)
    requires Inv(limit, s) && Enabled(limit, s, e) && k in s.handles && s.handles[k].writer.Blocked?
    requires s.pool.inUse >= limit
    ensures k in Next(limit, s, e).handles && Next(limit, s, e).handles[k].writer == s.handles[k].writer
  {
    hide Inv, StepWriter;
    if e.h == k {
      match e
      case Call(_, op) => assert false;
      case Step(_, _, _) => assert false;
      case UploadStep(_, i, ok) =>
        NextInv(limit, s, e);
        NotBroken(limit, Next(limit, s, e), k);
        UploadAccepts(s.handles[k], s.pool, i, ok);
    }
  }

  /** A failed upload keeps its slot. Once as many uploads have failed as there are
      slots, a writer that waits for one waits for ever; it never sees the error. */
  lemma {:induction false} ExhaustedPool(limit: nat, s: State, events: seq<Event>, k: nat)
    requires Inv(limit, s) && Feasible(limit, s, events) && k in s.handles && s.handles[k].writer.Blocked?
    requires Sum(s.handles, LostSlots) >= limit
    ensures k in Run(limit, s, events).handles && Run(limit, s, events).handles[k].writer == s.handles[k].writer
    ensures Sum(Run(limit, s, events).handles, LostSlots) >= limit
    decreases |events|
  {
    hide Inv, Enabled, Next, LostSlots, Sum;
    if events != [] {
      var e := events[0];
      LostInUse(limit, s);
      StaysBlocked(limit, s, e, k);
      NextInv(limit, s, e);
      LostGrows(limit, s, e);
      ExhaustedPool(limit, Next(limit, s, e), events[1..], k);
    }
  }

  lemma StaysStarved(limit: nat, s: State, e: Event, k: nat)
    requires Inv(limit, s) && Enabled(limit, s, e) && s.handles.Keys == {k}
    requires s.handles[k].writer.Starved? && s.pool.inUse >= s.handles[k].writer.seen && !SomeReturning(s.handles[k])
    ensures var s' := Next(limit, s, e);
      && s'.handles.Keys == {k} && s'.handles[k].writer == s.handles[k].writer
      && s'.pool.inUse == s.pool.inUse && !SomeReturning(s'.handles[k])
  {
    hide Inv, StepWriter;
    assert e.h in {k};
    match e
    case Call(_, op) => assert false;
    case Step(_, _, _) => assert false;
    case UploadStep(_, i, ok) =>
      NextInv(limit, s, e);
      NotBroken(limit, Next(limit, s, e), k);
      NoneReturns(s.handles[k], s.pool, i, ok);
  }

  lemma NoneReturns(h: Handle, pool: Pool, i: nat, ok: bool)
    requires CanUpload(h, i) && !SomeReturning(h)
    ensures var r := StepUpload(h, pool, i, ok);
      && r.1 == pool && !SomeReturning(r.0) && (r.0.writer == h.writer || r.0.writer.Broken?)
  {
    assert !Returning(h.uploads[i].stage);
    NoneMoves(h, pool, i, ok);
    hide StepUpload;
    var us := StepUpload(h, pool, i, ok).0.uploads;
    forall j | 0 <= j < |us|
      ensures !Returning(us[j].stage)
    {
      assert !Returning(h.uploads[j].stage);
    }
  }

  lemma NoneMoves(h: Handle, pool: Pool, i: nat, ok: bool)
    requires CanUpload(h, i) && !Returning(h.uploads[i].stage)
    ensures var r := StepUpload(h, pool, i, ok);
      && r.1 == pool && (r.0.writer == h.writer || r.0.writer.Broken?)
      && |r.0.uploads| == |h.uploads| && !Returning(r.0.uploads[i].stage)
      && forall j :: 0 <= j < |h.uploads| && j != i ==> r.0.uploads[j] == h.uploads[j]
  {
  }

  /** The writer counts its own slot among the buffers that might be returned. So with a
      single handle and nothing in flight it waits for ever when memory runs out. */
  lemma {:induction false} OutOfMemoryHangs(limit: nat, s: State, events: seq<Event>, k: nat)
    requires Inv(limit, s) && Feasible(limit, s, events) && s.handles.Keys == {k}
    requires s.handles[k].writer.Starved? && s.pool.inUse >= s.handles[k].writer.seen && !SomeReturning(s.handles[k])
    ensures var s' := Run(limit, s, events);
      && s'.handles.Keys == {k} && s'.handles[k].writer == s.handles[k].writer
      && s'.pool.inUse == s.pool.inUse && !SomeReturning(s'.handles[k])
    decreases |events|
  {
    hide Inv, Enabled, Next, SomeReturning;
    if events != [] {
      StaysStarved(limit, s, events[0], k);
      NextInv(limit, s, events[0]);
      OutOfMemoryHangs(limit, Next(limit, s, events[0]), events[1..], k);
    }
  }
}
