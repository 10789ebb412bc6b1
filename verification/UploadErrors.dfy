/** Exactly when a writer rethrows an exception that is not there, and exactly when a
    writer that waits, for a slot or for memory, can go on. */
module UploadErrors {
  import opened UploadProtocol
  import opened UploadInvariant
  import opened UploadSteps
  import opened UploadTheorems
  import opened UploadBlocking
  import opened MapSums

  // ---- an exception that is not there ----

  /** An upload has raised the error flag and has not stored its exception yet. */
  predicate SomeRaising(h: Handle) {
    exists i :: 0 <= i < |h.uploads| && h.uploads[i].stage.Raising?
  }

  lemma RaisingIff(h: Handle)
    requires CountsOk(h)
    ensures SomeRaising(h) <==> h.hasError && !h.exception
  {
    if SomeRaising(h) {
      var i :| 0 <= i < |h.uploads| && h.uploads[i].stage.Raising?;
      TotalAtLeast(h.uploads, |h.uploads|, i, Unreported);
    } else {
      TotalConst(h.uploads, |h.uploads|, Unreported, 0);
    }
  }

  /** A flush rethrows nothing if and only if it comes in between. */
  lemma FlushIff(h: Handle, part: nat, after: After)
    requires HandleOk(h) && h.writer == Flushing(part, after)
    ensures Flush(h, part, after).writer.Terminated? <==> SomeRaising(h)
  {
    hide SomeRaising, Total, UploadsOk, TagsOk, Sent;
    RaisingIff(h);
  }

  // ---- where the other steps of a writer lead ----

  predicate Calm(w: Writer) { !w.Terminated? && !w.Starved? }

  lemma LocateQuiet(h: Handle, w: Progress)
    requires h.partSize > 0
    ensures Calm(Locate(h, w).writer)
  {
  }

  lemma InsertQuiet(h: Handle, w: Progress, part: nat)
    ensures Calm(Insert(h, w, part).writer)
  {
  }

  lemma CopyQuiet(h: Handle, w: Progress, part: nat)
    ensures Calm(Copy(h, w, part).writer)
  {
    hide Place;
  }

  lemma LaunchQuiet(h: Handle, part: nat, after: After)
    ensures Calm(Launch(h, part, after).writer)
  {
  }

  lemma EndQuiet(h: Handle, end: End, ok: bool)
    ensures Calm(Pass(h, end).writer) && Calm(Complete(h, ok).writer)
  {
    hide Body;
  }

  lemma SlotSeen(h: Handle, pool: Pool, w: Progress, part: nat, ok: bool)
    ensures var r := Acquire(h, pool, w, part, ok);
      !r.0.writer.Terminated? && (r.0.writer.Starved? ==> r.1.inUse <= r.0.writer.seen)
    ensures var r := Retry(h, pool, w, part, ok);
      !r.0.writer.Terminated? && (r.0.writer.Starved? ==> r.1.inUse <= r.0.writer.seen)
  {
  }

  lemma FlushSeen(h: Handle, part: nat, after: After)
    ensures !Flush(h, part, after).writer.Starved?
  {
  }

  /** Only a flush ends without an exception, and a writer that begins to wait for memory
      has seen the slots in use. */
  lemma StepSees(limit: nat, h: Handle, pool: Pool, ok: bool, pick: nat)
    requires CanStep(limit, h, pool, pick) && h.partSize > 0
    ensures var r := StepWriter(limit, h, pool, ok, pick);
      && (!h.writer.Flushing? ==> !r.0.writer.Terminated?)
      && (r.0.writer.Starved? ==> r.1.inUse <= r.0.writer.seen)
  {
    hide Locate, Acquire, Retry, Insert, Copy, Flush, Launch, Pass, Complete;
    match h.writer
    case Writing(w) => LocateQuiet(h, w);
    case Blocked(w, part) => SlotSeen(h, pool, w, part, ok);
    case Starved(w, part, _) => SlotSeen(h, pool, w, part, ok);
    case Granted(w, part) => InsertQuiet(h, w, part);
    case Holding(w, part) => CopyQuiet(h, w, part);
    case Flushing(part, after) => FlushSeen(h, part, after);
    case Launching(part, after) => LaunchQuiet(h, part, after);
    case FlushAll(_, _) =>
    case Barrier(end) => EndQuiet(h, end, ok);
    case Completing(end) => EndQuiet(h, end, ok);
    case _ =>
  }

  lemma UploadsDoNot(h: Handle, pool: Pool, i: nat, ok: bool)
    requires CanUpload(h, i)
    ensures StepUpload(h, pool, i, ok).0.writer.Terminated? ==> h.writer.Terminated?
  {
  }

  /** In every run, the step that makes a writer rethrow nothing is a flush while some
      upload has raised the error flag and not yet stored its exception; and every such
      step does. */
  lemma RethrowsNothingIff(limit: nat, sizes: map<nat, nat>, events: seq<Event>, e: Event, k: nat)
    requires Reachable(limit, sizes, events) && Enabled(limit, Run(limit, Init(sizes), events), e)
    requires k in Run(limit, Init(sizes), events).handles
    requires !Run(limit, Init(sizes), events).handles[k].writer.Terminated?
    ensures var s := Run(limit, Init(sizes), events);
      var h := s.handles[k];
      && k in Next(limit, s, e).handles
      && (Next(limit, s, e).handles[k].writer.Terminated? <==>
           e.Step? && e.h == k && h.writer.Flushing? && SomeRaising(h))
  {
    hide Run, Init, Feasible, HandleOk, SomeRaising, StepWriter, StepUpload, Flush;
    ReachableInv(limit, sizes, events);
    var s := Run(limit, Init(sizes), events);
    var h := s.handles[e.h];
    assert HandleOk(h);
    match e
    case Call(_, op) =>
    case Step(_, ok, pick) =>
      if h.writer.Flushing? {
        FlushIff(h, h.writer.part, h.writer.after);
        FlushStep(limit, h, s.pool, ok, pick);
      } else {
        StepSees(limit, h, s.pool, ok, pick);
      }
    case UploadStep(_, i, ok) => UploadsDoNot(h, s.pool, i, ok);
  }

  lemma FlushStep(limit: nat, h: Handle, pool: Pool, ok: bool, pick: nat)
    requires CanStep(limit, h, pool, pick) && h.partSize > 0 && h.writer.Flushing?
    ensures StepWriter(limit, h, pool, ok, pick).0 == Flush(h, h.writer.part, h.writer.after)
  {
    hide Flush;
  }

  // ---- a slot comes back ----

  function StepsLeft(stage: Stage): nat {
    match stage
    case Sending => 4
    case Stored => 3
    case Tagged => 2
    case Counted => 1
    case _ => 0
  }

  /** One successful step of an upload that is about to return its slot. */
  lemma UploadGoesOn(limit: nat, s: State, k: nat, i: nat)
    requires Inv(limit, s) && s.handles.Keys == {k} && i < |s.handles[k].uploads|
    requires Returning(s.handles[k].uploads[i].stage)
    ensures Enabled(limit, s, UploadStep(k, i, true))
    ensures var s' := Next(limit, s, UploadStep(k, i, true));
      && s'.handles.Keys == {k} && s'.handles[k].writer == s.handles[k].writer
      && |s'.handles[k].uploads| == |s.handles[k].uploads|
      && s'.pool.waiting == s.pool.waiting
      && (if s.handles[k].uploads[i].stage.Counted? then s'.pool.inUse == s.pool.inUse - 1
          else
            && s'.pool == s.pool && Returning(s'.handles[k].uploads[i].stage)
            && StepsLeft(s'.handles[k].uploads[i].stage) < StepsLeft(s.handles[k].uploads[i].stage))
  {
    hide Inv, HandleOk;
    var h := s.handles[k];
    assert HandleOk(h) && h.partSize > 0 by { KnownHandle(limit, s, k); }
    if h.uploads[i].stage.Counted? {
      HasSlot(limit, s, k, i);
    }
  }

  lemma KnownHandle(limit: nat, s: State, k: nat)
    requires Inv(limit, s) && k in s.handles
    ensures HandleOk(s.handles[k]) && s.handles[k].partSize > 0
  {
    hide UploadsOk, CountsOk, TagsOk, DataOk, WriterOk, RequestOk;
  }

  lemma HasSlot(limit: nat, s: State, k: nat, i: nat)
    requires Inv(limit, s) && k in s.handles && i < |s.handles[k].uploads| && s.handles[k].uploads[i].stage.Counted?
    ensures s.pool.inUse > 0
  {
    hide Total, HandleOk;
    PoolCovers(limit, s, k);
    TotalAtLeast(s.handles[k].uploads, |s.handles[k].uploads|, i, SlotOf);
  }

  /** An upload that does not fail gives its slot back. */
  lemma {:induction false} ReturnSlot(limit: nat, s: State, k: nat, i: nat) returns (more: seq<Event>)
    requires Inv(limit, s) && s.handles.Keys == {k} && i < |s.handles[k].uploads|
    requires Returning(s.handles[k].uploads[i].stage)
    ensures Feasible(limit, s, more)
    ensures var s' := Run(limit, s, more);
      && s'.handles.Keys == {k} && s'.handles[k].writer == s.handles[k].writer
      && s'.pool.inUse == s.pool.inUse - 1 && s'.pool.waiting == s.pool.waiting
    decreases StepsLeft(s.handles[k].uploads[i].stage)
  {
    hide Inv, Enabled, Next, Returning, StepsLeft;
    UploadGoesOn(limit, s, k, i);
    var e := UploadStep(k, i, true);
    var s' := Next(limit, s, e);
    NextInv(limit, s, e);
    var rest: seq<Event> := [];
    if !s.handles[k].uploads[i].stage.Counted? {
      rest := ReturnSlot(limit, s', k, i);
    }
    more := [e] + rest;
    assert more[1..] == rest;
  }

  // ---- a writer that waits ----

  /** The writer of handle `k` takes a step in some continuation. */
  ghost predicate CanGoOn(limit: nat, s: State, k: nat) {
    exists more :: Feasible(limit, s, more) && Ready(limit, Run(limit, s, more), k)
  }

  predicate Ready(limit: nat, s: State, k: nat) {
    k in s.handles && CanStep(limit, s.handles[k], s.pool, 0)
  }

  lemma BlockedGoesOn(limit: nat, s: State, k: nat)
    requires Inv(limit, s) && s.handles.Keys == {k} && s.handles[k].writer.Blocked?
    ensures CanGoOn(limit, s, k) <==> LostSlots(s.handles[k]) < limit
  {
    hide Inv, Returning, LostSlots, Run, Feasible;
    var h := s.handles[k];
    WaitsNone(limit, s, k);
    if LostSlots(h) < limit {
      if s.pool.inUse < limit {
        NoEvents(limit, s);
        GoesOn(limit, s, k, []);
      } else {
        BlockedWriter(limit, s, k);
        var i :| 0 <= i < |h.uploads| && Returning(h.uploads[i].stage);
        var more := ReturnSlot(limit, s, k, i);
        AtMostLimit(limit, s);
        GoesOn(limit, s, k, more);
      }
    } else {
      forall more | Feasible(limit, s, more)
        ensures !Ready(limit, Run(limit, s, more), k)
      {
        LostForEver(limit, s, more, k);
      }
    }
  }

  lemma GoesOn(limit: nat, s: State, k: nat, more: seq<Event>)
    requires Feasible(limit, s, more) && Ready(limit, Run(limit, s, more), k)
    ensures CanGoOn(limit, s, k)
  {
  }

  lemma WaitsNone(limit: nat, s: State, k: nat)
    requires Inv(limit, s) && s.handles.Keys == {k} && s.handles[k].writer.Blocked?
    ensures s.pool.waiting == 0
  {
    hide HandleOk, Slots;
    SumSingle(s.handles, k, Waits);
  }

  lemma AtMostLimit(limit: nat, s: State)
    requires Inv(limit, s)
    ensures s.pool.inUse <= limit
  {
  }

  lemma LostForEver(limit: nat, s: State, more: seq<Event>, k: nat)
    requires Inv(limit, s) && Feasible(limit, s, more) && s.handles.Keys == {k} && s.handles[k].writer.Blocked?
    requires LostSlots(s.handles[k]) >= limit
    ensures !Ready(limit, Run(limit, s, more), k)
  {
    hide Inv, Run, Feasible, LostSlots, Sum;
    SumSingle(s.handles, k, LostSlots);
    ExhaustedPool(limit, s, more, k);
    RunInv(limit, s, more);
    LostInUse(limit, Run(limit, s, more));
  }

  /** With a single handle, as many slots are in use as the writer saw, or fewer. */
  ghost predicate Alone(limit: nat, s: State, k: nat) {
    && Inv(limit, s) && s.handles.Keys == {k}
    && (s.handles[k].writer.Starved? ==> s.pool.inUse <= s.handles[k].writer.seen)
  }

  lemma UploadAlone(h: Handle, pool: Pool, i: nat, ok: bool)
    requires CanUpload(h, i)
    ensures var r := StepUpload(h, pool, i, ok);
      r.1.inUse <= pool.inUse && (r.0.writer == h.writer || r.0.writer.Broken?)
  {
  }

  lemma NextAlone(limit: nat, s: State, e: Event, k: nat)
    requires Alone(limit, s, k) && Enabled(limit, s, e)
    ensures Alone(limit, Next(limit, s, e), k)
  {
    hide Inv, StepWriter, StepUpload;
    NextInv(limit, s, e);
    var h := s.handles[k];
    assert e.h in {k};
    match e
    case Call(_, op) =>
    case Step(_, ok, pick) => StepSees(limit, h, s.pool, ok, pick);
    case UploadStep(_, i, ok) => UploadAlone(h, s.pool, i, ok);
  }

  lemma {:induction false} RunAlone(limit: nat, s: State, events: seq<Event>, k: nat)
    requires Alone(limit, s, k) && Feasible(limit, s, events)
    ensures Alone(limit, Run(limit, s, events), k)
    decreases |events|
  {
    hide Alone, Enabled, Next;
    if events != [] {
      NextAlone(limit, s, events[0], k);
      RunAlone(limit, Next(limit, s, events[0]), events[1..], k);
    }
  }

  lemma ReachableAlone(limit: nat, sizes: map<nat, nat>, events: seq<Event>, k: nat)
    requires Reachable(limit, sizes, events) && sizes.Keys == {k}
    ensures Alone(limit, Run(limit, Init(sizes), events), k)
  {
    hide Inv, Run, Feasible;
    InitInv(limit, sizes);
    RunAlone(limit, Init(sizes), events, k);
  }

  /** In every run of a single handle, a writer that waits for a slot can go on if and only
      if fewer uploads have failed than there are slots. */
  lemma BlockedIff(limit: nat, sizes: map<nat, nat>, events: seq<Event>, k: nat)
    requires Reachable(limit, sizes, events) && sizes.Keys == {k}
    requires k in Run(limit, Init(sizes), events).handles && Run(limit, Init(sizes), events).handles[k].writer.Blocked?
    ensures var s := Run(limit, Init(sizes), events); CanGoOn(limit, s, k) <==> LostSlots(s.handles[k]) < limit
  {
    hide Run, Init, Feasible, Inv, CanGoOn, LostSlots;
    ReachableAlone(limit, sizes, events, k);
    BlockedGoesOn(limit, Run(limit, Init(sizes), events), k);
  }

  /** In every run of a single handle, a writer that waits for memory can go on if and only
      if a slot was returned since it looked, or some upload will return one unless it
      fails. */
  lemma StarvedIff(limit: nat, sizes: map<nat, nat>, events: seq<Event>, k: nat)
    requires Reachable(limit, sizes, events) && sizes.Keys == {k}
    requires k in Run(limit, Init(sizes), events).handles && Run(limit, Init(sizes), events).handles[k].writer.Starved?
    ensures var s := Run(limit, Init(sizes), events);
      var h := s.handles[k];
      && s.pool.inUse <= h.writer.seen
      && (CanGoOn(limit, s, k) <==> SomeReturning(h) || s.pool.inUse < h.writer.seen)
  {
    hide Run, Init, Feasible, Inv, Returning, SomeReturning;
    ReachableAlone(limit, sizes, events, k);
    StarvedGoesOn(limit, Run(limit, Init(sizes), events), k);
  }

  lemma StarvedGoesOn(limit: nat, s: State, k: nat)
    requires Alone(limit, s, k) && s.handles[k].writer.Starved?
    ensures CanGoOn(limit, s, k) <==> SomeReturning(s.handles[k]) || s.pool.inUse < s.handles[k].writer.seen
  {
    hide Run, Feasible, Inv, Returning, CanGoOn;
    var h := s.handles[k];
    if s.pool.inUse < h.writer.seen {
      NoEvents(limit, s);
      GoesOn(limit, s, k, []);
    } else if SomeReturning(h) {
      var i :| 0 <= i < |h.uploads| && Returning(h.uploads[i].stage);
      var more := ReturnSlot(limit, s, k, i);
      GoesOn(limit, s, k, more);
    } else {
      StarvesOn(limit, s, k);
    }
  }

  lemma NoEvents(limit: nat, s: State)
    ensures Feasible(limit, s, []) && Run(limit, s, []) == s
  {
  }

  lemma StarvesOn(limit: nat, s: State, k: nat)
    requires Inv(limit, s) && s.handles.Keys == {k} && s.handles[k].writer.Starved?
    requires s.pool.inUse >= s.handles[k].writer.seen && !SomeReturning(s.handles[k])
    ensures !CanGoOn(limit, s, k)
  {
    hide Run, Feasible, Inv, SomeReturning;
    forall more | Feasible(limit, s, more)
      ensures !Ready(limit, Run(limit, s, more), k)
    {
      OutOfMemoryHangs(limit, s, more, k);
    }
  }
}
