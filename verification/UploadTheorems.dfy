/** What every run of the upload protocol delivers. */
module UploadTheorems {
  import opened Arithmetic
  import opened UploadProtocol
  import opened UploadInvariant
  import opened UploadSteps
  import opened MapSums

  ghost predicate Reachable(limit: nat, sizes: map<nat, nat>, events: seq<Event>) {
    && (forall k :: k in sizes ==> sizes[k] > 0)
    && Feasible(limit, Init(sizes), events)
  }

  lemma ReachableInv(limit: nat, sizes: map<nat, nat>, events: seq<Event>)
    requires Reachable(limit, sizes, events)
    ensures Inv(limit, Run(limit, Init(sizes), events))
  {
    hide Inv, Init;
    InitInv(limit, sizes);
    RunInv(limit, Init(sizes), events);
  }

  // ---- the completed object ----

  /** The object the server puts together from the first `n` parts of a request. */
  function Joined(body: seq<Part>, n: nat): string
    requires n <= |body|
  {
    if n == 0 then "" else Joined(body, n - 1) + body[n - 1].tag
  }

  lemma {:induction false} JoinedIsSent(body: seq<Part>, us: seq<Upload>, n: nat)
    requires BodyIs(body, us) && n <= |us|
    ensures Joined(body, n) == Sent(us, n)
    decreases n
  {
    if n > 0 {
      JoinedIsSent(body, us, n - 1);
    }
  }

  /** At most one completion request is sent per handle. It comes after every upload has
      been acknowledged, never after a failed one; it lists all parts in order; and the
      parts make up exactly the bytes the handle has accepted. */
  lemma Completion(limit: nat, sizes: map<nat, nat>, events: seq<Event>, k: nat)
    requires Reachable(limit, sizes, events)
    requires k in Run(limit, Init(sizes), events).handles
    ensures Completed(Run(limit, Init(sizes), events).handles[k])
  {
    hide Run, Init, Feasible, HandleOk, Completed;
    ReachableInv(limit, sizes, events);
    CompletedHandle(Run(limit, Init(sizes), events).handles[k]);
  }

  ghost predicate Completed(h: Handle) {
    && |h.requests| <= 1
    && (h.writer.Ended? && h.accepted != "" ==> |h.requests| == 1)
    && (h.requests != [] ==>
          var body := h.requests[0];
          && Joined(body, |body|) == h.accepted
          && (forall i :: 0 <= i < |body| ==> body[i].number == i + 1)
          && AllFinished(h) && !h.hasError && |body| == |h.uploads|
          && (forall i: nat :: i in h.etags <==> i < |body|))
  }

  lemma CompletedHandle(h: Handle)
    requires HandleOk(h)
    ensures Completed(h)
  {
    hide CountsOk, Joined, Sent;
    if h.requests != [] {
      JoinedIsSent(h.requests[0], h.uploads, |h.uploads|);
    }
  }

  /** Nothing impossible happens: no part number is unknown, no counter goes below zero,
      no allocation gives up, and the barrier finds an exception whenever there was an
      error. */
  lemma NothingBreaks(limit: nat, sizes: map<nat, nat>, events: seq<Event>)
    requires Reachable(limit, sizes, events)
    ensures var s := Run(limit, Init(sizes), events);
      forall k :: k in s.handles ==> !s.handles[k].writer.Broken?
  {
    hide Run, Init, Feasible, UploadsOk, CountsOk, TagsOk, DataOk, RequestOk;
    ReachableInv(limit, sizes, events);
    var s := Run(limit, Init(sizes), events);
    forall k | k in s.handles
      ensures !s.handles[k].writer.Broken?
    {
      assert HandleOk(s.handles[k]);
    }
  }

  /** The pool's count is what the handles hold, and stays within the limit. */
  lemma SlotsBalance(limit: nat, sizes: map<nat, nat>, events: seq<Event>)
    requires Reachable(limit, sizes, events)
    ensures var s := Run(limit, Init(sizes), events);
      && s.pool.inUse == Sum(s.handles, Slots) <= limit
      && s.pool.waiting == Sum(s.handles, Waits)
  {
    hide Run, Init, Feasible, HandleOk, Slots, Waits;
    ReachableInv(limit, sizes, events);
  }

  // ---- the bytes accepted are the bytes written ----

  /** The bytes passed to Write on handle `k`, in the order of the calls. */
  function Written(events: seq<Event>, k: nat): string
    decreases |events|
  {
    if events == [] then ""
    else BytesOf(events[0], k) + Written(events[1..], k)
  }

  function BytesOf(e: Event, k: nat): string {
    if e.Call? && e.h == k && e.op.Write? then e.op.data else ""
  }

  /** What the call in progress has still to copy. */
  function Unwritten(w: Writer): string {
    match w
    case Writing(w) => From(w, 0)
    case Blocked(w, _) => From(w, 0)
    case Starved(w, _, _) => From(w, 0)
    case Granted(w, _) => From(w, 0)
    case Holding(w, _) => From(w, 0)
    case Flushing(_, after) => (match after case Resume(w, n) => From(w, n) case Rest(_, _) => "")
    case Launching(_, after) => (match after case Resume(w, n) => From(w, n) case Rest(_, _) => "")
    case _ => ""
  }

  function From(w: Progress, copied: nat): string {
    if w.written + copied <= |w.data| then w.data[w.written + copied..] else ""
  }

  predicate Raised(w: Writer) { w.Threw? || w.Terminated? }

  /** Handle `k` has raised no error up to and including the end of the run. */
  ghost predicate Smooth(limit: nat, s: State, events: seq<Event>, k: nat)
    requires Feasible(limit, s, events)
    decreases |events|
  {
    && k in s.handles && !Raised(s.handles[k].writer)
    && (events != [] ==> Smooth(limit, Next(limit, s, events[0]), events[1..], k))
  }

  lemma CopyAccepts(h: Handle, w: Progress, part: nat)
    requires HandleOk(h) && h.writer == Holding(w, part)
    ensures var h' := Copy(h, w, part); h'.accepted + Unwritten(h'.writer) == h.accepted + From(w, 0)
  {
    hide HandleOk, Copy, Pending, From;
    assert Room(h, w, 0) && |Pending(h)| < h.partSize by { HoldingKnows(h, w, part); }
    CopyShape(h, w, part);
    var n := Min(|w.data| - w.written, h.partSize - |Pending(h)|);
    TakeFrom(w, n);
    assert h.accepted + w.data[w.written..w.written + n] + From(w, n)
        == h.accepted + (w.data[w.written..w.written + n] + From(w, n));
  }

  lemma TakeFrom(w: Progress, n: nat)
    requires w.written + n <= |w.data|
    ensures From(w, 0) == w.data[w.written..w.written + n] + From(w, n)
    ensures From(w.(written := w.written + n), 0) == From(w, n)
  {
  }

  lemma HoldingKnows(h: Handle, w: Progress, part: nat)
    requires HandleOk(h) && h.writer == Holding(w, part)
    ensures Room(h, w, 0) && |Pending(h)| < h.partSize
  {
    hide UploadsOk, CountsOk, TagsOk, DataOk, RequestOk, Pending;
  }

  predicate Accepts(h: Handle, h': Handle) {
    || Raised(h'.writer) || h'.writer.Broken?
    || h'.accepted + Unwritten(h'.writer) == h.accepted + Unwritten(h.writer)
  }

  lemma LocateAccepts(h: Handle, w: Progress)
    requires h.writer == Writing(w) && h.partSize > 0
    ensures Accepts(h, Locate(h, w))
  {
  }

  lemma SlotAccepts(h: Handle, pool: Pool, w: Progress, part: nat, ok: bool)
    requires From(w, 0) == Unwritten(h.writer)
    ensures Accepts(h, Acquire(h, pool, w, part, ok).0) && Accepts(h, Retry(h, pool, w, part, ok).0)
    ensures Accepts(h, Insert(h, w, part))
  {
  }

  lemma FlushAccepts(h: Handle, part: nat, after: After)
    requires h.writer == Flushing(part, after)
    ensures Accepts(h, Flush(h, part, after))
  {
  }

  lemma LaunchAccepts(h: Handle, part: nat, after: After)
    requires h.writer == Launching(part, after)
    ensures Accepts(h, Launch(h, part, after))
  {
  }

  lemma EndAccepts(h: Handle, end: End, todo: set<nat>, pick: nat, ok: bool)
    requires Unwritten(h.writer) == "" && (todo != {} ==> pick in todo)
    ensures Accepts(h, NextFlush(h, end, todo, pick)) && Accepts(h, Pass(h, end)) && Accepts(h, Complete(h, ok))
  {
    hide NextFlush, Pass, Complete;
    FlushOn(h, end, todo, pick);
    EndsOn(h, end, ok);
  }

  lemma FlushOn(h: Handle, end: End, todo: set<nat>, pick: nat)
    requires todo != {} ==> pick in todo
    ensures var h' := NextFlush(h, end, todo, pick); h'.accepted == h.accepted && Unwritten(h'.writer) == ""
  {
  }

  lemma EndsOn(h: Handle, end: End, ok: bool)
    ensures Pass(h, end).accepted == Complete(h, ok).accepted == h.accepted
    ensures Unwritten(Pass(h, end).writer) == Unwritten(Complete(h, ok).writer) == ""
  {
    hide Body;
  }

  lemma WriterAccepts(limit: nat, h: Handle, pool: Pool, ok: bool, pick: nat)
    requires HandleOk(h) && CanStep(limit, h, pool, pick)
    ensures Accepts(h, StepWriter(limit, h, pool, ok, pick).0)
  {
    hide Locate, Acquire, Retry, Insert, Copy, Flush, Launch, NextFlush, Pass, Complete;
    assert h.partSize > 0;
    match h.writer
    case Writing(w) => LocateAccepts(h, w); hide HandleOk, Accepts;
    case Blocked(w, part) => SlotAccepts(h, pool, w, part, ok); hide HandleOk, Accepts;
    case Starved(w, part, _) => SlotAccepts(h, pool, w, part, ok); hide HandleOk, Accepts;
    case Granted(w, part) => SlotAccepts(h, pool, w, part, ok); hide HandleOk, Accepts;
    case Holding(w, part) => CopyAccepts(h, w, part); hide HandleOk;
    case Flushing(part, after) => FlushAccepts(h, part, after); hide HandleOk, Accepts;
    case Launching(part, after) => LaunchAccepts(h, part, after); hide HandleOk, Accepts;
    case FlushAll(end, todo) => EndAccepts(h, end, todo, pick, ok); hide HandleOk, Accepts;
    case Barrier(end) => EndAccepts(h, end, {}, pick, ok); hide HandleOk, Accepts;
    case Completing(end) => EndAccepts(h, end, {}, pick, ok); hide HandleOk, Accepts;
    case _ =>
  }

  lemma NextAccepts(limit: nat, s: State, e: Event, k: nat)
    requires Inv(limit, s) && Enabled(limit, s, e) && k in s.handles
    ensures var s' := Next(limit, s, e);
      && k in s'.handles
      && (Raised(s'.handles[k].writer)
          || s'.handles[k].accepted + Unwritten(s'.handles[k].writer)
             == s.handles[k].accepted + Unwritten(s.handles[k].writer) + BytesOf(e, k))
  {
    hide HandleOk, Slots, Waits, StepWriter, Unwritten, Inv;
    NextInv(limit, s, e);
    NotBroken(limit, Next(limit, s, e), k);
    if e.h == k {
      PoolCovers(limit, s, k);
      match e
      case Call(_, op) => CallAccepts(s.handles[k], op);
      case Step(_, ok, pick) => WriterAccepts(limit, s.handles[k], s.pool, ok, pick);
      case UploadStep(_, i, ok) => UploadAccepts(s.handles[k], s.pool, i, ok);
    }
  }

  lemma NotBroken(limit: nat, s: State, k: nat)
    requires Inv(limit, s) && k in s.handles
    ensures !s.handles[k].writer.Broken?
  {
    hide UploadsOk, CountsOk, TagsOk, DataOk, RequestOk;
    assert HandleOk(s.handles[k]);
  }

  lemma CallAccepts(h: Handle, op: Op)
    requires CanCall(h, op)
    ensures var h' := Begin(h, op);
      h'.accepted + Unwritten(h'.writer) == h.accepted + Unwritten(h.writer) + if op.Write? then op.data else ""
  {
  }

  lemma UploadAccepts(h: Handle, pool: Pool, i: nat, ok: bool)
    requires CanUpload(h, i)
    ensures var h' := StepUpload(h, pool, i, ok).0;
      h'.accepted == h.accepted && (h'.writer == h.writer || h'.writer.Broken?)
  {
  }

  lemma {:induction false} SmoothRun(limit: nat, s: State, events: seq<Event>, k: nat)
    requires Inv(limit, s) && Feasible(limit, s, events) && Smooth(limit, s, events, k)
    ensures var s' := Run(limit, s, events);
      k in s'.handles
      && s'.handles[k].accepted + Unwritten(s'.handles[k].writer)
         == s.handles[k].accepted + Unwritten(s.handles[k].writer) + Written(events, k)
    decreases |events|
  {
    hide Inv, Enabled, Next, Unwritten, BytesOf;
    if events == [] {
      assert Written(events, k) == "";
    } else {
      var e := events[0];
      var s1 := Next(limit, s, e);
      NextInv(limit, s, e);
      NextAccepts(limit, s, e, k);
      SmoothRun(limit, s1, events[1..], k);
    }
  }

  /** If the calls on a handle have raised no error and its completion request is out,
      the completed object is the concatenation of all bytes passed to Write, however
      they were split into calls and parts and however the uploads were interleaved. */
  lemma WrittenIsCompleted(limit: nat, sizes: map<nat, nat>, events: seq<Event>, k: nat)
    requires Reachable(limit, sizes, events) && Smooth(limit, Init(sizes), events, k)
    requires k in Run(limit, Init(sizes), events).handles
    requires Run(limit, Init(sizes), events).handles[k].requests != []
    ensures var body := Run(limit, Init(sizes), events).handles[k].requests[0];
      Joined(body, |body|) == Written(events, k)
  {
    hide Run, Inv, Feasible, Smooth, Joined, Completed, Written, Raised;
    InitInv(limit, sizes);
    Completion(limit, sizes, events, k);
    BodyIsAccepted(Run(limit, Init(sizes), events).handles[k]);
    SmoothRun(limit, Init(sizes), events, k);
    var s := Run(limit, Init(sizes), events);
    ReachableInv(limit, sizes, events);
    RequestEnds(limit, s, k);
    SmoothStart(limit, Init(sizes), events, k);
    SmoothEnd(limit, Init(sizes), events, k);
    var h := s.handles[k];
    assert h.accepted + "" == h.accepted;
    assert "" + Written(events, k) == Written(events, k);
  }

  lemma BodyIsAccepted(h: Handle)
    requires Completed(h) && h.requests != []
    ensures Joined(h.requests[0], |h.requests[0]|) == h.accepted
  {
  }

  lemma RequestEnds(limit: nat, s: State, k: nat)
    requires Inv(limit, s) && k in s.handles && s.handles[k].requests != []
    ensures s.handles[k].writer.Ended? || s.handles[k].writer.Threw?
  {
    hide UploadsOk, CountsOk, TagsOk, DataOk, WriterOk;
    assert HandleOk(s.handles[k]);
  }

  lemma SmoothStart(limit: nat, s: State, events: seq<Event>, k: nat)
    requires Feasible(limit, s, events) && Smooth(limit, s, events, k)
    ensures k in s.handles
  {
  }

  lemma {:induction false} SmoothEnd(limit: nat, s: State, events: seq<Event>, k: nat)
    requires Feasible(limit, s, events) && Smooth(limit, s, events, k)
    ensures k in Run(limit, s, events).handles && !Raised(Run(limit, s, events).handles[k].writer)
    decreases |events|
  {
    hide Next, Enabled;
    if events != [] {
      SmoothEnd(limit, Next(limit, s, events[0]), events[1..], k);
    }
  }
}
