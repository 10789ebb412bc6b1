/** The handles come to rest: without new calls every run ends, and what it ends in is either
    done or waits for slots or memory. */
module UploadProgress {
  import opened Arithmetic
  import opened UploadProtocol
  import opened UploadInvariant
  import opened UploadSteps
  import opened UploadTheorems
  import opened UploadBlocking
  import opened UploadErrors
  import opened UploadRaises
  import opened MapSums

  // ---- how much is left to do ----

  /** A bound on the steps of a writer, apart from those that wait for memory. */
  function Rank(w: Writer): nat {
    match w
    case Writing(w) => 8 * |From(w, 0)| + 7
    case Blocked(w, _) => 8 * |From(w, 0)| + 6
    case Starved(w, _, _) => 8 * |From(w, 0)| + 5
    case Granted(w, _) => 8 * |From(w, 0)| + 4
    case Holding(w, _) => 8 * |From(w, 0)| + 3
    case Flushing(_, after) => RankAfter(after) + 2
    case Launching(_, after) => RankAfter(after) + 1
    case FlushAll(_, todo) => 3 * |todo| + 4
    case Barrier(_) => 2
    case Completing(_) => 1
    case _ => 0
  }

  function RankAfter(after: After): nat {
    match after
    case Resume(w, n) => 8 * |From(w, n)| + 7
    case Rest(_, todo) => 3 * |todo| + 4
  }

  function Seen(w: Writer): nat { if w.Starved? then w.seen else 0 }

  function Steps(stage: Stage): int {
    match stage
    case Sending => 5
    case Stored => 4
    case Tagged => 3
    case Counted => 2
    case Freed => 1
    case Raising => 2
    case Settling => 1
    case _ => 0
  }

  function WriterWork(limit: nat, w: Writer): nat { (limit + 2) * Rank(w) + Seen(w) }

  function WorkOf(limit: nat, h: Handle): int {
    6 * WriterWork(limit, h.writer) + Total(h.uploads, |h.uploads|, Steps)
  }

  ghost function Work(limit: nat): Handle -> int { (h: Handle) => WorkOf(limit, h) }

  // ---- every step of a writer brings it on ----

  /** Less is left, or as much, and fewer slots were seen. */
  predicate Less(limit: nat, w: Writer, w': Writer) {
    (Rank(w') < Rank(w) && Seen(w') <= limit) || (Rank(w') == Rank(w) && Seen(w') < Seen(w))
  }

  lemma LessWork(limit: nat, w: Writer, w': Writer)
    requires Less(limit, w, w')
    ensures WriterWork(limit, w') < WriterWork(limit, w)
  {
    hide Rank, Seen;
    var r, r', m := Rank(w), Rank(w'), limit + 2;
    if r' < r {
      Multiples(r', r, m);
      assert m * r' == r' * m && m * r == r * m;
    }
  }

  lemma LocateOn(limit: nat, h: Handle, w: Progress)
    requires h.partSize > 0
    ensures Less(limit, Writing(w), Locate(h, w).writer)
  {
    hide Locate, From;
    LocateGoes(h, w);
  }

  lemma LocateGoes(h: Handle, w: Progress)
    requires h.partSize > 0
    ensures var w' := Locate(h, w).writer;
      w'.Open? || w'.Threw? || (w'.Holding? && w'.w == w) || (w'.Blocked? && w'.w == w)
  {
  }

  lemma SlotOn(limit: nat, h: Handle, pool: Pool, w: Progress, part: nat, ok: bool)
    ensures pool.inUse < limit ==> Less(limit, Blocked(w, part), Acquire(h, pool, w, part, ok).0.writer)
    ensures forall seen ::
      pool.inUse < seen ==> Less(limit, Starved(w, part, seen), Retry(h, pool, w, part, ok).0.writer)
    ensures Less(limit, Granted(w, part), Insert(h, w, part).writer)
  {
  }

  lemma CopyOn(limit: nat, h: Handle, w: Progress, part: nat)
    requires HandleOk(h) && h.writer == Holding(w, part)
    ensures Less(limit, h.writer, Copy(h, w, part).writer)
  {
    hide HandleOk, Copy, Pending;
    CopyShape(h, w, part);
    HoldingWrites(h, w, part);
  }

  lemma HoldingWrites(h: Handle, w: Progress, part: nat)
    requires HandleOk(h) && h.writer == Holding(w, part)
    ensures w.written < |w.data| && |Pending(h)| < h.partSize
  {
    hide UploadsOk, CountsOk, TagsOk, DataOk, RequestOk, Pending;
  }

  lemma FlushOn(limit: nat, h: Handle, part: nat, after: After)
    requires HandleOk(h) && h.writer == Flushing(part, after)
    ensures Less(limit, h.writer, Flush(h, part, after).writer)
  {
    hide HandleOk, Flush;
    FlushShape(h, part, after);
  }

  lemma LaunchOn(limit: nat, h: Handle, part: nat, after: After)
    requires HandleOk(h) && h.writer == Launching(part, after)
    ensures Less(limit, h.writer, Launch(h, part, after).writer)
    ensures Launch(h, part, after).uploads == h.uploads + [Upload(part, Pending(h), Sending)]
  {
    hide HandleOk, Launch, Pending;
    LaunchShape(h, part, after);
  }

  lemma NextFlushOn(limit: nat, h: Handle, end: End, todo: set<nat>, pick: nat)
    requires todo != {} ==> pick in todo
    ensures Less(limit, FlushAll(end, todo), NextFlush(h, end, todo, pick).writer)
  {
    assert todo != {} ==> |todo - {pick}| == |todo| - 1;
  }

  lemma EndOn(limit: nat, h: Handle, end: End, ok: bool)
    ensures Less(limit, Barrier(end), Pass(h, end).writer) && Less(limit, Completing(end), Complete(h, ok).writer)
  {
    hide Pass, Complete, From, RankAfter;
    EndGoes(h, end, ok);
  }

  lemma EndGoes(h: Handle, end: End, ok: bool)
    ensures var w := Pass(h, end).writer; w.Threw? || w.Broken? || w.Ended? || w == Completing(end)
    ensures var w := Complete(h, ok).writer; w.Threw? || w.Broken? || w.Ended?
  {
    hide Body;
  }

  lemma WriterOn(limit: nat, h: Handle, pool: Pool, ok: bool, pick: nat)
    requires HandleOk(h) && h.partSize > 0 && CanStep(limit, h, pool, pick)
    ensures Less(limit, h.writer, StepWriter(limit, h, pool, ok, pick).0.writer)
  {
    hide HandleOk, Less, Locate, Acquire, Retry, Insert, Copy, Flush, Launch, NextFlush, Pass, Complete;
    match h.writer
    case Writing(w) => LocateOn(limit, h, w);
    case Blocked(w, part) => SlotOn(limit, h, pool, w, part, ok);
    case Starved(w, part, _) => SlotOn(limit, h, pool, w, part, ok);
    case Granted(w, part) => SlotOn(limit, h, pool, w, part, ok);
    case Holding(w, part) => CopyOn(limit, h, w, part);
    case Flushing(part, after) => FlushOn(limit, h, part, after);
    case Launching(part, after) => LaunchOn(limit, h, part, after);
    case FlushAll(end, todo) => NextFlushOn(limit, h, end, todo, pick);
    case Barrier(end) => EndOn(limit, h, end, ok);
    case Completing(end) => EndOn(limit, h, end, ok);
  }

  // ---- and so does every event ----

  lemma StepWorks(limit: nat, h: Handle, pool: Pool, ok: bool, pick: nat)
    requires HandleOk(h) && h.partSize > 0 && CanStep(limit, h, pool, pick)
    ensures WorkOf(limit, StepWriter(limit, h, pool, ok, pick).0) < WorkOf(limit, h)
  {
    hide HandleOk, Less, StepWriter, CanStep, WriterWork, Total, Launch;
    WriterOn(limit, h, pool, ok, pick);
    LessWork(limit, h.writer, StepWriter(limit, h, pool, ok, pick).0.writer);
    if h.writer.Launching? {
      LaunchStep(limit, h, pool, ok, pick);
      LaunchOn(limit, h, h.writer.part, h.writer.after);
      TotalAppend(h.uploads, Upload(h.writer.part, Pending(h), Sending), Steps);
    } else {
      UploadsStay(limit, h, pool, ok, pick);
    }
  }

  lemma LaunchStep(limit: nat, h: Handle, pool: Pool, ok: bool, pick: nat)
    requires h.partSize > 0 && CanStep(limit, h, pool, pick) && h.writer.Launching?
    ensures StepWriter(limit, h, pool, ok, pick).0 == Launch(h, h.writer.part, h.writer.after)
  {
    hide Launch;
  }

  lemma UploadWorks(limit: nat, h: Handle, pool: Pool, i: nat, ok: bool)
    requires HandleOk(h) && CanUpload(h, i) && pool.inUse >= Slots(h)
    ensures WorkOf(limit, StepUpload(h, pool, i, ok).0) < WorkOf(limit, h)
  {
    hide UploadsOk, TagsOk, DataOk, WriterOk, RequestOk, Slots, Total, StepUpload, WriterWork;
    if h.uploads[i].stage.Counted? {
      HoldsSlot(h, i);
    }
    MoveTotals(h, i, NextStage(h, i, ok));
    StepShape(h, pool, i, ok);
    TotalSet(h.uploads, |h.uploads|, i, h.uploads[i].(stage := NextStage(h, i, ok)), Steps);
  }

  lemma NextWorks(limit: nat, s: State, e: Event)
    requires Inv(limit, s) && Enabled(limit, s, e) && !e.Call?
    ensures Sum(Next(limit, s, e).handles, Work(limit)) < Sum(s.handles, Work(limit))
  {
    hide HandleOk, Inv, StepWriter, StepUpload, CanStep, CanUpload, Slots, Waits, WorkOf, Sum;
    var h := s.handles[e.h];
    assert HandleOk(h) by { KnowsHandle(limit, s, e.h); }
    PoolCovers(limit, s, e.h);
    SumUpdate(s.handles, Work(limit), e.h, Next(limit, s, e).handles[e.h]);
    match e
    case Step(_, ok, pick) => StepWorks(limit, h, s.pool, ok, pick);
    case UploadStep(_, i, ok) => UploadWorks(limit, h, s.pool, i, ok);
  }

  lemma WorkNatural(limit: nat, h: Handle)
    ensures WorkOf(limit, h) >= 0
  {
    TotalNatural(h.uploads, |h.uploads|, Steps);
  }

  lemma {:induction false} SumNatural(limit: nat, m: map<nat, Handle>)
    ensures Sum(m, Work(limit)) >= 0
    decreases |m|
  {
    hide WorkOf;
    if |m| > 0 {
      var k := Pick(m);
      Without(m, k);
      WorkNatural(limit, m[k]);
      SumNatural(limit, m - {k});
    }
  }

  predicate NoCalls(events: seq<Event>) {
    forall i :: 0 <= i < |events| ==> !events[i].Call?
  }

  lemma {:induction false} RunWorks(limit: nat, s: State, events: seq<Event>)
    requires Inv(limit, s) && Feasible(limit, s, events) && NoCalls(events)
    ensures |events| + Sum(Run(limit, s, events).handles, Work(limit)) <= Sum(s.handles, Work(limit))
    decreases |events|
  {
    hide Inv, Enabled, Next, Sum, Work;
    if events != [] {
      var e := events[0];
      assert !e.Call?;
      NextInv(limit, s, e);
      NextWorks(limit, s, e);
      RunWorks(limit, Next(limit, s, e), events[1..]);
    }
  }

  /** From every reachable state, a run without new calls has at most so many steps. */
  lemma RunsAreBounded(limit: nat, sizes: map<nat, nat>, events: seq<Event>, more: seq<Event>)
    requires Reachable(limit, sizes, events) && Feasible(limit, Run(limit, Init(sizes), events), more) && NoCalls(more)
    ensures |more| <= Sum(Run(limit, Init(sizes), events).handles, Work(limit))
  {
    hide Inv, Feasible, Run, Sum, Work;
    var s := Run(limit, Init(sizes), events);
    ReachableInv(limit, sizes, events);
    RunWorks(limit, s, more);
    SumNatural(limit, Run(limit, s, more).handles);
  }

  /** Where no such step is left, the writer of every handle is between two calls, has ended
      or raised an error, or waits for a slot while all are taken, or for memory. */
  lemma ComesToRest(limit: nat, sizes: map<nat, nat>, events: seq<Event>, k: nat)
    requires Reachable(limit, sizes, events) && k in Run(limit, Init(sizes), events).handles
    requires var s := Run(limit, Init(sizes), events);
      forall e: Event :: !e.Call? ==> !Enabled(limit, s, e)
    ensures var s := Run(limit, Init(sizes), events);
      var h := s.handles[k];
      || h.writer.Open? || h.writer.Ended? || h.writer.Threw? || h.writer.Terminated?
      || (h.writer.Blocked? && s.pool.inUse + s.pool.waiting >= limit)
      || (h.writer.Starved? && s.pool.inUse >= h.writer.seen)
  {
    hide Inv, Feasible, Run, CanStep;
    var s := Run(limit, Init(sizes), events);
    var h := s.handles[k];
    WaitsForReason(limit, sizes, events, k);
    ReachableInv(limit, sizes, events);
    KnownHandle(limit, s, k);
    forall pick: nat
      ensures !CanStep(limit, h, s.pool, pick)
    {
      assert !Enabled(limit, s, Step(k, true, pick));
    }
    forall i: nat | i < |h.uploads|
      ensures Done(h.uploads[i].stage)
    {
      assert !Enabled(limit, s, UploadStep(k, i, true));
    }
  }
}
