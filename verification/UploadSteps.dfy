/** Every step of the upload protocol keeps the invariant. */
module UploadSteps {
  import opened Wrappers
  import opened UploadProtocol
  import opened UploadInvariant
  import opened MapSums
  import opened Arithmetic

  /** A step of one handle keeps the handle in order and the pool's books balanced. */
  ghost predicate Keeps(limit: nat, h: Handle, pool: Pool, h': Handle, pool': Pool) {
    && HandleOk(h')
    && pool'.inUse - pool.inUse == Slots(h') - Slots(h)
    && pool'.waiting - pool.waiting == Waits(h') - Waits(h)
    && (pool'.inUse <= pool.inUse || pool'.inUse <= limit)
  }

  // ---- upload threads ----

  /** Where the upload threads leave the data and the writer alone. */
  lemma UploadKeeps(h: Handle, h': Handle, i: nat, stage: Stage)
    requires HandleOk(h) && CanUpload(h, i)
    requires h' ==
      h.(uploads := h.uploads[i := h.uploads[i].(stage := stage)], inProgress := h'.inProgress, etags := h'.etags,
                      partsUploaded := h'.partsUploaded, hasError := h'.hasError, exception := h'.exception)
    requires h.hasError ==> h'.hasError
    ensures DataOk(h') && WriterOk(h') && RequestOk(h')
    ensures Slots(h') == Slots(h) + SlotOf(stage) - SlotOf(h.uploads[i].stage) && Waits(h') == Waits(h)
  {
    hide UploadsOk, CountsOk, TagsOk, Total;
    SentSame(h.uploads, h'.uploads, |h.uploads|);
    TotalSet(h.uploads, |h.uploads|, i, h'.uploads[i], SlotOf);
    assert !h.uploads[i].stage.Finished?;
    assert !AllFinished(h);
  }

  lemma MoveTotals(h: Handle, i: nat, stage: Stage)
    requires CanUpload(h, i)
    ensures var us := h.uploads[i := h.uploads[i].(stage := stage)];
      && Total(us, |us|, Live) == Total(h.uploads, |us|, Live) + Live(stage) - Live(h.uploads[i].stage)
      && Total(us, |us|, PastCount) ==
         Total(h.uploads, |us|, PastCount) + PastCount(stage) - PastCount(h.uploads[i].stage)
      && Total(us, |us|, Unreported) ==
         Total(h.uploads, |us|, Unreported) + Unreported(stage) - Unreported(h.uploads[i].stage)
      && Total(us, |us|, PastCount) <= |us|
      && Total(h.uploads, |us|, Live) >= 1
      && Total(h.uploads, |us|, Unreported) >= Unreported(h.uploads[i].stage)
  {
    var u := h.uploads[i].(stage := stage);
    TotalSet(h.uploads, |h.uploads|, i, u, Live);
    TotalSet(h.uploads, |h.uploads|, i, u, PastCount);
    TotalSet(h.uploads, |h.uploads|, i, u, Unreported);
    TotalAtMost(h.uploads[i := u], |h.uploads|, PastCount);
    TotalAtLeast(h.uploads, |h.uploads|, i, Live);
    TotalAtLeast(h.uploads, |h.uploads|, i, Unreported);
  }

  lemma MoveUploads(us: seq<Upload>, i: nat, stage: Stage, before: bool, after: bool)
    requires UploadsOk(us, before) && i < |us| && (before ==> after) && (Failing(stage) ==> after)
    ensures UploadsOk(Moved(us, i, stage), after)
  {
  }

  lemma MoveTags(us: seq<Upload>, i: nat, stage: Stage, etags: map<nat, string>)
    requires TagsOk(us, etags) && i < |us| && !Done(us[i].stage)
    requires HasTag(stage) == HasTag(us[i].stage)
    ensures TagsOk(Moved(us, i, stage), etags)
  {
  }

  lemma AddTag(us: seq<Upload>, i: nat, etags: map<nat, string>)
    requires TagsOk(us, etags) && i < |us| && !HasTag(us[i].stage)
    ensures i !in etags && TagsOk(Moved(us, i, Tagged), etags[i := us[i].data])
  {
  }

  function NextStage(h: Handle, i: nat, ok: bool): Stage
    requires CanUpload(h, i)
  {
    match h.uploads[i].stage
    case Sending => if ok then Stored else if h.hasError then Settling else Raising
    case Stored => Tagged
    case Tagged => Counted
    case Counted => Freed
    case Freed => Finished
    case Raising => Settling
    case _ => Lost
  }

  /** The handle after a step of upload `i`. */
  function Stepped(h: Handle, i: nat, ok: bool): Handle
    requires CanUpload(h, i)
  {
    var u := h.uploads[i];
    h.(uploads := Moved(h.uploads, i, NextStage(h, i, ok)),
       hasError := h.hasError || (u.stage.Sending? && !ok),
       exception := h.exception || u.stage.Raising?,
       etags := if u.stage.Stored? && u.part !in h.etags then h.etags[u.part := u.data] else h.etags,
       partsUploaded := if u.stage.Tagged? then (h.partsUploaded + 1) % PART_LIMIT else h.partsUploaded,
       inProgress := if (u.stage.Freed? || u.stage.Settling?)
         && h.inProgress > 0 then h.inProgress - 1 else h.inProgress)
  }

  lemma StepShape(h: Handle, pool: Pool, i: nat, ok: bool)
    requires CanUpload(h, i) && h.inProgress > 0 && (h.uploads[i].stage.Counted? ==> pool.inUse > 0)
    ensures StepUpload(h, pool, i, ok).0 == Stepped(h, i, ok)
  {
  }

  lemma StepCounts(h: Handle, i: nat, ok: bool)
    requires CountsOk(h) && CanUpload(h, i) && h.inProgress > 0
    ensures CountsOk(Stepped(h, i, ok))
  {
    hide Total;
    MoveTotals(h, i, NextStage(h, i, ok));
  }

  lemma StepTags(h: Handle, i: nat, ok: bool)
    requires UploadsOk(h.uploads, h.hasError) && TagsOk(h.uploads, h.etags) && CanUpload(h, i)
    ensures var h' := Stepped(h, i, ok); UploadsOk(h'.uploads, h'.hasError) && TagsOk(h'.uploads, h'.etags)
  {
    var h' := Stepped(h, i, ok);
    assert h.uploads[i].part == i && (Failing(h.uploads[i].stage) ==> h.hasError);
    hide UploadsOk, TagsOk;
    MoveUploads(h.uploads, i, NextStage(h, i, ok), h.hasError, h'.hasError);
    if h.uploads[i].stage.Stored? {
      AddTag(h.uploads, i, h.etags);
    } else {
      MoveTags(h.uploads, i, NextStage(h, i, ok), h.etags);
    }
  }

  lemma StepUploadKeeps(limit: nat, h: Handle, pool: Pool, i: nat, ok: bool)
    requires HandleOk(h) && CanUpload(h, i) && pool.inUse >= Slots(h)
    ensures var r := StepUpload(h, pool, i, ok); Keeps(limit, h, pool, r.0, r.1)
  {
    hide UploadsOk, TagsOk, DataOk, WriterOk, RequestOk, Slots, Waits, Total;
    if h.uploads[i].stage.Counted? {
      HoldsSlot(h, i);
    }
    MoveTotals(h, i, NextStage(h, i, ok));
    StepShape(h, pool, i, ok);
    StepCounts(h, i, ok);
    StepTags(h, i, ok);
    hide CountsOk;
    UploadKeeps(h, Stepped(h, i, ok), i, NextStage(h, i, ok));
  }

  lemma HoldsSlot(h: Handle, i: nat)
    requires i < |h.uploads| && SlotOf(h.uploads[i].stage) == 1
    ensures Slots(h) >= 1
  {
    TotalAtLeast(h.uploads, |h.uploads|, i, SlotOf);
  }

  // ---- calls ----

  lemma BeginKeeps(limit: nat, h: Handle, pool: Pool, op: Op)
    requires HandleOk(h) && CanCall(h, op)
    ensures Keeps(limit, h, pool, Begin(h, op), pool)
  {
    hide UploadsOk, TagsOk, CountsOk, DataOk, WriterOk, RequestOk, Slots, Waits, Begin;
    BeginWriter(h, op);
    SameCounts(h, Begin(h, op));
  }

  lemma BeginWriter(h: Handle, op: Op)
    requires HandleOk(h) && CanCall(h, op)
    ensures var h' := Begin(h, op);
      && h' == h.(writer := h'.writer) && WriterOk(h') && RequestOk(h')
      && !h.writer.Starved? && !h.writer.Granted? && !h'.writer.Starved? && !h'.writer.Granted?
  {
    hide UploadsOk, TagsOk, CountsOk, DataOk, Sent;
    PendingFilled(h);
  }

  lemma PendingFilled(h: Handle)
    requires DataOk(h)
    ensures forall p :: p in h.buffers ==> p == |h.uploads| && h.buffers[p].filled == |Pending(h)|
  {
    hide Sent;
  }

  // ---- the writer ----

  /** A step that only concerns the writer. */
  lemma WriterMoves(limit: nat, h: Handle, pool: Pool, h': Handle, pool': Pool)
    requires HandleOk(h)
    requires h' == h.(writer := h'.writer) && WriterOk(h') && !h.finalized
    requires pool'.inUse - pool.inUse == WriterSlot(h'.writer) - WriterSlot(h.writer)
    requires pool'.waiting - pool.waiting == Waits(h') - Waits(h)
    requires pool'.inUse <= pool.inUse || pool'.inUse <= limit
    ensures Keeps(limit, h, pool, h', pool')
  {
    hide Total, Sent, WriterOk;
  }

  function WriterSlot(w: Writer): int { if w.Starved? || w.Granted? then 1 else 0 }

  lemma PartOf(n: nat, p: nat, rest: nat)
    requires rest < p && n < PART_LIMIT
    ensures ((n * p + rest) / p) % PART_LIMIT == n
  {
    Divide(n * p + rest, p, n, rest);
  }

  lemma LocateKeeps(limit: nat, h: Handle, pool: Pool, w: Progress)
    requires HandleOk(h) && h.writer == Writing(w)
    ensures Keeps(limit, h, pool, Locate(h, w), pool)
  {
    hide Total, Sent, Keeps;
    PartOf(|h.uploads|, h.partSize, |Pending(h)|);
    WriterMoves(limit, h, pool, Locate(h, w), pool);
  }

  lemma HoldsOwn(h: Handle)
    ensures Slots(h) >= WriterSlot(h.writer)
  {
    TotalNatural(h.uploads, |h.uploads|, SlotOf);
  }

  lemma AcquireKeeps(limit: nat, h: Handle, pool: Pool, w: Progress, part: nat, ok: bool)
    requires HandleOk(h) && h.writer == Blocked(w, part) && pool.inUse + pool.waiting < limit
    ensures var r := Acquire(h, pool, w, part, ok); Keeps(limit, h, pool, r.0, r.1)
  {
    hide Total, Sent, Keeps;
    var r := Acquire(h, pool, w, part, ok);
    WriterMoves(limit, h, pool, r.0, r.1);
  }

  lemma RetryKeeps(limit: nat, h: Handle, pool: Pool, w: Progress, part: nat, seen: nat, ok: bool)
    requires HandleOk(h) && h.writer == Starved(w, part, seen) && pool.inUse >= Slots(h) && pool.waiting >= Waits(h)
    ensures var r := Retry(h, pool, w, part, ok); Keeps(limit, h, pool, r.0, r.1)
  {
    hide Total, Sent, Keeps, Slots;
    var r := Retry(h, pool, w, part, ok);
    HoldsOwn(h);
    WriterMoves(limit, h, pool, r.0, r.1);
  }

  lemma RoomForPart(h: Handle, w: Progress)
    requires Aligned(h, w) && h.partSize > 0 && h.accepted == Sent(h.uploads, |h.uploads|)
    ensures |h.uploads| < PART_LIMIT - 1
  {
    Multiples(|h.uploads|, PART_LIMIT - 1, h.partSize);
  }

  lemma InsertKeeps(limit: nat, h: Handle, pool: Pool, w: Progress, part: nat)
    requires HandleOk(h) && h.writer == Granted(w, part)
    ensures Keeps(limit, h, pool, Insert(h, w, part), pool)
  {
    hide Total, Sent, UploadsOk, TagsOk;
    RoomForPart(h, w);
  }

  /** The copy lands right behind the bytes that are already there. */
  lemma CopyLands(h: Handle, w: Progress, part: nat)
    requires HandleOk(h) && h.writer == Holding(w, part)
    ensures w.location + w.written == part * h.partSize + |Pending(h)|
  {
    hide Total, UploadsOk, TagsOk;
  }

  lemma CopyData(h: Handle, h': Handle, chunk: string)
    requires DataOk(h) && HasBuffer(h) && h'.uploads == h.uploads && h'.partSize == h.partSize
    requires |Pending(h)| + |chunk| <= h.partSize
    requires h'.buffers == h.buffers[|h.uploads| := Buffer(Pending(h) + chunk, |Pending(h)| + |chunk|, false)]
    requires h'.accepted == h.accepted + chunk
    ensures DataOk(h') && HasBuffer(h') && Pending(h') == Pending(h) + chunk && |h'.buffers| == |h.buffers|
  {
    hide Sent;
    var sent := Sent(h.uploads, |h.uploads|);
    assert (sent + Pending(h)) + chunk == sent + (Pending(h) + chunk);
  }

  lemma CopyShape(h: Handle, w: Progress, part: nat)
    requires HandleOk(h) && h.writer == Holding(w, part)
    ensures var n := Min(|w.data| - w.written, h.partSize - |Pending(h)|);
      var chunk := w.data[w.written..w.written + n];
      var buffers := h.buffers[part := Buffer(Pending(h) + chunk, |Pending(h)| + n, false)];
      Copy(h, w, part) ==
        if |Pending(h)| + n == h.partSize
        then h.(buffers := buffers, accepted := h.accepted + chunk, writer := Flushing(part, Resume(w, n)))
        else h.(buffers := buffers, accepted := h.accepted + chunk, fileOffset := h.fileOffset + n,
                writer := Writing(w.(written := w.written + n)))
  {
    hide Total, Sent, UploadsOk, TagsOk, RequestOk;
    CopyLands(h, w, part);
    var b := h.buffers[part];
    var n := Min(|w.data| - w.written, h.partSize - |b.bytes|);
    var chunk := w.data[w.written..w.written + n];
    assert Place(b.bytes, |b.bytes|, chunk) == b.bytes + chunk;
  }

  lemma CopyKeeps(limit: nat, h: Handle, pool: Pool, w: Progress, part: nat)
    requires HandleOk(h) && h.writer == Holding(w, part)
    ensures Keeps(limit, h, pool, Copy(h, w, part), pool)
  {
    hide Total, Sent, UploadsOk, TagsOk, DataOk, Pending, HasBuffer, Copy;
    CopyShape(h, w, part);
    var n := Min(|w.data| - w.written, h.partSize - |Pending(h)|);
    CopyData(h, Copy(h, w, part), w.data[w.written..w.written + n]);
  }

  lemma FlushKeeps(limit: nat, h: Handle, pool: Pool, part: nat, after: After)
    requires HandleOk(h) && h.writer == Flushing(part, after)
    ensures Keeps(limit, h, pool, Flush(h, part, after), pool)
  {
    hide UploadsOk, TagsOk, CountsOk, DataOk, WriterOk, RequestOk, Flush;
    FlushShape(h, part, after);
    FlushData(h, part, after);
    FlushWriter(h, part, after);
    FlushCounts(h, part, after);
  }

  /** A flush marks the buffer and goes on to the upload, or rethrows. */
  lemma FlushShape(h: Handle, part: nat, after: After)
    requires HandleOk(h) && h.writer == Flushing(part, after)
    ensures part == |h.uploads| && part in h.buffers && |h.buffers| == |h.buffers[part := h.buffers[part]]|
    ensures Flush(h, part, after) ==
      h.(buffers := h.buffers[part := h.buffers[part].(uploading := true)],
         writer := if !h.hasError then Launching(part, after) else if h.exception then Threw else Terminated)
  {
    hide UploadsOk, TagsOk, CountsOk, RequestOk, Sent, AfterOk;
  }

  lemma FlushData(h: Handle, part: nat, after: After)
    requires HandleOk(h) && h.writer == Flushing(part, after)
    ensures DataOk(Flush(h, part, after)) && Pending(Flush(h, part, after)) == Pending(h)
  {
    hide UploadsOk, TagsOk, CountsOk, RequestOk, WriterOk, Flush, Sent;
    FlushShape(h, part, after);
  }

  lemma FlushWriter(h: Handle, part: nat, after: After)
    requires HandleOk(h) && h.writer == Flushing(part, after)
    ensures WriterOk(Flush(h, part, after)) && RequestOk(Flush(h, part, after))
  {
    hide UploadsOk, TagsOk, CountsOk, Flush, Sent;
    FlushShape(h, part, after);
    FlushData(h, part, after);
  }

  lemma FlushCounts(h: Handle, part: nat, after: After)
    requires HandleOk(h) && h.writer == Flushing(part, after)
    ensures var h' := Flush(h, part, after); CountsOk(h') && Slots(h') == Slots(h) && Waits(h') == Waits(h)
  {
    hide UploadsOk, TagsOk, DataOk, WriterOk, RequestOk, Flush, Total;
    FlushShape(h, part, after);
    assert h.buffers[part := h.buffers[part].(uploading := true)].Keys == h.buffers.Keys;
  }

  lemma LaunchUploads(us: seq<Upload>, u: Upload, hasError: bool, etags: map<nat, string>)
    requires UploadsOk(us, hasError) && TagsOk(us, etags) && u.part == |us| && u.data != "" && u.stage == Sending
    ensures UploadsOk(us + [u], hasError) && TagsOk(us + [u], etags)
    ensures Sent(us + [u], |us| + 1) == Sent(us, |us|) + u.data
    ensures Total(us + [u], |us| + 1, Live) == Total(us, |us|, Live) + 1
    ensures Total(us + [u], |us| + 1, PastCount) == Total(us, |us|, PastCount)
    ensures Total(us + [u], |us| + 1, Unreported) == Total(us, |us|, Unreported)
    ensures Total(us + [u], |us| + 1, SlotOf) == Total(us, |us|, SlotOf) + 1
  {
    hide Total, Sent, UploadsOk, TagsOk;
    LaunchTags(us, u, hasError, etags);
    LaunchSent(us, u);
    TotalAppend(us, u, Live);
    TotalAppend(us, u, PastCount);
    TotalAppend(us, u, Unreported);
    TotalAppend(us, u, SlotOf);
  }

  lemma LaunchTags(us: seq<Upload>, u: Upload, hasError: bool, etags: map<nat, string>)
    requires UploadsOk(us, hasError) && TagsOk(us, etags) && u.part == |us| && u.data != "" && u.stage == Sending
    ensures UploadsOk(us + [u], hasError) && TagsOk(us + [u], etags)
  {
  }

  lemma LaunchSent(us: seq<Upload>, u: Upload)
    ensures Sent(us + [u], |us| + 1) == Sent(us, |us|) + u.data
  {
    SentSame(us, us + [u], |us|);
  }

  lemma LaunchShape(h: Handle, part: nat, after: After)
    requires HandleOk(h) && h.writer == Launching(part, after)
    ensures var us := h.uploads + [Upload(part, Pending(h), Sending)];
      Launch(h, part, after) ==
        match after
        case Resume(w, n) => h.(buffers := map[], inProgress := h.inProgress + 1, uploads := us,
                                fileOffset := h.fileOffset + n, writer := Writing(w.(written := w.written + n)))
        case Rest(end, todo) => h.(buffers := map[], inProgress := h.inProgress + 1, uploads := us,
          writer := FlushAll(end, todo))
    ensures |h.buffers| == 1
  {
    hide Total, Sent, UploadsOk, TagsOk, RequestOk, CountsOk;
    var b := h.buffers[part];
    assert b.bytes[..b.filled] == b.bytes;
    assert h.buffers - {part} == map[];
    Without(h.buffers, part);
  }

  lemma LaunchKeeps(limit: nat, h: Handle, pool: Pool, part: nat, after: After)
    requires HandleOk(h) && h.writer == Launching(part, after)
    ensures Keeps(limit, h, pool, Launch(h, part, after), pool)
  {
    hide UploadsOk, TagsOk, Launch, WriterOk, CountsOk, DataOk, RequestOk, Slots, Waits;
    LaunchShape(h, part, after);
    LaunchWriter(h, part, after);
    LaunchCounts(h, part, after);
    LaunchData(h, part, after);
  }

  lemma LaunchCounts(h: Handle, part: nat, after: After)
    requires HandleOk(h) && h.writer == Launching(part, after)
    ensures var h' := Launch(h, part, after);
      && UploadsOk(h'.uploads, h'.hasError) && CountsOk(h') && TagsOk(h'.uploads, h'.etags)
      && Slots(h') == Slots(h) && Waits(h') == Waits(h)
  {
    hide Total, Sent, UploadsOk, TagsOk, Launch, WriterOk, DataOk, RequestOk, Pending;
    LaunchShape(h, part, after);
    LaunchWriter(h, part, after);
    LaunchUploads(h.uploads, Upload(part, Pending(h), Sending), h.hasError, h.etags);
  }

  lemma LaunchData(h: Handle, part: nat, after: After)
    requires HandleOk(h) && h.writer == Launching(part, after)
    ensures DataOk(Launch(h, part, after)) && RequestOk(Launch(h, part, after))
  {
    hide Total, Sent, UploadsOk, TagsOk, Launch, WriterOk, CountsOk;
    LaunchShape(h, part, after);
    LaunchWriter(h, part, after);
    LaunchUploads(h.uploads, Upload(part, Pending(h), Sending), h.hasError, h.etags);
  }

  lemma LaunchWriter(h: Handle, part: nat, after: After)
    requires HandleOk(h) && h.writer == Launching(part, after)
    ensures WriterOk(Launch(h, part, after)) && part == |h.uploads| < PART_LIMIT - 1 && Pending(h) != "" && !h.finalized
  {
    hide Total, Sent, UploadsOk, TagsOk, Launch, CountsOk;
    LaunchShape(h, part, after);
    LaunchUploads(h.uploads, Upload(part, Pending(h), Sending), h.hasError, h.etags);
    assert (|h.uploads| + 1) * h.partSize == |h.uploads| * h.partSize + h.partSize;
  }

  lemma NextFlushKeeps(limit: nat, h: Handle, pool: Pool, end: End, todo: set<nat>, pick: nat)
    requires HandleOk(h) && h.writer == FlushAll(end, todo) && (todo != {} ==> pick in todo)
    ensures Keeps(limit, h, pool, NextFlush(h, end, todo, pick), pool)
  {
    hide Total, Sent, UploadsOk, TagsOk, Keeps;
    WriterMoves(limit, h, pool, NextFlush(h, end, todo, pick), pool);
  }

  /** When no upload is in progress, each has either finished or failed, and the first
      failure has stored its exception. */
  lemma Quiet(h: Handle)
    requires UploadsOk(h.uploads, h.hasError) && CountsOk(h) && h.inProgress == 0
    ensures forall i :: 0 <= i < |h.uploads| ==> Done(h.uploads[i].stage)
    ensures !h.hasError ==> AllFinished(h) && h.partsUploaded == |h.uploads|
    ensures h.hasError ==> h.exception
  {
    forall i | 0 <= i < |h.uploads|
      ensures Done(h.uploads[i].stage)
    {
      TotalAtLeast(h.uploads, |h.uploads|, i, Live);
    }
    TotalMono(h.uploads, |h.uploads|, Unreported, Live);
    if !h.hasError {
      TotalConst(h.uploads, |h.uploads|, PastCount, 1);
    }
  }

  lemma PassKeeps(limit: nat, h: Handle, pool: Pool, end: End)
    requires HandleOk(h) && h.writer == Barrier(end) && h.inProgress == 0
    ensures Keeps(limit, h, pool, Pass(h, end), pool)
  {
    hide Total, UploadsOk, TagsOk, Keeps;
    Quiet(h);
    WriterMoves(limit, h, pool, Pass(h, end), pool);
  }

  lemma {:induction false} BodyComplete(etags: map<nat, string>, us: seq<Upload>, n: nat)
    requires n <= |us| && forall i :: 0 <= i < n ==> i in etags && etags[i] == us[i].data
    ensures Body(etags, n).Some? && |Body(etags, n).value| == n
    ensures forall i :: 0 <= i < n ==> Body(etags, n).value[i] == Part(i + 1, us[i].data)
    decreases n
  {
    if n > 0 {
      BodyComplete(etags, us, n - 1);
    }
  }

  lemma CompleteKeeps(limit: nat, h: Handle, pool: Pool, end: End, ok: bool)
    requires HandleOk(h) && h.writer == Completing(end)
    ensures Keeps(limit, h, pool, Complete(h, ok), pool)
  {
    hide UploadsOk, TagsOk, CountsOk, DataOk, WriterOk, RequestOk, Slots, Waits, Complete;
    CompleteShape(h, end, ok);
    CompleteRequest(h, end, ok);
    SameCounts(h, Complete(h, ok));
  }

  lemma CompleteShape(h: Handle, end: End, ok: bool)
    requires HandleOk(h) && h.writer == Completing(end)
    ensures Body(h.etags, h.partsUploaded).Some? && BodyIs(Body(h.etags, h.partsUploaded).value, h.uploads)
    ensures Complete(h, ok) == h.(finalized := true, requests := h.requests + [Body(h.etags, h.partsUploaded).value],
                                  writer := if ok then Ended else Threw)
  {
    hide Total, Sent, UploadsOk, DataOk, RequestOk, Body;
    BodyComplete(h.etags, h.uploads, |h.uploads|);
    TotalConst(h.uploads, |h.uploads|, PastCount, 1);
  }

  lemma CompleteRequest(h: Handle, end: End, ok: bool)
    requires HandleOk(h) && h.writer == Completing(end)
    ensures WriterOk(Complete(h, ok)) && RequestOk(Complete(h, ok))
  {
    hide UploadsOk, TagsOk, CountsOk, DataOk, Complete, BodyIs, Body;
    CompleteShape(h, end, ok);
  }

  /** What depends on the uploads and the buffers only. */
  lemma SameCounts(h: Handle, h': Handle)
    requires h' == h.(finalized := h'.finalized, requests := h'.requests, writer := h'.writer)
    requires !h.writer.Starved? && !h.writer.Granted? && !h'.writer.Starved? && !h'.writer.Granted?
    ensures CountsOk(h') == CountsOk(h) && DataOk(h') == DataOk(h) && Slots(h') == Slots(h) && Waits(h') == Waits(h)
  {
    hide Total, Sent;
  }

  // ---- runs ----

  lemma StepWriterKeeps(limit: nat, h: Handle, pool: Pool, ok: bool, pick: nat)
    requires HandleOk(h) && CanStep(limit, h, pool, pick) && pool.inUse >= Slots(h) && pool.waiting >= Waits(h)
    ensures var r := StepWriter(limit, h, pool, ok, pick); Keeps(limit, h, pool, r.0, r.1)
  {
    hide HandleOk, Keeps, Slots, Waits;
    hide Locate, Acquire, Retry, Insert, Copy, Flush, Launch, NextFlush, Pass, Complete;
    match h.writer
    case Writing(w) => LocateKeeps(limit, h, pool, w);
    case Blocked(w, part) => AcquireKeeps(limit, h, pool, w, part, ok);
    case Starved(w, part, seen) => RetryKeeps(limit, h, pool, w, part, seen, ok);
    case Granted(w, part) => InsertKeeps(limit, h, pool, w, part);
    case Holding(w, part) => CopyKeeps(limit, h, pool, w, part);
    case Flushing(part, after) => FlushKeeps(limit, h, pool, part, after);
    case Launching(part, after) => LaunchKeeps(limit, h, pool, part, after);
    case FlushAll(end, todo) => NextFlushKeeps(limit, h, pool, end, todo, pick);
    case Barrier(end) => PassKeeps(limit, h, pool, end);
    case Completing(end) => CompleteKeeps(limit, h, pool, end, ok);
    case _ =>
  }

  /** The pool counts at least what one handle holds. */
  lemma PoolCovers(limit: nat, s: State, k: nat)
    requires Inv(limit, s) && k in s.handles
    ensures HandleOk(s.handles[k]) && s.pool.inUse >= Slots(s.handles[k]) && s.pool.waiting >= Waits(s.handles[k])
  {
    hide HandleOk, Total;
    forall j | j in s.handles
      ensures Slots(s.handles[j]) >= 0
    {
      HoldsOwn(s.handles[j]);
    }
    SumAtLeast(s.handles, Slots, k);
    SumAtLeast(s.handles, Waits, k);
  }

  lemma NextInv(limit: nat, s: State, e: Event)
    requires Inv(limit, s) && Enabled(limit, s, e)
    ensures Inv(limit, Next(limit, s, e))
  {
    hide HandleOk, Slots, Waits, CanStep, CanCall, CanUpload, StepWriter, StepUpload, Begin;
    var h := s.handles[e.h];
    PoolCovers(limit, s, e.h);
    match e {
      case Call(_, op) => BeginKeeps(limit, h, s.pool, op);
      case Step(_, ok, pick) => StepWriterKeeps(limit, h, s.pool, ok, pick);
      case UploadStep(_, i, ok) => StepUploadKeeps(limit, h, s.pool, i, ok);
    }
    var s' := Next(limit, s, e);
    SumUpdate(s.handles, Slots, e.h, s'.handles[e.h]);
    SumUpdate(s.handles, Waits, e.h, s'.handles[e.h]);
  }

  lemma NewHandleOk(partSize: nat)
    requires partSize > 0
    ensures var h := NewHandle(partSize); HandleOk(h) && Slots(h) == 0 && Waits(h) == 0
  {
  }

  lemma InitInv(limit: nat, sizes: map<nat, nat>)
    requires forall k :: k in sizes ==> sizes[k] > 0
    ensures Inv(limit, Init(sizes))
  {
    hide HandleOk, Slots, Waits, NewHandle;
    var s := Init(sizes);
    forall k | k in s.handles
      ensures HandleOk(s.handles[k]) && Slots(s.handles[k]) == 0 && Waits(s.handles[k]) == 0
    {
      NewHandleOk(sizes[k]);
    }
    SumConst(s.handles, Slots, 0);
    SumConst(s.handles, Waits, 0);
  }

  lemma {:induction false} RunInv(limit: nat, s: State, events: seq<Event>)
    requires Inv(limit, s) && Feasible(limit, s, events)
    ensures Inv(limit, Run(limit, s, events))
    decreases |events|
  {
    hide Inv, Enabled, Next;
    if events != [] {
      NextInv(limit, s, events[0]);
      RunInv(limit, Next(limit, s, events[0]), events[1..]);
    }
  }
}
