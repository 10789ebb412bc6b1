/** The multipart upload as a step system. Each handle has one writer, which cuts the
    bytes it is given into parts, and one detached thread per part in flight. All
    handles draw their buffers from one pool with a limit. An event says which writer
    or upload thread takes the next step and how the outside world answers it. */
module UploadProtocol {
  import opened Arithmetic
  import opened Wrappers

  /** Part numbers and the part counter have 16 bits. */
  const PART_LIMIT := 65536

  // ---- uploads ----

  datatype Stage =
    | Sending     // the request is on its way
    | Stored      // the server has answered with an etag
    | Tagged      // the etag is in the handle's map
    | Counted     // the part counter is up to date
    | Freed       // the slot is back in the pool
    | Finished
    | Raising     // was the first to fail, about to store its exception
    | Settling    // has failed
    | Lost        // has failed and is gone; its slot is not given back

  datatype Upload = Upload(part: nat, data: string, stage: Stage)

  /** One line of a completion request. The tag the server gave to a part stands for the
      bytes of that part. */
  datatype Part = Part(number: nat, tag: string)

  // ---- writers ----

  datatype Op = Write(data: string, location: nat) | Sync | Close

  /** How far a call of Write has got. */
  datatype Progress = Progress(data: string, location: nat, written: nat)

  datatype End = SyncEnd | CloseEnd

  /** What follows a flush: the rest of a Write, or the rest of a flush of all buffers. */
  datatype After = Resume(w: Progress, copied: nat) | Rest(end: End, todo: set<nat>)

  datatype Writer =
    | Open                                            // between two calls
    | Writing(w: Progress)                            // at the head of the loop in Write
    | Blocked(w: Progress, part: nat)                 // waits for a slot
    | Starved(w: Progress, part: nat, seen: nat)      // has a slot, waits for memory
    | Granted(w: Progress, part: nat)                 // has memory for a new buffer
    | Holding(w: Progress, part: nat)                 // has the buffer of this part
    | Flushing(part: nat, after: After)
    | Launching(part: nat, after: After)
    | FlushAll(end: End, todo: set<nat>)
    | Barrier(end: End)                               // waits for the uploads in progress
    | Completing(end: End)
    | Ended                                           // FileSync or Close has returned
    | Threw
    | Terminated                                      // rethrew an exception that is not there
    | Broken                                          // did what it must never do

  /** A buffer of the handle: its bytes, how many count, and whether it is being sent. */
  datatype Buffer = Buffer(bytes: string, filled: nat, uploading: bool)

  datatype Handle = Handle(
    partSize: nat,
    fileOffset: nat,
    writer: Writer,
    buffers: map<nat, Buffer>,
    uploads: seq<Upload>,
    inProgress: nat,
    etags: map<nat, string>,
    partsUploaded: nat,
    hasError: bool,
    exception: bool,
    finalized: bool,
    requests: seq<seq<Part>>,       // completion requests sent
    accepted: string)               // the bytes copied into buffers so far

  function NewHandle(partSize: nat): Handle {
    Handle(partSize, 0, Open, map[], [], 0, map[], 0, false, false, false, [], "")
  }

  datatype Pool = Pool(inUse: nat, waiting: nat)

  datatype State = State(handles: map<nat, Handle>, pool: Pool)

  function Init(sizes: map<nat, nat>): State {
    State(map h | h in sizes :: NewHandle(sizes[h]), Pool(0, 0))
  }

  datatype Event =
    | Call(h: nat, op: Op)                        // the user of the handle makes a call
    | Step(h: nat, ok: bool, pick: nat)           // the writer goes on
    | UploadStep(h: nat, index: nat, ok: bool)    // an upload thread goes on

  // ---- calls ----

  predicate CanCall(h: Handle, op: Op) {
    match op
    case Write(data, _) => h.writer.Open? && |h.accepted| + |data| <= PART_LIMIT * h.partSize - h.partSize
    case _ => h.writer.Open? || h.writer.Ended? || h.writer.Threw?
  }

  function Begin(h: Handle, op: Op): Handle {
    match op
    case Write(data, location) => h.(writer := Writing(Progress(data, location, 0)))
    case Sync => h.(writer := if h.finalized then Ended else FlushAll(SyncEnd, h.buffers.Keys))
    case Close => h.(writer := if h.finalized then Ended else FlushAll(CloseEnd, h.buffers.Keys))
  }

  // ---- the writer ----

  predicate CanStep(limit: nat, h: Handle, pool: Pool, pick: nat) {
    match h.writer
    case Open => false
    case Blocked(_, _) => pool.inUse + pool.waiting < limit
    case Starved(_, _, seen) => pool.inUse < seen
    case FlushAll(_, todo) => todo != {} ==> pick in todo
    case Barrier(_) => h.inProgress == 0
    case Ended => false
    case Threw => false
    case Terminated => false
    case Broken => false
    case _ => true
  }

  /** The head of the loop: sequential writes only, then the buffer of this part. */
  function Locate(h: Handle, w: Progress): Handle
    requires h.partSize > 0
  {
    if w.written >= |w.data| then h.(writer := Open)
    else if w.location + w.written != h.fileOffset then h.(writer := Threw)
    else
      var part := (h.fileOffset / h.partSize) % PART_LIMIT;
      h.(writer := if part in h.buffers then Holding(w, part) else Blocked(w, part))
  }

  /** Under the pool's lock: take a slot, then try to get memory for it. */
  function Acquire(h: Handle, pool: Pool, w: Progress, part: nat, ok: bool): (Handle, Pool) {
    if ok then (h.(writer := Granted(w, part)), pool.(inUse := pool.inUse + 1))
    else (h.(writer := Starved(w, part, pool.inUse + 1)), Pool(pool.inUse + 1, pool.waiting + 1))
  }

  function Retry(h: Handle, pool: Pool, w: Progress, part: nat, ok: bool): (Handle, Pool) {
    if ok then
      if pool.waiting == 0 then (h.(writer := Broken), pool)
      else (h.(writer := Granted(w, part)), pool.(waiting := pool.waiting - 1))
    else if pool.inUse == 0 then (h.(writer := Broken), pool)
    else (h.(writer := Starved(w, part, pool.inUse)), pool)
  }

  function Insert(h: Handle, w: Progress, part: nat): Handle {
    if part in h.buffers then h.(writer := Holding(w, part))
    else h.(writer := Holding(w, part), buffers := h.buffers[part := Buffer("", 0, false)])
  }

  /** Overwrites the bytes at `at`. */
  function Place(bytes: string, at: nat, chunk: string): string
    requires at <= |bytes|
  {
    bytes[..at] + chunk + if at + |chunk| <= |bytes| then bytes[at + |chunk|..] else ""
  }

  function Copy(h: Handle, w: Progress, part: nat): Handle {
    var here := w.location + w.written;
    if part !in h.buffers || w.written > |w.data| || here < part * h.partSize
       || here - part * h.partSize > |h.buffers[part].bytes| || here - part * h.partSize > h.partSize
    then h.(writer := Broken)
    else
      var b := h.buffers[part];
      var at := here - part * h.partSize;
      var n := Min(|w.data| - w.written, h.partSize - at);
      var chunk := w.data[w.written..w.written + n];
      var b' := b.(bytes := Place(b.bytes, at, chunk), filled := b.filled + n);
      if b'.filled >= h.partSize
      then h.(buffers := h.buffers[part := b'], accepted := h.accepted + chunk, writer := Flushing(part, Resume(w, n)))
      else
        h.(buffers := h.buffers[part := b'], accepted := h.accepted + chunk, fileOffset := h.fileOffset + n,
           writer := Writing(w.(written := w.written + n)))
  }

  function Continue(h: Handle, after: After): Handle {
    match after
    case Resume(w, n) => h.(fileOffset := h.fileOffset + n, writer := Writing(w.(written := w.written + n)))
    case Rest(end, todo) => h.(writer := FlushAll(end, todo))
  }

  function Rethrow(h: Handle): Handle
    requires h.hasError
  {
    h.(writer := if h.exception then Threw else Terminated)
  }

  /** Up to the point where the upload is certain. */
  function Flush(h: Handle, part: nat, after: After): Handle {
    if part !in h.buffers then h.(writer := Broken)
    else
      var b := h.buffers[part];
      if b.filled == 0 || b.uploading then Continue(h, after)
      else
        var h' := h.(buffers := h.buffers[part := b.(uploading := true)]);
        if h.hasError then Rethrow(h') else h'.(writer := Launching(part, after))
  }

  function Launch(h: Handle, part: nat, after: After): Handle {
    if part !in h.buffers || h.buffers[part].filled > |h.buffers[part].bytes| then h.(writer := Broken)
    else
      var b := h.buffers[part];
      Continue(h.(buffers := h.buffers - {part}, inProgress := h.inProgress + 1,
                  uploads := h.uploads + [Upload(part, b.bytes[..b.filled], Sending)]), after)
  }

  function NextFlush(h: Handle, end: End, todo: set<nat>, pick: nat): Handle
    requires todo != {} ==> pick in todo
  {
    if todo == {} then h.(writer := Barrier(end))
    else if pick in h.buffers && h.buffers[pick].uploading then h.(writer := FlushAll(end, todo - {pick}))
    else h.(writer := Flushing(pick, Rest(end, todo - {pick})))
  }

  /** A Close of a handle without parts sends nothing. */
  function Pass(h: Handle, end: End): Handle {
    if h.hasError then (if h.exception then h.(writer := Threw) else h.(writer := Broken))
    else h.(writer := if end.CloseEnd? && h.partsUploaded == 0 then Ended else Completing(end))
  }

  /** The parts counted, in order; nothing if an etag is missing. */
  function Body(etags: map<nat, string>, n: nat): Option<seq<Part>> {
    if n == 0 then Some([])
    else if n - 1 !in etags then None
    else
      match Body(etags, n - 1)
      case None => None
      case Some(parts) => Some(parts + [Part(n, etags[n - 1])])
  }

  function Complete(h: Handle, ok: bool): Handle {
    match Body(h.etags, h.partsUploaded)
    case None => h.(finalized := true, writer := Broken)
    case Some(body) => h.(finalized := true, requests := h.requests + [body], writer := if ok then Ended else Threw)
  }

  function StepWriter(limit: nat, h: Handle, pool: Pool, ok: bool, pick: nat): (Handle, Pool)
    requires CanStep(limit, h, pool, pick) && h.partSize > 0
  {
    match h.writer
    case Writing(w) => (Locate(h, w), pool)
    case Blocked(w, part) => Acquire(h, pool, w, part, ok)
    case Starved(w, part, _) => Retry(h, pool, w, part, ok)
    case Granted(w, part) => (Insert(h, w, part), pool)
    case Holding(w, part) => (Copy(h, w, part), pool)
    case Flushing(part, after) => (Flush(h, part, after), pool)
    case Launching(part, after) => (Launch(h, part, after), pool)
    case FlushAll(end, todo) => (NextFlush(h, end, todo, pick), pool)
    case Barrier(end) => (Pass(h, end), pool)
    case Completing(_) => (Complete(h, ok), pool)
    case _ => (h, pool)
  }

  // ---- the upload threads ----

  predicate Done(stage: Stage) { stage.Finished? || stage.Lost? }

  predicate CanUpload(h: Handle, i: nat) {
    i < |h.uploads| && !Done(h.uploads[i].stage)
  }

  function Moved(us: seq<Upload>, i: nat, stage: Stage): seq<Upload>
    requires i < |us|
  {
    us[i := us[i].(stage := stage)]
  }

  function StepUpload(h: Handle, pool: Pool, i: nat, ok: bool): (Handle, Pool)
    requires CanUpload(h, i)
  {
    var us, u := h.uploads, h.uploads[i];
    match u.stage
    case Sending =>
      if ok then (h.(uploads := Moved(us, i, Stored)), pool)
      else (h.(uploads := Moved(us, i, if h.hasError then Settling else Raising), hasError := true), pool)
    case Raising => (h.(uploads := Moved(us, i, Settling), exception := true), pool)
    case Stored =>
      (h.(uploads := Moved(us, i, Tagged), etags := if u.part in h.etags then
        h.etags else h.etags[u.part := u.data]), pool)
    case Tagged => (h.(uploads := Moved(us, i, Counted), partsUploaded := (h.partsUploaded + 1) % PART_LIMIT), pool)
    case Counted =>
      if pool.inUse == 0 then (h.(writer := Broken), pool)
      else (h.(uploads := Moved(us, i, Freed)), pool.(inUse := pool.inUse - 1))
    case Freed =>
      if h.inProgress == 0 then (h.(writer := Broken), pool)
      else (h.(uploads := Moved(us, i, Finished), inProgress := h.inProgress - 1), pool)
    case Settling =>
      if h.inProgress == 0 then (h.(writer := Broken), pool)
      else (h.(uploads := Moved(us, i, Lost), inProgress := h.inProgress - 1), pool)
    case _ => (h, pool)
  }

  // ---- runs ----

  predicate Enabled(limit: nat, s: State, e: Event) {
    && e.h in s.handles && s.handles[e.h].partSize > 0
    && match e
       case Call(h, op) => CanCall(s.handles[h], op)
       case Step(h, _, pick) => CanStep(limit, s.handles[h], s.pool, pick)
       case UploadStep(h, i, _) => CanUpload(s.handles[h], i)
  }

  function Next(limit: nat, s: State, e: Event): State
    requires Enabled(limit, s, e)
  {
    var h := s.handles[e.h];
    var r :=
      match e
      case Call(_, op) => (Begin(h, op), s.pool)
      case Step(_, ok, pick) => StepWriter(limit, h, s.pool, ok, pick)
      case UploadStep(_, i, ok) => StepUpload(h, s.pool, i, ok);
    State(s.handles[e.h := r.0], r.1)
  }

  predicate Feasible(limit: nat, s: State, events: seq<Event>)
    decreases |events|
  {
    events == [] || (Enabled(limit, s, events[0]) && Feasible(limit, Next(limit, s, events[0]), events[1..]))
  }

  function Run(limit: nat, s: State, events: seq<Event>): State
    requires Feasible(limit, s, events)
    decreases |events|
  {
    if events == [] then s else Run(limit, Next(limit, s, events[0]), events[1..])
  }
}
