/** The parallel scan of one newline-delimited file as a step system. Any number of
    threads claim consecutive slices under the reader's lock, read them without a
    lock, publish them in the buffer map, stitch the line that crosses into their
    buffer, parse the rest and release their buffers. A schedule says which thread
    takes the next step; what that step does is determined by the thread's stage. */
module NdjsonScan {
  import opened JsonText
  import opened NdjsonLines
  import opened NdjsonBuffers

  datatype Config = Config(file: string, maxObject: nat)

  /** Buffers are twice the maximum object size and keep room for the padding. */
  function Request(c: Config): nat {
    if 2 * c.maxObject > PADDING then 2 * c.maxObject - PADDING else 0
  }

  function Text(c: Config, k: nat): string { Slice(c.file, Request(c), k) }
  predicate Last(c: Config, k: nat) { IsLast(c.file, Request(c), k) }
  function Units(c: Config, k: nat): seq<string> { BufferUnits(c.file, Request(c), k) }
  /** Buffer `k` holds some of the file. */
  predicate Real(c: Config, k: nat) { |Text(c, k)| > 0 }
  /** The owner of buffer `k` can rebuild the line that crosses into it. */
  predicate Joins(c: Config, k: nat) {
    k > 0 ==> BoundaryOk(c.file, Request(c), c.maxObject, k)
  }

  /** A buffer as its owner knows it. */
  datatype Buffer = Buffer(block: nat, index: nat, size: nat, last: bool)

  /** The entry of a buffer in the reader's map. */
  datatype Handle = Handle(readers: nat, block: nat)

  datatype Thread =
    | Idle                                                  // has not been called yet
    | NoReader(block: nat)                                  // looks for a file
    | HasReader(block: nat)                                 // about to claim a slice
    | Empty(block: nat)                                     // claimed nothing: the file is used up
    | Claimed(buf: Buffer, position: nat)                   // about to read, without a lock
    | ReadIn(buf: Buffer)
    | Ready(buf: Buffer)                                    // about to publish the buffer
    | Stitching(buf: Buffer)                                // spins until the previous buffer is there
    | Holding(buf: Buffer, previous: nat)                   // found it
    | Copied(buf: Buffer, line: string)                     // has copied what it needs of it
    | Removing(buf: Buffer, line: string)                   // was its last reader
    | Emitting(buf: Buffer, line: string)
    | Parsing(buf: Buffer, offset: nat, scanCount: nat)
    | Releasing(buf: Buffer)                                // was the last reader of its own buffer
    | Closing(block: nat)
    | Finished
    | Failed(index: nat)                                    // threw an error
    | Broken                                                // touched something that was gone

  predicate HasBuffer(th: Thread) {
    th.Claimed? || th.ReadIn? || th.Ready? || th.Stitching? || th.Holding? || th.Copied?
    || th.Removing? || th.Emitting? || th.Parsing? || th.Releasing?
  }

  /** Who may write a block of memory. */
  datatype Use = Private(thread: nat) | Published(index: nat) | Free

  datatype State = State(
    threads: map<nat, Thread>,
    readPosition: nat,
    batchIndex: nat,
    requestedReads: nat,
    actualReads: nat,
    ended: bool,                        // the file index has moved past this file
    closed: bool,
    buffers: map<nat, Handle>,
    memory: map<nat, string>,
    nextBlock: nat,
    output: map<nat, seq<string>>,      // units by batch index
    // what happened so far; no step depends on it except through its length
    owners: seq<nat>,                   // who claimed buffer k
    batches: seq<nat>,                  // with which batch index
    use: map<nat, Use>,
    ownerDone: set<nat>,                // buffers released by their owner
    nextDone: set<nat>)                 // buffers released by the owner of the next one

  function Init(tids: set<nat>): State {
    State(map t | t in tids :: Idle, 0, 0, 0, 0, false, false, map[], map[], 0, map[], [], [], map[], {}, {})
  }

  // ---- steps ----

  function Out(s: State, batch: nat): seq<string> {
    if batch in s.output then s.output[batch] else []
  }

  function Become(s: State, t: nat, th: Thread): State {
    s.(threads := s.threads[t := th])
  }

  /** Files units under a batch index. */
  function Emit(s: State, batch: nat, units: seq<string>, t: nat, th: Thread): State {
    s.(output := s.output[batch := Out(s, batch) + units], threads := s.threads[t := th])
  }

  /** A new block of memory for thread `t`. */
  function Start(s: State, t: nat): State {
    s.(nextBlock := s.nextBlock + 1, use := s.use[s.nextBlock := Private(t)], memory := s.memory[s.nextBlock := ""],
       threads := s.threads[t := NoReader(s.nextBlock)])
  }

  function GetReader(s: State, t: nat, block: nat): State {
    if s.ended then s.(use := s.use[block := Free], threads := s.threads[t := Finished])
    else s.(batchIndex := s.batchIndex + 1, threads := s.threads[t := HasReader(block)])
  }

  /** The size of a read request, cut short by the end of the file. */
  function ClaimSize(c: Config, s: State): nat
    requires s.readPosition <= |c.file|
  {
    var left := |c.file| - s.readPosition;
    if Request(c) <= left then Request(c) else left
  }

  /** Under the reader's lock: buffer index, position, size and batch index at once. */
  function ClaimSlice(c: Config, s: State, t: nat, block: nat): State
    requires s.readPosition <= |c.file|
  {
    var size := ClaimSize(c, s);
    var th := if size == 0 then Empty(block)
              else Claimed(Buffer(block, |s.owners|, size, size < Request(c)), s.readPosition);
    var taken := if size == 0 then 0 else 1;
    s.(owners := s.owners + [t], batches := s.batches + [s.batchIndex], readPosition := s.readPosition + size,
       batchIndex := s.batchIndex + taken, requestedReads := s.requestedReads + taken, threads := s.threads[t := th])
  }

  function ReadSlice(c: Config, s: State, t: nat, buf: Buffer, position: nat): State {
    if s.closed || position + buf.size > |c.file| then Become(s, t, Broken)
    else
      s.(memory := s.memory[buf.block := c.file[position..position + buf.size]], actualReads := s.actualReads + 1,
         threads := s.threads[t := ReadIn(buf)])
  }

  function EndScan(s: State, t: nat, buf: Buffer): State {
    s.(ended := s.ended || buf.last, threads := s.threads[t := Ready(buf)])
  }

  /** Two readers: the owner and the owner of the next buffer, if there will be one. */
  function Publish(s: State, t: nat, buf: Buffer): State {
    s.(buffers := s.buffers[buf.index := Handle(if buf.last then 1 else 2, buf.block)],
       use := s.use[buf.block := Published(buf.index)],
       threads := s.threads[t := if buf.index == 0 then Parsing(buf, 0, 0) else Stitching(buf)])
  }

  function FindPrevious(s: State, t: nat, buf: Buffer): State
    requires buf.index > 0 && buf.index - 1 in s.buffers
  {
    Become(s, t, Holding(buf, s.buffers[buf.index - 1].block))
  }

  /** Reads the previous buffer's memory without a lock. */
  function CopyLine(c: Config, s: State, t: nat, buf: Buffer, previous: nat): State {
    if buf.index == 0 || buf.index - 1 !in s.buffers || s.buffers[buf.index - 1].block != previous
       || previous !in s.memory || buf.block !in s.memory then Become(s, t, Broken)
    else
      var prev, cur := s.memory[previous], s.memory[buf.block];
      if HasNewline(prev) && HasNewline(cur) && |Stitched(prev, cur)| <= c.maxObject
      then Become(s, t, Copied(buf, Stitched(prev, cur)))
      else Become(s, t, Failed(buf.index))
  }

  function DropPrevious(s: State, t: nat, buf: Buffer, line: string): State {
    if buf.index == 0 || buf.index - 1 !in s.buffers || s.buffers[buf.index - 1].readers == 0 then Become(s, t, Broken)
    else
      var p := buf.index - 1;
      var h := s.buffers[p];
      s.(buffers := s.buffers[p := h.(readers := h.readers - 1)], nextDone := s.nextDone + {p},
         threads := s.threads[t := if h.readers == 1 then Removing(buf, line) else Emitting(buf, line)])
  }

  function RemovePrevious(s: State, t: nat, buf: Buffer, line: string): State {
    if buf.index == 0 || buf.index - 1 !in s.buffers then Become(s, t, Broken)
    else
      var p := buf.index - 1;
      s.(buffers := s.buffers - {p}, use := s.use[s.buffers[p].block := Free],
        threads := s.threads[t := Emitting(buf, line)])
  }

  /** The parser rejects a line that is blank. */
  function EmitLine(s: State, t: nat, buf: Buffer, line: string): State {
    if buf.block !in s.memory || !HasNewline(s.memory[buf.block]) || buf.index >= |s.batches| then Become(s, t, Broken)
    else if Blank(line, 0, |line|) then Become(s, t, Failed(buf.index))
    else
      var cur := s.memory[buf.block];
      Emit(s, s.batches[buf.index], [Trim(line, 0, |line|)], t, Parsing(buf, NextNewline(cur, 0, |cur|) + 1, 1))
  }

  function ParseChunk(s: State, t: nat, buf: Buffer, offset: nat, scanCount: nat): State {
    if buf.block !in s.memory || offset > |s.memory[buf.block]| || scanCount > VECTOR_SIZE || buf.index >= |s.batches|
    then Become(s, t, Broken)
    else
      var cur := s.memory[buf.block];
      var r := Chunk(cur, offset, |cur|, VECTOR_SIZE - scanCount, buf.last);
      Emit(s, s.batches[buf.index], r.0, t, Parsing(buf, r.1, 0))
  }

  /** Back to claiming, or on to closing the file after its last buffer. */
  function Onward(last: bool, block: nat): Thread {
    if last then Closing(block) else HasReader(block)
  }

  function Release(s: State, t: nat, buf: Buffer): State {
    if buf.index !in s.buffers || s.buffers[buf.index].readers == 0 then Become(s, t, Broken)
    else
      var h := s.buffers[buf.index];
      var buffers := s.buffers[buf.index := h.(readers := h.readers - 1)];
      var done := s.ownerDone + {buf.index};
      if h.readers == 1 then s.(buffers := buffers, ownerDone := done, threads := s.threads[t := Releasing(buf)])
      else
        s.(buffers := buffers, ownerDone := done, nextBlock := s.nextBlock + 1,
           use := s.use[s.nextBlock := Private(t)], memory := s.memory[s.nextBlock := ""],
           threads := s.threads[t := Onward(buf.last, s.nextBlock)])
  }

  /** The memory of a removed buffer is used again by its owner. */
  function Reuse(s: State, t: nat, buf: Buffer): State {
    if buf.index !in s.buffers then Become(s, t, Broken)
    else
      s.(buffers := s.buffers - {buf.index}, use := s.use[buf.block := Private(t)],
         threads := s.threads[t := Onward(buf.last, buf.block)])
  }

  function Stop(s: State, t: nat, block: nat): State {
    s.(ended := true, threads := s.threads[t := Closing(block)])
  }

  function Close(s: State, t: nat, block: nat): State {
    s.(ended := true, closed := true, threads := s.threads[t := NoReader(block)])
  }

  predicate Terminal(th: Thread) {
    th.Finished? || th.Failed? || th.Broken?
  }

  /** Two steps wait: for the previous buffer, and for the reads in flight before the
      file is closed. */
  predicate Enabled(s: State, t: nat) {
    && t in s.threads
    && !Terminal(s.threads[t])
    && (s.threads[t].Stitching? ==> s.threads[t].buf.index > 0 && s.threads[t].buf.index - 1 in s.buffers)
    && (s.threads[t].Closing? ==> s.requestedReads == s.actualReads)
  }

  function Advance(c: Config, s: State, t: nat): State
    requires Enabled(s, t)
  {
    match s.threads[t]
    case Idle => Start(s, t)
    case NoReader(block) => GetReader(s, t, block)
    case HasReader(block) => if s.readPosition <= |c.file| then ClaimSlice(c, s, t, block) else Become(s, t, Broken)
    case Empty(block) => Stop(s, t, block)
    case Claimed(buf, position) => ReadSlice(c, s, t, buf, position)
    case ReadIn(buf) => EndScan(s, t, buf)
    case Ready(buf) => Publish(s, t, buf)
    case Stitching(buf) => FindPrevious(s, t, buf)
    case Holding(buf, previous) => CopyLine(c, s, t, buf, previous)
    case Copied(buf, line) => DropPrevious(s, t, buf, line)
    case Removing(buf, line) => RemovePrevious(s, t, buf, line)
    case Emitting(buf, line) => EmitLine(s, t, buf, line)
    case Parsing(buf, offset, scanCount) =>
      if offset == buf.size then Release(s, t, buf) else ParseChunk(s, t, buf, offset, scanCount)
    case Releasing(buf) => Reuse(s, t, buf)
    case Closing(block) => Close(s, t, block)
    case _ => s
  }

  /** A schedule in which every step is possible when its turn comes. */
  predicate Feasible(c: Config, s: State, schedule: seq<nat>)
    decreases |schedule|
  {
    schedule == [] || (Enabled(s, schedule[0]) && Feasible(c, Advance(c, s, schedule[0]), schedule[1..]))
  }

  function Run(c: Config, s: State, schedule: seq<nat>): State
    requires Feasible(c, s, schedule)
    decreases |schedule|
  {
    if schedule == [] then s else Run(c, Advance(c, s, schedule[0]), schedule[1..])
  }
}
