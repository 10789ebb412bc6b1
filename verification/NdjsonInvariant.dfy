/** What holds in every state of the parallel scan. The invariant is stated buffer by
    buffer: what is known about buffer `k` depends only on its own entry and on where
    its owner and the owner of the next buffer stand. */
module NdjsonInvariant {
  import opened JsonText
  import opened NdjsonLines
  import opened NdjsonBuffers
  import opened NdjsonScan
  import opened MapSums

  // ---- where a buffer stands ----

  datatype Entry = Absent | Present(handle: Handle)

  predicate Serves(th: Thread, k: nat) {
    (HasBuffer(th) && th.buf.index == k) || th == Failed(k)
  }

  /** The stage of the owner of buffer `k` in its work on that buffer, `Idle` once it
      has moved on. */
  function At(s: State, k: nat): Thread
    requires k < |s.owners|
  {
    var t := s.owners[k];
    if t in s.threads && Serves(s.threads[t], k) then s.threads[t] else Idle
  }

  /** Everything the state says about one buffer. */
  datatype View = View(
    owner: nat, at: Thread, entry: Entry, ownerDone: bool, nextDone: bool,
    out: seq<string>, text: string, use: Use)

  function ViewOf(s: State, k: nat): View
    requires k < |s.owners| == |s.batches|
  {
    var at := At(s, k);
    var entry := if k in s.buffers then Present(s.buffers[k]) else Absent;
    var view := View(s.owners[k], at, entry, k in s.ownerDone, k in s.nextDone, Out(s, s.batches[k]), "", Free);
    if entry.Present? then Fill(s, view, entry.handle.block)
    else if HasBuffer(at) then Fill(s, view, at.buf.block)
    else view
  }

  function Fill(s: State, view: View, block: nat): View {
    view.(text := if block in s.memory then s.memory[block] else "",
          use := if block in s.use then s.use[block] else Free)
  }

  // ---- what is known about one buffer ----

  predicate BufOk(c: Config, k: nat, buf: Buffer) {
    buf.index == k && buf.size == |Text(c, k)| && buf.last == Last(c, k)
  }

  /** Claimed but not in the map yet. */
  predicate Unpublished(v: View) {
    v.entry == Absent && !v.ownerDone && !v.nextDone && v.out == [] && v.use == Private(v.owner)
  }

  /** In the map: the memory still holds the slice, and the count says who may still
      read it. */
  predicate PublishedOk(c: Config, k: nat, v: View) {
    && v.entry.Present?
    && v.use == Published(k)
    && v.text == Text(c, k)
    && v.entry.handle.readers ==
       (if Last(c, k) then 1 else 2) - (if v.ownerDone then 1 else 0) - (if v.nextDone then 1 else 0)
  }

  predicate Owned(c: Config, k: nat, v: View, buf: Buffer) {
    && BufOk(c, k, buf)
    && PublishedOk(c, k, v)
    && !v.ownerDone
    && v.entry.handle.block == buf.block
  }

  predicate Complete(c: Config, k: nat, v: View) {
    v.ownerDone && v.out == Units(c, k) && Joins(c, k)
  }

  predicate OwnOk(c: Config, k: nat, v: View) {
    match v.at
    case Claimed(buf, position) =>
      && BufOk(c, k, buf) && Unpublished(v)
      && position == Position(c.file, Request(c), k)
    case ReadIn(buf) => BufOk(c, k, buf) && Unpublished(v) && v.text == Text(c, k)
    case Ready(buf) => BufOk(c, k, buf) && Unpublished(v) && v.text == Text(c, k)
    case Stitching(buf) => Owned(c, k, v, buf) && v.out == [] && k > 0
    case Holding(buf, _) => Owned(c, k, v, buf) && v.out == [] && k > 0
    case Copied(buf, _) => Owned(c, k, v, buf) && v.out == [] && k > 0
    case Removing(buf, _) => Owned(c, k, v, buf) && v.out == [] && k > 0
    case Emitting(buf, _) => Owned(c, k, v, buf) && v.out == [] && k > 0
    case Parsing(buf, offset, scanCount) =>
      && Owned(c, k, v, buf) && Joins(c, k)
      && offset <= |Text(c, k)| && scanCount <= 1
      && v.out + ParseUnits(Text(c, k), offset, |Text(c, k)|, Last(c, k)) == Units(c, k)
    case Releasing(buf) =>
      && BufOk(c, k, buf) && PublishedOk(c, k, v) && Complete(c, k, v)
      && v.entry.handle.block == buf.block && v.entry.handle.readers == 0
    case Failed(_) => PublishedOk(c, k, v) && !v.ownerDone && k > 0
    case Idle =>
      && Complete(c, k, v)
      && (v.entry.Present? ==> PublishedOk(c, k, v) && !Last(c, k))
      && (v.entry.Absent? ==> Last(c, k) || v.nextDone)
    case _ => false
  }

  predicate LineOk(c: Config, k: nat, line: string) {
    && k > 0 && HasNewline(Text(c, k - 1)) && HasNewline(Text(c, k))
    && line == Stitched(Text(c, k - 1), Text(c, k))
    && |line| <= c.maxObject
  }

  /** Buffer `k` against the owner of buffer `k + 1`. */
  predicate LinkOk(c: Config, k: nat, v: View, w: View) {
    && (match w.at
        case Claimed(_, _) => !v.nextDone
        case ReadIn(_) => !v.nextDone
        case Ready(_) => !v.nextDone
        case Stitching(_) => !v.nextDone
        case Holding(_, previous) => !v.nextDone && v.entry.Present? && v.entry.handle.block == previous
        case Copied(_, line) => !v.nextDone && v.entry.Present? && LineOk(c, k + 1, line)
        case Removing(_, line) =>
          && v.nextDone && v.ownerDone && !v.at.Releasing? && v.entry.Present? && v.entry.handle.readers == 0
          && LineOk(c, k + 1, line)
        case Emitting(_, line) => v.nextDone && LineOk(c, k + 1, line)
        case Failed(_) => true
        case _ => v.nextDone)
    && (v.entry.Present? && v.entry.handle.readers == 0 ==> v.at.Releasing? || w.at.Removing?)
  }

  // ---- counters and threads ----

  predicate CountersOk(c: Config, s: State) {
    && |s.batches| == |s.owners|
    && s.readPosition == Position(c.file, Request(c), |s.owners|)
    && (forall j, k :: 0 <= j < k < |s.batches| && Real(c, j) ==> s.batches[j] < s.batches[k])
    && (forall k :: 0 <= k < |s.batches| && Real(c, k) ==> s.batches[k] < s.batchIndex)
    && (forall k :: 0 <= k < |s.owners| ==> s.owners[k] in s.threads)
    && (forall k :: k in s.buffers ==> k < |s.owners| && Real(c, k))
    && (forall k :: k in s.ownerDone ==> k < |s.owners|)
    && (forall k :: k in s.nextDone ==> k + 1 < |s.owners| && Real(c, k + 1))
    && (s.ended || s.closed ==> s.readPosition == |c.file|)
    && (s.closed ==> s.requestedReads == s.actualReads)
    && (forall b :: b in s.use ==> b < s.nextBlock)
  }

  /** Units are filed only under the batch index of a buffer. */
  predicate OutputOk(c: Config, s: State)
    requires |s.batches| == |s.owners|
  {
    forall b :: b in s.output ==> exists k :: 0 <= k < |s.batches| && Real(c, k) && s.batches[k] == b
  }

  function InFlight(th: Thread): int {
    if th.Claimed? then 1 else 0
  }

  ghost predicate ReadsOk(s: State) {
    s.requestedReads == s.actualReads + Sum(s.threads, InFlight)
  }

  predicate KeepsBlock(th: Thread) {
    th.NoReader? || th.HasReader? || th.Empty? || th.Closing?
  }

  predicate ThreadOk(c: Config, s: State, t: nat)
    requires t in s.threads
  {
    var th := s.threads[t];
    && !th.Broken?
    && (HasBuffer(th) ==>
          th.buf.index < |s.owners| && s.owners[th.buf.index] == t && Real(c, th.buf.index)
            && BufOk(c, th.buf.index, th.buf))
    && (th.Failed? ==>
          th.index < |s.owners| && s.owners[th.index] == t && Real(c, th.index) && !Joins(c, th.index))
    && (KeepsBlock(th) ==> th.block in s.use && s.use[th.block] == Private(t))
    && (th.Empty? || th.Closing? ==> s.readPosition == |c.file|)
    && (th.Finished? ==> s.ended)
  }

  ghost predicate Inv(c: Config, s: State) {
    && Request(c) > 0
    && CountersOk(c, s)
    && OutputOk(c, s)
    && ReadsOk(s)
    && (forall t :: t in s.threads ==> ThreadOk(c, s, t))
    && (forall k :: 0 <= k < |s.owners| && Real(c, k) ==> OwnOk(c, k, ViewOf(s, k)))
    && (forall k :: 0 <= k < |s.owners| - 1 && Real(c, k + 1) ==> LinkOk(c, k, ViewOf(s, k), ViewOf(s, k + 1)))
  }

  // ---- what a step leaves alone ----

  predicate ServesOnly(th: Thread, J: set<nat>) {
    (HasBuffer(th) ==> th.buf.index in J) && (th.Failed? ==> th.index in J)
  }

  /** A step of thread `t` that only concerns the buffers in `J`. */
  ghost predicate Touches(s: State, s': State, t: nat, J: set<nat>) {
    && t in s.threads && t in s'.threads
    && s'.threads == s.threads[t := s'.threads[t]]
    && ServesOnly(s.threads[t], J) && ServesOnly(s'.threads[t], J)
    && |s.batches| == |s.owners| && |s'.batches| == |s'.owners|
    && s.owners <= s'.owners && s.batches <= s'.batches
    && s.readPosition <= s'.readPosition && (s.ended ==> s'.ended)
    && (forall j :: 0 <= j < |s.owners| && j !in J ==>
          && (j in s.buffers <==> j in s'.buffers)
          && (j in s.buffers ==> s'.buffers[j] == s.buffers[j])
          && (j in s.ownerDone <==> j in s'.ownerDone)
          && (j in s.nextDone <==> j in s'.nextDone))
    && (forall j :: 0 <= j < |s.owners| && j !in J ==> Out(s', s.batches[j]) == Out(s, s.batches[j]))
    && (forall b :: b in s.use && Foreign(s.use[b], t, J) ==>
          b in s'.use && s'.use[b] == s.use[b] && (b in s.memory <==> b in s'.memory))
    && (forall b :: b in s.use && Foreign(s.use[b], t, J) && b in s.memory ==> s'.memory[b] == s.memory[b])
  }

  predicate Foreign(u: Use, t: nat, J: set<nat>) {
    (u.Private? && u.thread != t) || (u.Published? && u.index !in J)
  }

  lemma AtFrame(s: State, s': State, t: nat, J: set<nat>, j: nat)
    requires Touches(s, s', t, J) && j < |s.owners| && j !in J
    ensures At(s', j) == At(s, j)
  {
    assert s'.owners[j] == s.owners[j];
  }

  /** Which block a buffer uses, and who may write it. */
  lemma OwnUse(c: Config, k: nat, v: View)
    requires OwnOk(c, k, v)
    ensures v.entry.Present? ==> v.use == Published(k)
    ensures v.entry.Absent? && HasBuffer(v.at) ==> v.use == Private(v.owner)
  {
    hide Text, Last, Units, Joins, ParseUnits;
  }

  lemma ViewFrame(c: Config, s: State, s': State, t: nat, J: set<nat>, j: nat)
    requires Touches(s, s', t, J) && j < |s.owners| && j !in J
    requires OwnOk(c, j, ViewOf(s, j))
    ensures ViewOf(s', j) == ViewOf(s, j)
  {
    hide OwnOk;
    AtFrame(s, s', t, J, j);
    OwnUse(c, j, ViewOf(s, j));
    assert s'.owners[j] == s.owners[j] && s'.batches[j] == s.batches[j];
  }

  lemma ThreadFrame(c: Config, s: State, s': State, t: nat, J: set<nat>, u: nat)
    requires Inv(c, s) && Touches(s, s', t, J) && u in s.threads && u != t
    requires s.readPosition == |c.file| ==> s'.readPosition == |c.file|
    ensures u in s'.threads && ThreadOk(c, s', u)
  {
    hide Real, Text, Last, Units, Joins;
    assert ThreadOk(c, s, u);
  }

  /** It remains to look at the buffers in `J`, their neighbours and thread `t`. */
  lemma Frame(c: Config, s: State, s': State, t: nat, J: set<nat>)
    requires Inv(c, s) && Touches(s, s', t, J)
    requires CountersOk(c, s') && OutputOk(c, s') && ReadsOk(s')
    requires ThreadOk(c, s', t)
    requires forall j :: 0 <= j < |s'.owners| && Real(c, j) && (j in J || j >= |s.owners|) ==>
      OwnOk(c, j, ViewOf(s', j))
    requires forall j :: 0 <= j < |s'.owners| - 1 && Real(c, j + 1) && (j in J || j + 1 in J || j + 1 >= |s.owners|) ==>
      LinkOk(c, j, ViewOf(s', j), ViewOf(s', j + 1))
    ensures Inv(c, s')
  {
    hide Real, Text, Last, Units, Joins, OwnOk, LinkOk, ViewOf, Position, OutputOk, ReadsOk, Touches;
    forall u | u in s'.threads
      ensures ThreadOk(c, s', u)
    {
      if u != t {
        assert u in s.threads by { TouchesThreads(s, s', t, J); }
        ThreadFrame(c, s, s', t, J, u) by { ReadToEnd(c, s, s', t, J); }
      }
    }
    forall j | 0 <= j < |s'.owners| && Real(c, j)
      ensures OwnOk(c, j, ViewOf(s', j))
    {
      if j !in J && j < |s.owners| {
        ViewFrame(c, s, s', t, J, j);
      }
    }
    forall j | 0 <= j < |s'.owners| - 1 && Real(c, j + 1)
      ensures LinkOk(c, j, ViewOf(s', j), ViewOf(s', j + 1))
    {
      if j !in J && j + 1 !in J && j + 1 < |s.owners| {
        RealBefore(c, j);
        ViewFrame(c, s, s', t, J, j);
        ViewFrame(c, s, s', t, J, j + 1);
      }
    }
  }

  lemma TouchesThreads(s: State, s': State, t: nat, J: set<nat>)
    requires Touches(s, s', t, J)
    ensures s'.threads.Keys == s.threads.Keys
  {
  }

  lemma ReadToEnd(c: Config, s: State, s': State, t: nat, J: set<nat>)
    requires CountersOk(c, s) && CountersOk(c, s') && Touches(s, s', t, J)
    ensures s.readPosition == |c.file| ==> s'.readPosition == |c.file|
  {
  }

  lemma RealBefore(c: Config, k: nat)
    requires Real(c, k + 1)
    ensures Real(c, k) && !Last(c, k)
  {
    PositionStep(c.file, Request(c), k);
    PositionStep(c.file, Request(c), k + 1);
  }

  lemma {:induction false} RealDown(c: Config, j: nat, k: nat)
    requires j <= k && Real(c, k)
    ensures Real(c, j)
    decreases k - j
  {
    hide Real;
    if j < k {
      RealBefore(c, k - 1);
      RealDown(c, j, k - 1);
    }
  }
}
