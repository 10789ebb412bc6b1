/** What holds of every handle and of the pool in every state of the upload protocol. */
module UploadInvariant {
  import opened UploadProtocol
  import opened MapSums

  // ---- uploads, counted and concatenated ----

  function Total(us: seq<Upload>, n: nat, w: Stage -> int): int
    requires n <= |us|
  {
    if n == 0 then 0 else Total(us, n - 1, w) + w(us[n - 1].stage)
  }

  /** The bytes of the first `n` uploads. */
  function Sent(us: seq<Upload>, n: nat): string
    requires n <= |us|
  {
    if n == 0 then "" else Sent(us, n - 1) + us[n - 1].data
  }

  predicate Failing(stage: Stage) { stage.Raising? || stage.Settling? || stage.Lost? }
  predicate HasTag(stage: Stage) { stage.Tagged? || stage.Counted? || stage.Freed? || stage.Finished? }

  function Live(stage: Stage): int { if Done(stage) then 0 else 1 }
  function PastCount(stage: Stage): int { if stage.Counted? || stage.Freed? || stage.Finished? then 1 else 0 }
  function Unreported(stage: Stage): int { if stage.Raising? then 1 else 0 }
  /** Which uploads hold a slot; one that has failed holds it for ever. */
  function SlotOf(stage: Stage): int { if stage.Freed? || stage.Finished? then 0 else 1 }

  predicate AllFinished(h: Handle) {
    forall i :: 0 <= i < |h.uploads| ==> h.uploads[i].stage.Finished?
  }

  // ---- one handle ----

  predicate UploadsOk(us: seq<Upload>, hasError: bool) {
    forall i :: 0 <= i < |us| ==> us[i].part == i && us[i].data != "" && (Failing(us[i].stage) ==> hasError)
  }

  predicate CountsOk(h: Handle) {
    var n := |h.uploads|;
    && n < PART_LIMIT
    && h.inProgress == Total(h.uploads, n, Live)
    && h.partsUploaded == Total(h.uploads, n, PastCount)
    && Total(h.uploads, n, Unreported) == (if h.hasError && !h.exception then 1 else 0)
    && (h.exception ==> h.hasError)
  }

  predicate TagsOk(us: seq<Upload>, etags: map<nat, string>) {
    && (forall i :: i in etags ==> i < |us| && HasTag(us[i].stage) && etags[i] == us[i].data)
    && (forall i :: 0 <= i < |us| && HasTag(us[i].stage) ==> i in etags)
  }

  function Pending(h: Handle): string {
    if |h.uploads| in h.buffers then h.buffers[|h.uploads|].bytes else ""
  }

  /** Only the part after the last upload has a buffer; nothing is lost or sent twice. */
  predicate DataOk(h: Handle) {
    && (forall p :: p in h.buffers ==> p == |h.uploads| < PART_LIMIT - 1)
    && (forall p :: p in h.buffers ==> h.buffers[p].filled == |h.buffers[p].bytes| <= h.partSize)
    && h.accepted == Sent(h.uploads, |h.uploads|) + Pending(h)
  }

  predicate FullParts(h: Handle) {
    |Sent(h.uploads, |h.uploads|)| == |h.uploads| * h.partSize
  }

  /** The next part has a buffer, which is not being sent. */
  predicate HasBuffer(h: Handle) {
    |h.uploads| in h.buffers && !h.buffers[|h.uploads|].uploading
  }

  predicate Between(h: Handle) {
    && FullParts(h) && !h.finalized && h.fileOffset == |h.accepted|
    && (h.buffers != map[] ==> HasBuffer(h) && 0 < |Pending(h)| < h.partSize)
  }

  predicate Room(h: Handle, w: Progress, copied: nat) {
    && w.written + copied <= |w.data|
    && |h.accepted| + |w.data| - (w.written + copied) <= PART_LIMIT * h.partSize - h.partSize
  }

  predicate Aligned(h: Handle, w: Progress) {
    && FullParts(h) && !h.finalized && h.fileOffset == |h.accepted|
    && w.location + w.written == h.fileOffset && w.written < |w.data| && Room(h, w, 0)
  }

  /** A buffer that is left behind belongs to a handle that has failed. */
  predicate LeftBehind(h: Handle) {
    forall p :: p in h.buffers ==> h.buffers[p].filled > 0 && (h.buffers[p].uploading ==> h.hasError)
  }

  predicate AfterOk(h: Handle, after: After) {
    match after
    case Resume(w, n) =>
      FullParts(h) && |Pending(h)| == h.partSize && h.fileOffset + n == |h.accepted| && Room(h, w, n)
    case Rest(_, todo) => todo == {}
  }

  predicate WriterOk(h: Handle) {
    match h.writer
    case Open => Between(h)
    case Writing(w) => Between(h) && Room(h, w, 0)
    case Blocked(w, part) => Aligned(h, w) && h.buffers == map[] && part == |h.uploads|
    case Starved(w, part, _) => Aligned(h, w) && h.buffers == map[] && part == |h.uploads|
    case Granted(w, part) => Aligned(h, w) && h.buffers == map[] && part == |h.uploads|
    case Holding(w, part) => Aligned(h, w) && HasBuffer(h) && part == |h.uploads| && |Pending(h)| < h.partSize
    case Flushing(part, after) =>
      !h.finalized && HasBuffer(h) && part == |h.uploads| && Pending(h) != "" && AfterOk(h, after)
    case Launching(part, after) =>
      !h.finalized && part == |h.uploads| && part in h.buffers && Pending(h) != "" && AfterOk(h, after)
    case FlushAll(_, todo) =>
      && !h.finalized && LeftBehind(h) && todo <= h.buffers.Keys
      && (forall p :: p in h.buffers && p !in todo ==> h.hasError)
    case Barrier(_) => !h.finalized && LeftBehind(h) && (h.buffers != map[] ==> h.hasError)
    case Completing(_) => !h.finalized && !h.hasError && h.buffers == map[] && AllFinished(h)
    case Ended => h.buffers == map[] && !h.hasError && AllFinished(h) && (h.accepted != "" ==> h.finalized)
    case Threw => LeftBehind(h)
    case Terminated => !h.finalized
    case Broken => false
  }

  /** Once the completion request is out, everything has been stored. */
  predicate RequestOk(h: Handle) {
    && (h.finalized ==> (h.writer.Ended? || h.writer.Threw?) && h.buffers == map[] && !h.hasError && AllFinished(h))
    && (h.finalized ==> |h.requests| == 1 && BodyIs(h.requests[0], h.uploads))
    && (!h.finalized ==> h.requests == [])
  }

  predicate BodyIs(body: seq<Part>, us: seq<Upload>) {
    |body| == |us| && forall i :: 0 <= i < |us| ==> body[i] == Part(i + 1, us[i].data)
  }

  predicate HandleOk(h: Handle) {
    && h.partSize > 0
    && UploadsOk(h.uploads, h.hasError) && CountsOk(h) && TagsOk(h.uploads, h.etags)
    && DataOk(h) && WriterOk(h) && RequestOk(h)
  }

  // ---- the pool ----

  function Slots(h: Handle): int {
    Total(h.uploads, |h.uploads|, SlotOf) + |h.buffers| + if h.writer.Starved? || h.writer.Granted? then 1 else 0
  }

  function Waits(h: Handle): int {
    if h.writer.Starved? then 1 else 0
  }

  ghost predicate Inv(limit: nat, s: State) {
    && (forall h :: h in s.handles ==> HandleOk(s.handles[h]))
    && s.pool.inUse == Sum(s.handles, Slots)
    && s.pool.waiting == Sum(s.handles, Waits)
    && s.pool.inUse <= limit
  }

  // ---- facts about counts ----

  lemma {:induction false} TotalSet(us: seq<Upload>, n: nat, i: nat, u: Upload, w: Stage -> int)
    requires n <= |us| && i < |us|
    ensures Total(us[i := u], n, w) == Total(us, n, w) + if i < n then w(u.stage) - w(us[i].stage) else 0
    decreases n
  {
    if n > 0 {
      TotalSet(us, n - 1, i, u, w);
    }
  }

  lemma {:induction false} TotalKeep(us: seq<Upload>, u: Upload, n: nat, w: Stage -> int)
    requires n <= |us|
    ensures Total(us + [u], n, w) == Total(us, n, w)
    decreases n
  {
    if n > 0 {
      TotalKeep(us, u, n - 1, w);
    }
  }

  lemma TotalAppend(us: seq<Upload>, u: Upload, w: Stage -> int)
    ensures Total(us + [u], |us| + 1, w) == Total(us, |us|, w) + w(u.stage)
  {
    TotalKeep(us, u, |us|, w);
  }

  lemma {:induction false} TotalAtLeast(us: seq<Upload>, n: nat, i: nat, w: Stage -> int)
    requires i < n <= |us|
    requires forall st :: w(st) >= 0
    ensures Total(us, n, w) >= w(us[i].stage)
    decreases n
  {
    TotalNatural(us, n - 1, w);
    if i < n - 1 {
      TotalAtLeast(us, n - 1, i, w);
    }
  }

  lemma {:induction false} TotalNatural(us: seq<Upload>, n: nat, w: Stage -> int)
    requires n <= |us|
    requires forall st :: w(st) >= 0
    ensures Total(us, n, w) >= 0
    decreases n
  {
    if n > 0 {
      TotalNatural(us, n - 1, w);
    }
  }

  lemma {:induction false} TotalConst(us: seq<Upload>, n: nat, w: Stage -> int, k: int)
    requires n <= |us| && forall i :: 0 <= i < n ==> w(us[i].stage) == k
    ensures Total(us, n, w) == k * n
    decreases n
  {
    if n > 0 {
      TotalConst(us, n - 1, w, k);
    }
  }

  lemma {:induction false} TotalAtMost(us: seq<Upload>, n: nat, w: Stage -> int)
    requires n <= |us| && forall st :: w(st) <= 1
    ensures Total(us, n, w) <= n
    decreases n
  {
    if n > 0 {
      TotalAtMost(us, n - 1, w);
    }
  }

  lemma {:induction false} SentSame(us: seq<Upload>, vs: seq<Upload>, n: nat)
    requires n <= |us| && n <= |vs|
    requires forall i :: 0 <= i < n ==> us[i].data == vs[i].data
    ensures Sent(us, n) == Sent(vs, n)
    decreases n
  {
    if n > 0 {
      SentSame(us, vs, n - 1);
    }
  }

  lemma {:induction false} TotalMono(us: seq<Upload>, n: nat, w: Stage -> int, v: Stage -> int)
    requires n <= |us| && forall st :: w(st) <= v(st)
    ensures Total(us, n, w) <= Total(us, n, v)
    decreases n
  {
    if n > 0 {
      TotalMono(us, n - 1, w, v);
    }
  }
}
