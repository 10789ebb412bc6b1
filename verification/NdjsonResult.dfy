/** What is left when the parallel scan is over: the units in batch order are the lines
    of the file, whatever the schedule was. */
module NdjsonResult {
  import opened JsonText
  import opened NdjsonLines
  import opened NdjsonBuffers
  import opened NdjsonScan
  import opened NdjsonInvariant
  import opened NdjsonSteps
  import opened NdjsonProgress
  import opened Arithmetic

  ghost predicate Over(s: State) {
    forall t :: t in s.threads ==> !Enabled(s, t)
  }

  ghost predicate AllFinished(s: State) {
    forall t :: t in s.threads ==> s.threads[t].Finished?
  }

  ghost predicate AllBoundariesOk(c: Config)
    requires Request(c) > 0
  {
    BoundariesOk(c.file, Request(c), c.maxObject, NumBuffers(c))
  }

  /** The output of the first `n` batches. */
  function InBatchOrder(s: State, n: nat): seq<string> {
    if n == 0 then [] else InBatchOrder(s, n - 1) + Out(s, n - 1)
  }

  // ---- the threads stay the same ----

  lemma StepThreads(c: Config, s: State, t: nat)
    requires Inv(c, s) && Enabled(s, t)
    ensures Advance(c, s, t).threads.Keys == s.threads.Keys
  {
    hide Inv, Advance, Weight;
    if s.threads[t].HasReader? {
      ClaimPays(c, s, t);
    } else {
      StepPays(c, s, t);
    }
  }

  lemma {:induction false} RunThreads(c: Config, s: State, schedule: seq<nat>)
    requires Inv(c, s) && Feasible(c, s, schedule)
    ensures Run(c, s, schedule).threads.Keys == s.threads.Keys
    decreases |schedule|
  {
    hide Inv, Advance, Enabled;
    if schedule != [] {
      StepInv(c, s, schedule[0]);
      StepThreads(c, s, schedule[0]);
      RunThreads(c, Advance(c, s, schedule[0]), schedule[1..]);
    }
  }

  // ---- every buffer is complete ----

  lemma AllClaimed(c: Config, s: State, t: nat)
    requires Inv(c, s) && AllFinished(s) && t in s.threads
    ensures |s.batches| == |s.owners| && NumBuffers(c) <= |s.owners|
  {
    hide Inv, Real, OutputOk, ReadsOk, OwnOk, LinkOk, ViewOf, NumBuffers;
    Known(c, s, t);
    RealIff(c, |s.owners|);
  }

  lemma BufferComplete(c: Config, s: State, k: nat)
    requires Inv(c, s) && AllFinished(s) && k < |s.owners| && Real(c, k)
    ensures |s.batches| == |s.owners| && ViewOf(s, k).at == Idle
    ensures Complete(c, k, ViewOf(s, k)) && Out(s, s.batches[k]) == Units(c, k)
  {
    hide Inv, Real, Units, Text, Last, Joins, ParseUnits;
    BufferKnown(c, s, k);
    assert s.owners[k] in s.threads by { OwnerThere(c, s, k); }
  }

  lemma OwnerThere(c: Config, s: State, k: nat)
    requires Inv(c, s) && k < |s.owners|
    ensures s.owners[k] in s.threads
  {
    hide OwnOk, LinkOk, ViewOf, Real, OutputOk, ReadsOk, ThreadOk;
  }

  lemma BoundariesWereOk(c: Config, s: State, t: nat)
    requires Request(c) > 0 && Inv(c, s) && AllFinished(s) && t in s.threads
    ensures AllBoundariesOk(c)
  {
    hide Inv, Real, Units, Text, Last, NumBuffers, BoundaryOk, ViewOf;
    AllClaimed(c, s, t);
    forall k | 1 <= k < NumBuffers(c)
      ensures BoundaryOk(c.file, Request(c), c.maxObject, k)
    {
      RealIff(c, k);
      BufferComplete(c, s, k);
    }
  }

  /** A thread that fails has met a boundary that cannot be joined. */
  lemma FailureHasCause(c: Config, s: State, t: nat)
    requires Inv(c, s) && t in s.threads && s.threads[t].Failed?
    ensures !AllBoundariesOk(c)
  {
    hide Inv, Real, NumBuffers, BoundaryOk;
    Known(c, s, t);
    RealIff(c, s.threads[t].index);
  }

  // ---- batch order ----

  lemma OutsideBatches(c: Config, s: State, b: nat)
    requires |s.batches| == |s.owners| && OutputOk(c, s)
    requires forall k :: 0 <= k < |s.batches| && Real(c, k) ==> s.batches[k] != b
    ensures Out(s, b) == []
  {
    hide Real;
  }

  lemma BatchFacts(c: Config, s: State, k: nat)
    requires Inv(c, s) && k < |s.batches|
    ensures forall j :: 0 <= j < k && Real(c, j) ==> s.batches[j] < s.batches[k]
    ensures Real(c, k) ==> s.batches[k] < s.batchIndex
    ensures |s.batches| == |s.owners| && OutputOk(c, s)
  {
    hide OwnOk, LinkOk, ViewOf, Real, OutputOk, ReadsOk, ThreadOk, Position;
  }

  /** Batch indices grow with buffer indices, so that the first `n` batches are the
      first `m` buffers. */
  lemma {:induction false} BatchOrder(c: Config, s: State, n: nat, m: nat)
    requires Request(c) > 0 && Inv(c, s) && AllFinished(s) && m <= NumBuffers(c) <= |s.owners| == |s.batches|
    requires forall k :: 0 <= k < m ==> s.batches[k] < n
    requires forall k :: m <= k < NumBuffers(c) ==> s.batches[k] >= n
    ensures InBatchOrder(s, n) == UnitsUpTo(c.file, Request(c), m)
    decreases n
  {
    hide Inv, AllFinished, Real, NumBuffers, Out, BufferUnits;
    if n == 0 {
      assert m == 0;
    } else if m > 0 && s.batches[m - 1] == n - 1 {
      RealIff(c, m - 1);
      BufferComplete(c, s, m - 1);
      EarlierBatches(c, s, m);
      BatchOrder(c, s, n - 1, m - 1);
    } else {
      NoSuchBatch(c, s, n - 1, m);
      BatchOrder(c, s, n - 1, m);
    }
  }

  lemma EarlierBatches(c: Config, s: State, m: nat)
    requires Request(c) > 0 && Inv(c, s) && 0 < m <= NumBuffers(c) <= |s.owners| == |s.batches|
    ensures forall k :: 0 <= k < m - 1 ==> s.batches[k] < s.batches[m - 1]
  {
    hide Inv, Real, NumBuffers;
    BatchFacts(c, s, m - 1);
    forall k | 0 <= k < m - 1
      ensures Real(c, k)
    {
      RealIff(c, k);
    }
  }

  lemma NoSuchBatch(c: Config, s: State, b: nat, m: nat)
    requires Request(c) > 0 && Inv(c, s) && m <= NumBuffers(c) <= |s.owners| == |s.batches|
    requires forall k :: 0 <= k < m ==> s.batches[k] < b + 1
    requires forall k :: m <= k < NumBuffers(c) ==> s.batches[k] >= b + 1
    requires m > 0 ==> s.batches[m - 1] != b
    ensures Out(s, b) == []
    ensures forall k :: 0 <= k < m ==> s.batches[k] < b
  {
    hide Inv, Real, NumBuffers, Out, OutputOk;
    if m > 0 {
      EarlierBatches(c, s, m);
    }
    forall k | 0 <= k < |s.batches| && Real(c, k)
      ensures s.batches[k] != b
    {
      RealIff(c, k);
    }
    OutputKnown(c, s);
    OutsideBatches(c, s, b);
  }

  lemma OutputKnown(c: Config, s: State)
    requires Inv(c, s)
    ensures |s.batches| == |s.owners| && OutputOk(c, s)
  {
    hide OwnOk, LinkOk, ViewOf, Real, OutputOk, ReadsOk, ThreadOk, Position;
  }

  lemma AllBatches(c: Config, s: State)
    requires Request(c) > 0 && Inv(c, s) && NumBuffers(c) <= |s.owners| == |s.batches|
    ensures forall k :: 0 <= k < NumBuffers(c) ==> s.batches[k] < s.batchIndex
  {
    hide Inv, Real, NumBuffers, OutputOk;
    forall k | 0 <= k < NumBuffers(c)
      ensures s.batches[k] < s.batchIndex
    {
      RealIff(c, k);
      BatchFacts(c, s, k);
    }
  }

  // ---- what is left over ----

  /** The file ends exactly where a read request ends. */
  predicate EndsOnRequest(c: Config)
    requires Request(c) > 0
  {
    |c.file| > 0 && |c.file| % Request(c) == 0
  }

  lemma LastBuffer(c: Config, k: nat)
    requires Request(c) > 0 && k + 1 == NumBuffers(c)
    ensures Last(c, k) <==> !EndsOnRequest(c)
    ensures Position(c.file, Request(c), k + 1) == |c.file|
    ensures |c.file| > 0
  {
    var n, r := |c.file|, Request(c);
    Ceiling(n, r);
    Multiples(k, NumBuffers(c), r);
    WholeMultiple(n, r, k);
  }

  lemma WholeMultiple(n: nat, r: nat, k: nat)
    requires r > 0 && k * r < n <= k * r + r
    ensures n % r == 0 <==> n == k * r + r
  {
    if n == k * r + r {
      Divide(n, r, k + 1, 0);
    } else {
      Divide(n, r, k, n - k * r);
    }
  }

  /** Of all buffers only the last one can be left in the map, and it is left exactly
      when the file ends where a request ends: its second reader never comes. */
  lemma BufferLeft(c: Config, s: State, t: nat, k: nat)
    requires Request(c) > 0 && Inv(c, s) && AllFinished(s) && t in s.threads
    ensures k in s.buffers <==> k + 1 == NumBuffers(c) && EndsOnRequest(c)
  {
    hide Inv, AllFinished, NumBuffers, EndsOnRequest, ViewOf, Units, Joins, ParseUnits, Real, Text, Last;
    AllClaimed(c, s, t);
    RealIff(c, k);
    RealIff(c, k + 1);
    if k >= NumBuffers(c) {
      NotInMap(c, s, k);
    } else {
      BufferComplete(c, s, k);
      BufferKnown(c, s, k);
      ViewShows(s, k);
      if k + 1 < NumBuffers(c) {
        BufferComplete(c, s, k + 1);
        LinkKnown(c, s, k);
      } else {
        LastBuffer(c, k);
        NotInMap(c, s, k);
      }
    }
  }

  lemma ViewShows(s: State, k: nat)
    requires k < |s.owners| == |s.batches|
    ensures ViewOf(s, k).entry.Present? <==> k in s.buffers
    ensures ViewOf(s, k).nextDone <==> k in s.nextDone
  {
  }

  lemma NotInMap(c: Config, s: State, k: nat)
    requires Inv(c, s)
    ensures k in s.buffers ==> Real(c, k)
    ensures k in s.nextDone ==> Real(c, k + 1)
  {
    hide OwnOk, LinkOk, ViewOf, Real, OutputOk, ReadsOk, ThreadOk, Position;
  }

  lemma LinkKnown(c: Config, s: State, k: nat)
    requires Inv(c, s) && k + 1 < |s.owners| && Real(c, k + 1)
    ensures |s.batches| == |s.owners| && LinkOk(c, k, ViewOf(s, k), ViewOf(s, k + 1))
  {
    hide OwnOk, LinkOk, ViewOf, Real, OutputOk, ReadsOk, ThreadOk, Position;
  }

  // ---- which lines are delivered ----

  /** The file ends where a request ends, and not with a newline: the owner of the last
      buffer expects the rest of the line from a buffer that does not exist. */
  predicate LosesTail(c: Config)
    requires Request(c) > 0
  {
    EndsOnRequest(c) && !Blank(c.file, Covered(c.file, Request(c), NumBuffers(c)), |c.file|)
  }

  lemma CoveredAll(c: Config)
    requires Request(c) > 0 && AllBoundariesOk(c)
    ensures var n := Covered(c.file, Request(c), NumBuffers(c));
      && (n > 0 && (n < |c.file| || EndsOnRequest(c)) ==> c.file[n - 1] == '\n')
      && (!EndsOnRequest(c) ==> n == |c.file|)
      && NextNewline(c.file, n, |c.file|) == |c.file|
  {
    hide NumBuffers, EndsOnRequest, AfterLastNewline, NextNewline, BoundaryOk;
    var m := NumBuffers(c);
    if m == 0 {
      RealIff(c, 0);
    } else {
      LastBuffer(c, m - 1);
      var p := Position(c.file, Request(c), m - 1);
      NoNewlineAfterLast(c.file, p, |c.file|);
      AtEnd(c.file);
      if m > 1 {
        assert BoundaryOk(c.file, Request(c), c.maxObject, m - 1);
        CrossesInto(c, m - 1);
      }
    }
  }

  lemma AtEnd(s: string)
    ensures NextNewline(s, |s|, |s|) == |s|
  {
  }

  /** The last buffer holds the newline that ends the line crossing into it. */
  lemma CrossesInto(c: Config, k: nat)
    requires Request(c) > 0 && k > 0 && BoundaryOk(c.file, Request(c), c.maxObject, k)
    ensures var p, r := Position(c.file, Request(c), k), Position(c.file, Request(c), k + 1);
      p <= r && AfterLastNewline(c.file, p, r) > p
  {
    hide Stitched, Blank, AfterLastNewline, HasNewline, Position;
    var p, r := Position(c.file, Request(c), k), Position(c.file, Request(c), k + 1);
    PositionStep(c.file, Request(c), k);
    assert HasNewline(c.file[p..r]);
    hide BoundaryOk, Request;
    NewlineIn(c.file, p, r);
  }

  lemma NewlineIn(file: string, p: nat, r: nat)
    requires p <= r <= |file| && HasNewline(file[p..r])
    ensures AfterLastNewline(file, p, r) > p
  {
    hide AfterLastNewline, HasNewline, Same;
    WindowSame(file, p, r);
    AfterLastIsNewline(file[p..r]);
    SameAfterLast(file[p..r], 0, r - p, file, p);
  }

  /** The covered lines are all lines exactly if no tail is lost. */
  lemma LinesDelivered(c: Config)
    requires Request(c) > 0 && AllBoundariesOk(c)
    ensures var n := Covered(c.file, Request(c), NumBuffers(c));
      Lines(c.file, 0, n) == Lines(c.file, 0, |c.file|) <==> !LosesTail(c)
  {
    hide NumBuffers, Covered, NextNewline, Blank, Trim, BoundariesOk;
    var n := Covered(c.file, Request(c), NumBuffers(c));
    CoveredAll(c);
    if n < |c.file| {
      LinesSplit(c.file, 0, n, |c.file|);
    } else {
      EmptyBlank(c.file);
    }
  }

  // ---- the conditions, character by character ----

  /** Of two buffers `[q, p)` and `[p, e)`: the last newline of the first and the first one
      of the second. The line between them, with both, fits and is not blank. */
  predicate Crossing(s: string, q: nat, p: nat, e: nat, maxObject: nat, a: nat, b: nat) {
    && q <= a < p <= b < e <= |s|
    && s[a] == '\n' && NoNewline(s, a + 1, p) && NoNewline(s, p, b) && s[b] == '\n'
    && b + 1 - a <= maxObject && !AllWhite(s, a, b + 1)
  }

  ghost predicate Crosses(s: string, q: nat, p: nat, e: nat, maxObject: nat) {
    exists a, b :: Crossing(s, q, p, e, maxObject, a, b)
  }

  /** There is a line that crosses into buffer `k` and can be rebuilt. */
  ghost predicate CanCross(c: Config, k: nat) {
    var p := k * Request(c);
    p >= Request(c) && Crosses(c.file, p - Request(c), p, Min(p + Request(c), |c.file|), c.maxObject)
  }

  lemma NewlineAt(s: string, lo: nat, k: nat, hi: nat)
    requires lo <= k < hi <= |s| && s[k] == '\n'
    ensures NextNewline(s, lo, hi) <= k < AfterLastNewline(s, lo, hi)
    ensures NoNewline(s, lo, k) ==> NextNewline(s, lo, hi) == k
    ensures NoNewline(s, k + 1, hi) ==> AfterLastNewline(s, lo, hi) == k + 1
  {
    hide NextNewline, AfterLastNewline;
    NextNewlineIs(s, lo, hi);
    AfterLastIs(s, lo, hi);
  }

  lemma StitchIff(file: string, q: nat, p: nat, e: nat, maxObject: nat)
    requires q <= p <= e <= |file|
    ensures StitchOk(file[q..p], file[p..e], maxObject) <==> Crosses(file, q, p, e, maxObject)
  {
    hide Stitched, HasNewline, NextNewline, AfterLastNewline, Blank, AllWhite;
    if HasNewline(file[q..p]) && HasNewline(file[p..e]) {
      var a, b := StitchPlaces(file, q, p, e);
      SameBlank(file, a, b + 1);
      if StitchOk(file[q..p], file[p..e], maxObject) {
        assert Crossing(file, q, p, e, maxObject, a, b);
      }
      forall a', b' | Crossing(file, q, p, e, maxObject, a', b')
        ensures a == a' && b == b'
      {
      }
    }
    forall a, b | Crossing(file, q, p, e, maxObject, a, b)
      ensures HasNewline(file[q..p]) && HasNewline(file[p..e])
    {
      BothNewlines(file, q, p, e, a, b);
    }
  }

  lemma BoundaryIff(c: Config, k: nat)
    requires Request(c) > 0 && k > 0 && k * Request(c) < |c.file|
    ensures BoundaryOk(c.file, Request(c), c.maxObject, k) <==> CanCross(c, k)
  {
    hide StitchOk, Crosses, Request;
    var file, r := c.file, Request(c);
    BoundaryPlaces(file, r, k);
    StitchIff(file, Position(file, r, k - 1), Position(file, r, k), Position(file, r, k + 1), c.maxObject);
  }

  lemma BoundaryPlaces(file: string, r: nat, k: nat)
    requires r > 0 && k > 0 && k * r < |file|
    ensures Position(file, r, k) == k * r && Position(file, r, k - 1) == k * r - r >= 0
    ensures Position(file, r, k + 1) == Min(k * r + r, |file|)
  {
    assert (k - 1) * r == k * r - r && (k + 1) * r == k * r + r;
  }

  lemma StitchPlaces(file: string, q: nat, p: nat, r: nat) returns (a: nat, b: nat)
    requires q <= p <= r <= |file| && HasNewline(file[q..p]) && HasNewline(file[p..r])
    ensures q <= a < p <= b < r && file[a] == '\n' && file[b] == '\n'
    ensures NoNewline(file, a + 1, p) && NoNewline(file, p, b)
    ensures Stitched(file[q..p], file[p..r]) == file[a..b + 1]
  {
    hide Stitched, HasNewline, NextNewline, AfterLastNewline;
    StitchInFile(file, q, p, r);
    StitchEnds(file, q, p, r);
    a, b := AfterLastNewline(file, q, p) - 1, NextNewline(file, p, r);
    NextNewlineIs(file, p, r);
    AfterLastIs(file, q, p);
  }

  lemma BothNewlines(file: string, q: nat, p: nat, r: nat, a: nat, b: nat)
    requires q <= a < p <= b < r <= |file| && file[a] == '\n' && file[b] == '\n'
    ensures HasNewline(file[q..p]) && HasNewline(file[p..r])
  {
    assert file[q..p][a - q] == '\n' && file[p..r][b - p] == '\n';
    NewlineAt(file[q..p], 0, a - q, p - q);
    NewlineAt(file[p..r], 0, b - p, r - p);
  }

  lemma SameBlank(file: string, a: nat, b: nat)
    requires a <= b <= |file|
    ensures Blank(file[a..b], 0, b - a) <==> AllWhite(file, a, b)
  {
    hide Blank, White;
    var s := file[a..b];
    BlankIff(s, 0, b - a);
    assert forall k :: a <= k < b ==> file[k] == s[k - a];
    assert forall k :: 0 <= k < b - a ==> s[k] == file[k + a];
  }

  lemma AllCross(c: Config)
    requires Request(c) > 0
    ensures AllBoundariesOk(c) <==> forall k :: k > 0 && k * Request(c) < |c.file| ==> CanCross(c, k)
  {
    hide BoundaryOk, CanCross, NumBuffers, Request;
    forall k: nat | k > 0
      ensures k < NumBuffers(c) <==> k * Request(c) < |c.file|
      ensures k * Request(c) < |c.file| ==> (BoundaryOk(c.file, Request(c), c.maxObject, k) <==> CanCross(c, k))
    {
      RealIff(c, k);
      if k * Request(c) < |c.file| {
        BoundaryIff(c, k);
      }
    }
  }

  /** Behind this place, which is not whitespace, there is no newline. */
  predicate Unfinished(s: string, k: nat) {
    k < |s| && !White(s[k]) && NoNewline(s, k, |s|)
  }

  /** The file ends exactly where a request ends, with an unfinished line. */
  ghost predicate TailLost(c: Config)
    requires Request(c) > 0
  {
    |c.file| > 0 && |c.file| % Request(c) == 0 && exists k :: Unfinished(c.file, k)
  }

  lemma UnfinishedIff(s: string, n: nat)
    requires n <= |s| && NoNewline(s, n, |s|) && (n > 0 && n < |s| ==> s[n - 1] == '\n')
    ensures !AllWhite(s, n, |s|) ==> exists k :: Unfinished(s, k)
    ensures n < |s| && AllWhite(s, n, |s|) ==> !exists k :: Unfinished(s, k)
    ensures n == |s| > 0 && s[n - 1] == '\n' ==> !exists k :: Unfinished(s, k)
  {
    hide White;
    if !AllWhite(s, n, |s|) {
      var k :| n <= k < |s| && !White(s[k]);
      assert Unfinished(s, k);
    }
  }

  lemma TailIff(c: Config)
    requires Request(c) > 0 && AllBoundariesOk(c)
    ensures LosesTail(c) <==> TailLost(c)
  {
    hide Covered, NumBuffers, AllBoundariesOk, Request, Blank, NextNewline, AllWhite, Unfinished;
    var n := Covered(c.file, Request(c), NumBuffers(c));
    CoveredAll(c);
    NextNewlineIs(c.file, n, |c.file|);
    BlankIff(c.file, n, |c.file|);
    UnfinishedIff(c.file, n);
  }

  // ---- the result of a scan ----

  /** Take any number of threads and any schedule, up to the point where no thread can
      take a step. Then every thread has finished or failed; none has failed exactly if
      every line that crosses a buffer boundary can be rebuilt; and in that case the
      units in batch order are the lines of the file, except for the tail that is lost
      when the file ends, without a newline, exactly where a read request ends. */
  lemma ScanResult(c: Config, tids: set<nat>, schedule: seq<nat>)
    requires Request(c) > 0 && tids != {} && Feasible(c, Init(tids), schedule)
    requires Over(Run(c, Init(tids), schedule))
    ensures var s := Run(c, Init(tids), schedule);
      && (forall t :: t in s.threads ==> s.threads[t].Finished? || s.threads[t].Failed?)
      && (AllFinished(s) <==> forall k :: k > 0 && k * Request(c) < |c.file| ==> CanCross(c, k))
      && (AllFinished(s) ==>
           AreLines(c.file, Covered(c.file, Request(c), NumBuffers(c)), InBatchOrder(s, s.batchIndex)))
      && (AllFinished(s) ==> (AreLines(c.file, |c.file|, InBatchOrder(s, s.batchIndex)) <==> !TailLost(c)))
      && (AllFinished(s) ==> forall k: nat :: k in s.buffers <==> k + 1 == NumBuffers(c) && EndsOnRequest(c))
  {
    hide Inv, Feasible, Run, Covered, LosesTail, NumBuffers, AllBoundariesOk, EndsOnRequest, Lines, InBatchOrder;
    hide CanCross, TailLost, AreLines, Request;
    var s := Run(c, Init(tids), schedule);
    InitInv(c, tids);
    RunInv(c, Init(tids), schedule);
    RunThreads(c, Init(tids), schedule);
    var t :| t in tids;
    assert t in Init(tids).threads;
    NoneLeft(c, s);
    AllCross(c);
    if AllFinished(s) {
      FinalOutput(c, s, t);
      TailIff(c);
      LinesAre(c.file, |c.file|, InBatchOrder(s, s.batchIndex));
      LinesAre(c.file, Covered(c.file, Request(c), NumBuffers(c)), InBatchOrder(s, s.batchIndex));
    } else {
      var u :| u in s.threads && !s.threads[u].Finished?;
      FailureHasCause(c, s, u);
    }
  }

  lemma NoneLeft(c: Config, s: State)
    requires Inv(c, s) && Over(s)
    ensures forall t :: t in s.threads ==> s.threads[t].Finished? || s.threads[t].Failed?
  {
    hide Inv, Enabled, ThreadOk;
    forall t | t in s.threads
      ensures s.threads[t].Finished? || s.threads[t].Failed?
    {
      if !Terminal(s.threads[t]) {
        var u := NotStuck(c, s, t);
        EnabledThread(s, u);
        assert false;
      }
      NotBroken(c, s, t);
    }
  }

  lemma EnabledThread(s: State, u: nat)
    requires Enabled(s, u)
    ensures u in s.threads
  {
  }

  lemma NotBroken(c: Config, s: State, t: nat)
    requires Inv(c, s) && t in s.threads
    ensures !s.threads[t].Broken?
  {
    hide Inv, CountersOk, OutputOk, ReadsOk;
    Known(c, s, t);
  }

  lemma FinalOutput(c: Config, s: State, t: nat)
    requires Request(c) > 0 && Inv(c, s) && AllFinished(s) && t in s.threads
    ensures AllBoundariesOk(c)
    ensures InBatchOrder(s, s.batchIndex) == Lines(c.file, 0, Covered(c.file, Request(c), NumBuffers(c)))
    ensures InBatchOrder(s, s.batchIndex) == Lines(c.file, 0, |c.file|) <==> !LosesTail(c)
    ensures forall k: nat :: k in s.buffers <==> k + 1 == NumBuffers(c) && EndsOnRequest(c)
  {
    hide Inv, AllFinished, Covered, LosesTail, NumBuffers, EndsOnRequest, Lines, InBatchOrder;
    BoundariesWereOk(c, s, t);
    AllClaimed(c, s, t);
    AllBatches(c, s);
    BatchOrder(c, s, s.batchIndex, NumBuffers(c));
    UnitsAreLines(c.file, Request(c), c.maxObject, NumBuffers(c));
    LinesDelivered(c);
    forall k: nat
      ensures k in s.buffers <==> k + 1 == NumBuffers(c) && EndsOnRequest(c)
    {
      BufferLeft(c, s, t, k);
    }
  }
}
