/** Short runs of the upload protocol that end badly. */
module UploadExamples {
  import opened UploadProtocol
  import opened UploadInvariant
  import opened UploadTheorems
  import opened UploadBlocking
  import opened MapSums

  lemma {:induction false} Extend(limit: nat, s: State, events: seq<Event>, e: Event)
    requires Feasible(limit, s, events) && Enabled(limit, Run(limit, s, events), e)
    ensures Feasible(limit, s, events + [e])
    ensures Run(limit, s, events + [e]) == Next(limit, Run(limit, s, events), e)
    decreases |events|
  {
    hide Enabled, Next;
    if events == [] {
      assert (events + [e])[1..] == [];
    } else {
      Extend(limit, Next(limit, s, events[0]), events[1..], e);
      assert (events + [e])[1..] == events[1..] + [e];
    }
  }

  /** The states of a single handle. */
  function One(h: Handle, inUse: nat, waiting: nat): State { State(map[0 := h], Pool(inUse, waiting)) }

  const START := Init(map[0 := 1])
  const WORK := Progress("ab", 0, 0)
  const MORE := Progress("ab", 0, 1)

  ghost predicate Leads(limit: nat, events: seq<Event>, s: State) {
    Feasible(limit, START, events) && Run(limit, START, events) == s
  }

  lemma Go(limit: nat, events: seq<Event>, s: State, e: Event, s': State) returns (more: seq<Event>)
    requires Leads(limit, events, s) && Enabled(limit, s, e) && Next(limit, s, e) == s'
    ensures Leads(limit, more, s')
  {
    Extend(limit, START, events, e);
    more := events + [e];
  }

  /** A call to write two bytes in parts of one byte, up to the point where it asks for
      a slot. */
  lemma FirstCall(limit: nat) returns (events: seq<Event>)
    ensures Leads(limit, events, One(NewHandle(1).(writer := Blocked(WORK, 0)), 0, 0))
  {
    var h := NewHandle(1);
    assert START == One(h, 0, 0);
    events := [];
    assert Leads(limit, events, START);
    hide Leads;
    var h1, h2 := h.(writer := Writing(WORK)), h.(writer := Blocked(WORK, 0));
    events := Go(limit, events, START, Call(0, Write("ab", 0)), One(h1, 0, 0));
    events := Go(limit, events, One(h1, 0, 0), Step(0, true, 0), One(h2, 0, 0));
  }

  /** A one-byte part is filled by one byte of the call. */
  lemma CopyByte(h: Handle, w: Progress, part: nat, byte: string)
    requires h.partSize == 1 && h.buffers == map[part := Buffer("", 0, false)]
    requires w.location == 0 && w.written == part < |w.data| && w.data[w.written..w.written + 1] == byte
    ensures Copy(h, w, part) ==
      h.(buffers := map[part := Buffer(byte, 1, false)], accepted := h.accepted + byte, writer := Flushing(part,
        Resume(w, 1)))
  {
    assert Place("", 0, byte) == byte;
    assert h.buffers[part := Buffer(byte, 1, false)] == map[part := Buffer(byte, 1, false)];
  }

  lemma FlushByte(h: Handle, part: nat, after: After, byte: string)
    requires h.buffers == map[part := Buffer(byte, 1, false)]
    ensures Flush(h, part, after) ==
      h.(buffers := map[part := Buffer(byte, 1, true)],
         writer := if !h.hasError then Launching(part, after) else if h.exception then Threw else Terminated)
  {
    assert h.buffers[part := Buffer(byte, 1, true)] == map[part := Buffer(byte, 1, true)];
  }

  lemma LaunchByte(h: Handle, part: nat, w: Progress, byte: string)
    requires |byte| == 1 && h.buffers == map[part := Buffer(byte, 1, true)]
    ensures Launch(h, part, Resume(w, 1)) ==
      h.(buffers := map[], inProgress := h.inProgress + 1, uploads := h.uploads + [Upload(part, byte, Sending)],
         fileOffset := h.fileOffset + 1, writer := Writing(w.(written := w.written + 1)))
  {
    assert h.buffers - {part} == map[];
    assert byte[..1] == byte;
  }

  lemma Letters()
    ensures "ab"[0..1] == "a" && "ab"[1..2] == "b" && "" + "a" == "a" && "a" + "b" == "ab"
  {
  }

  /** The first part is on its way, and the call goes on. */
  function Sending1(writer: Writer): Handle {
    Handle(1, 1, writer, map[], [Upload(0, "a", Sending)], 1, map[], 0, false, false, false, [], "a")
  }

  lemma FirstPart(limit: nat) returns (events: seq<Event>)
    requires limit > 0
    ensures Leads(limit, events, One(Sending1(Writing(MORE)), 1, 0))
  {
    hide Leads, Copy, Flush, Launch;
    var h := NewHandle(1);
    events := FirstCall(limit);
    var h2, h3 := h.(writer := Blocked(WORK, 0)), h.(writer := Granted(WORK, 0));
    events := Go(limit, events, One(h2, 0, 0), Step(0, true, 0), One(h3, 1, 0));
    var h4 := h.(writer := Holding(WORK, 0), buffers := map[0 := Buffer("", 0, false)]);
    events := Go(limit, events, One(h3, 1, 0), Step(0, true, 0), One(h4, 1, 0));
    var h5 := h.(writer := Flushing(0, Resume(WORK, 1)), buffers := map[0 := Buffer("a", 1, false)], accepted := "a");
    Letters();
    CopyByte(h4, WORK, 0, "a");
    events := Go(limit, events, One(h4, 1, 0), Step(0, true, 0), One(h5, 1, 0));
    var h6 := h5.(writer := Launching(0, Resume(WORK, 1)), buffers := map[0 := Buffer("a", 1, true)]);
    FlushByte(h5, 0, Resume(WORK, 1), "a");
    events := Go(limit, events, One(h5, 1, 0), Step(0, true, 0), One(h6, 1, 0));
    LaunchByte(h6, 0, WORK, "a");
    assert [] + [Upload(0, "a", Sending)] == [Upload(0, "a", Sending)];
    events := Go(limit, events, One(h6, 1, 0), Step(0, true, 0), One(Sending1(Writing(MORE)), 1, 0));
  }

  /** The upload of the first part has failed, and its exception is not stored yet. */
  function Failed1(writer: Writer): Handle {
    Sending1(writer).(uploads := [Upload(0, "a", Raising)], hasError := true)
  }

  lemma FirstFails(limit: nat) returns (events: seq<Event>)
    requires limit > 0
    ensures Leads(limit, events, One(Failed1(Blocked(MORE, 1)), 1, 0))
  {
    hide Leads;
    hide Copy, Launch, Flush;
    events := FirstPart(limit);
    var h1, h2 := Sending1(Writing(MORE)), Failed1(Writing(MORE));
    assert Moved(h1.uploads, 0, Raising) == h2.uploads;
    events := Go(limit, events, One(h1, 1, 0), UploadStep(0, 0, false), One(h2, 1, 0));
    events := Go(limit, events, One(h2, 1, 0), Step(0, true, 0), One(Failed1(Blocked(MORE, 1)), 1, 0));
  }

  /** With one slot, one failed upload is enough to block the writer for ever. */
  lemma FailureBlocks() returns (events: seq<Event>)
    ensures Reachable(1, map[0 := 1], events)
    ensures var s := Run(1, Init(map[0 := 1]), events);
      0 in s.handles && s.handles[0].writer.Blocked? && Sum(s.handles, LostSlots) >= 1
  {
    events := FirstFails(1);
    var h := Failed1(Blocked(MORE, 1));
    SumSingle(One(h, 1, 0).handles, 0, LostSlots);
    assert LostSlots(h) == Total(h.uploads, 0, FailedSlot) + 1;
  }

  /** The first allocation of the first handle runs out of memory, and waits for ever. */
  lemma StarvesAlone(limit: nat) returns (events: seq<Event>)
    requires limit > 0
    ensures Reachable(limit, map[0 := 1], events)
    ensures var s := Run(limit, Init(map[0 := 1]), events);
      && s.handles.Keys == {0} && s.handles[0].writer.Starved?
      && s.pool.inUse >= s.handles[0].writer.seen && !SomeReturning(s.handles[0])
  {
    events := FirstCall(limit);
    var h := NewHandle(1);
    var h2, h3 := h.(writer := Blocked(WORK, 0)), h.(writer := Starved(WORK, 0, 1));
    events := Go(limit, events, One(h2, 0, 0), Step(0, false, 0), One(h3, 1, 1));
  }

  lemma SecondPart() returns (events: seq<Event>)
    ensures Leads(2, events, One(Failed1(Holding(MORE, 1)).(buffers := map[1 := Buffer("", 0, false)]), 2, 0))
  {
    hide Leads, Copy, Flush, Launch;
    events := FirstFails(2);
    var h, h2 := Failed1(Blocked(MORE, 1)), Failed1(Granted(MORE, 1));
    events := Go(2, events, One(h, 1, 0), Step(0, true, 0), One(h2, 2, 0));
    var h3 := Failed1(Holding(MORE, 1)).(buffers := map[1 := Buffer("", 0, false)]);
    events := Go(2, events, One(h2, 2, 0), Step(0, true, 0), One(h3, 2, 0));
  }

  /** The error flag is raised before the exception is stored: a writer that flushes its
      next part in between rethrows an exception that is not there. */
  lemma RethrowsNothing() returns (events: seq<Event>)
    ensures Reachable(2, map[0 := 1], events)
    ensures var s := Run(2, Init(map[0 := 1]), events); 0 in s.handles && s.handles[0].writer.Terminated?
  {
    hide Copy, Flush, Launch, Run, Feasible;
    events := SecondPart();
    var h3 := Failed1(Holding(MORE, 1)).(buffers := map[1 := Buffer("", 0, false)]);
    var h4 := Failed1(Flushing(1, Resume(MORE, 1))).(buffers := map[1 := Buffer("b", 1, false)], accepted := "ab");
    Letters();
    CopyByte(h3, MORE, 1, "b");
    events := Go(2, events, One(h3, 2, 0), Step(0, true, 0), One(h4, 2, 0));
    var h5 := h4.(writer := Terminated, buffers := map[1 := Buffer("b", 1, true)]);
    FlushByte(h4, 1, Resume(MORE, 1), "b");
    events := Go(2, events, One(h4, 2, 0), Step(0, true, 0), One(h5, 2, 0));
  }
}
