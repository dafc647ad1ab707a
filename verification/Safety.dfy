/** Every run of the session, whatever its handlers do, writes a history the monitor accepts. */
module Safety {
  import opened Bytes
  import opened Protocol
  import opened Bits
  import opened Decode
  import opened Session
  import opened Monitor
  import Framer

  function Watched(s: Sess): Option<Mon> {
    Watch(s.cfg.capacity, s.cfg.host, s.log)
  }

  /** The history is accepted, and the monitor's queue, phase and counts are the session's. */
  predicate Linked(s: Sess) {
    && WF(s)
    && Watched(s).Some?
    && var m := Watched(s).value;
       && m.queue == s.queue && m.next == s.accepted && m.busy == s.awaiting
       && m.dispatching == s.dispatching
       && m.cells == s.cachedCells && m.temps == s.cachedTemps
  }

  lemma KnownStep(capacity: nat, host: byte, m: Mon, o: Obs)
    requires Sane(m) && Next(capacity, host, m, o).Some?
    requires forall k :: 0 <= k < |m.queue| ==> IsKnownDataId(m.queue[k].id)
    ensures var n := Next(capacity, host, m, o).value;
            forall k :: 0 <= k < |n.queue| ==> IsKnownDataId(n.queue[k].id)
  {
    hide RejectionFits, FinalFits, RecordFits, HeardFits, FramesHeard, Encode, ItemsFor, IsKnownDataId;
  }

  /** Only known commands are ever queued. */
  lemma {:induction false} QueuedAreKnown(capacity: nat, host: byte, log: seq<Obs>)
    requires Watch(capacity, host, log).Some?
    ensures var m := Watch(capacity, host, log).value;
            forall k :: 0 <= k < |m.queue| ==> IsKnownDataId(m.queue[k].id)
    decreases |log|
  {
    hide Next, IsKnownDataId;
    if log != [] {
      var init := log[..|log| - 1];
      QueuedAreKnown(capacity, host, init);
      KnownStep(capacity, host, Watch(capacity, host, init).value, log[|log| - 1]);
    }
  }

  /** Buffer, mask and counters agree with the frames heard. */
  ghost predicate Tracks(x: Transfer, id: byte, m: Mon) {
    && x.expectedItems == m.items && x.expectedFrames == ExpectedFrames(id, m.items)
    && x.framesSeen == FramesHeard(id, m.heard)
    && (id != CELL_VOLTAGES && id != CELL_TEMPERATURES ==> m.items == 0)
    && (!MultiframeInfo(id).multi ==> m.heard == [])
    && (Paginated(id) ==> PagesTrack(x, MultiframeInfo(id).bytesPerFrame, m.heard) && !AllHeard(id, m.items, m.heard))
    && (id == FAULT_RECORDS ==> m.records == |m.heard| / 4 && x.record == Tail(m.heard, |m.heard| % 4))
  }

  ghost predicate PagesTrack(x: Transfer, width: nat, heard: seq<DataBytes>) {
    && Orderly(x) && width <= 7
    && x.seen == Counters(heard)
    && forall c :: c in x.seen ==> SlotHolds(x, c, width, heard)
  }

  ghost predicate SlotHolds(x: Transfer, c: nat, width: nat, heard: seq<DataBytes>)
    requires Orderly(x) && width <= 7 && c in Counters(heard)
  {
    && Offset(c, width) + width <= ASSEMBLY_LEN
    && x.assembly[Offset(c, width)..Offset(c, width) + width] == Latest(heard, c, width)
  }

  /** Between calls: nothing dispatching, and a request in flight has more to come. */
  ghost predicate Settled(s: Sess) {
    && Linked(s)
    && !s.dispatching
    && (s.awaiting ==> !Watched(s).value.closing && Tracks(s.xfer, s.queue[0].id, Watched(s).value))
  }

  /** The history says nothing of the buffers or the deadline. */
  lemma LinkedFrame(s: Sess, x: Transfer, deadline: nat)
    requires Linked(s) && Orderly(x)
    ensures var r := s.(xfer := x, deadline := deadline);
            Linked(r) && Watched(r) == Watched(s)
  {
  }

  lemma AnyDeadline(s: Sess)
    requires Settled(s)
    ensures forall d: nat :: Settled(s.(deadline := d))
  {
  }

  lemma InitSettled(cfg: Config)
    requires 1 <= cfg.capacity
    ensures Settled(Init(cfg))
  {
  }

  // ---------------------------------------------------------------------------
  // Handlers
  // ---------------------------------------------------------------------------

  /** What a dispatch leaves of a request still in flight after it: everything but the requests queued behind. */
  predicate StillOpen(s: Sess, r: Sess)
    requires Linked(s) && Linked(r)
  {
    && s.awaiting && r.awaiting && r.queue[0] == s.queue[0] && r.xfer == s.xfer
    && r.retries == s.retries && r.deadline == s.deadline
    && var (m, n) := (Watched(s).value, Watched(r).value);
       n.closing == m.closing && n.items == m.items && n.heard == m.heard && n.records == m.records
  }

  lemma AcceptLinked(s: Sess, req: Request)
    requires Linked(s) && Verdict(s, req) == Queued
    ensures var r := Accept(s, req);
            var m := Watched(s).value;
            Linked(r) && Watched(r).value == m.(queue := m.queue + [req], next := m.next + 1)
  {
    hide Watch, RaiseStep, HeardFits, FramesHeard, Encode, ItemsFor;
    WatchSnoc(s.cfg.capacity, s.cfg.host, s.log, Accepted(s.accepted, req));
  }

  lemma DropLinked(s: Sess)
    requires Linked(s)
    ensures Linked(Reset(s)) && Watched(Reset(s)).value == Watched(s).value.(queue := [], busy := false)
  {
    hide Watch, RaiseStep, HeardFits, FramesHeard, Encode, ItemsFor;
    WatchSnoc(s.cfg.capacity, s.cfg.host, s.log, Dropped);
  }

  lemma OpLinked(s: Sess, op: Op)
    requires Linked(s) && s.dispatching
    ensures var r := RunOp(s, op);
            Linked(r) && r.dispatching && (r.awaiting ==> StillOpen(s, r))
  {
    hide Watch, Pump;
    if op.Poll? && Verdict(s, op.req) == Queued {
      AcceptLinked(s, op.req);
    } else if op.ResetAll? {
      DropLinked(s);
    }
  }

  lemma {:induction false} ScriptLinked(s: Sess, ops: seq<Op>)
    requires Linked(s) && s.dispatching
    ensures var r := RunScript(s, ops);
            Linked(r) && r.dispatching && (r.awaiting ==> StillOpen(s, r))
    decreases |ops|
  {
    hide Watch, WF;
    if ops != [] {
      ScriptLinked(s, ops[..|ops| - 1]);
      OpLinked(RunScript(s, ops[..|ops| - 1]), ops[|ops| - 1]);
      hide RunOp;
    }
  }

  lemma HandlersLinked(s: Sess, own: bool, h: Handlers)
    requires Linked(s) && s.dispatching
    ensures var r := RunHandlers(s, own, h);
            Linked(r) && r.dispatching && (r.awaiting ==> StillOpen(s, r))
  {
    hide Watch, WF, RunScript;
    var s1 := if own then RunScript(s, h.perRequest) else s;
    ScriptLinked(s, h.perRequest);
    ScriptLinked(s1, h.sessionWide);
  }

  /** An event the monitor admits is dispatched whole: on return the session is linked again. */
  lemma EmitLinked(s: Sess, e: Event, h: Handlers)
    requires Linked(s) && !s.dispatching
    requires RaiseStep(Watched(s).value, Owner(s), OwnHandler(s), e).Some?
    ensures Linked(Raise(s, e))
    ensures Watched(Raise(s, e)).value == RaiseStep(Watched(s).value, Owner(s), OwnHandler(s), e).value
    ensures var r := Emit(s, e, h);
            Linked(r) && !r.dispatching && (r.awaiting ==> StillOpen(Raise(s, e), r))
  {
    hide Watch, RunHandlers, HeardFits, FramesHeard, Encode, ItemsFor, RejectionFits, FinalFits, RecordFits,
         IsRejection;
    var cap, host := s.cfg.capacity, s.cfg.host;
    var raised := Raise(s, e);
    WatchSnoc(cap, host, s.log, Raised(Owner(s), OwnHandler(s), e));
    var told := RunHandlers(raised, OwnHandler(s).Some?, h);
    HandlersLinked(raised, OwnHandler(s).Some?, h);
    hide RaiseStep;
    WatchSnoc(told.cfg.capacity, told.cfg.host, told.log, Finished(e));
  }

  // ---------------------------------------------------------------------------
  // Transaction lifecycle
  // ---------------------------------------------------------------------------

  lemma TransmitSettled(s: Sess)
    requires Settled(s) && s.awaiting && s.xfer.framesSeen == 0
    ensures Settled(Transmit(s))
  {
    hide Watch, RaiseStep, HeardFits, ItemsFor, Encode, PagesTrack, AllHeard, ExpectedFrames;
    assert FramesHeard(s.queue[0].id, Watched(s).value.heard) == 0;
    hide Tracks;
    if s.cfg.hasTx {
      WatchSnoc(s.cfg.capacity, s.cfg.host, s.log,
                Sent(HeadTicket(s), Encode(s.cfg.host, s.queue[0].id, s.queue[0].data)));
    }
  }

  lemma BeginSettled(s: Sess)
    requires Linked(s) && !s.dispatching && !s.awaiting && s.queue != []
    ensures Settled(BeginAwaiting(s.(awaiting := true)))
  {
    hide Watch, RaiseStep, HeardFits, Encode;
    var b := s.(awaiting := true);
    WatchSnoc(s.cfg.capacity, s.cfg.host, s.log,
              Begun(HeadTicket(b), ItemsFor(s.queue[0], s.cachedCells, s.cachedTemps)));
  }

  lemma PumpSettled(s: Sess)
    requires Linked(s) && !s.dispatching
    requires s.awaiting ==> Settled(s)
    ensures Settled(Pump(s))
  {
    if !s.awaiting && s.queue != [] {
      BeginSettled(s);
      TransmitSettled(BeginAwaiting(s.(awaiting := true)));
    }
  }

  /** A request that has had its last event is popped, and the next one begins. */
  lemma CompleteSettled(s: Sess)
    requires Linked(s) && !s.dispatching
    requires s.awaiting ==> Watched(s).value.closing
    ensures Settled(Complete(s))
  {
    if s.awaiting {
      WatchSnoc(s.cfg.capacity, s.cfg.host, s.log, Retired(HeadTicket(s)));
    }
    PumpSettled(Retire(s));
  }

  // ---------------------------------------------------------------------------
  // Reassembly
  // ---------------------------------------------------------------------------

  lemma CountersSnoc(heard: seq<DataBytes>, data: DataBytes)
    ensures Counters(heard + [data]) == Counters(heard) + {data[0] as nat}
  {
  }

  lemma LatestSnoc(heard: seq<DataBytes>, data: DataBytes, c: nat, width: nat)
    requires width <= 7 && c in Counters(heard + [data])
    ensures data[0] != c ==> c in Counters(heard)
    ensures Latest(heard + [data], c, width) ==
            if data[0] == c then data[1..1 + width] else Latest(heard, c, width)
  {
  }

  lemma OverlaySlice(buf: seq<byte>, at: nat, bytes: seq<byte>, lo: nat, hi: nat)
    requires at + |bytes| <= |buf| && lo <= hi <= |buf|
    ensures lo == at && hi == at + |bytes| ==> Overlay(buf, at, bytes)[lo..hi] == bytes
    ensures hi <= at || at + |bytes| <= lo ==> Overlay(buf, at, bytes)[lo..hi] == buf[lo..hi]
  {
    var r := Overlay(buf, at, bytes);
    assert forall k :: 0 <= k < |buf| ==> r[k] == if at <= k < at + |bytes| then bytes[k - at] else buf[k];
  }

  lemma SlotsDisjoint(a: nat, b: nat, width: nat)
    requires a < b
    ensures Offset(a, width) + width <= Offset(b, width)
  {
    MulMonotone(a + 1, b, width);
  }

  lemma NextSlot(a: nat, width: nat)
    ensures Offset(a + 1, width) == Offset(a, width) + width
  {
  }

  lemma OverlaySlot(buf: seq<byte>, at: nat, bytes: seq<byte>, c: nat)
    requires |buf| == ASSEMBLY_LEN && |bytes| <= 7 && at <= MAX_FRAME_INDEX && c <= MAX_FRAME_INDEX
    ensures var w := |bytes|;
            && Offset(at, w) + w <= ASSEMBLY_LEN && Offset(c, w) + w <= ASSEMBLY_LEN
            && Overlay(buf, Offset(at, w), bytes)[Offset(c, w)..Offset(c, w) + w]
               == if c == at then bytes else buf[Offset(c, w)..Offset(c, w) + w]
  {
    hide Offset;
    var w := |bytes|;
    Fits(at, w);
    Fits(c, w);
    if c < at {
      SlotsDisjoint(c, at, w);
    } else if at < c {
      SlotsDisjoint(at, c, w);
    }
    OverlaySlice(buf, Offset(at, w), bytes, Offset(c, w), Offset(c, w) + w);
  }

  lemma SlotAfterFile(x: Transfer, info: MultiFrameInfo, heard: seq<DataBytes>, data: DataBytes, c: nat)
    requires PagesTrack(x, info.bytesPerFrame, heard) && data[0] <= MAX_FRAME_INDEX
    requires c in Counters(heard + [data])
    ensures SlotHolds(File(x, info, data), c, info.bytesPerFrame, heard + [data])
  {
    hide Offset, Overlay, Latest, Counters;
    var w, at: nat := info.bytesPerFrame, data[0];
    CountersSnoc(heard, data);
    LatestSnoc(heard, data, c, w);
    assert c != at ==> SlotHolds(x, c, w, heard);
    OverlaySlot(x.assembly, at, data[1..1 + w], c);
  }

  /** Filing a frame keeps every slot equal to the latest payload of its counter. */
  lemma {:induction false} FileTracks(x: Transfer, info: MultiFrameInfo, heard: seq<DataBytes>, data: DataBytes)
    requires PagesTrack(x, info.bytesPerFrame, heard) && data[0] <= MAX_FRAME_INDEX
    requires x.framesSeen == |Counters(heard)|
    ensures PagesTrack(File(x, info, data), info.bytesPerFrame, heard + [data])
    ensures File(x, info, data).framesSeen == |Counters(heard + [data])|
  {
    CountersSnoc(heard, data);
    var r := File(x, info, data);
    if data[0] in x.seen {
      assert x.seen + {data[0] as nat} == x.seen;
    }
    forall c | c in r.seen
      ensures SlotHolds(r, c, info.bytesPerFrame, heard + [data])
    {
      SlotAfterFile(x, info, heard, data, c);
    }
  }

  lemma {:induction false} PagesAreSlots(x: Transfer, width: nat, heard: seq<DataBytes>, base: nat, n: nat)
    requires PagesTrack(x, width, heard) && forall i :: base <= i < base + n ==> i in Counters(heard)
    requires Offset(base + n, width) <= ASSEMBLY_LEN
    ensures Offset(base, width) <= Offset(base + n, width)
    ensures x.assembly[Offset(base, width)..Offset(base + n, width)] == Pages(heard, base, n, width)
    decreases n
  {
    hide Offset;
    if n > 0 {
      var last := base + n - 1;
      NextSlot(last, width);
      PagesAreSlots(x, width, heard, base, n - 1);
      assert SlotHolds(x, last, width, heard);
      JoinSlices(x.assembly, Offset(base, width), Offset(last, width), Offset(base + n, width));
    }
  }

  lemma JoinSlices(a: seq<byte>, lo: nat, mid: nat, hi: nat)
    requires lo <= mid <= hi <= |a|
    ensures a[lo..hi] == a[lo..mid] + a[mid..hi]
  {
  }

  lemma RunEndsInside(base: nat, run: nat, width: nat)
    requires base + run <= MAX_FRAME_INDEX + 1 && width <= 7
    ensures Offset(base + run, width) == Offset(base, width) + Offset(run, width) <= ASSEMBLY_LEN
  {
    MulMonotone(base + run, MAX_FRAME_INDEX + 1, width);
  }

  /** The bounds finish_multi() works with: the run is not empty and lies inside the buffer. */
  lemma RunFitsBuffer(seen: set<nat>, width: nat, c: nat)
    requires c in seen && width <= 7 && c <= MAX_FRAME_INDEX
    ensures var base := LowestFrom(seen, 0);
            var run := RunFrom(seen, base);
            && run > 0
            && (forall i :: base <= i < base + run ==> i in seen)
            && Offset(base + run, width) == Offset(base, width) + Offset(run, width) <= ASSEMBLY_LEN
  {
    hide Offset, LowestFrom;
    LowestIsMinimum(seen, 0, c);
    var base := LowestFrom(seen, 0);
    RunIsMaximal(seen, base);
    RunEndsInside(base, RunFrom(seen, base), width);
  }

  lemma CollectedAt(x: Transfer, id: byte, width: nat)
    requires Orderly(x) && x.seen != {} && width == MultiframeInfo(id).bytesPerFrame
    ensures var base := LowestFrom(x.seen, 0);
            var (start, size) := (Offset(base, width), Offset(RunFrom(x.seen, base), width));
            start + size <= ASSEMBLY_LEN ==>
              Collected(x, id) == x.assembly[start..start + size][..TrimmedLen(id, x.expectedItems, size)]
  {
  }

  /** What finish_multi() decodes is the unbroken run of latest payloads, trimmed: nothing stale, nothing from a gap. */
  lemma {:induction false} CollectedIsUnbroken(x: Transfer, id: byte, heard: seq<DataBytes>)
    requires PagesTrack(x, MultiframeInfo(id).bytesPerFrame, heard) && heard != []
    ensures var whole := Unbroken(heard, MultiframeInfo(id).bytesPerFrame);
            Collected(x, id) == whole[..TrimmedLen(id, x.expectedItems, |whole|)]
  {
    hide Offset;
    var w := MultiframeInfo(id).bytesPerFrame;
    var last: nat := heard[|heard| - 1][0];
    assert last in x.seen;
    RunFitsBuffer(x.seen, w, last);
    var base := LowestFrom(x.seen, 0);
    PagesAreSlots(x, w, heard, base, RunFrom(x.seen, base));
    hide PagesTrack, Pages, MultiframeInfo, LowestFrom, RunFrom, Counters, Collected, TrimmedLen;
    CollectedAt(x, id, w);
  }

  // ---------------------------------------------------------------------------
  // Receiving
  // ---------------------------------------------------------------------------

  /** A frame turned away leaves the request, its reply and its deadline as they were. */
  lemma RejectionSettled(s: Sess, e: Event, h: Handlers)
    requires Settled(s) && IsRejection(e)
    requires s.awaiting ==> RejectionFits(s.queue[0].id, e)
    ensures Settled(Emit(s, e, h))
  {
    hide Watch, FinalFits, RecordFits;
    EmitLinked(s, e, h);
    hide Emit, Raise;
  }

  lemma FinalSettled(s: Sess, e: Event, h: Handlers)
    requires Linked(s) && !s.dispatching && s.awaiting && !Watched(s).value.closing
    requires FinalFits(Watched(s).value, e) && !IsRejection(e)
    ensures Settled(Complete(Emit(s, e, h)))
  {
    hide Watch, FinalFits, RecordFits, Tracks;
    EmitLinked(s, e, h);
    hide Emit, RaiseStep;
    CompleteSettled(Emit(s, e, h));
  }

  /** Noting the counts and logging the frame together are one step of the monitor. */
  function HeardState(s: Sess, id: byte, data: DataBytes): Sess {
    Logged(NoteCounts(s, id, data), Heard(id, data))
  }

  lemma HearLinked(s: Sess, id: byte, data: DataBytes)
    requires Settled(s) && s.awaiting && HeardFits(Watched(s).value, id, data)
    ensures Linked(HeardState(s, id, data))
    ensures Watched(HeardState(s, id, data)).value == Hear(Watched(s).value, id, data)
  {
    hide Watch, HeardFits, Tracks;
    WatchSnoc(s.cfg.capacity, s.cfg.host, s.log, Heard(id, data));
  }

  /** Only 0x94 and 0x51 replies carry counts, and they are single frames. */
  lemma NothingNoted(s: Sess, id: byte, data: DataBytes)
    requires MultiframeInfo(id).multi
    ensures NoteCounts(s, id, data) == s && Counts(id, data) == None
  {
  }

  lemma RejectionShape(id: byte, error: ErrorCode)
    requires error in {Checksum, BadLength, BadSourceAddress, UnexpectedDataId, FrameSequence}
    ensures IsRejection(Rejection(id, error))
  {
  }

  /** Every known single-frame command has a decoder, so its one frame makes a final event. */
  lemma SingleFits(m: Mon, data: DataBytes)
    requires m.queue != [] && !MultiframeInfo(m.queue[0].id).multi && IsKnownDataId(m.queue[0].id) && m.heard == [data]
    ensures var e := SingleEvent(m.queue[0], m.queue[0].id, data);
            FinalFits(m, e) && !IsRejection(e)
  {
    hide PagedPayload, FramesHeard;
  }

  /** A single-frame reply is heard once. */
  lemma SingleHeard(s: Sess, data: DataBytes)
    requires Settled(s) && s.awaiting && !MultiframeInfo(s.queue[0].id).multi
    ensures HeardFits(Watched(s).value, s.queue[0].id, data) && Watched(s).value.heard == []
    ensures Hear(Watched(s).value, s.queue[0].id, data).heard == [data]
  {
    hide Watch, PagesTrack, AllHeard, ExpectedFrames, Counts;
  }

  lemma SingleSettled(s: Sess, data: DataBytes, h: Handlers)
    requires Settled(s) && s.awaiting && !MultiframeInfo(s.queue[0].id).multi
    ensures var id := s.queue[0].id;
            Settled(HandleSingle(NoteCounts(s, id, data), id, data, h))
  {
    hide Watch, Tracks, FinalFits, SingleEvent, HeardFits, Emit, Complete, IsKnownDataId, IsRejection, Counts;
    var id := s.queue[0].id;
    var heard := HeardState(s, id, data);
    SingleHeard(s, data);
    HearLinked(s, id, data);
    QueuedAreKnown(s.cfg.capacity, s.cfg.host, s.log);
    SingleFits(Watched(heard).value, data);
    FinalSettled(heard, SingleEvent(s.queue[0], id, data), h);
  }

  /** The event a paginated reply is finished with is one the monitor admits. */
  lemma MultiFits(x: Transfer, id: byte, m: Mon)
    requires m.queue != [] && m.queue[0].id == id && Paginated(id) && m.heard != []
    requires PagesTrack(x, MultiframeInfo(id).bytesPerFrame, m.heard)
    requires x.expectedItems == m.items && x.framesSeen == |Counters(m.heard)|
    ensures FinalFits(m, MultiEvent(x, id)) && !IsRejection(MultiEvent(x, id))
  {
    CollectedIsUnbroken(x, id, m.heard);
    hide PagesTrack, Collected, Unbroken, Counters, SingleEvent, TrimmedLen, FramesHeard;
    assert DecodePages(id, Collected(x, id)) == PagedPayload(id, m.items, m.heard);
    hide PagedPayload;
  }

  lemma FinishSettled(s: Sess, h: Handlers)
    requires Linked(s) && !s.dispatching && s.awaiting
    requires var (m, id) := (Watched(s).value, s.queue[0].id);
             && !m.closing && Paginated(id) && m.heard != []
             && PagesTrack(s.xfer, MultiframeInfo(id).bytesPerFrame, m.heard)
             && s.xfer.expectedItems == m.items && s.xfer.framesSeen == |Counters(m.heard)|
    ensures Settled(FinishMulti(s, s.queue[0].id, h))
  {
    hide Watch, PagesTrack, Counters, FinalFits, IsRejection, MultiEvent, MultiframeInfo, Complete, Emit, Tracks;
    MultiFits(s.xfer, s.queue[0].id, Watched(s).value);
    FinalSettled(s, MultiEvent(s.xfer, s.queue[0].id), h);
  }

  lemma PageFits(s: Sess, data: DataBytes)
    requires Settled(s) && s.awaiting && Paginated(s.queue[0].id) && data[0] <= MAX_FRAME_INDEX
    ensures HeardFits(Watched(s).value, s.queue[0].id, data)
  {
    hide Watch, PagesTrack, AllHeard;
  }

  /** No paginated reply carries counts. */
  lemma PageHeard(s: Sess, id: byte, data: DataBytes)
    requires WF(s) && Paginated(id) && data[0] <= MAX_FRAME_INDEX
    ensures FilePage(s, id, data) == HeardState(s, id, data).(xfer := File(s.xfer, MultiframeInfo(id), data))
    ensures Counts(id, data) == None
  {
    hide File;
  }

  lemma PageLinked(s: Sess, data: DataBytes)
    requires Settled(s) && s.awaiting && Paginated(s.queue[0].id) && data[0] <= MAX_FRAME_INDEX
    ensures var r := FilePage(s, s.queue[0].id, data);
            var m := Watched(s).value;
            Linked(r) && Watched(r).value == m.(heard := m.heard + [data])
  {
    assert WF(s) && s.queue != [];
    hide Watched, Tracks, HeardFits, Linked, File, HeardState, FilePage, Counts, WF;
    var id := s.queue[0].id;
    PageFits(s, data);
    HearLinked(s, id, data);
    PageHeard(s, id, data);
    var heard := HeardState(s, id, data);
    LinkedFrame(heard, File(s.xfer, MultiframeInfo(id), data), heard.deadline);
  }

  lemma PageTracks(x: Transfer, id: byte, m: Mon, data: DataBytes)
    requires Orderly(x) && Paginated(id) && Tracks(x, id, m) && data[0] <= MAX_FRAME_INDEX
    ensures var x' := File(x, MultiframeInfo(id), data);
            && PagesTrack(x', MultiframeInfo(id).bytesPerFrame, m.heard + [data])
            && x'.framesSeen == |Counters(m.heard + [data])|
            && x'.expectedItems == m.items && x'.expectedFrames == ExpectedFrames(id, m.items)
  {
    hide PagesTrack, Counters, ExpectedFrames;
    FileTracks(x, MultiframeInfo(id), m.heard, data);
  }

  lemma FinishOrWaitSettled(s: Sess, h: Handlers)
    requires Linked(s) && !s.dispatching && s.awaiting
    requires var (m, id) := (Watched(s).value, s.queue[0].id);
             && !m.closing && Paginated(id) && m.heard != []
             && PagesTrack(s.xfer, MultiframeInfo(id).bytesPerFrame, m.heard)
             && s.xfer.expectedItems == m.items && s.xfer.expectedFrames == ExpectedFrames(id, m.items)
             && s.xfer.framesSeen == |Counters(m.heard)|
             && (id != CELL_VOLTAGES && id != CELL_TEMPERATURES ==> m.items == 0)
    ensures Settled(FinishOrWait(s, s.queue[0].id, h))
  {
    var (m, id) := (Watched(s).value, s.queue[0].id);
    hide Watched, PagesTrack, Counters, ExpectedFrames, FinishMulti;
    if AllHeard(id, m.items, m.heard) {
      FinishSettled(s, h);
    } else {
      assert Tracks(s.xfer, id, m);
      hide Tracks;
      assert Settled(s);
      AnyDeadline(s);
    }
  }

  lemma PageSettled(s: Sess, data: DataBytes, h: Handlers)
    requires Settled(s) && s.awaiting && Paginated(s.queue[0].id) && data[0] <= MAX_FRAME_INDEX
    ensures Settled(FinishOrWait(FilePage(s, s.queue[0].id, data), s.queue[0].id, h))
  {
    var id, m := s.queue[0].id, Watched(s).value;
    var page := FilePage(s, id, data);
    assert page.queue == s.queue && page.awaiting && !page.dispatching;
    assert page.xfer == File(s.xfer, MultiframeInfo(id), data);
    assert !m.closing && Tracks(s.xfer, id, m);
    PageLinked(s, data);
    hide Settled, Watched, Tracks, Linked, FilePage, File, Counters, PagesTrack, ExpectedFrames, FinishOrWait;
    PageTracks(s.xfer, id, m, data);
    FinishOrWaitSettled(page, h);
  }

  lemma MultiSettled(s: Sess, data: DataBytes, h: Handlers)
    requires Settled(s) && s.awaiting && Paginated(s.queue[0].id)
    ensures var id := s.queue[0].id;
            Settled(HandleMulti(NoteCounts(s, id, data), id, data, h))
  {
    hide Watch, Tracks, FinishOrWait, FilePage, Emit, NoteCounts, IsRejection, MultiframeInfo;
    var id := s.queue[0].id;
    NothingNoted(s, id, data);
    RejectionShape(id, FrameSequence);
    if data[0] > MAX_FRAME_INDEX {
      RejectionSettled(s, Rejection(id, FrameSequence), h);
    } else {
      PageSettled(s, data, h);
    }
  }

  /** After every fourth frame the monitor admits the record those four make. */
  lemma RecordAdmitted(m: Mon, owner: Option<nat>, handler: Option<nat>)
    requires |m.queue| <= m.next && m.queue != [] && m.busy && !m.closing && !m.dispatching
    requires m.queue[0].id == FAULT_RECORDS && |m.heard| == 4 * (m.records + 1)
    requires owner == Some(m.next - |m.queue|) && handler == m.queue[0].handler
    ensures RaiseStep(m, owner, handler, FaultEvent(FAULT_RECORDS, FaultFields(Tail(m.heard, 4)))) ==
            Some(m.(dispatching := true, records := m.records + 1))
  {
    hide FaultFields, Tail, PagedPayload, FramesHeard;
  }

  /** Four frames in, the record buffer is theirs, whole; the record goes out and the buffer is empty again. */
  lemma RecordSettled(s: Sess, h: Handlers)
    requires Linked(s) && !s.dispatching && s.awaiting && s.queue[0].id == FAULT_RECORDS
    requires var m := Watched(s).value;
             && !m.closing && |m.heard| == 4 * (m.records + 1) && s.xfer.record == Tail(m.heard, 4)
             && s.xfer.expectedItems == m.items == 0 && s.xfer.expectedFrames == 0
             && s.xfer.framesSeen == |m.heard| % 256
    ensures var r := DeliverRecord(s, FAULT_RECORDS, h);
            Linked(r) && !r.dispatching && (r.awaiting ==> Settled(r))
  {
    hide Watch, FaultFields, RaiseStep, RunHandlers;
    var m, e := Watched(s).value, FaultEvent(FAULT_RECORDS, FaultFields(s.xfer.record));
    RecordAdmitted(m, Owner(s), OwnHandler(s));
    EmitLinked(s, e, h);
    hide Emit, Raise;
    var a := Emit(s, e, h);
    LinkedFrame(a, a.xfer.(record := []), a.deadline);
    if a.awaiting {
      RecordOut(s, Raise(s, e), a, m.records + 1);
    }
  }

  /** With the record out, the reply so far is tracked by an empty buffer. */
  lemma RecordOut(s: Sess, raised: Sess, a: Sess, records: nat)
    requires Linked(raised) && Linked(a) && !a.dispatching && a.awaiting && StillOpen(raised, a)
    requires a.queue[0].id == FAULT_RECORDS && !Watched(raised).value.closing
    requires var (x, m) := (a.xfer, Watched(raised).value);
             && |m.heard| == 4 * records == 4 * m.records
             && x.expectedItems == m.items == 0 && x.expectedFrames == 0 && x.framesSeen == |m.heard| % 256
    ensures Settled(a.(xfer := a.xfer.(record := [])))
  {
    LinkedFrame(a, a.xfer.(record := []), a.deadline);
    assert Tail(Watched(a).value.heard, 0) == [];
    hide Watch, Tail, WF;
  }

  lemma RecordGrows(heard: seq<DataBytes>, data: DataBytes, n: nat)
    requires n < 4 && n <= |heard|
    ensures Tail(heard, n) + Fresh(Tail(heard, n), data) == Tail(heard + [data], n + 1)
  {
  }

  lemma AppendLinked(s: Sess, data: DataBytes)
    requires Settled(s) && s.awaiting && s.queue[0].id == FAULT_RECORDS && data[0] != FRAME_NO_END
    ensures var r := HeardState(s, FAULT_RECORDS, data).(xfer := Appended(s.xfer, data));
            var m := Watched(s).value;
            Linked(r) && Watched(r).value == m.(heard := m.heard + [data])
  {
    var heard, m := HeardState(s, FAULT_RECORDS, data), Watched(s).value;
    assert HeardFits(m, FAULT_RECORDS, data) && Hear(m, FAULT_RECORDS, data) == m.(heard := m.heard + [data]);
    hide Watched, Tracks, HeardFits, Hear, HeardState, Linked, Appended;
    HearLinked(s, FAULT_RECORDS, data);
    LinkedFrame(heard, Appended(s.xfer, data), heard.deadline);
  }

  lemma CountUp(n: nat)
    ensures (n % 256 + 1) % 256 == (n + 1) % 256
  {
  }

  lemma AppendTracks(x: Transfer, m: Mon, data: DataBytes)
    requires Orderly(x) && Tracks(x, FAULT_RECORDS, m)
    ensures var x' := Appended(x, data);
            && x'.record == Tail(m.heard + [data], |m.heard| % 4 + 1)
            && x'.framesSeen == (|m.heard| + 1) % 256
            && x'.expectedItems == m.items == 0 && x'.expectedFrames == 0
            && m.records == |m.heard| / 4
  {
    hide Fresh, Tail, PagesTrack, AllHeard;
    CountUp(|m.heard|);
    RecordGrows(m.heard, data, |m.heard| % 4);
  }

  lemma DeliverOrWaitSettled(s: Sess, h: Handlers)
    requires Linked(s) && !s.dispatching && s.awaiting && s.queue[0].id == FAULT_RECORDS
    requires var m := Watched(s).value;
             && !m.closing && |m.heard| > 0 && m.records == (|m.heard| - 1) / 4
             && s.xfer.record == Tail(m.heard, (|m.heard| - 1) % 4 + 1)
             && s.xfer.expectedItems == m.items == 0 && s.xfer.expectedFrames == 0
             && s.xfer.framesSeen == |m.heard| % 256
    ensures Settled(DeliverOrWait(s, FAULT_RECORDS, h))
  {
    hide Watch, Emit, Tail, Complete, Pump, DeliverRecord;
    var m := Watched(s).value;
    if |s.xfer.record| == FAULT_BUFFER_LEN {
      assert |m.heard| == 4 * (m.records + 1);
      RecordSettled(s, h);
      hide Linked, Watched;
      var settled := DeliverRecord(s, FAULT_RECORDS, h);
      if settled.awaiting {
        AnyDeadline(settled);
      } else {
        PumpSettled(settled);
      }
    } else {
      assert Tracks(s.xfer, FAULT_RECORDS, m);
      hide Tracks, Linked, Watched;
      assert Settled(s);
      AnyDeadline(s);
    }
  }

  lemma StreamSettled(s: Sess, data: DataBytes, h: Handlers)
    requires Settled(s) && s.awaiting && s.queue[0].id == FAULT_RECORDS
    ensures Settled(HandleStream(NoteCounts(s, FAULT_RECORDS, data), FAULT_RECORDS, data, h))
  {
    hide Watch, NoteCounts, PagesTrack, AllHeard, ExpectedFrames;
    NothingNoted(s, FAULT_RECORDS, data);
    var heard := HeardState(s, FAULT_RECORDS, data);
    if data[0] == FRAME_NO_END {
      HearLinked(s, FAULT_RECORDS, data);
      hide Tail, Complete;
      CompleteSettled(heard);
    } else {
      var grown := heard.(xfer := Appended(s.xfer, data));
      assert grown.queue == s.queue && grown.awaiting && !grown.dispatching;
      AppendLinked(s, data);
      AppendTracks(s.xfer, Watched(s).value, data);
      hide Watched, Tracks, Linked, Appended, Tail;
      DeliverOrWaitSettled(grown, h);
      hide DeliverOrWait, Settled;
    }
  }

  lemma FrameSettled(s: Sess, f: Message, h: Handlers)
    requires Settled(s)
    ensures Settled(OnFrame(s, f, h))
  {
    assert WF(s);
    hide Watch, Tracks, Emit, HandleSingle, HandleMulti, HandleStream, Linked, NoteCounts;
    var id, data := f[2], DataOf(f);
    if !s.awaiting {
      RejectionSettled(s, Rejection(id, UnexpectedDataId), h);
    } else if f[1] != s.cfg.bmsAddress {
      RejectionSettled(s, Rejection(id, BadSourceAddress), h);
    } else if id != s.queue[0].id {
      RejectionSettled(s, Rejection(id, UnexpectedDataId), h);
    } else if !MultiframeInfo(id).multi {
      SingleSettled(s, data, h);
    } else if MultiframeInfo(id).streaming {
      StreamSettled(s, data, h);
    } else {
      MultiSettled(s, data, h);
    }
  }

  lemma ErrorSettled(s: Sess, error: Framer.FrameError, h: Handlers)
    requires Settled(s)
    ensures Settled(OnFrameError(s, error, h))
  {
    assert WF(s);
    hide Watch, Tracks, Emit, Linked;
    var id := if s.awaiting then s.queue[0].id else CAPACITY_VOLTAGE;
    RejectionSettled(s, Rejection(id, if error == Framer.BadChecksum then Checksum else BadLength), h);
  }

  // ---------------------------------------------------------------------------
  // Time
  // ---------------------------------------------------------------------------

  lemma SilenceSettled(s: Sess, h: Handlers)
    requires Settled(s) && s.awaiting && s.xfer.framesSeen == 0
    ensures Settled(Complete(Emit(s, Event(Timeout, s.queue[0].id, NoError, s.retries, 0, NoPayload), h)))
  {
    var id, m := s.queue[0].id, Watched(s).value;
    var e := Event(Timeout, id, NoError, s.retries, 0, NoPayload);
    assert FramesHeard(id, m.heard) == 0;
    if Paginated(id) && m.heard != [] {
      SomeHeard(id, m.heard);
    }
    assert FinalFits(m, e);
    hide Watch, Complete, Emit, Tracks, FinalFits;
    FinalSettled(s, e, h);
  }

  lemma ExpirySettled(s: Sess, h: Handlers)
    requires Settled(s) && s.awaiting
    ensures Settled(OnExpiry(s, h))
  {
    hide Watch, PagesTrack, Counters, AllHeard, ExpectedFrames, FinishMulti, Complete, Emit, Transmit, Tail;
    var id, m := s.queue[0].id, Watched(s).value;
    assert s.xfer.framesSeen == FramesHeard(id, m.heard);
    if Paginated(id) && s.xfer.framesSeen > 0 {
      NothingHeard(id, m.heard);
      hide Tracks;
      FinishSettled(s, h);
    } else if id == FAULT_RECORDS && s.xfer.framesSeen > 0 {
      hide Tracks;
      FinalSettled(s, Event(ProtocolError, id, Truncated, 0, s.xfer.framesSeen, NoPayload), h);
    } else if s.retries < s.cfg.maxRetries {
      TransmitSettled(s.(retries := s.retries + 1));
    } else {
      SilenceSettled(s, h);
    }
  }

  lemma NothingHeard(id: byte, heard: seq<DataBytes>)
    requires Paginated(id) && FramesHeard(id, heard) > 0
    ensures heard != []
  {
  }

  lemma SomeHeard(id: byte, heard: seq<DataBytes>)
    requires Paginated(id) && heard != []
    ensures FramesHeard(id, heard) > 0
  {
  }

  lemma TickSettled(s: Sess, now: nat, h: Handlers)
    requires Settled(s)
    ensures Settled(Tick(s, now, h))
  {
    hide Watch, Tracks, OnExpiry;
    var ticked := s.(now := Read(s.cfg.clock, now));
    assert Settled(ticked);
    if s.awaiting {
      ExpirySettled(ticked, h);
    }
  }

  // ---------------------------------------------------------------------------
  // Runs
  // ---------------------------------------------------------------------------

  lemma AcceptSettled(s: Sess, req: Request)
    requires Settled(s) && Verdict(s, req) == Queued
    ensures Settled(Enqueue(s, req))
  {
    hide Watch, Pump, Tracks;
    var r := Accept(s, req);
    AcceptLinked(s, req);
    if s.awaiting {
      assert r.queue[0] == s.queue[0] && Watched(r).value.heard == Watched(s).value.heard;
      SameReply(s.xfer, s.queue[0].id, Watched(s).value, Watched(r).value);
    }
    PumpSettled(r);
  }

  lemma SameReply(x: Transfer, id: byte, m: Mon, n: Mon)
    requires Tracks(x, id, m) && n.items == m.items && n.heard == m.heard && n.records == m.records
    ensures Tracks(x, id, n)
  {
  }

  lemma CallSettled(s: Sess, op: Op)
    requires Settled(s)
    ensures Settled(RunOp(s, op))
  {
    if op.Poll? {
      hide Watch, Linked, Tracks, Pump, Accept;
      if Verdict(s, op.req) == Queued {
        AcceptSettled(s, op.req);
      }
    } else {
      hide Watch, Tracks;
      if op.ResetAll? {
        DropLinked(s);
      }
    }
  }

  lemma StepSettled(s: Sess, i: Input, h: Handlers)
    requires Settled(s)
    ensures Settled(Step(s, i, h))
  {
    hide Watch, Tracks, OnFrame, OnFrameError, Tick, RunOp;
    match i
    case Byte(b) =>
      var (parser, outs) := Framer.Step(s.parser, b);
      var fed := s.(parser := parser);
      hide Framer.Step;
      assert Settled(fed);
      if outs != [] {
        match outs[0]
        case Frame(f) => FrameSettled(fed, f, h);
        case Rejected(e) => ErrorSettled(fed, e, h);
      }
    case Deliver(f) => FrameSettled(s, f, h);
    case Spoilt(e) => ErrorSettled(s, e, h);
    case TickTo(now) => TickSettled(s, now, h);
    case Call(op) => CallSettled(s, op);
  }

  /** The main safety theorem: over any inputs and any handler scripts, from construction on, the monitor accepts
      the history, and the session's queue, phase, buffers and counters are what that history says they should be. */
  lemma {:induction false} RunSettled(cfg: Config, inputs: seq<(Input, Handlers)>)
    requires 1 <= cfg.capacity
    ensures Settled(Run(Init(cfg), inputs))
    decreases |inputs|
  {
    hide Settled, Step;
    if inputs == [] {
      InitSettled(cfg);
    } else {
      var last := inputs[|inputs| - 1];
      RunSettled(cfg, inputs[..|inputs| - 1]);
      StepSettled(Run(Init(cfg), inputs[..|inputs| - 1]), last.0, last.1);
    }
  }
}
