/**
 Reassembly, end to end: a reply split into pages, numbered from any base and
 delivered in any order with any repetitions, comes out once, whole, at the first
 moment every page has arrived.
 */
module RoundTrip {
  import opened Bytes
  import opened Protocol
  import opened Bits
  import opened Decode
  import opened Session
  import opened Monitor
  import opened Safety
  import opened Histories
  import Framer
  import Stuttering
  import WorkConservation

  // ---------------------------------------------------------------------------
  // How many items a reply reports
  // ---------------------------------------------------------------------------

  /** The longest payload of a full reply: what its frames carry less the padding of the last. */
  function Nominal(id: byte, items: byte): nat {
    if id == CELL_VOLTAGES then 2 * Min(items, MAX_CELLS)
    else if id == CELL_TEMPERATURES then Min(items, MAX_TEMPERATURES)
    else MultiframeInfo(id).totalBytes
  }

  /** A complete reply of known size is trimmed to its nominal length, and holds at least that much. */
  lemma FullReplyIsNominal(id: byte, items: byte, size: nat)
    requires Paginated(id) && ExpectedFrames(id, items) > 0
    requires (id != CELL_VOLTAGES && id != CELL_TEMPERATURES) ==> items == 0
    requires size == Offset(ExpectedFrames(id, items), MultiframeInfo(id).bytesPerFrame)
    ensures TrimmedLen(id, items, size) == Nominal(id, items) <= size
  {
  }

  // ---------------------------------------------------------------------------
  // Pages
  // ---------------------------------------------------------------------------

  /** d carries one of the chunks, numbered from b. */
  predicate PageOf(d: DataBytes, b: nat, chunks: seq<seq<byte>>, width: nat)
    requires width <= 7
  {
    b <= d[0] < b + |chunks| && d[1..1 + width] == chunks[d[0] - b]
  }

  ghost predicate AllPages(heard: seq<DataBytes>, b: nat, chunks: seq<seq<byte>>, width: nat)
    requires width <= 7
  {
    forall k :: 0 <= k < |heard| ==> PageOf(heard[k], b, chunks, width)
  }

  ghost predicate Covered(heard: seq<DataBytes>, b: nat, n: nat) {
    forall c :: b <= c < b + n ==> c in Counters(heard)
  }

  /** Page number c is among them. */
  ghost predicate Arrived(pages: seq<DataBytes>, c: nat) {
    exists k :: 0 <= k < |pages| && pages[k][0] == c
  }

  lemma {:induction false} Numbered(heard: seq<DataBytes>, c: nat)
    ensures c in Counters(heard) <==> Arrived(heard, c)
    decreases |heard|
  {
    if heard != [] {
      var n := |heard| - 1;
      Numbered(heard[..n], c);
      if k :| 0 <= k < n && heard[k][0] == c {
        assert heard[..n][k][0] == c;
      }
      assert heard[n][0] == c ==> Arrived(heard, c);
    }
  }

  function Interval(b: nat, n: nat): (s: set<nat>)
    ensures |s| == n && forall c :: c in s <==> b <= c < b + n
  {
    if n == 0 then {} else Interval(b, n - 1) + {b + n - 1}
  }

  lemma {:induction false} PagesWithin(heard: seq<DataBytes>, b: nat, chunks: seq<seq<byte>>, width: nat)
    requires width <= 7 && AllPages(heard, b, chunks, width)
    ensures forall c :: c in Counters(heard) ==> b <= c < b + |chunks|
    ensures forall c :: c in Counters(heard) ==> Latest(heard, c, width) == chunks[c - b]
    decreases |heard|
  {
    if heard != [] {
      PagesWithin(heard[..|heard| - 1], b, chunks, width);
      assert PageOf(heard[|heard| - 1], b, chunks, width);
    }
  }

  lemma SubsetCardinality(a: set<nat>, s: set<nat>)
    requires a <= s
    ensures |a| <= |s| && (|a| == |s| ==> a == s)
  {
    assert s == a + (s - a);
    assert |s| == |a| + |s - a|;
  }

  /** All n counters have been heard exactly when n distinct ones have. */
  lemma CoveredIsCounted(heard: seq<DataBytes>, b: nat, chunks: seq<seq<byte>>, width: nat)
    requires width <= 7 && AllPages(heard, b, chunks, width)
    ensures |Counters(heard)| <= |chunks|
    ensures Covered(heard, b, |chunks|) <==> |Counters(heard)| >= |chunks|
  {
    PagesWithin(heard, b, chunks, width);
    SubsetCardinality(Counters(heard), Interval(b, |chunks|));
    if Covered(heard, b, |chunks|) {
      assert Counters(heard) == Interval(b, |chunks|);
    }
  }

  lemma {:induction false} PagesAreChunks(heard: seq<DataBytes>, b: nat, chunks: seq<seq<byte>>, width: nat, n: nat)
    requires width <= 7 && AllPages(heard, b, chunks, width) && n <= |chunks|
    requires forall c :: b <= c < b + n ==> c in Counters(heard)
    ensures Pages(heard, b, n, width) == Flat(chunks[..n])
    decreases n
  {
    if n > 0 {
      PagesAreChunks(heard, b, chunks, width, n - 1);
      PagesWithin(heard, b, chunks, width);
      assert chunks[..n][..n - 1] == chunks[..n - 1];
      assert b + n - 1 in Counters(heard);
    }
  }

  /** Whatever the base, the order and the repetitions, a covered reply reads as the chunks end to end. */
  lemma CoveredIsWhole(heard: seq<DataBytes>, b: nat, chunks: seq<seq<byte>>, width: nat)
    requires width <= 7 && AllPages(heard, b, chunks, width) && Covered(heard, b, |chunks|)
    requires chunks != [] && b + |chunks| <= MAX_FRAME_INDEX + 1
    ensures Unbroken(heard, width) == Flat(chunks)
    ensures |Flat(chunks)| == Offset(|chunks|, width)
  {
    var seen := Counters(heard);
    PagesWithin(heard, b, chunks, width);
    assert b in seen;
    LowestIs(seen, 0, b);
    RunIs(seen, b, |chunks|);
    hide LowestFrom, RunFrom;
    PagesAreChunks(heard, b, chunks, width, |chunks|);
    assert chunks[..|chunks|] == chunks;
  }

  // ---------------------------------------------------------------------------
  // Nothing is unwritten
  // ---------------------------------------------------------------------------

  lemma CompleteAppends(s: Sess)
    requires WF(s)
    ensures s.log <= Complete(s).log
  {
  }

  lemma OpAppends(s: Sess, op: Op)
    requires WF(s)
    ensures s.log <= RunOp(s, op).log
  {
  }

  lemma {:induction false} ScriptAppends(s: Sess, ops: seq<Op>)
    requires WF(s)
    ensures s.log <= RunScript(s, ops).log
    decreases |ops|
  {
    hide RunOp;
    if ops != [] {
      ScriptAppends(s, ops[..|ops| - 1]);
      OpAppends(RunScript(s, ops[..|ops| - 1]), ops[|ops| - 1]);
    }
  }

  lemma EmitAppends(s: Sess, e: Event, h: Handlers)
    requires WF(s)
    ensures s.log + [Raised(Owner(s), OwnHandler(s), e)] <= Emit(s, e, h).log
  {
    hide RunScript;
    var raised := Raise(s, e);
    ScriptAppends(raised, h.perRequest);
    ScriptAppends(raised, h.sessionWide);
    if OwnHandler(s).Some? {
      ScriptAppends(RunScript(raised, h.perRequest), h.sessionWide);
    }
  }

  lemma FinalAppends(s: Sess, e: Event, h: Handlers)
    requires WF(s)
    ensures s.log + [Raised(Owner(s), OwnHandler(s), e)] <= Complete(Emit(s, e, h)).log
  {
    EmitAppends(s, e, h);
    hide Emit, Complete;
    CompleteAppends(Emit(s, e, h));
  }

  // ---------------------------------------------------------------------------
  // What may happen meanwhile
  // ---------------------------------------------------------------------------

  /** An entry that says nothing of the reply in progress: a request queued behind it, or a frame turned away. */
  predicate Murmurs(o: Obs) {
    o.Accepted? || o.Finished? || (o.Raised? && IsRejection(o.event))
  }

  predicate Listens(o: Obs) {
    Murmurs(o) || o.Heard?
  }

  ghost predicate Murmured(log: seq<Obs>, more: seq<Obs>) {
    log <= more && forall k :: |log| <= k < |more| ==> Murmurs(more[k])
  }

  /** Since `log` frames have been heard or turned away and requests queued; no reply has been raised, nothing sent. */
  ghost predicate Listened(log: seq<Obs>, more: seq<Obs>) {
    log <= more && forall k :: |log| <= k < |more| ==> Listens(more[k])
  }

  /** The request in flight is still in flight, and the queue has at most grown. */
  ghost predicate Carried(s: Sess, r: Sess)
    requires WF(s)
  {
    && WF(r) && s.awaiting && r.awaiting
    && s.queue <= r.queue && s.accepted - |s.queue| == r.accepted - |r.queue|
    && s.cfg.bmsAddress == r.cfg.bmsAddress
    && Murmured(s.log, r.log)
  }

  lemma CarriedOn(s: Sess, a: Sess, r: Sess)
    requires WF(s) && WF(a) && Carried(s, a) && Carried(a, r)
    ensures Carried(s, r)
  {
    hide Murmurs, WF;
  }

  lemma LoggedCarried(s: Sess, o: Obs)
    requires WF(s) && s.awaiting && Murmurs(o)
    ensures Carried(s, Logged(s, o))
  {
    hide Murmurs;
  }

  lemma OpCarried(s: Sess, op: Op)
    requires WF(s) && s.awaiting && !op.ResetAll?
    ensures Carried(s, RunOp(s, op))
  {
  }

  lemma {:induction false} ScriptCarried(s: Sess, ops: seq<Op>)
    requires WF(s) && s.awaiting && WorkConservation.NoReset(ops)
    ensures Carried(s, RunScript(s, ops))
    decreases |ops|
  {
    hide RunOp;
    if ops != [] {
      var init := ops[..|ops| - 1];
      ScriptCarried(s, init);
      OpCarried(RunScript(s, init), ops[|ops| - 1]);
      CarriedOn(s, RunScript(s, init), RunScript(s, ops));
    }
  }

  /** Handlers that poll and configure, but do not reset. */
  ghost predicate Keep(h: Handlers) {
    WorkConservation.NoReset(h.perRequest) && WorkConservation.NoReset(h.sessionWide)
  }

  lemma RejectionCarried(s: Sess, e: Event, h: Handlers)
    requires WF(s) && s.awaiting && IsRejection(e) && Keep(h)
    ensures Carried(s, Emit(s, e, h))
  {
    hide RunScript, IsRejection, WorkConservation.NoReset;
    var o := Raised(Owner(s), OwnHandler(s), e);
    var raised, own := Raise(s, e), OwnHandler(s).Some?;
    LoggedCarried(s, o);
    var s1 := if own then RunScript(raised, h.perRequest) else raised;
    ScriptCarried(raised, h.perRequest);
    CarriedOn(s, raised, s1);
    ScriptCarried(s1, h.sessionWide);
    var told := RunHandlers(raised, own, h);
    CarriedOn(s, s1, told);
    LoggedCarried(told, Finished(e));
    CarriedOn(s, told, Logged(told, Finished(e)));
  }

  /** A frame turned away is reported, whatever the handlers do about it. */
  lemma RefusalCarried(s: Sess, i: Input, h: Handlers)
    requires WF(s) && s.awaiting && Stuttering.Refused(s, i) && Keep(h)
    ensures Carried(s, Step(s, i, h))
  {
    hide Emit, Carried, IsRejection, Keep;
    var e := Stuttering.Report(s, i);
    RejectionCarried(s, e, h);
    if i.Deliver? && Paginated(i.f[2]) {
      NothingNoted(s, i.f[2], DataOf(i.f));
    }
  }

  // ---------------------------------------------------------------------------
  // Collecting a reply
  // ---------------------------------------------------------------------------

  /** A frame from the battery in answer to the request in flight. */
  predicate Answers(s: Sess, f: Message)
    requires WF(s)
  {
    s.awaiting && f[1] == s.cfg.bmsAddress && f[2] == s.queue[0].id
  }

  /** Since `s0` these frames of its reply have been heard, and nothing has come of it yet. */
  ghost predicate Collecting(s0: Sess, s: Sess, heard: seq<DataBytes>) {
    && Settled(s0) && s0.awaiting && Settled(s) && s.awaiting
    && s0.queue <= s.queue && s0.accepted - |s0.queue| == s.accepted - |s.queue|
    && s0.cfg.bmsAddress == s.cfg.bmsAddress
    && ReplySoFar(s.log) == heard && ItemsSoFar(s.log) == ItemsSoFar(s0.log)
    && Listened(s0.log, s.log)
  }

  lemma CollectingSays(s0: Sess, s: Sess, heard: seq<DataBytes>)
    requires Collecting(s0, s, heard)
    ensures Settled(s0) && Settled(s) && WF(s0) && WF(s) && s0.awaiting && s.awaiting
    ensures s0.queue[0] == s.queue[0] && HeadTicket(s0) == HeadTicket(s) && s0.cfg.bmsAddress == s.cfg.bmsAddress
    ensures ReplySoFar(s.log) == heard && ItemsSoFar(s.log) == ItemsSoFar(s0.log) && Listened(s0.log, s.log)
  {
    hide Watch, Tracks, Listened, ReplySoFar, ItemsSoFar;
  }

  /** The monitor remembers the reply so far. */
  lemma Remembered(s: Sess)
    requires Settled(s)
    ensures Watched(s).value.heard == ReplySoFar(s.log) && Watched(s).value.items == ItemsSoFar(s.log)
  {
    ReplyIsHeard(s.cfg.capacity, s.cfg.host, s.log);
    hide Watch, ReplySoFar, ItemsSoFar, Tracks;
  }

  lemma {:induction false} MurmursKeepReply(log: seq<Obs>, more: seq<Obs>)
    requires Murmured(log, more)
    ensures ReplySoFar(more) == ReplySoFar(log) && ItemsSoFar(more) == ItemsSoFar(log)
    decreases |more|
  {
    if log == more {
    } else {
      var n := |more| - 1;
      assert Murmurs(more[n]) && more[..n] == log + more[|log|..n];
      MurmursKeepReply(log, more[..n]);
    }
  }

  lemma CarriedCollects(s0: Sess, s: Sess, r: Sess, heard: seq<DataBytes>)
    requires Collecting(s0, s, heard) && Carried(s, r) && Settled(r)
    ensures Collecting(s0, r, heard)
  {
    hide Settled, Murmurs, ReplySoFar, ItemsSoFar;
    MurmursKeepReply(s.log, r.log);
  }

  /** Neither the framer nor the clock is part of it. */
  lemma Elsewhere(s0: Sess, s: Sess, heard: seq<DataBytes>, parser: Framer.State, now: nat)
    requires Collecting(s0, s, heard)
    ensures Collecting(s0, s.(parser := parser, now := now), heard)
  {
    hide Watch, Tracks, ReplySoFar, ItemsSoFar, Listened;
  }

  lemma FrameIsPage(s: Sess, f: Message, h: Handlers)
    requires WF(s) && Answers(s, f) && Paginated(f[2]) && DataOf(f)[0] <= MAX_FRAME_INDEX
    ensures OnFrame(s, f, h) == FinishOrWait(FilePage(s, f[2], DataOf(f)), f[2], h)
  {
    assert NoteCounts(s, f[2], DataOf(f)) == s;
    hide FinishOrWait, FilePage;
  }

  /** The page filed, and what the session then makes of it. */
  lemma PageOutcome(s: Sess, f: Message)
    requires Settled(s) && Answers(s, f) && Paginated(f[2]) && DataOf(f)[0] <= MAX_FRAME_INDEX
    ensures var (id, d, heard) := (f[2], DataOf(f), ReplySoFar(s.log) + [DataOf(f)]);
            var page := FilePage(s, id, d);
            && WF(page) && page.awaiting && page.queue == s.queue && page.cfg == s.cfg && page.accepted == s.accepted
            && page.log == s.log + [Heard(id, d)] && page.now == s.now
            && PagesTrack(page.xfer, MultiframeInfo(id).bytesPerFrame, heard)
            && page.xfer.framesSeen == |Counters(heard)| && page.xfer.expectedItems == ItemsSoFar(s.log)
            && page.xfer.expectedFrames == ExpectedFrames(id, ItemsSoFar(s.log))
  {
    Remembered(s);
    var (id, d, m) := (f[2], DataOf(f), Watched(s).value);
    assert Orderly(s.xfer) && Tracks(s.xfer, id, m);
    assert FilePage(s, id, d).xfer == File(s.xfer, MultiframeInfo(id), d);
    hide Watched, Tracks, PagesTrack, File, Counters, ExpectedFrames, Settled, Linked, ReplySoFar, ItemsSoFar;
    PageTracks(s.xfer, id, m, d);
  }

  lemma PageCollected(s0: Sess, s: Sess, heard: seq<DataBytes>, f: Message, h: Handlers)
    requires Collecting(s0, s, heard) && Answers(s, f) && Paginated(f[2]) && DataOf(f)[0] <= MAX_FRAME_INDEX
    requires !AllHeard(f[2], ItemsSoFar(s.log), heard + [DataOf(f)])
    ensures Collecting(s0, OnFrame(s, f, h), heard + [DataOf(f)])
  {
    hide Settled, FilePage, OnFrame, FinishMulti, PagesTrack, Counters, ExpectedFrames, ReplySoFar, ItemsSoFar, Read,
         Listened;
    CollectingSays(s0, s, heard);
    var d, id := DataOf(f), f[2];
    PageOutcome(s, f);
    FrameIsPage(s, f, h);
    FrameSettled(s, f, h);
    ReplyLogged(s.log, Heard(id, d));
    ListenedOn(s0.log, s.log, Heard(id, d));
  }

  lemma ListenedOn(log: seq<Obs>, more: seq<Obs>, o: Obs)
    requires Listened(log, more) && Listens(o)
    ensures Listened(log, more + [o])
  {
    hide Listens;
  }

  /** The frame that completes the reply: one RESPONSE, then and there, whatever the handlers do with it. */
  lemma ReplyRaised(s: Sess, f: Message, h: Handlers, payload: Payload)
    requires Settled(s) && Answers(s, f) && Paginated(f[2]) && DataOf(f)[0] <= MAX_FRAME_INDEX
    requires AllHeard(f[2], ItemsSoFar(s.log), ReplySoFar(s.log) + [DataOf(f)])
    requires PagedPayload(f[2], ItemsSoFar(s.log), ReplySoFar(s.log) + [DataOf(f)]) == Some(payload)
    ensures WF(s)
    ensures var e := Event(Response, f[2], NoError, 0, |Counters(ReplySoFar(s.log) + [DataOf(f)])|, payload);
            (s.log + [Heard(f[2], DataOf(f))]) + [Raised(Some(HeadTicket(s)), s.queue[0].handler, e)]
              <= OnFrame(s, f, h).log
  {
    var id, all := f[2], ReplySoFar(s.log) + [DataOf(f)];
    var page := FilePage(s, id, DataOf(f));
    PageOutcome(s, f);
    FrameIsPage(s, f, h);
    hide Settled, ReplySoFar, ItemsSoFar, FilePage, OnFrame, Emit, Complete;
    PageEvent(page.xfer, id, all, payload);
    hide Counters, PagesTrack, PagedPayload, MultiEvent, ExpectedFrames;
    FinalAppends(page, MultiEvent(page.xfer, id), h);
  }

  lemma PageEvent(x: Transfer, id: byte, heard: seq<DataBytes>, payload: Payload)
    requires PagesTrack(x, MultiframeInfo(id).bytesPerFrame, heard) && heard != []
    requires x.framesSeen == |Counters(heard)| && PagedPayload(id, x.expectedItems, heard) == Some(payload)
    ensures MultiEvent(x, id) == Event(Response, id, NoError, 0, |Counters(heard)|, payload)
  {
    CollectedIsUnbroken(x, id, heard);
    hide PagesTrack, Counters, Collected, Unbroken, DecodePages, TrimmedLen;
  }

  // ---------------------------------------------------------------------------
  // Runs that bring a reply
  // ---------------------------------------------------------------------------

  /** A page of the reply. */
  predicate IsPage(s: Sess, f: Message, b: nat, chunks: seq<seq<byte>>)
    requires WF(s) && s.awaiting
  {
    var width := MultiframeInfo(s.queue[0].id).bytesPerFrame;
    Answers(s, f) && width <= 7 && PageOf(DataOf(f), b, chunks, width)
  }

  /** The framer's callbacks that one input comes to. */
  function Brings(p: Framer.State, i: Input): seq<Framer.Output> {
    match i
    case Byte(b) => Framer.Step(p, b).1
    case Deliver(f) => [Framer.Frame(f)]
    case Spoilt(e) => [Framer.Rejected(e)]
    case _ => []
  }

  /** The framer's callbacks over a run, in order. */
  function Came(s: Sess, inputs: seq<(Input, Handlers)>): seq<Framer.Output>
    requires WF(s)
    decreases |inputs|
  {
    if inputs == [] then []
    else
      var n := |inputs| - 1;
      Came(s, inputs[..n]) + Brings(Run(s, inputs[..n]).parser, inputs[n].0)
  }

  /** Every frame that came is a page of the reply or is turned away. */
  ghost predicate AllPagesOrRefused(s: Sess, outs: seq<Framer.Output>, b: nat, chunks: seq<seq<byte>>)
    requires WF(s) && s.awaiting
  {
    forall k :: 0 <= k < |outs| && outs[k].Frame? ==>
      IsPage(s, outs[k].bytes, b, chunks) || WorkConservation.TurnedAway(s, outs[k].bytes)
  }

  /** The payload field of a frame that is not turned away. */
  function PageIn(s: Sess, o: Framer.Output): seq<DataBytes>
    requires WF(s)
  {
    if o.Frame? && !WorkConservation.TurnedAway(s, o.bytes) then [DataOf(o.bytes)] else []
  }

  function PagesIn(s: Sess, outs: seq<Framer.Output>): seq<DataBytes>
    requires WF(s)
  {
    if outs == [] then [] else PagesIn(s, outs[..|outs| - 1]) + PageIn(s, outs[|outs| - 1])
  }

  lemma PagesInSnoc(s: Sess, outs: seq<Framer.Output>, o: Framer.Output)
    requires WF(s)
    ensures PagesIn(s, outs + [o]) == PagesIn(s, outs) + PageIn(s, o)
    ensures PageIn(s, o) == [] ==> PagesIn(s, outs + [o]) == PagesIn(s, outs)
  {
    assert (outs + [o])[..|outs|] == outs;
    hide PageIn;
  }

  /** No call resets the session, and neither does a handler. */
  ghost predicate NoResets(inputs: seq<(Input, Handlers)>) {
    forall k :: 0 <= k < |inputs| ==> Keep(inputs[k].1) && (inputs[k].0.Call? ==> !inputs[k].0.op.ResetAll?)
  }

  /** The tick finds the deadline pending at the time not yet expired. */
  predicate Early(s: Sess, i: Input) {
    i.TickTo? ==> !Expired(s.cfg.clock, Read(s.cfg.clock, i.now), s.deadline)
  }

  ghost predicate InTime(s: Sess, inputs: seq<(Input, Handlers)>)
    requires WF(s)
  {
    forall k :: 0 <= k < |inputs| ==> Early(Run(s, inputs[..k]), inputs[k].0)
  }

  lemma Prefixes(s: Sess, inputs: seq<(Input, Handlers)>, n: nat)
    requires WF(s) && n <= |inputs|
    ensures InTime(s, inputs) ==> InTime(s, inputs[..n])
    ensures NoResets(inputs) ==> NoResets(inputs[..n])
  {
    hide Early, Run, Keep;
    forall k | 0 <= k < n
      ensures inputs[..n][..k] == inputs[..k] && inputs[..n][k] == inputs[k]
    {
    }
  }

  /** A paginated request just begun, expecting as many pages as there are chunks, numbered from b. */
  ghost predicate Expecting(s: Sess, b: nat, chunks: seq<seq<byte>>) {
    && Settled(s) && s.awaiting && Paginated(s.queue[0].id)
    && ReplySoFar(s.log) == []
    && chunks != [] && |chunks| == ExpectedFrames(s.queue[0].id, ItemsSoFar(s.log))
    && b + |chunks| <= MAX_FRAME_INDEX + 1
  }

  lemma {:induction false} PagesInArePages(s: Sess, outs: seq<Framer.Output>, b: nat, chunks: seq<seq<byte>>)
    requires WF(s) && s.awaiting && MultiframeInfo(s.queue[0].id).bytesPerFrame <= 7
    requires AllPagesOrRefused(s, outs, b, chunks)
    ensures AllPages(PagesIn(s, outs), b, chunks, MultiframeInfo(s.queue[0].id).bytesPerFrame)
    decreases |outs|
  {
    hide WorkConservation.TurnedAway, PageOf;
    if outs != [] {
      var n := |outs| - 1;
      assert outs[..n] + [outs[n]] == outs;
      FewerPages(s, outs[..n], [outs[n]], b, chunks);
      PagesInArePages(s, outs[..|outs| - 1], b, chunks);
    }
  }

  lemma {:induction false} CoveredMore(heard: seq<DataBytes>, more: seq<DataBytes>, b: nat, n: nat)
    ensures Covered(heard, b, n) ==> Covered(heard + more, b, n)
    decreases |more|
  {
    hide Counters;
    if more == [] {
      assert heard + more == heard;
    } else {
      var k := |more| - 1;
      CoveredMore(heard, more[..k], b, n);
      assert heard + more == (heard + more[..k]) + [more[k]];
      CountersSnoc(heard + more[..k], more[k]);
    }
  }

  /** What is turned away depends on nothing that changes while the reply is collected. */
  lemma StillTurnedAway(s0: Sess, s: Sess, heard: seq<DataBytes>, f: Message)
    requires Collecting(s0, s, heard)
    ensures WF(s0) && WF(s) && (WorkConservation.TurnedAway(s0, f) <==> WorkConservation.TurnedAway(s, f))
    ensures Answers(s0, f) <==> Answers(s, f)
  {
    CollectingSays(s0, s, heard);
    hide Settled, Listened;
  }

  /** The reply is not yet whole with this page. */
  lemma NotYet(s: Sess, outs: seq<Framer.Output>, b: nat, chunks: seq<seq<byte>>)
    requires Expecting(s, b, chunks) && WF(s) && AllPagesOrRefused(s, outs, b, chunks)
    ensures AllHeard(s.queue[0].id, ItemsSoFar(s.log), PagesIn(s, outs)) <==> Covered(PagesIn(s, outs), b, |chunks|)
  {
    hide Settled, Covered, Counters, PagesIn, ItemsSoFar, ExpectedFrames, AllPages;
    PagesInArePages(s, outs, b, chunks);
    CoveredIsCounted(PagesIn(s, outs), b, chunks, MultiframeInfo(s.queue[0].id).bytesPerFrame);
  }

  /** A frame that comes while the reply is collected. */
  lemma FrameCollects(
    s0: Sess, s: Sess, outs: seq<Framer.Output>, f: Message, h: Handlers, b: nat, chunks: seq<seq<byte>>)
    requires Expecting(s0, b, chunks) && WF(s0) && Collecting(s0, s, PagesIn(s0, outs)) && Keep(h)
    requires AllPagesOrRefused(s0, outs + [Framer.Frame(f)], b, chunks)
    requires !Covered(PagesIn(s0, outs + [Framer.Frame(f)]), b, |chunks|)
    ensures Collecting(s0, OnFrame(s, f, h), PagesIn(s0, outs + [Framer.Frame(f)]))
  {
    var all := outs + [Framer.Frame(f)];
    assert all[|outs|] == Framer.Frame(f);
    hide PagesIn, Settled, OnFrame, Covered, Counters, ExpectedFrames, AllPages, AllHeard, Collecting, Keep, Carried;
    PagesInSnoc(s0, outs, Framer.Frame(f));
    CollectingSays(s0, s, PagesIn(s0, outs));
    StillTurnedAway(s0, s, PagesIn(s0, outs), f);
    if WorkConservation.TurnedAway(s0, f) {
      FrameRefused(s, f, h);
      CarriedCollects(s0, s, OnFrame(s, f, h), PagesIn(s0, outs));
    } else {
      NotYet(s0, all, b, chunks);
      hide WorkConservation.TurnedAway;
      PageCollected(s0, s, PagesIn(s0, outs), f, h);
    }
  }

  lemma FrameRefused(s: Sess, f: Message, h: Handlers)
    requires Settled(s) && WF(s) && s.awaiting && WorkConservation.TurnedAway(s, f) && Keep(h)
    ensures Carried(s, OnFrame(s, f, h)) && Settled(OnFrame(s, f, h))
  {
    FrameSettled(s, f, h);
    hide Settled, OnFrame, Keep, Carried;
    RefusalCarried(s, Deliver(f), h);
  }

  /** A byte, whether or not it completes a frame or a false one. */
  lemma ByteCollects(
    s0: Sess, s: Sess, outs: seq<Framer.Output>, c: byte, h: Handlers, b: nat, chunks: seq<seq<byte>>)
    requires Expecting(s0, b, chunks) && WF(s0) && s0.awaiting && WF(s) && Collecting(s0, s, PagesIn(s0, outs))
    requires Keep(h)
    requires var all := outs + Framer.Step(s.parser, c).1;
             AllPagesOrRefused(s0, all, b, chunks) && !Covered(PagesIn(s0, all), b, |chunks|)
    ensures Collecting(s0, OnByte(s, c, h), PagesIn(s0, outs + Framer.Step(s.parser, c).1))
  {
    hide Framer.Step, Expecting, AllPagesOrRefused, OnFrame, OnFrameError, PagesIn, Covered, Collecting, Keep;
    var (p, os) := Framer.Step(s.parser, c);
    Elsewhere(s0, s, PagesIn(s0, outs), p, s.now);
    OneCallback(s.parser, c);
    if os == [] {
      assert outs + os == outs;
    } else {
      assert os == [os[0]];
      match os[0]
      case Frame(f) => FrameCollects(s0, s.(parser := p), outs, f, h, b, chunks);
      case Rejected(e) => ErrorCollects(s0, s.(parser := p), outs, e, h);
    }
  }

  /** A poll or a setting queues at most. */
  lemma CallCollects(s0: Sess, s: Sess, op: Op, heard: seq<DataBytes>)
    requires WF(s0) && WF(s) && Collecting(s0, s, heard) && !op.ResetAll?
    ensures Collecting(s0, RunOp(s, op), heard)
  {
    hide Settled, RunOp, Carried, Collecting;
    CollectingSays(s0, s, heard);
    CallSettled(s, op);
    OpCarried(s, op);
    CarriedCollects(s0, s, RunOp(s, op), heard);
  }

  /** One more input, whatever it is: as long as it does not complete the reply, the session goes on collecting. */
  lemma StepCollects(
    s0: Sess, s: Sess, outs: seq<Framer.Output>, i: Input, h: Handlers, b: nat, chunks: seq<seq<byte>>)
    requires Expecting(s0, b, chunks) && WF(s0) && s0.awaiting && WF(s) && Collecting(s0, s, PagesIn(s0, outs))
    requires Keep(h) && (i.Call? ==> !i.op.ResetAll?) && Early(s, i)
    requires var all := outs + Brings(s.parser, i);
             AllPagesOrRefused(s0, all, b, chunks) && !Covered(PagesIn(s0, all), b, |chunks|)
    ensures Collecting(s0, Step(s, i, h), PagesIn(s0, outs + Brings(s.parser, i)))
  {
    hide Framer.Step, Expecting, AllPagesOrRefused, OnByte, OnFrame, OnFrameError, RunOp, PagesIn, Covered, Collecting,
         Keep, Expired, OnExpiry;
    assert outs + [] == outs;
    match i
    case Byte(c) => ByteCollects(s0, s, outs, c, h, b, chunks);
    case Deliver(f) => FrameCollects(s0, s, outs, f, h, b, chunks);
    case Spoilt(e) => ErrorCollects(s0, s, outs, e, h);
    case TickTo(now) => Elsewhere(s0, s, PagesIn(s0, outs), s.parser, Read(s.cfg.clock, now));
    case Call(op) => CallCollects(s0, s, op, PagesIn(s0, outs));
  }

  lemma OneCallback(p: Framer.State, c: byte)
    ensures |Framer.Step(p, c).1| <= 1
  {
  }

  lemma ErrorCollects(s0: Sess, s: Sess, outs: seq<Framer.Output>, e: Framer.FrameError, h: Handlers)
    requires WF(s0) && WF(s) && Collecting(s0, s, PagesIn(s0, outs)) && Keep(h)
    ensures Collecting(s0, OnFrameError(s, e, h), PagesIn(s0, outs + [Framer.Rejected(e)]))
  {
    hide PagesIn, Settled, OnFrameError, Keep, Carried, Collecting;
    PagesInSnoc(s0, outs, Framer.Rejected(e));
    CollectingSays(s0, s, PagesIn(s0, outs));
    ErrorSettled(s, e, h);
    RefusalCarried(s, Spoilt(e), h);
    CarriedCollects(s0, s, OnFrameError(s, e, h), PagesIn(s0, outs));
  }

  /** Each input brings at most one callback. */
  lemma BringsOne(p: Framer.State, i: Input)
    ensures |Brings(p, i)| <= 1
  {
    if i.Byte? {
      OneCallback(p, i.b);
    }
    hide Framer.Step;
  }

  /** A cover, once there, stays. */
  lemma NotCoveredBefore(s: Sess, outs: seq<Framer.Output>, more: seq<Framer.Output>, b: nat, n: nat)
    requires WF(s) && |more| <= 1 && !Covered(PagesIn(s, outs + more), b, n)
    ensures !Covered(PagesIn(s, outs), b, n)
  {
    hide Covered, PagesIn, PageIn;
    if more == [] {
      assert outs + more == outs;
    } else {
      assert outs + more == outs + [more[0]];
      PagesInSnoc(s, outs, more[0]);
      CoveredMore(PagesIn(s, outs), PageIn(s, more[0]), b, n);
    }
  }

  lemma Last(s: Sess, inputs: seq<(Input, Handlers)>)
    requires WF(s) && inputs != []
    ensures var n := |inputs| - 1;
            && Run(s, inputs) == Step(Run(s, inputs[..n]), inputs[n].0, inputs[n].1)
            && Came(s, inputs) == Came(s, inputs[..n]) + Brings(Run(s, inputs[..n]).parser, inputs[n].0)
  {
    hide Step, Brings;
  }

  /** Until every page has arrived the session only listens, whatever else comes, short of a reset or a late tick. */
  lemma {:induction false} ListensUntilCovered(s: Sess, inputs: seq<(Input, Handlers)>, b: nat, chunks: seq<seq<byte>>)
    requires Expecting(s, b, chunks) && WF(s) && NoResets(inputs) && InTime(s, inputs)
    requires AllPagesOrRefused(s, Came(s, inputs), b, chunks)
    requires !Covered(PagesIn(s, Came(s, inputs)), b, |chunks|)
    ensures Collecting(s, Run(s, inputs), PagesIn(s, Came(s, inputs)))
    decreases |inputs|
  {
    if inputs == [] {
      NothingYet(s, b, chunks);
    } else {
      hide Came, Run, Step, Brings, Expecting, AllPagesOrRefused, Early, Keep, Covered, PagesIn, Collecting;
      var n := |inputs| - 1;
      var before, outs := Run(s, inputs[..n]), Came(s, inputs[..n]);
      var more := Brings(before.parser, inputs[n].0);
      Last(s, inputs);
      Prefixes(s, inputs, n);
      BringsOne(before.parser, inputs[n].0);
      NotCoveredBefore(s, outs, more, b, |chunks|);
      assert s.awaiting by { ExpectingWaits(s, b, chunks); }
      FewerPages(s, outs, more, b, chunks);
      ListensUntilCovered(s, inputs[..n], b, chunks);
      StepCollects(s, before, outs, inputs[n].0, inputs[n].1, b, chunks);
    }
  }

  lemma ExpectingWaits(s: Sess, b: nat, chunks: seq<seq<byte>>)
    requires Expecting(s, b, chunks)
    ensures WF(s) && s.awaiting
  {
  }

  lemma NothingYet(s: Sess, b: nat, chunks: seq<seq<byte>>)
    requires Expecting(s, b, chunks) && WF(s)
    ensures Collecting(s, Run(s, []), PagesIn(s, Came(s, [])))
  {
    hide Settled, ReplySoFar, ItemsSoFar;
  }

  lemma FewerPages(s: Sess, outs: seq<Framer.Output>, more: seq<Framer.Output>, b: nat, chunks: seq<seq<byte>>)
    requires WF(s) && s.awaiting && AllPagesOrRefused(s, outs + more, b, chunks)
    ensures AllPagesOrRefused(s, outs, b, chunks)
  {
    hide IsPage, WorkConservation.TurnedAway;
    forall k | 0 <= k < |outs|
      ensures (outs + more)[k] == outs[k]
    {
    }
  }

  // ---------------------------------------------------------------------------
  // The round trip
  // ---------------------------------------------------------------------------

  /** The one event such a reply comes to: the chunks end to end, cut at the nominal length and decoded. */
  function ReplyEvent(id: byte, items: byte, chunks: seq<seq<byte>>): Event {
    var bytes := Flat(chunks);
    var payload := DecodePages(id, bytes[..Min(Nominal(id, items), |bytes|)]);
    Event(Response, id, NoError, 0, |chunks|, if payload.Some? then payload.value else NoPayload)
  }

  lemma CoveredPayload(id: byte, items: byte, heard: seq<DataBytes>, b: nat, chunks: seq<seq<byte>>)
    requires Paginated(id) && AllPages(heard, b, chunks, MultiframeInfo(id).bytesPerFrame)
    requires chunks != [] && |chunks| == ExpectedFrames(id, items) && b + |chunks| <= MAX_FRAME_INDEX + 1
    requires id != CELL_VOLTAGES && id != CELL_TEMPERATURES ==> items == 0
    requires Covered(heard, b, |chunks|)
    ensures var e := ReplyEvent(id, items, chunks);
            && Nominal(id, items) <= |Flat(chunks)|
            && |Counters(heard)| == |chunks| && AllHeard(id, items, heard)
            && PagedPayload(id, items, heard) == Some(e.payload)
  {
    var width := MultiframeInfo(id).bytesPerFrame;
    CoveredIsCounted(heard, b, chunks, width);
    CoveredIsWhole(heard, b, chunks, width);
    FullReplyIsNominal(id, items, |Flat(chunks)|);
    hide Counters, Unbroken, Flat, Covered, AllPages, TrimmedLen, Nominal, ExpectedFrames, Offset;
  }

  /** No other command is sized by a count. */
  lemma SizedByCounts(s: Sess)
    requires Settled(s) && s.awaiting
    ensures s.queue[0].id != CELL_VOLTAGES && s.queue[0].id != CELL_TEMPERATURES ==> ItemsSoFar(s.log) == 0
  {
    Remembered(s);
    hide Watch, PagesTrack, AllHeard, ExpectedFrames, ReplySoFar, ItemsSoFar;
  }

  /** From `before` to `r` the reply of the request in flight in `s` was finished: its last page heard, and this event
      raised for its own handler; between `s` and `before` there was no sign of it. */
  ghost predicate Answered(s: Sess, before: Sess, r: Sess, d: DataBytes, e: Event)
    requires WF(s) && s.awaiting
  {
    && Listened(s.log, before.log)
    && (before.log + [Heard(s.queue[0].id, d)]) + [Raised(Some(HeadTicket(s)), s.queue[0].handler, e)] <= r.log
  }

  /** A frame that completes the cover is a page. */
  lemma NewPage(s: Sess, outs: seq<Framer.Output>, f: Message, b: nat, chunks: seq<seq<byte>>)
    requires WF(s) && s.awaiting && AllPagesOrRefused(s, outs + [Framer.Frame(f)], b, chunks)
    requires !Covered(PagesIn(s, outs), b, |chunks|) && Covered(PagesIn(s, outs + [Framer.Frame(f)]), b, |chunks|)
    ensures IsPage(s, f, b, chunks) && PagesIn(s, outs + [Framer.Frame(f)]) == PagesIn(s, outs) + [DataOf(f)]
  {
    assert (outs + [Framer.Frame(f)])[|outs|] == Framer.Frame(f);
    hide Covered, IsPage, WorkConservation.TurnedAway, PagesIn;
    PagesInSnoc(s, outs, Framer.Frame(f));
  }

  /** With everything else collected, the last missing page. */
  lemma LastPage(
    s: Sess, before: Sess, outs: seq<Framer.Output>, f: Message, h: Handlers, b: nat, chunks: seq<seq<byte>>)
    requires Expecting(s, b, chunks) && WF(s) && s.awaiting && Collecting(s, before, PagesIn(s, outs))
    requires AllPagesOrRefused(s, outs + [Framer.Frame(f)], b, chunks)
    requires !Covered(PagesIn(s, outs), b, |chunks|) && Covered(PagesIn(s, outs + [Framer.Frame(f)]), b, |chunks|)
    ensures var id, items := s.queue[0].id, ItemsSoFar(s.log);
            && WF(before) && Nominal(id, items) <= |Flat(chunks)|
            && Answered(s, before, OnFrame(before, f, h), DataOf(f), ReplyEvent(id, items, chunks))
  {
    var id, items, all := s.queue[0].id, ItemsSoFar(s.log), outs + [Framer.Frame(f)];
    hide PagesIn, Settled, Covered, WorkConservation.TurnedAway, OnFrame, Counters, AllPages, Flat, ItemsSoFar,
         ReplySoFar, PagedPayload, AllHeard, ReplyEvent, ExpectedFrames, Listened, AllPagesOrRefused, MultiframeInfo,
         Nominal, Collecting;
    NewPage(s, outs, f, b, chunks);
    PagesInArePages(s, all, b, chunks);
    SizedByCounts(s);
    CollectingSays(s, before, PagesIn(s, outs));
    CoveredPayload(id, items, PagesIn(s, all), b, chunks);
    ReplyRaised(before, f, h, ReplyEvent(id, items, chunks).payload);
    ReplyEventShape(id, items, chunks);
  }

  lemma ReplyEventShape(id: byte, items: byte, chunks: seq<seq<byte>>)
    ensures var e := ReplyEvent(id, items, chunks);
            e == Event(Response, id, NoError, 0, |chunks|, e.payload)
  {
  }

  /** The round trip. Pages numbered from any base, in any order, with any repetitions; between them bytes that come to
      nothing, corrupted frames, frames from elsewhere or for another command, ticks in time, polls and settings, with
      handlers that do anything but reset: nothing is raised for the request before the last missing page, and with it
      comes one RESPONSE to its own handler, carrying the chunks end to end, trimmed to the nominal length. */
  lemma {:induction false} ReassemblyRoundTrip(
    s: Sess, inputs: seq<(Input, Handlers)>, last: (Input, Handlers), f: Message, b: nat, chunks: seq<seq<byte>>)
    requires Expecting(s, b, chunks) && WF(s) && s.awaiting && NoResets(inputs) && InTime(s, inputs)
    requires Brings(Run(s, inputs).parser, last.0) == [Framer.Frame(f)]
    requires AllPagesOrRefused(s, Came(s, inputs) + [Framer.Frame(f)], b, chunks)
    requires !Covered(PagesIn(s, Came(s, inputs)), b, |chunks|)
    requires Covered(PagesIn(s, Came(s, inputs) + [Framer.Frame(f)]), b, |chunks|)
    ensures var id, items := s.queue[0].id, ItemsSoFar(s.log);
            && Nominal(id, items) <= |Flat(chunks)|
            && Answered(s, Run(s, inputs), Step(Run(s, inputs), last.0, last.1),
                        DataOf(f), ReplyEvent(id, items, chunks))
  {
    hide Came, Run, Framer.Step, AllPagesOrRefused, Covered, PagesIn, OnFrame, Flat, ReplyEvent, Collecting, Expecting,
         Answered, ItemsSoFar, Nominal, NoResets, InTime;
    var outs, before := Came(s, inputs), Run(s, inputs);
    FewerPages(s, outs, [Framer.Frame(f)], b, chunks);
    ListensUntilCovered(s, inputs, b, chunks);
    var p := if last.0.Byte? then Framer.Step(before.parser, last.0.b).0 else before.parser;
    Elsewhere(s, before, PagesIn(s, outs), p, before.now);
    LastPage(s, before.(parser := p), outs, f, last.1, b, chunks);
    assert Step(before, last.0, last.1) == OnFrame(before.(parser := p), f, last.1);
    SameLog(s, before, p, Step(before, last.0, last.1),
            DataOf(f), ReplyEvent(s.queue[0].id, ItemsSoFar(s.log), chunks));
  }

  lemma SameLog(s: Sess, before: Sess, p: Framer.State, r: Sess, d: DataBytes, e: Event)
    requires WF(s) && s.awaiting && Answered(s, before.(parser := p), r, d, e)
    ensures Answered(s, before, r, d, e)
  {
  }
}
