/**
 With handlers that make no calls, a frame the session turns away is a stuttering
 step: it is reported, and nothing else happens. Deleting every such frame from a
 run changes nothing but those reports.
 */
module Stuttering {
  import opened Bytes
  import opened Protocol
  import opened Bits
  import opened Decode
  import opened Session
  import opened Monitor
  import opened WorkConservation
  import Framer

  const QUIET: Handlers := Handlers([], [])

  /** A frame or framing error the session reports and turns away. */
  predicate Refused(s: Sess, i: Input)
    requires WF(s)
  {
    !i.Byte? && Rejects(s, i)
  }

  /** The report made of it. */
  function Report(s: Sess, i: Input): (e: Event)
    requires WF(s) && Refused(s, i)
    ensures IsRejection(e)
  {
    match i
    case Deliver(f) =>
      if !s.awaiting then Rejection(f[2], UnexpectedDataId)
      else if f[1] != s.cfg.bmsAddress then Rejection(f[2], BadSourceAddress)
      else if f[2] != s.queue[0].id then Rejection(f[2], UnexpectedDataId)
      else Rejection(f[2], FrameSequence)
    case Spoilt(e) =>
      Rejection(if s.awaiting then s.queue[0].id else CAPACITY_VOLTAGE,
                if e == Framer.BadChecksum then Checksum else BadLength)
  }

  lemma QuietEmit(s: Sess, e: Event)
    requires WF(s)
    ensures Emit(s, e, QUIET) == Logged(Logged(s, Raised(Owner(s), OwnHandler(s), e)), Finished(e))
  {
  }

  /** A refused frame leaves queue, reply, deadline, retries, counts and parser exactly as they were. */
  lemma {:induction false} RefusalStutters(s: Sess, i: Input)
    requires WF(s) && Refused(s, i)
    ensures var e := Report(s, i);
            Step(s, i, QUIET) == s.(log := s.log + [Raised(Owner(s), OwnHandler(s), e), Finished(e)])
  {
    var e := Report(s, i);
    QuietEmit(s, e);
    assert (s.log + [Raised(Owner(s), OwnHandler(s), e)]) + [Finished(e)]
           == s.log + [Raised(Owner(s), OwnHandler(s), e), Finished(e)];
    hide Emit;
  }

  // ---------------------------------------------------------------------------
  // Sessions alike but for such reports
  // ---------------------------------------------------------------------------

  predicate Shown(o: Obs) {
    match o
    case Raised(_, _, e) => !IsRejection(e)
    case Finished(e) => !IsRejection(e)
    case _ => true
  }

  /** The history without the reports of refused frames. */
  function Visible(log: seq<Obs>): seq<Obs> {
    if log == [] then []
    else Visible(log[..|log| - 1]) + if Shown(log[|log| - 1]) then [log[|log| - 1]] else []
  }

  predicate Alike(s: Sess, t: Sess) {
    WF(s) && s.(log := []) == t.(log := []) && Visible(s.log) == Visible(t.log)
  }

  lemma LoggedAlike(s: Sess, t: Sess, o: Obs)
    requires Alike(s, t)
    ensures Alike(Logged(s, o), Logged(t, o))
    ensures !Shown(o) ==> Alike(Logged(s, o), t)
  {
  }

  lemma TransmitAlike(s: Sess, t: Sess)
    requires Alike(s, t) && s.queue != []
    ensures Alike(Transmit(s), Transmit(t))
  {
    hide Visible, Shown, Encode, Read;
    LoggedAlike(s, t, Sent(HeadTicket(s), Encode(s.cfg.host, s.queue[0].id, s.queue[0].data)));
  }

  lemma PumpAlike(s: Sess, t: Sess)
    requires Alike(s, t)
    ensures Alike(Pump(s), Pump(t))
  {
    hide Visible, Transmit;
    if !s.awaiting && s.queue != [] {
      var s1, t1 := s.(awaiting := true), t.(awaiting := true);
      LoggedAlike(s1, t1, Begun(HeadTicket(s1), ItemsFor(s.queue[0], s.cachedCells, s.cachedTemps)));
      TransmitAlike(BeginAwaiting(s1), BeginAwaiting(t1));
    }
  }

  lemma CompleteAlike(s: Sess, t: Sess)
    requires Alike(s, t)
    ensures Alike(Complete(s), Complete(t))
  {
    hide Visible, Pump;
    LoggedAlike(s, t, Retired(HeadTicket(s)));
    PumpAlike(Retire(s), Retire(t));
  }

  lemma EmitAlike(s: Sess, t: Sess, e: Event)
    requires Alike(s, t)
    ensures Alike(Emit(s, e, QUIET), Emit(t, e, QUIET))
  {
    hide Visible, Shown, Emit;
    var o := Raised(Owner(s), OwnHandler(s), e);
    assert Owner(t) == Owner(s) && OwnHandler(t) == OwnHandler(s);
    QuietEmit(s, e);
    QuietEmit(t, e);
    hide Alike;
    LoggedAlike(s, t, o);
    LoggedAlike(Logged(s, o), Logged(t, o), Finished(e));
  }

  lemma FinalAlike(s: Sess, t: Sess, e: Event)
    requires Alike(s, t)
    ensures Alike(Complete(Emit(s, e, QUIET)), Complete(Emit(t, e, QUIET)))
  {
    assert WF(t);
    hide Emit, Complete, Alike;
    EmitAlike(s, t, e);
    CompleteAlike(Emit(s, e, QUIET), Emit(t, e, QUIET));
  }

  lemma ReplyAlike(s: Sess, t: Sess, id: byte, data: DataBytes)
    requires Alike(s, t) && s.awaiting && s.queue[0].id == id
    ensures Alike(OnReply(s, id, data, QUIET), OnReply(t, id, data, QUIET))
  {
    hide Visible, Emit, Complete, File, MultiEvent, Appended, DeliverOrWait;
    LoggedAlike(s, t, Heard(id, data));
    var s1, t1 := Logged(s, Heard(id, data)), Logged(t, Heard(id, data));
    if !MultiframeInfo(id).multi {
      FinalAlike(s1, t1, SingleEvent(s.queue[0], id, data));
    } else if !MultiframeInfo(id).streaming {
      EmitAlike(s, t, Rejection(id, FrameSequence));
      if data[0] <= MAX_FRAME_INDEX {
        var s2, t2 := FilePage(s, id, data), FilePage(t, id, data);
        FinalAlike(s2, t2, MultiEvent(s2.xfer, id));
      }
    } else if data[0] == FRAME_NO_END {
      CompleteAlike(s1, t1);
    } else {
      DeliverAlike(s1.(xfer := Appended(s.xfer, data)), t1.(xfer := Appended(t.xfer, data)), id);
    }
  }

  lemma DeliverAlike(s: Sess, t: Sess, id: byte)
    requires Alike(s, t)
    ensures Alike(DeliverOrWait(s, id, QUIET), DeliverOrWait(t, id, QUIET))
  {
    hide Visible, Emit, Pump, DecodeFault;
    var decoded := DecodeFault(s.xfer.record);
    if decoded.Some? {
      EmitAlike(s, t, FaultEvent(id, decoded.value));
    }
    var s1 := if |s.xfer.record| < FAULT_BUFFER_LEN then s else DeliverRecord(s, id, QUIET);
    var t1 := if |s.xfer.record| < FAULT_BUFFER_LEN then t else DeliverRecord(t, id, QUIET);
    PumpAlike(s1, t1);
  }

  lemma FrameAlike(s: Sess, t: Sess, f: Message)
    requires Alike(s, t)
    ensures Alike(OnFrame(s, f, QUIET), OnFrame(t, f, QUIET))
  {
    hide Visible, Emit, OnReply;
    EmitAlike(s, t, Rejection(f[2], UnexpectedDataId));
    EmitAlike(s, t, Rejection(f[2], BadSourceAddress));
    if s.awaiting && f[2] == s.queue[0].id {
      ReplyAlike(NoteCounts(s, f[2], DataOf(f)), NoteCounts(t, f[2], DataOf(f)), f[2], DataOf(f));
    }
  }

  lemma ErrorAlike(s: Sess, t: Sess, error: Framer.FrameError)
    requires Alike(s, t)
    ensures Alike(OnFrameError(s, error, QUIET), OnFrameError(t, error, QUIET))
  {
    hide Visible, Emit;
    EmitAlike(s, t, Rejection(if s.awaiting then s.queue[0].id else CAPACITY_VOLTAGE,
                              if error == Framer.BadChecksum then Checksum else BadLength));
  }

  lemma TickAlike(s: Sess, t: Sess, now: nat)
    requires Alike(s, t)
    ensures Alike(Tick(s, now, QUIET), Tick(t, now, QUIET))
  {
    hide Visible, Emit, Complete, Transmit, MultiEvent;
    var s1, t1 := s.(now := Read(s.cfg.clock, now)), t.(now := Read(s.cfg.clock, now));
    if s.awaiting {
      var id := s.queue[0].id;
      FinalAlike(s1, t1, MultiEvent(s.xfer, id));
      FinalAlike(s1, t1, Event(ProtocolError, id, Truncated, 0, s.xfer.framesSeen, NoPayload));
      FinalAlike(s1, t1, Event(Timeout, id, NoError, s.retries, 0, NoPayload));
      if s.retries < s.cfg.maxRetries {
        TransmitAlike(s1.(retries := s.retries + 1), t1.(retries := s.retries + 1));
      }
    }
  }

  lemma CallAlike(s: Sess, t: Sess, op: Op)
    requires Alike(s, t)
    ensures Alike(RunOp(s, op), RunOp(t, op))
  {
    hide Visible, Pump;
    if op.Poll? && Verdict(s, op.req) == Queued {
      LoggedAlike(s, t, Accepted(s.accepted, op.req));
      PumpAlike(Accept(s, op.req), Accept(t, op.req));
    } else if op.ResetAll? {
      LoggedAlike(s, t, Dropped);
    }
  }

  lemma StepAlike(s: Sess, t: Sess, i: Input)
    requires Alike(s, t)
    ensures Alike(Step(s, i, QUIET), Step(t, i, QUIET))
  {
    hide Visible, OnFrame, OnFrameError, Tick, RunOp;
    match i
    case Byte(b) =>
      var (parser, outs) := Framer.Step(s.parser, b);
      var s1, t1 := s.(parser := parser), t.(parser := parser);
      hide Framer.Step;
      if outs != [] {
        match outs[0]
        case Frame(f) => FrameAlike(s1, t1, f);
        case Rejected(e) => ErrorAlike(s1, t1, e);
      }
    case Deliver(f) => FrameAlike(s, t, f);
    case Spoilt(e) => ErrorAlike(s, t, e);
    case TickTo(now) => TickAlike(s, t, now);
    case Call(op) => CallAlike(s, t, op);
  }

  // ---------------------------------------------------------------------------
  // Runs
  // ---------------------------------------------------------------------------

  function QuietRun(s: Sess, inputs: seq<Input>): (r: Sess)
    requires WF(s)
    ensures WF(r)
    decreases |inputs|
  {
    if inputs == [] then s else Step(QuietRun(s, inputs[..|inputs| - 1]), inputs[|inputs| - 1], QUIET)
  }

  /** The run without the frames it refuses. */
  function Kept(s: Sess, inputs: seq<Input>): seq<Input>
    requires WF(s)
    decreases |inputs|
  {
    if inputs == [] then []
    else
      var init, last := inputs[..|inputs| - 1], inputs[|inputs| - 1];
      if Refused(QuietRun(s, init), last) then Kept(s, init) else Kept(s, init) + [last]
  }

  /** Deleting every refused frame from a run leaves the final session the same, and the same history but for the
      reports. */
  lemma {:induction false} RefusedFramesAreNoise(s: Sess, inputs: seq<Input>)
    requires WF(s)
    ensures Alike(QuietRun(s, inputs), QuietRun(s, Kept(s, inputs)))
    decreases |inputs|
  {
    hide Step, Visible, Refused;
    if inputs != [] {
      var init, last := inputs[..|inputs| - 1], inputs[|inputs| - 1];
      var r, k := QuietRun(s, init), QuietRun(s, Kept(s, init));
      RefusedFramesAreNoise(s, init);
      if Refused(r, last) {
        RefusalAlike(r, k, last);
      } else {
        StepAlike(r, k, last);
        assert (Kept(s, init) + [last])[..|Kept(s, init)|] == Kept(s, init);
      }
    }
  }

  lemma RefusalAlike(s: Sess, t: Sess, i: Input)
    requires Alike(s, t) && Refused(s, i)
    ensures Alike(Step(s, i, QUIET), t)
  {
    hide Step, Visible, Report, Refused, IsRejection;
    var e := Report(s, i);
    var o := Raised(Owner(s), OwnHandler(s), e);
    RefusalStutters(s, i);
    assert (s.log + [o]) + [Finished(e)] == s.log + [o, Finished(e)];
    hide Alike;
    LoggedAlike(s, t, o);
    LoggedAlike(Logged(s, o), t, Finished(e));
  }
}
