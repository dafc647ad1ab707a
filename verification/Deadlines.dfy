/**
 When the request in flight is given up on, in milliseconds after what last kept
 it alive: a transmission, or a frame of its reply that leaves it waiting for
 more.
 */
module Deadlines {
  import opened Bytes
  import opened Protocol
  import opened Bits
  import opened Decode
  import opened Session
  import ClockRefinement
  import Framer

  // ---------------------------------------------------------------------------
  // A tick counts from then
  // ---------------------------------------------------------------------------

  /** The tick is told apart from every other by its time: always, unless the clock wraps and it is half a turn away. */
  predicate Distinct(s: Sess, now: nat) {
    s.now <= now && (s.cfg.clock == Wrapping ==> now < s.now + 0x8000_0000)
  }

  /** The tick does nothing but move the clock. */
  predicate OnlyMovesClock(s: Sess, now: nat, h: Handlers)
    requires WF(s)
  {
    Tick(s, now, h) == s.(now := if s.cfg.clock == Wrapping then now % 0x1_0000_0000 else now)
  }

  /** The request in flight is left alone for exactly that many milliseconds. */
  ghost predicate LeftAloneFor(s: Sess, ms: nat)
    requires WF(s)
  {
    s.awaiting && forall now: nat, h: Handlers :: Distinct(s, now) ==> (OnlyMovesClock(s, now, h) <==> now < s.now + ms)
  }

  /** Timeouts the clock can count: any, unless it wraps, and then half a turn. */
  predicate Countable(clock: Clock, ms: nat) {
    clock == Wrapping ==> ms <= 0x8000_0000
  }

  lemma Counted(s: Sess, ms: uint32)
    requires WF(s) && s.awaiting && s.deadline == Read(s.cfg.clock, s.now + ms)
    ensures LeftAloneFor(s, ms) <==> Countable(s.cfg.clock, ms)
  {
    if Countable(s.cfg.clock, ms) {
      forall now: nat, h: Handlers | Distinct(s, now)
        ensures OnlyMovesClock(s, now, h) <==> now < s.now + ms
      {
        InReach(s.cfg.clock, s.now, ms, now);
        MovesClockEarly(s, now, h);
        hide OnlyMovesClock, Read, Expired;
      }
    } else {
      var h := Handlers([], []);
      OutOfReach(s.now, ms);
      MovesClockEarly(s, s.now, h);
      hide OnlyMovesClock, Read, Expired;
      assert Distinct(s, s.now) && !OnlyMovesClock(s, s.now, h);
    }
  }

  lemma MovesClockEarly(s: Sess, now: nat, h: Handlers)
    requires WF(s) && s.awaiting
    ensures OnlyMovesClock(s, now, h) <==> !Expired(s.cfg.clock, Read(s.cfg.clock, now), s.deadline)
  {
    var ticked := s.(now := Read(s.cfg.clock, now));
    assert ticked == s.(now := if s.cfg.clock == Wrapping then now % 0x1_0000_0000 else now) by { hide Expired; }
    hide OnExpiry, Wrap, Read, Expired;
    ClockRefinement.ExpiryShows(ticked, h);
  }

  lemma InReach(clock: Clock, from: nat, ms: nat, now: nat)
    requires Countable(clock, ms) && from <= now && (clock == Wrapping ==> now < from + 0x8000_0000)
    ensures Expired(clock, Read(clock, now), Read(clock, from + ms)) <==> from + ms <= now
  {
    hide Wrap;
    if clock == Wrapping {
      ClockRefinement.WrapDifference(now, from + ms);
      HalfTurn(now - (from + ms));
    }
  }

  lemma OutOfReach(from: nat, ms: uint32)
    requires 0x8000_0000 < ms
    ensures Expired(Wrapping, Read(Wrapping, from), Read(Wrapping, from + ms))
  {
    ClockRefinement.WrapDifference(from, from + ms);
    var ago: int := 0 - ms;
    ClockRefinement.WrapTurns(ago, 1);
    WrapSmall(0x1_0000_0000 - ms);
    hide Wrap;
  }

  lemma HalfTurn(n: int)
    requires -0x8000_0000 <= n < 0x8000_0000
    ensures Wrap(n) < 0x8000_0000 <==> 0 <= n
  {
    if n < 0 {
      ClockRefinement.WrapTurns(n, 1);
      WrapSmall(n + 0x1_0000_0000);
    } else {
      WrapSmall(n);
    }
    hide Wrap;
  }

  // ---------------------------------------------------------------------------
  // After a transmission
  // ---------------------------------------------------------------------------

  /** Since `log` no request has been begun or transmitted. */
  ghost predicate NothingAsked(log: seq<Obs>, more: seq<Obs>) {
    log <= more && forall k :: |log| <= k < |more| ==> !more[k].Begun? && !more[k].Sent?
  }

  /** Whatever was begun or transmitted since `log`, the response timeout runs from the end. */
  ghost predicate Armed(log: seq<Obs>, r: Sess) {
    && log <= r.log
    && (NothingAsked(log, r.log) || (r.awaiting && r.deadline == Read(r.cfg.clock, r.now + r.cfg.responseTimeout)))
  }

  lemma NothingAskedThen(log: seq<Obs>, mid: seq<Obs>, r: Sess)
    requires NothingAsked(log, mid) && Armed(mid, r)
    ensures Armed(log, r)
    ensures NothingAsked(mid, r.log) ==> NothingAsked(log, r.log)
  {
  }

  lemma NothingAskedArmed(log: seq<Obs>, r: Sess)
    requires NothingAsked(log, r.log)
    ensures Armed(log, r)
  {
  }

  lemma NothingAskedMore(log: seq<Obs>, o: Obs)
    requires !o.Begun? && !o.Sent?
    ensures NothingAsked(log, log + [o])
  {
  }

  lemma PumpArms(s: Sess)
    requires WF(s)
    ensures Armed(s.log, Pump(s))
  {
    hide Encode, ExpectedFrames, ItemsFor, Zeros, Read;
  }

  lemma CompleteArms(s: Sess)
    requires WF(s)
    ensures Armed(s.log, Complete(s))
  {
    PumpArms(Retire(s));
    NothingAskedThen(s.log, Retire(s).log, Pump(Retire(s)));
    hide Pump;
  }

  lemma OpAsksNothing(s: Sess, op: Op)
    requires WF(s) && s.dispatching
    ensures NothingAsked(s.log, RunOp(s, op).log) && RunOp(s, op).dispatching
  {
  }

  lemma {:induction false} ScriptAsksNothing(s: Sess, ops: seq<Op>)
    requires WF(s) && s.dispatching
    ensures NothingAsked(s.log, RunScript(s, ops).log) && RunScript(s, ops).dispatching
    decreases |ops|
  {
    hide RunOp;
    if ops != [] {
      ScriptAsksNothing(s, ops[..|ops| - 1]);
      OpAsksNothing(RunScript(s, ops[..|ops| - 1]), ops[|ops| - 1]);
    }
  }

  lemma EmitAsksNothing(s: Sess, e: Event, h: Handlers)
    requires WF(s)
    ensures NothingAsked(s.log, Emit(s, e, h).log)
  {
    hide RunScript;
    var raised, own := Raise(s, e), OwnHandler(s).Some?;
    ScriptAsksNothing(raised, h.perRequest);
    ScriptAsksNothing(if own then RunScript(raised, h.perRequest) else raised, h.sessionWide);
  }

  lemma RaiseArms(s: Sess, e: Event, h: Handlers)
    requires WF(s)
    ensures Armed(s.log, Emit(s, e, h))
  {
    hide Emit, NothingAsked, Armed;
    EmitAsksNothing(s, e, h);
    NothingAskedArmed(s.log, Emit(s, e, h));
  }

  lemma FinalArms(s: Sess, e: Event, h: Handlers)
    requires WF(s)
    ensures Armed(s.log, Complete(Emit(s, e, h)))
  {
    hide Emit, Complete, Armed, NothingAsked;
    EmitAsksNothing(s, e, h);
    CompleteArms(Emit(s, e, h));
    NothingAskedThen(s.log, Emit(s, e, h).log, Complete(Emit(s, e, h)));
  }

  lemma DeliverArms(s: Sess, id: byte, h: Handlers)
    requires WF(s)
    ensures Armed(s.log, DeliverOrWait(s, id, h))
  {
    hide Emit, Pump, DecodeFault;
    var decoded := DecodeFault(s.xfer.record);
    if decoded.Some? {
      EmitAsksNothing(s, FaultEvent(id, decoded.value), h);
    }
    var settled := if |s.xfer.record| < FAULT_BUFFER_LEN then s else DeliverRecord(s, id, h);
    assert NothingAsked(s.log, settled.log);
    hide DeliverRecord, NothingAsked;
    if settled.awaiting {
    } else {
      PumpArms(settled);
      NothingAskedThen(s.log, settled.log, Pump(settled));
    }
  }

  lemma ReplyArms(s: Sess, id: byte, data: DataBytes, h: Handlers)
    requires WF(s) && s.awaiting && s.queue[0].id == id
    ensures Armed(s.log, OnReply(s, id, data, h))
  {
    hide Emit, Complete, File, MultiEvent, Appended, DeliverOrWait, NothingAsked;
    var heard, r := s.log + [Heard(id, data)], OnReply(s, id, data, h);
    NothingAskedMore(s.log, Heard(id, data));
    if !MultiframeInfo(id).multi {
      FinalArms(Logged(s, Heard(id, data)), SingleEvent(s.queue[0], id, data), h);
      NothingAskedThen(s.log, heard, r);
    } else if MultiframeInfo(id).streaming {
      var grown := Logged(s, Heard(id, data)).(xfer := Appended(s.xfer, data));
      CompleteArms(Logged(s, Heard(id, data)));
      DeliverArms(grown, id, h);
      NothingAskedThen(s.log, heard, r);
    } else if data[0] > MAX_FRAME_INDEX {
      RaiseArms(s, Rejection(id, FrameSequence), h);
    } else {
      var page := FilePage(s, id, data);
      FinalArms(page, MultiEvent(page.xfer, id), h);
      if r.log != heard {
        NothingAskedThen(s.log, heard, r);
      }
    }
  }

  lemma FrameArms(s: Sess, f: Message, h: Handlers)
    requires WF(s)
    ensures Armed(s.log, OnFrame(s, f, h))
  {
    hide Emit, OnReply, NothingAsked;
    var id, data := f[2], DataOf(f);
    RaiseArms(s, Rejection(id, UnexpectedDataId), h);
    RaiseArms(s, Rejection(id, BadSourceAddress), h);
    if s.awaiting && id == s.queue[0].id {
      ReplyArms(NoteCounts(s, id, data), id, data, h);
    }
  }

  lemma ErrorArms(s: Sess, error: Framer.FrameError, h: Handlers)
    requires WF(s)
    ensures Armed(s.log, OnFrameError(s, error, h))
  {
    hide Emit, NothingAsked;
    var id := if s.awaiting then s.queue[0].id else CAPACITY_VOLTAGE;
    RaiseArms(s, Rejection(id, if error == Framer.BadChecksum then Checksum else BadLength), h);
  }

  lemma ExpiryArms(s: Sess, h: Handlers)
    requires WF(s) && s.awaiting
    ensures Armed(s.log, OnExpiry(s, h))
  {
    hide Emit, Complete, MultiEvent, NothingAsked, Encode;
    var id := s.queue[0].id;
    FinalArms(s, MultiEvent(s.xfer, id), h);
    FinalArms(s, Event(ProtocolError, id, Truncated, 0, s.xfer.framesSeen, NoPayload), h);
    FinalArms(s, Event(Timeout, id, NoError, s.retries, 0, NoPayload), h);
  }

  lemma CallArms(s: Sess, op: Op)
    requires WF(s)
    ensures Armed(s.log, RunOp(s, op))
  {
    if op.Poll? && Verdict(s, op.req) == Queued {
      NothingAskedMore(s.log, Accepted(s.accepted, op.req));
      PumpArms(Accept(s, op.req));
      NothingAskedThen(s.log, Accept(s, op.req).log, Pump(Accept(s, op.req)));
    }
    hide Pump;
  }

  lemma StepArms(s: Sess, i: Input, h: Handlers)
    requires WF(s)
    ensures Armed(s.log, Step(s, i, h))
  {
    hide OnFrame, OnFrameError, OnExpiry, RunOp, Expired, NothingAsked;
    NothingAskedRefl(s.log);
    match i
    case Byte(b) =>
      var (parser, outs) := Framer.Step(s.parser, b);
      hide Framer.Step;
      if outs != [] {
        match outs[0]
        case Frame(f) => FrameArms(s.(parser := parser), f, h);
        case Rejected(e) => ErrorArms(s.(parser := parser), e, h);
      }
    case Deliver(f) => FrameArms(s, f, h);
    case Spoilt(e) => ErrorArms(s, e, h);
    case TickTo(now) =>
      if s.awaiting {
        ExpiryArms(s.(now := Read(s.cfg.clock, now)), h);
      }
    case Call(op) => CallArms(s, op);
  }

  lemma NothingAskedRefl(log: seq<Obs>)
    ensures NothingAsked(log, log)
  {
  }

  /** A request just begun or transmitted, for the first time or again, is left alone for the response timeout: a tick
      before that only moves the clock, and no later one only does. On the wrapping clock that is so exactly up to half
      a turn; a longer timeout has run out as soon as it is set. */
  lemma ResponseDeadline(s: Sess, i: Input, h: Handlers)
    requires WF(s) && !NothingAsked(s.log, Step(s, i, h).log)
    ensures var r := Step(s, i, h);
            LeftAloneFor(r, r.cfg.responseTimeout) <==> Countable(r.cfg.clock, r.cfg.responseTimeout)
  {
    hide Step, LeftAloneFor, NothingAsked, Countable;
    var r := Step(s, i, h);
    StepArms(s, i, h);
    Counted(r, r.cfg.responseTimeout);
  }

  // ---------------------------------------------------------------------------
  // After a frame of the reply
  // ---------------------------------------------------------------------------

  /** The request in flight is still in flight, or over for good. */
  predicate Past(s: Sess, r: Sess)
    requires WF(s) && WF(r)
  {
    HeadTicket(s) <= HeadTicket(r) && (HeadTicket(s) == HeadTicket(r) && s.awaiting ==> r.awaiting)
  }

  lemma OpPast(s: Sess, op: Op)
    requires WF(s)
    ensures Past(s, RunOp(s, op))
  {
  }

  lemma {:induction false} ScriptPast(s: Sess, ops: seq<Op>)
    requires WF(s)
    ensures Past(s, RunScript(s, ops))
    decreases |ops|
  {
    hide RunOp, WF;
    if ops != [] {
      ScriptPast(s, ops[..|ops| - 1]);
      OpPast(RunScript(s, ops[..|ops| - 1]), ops[|ops| - 1]);
    }
  }

  lemma EmitPast(s: Sess, e: Event, h: Handlers)
    requires WF(s)
    ensures Past(s, Emit(s, e, h))
  {
    hide RunScript;
    var raised, own := Raise(s, e), OwnHandler(s).Some?;
    ScriptPast(raised, h.perRequest);
    ScriptPast(if own then RunScript(raised, h.perRequest) else raised, h.sessionWide);
  }

  lemma FinalPast(s: Sess, e: Event, h: Handlers)
    requires WF(s) && s.awaiting
    ensures HeadTicket(s) < HeadTicket(Complete(Emit(s, e, h)))
  {
    hide Emit, Encode, ExpectedFrames, ItemsFor, Zeros;
    EmitPast(s, e, h);
  }

  /** A page of a paginated reply, or a fault frame before the sentinel. */
  predicate MoreToCome(f: Message) {
    || (f[2] in {0x55, 0x56, 0x57, 0x62, 0x63, 0x6A, 0x95, 0x96} && f[4] <= 16)
    || (f[2] == 0x64 && f[4] != 0xFF)
  }

  lemma WaitsForMore(s: Sess, f: Message, h: Handlers)
    requires WF(s) && s.awaiting && f[1] == s.cfg.bmsAddress && f[2] == s.queue[0].id && MoreToCome(f)
    requires HeadTicket(OnFrame(s, f, h)) == HeadTicket(s)
    ensures var r := OnFrame(s, f, h);
            r.awaiting && r.deadline == Read(r.cfg.clock, r.now + r.cfg.interframeTimeout)
  {
    hide Emit, Complete, File, MultiEvent, Appended, DeliverOrWait;
    var id, d := f[2], DataOf(f);
    assert NoteCounts(s, id, d) == s;
    if id == 0x64 {
      StreamWaits(Logged(s, Heard(id, d)).(xfer := Appended(s.xfer, d)), id, h);
    } else {
      var page := FilePage(s, id, d);
      FinalPast(page, MultiEvent(page.xfer, id), h);
    }
  }

  lemma StreamWaits(s: Sess, id: byte, h: Handlers)
    requires WF(s) && s.awaiting && HeadTicket(DeliverOrWait(s, id, h)) == HeadTicket(s)
    ensures var r := DeliverOrWait(s, id, h);
            r.awaiting && r.deadline == Read(r.cfg.clock, r.now + r.cfg.interframeTimeout)
  {
    hide Emit, DecodeFault, Encode, ExpectedFrames, ItemsFor, Zeros;
    var decoded := DecodeFault(s.xfer.record);
    if decoded.Some? {
      EmitPast(s, FaultEvent(id, decoded.value), h);
    }
  }

  /** A frame of the reply that leaves the request in flight waiting for more, whatever was raised meanwhile, gives it
      the inter-frame timeout in the same way. */
  lemma InterframeDeadline(s: Sess, f: Message, h: Handlers)
    requires WF(s) && s.awaiting && f[1] == s.cfg.bmsAddress && f[2] == s.queue[0].id && MoreToCome(f)
    requires HeadTicket(OnFrame(s, f, h)) == HeadTicket(s)
    ensures var r := OnFrame(s, f, h);
            LeftAloneFor(r, r.cfg.interframeTimeout) <==> Countable(r.cfg.clock, r.cfg.interframeTimeout)
  {
    hide OnFrame, LeftAloneFor, Countable;
    WaitsForMore(s, f, h);
    Counted(OnFrame(s, f, h), OnFrame(s, f, h).cfg.interframeTimeout);
  }
}
