/**
 The session reads a millisecond counter that wraps at 2^32. It behaves exactly as
 it would on a counter that never wraps, as long as no tick comes 2^31 ms or more
 after the one before while a request is in flight, and no timeout is longer than
 that.
 */
module ClockRefinement {
  import opened Bytes
  import opened Protocol
  import opened Bits
  import opened Decode
  import opened Session
  import Framer
  import RoundTrip

  const HALF: nat := 0x8000_0000

  // ---------------------------------------------------------------------------
  // One deadline
  // ---------------------------------------------------------------------------

  /** The signed-difference test is right about a deadline at most 2^31 ahead exactly when the tick is early, or late by
      less than 2^31 beyond whole turns of the counter. */
  lemma ExpiredExactly(now: nat, deadline: nat)
    requires deadline <= now + HALF
    ensures (Expired(Wrapping, Wrap(now), Wrap(deadline)) <==> Expired(Unbounded, now, deadline))
            <==> (now < deadline || (now - deadline) % 0x1_0000_0000 < HALF)
  {
    WrapDifference(now, deadline);
    if now < deadline {
      WrapTurns(now - deadline, 1);
      WrapSmall(now - deadline + 0x1_0000_0000);
    }
    assert Wrap(now - deadline) == (now - deadline) % 0x1_0000_0000;
    hide Wrap;
  }

  lemma WrapTurns(n: int, turns: int)
    ensures Wrap(n + turns * 0x1_0000_0000) == Wrap(n)
  {
  }

  lemma WrapDifference(a: int, b: int)
    ensures Wrap(Wrap(a) - Wrap(b)) == Wrap(a - b)
  {
    var k: int := 0 - Wrap(b);
    WrapAdd(a, k);
    assert b == Wrap(b) + (b / 0x1_0000_0000) * 0x1_0000_0000;
    hide Wrap;
    WrapTurns(a - b, b / 0x1_0000_0000);
  }

  /** A tick 2^31 ms after the deadline finds it not yet expired. */
  lemma LateTickMissed(deadline: uint32)
    ensures !Expired(Wrapping, Wrap(deadline + HALF), deadline) && Expired(Unbounded, deadline + HALF, deadline)
  {
  }

  // ---------------------------------------------------------------------------
  // Every step commutes with wrapping
  // ---------------------------------------------------------------------------

  /** The session on the wrapping counter that corresponds to one on the unbounded counter. */
  function Wrapped(u: Sess): (w: Sess)
    ensures WF(w) <==> WF(u)
  {
    u.(cfg := u.cfg.(clock := Wrapping), now := Wrap(u.now), deadline := Wrap(u.deadline))
  }

  /** On the unbounded counter, with modest timeouts. */
  predicate Steady(u: Sess) {
    && WF(u)
    && u.cfg.clock == Unbounded
    && u.cfg.responseTimeout <= HALF && u.cfg.interframeTimeout <= HALF
  }

  /** And a pending deadline is never before the last tick. */
  predicate Timely(u: Sess) {
    && Steady(u)
    && (u.awaiting ==> u.now <= u.deadline <= u.now + HALF)
  }

  predicate Modest(op: Op) {
    match op
    case SetResponseTimeout(ms) => ms <= HALF
    case SetInterframeTimeout(ms) => ms <= HALF
    case _ => true
  }

  ghost predicate AllModest(ops: seq<Op>) {
    forall k :: 0 <= k < |ops| ==> Modest(ops[k])
  }

  ghost predicate HandlersModest(h: Handlers) {
    AllModest(h.perRequest) && AllModest(h.sessionWide)
  }

  lemma TransmitCommutes(u: Sess)
    requires Steady(u) && u.queue != []
    ensures Transmit(Wrapped(u)) == Wrapped(Transmit(u)) && Timely(Transmit(u))
  {
    WrapAdd(u.now, u.cfg.responseTimeout);
  }

  lemma PumpCommutes(u: Sess)
    requires Steady(u) && (u.awaiting ==> Timely(u))
    ensures Pump(Wrapped(u)) == Wrapped(Pump(u)) && Timely(Pump(u))
  {
    if !u.awaiting && u.queue != [] {
      TransmitCommutes(BeginAwaiting(u.(awaiting := true)));
    }
  }

  lemma CompleteCommutes(u: Sess)
    requires Steady(u)
    ensures Complete(Wrapped(u)) == Wrapped(Complete(u)) && Timely(Complete(u))
  {
    PumpCommutes(Retire(u));
    hide Pump;
  }

  /** A call made by a handler. */
  lemma OpCommutes(u: Sess, op: Op)
    requires Steady(u) && Modest(op) && u.dispatching
    ensures var r := RunOp(u, op);
            && RunOp(Wrapped(u), op) == Wrapped(r) && Steady(r) && r.dispatching
            && (Timely(u) ==> Timely(r))
  {
  }

  lemma {:induction false} ScriptCommutes(u: Sess, ops: seq<Op>)
    requires Steady(u) && AllModest(ops) && u.dispatching
    ensures var r := RunScript(u, ops);
            && RunScript(Wrapped(u), ops) == Wrapped(r) && Steady(r) && r.dispatching
            && (Timely(u) ==> Timely(r))
    decreases |ops|
  {
    hide RunOp, Timely;
    if ops != [] {
      ScriptCommutes(u, ops[..|ops| - 1]);
      OpCommutes(RunScript(u, ops[..|ops| - 1]), ops[|ops| - 1]);
    }
  }

  lemma EmitCommutes(u: Sess, e: Event, h: Handlers)
    requires Steady(u) && HandlersModest(h)
    ensures var r := Emit(u, e, h);
            Emit(Wrapped(u), e, h) == Wrapped(r) && Steady(r) && (Timely(u) ==> Timely(r))
  {
    var raised, own := Raise(u, e), OwnHandler(u).Some?;
    assert Steady(raised) && raised.dispatching && (Timely(u) ==> Timely(raised));
    assert Raise(Wrapped(u), e) == Wrapped(raised) && OwnHandler(Wrapped(u)) == OwnHandler(u);
    hide Raise, OwnHandler;
    HandlersCommute(raised, own, h);
    hide RunHandlers;
  }

  lemma HandlersCommute(u: Sess, own: bool, h: Handlers)
    requires Steady(u) && HandlersModest(h) && u.dispatching
    ensures var r := RunHandlers(u, own, h);
            RunHandlers(Wrapped(u), own, h) == Wrapped(r) && Steady(r) && (Timely(u) ==> Timely(r))
  {
    hide RunScript, AllModest;
    if own {
      ScriptCommutes(u, h.perRequest);
    }
    var u1 := if own then RunScript(u, h.perRequest) else u;
    ScriptCommutes(u1, h.sessionWide);
  }

  lemma FinalCommutes(u: Sess, e: Event, h: Handlers)
    requires Steady(u) && HandlersModest(h)
    ensures Complete(Emit(Wrapped(u), e, h)) == Wrapped(Complete(Emit(u, e, h))) && Timely(Complete(Emit(u, e, h)))
  {
    hide Emit, Complete, Timely;
    EmitCommutes(u, e, h);
    CompleteCommutes(Emit(u, e, h));
  }

  /** Re-arming the inter-frame deadline. */
  lemma RearmCommutes(u: Sess)
    requires Timely(u)
    ensures var at := Read(Unbounded, u.now + u.cfg.interframeTimeout);
            && Timely(u.(deadline := at))
            && Wrapped(u).(deadline := Read(Wrapping, Wrapped(u).now + u.cfg.interframeTimeout))
                 == Wrapped(u.(deadline := at))
  {
  }

  lemma SingleCommutes(u: Sess, id: byte, data: DataBytes, h: Handlers)
    requires Timely(u) && HandlersModest(h) && u.awaiting
    ensures HandleSingle(Wrapped(u), id, data, h) == Wrapped(HandleSingle(u, id, data, h))
    ensures Timely(HandleSingle(u, id, data, h))
  {
    hide Emit, Complete, HandlersModest;
    FinalCommutes(Logged(u, Heard(id, data)), SingleEvent(u.queue[0], id, data), h);
  }

  lemma MultiCommutes(u: Sess, id: byte, data: DataBytes, h: Handlers)
    requires Timely(u) && HandlersModest(h) && u.awaiting
    ensures HandleMulti(Wrapped(u), id, data, h) == Wrapped(HandleMulti(u, id, data, h))
    ensures Timely(HandleMulti(u, id, data, h))
  {
    hide Emit, Complete, HandlersModest, File, MultiEvent;
    if data[0] > MAX_FRAME_INDEX {
      EmitCommutes(u, Rejection(id, FrameSequence), h);
    } else {
      var page := FilePage(u, id, data);
      assert Timely(page) && FilePage(Wrapped(u), id, data) == Wrapped(page);
      FinalCommutes(page, MultiEvent(page.xfer, id), h);
      RearmCommutes(page);
    }
  }

  lemma StreamCommutes(u: Sess, id: byte, data: DataBytes, h: Handlers)
    requires Timely(u) && HandlersModest(h) && u.awaiting
    ensures HandleStream(Wrapped(u), id, data, h) == Wrapped(HandleStream(u, id, data, h))
    ensures Timely(HandleStream(u, id, data, h))
  {
    hide Emit, Complete, HandlersModest, Appended, DeliverOrWait;
    var heard := Logged(u, Heard(id, data));
    if data[0] == FRAME_NO_END {
      CompleteCommutes(heard);
    } else {
      DeliverOrWaitCommutes(heard.(xfer := Appended(u.xfer, data)), id, h);
    }
  }

  lemma DeliverRecordCommutes(u: Sess, id: byte, h: Handlers)
    requires Timely(u) && HandlersModest(h)
    ensures DeliverRecord(Wrapped(u), id, h) == Wrapped(DeliverRecord(u, id, h)) && Timely(DeliverRecord(u, id, h))
  {
    hide Emit, HandlersModest, DecodeFault;
    var decoded := DecodeFault(u.xfer.record);
    if decoded.Some? {
      EmitCommutes(u, FaultEvent(id, decoded.value), h);
    }
  }

  lemma DeliverOrWaitCommutes(u: Sess, id: byte, h: Handlers)
    requires Timely(u) && HandlersModest(h)
    ensures DeliverOrWait(Wrapped(u), id, h) == Wrapped(DeliverOrWait(u, id, h)) && Timely(DeliverOrWait(u, id, h))
  {
    hide DeliverRecord, HandlersModest, Pump;
    DeliverRecordCommutes(u, id, h);
    var settled := if |u.xfer.record| < FAULT_BUFFER_LEN then u else DeliverRecord(u, id, h);
    assert Timely(settled);
    if settled.awaiting {
      RearmCommutes(settled);
    } else {
      PumpCommutes(settled);
    }
  }

  lemma FrameCommutes(u: Sess, f: Message, h: Handlers)
    requires Timely(u) && HandlersModest(h)
    ensures OnFrame(Wrapped(u), f, h) == Wrapped(OnFrame(u, f, h)) && Timely(OnFrame(u, f, h))
  {
    hide Emit, HandlersModest, HandleSingle, HandleMulti, HandleStream;
    var id, data := f[2], DataOf(f);
    EmitCommutes(u, Rejection(id, UnexpectedDataId), h);
    EmitCommutes(u, Rejection(id, BadSourceAddress), h);
    if u.awaiting && id == u.queue[0].id {
      var noted := NoteCounts(u, id, data);
      assert Timely(noted) && NoteCounts(Wrapped(u), id, data) == Wrapped(noted);
      hide NoteCounts;
      SingleCommutes(noted, id, data, h);
      MultiCommutes(noted, id, data, h);
      StreamCommutes(noted, id, data, h);
    }
  }

  lemma ErrorCommutes(u: Sess, error: Framer.FrameError, h: Handlers)
    requires Timely(u) && HandlersModest(h)
    ensures OnFrameError(Wrapped(u), error, h) == Wrapped(OnFrameError(u, error, h))
    ensures Timely(OnFrameError(u, error, h))
  {
    hide Emit, HandlersModest;
    var id := if u.awaiting then u.queue[0].id else CAPACITY_VOLTAGE;
    EmitCommutes(u, Rejection(id, if error == Framer.BadChecksum then Checksum else BadLength), h);
  }

  lemma ExpiryCommutes(u: Sess, h: Handlers)
    requires Steady(u) && HandlersModest(h) && u.awaiting
    ensures OnExpiry(Wrapped(u), h) == Wrapped(OnExpiry(u, h)) && Timely(OnExpiry(u, h))
  {
    hide Emit, Complete, HandlersModest, MultiEvent, Transmit;
    var id := u.queue[0].id;
    FinalCommutes(u, MultiEvent(u.xfer, id), h);
    FinalCommutes(u, Event(ProtocolError, id, Truncated, 0, u.xfer.framesSeen, NoPayload), h);
    FinalCommutes(u, Event(Timeout, id, NoError, u.retries, 0, NoPayload), h);
    if u.retries < u.cfg.maxRetries {
      TransmitCommutes(u.(retries := u.retries + 1));
    }
  }

  /** A tick the wrapping session can tell from every other: not before the last, nor half a turn after it while
      waiting. */
  predicate Punctual(u: Sess, now: nat) {
    u.now <= now && (u.awaiting ==> now - u.now < HALF)
  }

  lemma TickCommutes(u: Sess, now: nat, h: Handlers)
    requires Timely(u) && HandlersModest(h) && Punctual(u, now)
    ensures Tick(Wrapped(u), now, h) == Wrapped(Tick(u, now, h)) && Timely(Tick(u, now, h))
  {
    hide OnExpiry, HandlersModest;
    var ticked := u.(now := now);
    if u.awaiting {
      ExpiredExactly(now, u.deadline);
      if now < u.deadline {
        assert Timely(ticked);
      } else {
        ExpiryCommutes(ticked, h);
      }
    }
  }

  /** An expiry always shows: an event is raised or a retry is spent. */
  lemma ExpiryShows(s: Sess, h: Handlers)
    requires WF(s) && s.awaiting
    ensures OnExpiry(s, h).log != s.log || OnExpiry(s, h).retries == s.retries + 1
  {
    hide Emit, Complete, MultiEvent, Encode;
    var id := s.queue[0].id;
    RoundTrip.FinalAppends(s, MultiEvent(s.xfer, id), h);
    RoundTrip.FinalAppends(s, Event(ProtocolError, id, Truncated, 0, s.xfer.framesSeen, NoPayload), h);
    RoundTrip.FinalAppends(s, Event(Timeout, id, NoError, s.retries, 0, NoPayload), h);
  }

  /** While a request is in flight the wrapping session takes a tick as the unbounded one does exactly when the tick is
      before the deadline, or later than it by less than 2^31 ms beyond whole turns of the counter. */
  lemma TickExactly(u: Sess, now: nat, h: Handlers)
    requires Timely(u) && HandlersModest(h) && u.awaiting && u.now <= now
    ensures Tick(Wrapped(u), now, h) == Wrapped(Tick(u, now, h))
            <==> (now < u.deadline || (now - u.deadline) % 0x1_0000_0000 < HALF)
  {
    hide OnExpiry, HandlersModest, Wrap;
    var ticked := u.(now := now);
    ExpiredExactly(now, u.deadline);
    if now >= u.deadline {
      ExpiryCommutes(ticked, h);
      ExpiryShows(ticked, h);
    }
  }

  /** So 2^31 ms after its deadline a request in flight is left waiting: the tick only moves the clock. */
  lemma LateTickIgnored(s: Sess, h: Handlers)
    requires WF(s) && s.awaiting && s.cfg.clock == Wrapping && s.deadline < 0x1_0000_0000
    ensures Tick(s, s.deadline + HALF, h) == s.(now := Wrap(s.deadline + HALF))
  {
    LateTickMissed(s.deadline);
    hide OnExpiry;
  }

  lemma EnqueueCommutes(u: Sess, req: Request)
    requires Timely(u)
    ensures Enqueue(Wrapped(u), req) == Wrapped(Enqueue(u, req)) && Timely(Enqueue(u, req))
  {
    if Verdict(u, req) == Queued {
      var a := Accept(u, req);
      assert Timely(a) && Accept(Wrapped(u), req) == Wrapped(a);
      hide Pump, Wrapped, Timely, Accept;
      PumpCommutes(a);
    }
  }

  lemma CallCommutes(u: Sess, op: Op)
    requires Timely(u) && Modest(op)
    ensures RunOp(Wrapped(u), op) == Wrapped(RunOp(u, op)) && Timely(RunOp(u, op))
  {
    if op.Poll? {
      hide Enqueue, Timely;
      EnqueueCommutes(u, op.req);
    }
  }

  /** What a run must keep to: punctual ticks, modest timeouts. */
  ghost predicate Allowed(u: Sess, i: Input, h: Handlers) {
    HandlersModest(h) &&
    match i
    case TickTo(now) => Punctual(u, now)
    case Call(op) => Modest(op)
    case _ => true
  }

  lemma StepCommutes(u: Sess, i: Input, h: Handlers)
    requires Timely(u) && Allowed(u, i, h)
    ensures Step(Wrapped(u), i, h) == Wrapped(Step(u, i, h)) && Timely(Step(u, i, h))
  {
    hide OnFrame, OnFrameError, Tick, RunOp, HandlersModest;
    match i
    case Byte(b) =>
      var (parser, outs) := Framer.Step(u.parser, b);
      var fed := u.(parser := parser);
      assert Timely(fed) && Wrapped(u).(parser := parser) == Wrapped(fed);
      hide Framer.Step;
      if outs != [] {
        match outs[0]
        case Frame(f) => FrameCommutes(fed, f, h);
        case Rejected(e) => ErrorCommutes(fed, e, h);
      }
    case Deliver(f) => FrameCommutes(u, f, h);
    case Spoilt(e) => ErrorCommutes(u, e, h);
    case TickTo(now) => TickCommutes(u, now, h);
    case Call(op) => CallCommutes(u, op);
  }

  /** Every step of the run on the unbounded counter keeps to the rules. */
  ghost predicate AllAllowed(u: Sess, inputs: seq<(Input, Handlers)>)
    requires WF(u)
  {
    forall k :: 0 <= k < |inputs| ==> Allowed(Run(u, inputs[..k]), inputs[k].0, inputs[k].1)
  }

  /** Over a whole run, the wrapping session is the unbounded one with its two clock fields wrapped: the same queue,
      the same replies, the same history. */
  lemma {:induction false} RunCommutes(u: Sess, inputs: seq<(Input, Handlers)>)
    requires Timely(u) && AllAllowed(u, inputs)
    ensures Run(Wrapped(u), inputs) == Wrapped(Run(u, inputs)) && Timely(Run(u, inputs))
    decreases |inputs|
  {
    hide Step, Allowed;
    if inputs != [] {
      var init, last := inputs[..|inputs| - 1], inputs[|inputs| - 1];
      assert AllAllowed(u, init) by {
        forall k | 0 <= k < |init|
          ensures init[..k] == inputs[..k]
        {
        }
      }
      assert inputs[..|inputs| - 1] == init;
      RunCommutes(u, init);
      StepCommutes(Run(u, init), last.0, last.1);
    }
  }

  /** From construction on: whenever the first request is made, every tick while one is in flight is in time. */
  lemma {:induction false} WrappingRefinesUnbounded(cfg: Config, inputs: seq<(Input, Handlers)>)
    requires 1 <= cfg.capacity && cfg.clock == Unbounded
    requires cfg.responseTimeout <= HALF && cfg.interframeTimeout <= HALF
    requires AllAllowed(Init(cfg), inputs)
    ensures Run(Init(cfg.(clock := Wrapping)), inputs).log == Run(Init(cfg), inputs).log
    ensures Run(Init(cfg.(clock := Wrapping)), inputs).queue == Run(Init(cfg), inputs).queue
  {
    assert Wrapped(Init(cfg)) == Init(cfg.(clock := Wrapping));
    RunCommutes(Init(cfg), inputs);
    hide Run;
  }
}
