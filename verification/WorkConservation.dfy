/**
 Whether an idle session can be left holding requests it has not begun. Only the
 paths that turn a frame away dispatch without pumping afterwards, so a handler
 that polls on such an event while the session is idle, or resets it and then
 polls, strands its request until the next accepted poll.
 */
module WorkConservation {
  import opened Bytes
  import opened Protocol
  import opened Bits
  import opened Decode
  import opened Session
  import Framer
  import Safety

  predicate Stranded(s: Sess) {
    !s.awaiting && s.queue != []
  }

  // ---------------------------------------------------------------------------
  // What a script does, read off its text
  // ---------------------------------------------------------------------------

  /** Whether a TX handler is registered after the first `ops`. */
  function TxAfter(on: bool, ops: seq<Op>): bool {
    if ops == [] then on
    else match ops[|ops| - 1]
      case SetTxHandler(now) => now
      case _ => TxAfter(on, ops[..|ops| - 1])
  }

  function EventHandlerAfter(on: bool, ops: seq<Op>): bool {
    if ops == [] then on
    else match ops[|ops| - 1]
      case SetEventHandler(now) => now
      case _ => EventHandlerAfter(on, ops[..|ops| - 1])
  }

  /** The calls the handlers of one dispatch really make, in order. */
  function Calls(own: bool, eventHandler: bool, h: Handlers): seq<Op> {
    var first := if own then h.perRequest else [];
    first + if EventHandlerAfter(eventHandler, first) then h.sessionWide else []
  }

  ghost predicate ResetIn(ops: seq<Op>, lo: nat, hi: nat) {
    exists j :: lo <= j < hi <= |ops| && ops[j].ResetAll?
  }

  /** Call i is a poll that will be accepted if there is room, made while idle, and no reset follows. */
  ghost predicate LeftBy(idle: bool, tx: bool, ops: seq<Op>, i: nat) {
    && i < |ops| && ops[i].Poll? && IsKnownDataId(ops[i].req.id) && TxAfter(tx, ops[..i])
    && (idle || ResetIn(ops, 0, i))
    && !ResetIn(ops, i + 1, |ops|)
  }

  /** The script polls while idle, at its start or after a reset of its own, and does not reset again. */
  ghost predicate Strands(idle: bool, tx: bool, ops: seq<Op>) {
    exists i :: LeftBy(idle, tx, ops, i)
  }

  lemma ResetInLast(ops: seq<Op>, lo: nat)
    requires ops != [] && lo < |ops|
    ensures var init := ops[..|ops| - 1];
            ResetIn(ops, lo, |ops|) <==> ResetIn(init, lo, |init|) || ops[|ops| - 1].ResetAll?
  {
  }

  lemma ResetInPrefix(ops: seq<Op>, n: nat, lo: nat, hi: nat)
    requires hi <= n <= |ops|
    ensures ResetIn(ops, lo, hi) <==> ResetIn(ops[..n], lo, hi)
  {
  }

  lemma LeftByLast(idle: bool, tx: bool, ops: seq<Op>, i: nat)
    requires ops != []
    ensures var init, op := ops[..|ops| - 1], ops[|ops| - 1];
            LeftBy(idle, tx, ops, i) <==>
            if i == |init|
            then op.Poll? && IsKnownDataId(op.req.id) && TxAfter(tx, init) && (idle || ResetIn(init, 0, |init|))
            else LeftBy(idle, tx, init, i) && !op.ResetAll?
  {
    var init := ops[..|ops| - 1];
    if i < |init| {
      assert ops[..i] == init[..i];
      ResetInPrefix(ops, |init|, 0, i);
      ResetInLast(ops, i + 1);
    } else if i == |init| {
      ResetInPrefix(ops, |init|, 0, i);
    }
  }

  lemma StrandsLast(idle: bool, tx: bool, ops: seq<Op>)
    requires ops != []
    ensures var init, op := ops[..|ops| - 1], ops[|ops| - 1];
            Strands(idle, tx, ops) <==>
            !op.ResetAll? &&
            (Strands(idle, tx, init) ||
             (op.Poll? && IsKnownDataId(op.req.id) && TxAfter(tx, init) && (idle || ResetIn(init, 0, |init|))))
  {
    var init := ops[..|ops| - 1];
    forall i: nat
      ensures LeftBy(idle, tx, init, i) ==> i < |init|
    {
    }
    hide LeftBy;
    LeftByLast(idle, tx, ops, |init|);
    if Strands(idle, tx, ops) {
      var i :| LeftBy(idle, tx, ops, i);
      LeftByLast(idle, tx, ops, i);
    }
    if Strands(idle, tx, init) {
      var i :| LeftBy(idle, tx, init, i);
      LeftByLast(idle, tx, ops, i);
    }
  }

  predicate Acceptable(s: Sess, op: Op) {
    op.Poll? && IsKnownDataId(op.req.id) && s.cfg.hasTx
  }

  /** One call inside a dispatch. */
  lemma OpStrands(s: Sess, op: Op)
    requires WF(s) && s.dispatching
    ensures var r := RunOp(s, op);
            && r.dispatching && r.cfg.capacity == s.cfg.capacity
            && r.cfg.hasTx == (if op.SetTxHandler? then op.on else s.cfg.hasTx)
            && r.cfg.hasEventHandler == (if op.SetEventHandler? then op.on else s.cfg.hasEventHandler)
            && (r.awaiting <==> s.awaiting && !op.ResetAll?)
            && (Stranded(r) <==> !op.ResetAll? && !s.awaiting && (s.queue != [] || Acceptable(s, op)))
  {
  }

  /** A script run inside a dispatch from an unstranded state strands work exactly when its text says so. */
  lemma {:induction false} ScriptStrands(s: Sess, ops: seq<Op>)
    requires WF(s) && s.dispatching && !Stranded(s)
    ensures var r := RunScript(s, ops);
            && r.dispatching && r.cfg.capacity == s.cfg.capacity
            && r.cfg.hasTx == TxAfter(s.cfg.hasTx, ops)
            && r.cfg.hasEventHandler == EventHandlerAfter(s.cfg.hasEventHandler, ops)
            && (r.awaiting <==> s.awaiting && !ResetIn(ops, 0, |ops|))
            && (Stranded(r) <==> Strands(!s.awaiting, s.cfg.hasTx, ops))
    decreases |ops|
  {
    hide WF, RunOp;
    if ops != [] {
      var init := ops[..|ops| - 1];
      ScriptStrands(s, init);
      StrandsLast(!s.awaiting, s.cfg.hasTx, ops);
      ResetInLast(ops, 0);
      hide Strands, ResetIn;
      OpStrands(RunScript(s, init), ops[|ops| - 1]);
    }
  }

  lemma {:induction false} ScriptAppend(s: Sess, a: seq<Op>, b: seq<Op>)
    requires WF(s)
    ensures RunScript(s, a + b) == RunScript(RunScript(s, a), b)
    decreases |b|
  {
    hide RunOp, WF;
    if b == [] {
      assert a + b == a;
    } else {
      ScriptAppend(s, a, b[..|b| - 1]);
      assert (a + b)[..|a + b| - 1] == a + b[..|b| - 1];
    }
  }

  lemma EmitStrands(s: Sess, e: Event, h: Handlers)
    requires WF(s) && !s.dispatching && !Stranded(s)
    ensures Stranded(Emit(s, e, h)) <==>
            Strands(!s.awaiting, s.cfg.hasTx, Calls(OwnHandler(s).Some?, s.cfg.hasEventHandler, h))
    ensures !Emit(s, e, h).dispatching
  {
    var raised, own := Raise(s, e), OwnHandler(s).Some?;
    var first := if own then h.perRequest else [];
    var calls := Calls(own, s.cfg.hasEventHandler, h);
    assert raised.dispatching && raised.awaiting == s.awaiting && raised.queue == s.queue && raised.cfg == s.cfg;
    hide Raise, WF;
    ScriptStrands(raised, first);
    ScriptStrands(raised, calls);
    assert first + [] == first;
    ScriptAppend(raised, first, h.sessionWide);
    hide RunScript, Strands;
    assert RunHandlers(raised, own, h) == RunScript(raised, calls);
  }

  // ---------------------------------------------------------------------------
  // When a step strands work
  // ---------------------------------------------------------------------------

  /** The frame is reported and turned away: the four early returns of on_frame() and handle_multi(). */
  predicate TurnedAway(s: Sess, f: Message)
    requires WF(s)
  {
    || !s.awaiting
    || f[1] != s.cfg.bmsAddress
    || f[2] != s.queue[0].id
    || (Paginated(f[2]) && DataOf(f)[0] > MAX_FRAME_INDEX)
  }

  /** The input raises an event after which nothing is pumped. */
  predicate Rejects(s: Sess, i: Input)
    requires WF(s)
  {
    match i
    case Deliver(f) => TurnedAway(s, f)
    case Spoilt(_) => true
    case Byte(b) =>
      var outs := Framer.Step(s.parser, b).1;
      outs != [] && (outs[0].Rejected? || TurnedAway(s, outs[0].bytes))
    case _ => false
  }

  lemma PumpClears(s: Sess)
    requires WF(s)
    ensures !Stranded(Pump(s))
  {
  }

  lemma CompleteClears(s: Sess)
    requires WF(s)
    ensures !Stranded(Complete(s))
  {
  }

  lemma ReplyClears(s: Sess, id: byte, data: DataBytes, h: Handlers)
    requires WF(s) && s.awaiting && s.queue[0].id == id && !(Paginated(id) && data[0] > MAX_FRAME_INDEX)
    ensures !Stranded(OnReply(s, id, data, h))
  {
    hide Emit, Complete, Pump, FilePage, Appended;
    if !MultiframeInfo(id).multi {
      CompleteClears(Emit(Logged(s, Heard(id, data)), SingleEvent(s.queue[0], id, data), h));
    } else if !MultiframeInfo(id).streaming {
      var page := FilePage(s, id, data);
      CompleteClears(Emit(page, MultiEvent(page.xfer, id), h));
      FilePageAwaits(s, id, data);
    } else if data[0] == FRAME_NO_END {
      CompleteClears(Logged(s, Heard(id, data)));
    } else {
      var grown := Logged(s, Heard(id, data)).(xfer := Appended(s.xfer, data));
      hide DeliverRecord;
      PumpClears(if |grown.xfer.record| < FAULT_BUFFER_LEN then grown else DeliverRecord(grown, id, h));
    }
  }

  lemma FilePageAwaits(s: Sess, id: byte, data: DataBytes)
    requires WF(s) && data[0] <= MAX_FRAME_INDEX
    ensures FilePage(s, id, data).awaiting == s.awaiting
  {
  }

  lemma FrameStrands(s: Sess, f: Message, h: Handlers)
    requires WF(s) && !s.dispatching && !Stranded(s)
    ensures Stranded(OnFrame(s, f, h)) <==>
            TurnedAway(s, f) && Strands(!s.awaiting, s.cfg.hasTx, Calls(OwnHandler(s).Some?, s.cfg.hasEventHandler, h))
  {
    hide Emit, Strands, Calls;
    var id, data := f[2], DataOf(f);
    if !s.awaiting {
      EmitStrands(s, Rejection(id, UnexpectedDataId), h);
    } else if f[1] != s.cfg.bmsAddress {
      EmitStrands(s, Rejection(id, BadSourceAddress), h);
    } else if id != s.queue[0].id {
      EmitStrands(s, Rejection(id, UnexpectedDataId), h);
    } else {
      var noted := NoteCounts(s, id, data);
      if Paginated(id) && data[0] > MAX_FRAME_INDEX {
        assert noted == s;
        EmitStrands(s, Rejection(id, FrameSequence), h);
      } else {
        ReplyClears(noted, id, data, h);
        hide OnReply;
      }
    }
  }

  lemma ErrorStrands(s: Sess, error: Framer.FrameError, h: Handlers)
    requires WF(s) && !s.dispatching && !Stranded(s)
    ensures Stranded(OnFrameError(s, error, h)) <==>
            Strands(!s.awaiting, s.cfg.hasTx, Calls(OwnHandler(s).Some?, s.cfg.hasEventHandler, h))
  {
    var id := if s.awaiting then s.queue[0].id else CAPACITY_VOLTAGE;
    EmitStrands(s, Rejection(id, if error == Framer.BadChecksum then Checksum else BadLength), h);
    hide Emit, Strands, Calls;
  }

  lemma TickClears(s: Sess, now: nat, h: Handlers)
    requires WF(s) && !Stranded(s)
    ensures !Stranded(Tick(s, now, h))
  {
    hide Emit, Complete;
    var t := s.(now := Read(s.cfg.clock, now));
    if s.awaiting && Expired(s.cfg.clock, t.now, s.deadline) {
      var id := s.queue[0].id;
      CompleteClears(Emit(t, MultiEvent(t.xfer, id), h));
      CompleteClears(Emit(t, Event(ProtocolError, id, Truncated, 0, t.xfer.framesSeen, NoPayload), h));
      CompleteClears(Emit(t, Event(Timeout, id, NoError, t.retries, 0, NoPayload), h));
    }
  }

  lemma CallClears(s: Sess, op: Op)
    requires WF(s) && !s.dispatching && !Stranded(s)
    ensures !Stranded(RunOp(s, op))
  {
  }

  /** The input turns a frame away, and the calls its handlers make leave an accepted poll behind them while idle. */
  ghost predicate LeavesWork(s: Sess, i: Input, h: Handlers)
    requires WF(s)
  {
    Rejects(s, i) && Strands(!s.awaiting, s.cfg.hasTx, Calls(OwnHandler(s).Some?, s.cfg.hasEventHandler, h))
  }

  /** Exactly when a step from an unstranded state strands work. */
  lemma {:induction false} StrandedExactly(s: Sess, i: Input, h: Handlers)
    requires WF(s) && !s.dispatching && !Stranded(s)
    ensures Stranded(Step(s, i, h)) <==> LeavesWork(s, i, h)
  {
    hide OnFrame, OnFrameError, Tick, RunOp, Strands, Calls;
    match i
    case Byte(b) =>
      var (parser, outs) := Framer.Step(s.parser, b);
      var fed := s.(parser := parser);
      hide Framer.Step;
      if outs != [] {
        match outs[0]
        case Frame(f) => FrameStrands(fed, f, h);
        case Rejected(e) => ErrorStrands(fed, e, h);
      }
    case Deliver(f) => FrameStrands(s, f, h);
    case Spoilt(e) => ErrorStrands(s, e, h);
    case TickTo(now) => TickClears(s, now, h);
    case Call(op) => CallClears(s, op);
  }

  /** Over a whole run: as long as no step leaves work so, an idle session has an empty queue. */
  lemma {:induction false} WorkIsConserved(cfg: Config, inputs: seq<(Input, Handlers)>)
    requires 1 <= cfg.capacity
    requires forall k :: 0 <= k < |inputs| ==> !LeavesWork(Run(Init(cfg), inputs[..k]), inputs[k].0, inputs[k].1)
    ensures !Stranded(Run(Init(cfg), inputs))
    decreases |inputs|
  {
    if inputs != [] {
      var n := |inputs| - 1;
      var init := inputs[..n];
      assert forall k :: 0 <= k < n ==> init[..k] == inputs[..k];
      hide Step, LeavesWork, Stranded, Safety.Linked;
      WorkIsConserved(cfg, init);
      Safety.RunSettled(cfg, init);
      StrandedExactly(Run(Init(cfg), init), inputs[n].0, inputs[n].1);
    }
  }

  /** So "idle means nothing queued" fails: a session-wide handler that polls on an unsolicited frame strands the
      poll. */
  lemma IdleCanHoldWork(cfg: Config, f: Message, req: Request)
    requires 1 <= cfg.capacity && cfg.hasTx && cfg.hasEventHandler && IsKnownDataId(req.id)
    ensures Stranded(Step(Init(cfg), Deliver(f), Handlers([], [Poll(req)])))
  {
    var h := Handlers([], [Poll(req)]);
    var calls := Calls(false, true, h);
    assert calls == [Poll(req)] && TxAfter(true, calls[..0]);
    assert LeftBy(true, true, calls, 0);
    StrandedExactly(Init(cfg), Deliver(f), h);
    hide Step, Calls;
  }

  // ---------------------------------------------------------------------------
  // Being stranded
  // ---------------------------------------------------------------------------

  /** The next accepted poll begins and transmits the stranded head, not the new request. */
  lemma AcceptedPollRescues(s: Sess, req: Request)
    requires WF(s) && !s.dispatching && Stranded(s) && Verdict(s, req) == Queued
    ensures var r := RunOp(s, Poll(req));
            && r.awaiting && r.queue == s.queue + [req]
            && r.log == s.log + [Accepted(s.accepted, req),
                                 Begun(HeadTicket(s), ItemsFor(s.queue[0], s.cachedCells, s.cachedTemps)),
                                 Sent(HeadTicket(s), Encode(s.cfg.host, s.queue[0].id, s.queue[0].data))]
  {
  }

  ghost predicate NoReset(ops: seq<Op>) {
    forall j :: 0 <= j < |ops| ==> !ops[j].ResetAll?
  }

  /** Nothing begun, nothing lost: at most more requests behind the ones there were. */
  predicate StillStranded(s: Sess, r: Sess) {
    Stranded(s) && Stranded(r) && s.queue <= r.queue && r.cfg.capacity == s.cfg.capacity
  }

  lemma {:induction false} ScriptStaysStranded(s: Sess, ops: seq<Op>)
    requires WF(s) && s.dispatching && Stranded(s) && NoReset(ops)
    ensures StillStranded(s, RunScript(s, ops)) && RunScript(s, ops).dispatching
    decreases |ops|
  {
    if ops != [] {
      ScriptStaysStranded(s, ops[..|ops| - 1]);
    }
  }

  lemma EmitStaysStranded(s: Sess, e: Event, h: Handlers)
    requires WF(s) && !s.dispatching && Stranded(s) && NoReset(h.perRequest) && NoReset(h.sessionWide)
    ensures StillStranded(s, Emit(s, e, h)) && !Emit(s, e, h).dispatching
  {
    var raised := Raise(s, e);
    ScriptStaysStranded(raised, h.sessionWide);
    hide RunScript;
  }

  /** Short of a reset or an accepted poll, a stranded session begins nothing, whatever arrives. */
  lemma OnlyPollOrResetRescues(s: Sess, i: Input, h: Handlers)
    requires WF(s) && !s.dispatching && Stranded(s) && NoReset(h.perRequest) && NoReset(h.sessionWide)
    requires i.Call? ==> !i.op.ResetAll? && (i.op.Poll? ==> Verdict(s, i.op.req) != Queued)
    ensures StillStranded(s, Step(s, i, h)) && !Step(s, i, h).dispatching
  {
    match i
    case Byte(b) =>
      var (parser, outs) := Framer.Step(s.parser, b);
      var fed := s.(parser := parser);
      hide Framer.Step, Emit;
      if outs != [] {
        match outs[0]
        case Frame(f) => EmitStaysStranded(fed, Rejection(f[2], UnexpectedDataId), h);
        case Rejected(e) =>
          var error := if e == Framer.BadChecksum then Checksum else BadLength;
          EmitStaysStranded(fed, Rejection(CAPACITY_VOLTAGE, error), h);
      }
    case Deliver(f) =>
      hide Emit;
      EmitStaysStranded(s, Rejection(f[2], UnexpectedDataId), h);
    case Spoilt(e) =>
      hide Emit;
      EmitStaysStranded(s, Rejection(CAPACITY_VOLTAGE, if e == Framer.BadChecksum then Checksum else BadLength), h);
    case TickTo(now) =>
    case Call(op) =>
  }

  predicate CallsReset(i: Input) {
    i.Call? && i.op.ResetAll?
  }

  /** A queue stranded full stays as it is over any run without a reset: every poll is refused, and nothing else begins
      it. */
  lemma {:induction false} FullStrandIsForever(s: Sess, inputs: seq<(Input, Handlers)>)
    requires WF(s) && !s.dispatching && Stranded(s) && |s.queue| == s.cfg.capacity
    requires forall k :: 0 <= k < |inputs| ==>
               !CallsReset(inputs[k].0) && NoReset(inputs[k].1.perRequest) && NoReset(inputs[k].1.sessionWide)
    ensures var r := Run(s, inputs);
            !r.awaiting && r.queue == s.queue && r.cfg.capacity == s.cfg.capacity && !r.dispatching
    decreases |inputs|
  {
    if inputs != [] {
      var init, last := inputs[..|inputs| - 1], inputs[|inputs| - 1];
      FullStrandIsForever(s, init);
      hide NoReset, Step;
      OnlyPollOrResetRescues(Run(s, init), last.0, last.1);
    }
  }

  function Polls(n: nat, req: Request): (ops: seq<Op>)
    ensures |ops| == n
  {
    seq(n, k => Poll(req))
  }

  lemma {:induction false} PollsFill(s: Sess, req: Request, n: nat)
    requires WF(s) && s.dispatching && !s.awaiting && s.cfg.hasTx && IsKnownDataId(req.id)
    ensures var r := RunScript(s, Polls(n, req));
            && r.dispatching && !r.awaiting && r.cfg == s.cfg
            && |r.queue| == Min(|s.queue| + n, s.cfg.capacity)
    decreases n
  {
    if n > 0 {
      PollsFill(s, req, n - 1);
      assert Polls(n, req)[..n - 1] == Polls(n - 1, req);
    }
  }

  /** A queue of any capacity is stranded full by one unsolicited frame and a handler that polls often enough. */
  lemma FullStrandReached(cfg: Config, f: Message, req: Request)
    requires 1 <= cfg.capacity && cfg.hasTx && cfg.hasEventHandler && IsKnownDataId(req.id)
    ensures var r := Step(Init(cfg), Deliver(f), Handlers([], Polls(cfg.capacity, req)));
            Stranded(r) && |r.queue| == r.cfg.capacity && !r.dispatching
  {
    var s, e := Init(cfg), Rejection(f[2], UnexpectedDataId);
    PollsFill(Raise(s, e), req, cfg.capacity);
    hide RunScript;
  }
}
