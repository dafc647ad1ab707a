/**
 The retry limit over whole runs, whatever arrives and whatever the handlers do
 short of changing it: how often a request is transmitted, how many expired ticks
 it lives through, and how many a session's queue can.
 */
module RetryBudget {
  import opened Bytes
  import opened Protocol
  import opened Bits
  import opened Decode
  import opened Session
  import opened Draining
  import Framer

  // ---------------------------------------------------------------------------
  // Handlers and inputs that leave the limit alone
  // ---------------------------------------------------------------------------

  ghost predicate FixedOps(ops: seq<Op>) {
    forall k :: 0 <= k < |ops| ==> !ops[k].SetMaxRetries?
  }

  ghost predicate NoPolls(ops: seq<Op>) {
    forall k :: 0 <= k < |ops| ==> !ops[k].Poll?
  }

  ghost predicate Fixed(i: Input, h: Handlers) {
    FixedOps(h.perRequest) && FixedOps(h.sessionWide) && (i.Call? ==> !i.op.SetMaxRetries?)
  }

  /** No request is made, by the caller or by a handler. */
  ghost predicate Passive(i: Input, h: Handlers) {
    NoPolls(h.perRequest) && NoPolls(h.sessionWide) && (i.Call? ==> !i.op.Poll?)
  }

  // ---------------------------------------------------------------------------
  // What every operation keeps
  // ---------------------------------------------------------------------------

  /** Transmissions request t can have had: all of them once it is over, one more than its retries while in flight. */
  function Allowance(s: Sess, t: nat): nat
    requires WF(s)
  {
    if t < HeadTicket(s) then s.cfg.maxRetries + 1
    else if t == HeadTicket(s) && s.awaiting then s.retries + 1
    else 0
  }

  predicate Budget(s: Sess, m: nat, t: nat) {
    WF(s) && s.cfg.maxRetries == m && s.retries <= m && Sends(s.log, t) <= Allowance(s, t)
  }

  /** No request comes back, and the one in flight keeps its retries, until it is over; without polls none is
      accepted. */
  predicate Onward(passive: bool, s: Sess, r: Sess)
    requires WF(s) && WF(r)
  {
    && HeadTicket(s) <= HeadTicket(r) && s.accepted <= r.accepted
    && (HeadTicket(s) == HeadTicket(r) && s.awaiting ==> r.awaiting && s.retries <= r.retries)
    && (passive ==> r.accepted == s.accepted)
  }

  /** And on an expired tick either it is over or a retry is spent. */
  predicate Spent(s: Sess, r: Sess)
    requires WF(s) && WF(r)
  {
    HeadTicket(s) < HeadTicket(r) || (HeadTicket(s) == HeadTicket(r) && r.awaiting && s.retries < r.retries)
  }

  predicate Keeps(passive: bool, s: Sess, r: Sess, m: nat, t: nat)
    requires WF(s)
  {
    Budget(r, m, t) && Onward(passive, s, r)
  }

  lemma NotSent(s: Sess, o: Obs, t: nat)
    requires !o.Sent?
    ensures Sends(Logged(s, o).log, t) == Sends(s.log, t)
  {
    Snoc(s.log, o, t);
  }

  lemma TransmitKeeps(s: Sess, m: nat, t: nat)
    requires WF(s) && s.awaiting && s.cfg.maxRetries == m && s.retries <= m
    requires Sends(s.log, t) <= if t == HeadTicket(s) then s.retries else Allowance(s, t)
    ensures Keeps(true, s, Transmit(s), m, t)
  {
    hide Sends, Encode, Read;
    Snoc(s.log, Sent(HeadTicket(s), Encode(s.cfg.host, s.queue[0].id, s.queue[0].data)), t);
  }

  lemma PumpKeeps(s: Sess, m: nat, t: nat)
    requires Budget(s, m, t)
    ensures Keeps(true, s, Pump(s), m, t)
  {
    hide Sends, Transmit, ItemsFor, ExpectedFrames;
    if !s.awaiting && s.queue != [] {
      var begun := BeginAwaiting(s.(awaiting := true));
      NotSent(s, Begun(HeadTicket(s), ItemsFor(s.queue[0], s.cachedCells, s.cachedTemps)), t);
      TransmitKeeps(begun, m, t);
    }
  }

  lemma CompleteKeeps(s: Sess, m: nat, t: nat)
    requires Budget(s, m, t)
    ensures var r := Complete(s);
            Keeps(false, s.(awaiting := false), r, m, t) && r.accepted == s.accepted
    ensures s.awaiting ==> HeadTicket(s) < HeadTicket(Complete(s))
  {
    hide Sends, Pump;
    NotSent(s, Retired(HeadTicket(s)), t);
    PumpKeeps(Retire(s), m, t);
  }

  // ---------------------------------------------------------------------------
  // Handlers
  // ---------------------------------------------------------------------------

  lemma OpKeeps(s: Sess, op: Op, m: nat, t: nat)
    requires Budget(s, m, t) && !op.SetMaxRetries?
    ensures Keeps(!op.Poll?, s, RunOp(s, op), m, t)
  {
    hide Sends, Pump;
    match op
    case Poll(req) =>
      if Verdict(s, req) == Queued {
        NotSent(s, Accepted(s.accepted, req), t);
        PumpKeeps(Accept(s, req), m, t);
      }
    case ResetAll => NotSent(s, Dropped, t);
    case _ =>
  }

  lemma {:induction false} ScriptKeeps(s: Sess, ops: seq<Op>, m: nat, t: nat)
    requires Budget(s, m, t) && FixedOps(ops)
    ensures Keeps(NoPolls(ops), s, RunScript(s, ops), m, t)
    decreases |ops|
  {
    hide RunOp, Sends, Allowance;
    if ops != [] {
      var init := ops[..|ops| - 1];
      ScriptKeeps(s, init, m, t);
      OpKeeps(RunScript(s, init), ops[|ops| - 1], m, t);
    }
  }

  lemma HandlersKeep(s: Sess, own: bool, h: Handlers, m: nat, t: nat)
    requires Budget(s, m, t) && FixedOps(h.perRequest) && FixedOps(h.sessionWide)
    ensures Keeps(NoPolls(h.perRequest) && NoPolls(h.sessionWide), s, RunHandlers(s, own, h), m, t)
  {
    hide RunScript, Sends, Allowance, FixedOps, NoPolls;
    ScriptKeeps(s, h.perRequest, m, t);
    ScriptKeeps(if own then RunScript(s, h.perRequest) else s, h.sessionWide, m, t);
  }

  /** Dispatching an event; `i` is whatever raised it. */
  lemma EmitKeeps(s: Sess, e: Event, i: Input, h: Handlers, m: nat, t: nat)
    requires Budget(s, m, t) && Fixed(i, h)
    ensures Keeps(Passive(i, h), s, Emit(s, e, h), m, t)
  {
    hide RunHandlers, Sends, FixedOps, NoPolls;
    NotSent(s, Raised(Owner(s), OwnHandler(s), e), t);
    HandlersKeep(Raise(s, e), OwnHandler(s).Some?, h, m, t);
    NotSent(RunHandlers(Raise(s, e), OwnHandler(s).Some?, h), Finished(e), t);
  }

  /** The last event of the request in flight: it is over. */
  lemma FinalKeeps(s: Sess, e: Event, i: Input, h: Handlers, m: nat, t: nat)
    requires Budget(s, m, t) && Fixed(i, h) && s.awaiting
    ensures var r := Complete(Emit(s, e, h));
            Keeps(Passive(i, h), s, r, m, t) && HeadTicket(s) < HeadTicket(r)
  {
    hide Emit, Complete, Sends, Fixed, Passive, Allowance;
    EmitKeeps(s, e, i, h, m, t);
    CompleteKeeps(Emit(s, e, h), m, t);
  }

  // ---------------------------------------------------------------------------
  // Receiving and ticking
  // ---------------------------------------------------------------------------

  /** Buffers, counts, clock and deadline are no part of the budget. */
  lemma Unrelated(s: Sess, o: Obs, r: Sess, m: nat, t: nat)
    requires Budget(s, m, t) && !o.Sent? && WF(r)
    requires r == s.(log := s.log + [o], xfer := r.xfer, cachedCells := r.cachedCells, cachedTemps := r.cachedTemps)
    ensures Keeps(true, s, r, m, t)
  {
    NotSent(s, o, t);
    hide Sends;
  }

  lemma DeliverKeeps(s: Sess, id: byte, i: Input, h: Handlers, m: nat, t: nat)
    requires Budget(s, m, t) && Fixed(i, h)
    ensures Keeps(Passive(i, h), s, DeliverOrWait(s, id, h), m, t)
  {
    hide Emit, Pump, DecodeFault, Sends, Fixed, Passive, Read;
    var decoded := DecodeFault(s.xfer.record);
    if decoded.Some? {
      EmitKeeps(s, FaultEvent(id, decoded.value), i, h, m, t);
    }
    var settled := if |s.xfer.record| < FAULT_BUFFER_LEN then s else DeliverRecord(s, id, h);
    assert Keeps(Passive(i, h), s, settled, m, t);
    hide DeliverRecord;
    PumpKeeps(settled, m, t);
  }

  lemma ReplyKeeps(s: Sess, id: byte, data: DataBytes, i: Input, h: Handlers, m: nat, t: nat)
    requires Budget(s, m, t) && Fixed(i, h) && s.awaiting && s.queue[0].id == id
    ensures Keeps(Passive(i, h), s, OnReply(s, id, data, h), m, t)
  {
    hide Emit, Complete, Sends, Fixed, Passive, File, MultiEvent, Appended, DeliverOrWait, Allowance, Read;
    var heard := Logged(s, Heard(id, data));
    Unrelated(s, Heard(id, data), heard, m, t);
    if !MultiframeInfo(id).multi {
      FinalKeeps(heard, SingleEvent(s.queue[0], id, data), i, h, m, t);
    } else if !MultiframeInfo(id).streaming {
      if data[0] > MAX_FRAME_INDEX {
        EmitKeeps(s, Rejection(id, FrameSequence), i, h, m, t);
      } else {
        var page := FilePage(s, id, data);
        Unrelated(s, Heard(id, data), page, m, t);
        FinalKeeps(page, MultiEvent(page.xfer, id), i, h, m, t);
        AnyTime(page, m, t);
      }
    } else if data[0] == FRAME_NO_END {
      CompleteKeeps(heard, m, t);
    } else {
      var grown := heard.(xfer := Appended(s.xfer, data));
      Unrelated(s, Heard(id, data), grown, m, t);
      DeliverKeeps(grown, id, i, h, m, t);
    }
  }

  lemma AnyTime(s: Sess, m: nat, t: nat)
    requires Budget(s, m, t)
    ensures forall now: nat, deadline: nat :: Keeps(true, s, s.(now := now, deadline := deadline), m, t)
  {
    hide Sends;
  }

  lemma FrameKeeps(s: Sess, f: Message, i: Input, h: Handlers, m: nat, t: nat)
    requires Budget(s, m, t) && Fixed(i, h)
    ensures Keeps(Passive(i, h), s, OnFrame(s, f, h), m, t)
  {
    hide Emit, OnReply, Sends, Fixed, Passive;
    var id, data := f[2], DataOf(f);
    EmitKeeps(s, Rejection(id, UnexpectedDataId), i, h, m, t);
    EmitKeeps(s, Rejection(id, BadSourceAddress), i, h, m, t);
    if s.awaiting && id == s.queue[0].id {
      ReplyKeeps(NoteCounts(s, id, data), id, data, i, h, m, t);
    }
  }

  lemma ErrorKeeps(s: Sess, error: Framer.FrameError, i: Input, h: Handlers, m: nat, t: nat)
    requires Budget(s, m, t) && Fixed(i, h)
    ensures Keeps(Passive(i, h), s, OnFrameError(s, error, h), m, t)
  {
    hide Emit, Sends, Fixed, Passive;
    var id := if s.awaiting then s.queue[0].id else CAPACITY_VOLTAGE;
    EmitKeeps(s, Rejection(id, if error == Framer.BadChecksum then Checksum else BadLength), i, h, m, t);
  }

  /** An expired deadline spends a retry or ends the request. */
  lemma ExpiryKeeps(s: Sess, i: Input, h: Handlers, m: nat, t: nat)
    requires Budget(s, m, t) && Fixed(i, h) && s.awaiting
    ensures Keeps(Passive(i, h), s, OnExpiry(s, h), m, t) && Spent(s, OnExpiry(s, h))
  {
    hide Emit, Complete, Sends, Fixed, Passive, MultiEvent, Transmit;
    var id := s.queue[0].id;
    FinalKeeps(s, MultiEvent(s.xfer, id), i, h, m, t);
    FinalKeeps(s, Event(ProtocolError, id, Truncated, 0, s.xfer.framesSeen, NoPayload), i, h, m, t);
    FinalKeeps(s, Event(Timeout, id, NoError, s.retries, 0, NoPayload), i, h, m, t);
    if s.retries < m {
      TransmitKeeps(s.(retries := s.retries + 1), m, t);
    }
  }

  lemma TickKeeps(s: Sess, now: nat, i: Input, h: Handlers, m: nat, t: nat)
    requires Budget(s, m, t) && Fixed(i, h)
    ensures Keeps(Passive(i, h), s, Tick(s, now, h), m, t)
    ensures TimedOutBy(s, now) ==> Spent(s, Tick(s, now, h))
  {
    hide Sends, Fixed, Passive, OnExpiry, Expired;
    AnyTime(s, m, t);
    var ticked := s.(now := Read(s.cfg.clock, now));
    if s.awaiting {
      ExpiryKeeps(ticked, i, h, m, t);
    }
  }

  /** The input is a tick that finds the deadline of the request in flight expired. */
  predicate Expires(s: Sess, i: Input) {
    i.TickTo? && TimedOutBy(s, i.now)
  }

  lemma StepKeeps(s: Sess, i: Input, h: Handlers, m: nat, t: nat)
    requires Budget(s, m, t) && Fixed(i, h)
    ensures Keeps(Passive(i, h), s, Step(s, i, h), m, t)
    ensures Expires(s, i) ==> Spent(s, Step(s, i, h))
  {
    hide Sends, OnFrame, OnFrameError, Tick, RunOp, FixedOps, NoPolls, TimedOutBy;
    match i
    case Byte(b) =>
      var (parser, outs) := Framer.Step(s.parser, b);
      var fed := s.(parser := parser);
      hide Framer.Step;
      if outs != [] {
        match outs[0]
        case Frame(f) => FrameKeeps(fed, f, i, h, m, t);
        case Rejected(e) => ErrorKeeps(fed, e, i, h, m, t);
      }
    case Deliver(f) => FrameKeeps(s, f, i, h, m, t);
    case Spoilt(e) => ErrorKeeps(s, e, i, h, m, t);
    case TickTo(now) => TickKeeps(s, now, i, h, m, t);
    case Call(op) => OpKeeps(s, op, m, t);
  }

  // ---------------------------------------------------------------------------
  // Runs
  // ---------------------------------------------------------------------------

  ghost predicate AllFixed(inputs: seq<(Input, Handlers)>) {
    forall k :: 0 <= k < |inputs| ==> Fixed(inputs[k].0, inputs[k].1)
  }

  lemma {:induction false} RunKeeps(s: Sess, inputs: seq<(Input, Handlers)>, m: nat, t: nat)
    requires Budget(s, m, t) && AllFixed(inputs)
    ensures Budget(Run(s, inputs), m, t)
    decreases |inputs|
  {
    hide Step, Fixed, Sends, Allowance, WF;
    if inputs != [] {
      var n := |inputs| - 1;
      RunKeeps(s, inputs[..n], m, t);
      StepKeeps(Run(s, inputs[..n]), inputs[n].0, inputs[n].1, m, t);
    }
  }

  lemma StartsWithin(cfg: Config, t: nat)
    requires 1 <= cfg.capacity
    ensures Budget(Init(cfg), cfg.maxRetries, t)
  {
  }

  /** From construction on, whatever arrives: no request is transmitted more than once plus the retry limit, none before
      it is begun, and the retries spent never exceed the limit. */
  lemma TransmissionsBounded(cfg: Config, inputs: seq<(Input, Handlers)>, t: nat)
    requires 1 <= cfg.capacity && AllFixed(inputs)
    ensures var r := Run(Init(cfg), inputs);
            && r.cfg.maxRetries == cfg.maxRetries && r.retries <= cfg.maxRetries
            && Sends(r.log, t) <= cfg.maxRetries + 1
            && (t > HeadTicket(r) || (t == HeadTicket(r) && !r.awaiting) ==> Sends(r.log, t) == 0)
  {
    StartsWithin(cfg, t);
    RunKeeps(Init(cfg), inputs, cfg.maxRetries, t);
    hide Sends, Run;
  }

  /** Expired ticks while request t was in flight. */
  function Expirations(s: Sess, inputs: seq<(Input, Handlers)>, t: nat): nat
    requires WF(s)
    decreases |inputs|
  {
    if inputs == [] then 0
    else
      var init, last := inputs[..|inputs| - 1], inputs[|inputs| - 1];
      Expirations(s, init, t) +
      if Expires(Run(s, init), last.0) && HeadTicket(Run(s, init)) == t then 1 else 0
  }

  /** Expired ticks request t can have seen: one for each retry spent, and one more when it is over. */
  function Endured(s: Sess, t: nat): nat
    requires WF(s)
  {
    if t < HeadTicket(s) then s.cfg.maxRetries + 1
    else if t == HeadTicket(s) && s.awaiting then s.retries
    else 0
  }

  lemma StepEndures(s: Sess, i: Input, h: Handlers, m: nat, t: nat)
    requires Budget(s, m, t) && Fixed(i, h)
    ensures Endured(s, t) + (if Expires(s, i) && HeadTicket(s) == t then 1 else 0) <= Endured(Step(s, i, h), t)
  {
    hide Step, Fixed, Sends, Passive, Expired, Read;
    StepKeeps(s, i, h, m, t);
  }

  lemma {:induction false} ExpirationsWithin(cfg: Config, inputs: seq<(Input, Handlers)>, t: nat)
    requires 1 <= cfg.capacity && AllFixed(inputs)
    ensures Expirations(Init(cfg), inputs, t) <= Endured(Run(Init(cfg), inputs), t)
    decreases |inputs|
  {
    hide Step, Fixed, Init, Endured, Expires, Budget;
    if inputs != [] {
      var n := |inputs| - 1;
      ExpirationsWithin(cfg, inputs[..n], t);
      StartsWithin(cfg, t);
      RunKeeps(Init(cfg), inputs[..n], cfg.maxRetries, t);
      StepEndures(Run(Init(cfg), inputs[..n]), inputs[n].0, inputs[n].1, cfg.maxRetries, t);
    }
  }

  /** From construction on, whatever arrives: no request lives through more expired ticks than it has attempts. */
  lemma ExpirationsBounded(cfg: Config, inputs: seq<(Input, Handlers)>, t: nat)
    requires 1 <= cfg.capacity && AllFixed(inputs)
    ensures Expirations(Init(cfg), inputs, t) <= cfg.maxRetries + 1
  {
    ExpirationsWithin(cfg, inputs, t);
    StartsWithin(cfg, t);
    RunKeeps(Init(cfg), inputs, cfg.maxRetries, t);
    hide Run, Expirations, Init, Sends;
  }

  // ---------------------------------------------------------------------------
  // The whole queue
  // ---------------------------------------------------------------------------

  function ExpiredTicks(s: Sess, inputs: seq<(Input, Handlers)>): nat
    requires WF(s)
    decreases |inputs|
  {
    if inputs == [] then 0
    else
      var init, last := inputs[..|inputs| - 1], inputs[|inputs| - 1];
      ExpiredTicks(s, init) + if Expires(Run(s, init), last.0) then 1 else 0
  }

  lemma TimesAdd(a: nat, b: nat, k: nat)
    ensures Times(a + b, k) == Times(a, k) + Times(b, k) && (a > 0 && k > 0 ==> Times(a, k) >= k)
  {
    if a > 0 {
      MulMonotone(1, a, k);
    }
  }

  /** What moving on is worth in expired ticks. */
  lemma OnwardPays(s: Sess, r: Sess, spent: bool)
    requires WF(s) && WF(r) && Onward(false, s, r) && (spent ==> s.awaiting && Spent(s, r))
    requires s.cfg.maxRetries == r.cfg.maxRetries && s.retries <= s.cfg.maxRetries
    ensures (if spent then 1 else 0) + Remaining(r) <= Remaining(s) + Times(r.accepted - s.accepted, Attempts(s))
  {
    var k := Attempts(s);
    TimesAdd(HeadTicket(s), |s.queue|, k);
    TimesAdd(HeadTicket(r), |r.queue|, k);
    TimesAdd(r.accepted - s.accepted, s.accepted, k);
    TimesAdd(HeadTicket(r) - HeadTicket(s), HeadTicket(s), k);
    hide Times;
  }

  /** Tickets from `t` on were never transmitted. */
  lemma {:induction false} FreshTicket(log: seq<Obs>) returns (t: nat)
    ensures forall u: nat :: t <= u ==> Sends(log, u) == 0
    decreases |log|
  {
    if log == [] {
      t := 0;
    } else {
      var o := log[|log| - 1];
      t := FreshTicket(log[..|log| - 1]);
      if o.Sent? && t <= o.ticket {
        t := o.ticket + 1;
      }
    }
  }

  /** The part of a step's budget that speaks of no request in particular. */
  lemma StepWithin(s: Sess, i: Input, h: Handlers)
    requires WF(s) && s.retries <= s.cfg.maxRetries && Fixed(i, h)
    ensures var r := Step(s, i, h);
            && r.cfg.maxRetries == s.cfg.maxRetries && r.retries <= r.cfg.maxRetries
            && Onward(Passive(i, h), s, r) && (Expires(s, i) ==> s.awaiting && Spent(s, r))
  {
    hide Step, Fixed, Passive, Sends;
    var t := FreshTicket(s.log);
    StepKeeps(s, i, h, s.cfg.maxRetries, t);
  }

  /** The same as a payment: whatever the step accepts pays for whatever it adds. */
  lemma StepPays(s: Sess, i: Input, h: Handlers, start: nat)
    requires WF(s) && s.retries <= s.cfg.maxRetries && Fixed(i, h) && start <= s.accepted
    ensures var (r, k) := (Step(s, i, h), Attempts(s));
            && r.cfg.maxRetries == s.cfg.maxRetries && r.retries <= r.cfg.maxRetries && s.accepted <= r.accepted
            && (Passive(i, h) ==> r.accepted == s.accepted)
            && (if Expires(s, i) then 1 else 0) + Remaining(r) + Times(s.accepted - start, k)
                 <= Remaining(s) + Times(r.accepted - start, k)
  {
    hide Step, Fixed, Passive, Times;
    var r := Step(s, i, h);
    StepWithin(s, i, h);
    OnwardPays(s, r, Expires(s, i));
    TimesAdd(s.accepted - start, r.accepted - s.accepted, Attempts(s));
    hide Expires, Remaining;
  }

  ghost predicate AllPassive(inputs: seq<(Input, Handlers)>) {
    forall k :: 0 <= k < |inputs| ==> Passive(inputs[k].0, inputs[k].1)
  }

  /** Over any inputs and any handlers: expired ticks, and those still to come, are paid for by the requests already
      queued and by those accepted on the way, at one per attempt; where nothing polls, by those already queued. */
  lemma {:induction false} ExpiredTicksPaidFor(s: Sess, inputs: seq<(Input, Handlers)>)
    requires WF(s) && s.retries <= s.cfg.maxRetries && AllFixed(inputs)
    ensures var r := Run(s, inputs);
            && s.accepted <= r.accepted && r.retries <= r.cfg.maxRetries == s.cfg.maxRetries
            && ExpiredTicks(s, inputs) + Remaining(r) <= Remaining(s) + Times(r.accepted - s.accepted, Attempts(s))
            && (AllPassive(inputs) ==> ExpiredTicks(s, inputs) + Remaining(r) <= Remaining(s))
    decreases |inputs|
  {
    PaidForSoFar(s, inputs);
    TimesAdd(0, 0, Attempts(s));
    hide Run, Remaining, ExpiredTicks, Times;
  }

  lemma {:induction false} PaidForSoFar(s: Sess, inputs: seq<(Input, Handlers)>)
    requires WF(s) && s.retries <= s.cfg.maxRetries && AllFixed(inputs)
    ensures var r := Run(s, inputs);
            && s.accepted <= r.accepted && r.retries <= r.cfg.maxRetries == s.cfg.maxRetries
            && ExpiredTicks(s, inputs) + Remaining(r) <= Remaining(s) + Times(r.accepted - s.accepted, Attempts(s))
            && (AllPassive(inputs) ==> r.accepted == s.accepted)
    decreases |inputs|
  {
    hide Step, Fixed, Passive, Remaining, Expires, Times;
    if inputs == [] {
      TimesAdd(0, 0, Attempts(s));
    } else {
      var n := |inputs| - 1;
      PaidForSoFar(s, inputs[..n]);
      StepPays(Run(s, inputs[..n]), inputs[n].0, inputs[n].1, s.accepted);
    }
  }
}
