/**
 What calls do, from a caller or from a handler: which polls are taken, in what
 order the two handlers of a dispatch make theirs, what a setting governs, and
 that a session reset is as good as new.
 */
module Calls {
  import opened Bytes
  import opened Protocol
  import opened Decode
  import opened Session
  import opened Safety
  import opened Histories
  import opened FaultStream
  import opened Deadlines
  import Reports
  import Framer

  // ---------------------------------------------------------------------------
  // Polls
  // ---------------------------------------------------------------------------

  /** Every command of the protocol. */
  predicate Command(id: byte) {
    0x50 <= id <= 0x6A || 0x70 <= id <= 0x8A || 0x90 <= id <= 0x9A || 0xD8 <= id <= 0xDA
  }

  /** A poll is taken exactly when it can be transmitted, is for a command of the protocol and finds room. A poll
      refused changes nothing, and is told the first of the three that fails. */
  lemma PollTaken(s: Sess, req: Request)
    requires WF(s)
    ensures RunOp(s, Poll(req)) != s <==> s.cfg.hasTx && Command(req.id) && |s.queue| < s.cfg.capacity
    ensures Verdict(s, req) == Queued <==> RunOp(s, Poll(req)) != s
    ensures Verdict(s, req) == NoTxHandler <==> !s.cfg.hasTx
    ensures Verdict(s, req) == BadRequest <==> s.cfg.hasTx && !Command(req.id)
    ensures Verdict(s, req) == QueueFull <==> s.cfg.hasTx && Command(req.id) && |s.queue| == s.cfg.capacity
  {
    if Verdict(s, req) == Queued {
      PumpSends(Accept(s, req));
    }
    hide Pump;
  }

  /** A poll goes behind the requests there are, under the next number. The oldest goes out at once, as the bytes of its
      own command, exactly when nothing is in flight and no event is being dispatched. */
  lemma PollQueues(s: Sess, req: Request)
    requires WF(s) && s.cfg.hasTx && Command(req.id) && |s.queue| < s.cfg.capacity
    ensures var (r, first) := (RunOp(s, Poll(req)), (s.queue + [req])[0]);
            && r.queue == s.queue + [req] && r.accepted == s.accepted + 1 && r.cfg == s.cfg
            && if s.awaiting || s.dispatching
               then r == s.(queue := r.queue, accepted := r.accepted, log := s.log + [Accepted(s.accepted, req)])
               else
                 && r.awaiting
                 && r.log == ((s.log + [Accepted(s.accepted, req)]) + [Begun(HeadTicket(s), r.xfer.expectedItems)])
                             + [Sent(HeadTicket(s), Encode(s.cfg.host, first.id, first.data))]
  {
    PumpSends(Accept(s, req));
    hide Pump, Encode;
  }

  lemma PumpSends(s: Sess)
    requires WF(s) && s.cfg.hasTx
    ensures var (r, items) := (Pump(s), Pump(s).xfer.expectedItems);
            && r.queue == s.queue && r.accepted == s.accepted && r.cfg == s.cfg && s.log <= r.log
            && if s.awaiting || s.queue == [] then r == s
               else r.awaiting && r.log == (s.log + [Begun(HeadTicket(s), items)])
                                           + [Sent(HeadTicket(s), Encode(s.cfg.host, s.queue[0].id, s.queue[0].data))]
  {
    hide Encode, ExpectedFrames, ItemsFor, Zeros, Read;
  }

  // ---------------------------------------------------------------------------
  // Handlers
  // ---------------------------------------------------------------------------

  function Polls(reqs: seq<Request>): (ops: seq<Op>)
    ensures |ops| == |reqs|
  {
    seq(|reqs|, k requires 0 <= k < |reqs| => Poll(reqs[k]))
  }

  ghost predicate Commands(reqs: seq<Request>) {
    forall k :: 0 <= k < |reqs| ==> Command(reqs[k].id)
  }

  lemma {:induction false} PollsQueue(s: Sess, reqs: seq<Request>)
    requires WF(s) && s.dispatching && s.cfg.hasTx && Commands(reqs) && |s.queue| + |reqs| <= s.cfg.capacity
    ensures var r := RunScript(s, Polls(reqs));
            && r.queue == s.queue + reqs && r.dispatching && r.cfg == s.cfg && r.awaiting == s.awaiting
    decreases |reqs|
  {
    hide RunOp;
    if reqs == [] {
      assert s.queue + reqs == s.queue;
    } else {
      var n := |reqs| - 1;
      assert Polls(reqs)[..n] == Polls(reqs[..n]);
      PollsQueue(s, reqs[..n]);
      PollQueues(RunScript(s, Polls(reqs[..n])), reqs[n]);
      assert s.queue + reqs == (s.queue + reqs[..n]) + [reqs[n]];
    }
  }

  /** The handler of the request in flight makes its polls first, then the session-wide one, each if there is one. */
  lemma OwnHandlerFirst(s: Sess, e: Event, mine: seq<Request>, others: seq<Request>)
    requires WF(s) && s.cfg.hasTx && Commands(mine) && Commands(others)
    requires |s.queue| + |mine| + |others| <= s.cfg.capacity
    ensures Emit(s, e, Handlers(Polls(mine), Polls(others))).queue ==
            (s.queue + if s.awaiting && s.queue[0].handler.Some? then mine else [])
            + if s.cfg.hasEventHandler then others else []
  {
    var raised, own := Raise(s, e), OwnHandler(s).Some?;
    assert s.queue + [] == s.queue;
    PollsQueue(raised, mine);
    var mid := if own then RunScript(raised, Polls(mine)) else raised;
    assert mid.queue + [] == mid.queue;
    PollsQueue(mid, others);
    hide RunScript, Polls;
  }

  /** A handler that unregisters the session-wide one in time keeps it from this very event; one that resets the session
      does not. */
  lemma SessionWideAfter(s: Sess, e: Event, others: seq<Request>)
    requires WF(s) && s.cfg.hasTx && s.awaiting && s.queue[0].handler.Some? && s.cfg.hasEventHandler
    requires Commands(others) && |others| <= s.cfg.capacity
    ensures Emit(s, e, Handlers([SetEventHandler(false)], Polls(others))).queue == s.queue
    ensures Emit(s, e, Handlers([ResetAll], Polls(others))).queue == others
  {
    OneCall(Raise(s, e), SetEventHandler(false));
    OneCall(Raise(s, e), ResetAll);
    PollsQueue(Reset(Raise(s, e)), others);
    assert [] + others == others;
    hide RunScript, Polls;
  }

  lemma OneCall(s: Sess, op: Op)
    requires WF(s)
    ensures RunScript(s, [op]) == RunOp(s, op)
  {
    assert [op][..0] == [];
    hide RunOp;
  }

  // ---------------------------------------------------------------------------
  // Resets
  // ---------------------------------------------------------------------------

  /** Alike in all but what a request left behind when it was over. */
  predicate AsGood(s: Sess, t: Sess) {
    WF(s) && WF(t) && (s == t || (!s.awaiting && t == s.(deadline := t.deadline, retries := t.retries, xfer := t.xfer)))
  }

  lemma PumpAsGood(s: Sess, t: Sess)
    requires AsGood(s, t)
    ensures AsGood(Pump(s), Pump(t))
  {
    hide Encode, ExpectedFrames, ItemsFor, Zeros, Read, Orderly;
  }

  lemma OpAsGood(s: Sess, t: Sess, op: Op)
    requires AsGood(s, t)
    ensures AsGood(RunOp(s, op), RunOp(t, op))
  {
    if op.Poll? && Verdict(s, op.req) == Queued {
      PumpAsGood(Accept(s, op.req), Accept(t, op.req));
    }
    hide Pump;
  }

  lemma {:induction false} ScriptAsGood(s: Sess, t: Sess, ops: seq<Op>)
    requires AsGood(s, t)
    ensures AsGood(RunScript(s, ops), RunScript(t, ops))
    decreases |ops|
  {
    if ops != [] {
      ScriptAsGood(s, t, ops[..|ops| - 1]);
      OpAsGood(RunScript(s, ops[..|ops| - 1]), RunScript(t, ops[..|ops| - 1]), ops[|ops| - 1]);
    }
    hide RunOp, WF;
  }

  lemma EmitAsGood(s: Sess, t: Sess, e: Event, h: Handlers)
    requires AsGood(s, t)
    ensures AsGood(Emit(s, e, h), Emit(t, e, h))
  {
    if s != t {
      ScriptAsGood(Raise(s, e), Raise(t, e), h.sessionWide);
    }
    hide RunScript, Orderly;
  }

  lemma StepAsGood(s: Sess, t: Sess, i: Input, h: Handlers)
    requires AsGood(s, t)
    ensures AsGood(Step(s, i, h), Step(t, i, h))
  {
    hide Framer.Step, Emit, RunOp, OnReply, NoteCounts, OnExpiry, Orderly;
    if s != t {
      match i
      case Byte(b) =>
        var (parser, outs) := Framer.Step(s.parser, b);
        if outs != [] {
          var a, c := s.(parser := parser), t.(parser := parser);
          match outs[0]
          case Frame(f) => EmitAsGood(a, c, Rejection(f[2], UnexpectedDataId), h);
          case Rejected(x) => ErrorAsGood(a, c, x, h);
        }
      case Deliver(f) => EmitAsGood(s, t, Rejection(f[2], UnexpectedDataId), h);
      case Spoilt(x) => ErrorAsGood(s, t, x, h);
      case TickTo(_) =>
      case Call(op) => OpAsGood(s, t, op);
    }
  }

  lemma ErrorAsGood(s: Sess, t: Sess, x: Framer.FrameError, h: Handlers)
    requires AsGood(s, t) && !s.awaiting
    ensures AsGood(OnFrameError(s, x, h), OnFrameError(t, x, h))
  {
    EmitAsGood(s, t, Rejection(CAPACITY_VOLTAGE, if x == Framer.BadChecksum then Checksum else BadLength), h);
    hide Emit, Orderly;
  }

  lemma {:induction false} RunAsGood(s: Sess, t: Sess, inputs: seq<(Input, Handlers)>)
    requires AsGood(s, t)
    ensures AsGood(Run(s, inputs), Run(t, inputs))
    decreases |inputs|
  {
    if inputs != [] {
      var n := |inputs| - 1;
      RunAsGood(s, t, inputs[..n]);
      StepAsGood(Run(s, inputs[..n]), Run(t, inputs[..n]), inputs[n].0, inputs[n].1);
    }
    hide Step, WF;
  }

  /** A session just made, with the settings, the counts learned and the time of `s`; requests are numbered on. */
  function Renewed(s: Sess): Sess
    requires 1 <= s.cfg.capacity
  {
    Init(s.cfg).(now := s.now, cachedCells := s.cachedCells, cachedTemps := s.cachedTemps,
                 dispatching := s.dispatching, accepted := s.accepted, log := s.log + [Dropped])
  }

  /** After a reset, in a dispatch or out of it, all that comes is as with a new session of the same settings, counts
      and time: nothing of the queue, the framer, the reply in progress, the deadline or the retries has survived. */
  lemma ResetRenews(s: Sess, inputs: seq<(Input, Handlers)>)
    requires WF(s)
    ensures WF(Renewed(s)) && AsGood(Run(RunOp(s, ResetAll), inputs), Run(Renewed(s), inputs))
  {
    RunAsGood(RunOp(s, ResetAll), Renewed(s), inputs);
    hide Run;
  }

  // ---------------------------------------------------------------------------
  // Settings
  // ---------------------------------------------------------------------------

  /** The response timeout set is the one the next request is given. */
  lemma ResponseTimeoutGoverns(s: Sess, ms: uint32, req: Request)
    requires WF(s) && !s.awaiting && !s.dispatching && ms <= 0x8000_0000
    requires s.cfg.hasTx && Command(req.id) && |s.queue| < s.cfg.capacity
    ensures LeftAloneFor(RunOp(RunOp(s, SetResponseTimeout(ms)), Poll(req)), ms)
  {
    var told := RunOp(s, SetResponseTimeout(ms));
    var r := RunOp(told, Poll(req));
    PollQueues(told, req);
    assert r == Step(told, Call(Poll(req)), Handlers([], []));
    assert r.log[|s.log| + 2].Sent?;
    hide RunOp, Step, LeftAloneFor;
    ResponseDeadline(told, Call(Poll(req)), Handlers([], []));
  }

  /** The inter-frame timeout set is the one a page that does not complete the reply gives it. */
  lemma InterframeTimeoutGoverns(s: Sess, ms: uint32, f: Message, h: Handlers)
    requires WF(s) && s.awaiting && f[1] == s.cfg.bmsAddress && f[2] == s.queue[0].id && MoreToCome(f) && f[2] != 0x64
    requires ms <= 0x8000_0000
    requires HeadTicket(OnFrame(RunOp(s, SetInterframeTimeout(ms)), f, h)) == HeadTicket(s)
    ensures LeftAloneFor(OnFrame(RunOp(s, SetInterframeTimeout(ms)), f, h), ms)
  {
    var told := RunOp(s, SetInterframeTimeout(ms));
    PageKeepsSettings(told, f, h);
    hide OnFrame, LeftAloneFor;
    InterframeDeadline(told, f, h);
  }

  lemma PageKeepsSettings(s: Sess, f: Message, h: Handlers)
    requires WF(s) && s.awaiting && f[1] == s.cfg.bmsAddress && f[2] == s.queue[0].id && MoreToCome(f) && f[2] != 0x64
    requires HeadTicket(OnFrame(s, f, h)) == HeadTicket(s)
    ensures OnFrame(s, f, h).cfg == s.cfg
  {
    hide Emit, Complete, File, MultiEvent;
    var id, d := f[2], DataOf(f);
    assert NoteCounts(s, id, d) == s;
    var page := FilePage(s, id, d);
    FinalPast(page, MultiEvent(page.xfer, id), h);
  }

  /** A deadline already running is left alone by either. */
  lemma RunningDeadlineStays(s: Sess, op: Op, ms: nat)
    requires WF(s) && LeftAloneFor(s, ms) && (op.SetResponseTimeout? || op.SetInterframeTimeout?)
    ensures LeftAloneFor(RunOp(s, op), ms)
  {
    var r := RunOp(s, op);
    assert WF(r) && r.awaiting && r.deadline == s.deadline && r.now == s.now && r.cfg.clock == s.cfg.clock;
    hide RunOp, OnlyMovesClock;
    forall now: nat, h: Handlers | Distinct(r, now)
      ensures OnlyMovesClock(r, now, h) <==> now < r.now + ms
    {
      assert Distinct(s, now);
      MovesClockEarly(s, now, h);
      MovesClockEarly(r, now, h);
    }
  }

  /** The retry limit set is how often a silent device is asked again. */
  lemma RetryLimitGoverns(s: Sess, n: byte, now: nat, h: Handlers)
    requires Settled(s) && s.awaiting && ReplySoFar(s.log) == []
    requires Expired(s.cfg.clock, Read(s.cfg.clock, now), s.deadline)
    ensures WF(s)
    ensures var r := Tick(RunOp(s, SetMaxRetries(n)), now, h);
            if s.retries < n
            then r.awaiting && r.queue == s.queue && r.accepted == s.accepted && r.retries == s.retries + 1
            else FirstNew(s, r) ==
                   Some(Reports.Told(s, Event(Timeout, s.queue[0].id, NoError, s.retries, 0, NoPayload)))
  {
    CallSettled(s, SetMaxRetries(n));
    var told := RunOp(s, SetMaxRetries(n));
    assert told == s.(cfg := s.cfg.(maxRetries := n)) && WF(s) by { hide Watched, Tracks; }
    hide Settled, Tick, RunOp, ReplySoFar, Expired;
    Reports.ExpirySays(told, now, h);
  }

  /** Without a TX handler no poll is taken; without an event handler only the request's own is told. */
  lemma SwitchesGovern(s: Sess, on: bool, req: Request, e: Event, others: seq<Request>)
    requires WF(s)
    ensures RunOp(RunOp(s, SetTxHandler(on)), Poll(req)) != RunOp(s, SetTxHandler(on)) <==>
            on && Command(req.id) && |s.queue| < s.cfg.capacity
    ensures s.cfg.hasTx && Commands(others) && |s.queue| + |others| <= s.cfg.capacity ==>
              Emit(RunOp(s, SetEventHandler(on)), e, Handlers([], Polls(others))).queue ==
              s.queue + if on then others else []
  {
    PollTaken(RunOp(s, SetTxHandler(on)), req);
    if s.cfg.hasTx && Commands(others) && |s.queue| + |others| <= s.cfg.capacity {
      assert Polls([]) == [] && s.queue + [] == s.queue;
      OwnHandlerFirst(RunOp(s, SetEventHandler(on)), e, [], others);
    }
    hide Emit, Polls;
  }
}
