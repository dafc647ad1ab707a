/**
 From the wire to the payload. The session never looks at its framer except to
 empty it on a reset, so feeding it bytes is feeding it the framer's callbacks;
 a reply encoded frame by frame therefore comes back as the event it stands for.
 */
module EndToEnd {
  import opened Bytes
  import opened Protocol
  import opened Bits
  import opened Decode
  import opened Session
  import opened Safety
  import opened Histories
  import opened RoundTrip
  import WorkConservation
  import Framer
  import FramerTheorems
  import Scan
  import Stuttering

  function With(s: Sess, p: Framer.State): (r: Sess)
    ensures WF(r) <==> WF(s)
  {
    s.(parser := p)
  }

  // ---------------------------------------------------------------------------
  // The session does not look at its framer
  // ---------------------------------------------------------------------------

  /** A reset has happened since `log`. */
  ghost predicate DroppedSince(log: seq<Obs>, more: seq<Obs>) {
    log <= more && exists k :: |log| <= k < |more| && more[k] == Dropped
  }

  /** `a` and `b` come of doing the same, from `log` on, to one session with framer `p` and with framer `q`: they differ
      in the framer at most, and each still has its own unless a reset emptied both. */
  ghost predicate Twin(log: seq<Obs>, a: Sess, b: Sess, p: Framer.State, q: Framer.State) {
    && WF(a)
    && b == With(a, b.parser)
    && log <= a.log
    && ((a.parser == p && b.parser == q) || (a.parser == b.parser == Framer.EMPTY && DroppedSince(log, a.log)))
  }

  lemma DroppedLater(log: seq<Obs>, mid: seq<Obs>, more: seq<Obs>)
    requires log <= mid <= more
    ensures DroppedSince(log, mid) ==> DroppedSince(log, more)
    ensures DroppedSince(mid, more) ==> DroppedSince(log, more)
  {
    if DroppedSince(log, mid) {
      var k :| |log| <= k < |mid| && mid[k] == Dropped;
      assert more[k] == Dropped;
    }
    if DroppedSince(mid, more) {
      var k :| |mid| <= k < |more| && more[k] == Dropped;
    }
  }

  /** Doing one thing after another. */
  lemma TwinsOn(log: seq<Obs>, a: Sess, b: Sess, c: Sess, d: Sess, p: Framer.State, q: Framer.State)
    requires Twin(log, a, b, p, q) && Twin(a.log, c, d, a.parser, b.parser)
    ensures Twin(log, c, d, p, q)
  {
    DroppedLater(log, a.log, c.log);
    hide DroppedSince, WF;
  }

  /** Doing something that leaves the framer alone. */
  lemma TwinAside(s: Sess, q: Framer.State, r: Sess)
    requires WF(r) && r.parser == s.parser && s.log <= r.log
    ensures Twin(s.log, r, With(r, q), s.parser, q)
  {
  }

  lemma PumpAside(s: Sess, q: Framer.State)
    requires WF(s)
    ensures Pump(With(s, q)) == With(Pump(s), q) && Pump(s).parser == s.parser
  {
    hide ItemsFor, ExpectedFrames, Encode, Zeros, Read, Orderly;
    if !s.awaiting && s.queue != [] {
      var b := s.(awaiting := true);
      assert BeginAwaiting(With(b, q)) == With(BeginAwaiting(b), q) && BeginAwaiting(b).parser == s.parser;
      hide BeginAwaiting;
    }
  }

  lemma CompleteAside(s: Sess, q: Framer.State)
    requires WF(s)
    ensures Complete(With(s, q)) == With(Complete(s), q) && Complete(s).parser == s.parser
  {
    assert Retire(With(s, q)) == With(Retire(s), q) && Retire(s).parser == s.parser;
    PumpAside(Retire(s), q);
    hide Pump, Retire;
  }

  lemma OpTwin(s: Sess, q: Framer.State, op: Op)
    requires WF(s)
    ensures Twin(s.log, RunOp(s, op), RunOp(With(s, q), op), s.parser, q)
  {
    OpAppends(s, op);
    if op.Poll? && Verdict(s, op.req) == Queued {
      PumpAside(Accept(s, op.req), q);
      assert Accept(With(s, q), op.req) == With(Accept(s, op.req), q);
    } else if op.ResetAll? {
      assert RunOp(s, op).log[|s.log|] == Dropped;
    }
    hide Pump, Accept;
  }

  lemma {:induction false} ScriptTwin(s: Sess, q: Framer.State, ops: seq<Op>)
    requires WF(s)
    ensures Twin(s.log, RunScript(s, ops), RunScript(With(s, q), ops), s.parser, q)
    decreases |ops|
  {
    hide RunOp, DroppedSince;
    if ops != [] {
      var init, op := ops[..|ops| - 1], ops[|ops| - 1];
      var a, b := RunScript(s, init), RunScript(With(s, q), init);
      ScriptTwin(s, q, init);
      OpTwin(a, b.parser, op);
      TwinsOn(s.log, a, b, RunOp(a, op), RunOp(b, op), s.parser, q);
    }
  }

  lemma HandlersTwin(s: Sess, q: Framer.State, own: bool, h: Handlers)
    requires WF(s)
    ensures Twin(s.log, RunHandlers(s, own, h), RunHandlers(With(s, q), own, h), s.parser, q)
  {
    hide RunScript, WF, DroppedSince;
    ScriptTwin(s, q, h.perRequest);
    var a := if own then RunScript(s, h.perRequest) else s;
    var b := if own then RunScript(With(s, q), h.perRequest) else With(s, q);
    ScriptTwin(a, b.parser, h.sessionWide);
    TwinsOn(s.log, a, b, RunScript(a, h.sessionWide), RunScript(b, h.sessionWide), s.parser, q);
  }

  lemma EmitTwin(s: Sess, q: Framer.State, e: Event, h: Handlers)
    requires WF(s)
    ensures Twin(s.log, Emit(s, e, h), Emit(With(s, q), e, h), s.parser, q)
  {
    var raised, own := Raise(s, e), OwnHandler(s).Some?;
    assert Raise(With(s, q), e) == With(raised, q) && OwnHandler(With(s, q)) == OwnHandler(s);
    assert raised.parser == s.parser && s.log <= raised.log;
    hide Raise, OwnHandler, RunHandlers, DroppedSince;
    var a, b := RunHandlers(raised, own, h), RunHandlers(With(raised, q), own, h);
    HandlersTwin(raised, q, own, h);
    DroppedLater(s.log, raised.log, a.log);
    DroppedLater(s.log, a.log, a.log + [Finished(e)]);
  }

  lemma FinalTwin(s: Sess, q: Framer.State, e: Event, h: Handlers)
    requires WF(s)
    ensures Twin(s.log, Complete(Emit(s, e, h)), Complete(Emit(With(s, q), e, h)), s.parser, q)
  {
    hide Emit, Complete, DroppedSince;
    var a, b := Emit(s, e, h), Emit(With(s, q), e, h);
    EmitTwin(s, q, e, h);
    CompleteAside(a, b.parser);
    CompleteAppends(a);
    TwinAside(a, b.parser, Complete(a));
    TwinsOn(s.log, a, b, Complete(a), Complete(b), s.parser, q);
  }

  /** The same behind an entry of the history. */
  lemma TwinBehind(log: seq<Obs>, o: Obs, a: Sess, b: Sess, p: Framer.State, q: Framer.State)
    requires Twin(log + [o], a, b, p, q)
    ensures Twin(log, a, b, p, q)
  {
    DroppedLater(log, log + [o], a.log);
    hide DroppedSince, WF;
  }

  lemma RecordTwin(s: Sess, q: Framer.State, id: byte, h: Handlers)
    requires WF(s)
    ensures Twin(s.log, DeliverRecord(s, id, h), DeliverRecord(With(s, q), id, h), s.parser, q)
  {
    hide Emit, DecodeFault, DroppedSince;
    var decoded := DecodeFault(s.xfer.record);
    if decoded.Some? {
      EmitTwin(s, q, FaultEvent(id, decoded.value), h);
    }
  }

  lemma PumpAppends(s: Sess)
    requires WF(s)
    ensures s.log <= Pump(s).log
  {
  }

  lemma DeliverTwin(s: Sess, q: Framer.State, id: byte, h: Handlers)
    requires WF(s)
    ensures Twin(s.log, DeliverOrWait(s, id, h), DeliverOrWait(With(s, q), id, h), s.parser, q)
  {
    hide Pump, DeliverRecord, DroppedSince, Read;
    RecordTwin(s, q, id, h);
    var a := if |s.xfer.record| < FAULT_BUFFER_LEN then s else DeliverRecord(s, id, h);
    var b := if |s.xfer.record| < FAULT_BUFFER_LEN then With(s, q) else DeliverRecord(With(s, q), id, h);
    PumpAside(a, b.parser);
    PumpAppends(a);
    TwinAside(a, b.parser, Pump(a));
    TwinsOn(s.log, a, b, Pump(a), Pump(b), s.parser, q);
  }

  lemma ReplyTwin(s: Sess, q: Framer.State, id: byte, data: DataBytes, h: Handlers)
    requires WF(s) && s.awaiting && s.queue[0].id == id
    ensures Twin(s.log, OnReply(s, id, data, h), OnReply(With(s, q), id, data, h), s.parser, q)
  {
    hide Emit, Complete, Pump, File, MultiEvent, Appended, DeliverOrWait, Twin;
    var o, heard := Heard(id, data), Logged(s, Heard(id, data));
    if !MultiframeInfo(id).multi {
      FinalTwin(heard, q, SingleEvent(s.queue[0], id, data), h);
      TwinBehind(s.log, o, HandleSingle(s, id, data, h), HandleSingle(With(s, q), id, data, h), s.parser, q);
    } else if MultiframeInfo(id).streaming {
      StreamTwin(s, q, id, data, h);
    } else if data[0] > MAX_FRAME_INDEX {
      EmitTwin(s, q, Rejection(id, FrameSequence), h);
    } else {
      var page := FilePage(s, id, data);
      assert FilePage(With(s, q), id, data) == With(page, q);
      FinalTwin(page, q, MultiEvent(page.xfer, id), h);
      TwinAside(page, q, page.(deadline := Read(page.cfg.clock, page.now + page.cfg.interframeTimeout)));
      TwinBehind(s.log, o, HandleMulti(s, id, data, h), HandleMulti(With(s, q), id, data, h), s.parser, q);
    }
  }

  lemma StreamTwin(s: Sess, q: Framer.State, id: byte, data: DataBytes, h: Handlers)
    requires WF(s) && s.awaiting
    ensures Twin(s.log, HandleStream(s, id, data, h), HandleStream(With(s, q), id, data, h), s.parser, q)
  {
    hide Complete, Appended, DeliverOrWait, Twin;
    var heard := Logged(s, Heard(id, data));
    if data[0] == FRAME_NO_END {
      CompleteAside(heard, q);
      CompleteAppends(heard);
      TwinAside(heard, q, Complete(heard));
    } else {
      DeliverTwin(heard.(xfer := Appended(s.xfer, data)), q, id, h);
    }
    TwinBehind(s.log, Heard(id, data), HandleStream(s, id, data, h), HandleStream(With(s, q), id, data, h),
               s.parser, q);
  }

  lemma FrameTwin(s: Sess, q: Framer.State, f: Message, h: Handlers)
    requires WF(s)
    ensures Twin(s.log, OnFrame(s, f, h), OnFrame(With(s, q), f, h), s.parser, q)
  {
    hide Emit, OnReply, Twin;
    var id, data := f[2], DataOf(f);
    EmitTwin(s, q, Rejection(id, UnexpectedDataId), h);
    EmitTwin(s, q, Rejection(id, BadSourceAddress), h);
    if s.awaiting && id == s.queue[0].id {
      var noted := NoteCounts(s, id, data);
      assert NoteCounts(With(s, q), id, data) == With(noted, q) && noted.log == s.log && noted.parser == s.parser;
      hide NoteCounts;
      ReplyTwin(noted, q, id, data, h);
    }
  }

  lemma ErrorTwin(s: Sess, q: Framer.State, error: Framer.FrameError, h: Handlers)
    requires WF(s)
    ensures Twin(s.log, OnFrameError(s, error, h), OnFrameError(With(s, q), error, h), s.parser, q)
  {
    hide Emit, Twin;
    var id := if s.awaiting then s.queue[0].id else CAPACITY_VOLTAGE;
    EmitTwin(s, q, Rejection(id, if error == Framer.BadChecksum then Checksum else BadLength), h);
  }

  lemma ExpiryTwin(s: Sess, q: Framer.State, h: Handlers)
    requires WF(s) && s.awaiting
    ensures Twin(s.log, OnExpiry(s, h), OnExpiry(With(s, q), h), s.parser, q)
  {
    hide Emit, Complete, MultiEvent, Encode, Read, Twin;
    var id := s.queue[0].id;
    FinalTwin(s, q, MultiEvent(s.xfer, id), h);
    FinalTwin(s, q, Event(ProtocolError, id, Truncated, 0, s.xfer.framesSeen, NoPayload), h);
    FinalTwin(s, q, Event(Timeout, id, NoError, s.retries, 0, NoPayload), h);
    if s.retries < s.cfg.maxRetries {
      TwinAside(s, q, Transmit(s.(retries := s.retries + 1)));
    }
  }

  /** Anything but a received byte. */
  lemma StepTwin(s: Sess, q: Framer.State, i: Input, h: Handlers)
    requires WF(s) && !i.Byte?
    ensures Twin(s.log, Step(s, i, h), Step(With(s, q), i, h), s.parser, q)
  {
    hide OnFrame, OnFrameError, OnExpiry, RunOp, Expired, Twin;
    match i
    case Deliver(f) => FrameTwin(s, q, f, h);
    case Spoilt(e) => ErrorTwin(s, q, e, h);
    case TickTo(now) =>
      var ticked := s.(now := Read(s.cfg.clock, now));
      TwinAside(s, q, ticked);
      if s.awaiting {
        ExpiryTwin(ticked, q, h);
      }
    case Call(op) => OpTwin(s, q, op);
  }

  // ---------------------------------------------------------------------------
  // Bytes are callbacks
  // ---------------------------------------------------------------------------

  /** What one byte hands the session. */
  function Handed(outs: seq<Framer.Output>, h: Handlers): seq<(Input, Handlers)> {
    if outs == [] then []
    else match outs[0]
      case Frame(f) => [(Deliver(f), h)]
      case Rejected(e) => [(Spoilt(e), h)]
  }

  /** The inputs with every byte replaced by the callback the session's framer makes of it, if any. */
  function Unpacked(s: Sess, inputs: seq<(Input, Handlers)>): seq<(Input, Handlers)>
    requires WF(s)
    decreases |inputs|
  {
    if inputs == [] then []
    else
      var init, last := inputs[..|inputs| - 1], inputs[|inputs| - 1];
      Unpacked(s, init) + UnpackedInput(Run(s, init).parser, last)
  }

  function UnpackedInput(p: Framer.State, last: (Input, Handlers)): seq<(Input, Handlers)> {
    if last.0.Byte? then Handed(Framer.Step(p, last.0.b).1, last.1) else [last]
  }

  lemma OneStep(s: Sess, i: Input, h: Handlers)
    requires WF(s)
    ensures Run(s, [(i, h)]) == Step(s, i, h) && Run(s, []) == s
  {
    assert [(i, h)][..0] == [];
    hide Step;
  }

  lemma {:induction false} RunAppend(s: Sess, a: seq<(Input, Handlers)>, b: seq<(Input, Handlers)>)
    requires WF(s)
    ensures Run(s, a + b) == Run(Run(s, a), b)
    decreases |b|
  {
    hide Step;
    if b == [] {
      assert a + b == a;
    } else {
      RunAppend(s, a, b[..|b| - 1]);
      assert (a + b)[..|a + b| - 1] == a + b[..|b| - 1];
    }
  }

  /** One input, and what it unpacks to. */
  lemma InputTwin(s: Sess, p: Framer.State, i: Input, h: Handlers)
    requires WF(s)
    ensures var q := if i.Byte? then Framer.Step(p, i.b).0 else p;
            Twin(s.log, Run(s, UnpackedInput(p, (i, h))), Step(With(s, p), i, h), s.parser, q)
  {
    hide Framer.Step, OnFrame, OnFrameError, Tick, RunOp, Run, Twin;
    OneStep(s, i, h);
    if i.Byte? {
      var (q, outs) := Framer.Step(p, i.b);
      if outs == [] {
        TwinAside(s, q, s);
      } else {
        match outs[0]
        case Frame(f) =>
          FrameTwin(s, q, f, h);
          OneStep(s, Deliver(f), h);
        case Rejected(e) =>
          ErrorTwin(s, q, e, h);
          OneStep(s, Spoilt(e), h);
      }
    } else {
      StepTwin(s, p, i, h);
    }
  }

  /** Over any inputs and any handlers, resets included, the session goes where its framer's callbacks take it. */
  lemma {:induction false} InputsAreCallbacks(s: Sess, inputs: seq<(Input, Handlers)>)
    requires WF(s)
    ensures With(Run(s, inputs), s.parser) == With(Run(s, Unpacked(s, inputs)), s.parser)
    decreases |inputs|
  {
    if inputs != [] {
      var n := |inputs| - 1;
      var init, last := inputs[..n], inputs[n];
      var a, u := Run(s, init), Unpacked(s, init);
      var t := Run(s, u);
      assert Run(s, inputs) == Step(a, last.0, last.1);
      assert Unpacked(s, inputs) == u + UnpackedInput(a.parser, last);
      hide Run, Step, UnpackedInput, WF, Unpacked, DroppedSince;
      InputsAreCallbacks(s, init);
      assert a == With(t, a.parser);
      InputTwin(t, a.parser, last.0, last.1);
      RunAppend(s, u, UnpackedInput(a.parser, last));
    }
  }

  /** Everything that comes over the wire comes as bytes. */
  ghost predicate FromWire(inputs: seq<(Input, Handlers)>) {
    forall k :: 0 <= k < |inputs| ==> !inputs[k].0.Deliver? && !inputs[k].0.Spoilt?
  }

  /** The bytes among the inputs. */
  function BytesOf(inputs: seq<(Input, Handlers)>): seq<byte> {
    if inputs == [] then []
    else
      var last := inputs[|inputs| - 1].0;
      BytesOf(inputs[..|inputs| - 1]) + if last.Byte? then [last.b] else []
  }

  /** What one input does to the framer, short of a reset. */
  lemma FramerStep(s: Sess, i: Input, h: Handlers)
    requires WF(s)
    ensures var r := Step(s, i, h);
            s.log <= r.log &&
            (DroppedSince(s.log, r.log) || r.parser == if i.Byte? then Framer.Step(s.parser, i.b).0 else s.parser)
  {
    hide Step, Run, UnpackedInput, Framer.Step, DroppedSince, WF;
    InputTwin(s, s.parser, i, h);
    assert With(s, s.parser) == s;
  }

  lemma {:induction false} RunAppends(s: Sess, inputs: seq<(Input, Handlers)>)
    requires WF(s)
    ensures s.log <= Run(s, inputs).log
    decreases |inputs|
  {
    hide Step, Framer.Step;
    if inputs != [] {
      var n := |inputs| - 1;
      RunAppends(s, inputs[..n]);
      FramerStep(Run(s, inputs[..n]), inputs[n].0, inputs[n].1);
    }
  }

  lemma {:induction false} FramerLast(st: Framer.State, bytes: seq<byte>, i: Input)
    ensures var more := if i.Byte? then [i.b] else [];
            && Framer.After(st, bytes + more) ==
                 (if i.Byte? then Framer.Step(Framer.After(st, bytes), i.b).0 else Framer.After(st, bytes))
            && (!i.Deliver? && !i.Spoilt? ==>
                  Framer.Emitted(st, bytes + more) == Framer.Emitted(st, bytes) + Brings(Framer.After(st, bytes), i))
  {
    if i.Byte? {
      Scan.FeedLast(st, bytes + [i.b]);
      assert (bytes + [i.b])[..|bytes|] == bytes;
    } else {
      assert bytes + [] == bytes;
    }
    hide Framer.Step, Framer.After, Framer.Emitted;
  }

  /** As long as no reset happens, the callbacks of a session's framer are those of the framer running on its own over
      the bytes, whatever ticks, calls and handlers come between. */
  lemma {:induction false} BytesAreCallbacks(s: Sess, inputs: seq<(Input, Handlers)>)
    requires WF(s) && FromWire(inputs) && !DroppedSince(s.log, Run(s, inputs).log)
    ensures Came(s, inputs) == Framer.Emitted(s.parser, BytesOf(inputs))
    ensures Run(s, inputs).parser == Framer.After(s.parser, BytesOf(inputs))
    decreases |inputs|
  {
    if inputs != [] {
      hide Step, Framer.Step, Framer.After, Framer.Emitted, Brings, DroppedSince, Run, Came;
      var n := |inputs| - 1;
      var before := Run(s, inputs[..n]);
      Last(s, inputs);
      FramerStep(before, inputs[n].0, inputs[n].1);
      RunAppends(s, inputs[..n]);
      DroppedLater(s.log, before.log, Run(s, inputs).log);
      BytesAreCallbacks(s, inputs[..n]);
      FramerLast(s.parser, BytesOf(inputs[..n]), inputs[n].0);
    }
  }

  lemma ArrivalsLast(s: Sess, bytes: seq<byte>, hs: seq<Handlers>)
    requires WF(s) && bytes != [] && |bytes| <= |hs|
    ensures var n := |bytes| - 1;
            && Run(s, Arrivals(bytes, hs)) == OnByte(Run(s, Arrivals(bytes[..n], hs)), bytes[n], hs[n])
            && Run(s, Arrivals(bytes, hs)) == Step(Run(s, Arrivals(bytes[..n], hs)), Byte(bytes[n]), hs[n])
  {
    hide OnByte;
    var n, inputs := |bytes| - 1, Arrivals(bytes, hs);
    assert inputs[n] == (Byte(bytes[n]), hs[n]) && inputs[..n] == Arrivals(bytes[..n], hs);
    hide Arrivals;
  }

  // ---------------------------------------------------------------------------
  // Refused frames in a byte stream
  // ---------------------------------------------------------------------------

  /** The inputs with handlers that make no calls. */
  function Hushed(inputs: seq<Input>): (hushed: seq<(Input, Handlers)>)
    ensures |hushed| == |inputs|
  {
    seq(|inputs|, k requires 0 <= k < |inputs| => (inputs[k], Stuttering.QUIET))
  }

  lemma {:induction false} HushedRun(s: Sess, inputs: seq<Input>)
    requires WF(s)
    ensures Run(s, Hushed(inputs)) == Stuttering.QuietRun(s, inputs)
    decreases |inputs|
  {
    hide Step;
    if inputs != [] {
      var n := |inputs| - 1;
      HushedRun(s, inputs[..n]);
      assert Hushed(inputs)[..n] == Hushed(inputs[..n]);
    }
  }

  /** The inputs alone, bytes replaced by callbacks. */
  function Plain(inputs: seq<(Input, Handlers)>): (plain: seq<Input>)
    ensures |plain| == |inputs|
  {
    seq(|inputs|, k requires 0 <= k < |inputs| => inputs[k].0)
  }

  lemma {:induction false} UnpackedHushed(s: Sess, inputs: seq<(Input, Handlers)>)
    requires WF(s) && forall k :: 0 <= k < |inputs| ==> inputs[k].1 == Stuttering.QUIET
    ensures Hushed(Plain(Unpacked(s, inputs))) == Unpacked(s, inputs)
    decreases |inputs|
  {
    hide Run, Framer.Step;
    if inputs != [] {
      UnpackedHushed(s, inputs[..|inputs| - 1]);
    }
  }

  /** Over any mixture of bytes, ticks and calls, deleting every refused frame, framing errors included, from what the
      bytes unpack to leaves the session the same but for its framer, and its history but for the reports. */
  lemma {:induction false} RefusedBytesAreNoise(s: Sess, inputs: seq<Input>)
    requires WF(s)
    ensures var calls := Plain(Unpacked(s, Hushed(inputs)));
            Stuttering.Alike(With(Stuttering.QuietRun(s, inputs), s.parser),
                             With(Stuttering.QuietRun(s, Stuttering.Kept(s, calls)), s.parser))
  {
    var hushed := Hushed(inputs);
    var calls := Plain(Unpacked(s, hushed));
    HushedRun(s, inputs);
    UnpackedHushed(s, hushed);
    hide Hushed, Plain, Unpacked, Run, Stuttering.Visible, Stuttering.Kept, Stuttering.QuietRun;
    InputsAreCallbacks(s, hushed);
    HushedRun(s, calls);
    Stuttering.RefusedFramesAreNoise(s, calls);
  }

  // ---------------------------------------------------------------------------
  // A reply, from encoding to event
  // ---------------------------------------------------------------------------

  /** The frames a device at address `from` answers with. */
  function Replies(from: byte, id: byte, pages: seq<DataBytes>): (fs: seq<Message>)
    ensures |fs| == |pages| && forall k :: 0 <= k < |fs| ==> fs[k] == Encode(from, id, pages[k])
  {
    seq(|pages|, k requires 0 <= k < |pages| => Encode(from, id, pages[k]))
  }

  /** Each frame delivered, with the handlers of its last byte. */
  function Deliveries(fs: seq<Message>, hs: seq<Handlers>): (inputs: seq<(Input, Handlers)>)
    requires 13 * |fs| <= |hs|
    ensures |inputs| == |fs|
  {
    seq(|fs|, k requires 0 <= k < |fs| => (Deliver(fs[k]), hs[13 * k + 12]))
  }

  lemma {:induction false} SilentRun(s: Sess, bytes: seq<byte>, hs: seq<Handlers>)
    requires WF(s) && |bytes| <= |hs| && Framer.Emitted(s.parser, bytes) == []
    ensures Run(s, Arrivals(bytes, hs)) == With(s, Framer.After(s.parser, bytes))
    decreases |bytes|
  {
    hide Framer.Step, OnFrame, OnFrameError, WF;
    if bytes != [] {
      var n := |bytes| - 1;
      SilentRun(s, bytes[..n], hs);
      ArrivalsLast(s, bytes, hs);
      hide Run, Arrivals;
    }
  }

  lemma SilentHead(st: Framer.State, f: Message)
    requires WellFormed(f) && st.buf == []
    ensures Framer.Emitted(st, f[..12]) == []
  {
    var head := f[..12];
    hide Sealed;
    Scan.FramerIsScan(st, head);
    assert st.buf + head == head;
    assert Scan.ScanFrom(head, 0, 0) == Scan.Parse([], 0);
  }

  lemma DeliveriesSnoc(fs: seq<Message>, hs: seq<Handlers>)
    requires fs != [] && 13 * |fs| <= |hs|
    ensures var n := |fs| - 1;
            Deliveries(fs, hs) == Deliveries(fs[..n], hs) + [(Deliver(fs[n]), hs[13 * n..][12])]
  {
  }

  lemma ThirteenthByte(st: Framer.State, f: Message)
    requires WellFormed(f) && st.buf == []
    ensures Framer.Step(Framer.After(st, f[..12]), f[12]) == (st, [Framer.Frame(f)])
  {
    FramerTheorems.AlignedFrame(st, f);
    SilentHead(st, f);
    var (after, outs) := Framer.Step(Framer.After(st, f[..12]), f[12]);
    assert Framer.After(st, f) == after && Framer.Emitted(st, f) == Framer.Emitted(st, f[..12]) + outs;
    assert outs == [Framer.Frame(f)];
    hide Framer.Step, Framer.Emitted, Framer.After;
  }

  /** A frame met with nothing held is delivered at its thirteenth byte, as if handed over directly. */
  lemma AlignedFrameArrives(s: Sess, f: Message, hs: seq<Handlers>)
    requires WF(s) && s.parser.buf == [] && WellFormed(f) && 13 <= |hs|
    ensures Run(s, Arrivals(f, hs)) == Step(s, Deliver(f), hs[12])
    ensures Step(s, Deliver(f), hs[12]).parser.buf == []
  {
    var p, head := s.parser, f[..12];
    ThirteenthByte(p, f);
    SilentHead(p, f);
    hide Framer.Step, Framer.Emitted, Framer.After, WellFormed;
    SilentRun(s, head, hs);
    ArrivalsLast(s, f, hs);
    FrameTwin(s, p, f, hs[12]);
    hide Run, OnFrame, Arrivals, DroppedSince;
  }

  lemma ArrivalsAppend(a: seq<byte>, b: seq<byte>, hs: seq<Handlers>)
    requires |a| + |b| <= |hs|
    ensures Arrivals(a + b, hs) == Arrivals(a, hs) + Arrivals(b, hs[|a|..])
  {
  }

  /** Well-formed frames met with nothing held reach the session one by one, and nothing else does: whatever the
      handlers do, feeding the bytes is delivering the frames. */
  lemma {:induction false} AlignedFramesArrive(s: Sess, fs: seq<Message>, hs: seq<Handlers>)
    requires WF(s) && s.parser.buf == [] && 13 * |fs| <= |hs|
    requires forall k :: 0 <= k < |fs| ==> WellFormed(fs[k])
    ensures |Flat(fs)| == 13 * |fs|
    ensures Run(s, Arrivals(Flat(fs), hs)) == Run(s, Deliveries(fs, hs))
    ensures Run(s, Deliveries(fs, hs)).parser.buf == []
    decreases |fs|
  {
    if fs == [] {
      assert Arrivals(Flat(fs), hs) == [] && Deliveries(fs, hs) == [];
    } else {
      hide WellFormed, Run, Step, Arrivals, Deliveries;
      var n := |fs| - 1;
      var init, r := Flat(fs[..n]), Run(s, Deliveries(fs[..n], hs));
      AlignedFramesArrive(s, fs[..n], hs);
      ArrivalsAppend(init, fs[n], hs);
      RunAppend(s, Arrivals(init, hs), Arrivals(fs[n], hs[13 * n..]));
      AlignedFrameArrives(r, fs[n], hs[13 * n..]);
      DeliveriesSnoc(fs, hs);
      RunAppend(s, Deliveries(fs[..n], hs), [(Deliver(fs[n]), hs[13 * n..][12])]);
      OneStep(r, Deliver(fs[n]), hs[13 * n..][12]);
    }
  }

  /** A poll accepted by an idle session is what makes it wait like that. */
  lemma PollExpects(s: Sess, req: Request, b: nat, chunks: seq<seq<byte>>)
    requires Settled(s) && s.queue == [] && Verdict(s, req) == Queued && Paginated(req.id)
    requires chunks != [] && |chunks| == ExpectedFrames(req.id, ItemsFor(req, s.cachedCells, s.cachedTemps))
    requires b + |chunks| <= MAX_FRAME_INDEX + 1
    ensures var r := RunOp(s, Poll(req));
            && Expecting(r, b, chunks) && r.parser == s.parser && r.queue == [req]
            && r.accepted == s.accepted + 1 && r.cfg == s.cfg
            && ItemsSoFar(r.log) == ItemsFor(req, s.cachedCells, s.cachedTemps)
  {
    var r, items := RunOp(s, Poll(req)), ItemsFor(req, s.cachedCells, s.cachedTemps);
    CallSettled(s, Poll(req));
    var accepted := s.log + [Accepted(s.accepted, req)];
    var begun := accepted + [Begun(s.accepted, items)];
    var sent := Sent(s.accepted, Encode(s.cfg.host, req.id, req.data));
    assert r.log == begun + [sent];
    ReplyLogged(accepted, Begun(s.accepted, items));
    ReplyLogged(begun, sent);
    hide Settled, ItemsFor, ExpectedFrames, Encode, Zeros, ReplySoFar, ItemsSoFar;
  }

  // ---------------------------------------------------------------------------
  // A reply over the wire
  // ---------------------------------------------------------------------------

  /** Until the frames of the bytes make the reply whole, the session only listens, and its framer is undisturbed. */
  lemma {:induction false} WireListens(s: Sess, inputs: seq<(Input, Handlers)>, b: nat, chunks: seq<seq<byte>>)
    requires Expecting(s, b, chunks) && WF(s) && s.awaiting && FromWire(inputs) && NoResets(inputs) && InTime(s, inputs)
    requires AllPagesOrRefused(s, Framer.Emitted(s.parser, BytesOf(inputs)), b, chunks)
    requires !Covered(PagesIn(s, Framer.Emitted(s.parser, BytesOf(inputs))), b, |chunks|)
    ensures Came(s, inputs) == Framer.Emitted(s.parser, BytesOf(inputs))
    ensures Run(s, inputs).parser == Framer.After(s.parser, BytesOf(inputs))
    ensures Listened(s.log, Run(s, inputs).log)
    decreases |inputs|
  {
    hide Expecting, AllPagesOrRefused, Covered, PagesIn, Run, Came, Framer.Emitted, Framer.After, Framer.Step, Brings,
         Listened, Early, Keep, Collecting, WF;
    if inputs == [] {
      WireStart(s);
    } else {
      var n := |inputs| - 1;
      var p, outs := Framer.After(s.parser, BytesOf(inputs[..n])), Framer.Emitted(s.parser, BytesOf(inputs[..n]));
      FramerLast(s.parser, BytesOf(inputs[..n]), inputs[n].0);
      Prefixes(s, inputs, n);
      BringsOne(p, inputs[n].0);
      NotCoveredBefore(s, outs, Brings(p, inputs[n].0), b, |chunks|);
      FewerPages(s, outs, Brings(p, inputs[n].0), b, chunks);
      WireListens(s, inputs[..n], b, chunks);
      Last(s, inputs);
      ListensUntilCovered(s, inputs, b, chunks);
      CollectingSays(s, Run(s, inputs), PagesIn(s, Came(s, inputs)));
      NothingDropped(s.log, Run(s, inputs).log);
      BytesAreCallbacks(s, inputs);
    }
  }

  lemma WireStart(s: Sess)
    requires WF(s)
    ensures Came(s, []) == Framer.Emitted(s.parser, []) && Run(s, []).parser == Framer.After(s.parser, [])
    ensures Run(s, []) == s && Listened(s.log, s.log)
  {
  }

  lemma NothingDropped(log: seq<Obs>, more: seq<Obs>)
    requires Listened(log, more)
    ensures !DroppedSince(log, more)
  {
  }

  /** The round trip over the wire. Whatever the framer holds to begin with, and whatever junk, corrupted frames, frames
      from elsewhere, ticks in time, polls and settings come between the bytes, with handlers that do anything but
      reset: if the frames found in the bytes so far lack a page of the reply, and with the last byte they do not, then
      nothing was raised for the request before that byte, and with it comes the one RESPONSE. */
  lemma {:induction false} WireRoundTrip(
    s: Sess, inputs: seq<(Input, Handlers)>, last: (Input, Handlers), f: Message, b: nat, chunks: seq<seq<byte>>)
    requires Expecting(s, b, chunks) && WF(s) && s.awaiting && FromWire(inputs) && NoResets(inputs) && InTime(s, inputs)
    requires last.0.Byte?
    requires var (bytes, outs) := (BytesOf(inputs), Framer.Emitted(s.parser, BytesOf(inputs)));
             && Framer.Emitted(s.parser, bytes + [last.0.b]) == outs + [Framer.Frame(f)]
             && AllPagesOrRefused(s, outs + [Framer.Frame(f)], b, chunks)
             && !Covered(PagesIn(s, outs), b, |chunks|) && Covered(PagesIn(s, outs + [Framer.Frame(f)]), b, |chunks|)
    ensures var id, items := s.queue[0].id, ItemsSoFar(s.log);
            && Nominal(id, items) <= |Flat(chunks)|
            && Answered(s, Run(s, inputs), Step(Run(s, inputs), last.0, last.1),
                        DataOf(f), ReplyEvent(id, items, chunks))
  {
    hide Expecting, AllPagesOrRefused, Covered, PagesIn, Run, Came, Framer.Emitted, Framer.After, Framer.Step, Brings,
         NoResets, InTime, Step, Answered, ReplyEvent, Nominal, Flat, ItemsSoFar, WF, FromWire;
    var outs := Framer.Emitted(s.parser, BytesOf(inputs));
    var p := Framer.After(s.parser, BytesOf(inputs));
    FewerPages(s, outs, [Framer.Frame(f)], b, chunks);
    WireListens(s, inputs, b, chunks);
    FramerLast(s.parser, BytesOf(inputs), last.0);
    SameTail(outs, Brings(p, last.0), [Framer.Frame(f)]);
    ReassemblyRoundTrip(s, inputs, last, f, b, chunks);
  }

  lemma SameTail<T>(a: seq<T>, b: seq<T>, c: seq<T>)
    requires a + b == a + c
    ensures b == c
  {
    assert b == (a + b)[|a|..] && c == (a + c)[|a|..];
  }

  lemma FlatButOne(fs: seq<Message>, init: seq<byte>, last: byte)
    requires fs != [] && init + [last] == Flat(fs)
    ensures init == Flat(fs[..|fs| - 1]) + fs[|fs| - 1][..12]
  {
    var before, f := Flat(fs[..|fs| - 1]), fs[|fs| - 1];
    assert Flat(fs) == before + f;
    hide Flat;
    assert (before + f)[..|before| + 12] == before + f[..12];
    assert (init + [last])[..|init|] == init;
  }

  /** Well-formed frames to an empty framer, up to the last byte and with it. */
  lemma FramesButOne(st: Framer.State, fs: seq<Message>, init: seq<byte>, last: byte)
    requires st.buf == [] && fs != [] && forall k :: 0 <= k < |fs| ==> WellFormed(fs[k])
    requires init + [last] == Flat(fs)
    ensures var outs := FramerTheorems.Frames(fs[..|fs| - 1]);
            && Framer.Emitted(st, init) == outs
            && Framer.Emitted(st, init + [last]) == outs + [Framer.Frame(fs[|fs| - 1])] == FramerTheorems.Frames(fs)
  {
    var n := |fs| - 1;
    var before := Flat(fs[..n]);
    assert FramerTheorems.Frames(fs) == FramerTheorems.Frames(fs[..n]) + [Framer.Frame(fs[n])];
    hide Framer.Emitted, Framer.After, WellFormed, Flat, FramerTheorems.Frames;
    FlatButOne(fs, init, last);
    FramerTheorems.AlignedFramesFlow(st, fs[..n]);
    FramerTheorems.AlignedFramesFlow(st, fs);
    SilentHead(Framer.After(st, before), fs[n]);
    Framer.ChunkIndependence(st, before, fs[n][..12]);
  }

  /** One more page, as the device frames it. */
  lemma ReplyIsPage(s: Sess, d: DataBytes, outs: seq<Framer.Output>, b: nat, chunks: seq<seq<byte>>)
    requires WF(s) && s.awaiting && Paginated(s.queue[0].id) && b + |chunks| <= MAX_FRAME_INDEX + 1
    requires PageOf(d, b, chunks, MultiframeInfo(s.queue[0].id).bytesPerFrame) && AllPagesOrRefused(s, outs, b, chunks)
    ensures var o := Framer.Frame(Encode(s.cfg.bmsAddress, s.queue[0].id, d));
            AllPagesOrRefused(s, outs + [o], b, chunks) && PagesIn(s, outs + [o]) == PagesIn(s, outs) + [d]
  {
    var f := Encode(s.cfg.bmsAddress, s.queue[0].id, d);
    assert IsPage(s, f, b, chunks) && !WorkConservation.TurnedAway(s, f) && DataOf(f) == d;
    hide IsPage, WorkConservation.TurnedAway, PagesIn, PageOf, Encode;
    PagesInSnoc(s, outs, Framer.Frame(f));
  }

  /** The frames of a reply are its pages. */
  lemma {:induction false} RepliesArePages(s: Sess, pages: seq<DataBytes>, b: nat, chunks: seq<seq<byte>>)
    requires WF(s) && s.awaiting && Paginated(s.queue[0].id) && b + |chunks| <= MAX_FRAME_INDEX + 1
    requires AllPages(pages, b, chunks, MultiframeInfo(s.queue[0].id).bytesPerFrame)
    ensures var outs := FramerTheorems.Frames(Replies(s.cfg.bmsAddress, s.queue[0].id, pages));
            AllPagesOrRefused(s, outs, b, chunks) && PagesIn(s, outs) == pages
    decreases |pages|
  {
    var from, id := s.cfg.bmsAddress, s.queue[0].id;
    if pages != [] {
      var n := |pages| - 1;
      var fs := Replies(from, id, pages);
      hide AllPagesOrRefused, PagesIn, Replies, PageOf, Encode, WF;
      RepliesButOne(from, id, pages);
      SomePages(s, pages, n, b, chunks);
      RepliesArePages(s, pages[..n], b, chunks);
      ReplyIsPage(s, pages[n], FramerTheorems.Frames(fs[..n]), b, chunks);
    }
  }

  /** The whole way round. A device cuts a reply into pages numbered from any base, encodes each as a frame, and sends
      the frames in any order with any repetitions. A session waiting for that reply, its framer empty, is fed the
      bytes, with any ticks in time, polls and settings in between: at the last byte of the last missing page, and not
      before, the one RESPONSE goes to the request's handler, carrying the reply trimmed to its nominal length. */
  lemma {:induction false} DeviceRoundTrip(
    s: Sess, pages: seq<DataBytes>, inputs: seq<(Input, Handlers)>, last: (Input, Handlers),
    b: nat, chunks: seq<seq<byte>>)
    requires Expecting(s, b, chunks) && WF(s) && s.awaiting && s.parser.buf == []
    requires AllPages(pages, b, chunks, MultiframeInfo(s.queue[0].id).bytesPerFrame)
    requires pages != [] && Covered(pages, b, |chunks|) && !Covered(pages[..|pages| - 1], b, |chunks|)
    requires FromWire(inputs) && NoResets(inputs) && InTime(s, inputs) && last.0.Byte?
    requires BytesOf(inputs) + [last.0.b] == Flat(Replies(s.cfg.bmsAddress, s.queue[0].id, pages))
    ensures var id, items := s.queue[0].id, ItemsSoFar(s.log);
            && Nominal(id, items) <= |Flat(chunks)|
            && Answered(s, Run(s, inputs), Step(Run(s, inputs), last.0, last.1),
                        pages[|pages| - 1], ReplyEvent(id, items, chunks))
  {
    var id, n := s.queue[0].id, |pages| - 1;
    var fs := Replies(s.cfg.bmsAddress, id, pages);
    RepliesButOne(s.cfg.bmsAddress, id, pages);
    assert Paginated(id) && b + |chunks| <= MAX_FRAME_INDEX + 1;
    hide Expecting, Covered, PagesIn, AllPages, Run, Framer.Emitted, NoResets, InTime, Step, Answered, ReplyEvent,
         Nominal, Flat, ItemsSoFar, Replies, WF, FromWire, Encode, FramerTheorems.Frames, AllPagesOrRefused;
    FramesButOne(s.parser, fs, BytesOf(inputs), last.0.b);
    SomePages(s, pages, n, b, chunks);
    RepliesArePages(s, pages, b, chunks);
    RepliesArePages(s, pages[..n], b, chunks);
    WireRoundTrip(s, inputs, last, fs[n], b, chunks);
  }

  lemma RepliesButOne(from: byte, id: byte, pages: seq<DataBytes>)
    requires pages != []
    ensures var fs, n := Replies(from, id, pages), |pages| - 1;
            && fs[..n] == Replies(from, id, pages[..n]) && DataOf(fs[n]) == pages[n]
            && fs[n] == Encode(from, id, pages[n]) && pages[..n] + [pages[n]] == pages
            && forall k :: 0 <= k < |fs| ==> WellFormed(fs[k])
  {
    hide WellFormed;
  }

  lemma SomePages(s: Sess, pages: seq<DataBytes>, n: nat, b: nat, chunks: seq<seq<byte>>)
    requires WF(s) && s.awaiting && n <= |pages| && MultiframeInfo(s.queue[0].id).bytesPerFrame <= 7
    requires AllPages(pages, b, chunks, MultiframeInfo(s.queue[0].id).bytesPerFrame)
    ensures AllPages(pages[..n], b, chunks, MultiframeInfo(s.queue[0].id).bytesPerFrame)
  {
  }
}
