/**
 The session: one request outstanding, a queue behind it, timeouts, reassembly
 and event dispatch. Each function below is the effect of the method of the same
 name on the session's state; HaidiBms.dfy proves the object against them.

 `accepted` and `log` are history: the number of requests ever accepted, and what
 happened, in order. Requests are numbered by acceptance; nothing reads the log.
 */
module Session {
  import opened Bytes
  import opened Protocol
  import opened Bits
  import opened Decode
  import Framer

  const ASSEMBLY_LEN: nat := 119
  const FAULT_BUFFER_LEN: nat := 28
  const FRAME_NO_END: byte := 0xFF

  // ---------------------------------------------------------------------------
  // State
  // ---------------------------------------------------------------------------

  /** A queued request; `handler` tags its own event handler, if it has one. */
  datatype Request = Request(id: byte, data: DataBytes, hint: byte, handler: Option<nat>)

  datatype EventKind = Response | Timeout | ProtocolError

  datatype ErrorCode =
    | NoError | Checksum | BadSourceAddress | BadLength | UnexpectedDataId
    | UnknownDataId | FrameSequence | Truncated | WriteRejected

  datatype Event = Event(
    kind: EventKind, id: byte, error: ErrorCode, retries: nat, frames: nat, payload: Payload)

  /** History. `Raised` opens the dispatch of an event and `Finished` closes it. */
  datatype Obs =
    | Accepted(ticket: nat, req: Request)
    | Begun(ticket: nat, items: byte)
    | Sent(ticket: nat, frame: Message)
    | Heard(id: byte, data: DataBytes)
    | Raised(owner: Option<nat>, handler: Option<nat>, event: Event)
    | Finished(event: Event)
    | Retired(ticket: nat)
    | Dropped

  /** The code's wrapping clock, or the unbounded one it stands in for. */
  datatype Clock = Wrapping | Unbounded

  datatype Config = Config(
    capacity: nat, host: byte, bmsAddress: byte, clock: Clock,
    hasTx: bool, hasEventHandler: bool,
    responseTimeout: uint32, interframeTimeout: uint32, maxRetries: byte)

  /** Reassembly of the reply to the request in flight. */
  datatype Transfer = Transfer(
    assembly: seq<byte>, seen: set<nat>, framesSeen: nat,
    expectedFrames: nat, expectedItems: byte, record: seq<byte>)

  datatype Sess = Sess(
    cfg: Config, parser: Framer.State, queue: seq<Request>, awaiting: bool,
    now: nat, deadline: nat, retries: byte, dispatching: bool, xfer: Transfer,
    cachedCells: byte, cachedTemps: byte, accepted: nat, log: seq<Obs>)

  predicate Orderly(x: Transfer) {
    && |x.assembly| == ASSEMBLY_LEN
    && |x.record| <= FAULT_BUFFER_LEN
    && forall c :: c in x.seen ==> c <= MAX_FRAME_INDEX
  }

  /** What holds in every reachable state, in the middle of a dispatch included. */
  predicate WF(s: Sess) {
    && 1 <= s.cfg.capacity
    && |s.queue| <= s.cfg.capacity
    && |s.queue| <= s.accepted
    && (s.awaiting ==> s.queue != [])
    && Orderly(s.xfer)
  }

  function Init(cfg: Config): (s: Sess)
    requires 1 <= cfg.capacity
    ensures WF(s)
  {
    Sess(cfg, Framer.EMPTY, [], false, 0, 0, 0, false,
         Transfer(Zeros(ASSEMBLY_LEN), {}, 0, 0, 0, []), 0, 0, 0, [])
  }

  /** Number of the request at the head of the queue. */
  function HeadTicket(s: Sess): nat
    requires WF(s)
  {
    s.accepted - |s.queue|
  }

  function Logged(s: Sess, o: Obs): Sess {
    s.(log := s.log + [o])
  }

  // ---------------------------------------------------------------------------
  // The clock
  // ---------------------------------------------------------------------------

  function Read(clock: Clock, t: int): int {
    if clock == Wrapping then Wrap(t) else t
  }

  /** Wrapping: the unsigned difference, read as a signed 32-bit number, is not negative. */
  predicate Expired(clock: Clock, now: nat, deadline: nat) {
    if clock == Wrapping then Wrap(now - deadline) < 0x8000_0000 else now >= deadline
  }

  // ---------------------------------------------------------------------------
  // Transaction lifecycle
  // ---------------------------------------------------------------------------

  function Transmit(s: Sess): (r: Sess)
    requires WF(s) && s.queue != []
    ensures WF(r)
  {
    var sent := if s.cfg.hasTx
                then Logged(s, Sent(HeadTicket(s), Encode(s.cfg.host, s.queue[0].id, s.queue[0].data)))
                else s;
    var at := Read(s.cfg.clock, s.now + s.cfg.responseTimeout);
    sent.(deadline := at)
  }

  /** Items a reply to `req` should carry, as far as anyone knows when it is transmitted. */
  function ItemsFor(req: Request, cells: byte, temps: byte): byte {
    if req.id == CELL_VOLTAGES then (if req.hint != 0 then req.hint else cells)
    else if req.id == CELL_TEMPERATURES then (if req.hint != 0 then req.hint else temps)
    else 0
  }

  function BeginAwaiting(s: Sess): (r: Sess)
    requires WF(s) && s.queue != []
    ensures WF(r)
  {
    var items := ItemsFor(s.queue[0], s.cachedCells, s.cachedTemps);
    Logged(s, Begun(HeadTicket(s), items)).(
      xfer := Transfer(Zeros(ASSEMBLY_LEN), {}, 0, ExpectedFrames(s.queue[0].id, items), items, []),
      retries := 0)
  }

  function Pump(s: Sess): (r: Sess)
    requires WF(s)
    ensures WF(r)
  {
    if s.awaiting || s.queue == [] then s
    else Transmit(BeginAwaiting(s.(awaiting := true)))
  }

  function Complete(s: Sess): (r: Sess)
    requires WF(s)
    ensures WF(r)
  {
    Pump(Retire(s))
  }

  /** The pop in complete(): skipped when a handler has reset the session. */
  function Retire(s: Sess): (r: Sess)
    requires WF(s)
    ensures WF(r)
  {
    if s.awaiting
    then Logged(s, Retired(HeadTicket(s))).(queue := s.queue[1..], awaiting := false)
    else s
  }

  // ---------------------------------------------------------------------------
  // Requests, resets and the handlers that make them
  // ---------------------------------------------------------------------------

  datatype QueueStatus = Queued | QueueFull | NoTxHandler | BadRequest

  function Verdict(s: Sess, req: Request): QueueStatus {
    if !s.cfg.hasTx then NoTxHandler
    else if !IsKnownDataId(req.id) then BadRequest
    else if |s.queue| >= s.cfg.capacity then QueueFull
    else Queued
  }

  function Accept(s: Sess, req: Request): (r: Sess)
    requires WF(s) && |s.queue| < s.cfg.capacity
    ensures WF(r)
  {
    Logged(s, Accepted(s.accepted, req)).(queue := s.queue + [req], accepted := s.accepted + 1)
  }

  function Enqueue(s: Sess, req: Request): (r: Sess)
    requires WF(s)
    ensures WF(r)
  {
    if Verdict(s, req) != Queued then s
    else if s.dispatching then Accept(s, req)
    else Pump(Accept(s, req))
  }

  function Reset(s: Sess): (r: Sess)
    requires WF(s)
    ensures WF(r)
  {
    Logged(s, Dropped).(
      parser := Framer.EMPTY, queue := [], awaiting := false, retries := 0,
      xfer := s.xfer.(seen := {}, framesSeen := 0, expectedFrames := 0, expectedItems := 0, record := []))
  }

  /** The calls a caller or a handler may make; handlers may not feed or tick. */
  datatype Op =
    | Poll(req: Request)
    | ResetAll
    | SetTxHandler(on: bool)
    | SetEventHandler(on: bool)
    | SetResponseTimeout(ms: uint32)
    | SetInterframeTimeout(ms: uint32)
    | SetMaxRetries(n: byte)

  function RunOp(s: Sess, op: Op): (r: Sess)
    requires WF(s)
    ensures WF(r)
  {
    match op
    case Poll(req) => Enqueue(s, req)
    case ResetAll => Reset(s)
    case SetTxHandler(on) => s.(cfg := s.cfg.(hasTx := on))
    case SetEventHandler(on) => s.(cfg := s.cfg.(hasEventHandler := on))
    case SetResponseTimeout(ms) => s.(cfg := s.cfg.(responseTimeout := ms))
    case SetInterframeTimeout(ms) => s.(cfg := s.cfg.(interframeTimeout := ms))
    case SetMaxRetries(n) => s.(cfg := s.cfg.(maxRetries := n))
  }

  function RunScript(s: Sess, ops: seq<Op>): (r: Sess)
    requires WF(s)
    ensures WF(r)
    decreases |ops|
  {
    if ops == [] then s else RunOp(RunScript(s, ops[..|ops| - 1]), ops[|ops| - 1])
  }

  /** What the two handlers of one dispatch do, as arbitrary scripts. */
  datatype Handlers = Handlers(perRequest: seq<Op>, sessionWide: seq<Op>)

  function Owner(s: Sess): Option<nat>
    requires WF(s)
  {
    if s.awaiting then Some(HeadTicket(s)) else None
  }

  function OwnHandler(s: Sess): Option<nat>
    requires WF(s)
  {
    if s.awaiting then s.queue[0].handler else None
  }

  function Raise(s: Sess, e: Event): (r: Sess)
    requires WF(s)
    ensures WF(r)
  {
    Logged(s, Raised(Owner(s), OwnHandler(s), e)).(dispatching := true)
  }

  /** The per-request handler, then the session-wide one if it is still registered. */
  function RunHandlers(s: Sess, own: bool, h: Handlers): (r: Sess)
    requires WF(s)
    ensures WF(r)
  {
    var s1 := if own then RunScript(s, h.perRequest) else s;
    if s1.cfg.hasEventHandler then RunScript(s1, h.sessionWide) else s1
  }

  function Emit(s: Sess, e: Event, h: Handlers): (r: Sess)
    requires WF(s)
    ensures WF(r)
  {
    var told := RunHandlers(Raise(s, e), OwnHandler(s).Some?, h);
    Logged(told, Finished(e)).(dispatching := s.dispatching && told.dispatching)
  }

  // ---------------------------------------------------------------------------
  // Receiving
  // ---------------------------------------------------------------------------

  function Rejection(id: byte, error: ErrorCode): Event {
    Event(ProtocolError, id, error, 0, 0, NoPayload)
  }

  function OnFrameError(s: Sess, error: Framer.FrameError, h: Handlers): (r: Sess)
    requires WF(s)
    ensures WF(r)
  {
    var id := if s.awaiting then s.queue[0].id else CAPACITY_VOLTAGE;
    Emit(s, Rejection(id, if error == Framer.BadChecksum then Checksum else BadLength), h)
  }

  /** A sum of three counts, kept in one unsigned byte. */
  function Tally(a: int, b: int, c: int): byte {
    (a + b + c) % 256
  }

  /** The cell and sensor counts a 0x94 or 0x51 reply carries. */
  function Counts(id: byte, data: DataBytes): Option<(byte, byte)> {
    if id == STATUS_INFO then Some((data[0], data[1]))
    else if id == BMU_CELL_TEMP_COUNT then
      Some((Tally(data[1], data[2], data[3]), Tally(data[4], data[5], data[6])))
    else None
  }

  function NoteCounts(s: Sess, id: byte, data: DataBytes): (r: Sess)
    ensures WF(s) ==> WF(r)
  {
    match Counts(id, data)
    case Some((cells, temps)) => s.(cachedCells := cells, cachedTemps := temps)
    case None => s
  }

  function OnFrame(s: Sess, f: Message, h: Handlers): (r: Sess)
    requires WF(s)
    ensures WF(r)
  {
    var id := f[2];
    if !s.awaiting then Emit(s, Rejection(id, UnexpectedDataId), h)
    else if f[1] != s.cfg.bmsAddress then Emit(s, Rejection(id, BadSourceAddress), h)
    else if id != s.queue[0].id then Emit(s, Rejection(id, UnexpectedDataId), h)
    else OnReply(NoteCounts(s, id, DataOf(f)), id, DataOf(f), h)
  }

  /** A frame of the outstanding reply. */
  function OnReply(s: Sess, id: byte, data: DataBytes, h: Handlers): (r: Sess)
    requires WF(s) && s.awaiting && s.queue[0].id == id
    ensures WF(r)
  {
    var info := MultiframeInfo(id);
    if !info.multi then HandleSingle(s, id, data, h)
    else if info.streaming then HandleStream(s, id, data, h)
    else HandleMulti(s, id, data, h)
  }

  /** The event a single-frame reply decodes into. */
  function SingleEvent(req: Request, id: byte, data: DataBytes): Event {
    if IsMosControl(id) then
      var ack := MosControlAck(req.data[0] != 0, data[0] != 0);
      if ack.requested != ack.reported
      then Event(ProtocolError, id, WriteRejected, 0, 1, ack)
      else Event(Response, id, NoError, 0, 1, ack)
    else if !HasSingleDecoder(id) then Event(ProtocolError, id, UnknownDataId, 0, 1, NoPayload)
    else Event(Response, id, NoError, 0, 1, Single(data))
  }

  function HandleSingle(s: Sess, id: byte, data: DataBytes, h: Handlers): (r: Sess)
    requires WF(s) && s.awaiting
    ensures WF(r)
  {
    Complete(Emit(Logged(s, Heard(id, data)), SingleEvent(s.queue[0], id, data), h))
  }

  /** `bytes` written over `buf` from `at` on. */
  function Overlay(buf: seq<byte>, at: nat, bytes: seq<byte>): (r: seq<byte>)
    requires at + |bytes| <= |buf|
    ensures |r| == |buf|
  {
    buf[..at] + bytes + buf[at + |bytes|..]
  }

  /** Files a frame under its own counter. */
  function File(x: Transfer, info: MultiFrameInfo, data: DataBytes): (r: Transfer)
    requires Orderly(x) && data[0] <= MAX_FRAME_INDEX && info.bytesPerFrame <= 7
    ensures Orderly(r)
  {
    var counter: nat := data[0];
    Fits(counter, info.bytesPerFrame);
    x.(assembly := Overlay(x.assembly, Offset(counter, info.bytesPerFrame), data[1..1 + info.bytesPerFrame]),
       seen := x.seen + {counter},
       framesSeen := if counter in x.seen then x.framesSeen else |x.seen + {counter}|)
  }

  /** Where the slot of a counter begins. */
  function Offset(counter: nat, width: nat): nat {
    counter * width
  }

  lemma Fits(counter: nat, width: nat)
    requires counter <= MAX_FRAME_INDEX && width <= 7
    ensures Offset(counter, width) + width <= ASSEMBLY_LEN
  {
  }

  function FilePage(s: Sess, id: byte, data: DataBytes): (r: Sess)
    requires WF(s) && data[0] <= MAX_FRAME_INDEX
    ensures WF(r)
  {
    Logged(s, Heard(id, data)).(xfer := File(s.xfer, MultiframeInfo(id), data))
  }

  function HandleMulti(s: Sess, id: byte, data: DataBytes, h: Handlers): (r: Sess)
    requires WF(s) && s.awaiting
    ensures WF(r)
  {
    if data[0] > MAX_FRAME_INDEX then Emit(s, Rejection(id, FrameSequence), h)
    else FinishOrWait(FilePage(s, id, data), id, h)
  }

  function FinishOrWait(s: Sess, id: byte, h: Handlers): (r: Sess)
    requires WF(s)
    ensures WF(r)
  {
    if s.xfer.expectedFrames != 0 && s.xfer.framesSeen >= s.xfer.expectedFrames
    then FinishMulti(s, id, h)
    else s.(deadline := Read(s.cfg.clock, s.now + s.cfg.interframeTimeout))
  }

  /** How much of `available` reassembled bytes is payload. */
  function TrimmedLen(id: byte, items: byte, available: nat): (len: nat)
    ensures len <= available
  {
    var total := MultiframeInfo(id).totalBytes;
    var capped := Min(available, MAX_REASSEMBLY_LEN);
    var len := if total != 0 && capped > total then total else capped;
    if items == 0 then len else Min(len, if id == CELL_VOLTAGES then 2 * items else items)
  }

  /** The bytes finish_multi() hands to the decoder. */
  function Collected(x: Transfer, id: byte): seq<byte>
    requires Orderly(x)
  {
    var info := MultiframeInfo(id);
    var base := if x.seen != {} then LowestFrom(x.seen, 0) else info.frameBase;
    var run := if x.seen != {} then RunFrom(x.seen, base) else 0;
    Fits(base, info.bytesPerFrame);
    var start := Offset(base, info.bytesPerFrame);
    var len := TrimmedLen(id, x.expectedItems, Min(Offset(run, info.bytesPerFrame), ASSEMBLY_LEN - start));
    x.assembly[start..start + len]
  }

  function MultiEvent(x: Transfer, id: byte): Event
    requires Orderly(x)
  {
    var payload := DecodePages(id, Collected(x, id));
    if payload.Some?
    then Event(Response, id, NoError, 0, x.framesSeen, payload.value)
    else Event(ProtocolError, id, UnknownDataId, 0, x.framesSeen, NoPayload)
  }

  function FinishMulti(s: Sess, id: byte, h: Handlers): (r: Sess)
    requires WF(s)
    ensures WF(r)
  {
    Complete(Emit(s, MultiEvent(s.xfer, id), h))
  }

  /** The part of a fault frame that still fits the record buffer. */
  function Fresh(record: seq<byte>, data: DataBytes): seq<byte>
    requires |record| <= FAULT_BUFFER_LEN
  {
    data[1..1 + Min(7, FAULT_BUFFER_LEN - |record|)]
  }

  function FaultEvent(id: byte, record: FaultRecord): Event {
    Event(Response, id, NoError, 0, 4, Fault(record))
  }

  function Appended(x: Transfer, data: DataBytes): (r: Transfer)
    requires Orderly(x)
    ensures Orderly(r)
  {
    x.(record := x.record + Fresh(x.record, data), framesSeen := (x.framesSeen + 1) % 256)
  }

  function HandleStream(s: Sess, id: byte, data: DataBytes, h: Handlers): (r: Sess)
    requires WF(s) && s.awaiting
    ensures WF(r)
  {
    var heard := Logged(s, Heard(id, data));
    if data[0] == FRAME_NO_END then Complete(heard)
    else DeliverOrWait(heard.(xfer := Appended(s.xfer, data)), id, h)
  }

  /** A handler may have reset the session while a record was out: then no deadline is re-armed, but the queue is
      pumped. */
  function DeliverOrWait(s: Sess, id: byte, h: Handlers): (r: Sess)
    requires WF(s)
    ensures WF(r)
  {
    var settled := if |s.xfer.record| < FAULT_BUFFER_LEN then s else DeliverRecord(s, id, h);
    if !settled.awaiting then Pump(settled)
    else settled.(deadline := Read(settled.cfg.clock, settled.now + settled.cfg.interframeTimeout))
  }

  /** Decodes and dispatches a full record buffer, then empties it. */
  function DeliverRecord(s: Sess, id: byte, h: Handlers): (r: Sess)
    requires WF(s)
    ensures WF(r)
  {
    var decoded := DecodeFault(s.xfer.record);
    var told := if decoded.Some? then Emit(s, FaultEvent(id, decoded.value), h) else s;
    told.(xfer := told.xfer.(record := []))
  }

  // ---------------------------------------------------------------------------
  // Time
  // ---------------------------------------------------------------------------

  function Tick(s: Sess, now: nat, h: Handlers): (r: Sess)
    requires WF(s)
    ensures WF(r)
  {
    var ticked := s.(now := Read(s.cfg.clock, now));
    if !s.awaiting || !Expired(s.cfg.clock, ticked.now, s.deadline) then ticked else OnExpiry(ticked, h)
  }

  function OnExpiry(s: Sess, h: Handlers): (r: Sess)
    requires WF(s) && s.awaiting
    ensures WF(r)
  {
    var id := s.queue[0].id;
    var info := MultiframeInfo(id);
    if info.multi && !info.streaming && s.xfer.framesSeen > 0 then FinishMulti(s, id, h)
    else if info.streaming && s.xfer.framesSeen > 0 then
      Complete(Emit(s, Event(ProtocolError, id, Truncated, 0, s.xfer.framesSeen, NoPayload), h))
    else if s.retries < s.cfg.maxRetries then Transmit(s.(retries := s.retries + 1))
    else Complete(Emit(s, Event(Timeout, id, NoError, s.retries, 0, NoPayload), h))
  }

  // ---------------------------------------------------------------------------
  // Runs
  // ---------------------------------------------------------------------------

  /** One thing that happens to a session. `Deliver` and `Spoilt` are the framer's two callbacks, which `Byte` leads
      to. */
  datatype Input =
    | Byte(b: byte)
    | Deliver(f: Message)
    | Spoilt(error: Framer.FrameError)
    | TickTo(now: nat)
    | Call(op: Op)

  function OnByte(s: Sess, b: byte, h: Handlers): (r: Sess)
    requires WF(s)
    ensures WF(r)
  {
    var (parser, outs) := Framer.Step(s.parser, b);
    var fed := s.(parser := parser);
    if outs == [] then fed
    else match outs[0]
      case Frame(f) => OnFrame(fed, f, h)
      case Rejected(e) => OnFrameError(fed, e, h)
  }

  function Step(s: Sess, i: Input, h: Handlers): (r: Sess)
    requires WF(s)
    ensures WF(r)
  {
    match i
    case Byte(b) => OnByte(s, b, h)
    case Deliver(f) => OnFrame(s, f, h)
    case Spoilt(e) => OnFrameError(s, e, h)
    case TickTo(now) => Tick(s, now, h)
    case Call(op) => RunOp(s, op)
  }

  /** A run: each input with what the handlers would do if it raises an event. */
  function Run(s: Sess, inputs: seq<(Input, Handlers)>): (r: Sess)
    requires WF(s)
    ensures WF(r)
    decreases |inputs|
  {
    if inputs == [] then s
    else Step(Run(s, inputs[..|inputs| - 1]), inputs[|inputs| - 1].0, inputs[|inputs| - 1].1)
  }

  /** Received bytes, each with what the handlers would do about it. */
  function Arrivals(bytes: seq<byte>, hs: seq<Handlers>): (inputs: seq<(Input, Handlers)>)
    requires |bytes| <= |hs|
    ensures |inputs| == |bytes|
  {
    seq(|bytes|, i requires 0 <= i < |bytes| => (Byte(bytes[i]), hs[i]))
  }
}
