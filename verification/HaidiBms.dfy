/** The session object: ring-buffer queue, bit mask and fixed buffers, proved step for step against Session. */
module HaidiBms {
  import opened Bytes
  import opened Protocol
  import opened Bits
  import opened Decode
  import opened Session
  import Framer

  /** Where the i-th entry from `head` lies in a ring of the given capacity. */
  function Slot(head: nat, i: nat, capacity: nat): nat {
    if head + i < capacity then head + i else head + i - capacity
  }

  lemma SlotIsMod(head: nat, i: nat, capacity: nat)
    requires head < capacity && i <= capacity
    ensures (head + i) % capacity == Slot(head, i, capacity) < capacity
  {
    if head + i >= capacity {
      ModOfTurn(head + i - capacity, capacity);
    } else {
      ModOfSmall(head + i, capacity);
    }
  }

  lemma ModOfSmall(r: nat, c: nat)
    requires r < c
    ensures r % c == r
  {
  }

  lemma ModOfTurn(r: nat, c: nat)
    requires r < c
    ensures (r + c) % c == r
  {
  }

  /** The entries of a ring, oldest first. */
  function Ring(q: seq<Request>, head: nat, count: nat): (s: seq<Request>)
    requires head < |q| && count <= |q|
    ensures |s| == count
  {
    seq(count, i requires 0 <= i < count => q[Slot(head, i, |q|)])
  }

  lemma RingHead(q: seq<Request>, head: nat, count: nat)
    requires head < |q| && 0 < count <= |q|
    ensures Ring(q, head, count)[0] == q[head]
  {
  }

  /** Advancing the head modulo the capacity drops the oldest entry. */
  lemma RingPop(q: seq<Request>, head: nat, count: nat)
    requires head < |q| && 0 < count <= |q|
    ensures (head + 1) % |q| < |q|
    ensures Ring(q, (head + 1) % |q|, count - 1) == Ring(q, head, count)[1..]
  {
    SlotIsMod(head, 1, |q|);
  }

  /** Writing just past the newest entry, modulo the capacity, appends it. */
  lemma {:induction false} RingPush(q: seq<Request>, head: nat, count: nat, req: Request)
    requires head < |q| && count < |q|
    ensures (head + count) % |q| < |q|
    ensures Ring(q[(head + count) % |q| := req], head, count + 1) == Ring(q, head, count) + [req]
  {
    SlotIsMod(head, count, |q|);
  }

  lemma EmptyMask()
    ensures 0 < Pow2(MAX_FRAME_INDEX + 1) && BitSet(0) == {}
  {
    Pow2Below(0, MAX_FRAME_INDEX + 1);
    MaskBound(0);
  }

  lemma PageWidth(id: byte)
    ensures MultiframeInfo(id).bytesPerFrame <= 7
  {
  }

  class HaidiBms {
    const capacity: nat
    const host: byte
    const bmsAddress: byte

    var hasTx: bool
    var hasEventHandler: bool
    var responseTimeout: uint32
    var interframeTimeout: uint32
    var maxRetries: byte

    const parser: Framer.FrameParser

    const queue: array<Request>
    var queueHead: nat
    var queueCount: nat

    var awaiting: bool
    var now: uint32
    var deadline: uint32
    var retries: byte
    var dispatching: bool

    const assembly: array<byte>
    var seenMask: nat
    var framesSeen: nat
    var expectedFrames: nat
    var expectedItems: byte

    const record: array<byte>
    var recordLen: nat

    var cachedCells: byte
    var cachedTemps: byte

    ghost var accepted: nat
    ghost var log: seq<Obs>

    ghost predicate Shape()
      reads this, parser, parser.buf
    {
      && parser.Valid()
      && queue.Length == capacity >= 1 && queueHead < capacity && queueCount <= capacity
      && assembly.Length == ASSEMBLY_LEN && record.Length == FAULT_BUFFER_LEN && recordLen <= FAULT_BUFFER_LEN
      && seenMask < Pow2(MAX_FRAME_INDEX + 1)
      && assembly != record && parser.buf != assembly && parser.buf != record
    }

    /** The queued requests, oldest first. */
    ghost function Contents(): seq<Request>
      reads this, queue
      requires queueHead < queue.Length && queueCount <= queue.Length
    {
      Ring(queue[..], queueHead, queueCount)
    }

    ghost function Reassembly(): Transfer
      reads this, assembly, record
      requires recordLen <= record.Length
    {
      Transfer(assembly[..], BitSet(seenMask), framesSeen, expectedFrames, expectedItems, record[..recordLen])
    }

    ghost function Model(): Sess
      reads this, queue, assembly, record, parser, parser.buf
      requires Shape()
    {
      Sess(Config(capacity, host, bmsAddress, Wrapping, hasTx, hasEventHandler,
                  responseTimeout, interframeTimeout, maxRetries),
           parser.Model(), Contents(), awaiting, now, deadline, retries, dispatching, Reassembly(),
           cachedCells, cachedTemps, accepted, log)
    }

    ghost predicate Valid()
      reads this, queue, assembly, record, parser, parser.buf
    {
      Shape() && WF(Model())
    }

    constructor (capacity: nat, host: byte, bmsAddress: byte)
      requires capacity >= 1
      ensures Valid() && fresh(queue) && fresh(assembly) && fresh(record) && fresh(parser) && fresh(parser.buf)
      ensures Model() == Session.Init(Config(capacity, host, bmsAddress, Wrapping, false, false, 250, 250, 1))
    {
      this.capacity := capacity;
      this.host := host;
      this.bmsAddress := bmsAddress;
      hasTx, hasEventHandler := false, false;
      responseTimeout, interframeTimeout, maxRetries := 250, 250, 1;
      parser := new Framer.FrameParser();
      queue := new Request[capacity](i => Request(CAPACITY_VOLTAGE, Zeros(8), 0, None));
      queueHead, queueCount := 0, 0;
      awaiting, dispatching := false, false;
      now, deadline, retries := 0, 0, 0;
      assembly := new byte[119](i => 0);
      record := new byte[28](i => 0);
      seenMask, framesSeen, expectedFrames, expectedItems, recordLen := 0, 0, 0, 0, 0;
      cachedCells, cachedTemps := 0, 0;
      accepted, log := 0, [];
      new;
      EmptyMask();
      assert assembly[..] == Zeros(ASSEMBLY_LEN);
    }

    // -------------------------------------------------------------------------
    // Introspection
    // -------------------------------------------------------------------------

    /** The command on the wire, or 0 when idle. */
    method InFlight() returns (id: byte)
      requires Valid()
      ensures id == if Model().awaiting then Model().queue[0].id else 0
    {
      if queueCount > 0 {
        RingHead(queue[..], queueHead, queueCount);
      }
      id := if awaiting && queueCount > 0 then queue[queueHead].id else 0;
    }

    // -------------------------------------------------------------------------
    // Transaction lifecycle
    // -------------------------------------------------------------------------

    /** One more entry of the history. */
    ghost method Note(o: Obs)
      requires Valid()
      modifies this`log
      ensures Shape() && Model() == Logged(old(Model()), o)
      ensures Valid()
    {
      hide Ring, BitSet, Pow2;
      log := log + [o];
    }

    method Transmit()
      requires Valid() && queueCount > 0
      modifies this`deadline, this`log
      ensures Shape() && Model() == Session.Transmit(old(Model()))
      ensures deadline == (now + responseTimeout) % 0x1_0000_0000
      ensures Valid()
    {
      hide Ring, BitSet, Pow2, Encode;
      var frame := EncodeFrame(host, queue[queueHead].id, queue[queueHead].data);
      RingHead(queue[..], queueHead, queueCount);
      if hasTx {
        log := log + [Sent(accepted - queueCount, frame)];
      }
      deadline := Wrap(now + responseTimeout);
    }

    method ClearAssembly()
      requires assembly.Length == ASSEMBLY_LEN
      modifies assembly
      ensures assembly[..] == Zeros(ASSEMBLY_LEN)
    {
      forall i | 0 <= i < assembly.Length {
        assembly[i] := 0;
      }
    }

    /** What both a new transaction and a reset start from. */
    method ClearTransfer()
      modifies this`seenMask, this`framesSeen, this`recordLen, this`retries
      ensures seenMask == framesSeen == recordLen == 0 && retries == 0
    {
      seenMask := 0;
      framesSeen := 0;
      recordLen := 0;
      retries := 0;
    }

    /** How long a reply to expect, going by the hint or by the counts last learned. */
    method SizeReply(req: Request)
      modifies this`expectedFrames, this`expectedItems
      ensures expectedItems == ItemsFor(req, cachedCells, cachedTemps)
      ensures expectedFrames == ExpectedFrames(req.id, expectedItems)
    {
      var info := MultiframeInfo(req.id);
      expectedFrames := info.frameCount;
      expectedItems := 0;
      if req.id == CELL_VOLTAGES {
        expectedItems := if req.hint != 0 then req.hint else cachedCells;
        expectedFrames := CellVoltageFrames(expectedItems);
      } else if req.id == CELL_TEMPERATURES {
        expectedItems := if req.hint != 0 then req.hint else cachedTemps;
        expectedFrames := CellTemperatureFrames(expectedItems);
      }
    }

    /** Drops what is left of the reply before. */
    method ClearReply()
      requires Valid()
      modifies this`seenMask, this`framesSeen, this`recordLen, this`retries, assembly
      ensures Shape()
      ensures var was := old(Model());
              var cleared := was.xfer.(assembly := Zeros(ASSEMBLY_LEN), seen := {}, framesSeen := 0, record := []);
              Model() == was.(retries := 0, xfer := cleared)
      ensures Valid()
    {
      hide Ring, BitSet, Pow2, Zeros;
      EmptyMask();
      ClearAssembly();
      ClearTransfer();
    }

    method BeginAwaiting()
      requires Valid() && queueCount > 0
      modifies this`seenMask, this`framesSeen, this`recordLen, this`retries, this`expectedFrames, this`expectedItems,
               this`log, assembly
      ensures Shape() && Model() == Session.BeginAwaiting(old(Model()))
      ensures Valid()
    {
      hide Ring, BitSet, Pow2, Zeros, ExpectedFrames, ItemsFor;
      RingHead(queue[..], queueHead, queueCount);
      ClearReply();
      SizeReply(queue[queueHead]);
      log := log + [Begun(accepted - queueCount, expectedItems)];
    }

    method Pump()
      requires Valid()
      modifies this, assembly
      ensures Shape() && Model() == Session.Pump(old(Model()))
      ensures Valid()
    {
      if awaiting || queueCount == 0 {
        return;
      }
      awaiting := true;
      BeginAwaiting();
      Transmit();
    }

    /** Pops the head, unless a handler's reset has already done away with it. */
    method Retire()
      requires Valid()
      modifies this`queueHead, this`queueCount, this`awaiting, this`log
      ensures Shape() && Model() == Session.Retire(old(Model()))
      ensures Valid()
    {
      hide Ring, BitSet, Pow2;
      if awaiting {
        log := log + [Retired(accepted - queueCount)];
        RingPop(queue[..], queueHead, queueCount);
        queueHead := (queueHead + 1) % capacity;
        queueCount := queueCount - 1;
      }
      awaiting := false;
    }

    method Complete()
      requires Valid()
      modifies this, assembly
      ensures Shape() && Model() == Session.Complete(old(Model()))
      ensures Valid()
    {
      hide Ring, BitSet, Pow2, Session.Pump, Session.Retire;
      Retire();
      Pump();
    }

    // -------------------------------------------------------------------------
    // Requests, resets, setters
    // -------------------------------------------------------------------------

    method Append(req: Request)
      requires Valid() && queueCount < capacity
      modifies this`queueCount, this`accepted, this`log, queue
      ensures Shape() && Model() == Accept(old(Model()), req)
      ensures Valid()
    {
      hide Ring, BitSet, Pow2;
      ghost var q := queue[..];
      RingPush(q, queueHead, queueCount, req);
      queue[(queueHead + queueCount) % capacity] := req;
      assert queue[..] == q[(queueHead + queueCount) % capacity := req];
      queueCount := queueCount + 1;
      log := log + [Accepted(accepted, req)];
      accepted := accepted + 1;
    }

    method Enqueue(req: Request) returns (status: QueueStatus)
      requires Valid()
      modifies this, queue, assembly
      ensures Shape() && Model() == Session.Enqueue(old(Model()), req)
      ensures Valid()
      ensures status == Verdict(old(Model()), req)
    {
      hide Ring, BitSet, Pow2, Accept, Session.Pump;
      if !hasTx {
        return NoTxHandler;
      }
      if !IsKnownDataId(req.id) {
        return BadRequest;
      }
      if queueCount >= capacity {
        return QueueFull;
      }
      Append(req);
      if !dispatching {
        Pump();
      }
      return Queued;
    }

    /** Empties the queue and forgets the transaction in flight. */
    method Forget()
      modifies this`queueHead, this`queueCount, this`awaiting, this`retries, this`seenMask, this`framesSeen,
               this`expectedFrames, this`expectedItems, this`recordLen, this`log
      ensures queueHead == queueCount == 0 && !awaiting && retries == 0
      ensures seenMask == framesSeen == expectedFrames == recordLen == 0 && expectedItems == 0
      ensures log == old(log) + [Dropped]
    {
      queueHead := 0;
      queueCount := 0;
      awaiting := false;
      ClearTransfer();
      expectedFrames := 0;
      expectedItems := 0;
      log := log + [Dropped];
    }

    method Reset()
      requires Valid()
      modifies this, parser
      ensures Shape() && Model() == Session.Reset(old(Model()))
      ensures Valid()
    {
      hide BitSet, Pow2, WF;
      EmptyMask();
      parser.Reset();
      Forget();
      assert Contents() == [];
      assert Reassembly() == Transfer(assembly[..], {}, 0, 0, 0, []);
      hide Contents, Framer.FrameParser.Model;
    }

    method Configure(op: Op)
      requires Valid() && !op.Poll? && !op.ResetAll?
      modifies this`hasTx, this`hasEventHandler, this`responseTimeout, this`interframeTimeout, this`maxRetries
      ensures Shape() && Model() == Session.RunOp(old(Model()), op)
      ensures Valid()
    {
      hide Ring, BitSet, Pow2, Session.Enqueue, Session.Reset;
      match op
      case SetTxHandler(on) => hasTx := on;
      case SetEventHandler(on) => hasEventHandler := on;
      case SetResponseTimeout(ms) => responseTimeout := ms;
      case SetInterframeTimeout(ms) => interframeTimeout := ms;
      case SetMaxRetries(n) => maxRetries := n;
    }

    method RunOp(op: Op)
      requires Valid()
      modifies this, queue, assembly, parser
      ensures Shape() && Model() == Session.RunOp(old(Model()), op)
      ensures Valid()
    {
      hide Ring, BitSet, Pow2, WF, Session.Enqueue, Session.Reset;
      match op
      case Poll(req) => var _ := Enqueue(req);
      case ResetAll => Reset();
      case _ => Configure(op);
    }

    /** What a handler does while it runs. */
    method RunScript(ops: seq<Op>)
      requires Valid()
      modifies this, queue, assembly, parser
      ensures Shape() && Model() == Session.RunScript(old(Model()), ops)
      ensures Valid()
    {
      for i := 0 to |ops|
        invariant Valid() && Model() == Session.RunScript(old(Model()), ops[..i])
      {
        assert ops[..i + 1][..i] == ops[..i];
        RunOp(ops[i]);
      }
      assert ops[..|ops|] == ops;
    }

    /** Opens a dispatch; says whether the request in flight has a handler of its own. */
    method BeginDispatch(e: Event) returns (perRequest: bool)
      requires Valid()
      modifies this`dispatching, this`log
      ensures Shape() && Model() == Raise(old(Model()), e)
      ensures Valid()
      ensures perRequest == OwnHandler(old(Model())).Some?
    {
      hide Ring, BitSet, Pow2;
      perRequest := false;
      ghost var owner, handler: Option<nat> := None, None;
      if awaiting && queueCount > 0 {
        RingHead(queue[..], queueHead, queueCount);
        perRequest := queue[queueHead].handler.Some?;
        owner, handler := Some(accepted - queueCount), queue[queueHead].handler;
      }
      dispatching := true;
      log := log + [Raised(owner, handler, e)];
    }

    /** Closes a dispatch; one inside another leaves transmission held off. */
    method EndDispatch(e: Event, nested: bool)
      requires Valid()
      modifies this`dispatching, this`log
      ensures Shape() && Model() == Logged(old(Model()), Finished(e)).(dispatching := nested && old(dispatching))
      ensures Valid()
    {
      hide Ring, BitSet, Pow2;
      if !nested {
        dispatching := false;
      }
      log := log + [Finished(e)];
    }

    method Emit(e: Event, h: Handlers)
      requires Valid()
      modifies this, queue, assembly, parser
      ensures Shape() && Model() == Session.Emit(old(Model()), e, h)
      ensures Valid()
    {
      hide Ring, BitSet, Pow2, Raise, OwnHandler, Session.RunScript;
      var nested := dispatching;
      var perRequest := BeginDispatch(e);
      if perRequest {
        RunScript(h.perRequest);
      }
      if hasEventHandler {
        RunScript(h.sessionWide);
      }
      EndDispatch(e, nested);
    }

    // -------------------------------------------------------------------------
    // Receiving
    // -------------------------------------------------------------------------

    method OnFrameError(error: Framer.FrameError, h: Handlers)
      requires Valid()
      modifies this, queue, assembly, parser
      ensures Shape() && Model() == Session.OnFrameError(old(Model()), error, h)
      ensures Valid()
    {
      hide Ring, BitSet, Pow2, Session.Emit;
      if awaiting {
        RingHead(queue[..], queueHead, queueCount);
      }
      var id := if awaiting then queue[queueHead].id else CAPACITY_VOLTAGE;
      Emit(Rejection(id, if error == Framer.BadChecksum then Checksum else BadLength), h);
    }

    method NoteCounts(id: byte, data: DataBytes)
      requires Valid()
      modifies this`cachedCells, this`cachedTemps
      ensures Shape() && Model() == Session.NoteCounts(old(Model()), id, data)
      ensures id == 0x94 ==> cachedCells == data[0] && cachedTemps == data[1]
      ensures id == 0x51 ==> cachedCells == (data[1] as int + data[2] + data[3]) % 256
      ensures id == 0x51 ==> cachedTemps == (data[4] as int + data[5] + data[6]) % 256
      ensures id != 0x94 && id != 0x51 ==> cachedCells == old(cachedCells) && cachedTemps == old(cachedTemps)
      ensures Valid()
    {
      hide Ring, BitSet, Pow2;
      if id == STATUS_INFO {
        cachedCells := data[0];
        cachedTemps := data[1];
      } else if id == BMU_CELL_TEMP_COUNT {
        cachedCells := Tally(data[1], data[2], data[3]);
        cachedTemps := Tally(data[4], data[5], data[6]);
      }
    }

    method OnFrame(frame: Message, h: Handlers)
      requires Valid()
      modifies this, queue, assembly, record, parser
      ensures Shape() && Model() == Session.OnFrame(old(Model()), frame, h)
      ensures Valid()
    {
      hide Ring, BitSet, Pow2, Session.Emit, Session.OnReply, Session.NoteCounts;
      var id := frame[2];
      if !awaiting {
        Emit(Rejection(id, UnexpectedDataId), h);
        return;
      }
      if frame[1] != bmsAddress {
        Emit(Rejection(id, BadSourceAddress), h);
        return;
      }
      RingHead(queue[..], queueHead, queueCount);
      if id != queue[queueHead].id {
        Emit(Rejection(id, UnexpectedDataId), h);
        return;
      }
      var data := ExtractData(frame);
      NoteCounts(id, data);
      OnReply(id, data, h);
    }

    method OnReply(id: byte, data: DataBytes, h: Handlers)
      requires Valid() && Model().awaiting && Model().queue[0].id == id
      modifies this, queue, assembly, record, parser
      ensures Shape() && Model() == Session.OnReply(old(Model()), id, data, h)
      ensures Valid()
    {
      hide Ring, BitSet, Pow2, MultiframeInfo, Session.HandleSingle, Session.HandleStream, Session.HandleMulti;
      var info := MultiframeInfo(id);
      if !info.multi {
        HandleSingle(id, data, h);
      } else if info.streaming {
        HandleStream(id, data, h);
      } else {
        HandleMulti(id, data, h);
      }
    }

    method HandleSingle(id: byte, data: DataBytes, h: Handlers)
      requires Valid() && awaiting
      modifies this, queue, assembly, parser
      ensures Shape() && Model() == Session.HandleSingle(old(Model()), id, data, h)
      ensures Valid()
    {
      hide Ring, BitSet, Pow2, Session.Emit, Session.Complete;
      RingHead(queue[..], queueHead, queueCount);
      var event := Event(Response, id, NoError, 0, 1, NoPayload);
      if IsMosControl(id) {
        var requested, reported := queue[queueHead].data[0] != 0, data[0] != 0;
        event := event.(payload := MosControlAck(requested, reported));
        if requested != reported {
          event := event.(kind := ProtocolError, error := WriteRejected);
        }
      } else if HasSingleDecoder(id) {
        event := event.(payload := Single(data));
      } else {
        event := event.(kind := ProtocolError, error := UnknownDataId);
      }
      log := log + [Heard(id, data)];
      assert event == SingleEvent(old(Model()).queue[0], id, data);
      hide SingleEvent;
      Emit(event, h);
      Complete();
    }

    /** Copies a page into its slot. */
    method CopyPage(offset: nat, width: nat, data: DataBytes)
      requires assembly.Length == ASSEMBLY_LEN && offset + width <= ASSEMBLY_LEN && width <= 7
      modifies assembly
      ensures assembly[..] == Overlay(old(assembly[..]), offset, data[1..1 + width])
    {
      var i := 0;
      while i < width && offset + i < ASSEMBLY_LEN
        invariant i <= width
        invariant forall k :: offset <= k < offset + i ==> assembly[k] == data[1 + k - offset]
        invariant forall k :: 0 <= k < offset || offset + i <= k < ASSEMBLY_LEN ==> assembly[k] == old(assembly[k])
      {
        assembly[offset + i] := data[1 + i];
        i := i + 1;
      }
    }

    method MarkSeen(counter: nat)
      requires seenMask < Pow2(MAX_FRAME_INDEX + 1) && counter <= MAX_FRAME_INDEX
      modifies this`seenMask, this`framesSeen
      ensures seenMask < Pow2(MAX_FRAME_INDEX + 1) && BitSet(seenMask) == old(BitSet(seenMask)) + {counter}
      ensures framesSeen == if counter in old(BitSet(seenMask)) then old(framesSeen) else |BitSet(seenMask)|
    {
      hide Pow2;
      var bit := Shl1(counter);
      TestBit(seenMask, counter);
      InsertBit(seenMask, counter);
      if And(seenMask, bit) == 0 {
        seenMask := Or(seenMask, bit);
        Pow2Below(MAX_FRAME_INDEX + 1, 32);
        framesSeen := Popcount32(seenMask);
      }
    }

    method PlacePage(id: byte, data: DataBytes)
      requires Valid() && data[0] <= MAX_FRAME_INDEX
      modifies this`seenMask, this`framesSeen, assembly
      ensures Shape() && Model() == old(Model()).(xfer := File(old(Model()).xfer, MultiframeInfo(id), data))
      ensures Valid()
    {
      hide Ring, BitSet, Pow2, Overlay, Offset, MultiframeInfo;
      PageWidth(id);
      var info := MultiframeInfo(id);
      Fits(data[0], info.bytesPerFrame);
      CopyPage(Offset(data[0], info.bytesPerFrame), info.bytesPerFrame, data);
      MarkSeen(data[0]);
    }

    method FilePage(id: byte, data: DataBytes)
      requires Valid() && data[0] <= MAX_FRAME_INDEX
      modifies this`seenMask, this`framesSeen, this`log, assembly
      ensures Shape() && Model() == Session.FilePage(old(Model()), id, data)
      ensures Valid()
    {
      hide Ring, BitSet, Pow2, File, MultiframeInfo;
      PageWidth(id);
      PlacePage(id, data);
      Note(Heard(id, data));
    }

    method HandleMulti(id: byte, data: DataBytes, h: Handlers)
      requires Valid() && awaiting
      modifies this, queue, assembly, parser
      ensures Shape() && Model() == Session.HandleMulti(old(Model()), id, data, h)
      ensures Valid()
    {
      hide Ring, BitSet, Pow2, Session.Emit, Session.FilePage, Session.FinishMulti;
      if data[0] > MAX_FRAME_INDEX {
        Emit(Rejection(id, FrameSequence), h);
        return;
      }
      FilePage(id, data);
      if expectedFrames != 0 && framesSeen >= expectedFrames {
        FinishMulti(id, h);
        return;
      }
      deadline := Wrap(now + interframeTimeout);
    }

    /** Works out where the payload begins and how long it is, and decodes it. */
    method DecodeAssembly(id: byte) returns (payload: Option<Payload>)
      requires Valid()
      ensures payload == DecodePages(id, Collected(Model().xfer, id))
    {
      hide DecodePages, Ring, BitSet, Pow2, LowestFrom, RunFrom;
      var info := MultiframeInfo(id);
      MaskBound(seenMask);
      var base, run := info.frameBase, 0;
      if seenMask != 0 {
        base := LowestFrameNo(seenMask);
        run := ContiguousFrames(seenMask, base);
      }
      Fits(base, info.bytesPerFrame);
      var start := Offset(base, info.bytesPerFrame);
      var len := Min(Offset(run, info.bytesPerFrame), ASSEMBLY_LEN - start);
      len := Min(len, MAX_REASSEMBLY_LEN);
      if info.totalBytes != 0 && len > info.totalBytes {
        len := info.totalBytes;
      }
      if expectedItems != 0 {
        len := Min(len, if id == CELL_VOLTAGES then 2 * expectedItems else expectedItems);
      }
      payload := DecodeMulti(id, assembly, start, len);
      assert assembly[..][start..start + len] == assembly[start..start + len];
    }

    method FinishMulti(id: byte, h: Handlers)
      requires Valid()
      modifies this, queue, assembly, parser
      ensures Shape() && Model() == Session.FinishMulti(old(Model()), id, h)
      ensures Valid()
    {
      hide Ring, BitSet, Pow2, DecodePages, Collected, Session.Emit, Session.Complete;
      var event := Event(Response, id, NoError, 0, framesSeen, NoPayload);
      var payload := DecodeAssembly(id);
      if payload.Some? {
        event := event.(payload := payload.value);
      } else {
        event := event.(kind := ProtocolError, error := UnknownDataId);
      }
      Emit(event, h);
      Complete();
    }

    /** Appends a fault frame's data to the record, as far as there is room. */
    method AppendRecord(data: DataBytes)
      requires record.Length == FAULT_BUFFER_LEN && recordLen <= FAULT_BUFFER_LEN
      modifies this`recordLen, record
      ensures recordLen <= FAULT_BUFFER_LEN
      ensures record[..recordLen] == old(record[..recordLen]) + Fresh(old(record[..recordLen]), data)
    {
      var i := 1;
      while i < DATA_LEN && recordLen < FAULT_BUFFER_LEN
        invariant 1 <= i <= DATA_LEN && recordLen == old(recordLen) + i - 1 <= FAULT_BUFFER_LEN
        invariant record[..recordLen] == old(record[..recordLen]) + data[1..i]
      {
        record[recordLen] := data[i];
        recordLen := recordLen + 1;
        i := i + 1;
      }
    }

    method FileFault(id: byte, data: DataBytes)
      requires Valid()
      modifies this`recordLen, this`framesSeen, this`log, record
      ensures Shape()
      ensures Model() == Logged(old(Model()), Heard(id, data)).(xfer := Appended(old(Model()).xfer, data))
      ensures Valid()
    {
      hide Ring, BitSet, Pow2, Fresh;
      AppendRecord(data);
      framesSeen := (framesSeen + 1) % 256;
      log := log + [Heard(id, data)];
    }

    method HandleStream(id: byte, data: DataBytes, h: Handlers)
      requires Valid() && awaiting
      modifies this, queue, assembly, record, parser
      ensures Shape() && Model() == Session.HandleStream(old(Model()), id, data, h)
      ensures Valid()
    {
      hide Ring, BitSet, Pow2, Appended, Session.Complete, Session.DeliverOrWait;
      if data[0] == FRAME_NO_END {
        Note(Heard(id, data));
        Complete();
        return;
      }
      FileFault(id, data);
      DeliverOrWait(id, h);
    }

    method DeliverOrWait(id: byte, h: Handlers)
      requires Valid()
      modifies this, queue, assembly, parser
      ensures Shape() && Model() == Session.DeliverOrWait(old(Model()), id, h)
      ensures Valid()
    {
      hide Ring, BitSet, Pow2, Session.Pump, Session.DeliverRecord;
      if recordLen >= FAULT_BUFFER_LEN {
        DeliverRecord(id, h);
      }
      if !awaiting {
        Pump();
        return;
      }
      deadline := Wrap(now + interframeTimeout);
    }

    method DeliverRecord(id: byte, h: Handlers)
      requires Valid()
      modifies this, queue, assembly, parser
      ensures Shape() && Model() == Session.DeliverRecord(old(Model()), id, h)
      ensures Valid()
    {
      hide Ring, BitSet, Pow2, DecodeFault, Session.Emit;
      var decoded := DecodeFaultRecord(record, recordLen);
      if decoded.Some? {
        Emit(FaultEvent(id, decoded.value), h);
      }
      recordLen := 0;
    }

    // -------------------------------------------------------------------------
    // Time
    // -------------------------------------------------------------------------

    method Tick(nowMs: uint32, h: Handlers)
      requires Valid()
      modifies this, queue, assembly, parser
      ensures Shape() && Model() == Session.Tick(old(Model()), nowMs, h)
      ensures Valid()
    {
      hide Ring, BitSet, Pow2, Session.OnExpiry;
      WrapSmall(nowMs);
      now := nowMs;
      if !awaiting || Wrap(now - deadline) >= 0x8000_0000 {
        return;
      }
      OnExpiry(h);
    }

    method OnExpiry(h: Handlers)
      requires Valid() && awaiting
      modifies this, queue, assembly, parser
      ensures Shape() && Model() == Session.OnExpiry(old(Model()), h)
      ensures Valid()
    {
      hide Ring, BitSet, Pow2, MultiframeInfo, Session.Emit, Session.Complete, Session.FinishMulti, Session.Transmit;
      RingHead(queue[..], queueHead, queueCount);
      var id := queue[queueHead].id;
      var info := MultiframeInfo(id);
      if info.multi && !info.streaming && framesSeen > 0 {
        FinishMulti(id, h);
      } else if info.streaming && framesSeen > 0 {
        Emit(Event(ProtocolError, id, Truncated, 0, framesSeen, NoPayload), h);
        Complete();
      } else if retries < maxRetries {
        retries := retries + 1;
        Transmit();
      } else {
        Emit(Event(Timeout, id, NoError, retries, 0, NoPayload), h);
        Complete();
      }
    }

    // -------------------------------------------------------------------------
    // The byte stream
    // -------------------------------------------------------------------------

    method OnByte(b: byte, h: Handlers)
      requires Valid()
      modifies this, queue, assembly, record, parser, parser.buf
      ensures Shape() && Model() == Session.OnByte(old(Model()), b, h)
      ensures Valid()
    {
      hide Ring, BitSet, Pow2, Framer.Step, Session.OnFrame, Session.OnFrameError;
      var outs := parser.PushByte(b);
      if outs != [] {
        match outs[0]
        case Frame(f) => OnFrame(f, h);
        case Rejected(e) => OnFrameError(e, h);
      }
    }

    /** Feeds the first `n` bytes of `data`; `hs[i]` is what the handlers do if byte i raises an event. */
    method Feed(data: array?<byte>, n: nat, hs: seq<Handlers>)
      requires Valid()
      requires data != null ==> n <= data.Length && n <= |hs|
      requires data != null ==> data != assembly && data != record && data != parser.buf
      modifies this, queue, assembly, record, parser, parser.buf
      ensures Shape()
      ensures Model() == if data == null then old(Model()) else Session.Run(old(Model()), Arrivals(old(data[..n]), hs))
      ensures Valid()
    {
      hide Ring, BitSet, Pow2, Session.OnByte;
      if data == null {
        return;
      }
      ghost var bytes := data[..n];
      for i := 0 to n
        invariant Valid() && data[..n] == bytes
        invariant Model() == Session.Run(old(Model()), Arrivals(bytes, hs)[..i])
      {
        assert Arrivals(bytes, hs)[..i + 1][..i] == Arrivals(bytes, hs)[..i];
        assert data[i] == bytes[i];
        OnByte(data[i], hs[i]);
      }
      assert Arrivals(bytes, hs)[..n] == Arrivals(bytes, hs);
    }
  }
}
