/**
 What a history of the session may look like, said without ring buffer, mask,
 reassembly buffer or clock: a monitor that reads the history one entry at a time
 and refuses the first entry out of order. It remembers the requests accepted and
 not yet retired, and the frames heard since the outstanding request began.
 */
module Monitor {
  import opened Bytes
  import opened Protocol
  import opened Bits
  import opened Decode
  import opened Session

  datatype Mon = Mon(
    queue: seq<Request>,      // accepted, neither retired nor dropped
    next: nat,                // number of the next request accepted
    busy: bool,               // queue[0] has been begun
    closing: bool,            // its last event is out, only its retirement is left
    dispatching: bool,
    items: byte,              // item count resolved when it began
    heard: seq<DataBytes>,    // its reply so far, as it arrived
    records: nat,             // fault records raised from that reply
    cells: byte, temps: byte) // latest counts any reply carried

  const START: Mon := Mon([], 0, false, false, false, 0, [], 0, 0, 0)

  // ---------------------------------------------------------------------------
  // What a reply says, read off the frames heard
  // ---------------------------------------------------------------------------

  function Counters(heard: seq<DataBytes>): set<nat> {
    if heard == [] then {} else Counters(heard[..|heard| - 1]) + {heard[|heard| - 1][0] as nat}
  }

  /** The payload bytes of the latest frame numbered c. */
  function Latest(heard: seq<DataBytes>, c: nat, width: nat): (bytes: seq<byte>)
    requires c in Counters(heard) && width <= 7
    ensures |bytes| == width
  {
    var last := heard[|heard| - 1];
    if last[0] == c then last[1..1 + width] else Latest(heard[..|heard| - 1], c, width)
  }

  /** The latest payloads of n consecutive counters, end to end. */
  function Pages(heard: seq<DataBytes>, base: nat, n: nat, width: nat): (bytes: seq<byte>)
    requires width <= 7 && forall i :: base <= i < base + n ==> i in Counters(heard)
    ensures |bytes| == Offset(n, width)
  {
    if n == 0 then [] else Pages(heard, base, n - 1, width) + Latest(heard, base + n - 1, width)
  }

  /** The unbroken run from the lowest counter heard. */
  function Unbroken(heard: seq<DataBytes>, width: nat): seq<byte>
    requires width <= 7
  {
    var base := LowestFrom(Counters(heard), 0);
    RunIsMaximal(Counters(heard), base);
    Pages(heard, base, RunFrom(Counters(heard), base), width)
  }

  function PagedPayload(id: byte, items: byte, heard: seq<DataBytes>): Option<Payload> {
    var bytes := Unbroken(heard, MultiframeInfo(id).bytesPerFrame);
    DecodePages(id, bytes[..TrimmedLen(id, items, |bytes|)])
  }

  /** The record bytes a fault frame carries after its counter. */
  function Body(data: DataBytes): (bytes: seq<byte>)
    ensures |bytes| == 7
  {
    data[1..8]
  }

  /** The fault-record bytes of the frames heard since the last multiple of four. */
  function Tail(heard: seq<DataBytes>, n: nat): (bytes: seq<byte>)
    requires n <= |heard|
    ensures |bytes| == 7 * n
  {
    if n == 0 then [] else Tail(heard[..|heard| - 1], n - 1) + Body(heard[|heard| - 1])
  }

  /** frames_seen_: distinct counters of a paginated reply, stream frames modulo 256. */
  function FramesHeard(id: byte, heard: seq<DataBytes>): nat {
    if Paginated(id) then |Counters(heard)| else if id == FAULT_RECORDS then |heard| % 256 else 0
  }

  predicate AllHeard(id: byte, items: byte, heard: seq<DataBytes>) {
    ExpectedFrames(id, items) != 0 && |Counters(heard)| >= ExpectedFrames(id, items)
  }

  // ---------------------------------------------------------------------------
  // Which events may be raised
  // ---------------------------------------------------------------------------

  /** Reports of a frame that was turned away; the request, if any, goes on. */
  predicate IsRejection(e: Event) {
    && e == Rejection(e.id, e.error)
    && e.error in {Checksum, BadLength, BadSourceAddress, UnexpectedDataId, FrameSequence}
  }

  /** The last event a request gets. */
  predicate IsFinal(e: Event) {
    || e.kind == Timeout
    || (e.kind == Response && e.id != FAULT_RECORDS)
    || e.error in {UnknownDataId, Truncated, WriteRejected}
  }

  predicate RejectionFits(id: byte, e: Event) {
    && IsRejection(e)
    && (e.error in {Checksum, BadLength, FrameSequence} ==> e.id == id)
    && (e.error == FrameSequence ==> Paginated(id))
  }

  /** The final event a request may get, as a function of what was heard. */
  predicate FinalFits(m: Mon, e: Event)
    requires m.queue != []
  {
    var req := m.queue[0];
    || (e == Event(Timeout, req.id, NoError, e.retries, 0, NoPayload)
        && FramesHeard(req.id, m.heard) == 0 && (req.id != FAULT_RECORDS ==> m.heard == []))
    || (!MultiframeInfo(req.id).multi && |m.heard| == 1
        && e == SingleEvent(req, req.id, m.heard[0]) && e.error != UnknownDataId)
    || (Paginated(req.id) && m.heard != [] && PagedPayload(req.id, m.items, m.heard) == Some(e.payload)
        && e == Event(Response, req.id, NoError, 0, |Counters(m.heard)|, e.payload))
    || (req.id == FAULT_RECORDS && |m.heard| % 256 != 0
        && e == Event(ProtocolError, req.id, Truncated, 0, |m.heard| % 256, NoPayload))
  }

  /** A fault record: due after every fourth frame, and decoded from those four. */
  predicate RecordFits(m: Mon, e: Event)
    requires m.queue != []
  {
    && m.queue[0].id == FAULT_RECORDS
    && |m.heard| == 4 * (m.records + 1)
    && e == FaultEvent(FAULT_RECORDS, FaultFields(Tail(m.heard, 4)))
  }

  // ---------------------------------------------------------------------------
  // The monitor
  // ---------------------------------------------------------------------------

  predicate HeardFits(m: Mon, id: byte, data: DataBytes)
    requires m.queue != []
  {
    && id == m.queue[0].id
    && (!MultiframeInfo(id).multi ==> m.heard == [])
    && (Paginated(id) ==> data[0] <= MAX_FRAME_INDEX && !AllHeard(id, m.items, m.heard))
    && (id == FAULT_RECORDS ==> m.records == |m.heard| / 4)
  }

  function Hear(m: Mon, id: byte, data: DataBytes): Mon {
    var noted := match Counts(id, data)
                 case Some((cells, temps)) => m.(cells := cells, temps := temps)
                 case None => m;
    if id == FAULT_RECORDS && data[0] == FRAME_NO_END
    then noted.(closing := true)
    else noted.(heard := m.heard + [data])
  }

  function RaiseStep(m: Mon, owner: Option<nat>, handler: Option<nat>, e: Event): Option<Mon>
    requires |m.queue| <= m.next && (m.busy ==> m.queue != [])
  {
    if m.dispatching then None
    else if !m.busy then
      if owner == None && handler == None && IsRejection(e) then Some(m.(dispatching := true)) else None
    else if m.closing || owner != Some(m.next - |m.queue|) || handler != m.queue[0].handler then None
    else if RejectionFits(m.queue[0].id, e) then Some(m.(dispatching := true))
    else if FinalFits(m, e) then Some(m.(dispatching := true, closing := true))
    else if RecordFits(m, e) then Some(m.(dispatching := true, records := m.records + 1))
    else None
  }

  predicate Sane(m: Mon) {
    |m.queue| <= m.next && (m.busy ==> m.queue != [])
  }

  function Next(capacity: nat, host: byte, m: Mon, o: Obs): (r: Option<Mon>)
    requires Sane(m)
    ensures r.Some? ==> Sane(r.value)
  {
    var lo := m.next - |m.queue|;
    match o
    case Accepted(t, req) =>
      if t == m.next && |m.queue| < capacity && IsKnownDataId(req.id)
      then Some(m.(queue := m.queue + [req], next := m.next + 1)) else None
    case Begun(t, items) =>
      if !m.busy && !m.dispatching && m.queue != [] && t == lo && items == ItemsFor(m.queue[0], m.cells, m.temps)
      then Some(m.(busy := true, closing := false, items := items, heard := [], records := 0)) else None
    case Sent(t, frame) =>
      if m.busy && !m.closing && !m.dispatching && t == lo
         && FramesHeard(m.queue[0].id, m.heard) == 0
         && frame == Encode(host, m.queue[0].id, m.queue[0].data)
      then Some(m) else None
    case Heard(id, data) =>
      if m.busy && !m.closing && !m.dispatching && HeardFits(m, id, data) then Some(Hear(m, id, data)) else None
    case Raised(owner, handler, e) => RaiseStep(m, owner, handler, e)
    case Finished(_) =>
      if m.dispatching then Some(m.(dispatching := false)) else None
    case Retired(t) =>
      if m.busy && m.closing && !m.dispatching && t == lo
      then Some(m.(queue := m.queue[1..], busy := false)) else None
    case Dropped =>
      Some(m.(queue := [], busy := false))
  }

  function Watch(capacity: nat, host: byte, log: seq<Obs>): (r: Option<Mon>)
    ensures r.Some? ==> Sane(r.value)
  {
    if log == [] then Some(START)
    else
      var m := Watch(capacity, host, log[..|log| - 1]);
      if m.None? then None else Next(capacity, host, m.value, log[|log| - 1])
  }

  lemma WatchSnoc(capacity: nat, host: byte, log: seq<Obs>, o: Obs)
    requires Watch(capacity, host, log).Some?
    ensures Watch(capacity, host, log + [o]) == Next(capacity, host, Watch(capacity, host, log).value, o)
  {
  }
}
