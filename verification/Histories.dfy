/** What an accepted history means, entry by entry: order on the bus, last events, sizes and payloads. */
module Histories {
  import opened Bytes
  import opened Protocol
  import opened Decode
  import opened Session
  import opened Monitor

  /** The monitor's state before entry i. */
  function At(capacity: nat, host: byte, log: seq<Obs>, i: nat): (m: Mon)
    requires i <= |log| && Watch(capacity, host, log).Some?
    ensures Sane(m) && Watch(capacity, host, log[..i]) == Some(m)
    ensures i < |log| ==> Next(capacity, host, m, log[i]).Some?
  {
    PrefixAccepted(capacity, host, log, i);
    Watch(capacity, host, log[..i]).value
  }

  lemma {:induction false} PrefixAccepted(capacity: nat, host: byte, log: seq<Obs>, i: nat)
    requires i <= |log| && Watch(capacity, host, log).Some?
    ensures Watch(capacity, host, log[..i]).Some?
    ensures i < |log| ==> Next(capacity, host, Watch(capacity, host, log[..i]).value, log[i]).Some?
    decreases |log|
  {
    hide Next;
    if i == |log| {
      assert log[..i] == log;
    } else if i < |log| - 1 {
      PrefixAccepted(capacity, host, log[..|log| - 1], i);
      assert log[..|log| - 1][..i] == log[..i];
    }
  }

  lemma AtNext(capacity: nat, host: byte, log: seq<Obs>, i: nat)
    requires i < |log| && Watch(capacity, host, log).Some?
    ensures Next(capacity, host, At(capacity, host, log, i), log[i]) == Some(At(capacity, host, log, i + 1))
  {
    hide Next;
    assert log[..i + 1][..i] == log[..i];
  }

  /** Number of the oldest request neither retired nor dropped. */
  function Oldest(m: Mon): nat
    requires Sane(m)
  {
    m.next - |m.queue|
  }

  /** What one entry does to the oldest live request. */
  lemma OldestStep(capacity: nat, host: byte, m: Mon, o: Obs)
    requires Sane(m) && Next(capacity, host, m, o).Some?
    ensures var n, a := Next(capacity, host, m, o).value, Oldest(m);
            && a <= Oldest(n)
            && (a < Oldest(n) ==> o == Dropped || (o == Retired(a) && Oldest(n) == a + 1))
            && (m.busy ==> a < Oldest(n) || (n.busy && Oldest(n) == a))
            && (o.Begun? ==> !m.busy && o.ticket == a && n.busy && Oldest(n) == a)
            && (o.Retired? ==> o.ticket == a && Oldest(n) == a + 1)
            && (o == Dropped && m.busy ==> a < Oldest(n))
  {
  }

  // ---------------------------------------------------------------------------
  // First in, first out, one at a time
  // ---------------------------------------------------------------------------

  /** Request a is over: retired, or dropped by a reset, somewhere in [i, j). */
  ghost predicate OverWithin(log: seq<Obs>, i: nat, j: nat, a: nat) {
    exists k :: i <= k < j <= |log| && (log[k] == Retired(a) || log[k] == Dropped)
  }

  lemma OverLater(log: seq<Obs>, i: nat, j: nat, a: nat)
    requires OverWithin(log, i, j, a) && j < |log|
    ensures OverWithin(log, i, j + 1, a)
  {
    var k :| i <= k < j && (log[k] == Retired(a) || log[k] == Dropped);
  }

  lemma OverLast(log: seq<Obs>, i: nat, j: nat, a: nat)
    requires i <= j < |log| && (log[j] == Retired(a) || log[j] == Dropped)
    ensures OverWithin(log, i, j + 1, a)
  {
  }

  /** The oldest request stays the oldest, and begun if it was, until it is over; the number of the oldest never
      falls. */
  lemma {:induction false} OldestUntilOver(capacity: nat, host: byte, log: seq<Obs>, i: nat, j: nat)
    requires i <= j <= |log| && Watch(capacity, host, log).Some?
    ensures var m, n := At(capacity, host, log, i), At(capacity, host, log, j);
            && Oldest(m) <= Oldest(n)
            && (Oldest(m) < Oldest(n) ==> OverWithin(log, i, j, Oldest(m)))
            && (Oldest(m) == Oldest(n) && m.busy ==> n.busy)
    decreases j
  {
    hide At, Next, Watch, OverWithin;
    if i < j {
      OldestUntilOver(capacity, host, log, i, j - 1);
      AtNext(capacity, host, log, j - 1);
      OldestStep(capacity, host, At(capacity, host, log, j - 1), log[j - 1]);
      hide Oldest;
      var a := Oldest(At(capacity, host, log, i));
      if OverWithin(log, i, j - 1, a) {
        OverLater(log, i, j - 1, a);
      } else if log[j - 1] == Retired(a) || log[j - 1] == Dropped {
        OverLast(log, i, j - 1, a);
      }
    }
  }

  /** Requests begin in the order they were accepted, and never before the one begun earlier is retired or dropped. */
  lemma OneAtATimeInOrder(capacity: nat, host: byte, log: seq<Obs>, i: nat, j: nat)
    requires i < j < |log| && Watch(capacity, host, log).Some?
    requires log[i].Begun? && log[j].Begun?
    ensures log[i].ticket < log[j].ticket
    ensures OverWithin(log, i + 1, j, log[i].ticket)
  {
    hide At, Next, Oldest;
    AtNext(capacity, host, log, i);
    AtNext(capacity, host, log, j);
    OldestStep(capacity, host, At(capacity, host, log, i), log[i]);
    OldestStep(capacity, host, At(capacity, host, log, j), log[j]);
    OldestUntilOver(capacity, host, log, i + 1, j);
  }

  /** Nothing is skipped: every request older than the oldest live one was retired, or was there when a reset dropped
      all. */
  lemma {:induction false} NoneSkipped(capacity: nat, host: byte, log: seq<Obs>, j: nat, t: nat)
    requires j <= |log| && Watch(capacity, host, log).Some?
    requires t < Oldest(At(capacity, host, log, j))
    ensures OverWithin(log, 0, j, t)
    decreases j
  {
    if j > 0 {
      hide At, Next, Watch, OverWithin;
      AtNext(capacity, host, log, j - 1);
      OldestStep(capacity, host, At(capacity, host, log, j - 1), log[j - 1]);
      hide Oldest;
      if t < Oldest(At(capacity, host, log, j - 1)) {
        NoneSkipped(capacity, host, log, j - 1, t);
        OverLater(log, 0, j - 1, t);
      } else {
        OverLast(log, 0, j - 1, t);
      }
    }
  }

  // ---------------------------------------------------------------------------
  // Dispatch
  // ---------------------------------------------------------------------------

  /** While a handler runs nothing is begun, sent, heard, raised or retired: handlers only queue and drop. */
  lemma {:induction false} DispatchIsQuiet(capacity: nat, host: byte, log: seq<Obs>, i: nat, j: nat)
    requires i < j < |log| && Watch(capacity, host, log).Some? && log[i].Raised?
    requires forall k :: i < k < j ==> !log[k].Finished?
    ensures At(capacity, host, log, j).dispatching
    ensures log[j].Accepted? || log[j].Dropped? || log[j].Finished?
    decreases j
  {
    hide At;
    if i + 1 < j {
      DispatchIsQuiet(capacity, host, log, i, j - 1);
    }
    AtNext(capacity, host, log, j - 1);
    DispatchStep(capacity, host, At(capacity, host, log, j - 1), log[j - 1]);
    DispatchStep(capacity, host, At(capacity, host, log, j), log[j]);
  }

  lemma DispatchStep(capacity: nat, host: byte, m: Mon, o: Obs)
    requires Sane(m) && Next(capacity, host, m, o).Some?
    ensures var n := Next(capacity, host, m, o).value;
            && (o.Raised? ==> n.dispatching)
            && (m.dispatching && !o.Finished? ==> n.dispatching)
            && (m.dispatching ==> o.Accepted? || o.Dropped? || o.Finished?)
  {
  }

  // ---------------------------------------------------------------------------
  // Last events
  // ---------------------------------------------------------------------------

  predicate FinalFor(o: Obs, t: nat) {
    o.Raised? && o.owner == Some(t) && IsFinal(o.event)
  }

  /** How many final events request t has had. */
  function Finals(log: seq<Obs>, t: nat): nat {
    if log == [] then 0
    else Finals(log[..|log| - 1], t) + (if FinalFor(log[|log| - 1], t) then 1 else 0)
  }

  /** The reply in progress, or the last one, was ended by the fault stream's sentinel. */
  predicate EndedBySentinel(log: seq<Obs>) {
    log != [] &&
    match log[|log| - 1]
    case Begun(_, _) => false
    case Heard(id, data) => id == FAULT_RECORDS && data[0] == FRAME_NO_END
    case _ => EndedBySentinel(log[..|log| - 1])
  }

  /** A final event closes the request it belongs to; no other entry does, but a sentinel heard. */
  lemma ClosingStep(capacity: nat, host: byte, m: Mon, o: Obs, t: nat)
    requires Sane(m) && Next(capacity, host, m, o).Some?
    ensures var n := Next(capacity, host, m, o).value;
            && (FinalFor(o, t) ==> m.busy && !m.closing && t == Oldest(m) && n.closing && n.busy && Oldest(n) == t)
            && (n.busy && Oldest(n) == t && !(m.busy && Oldest(m) == t) ==> o.Begun? && !n.closing)
            && (m.busy && n.busy && Oldest(n) == Oldest(m) == t && n.closing != m.closing ==>
                 n.closing && (FinalFor(o, t) || (o.Heard? && o.id == FAULT_RECORDS && o.data[0] == FRAME_NO_END)))
            && (o.Heard? && o.id == FAULT_RECORDS && o.data[0] == FRAME_NO_END ==> n.closing)
            && (m.closing && m.busy ==> !o.Heard? && !o.Begun?)
  {
  }

  /** Every request: no final event until it closes, then exactly one, or the sentinel instead; and never two. */
  lemma {:induction false} FinalsSoFar(capacity: nat, host: byte, log: seq<Obs>, t: nat)
    requires Watch(capacity, host, log).Some?
    ensures var m := Watch(capacity, host, log).value;
            && Finals(log, t) <= 1
            && (t > Oldest(m) || (t == Oldest(m) && !(m.busy && m.closing)) ==> Finals(log, t) == 0)
            && (t == Oldest(m) && m.busy && m.closing ==>
                  (Finals(log, t) == 1 && !EndedBySentinel(log)) || (Finals(log, t) == 0 && EndedBySentinel(log)))
            && (m.busy && !m.closing ==> !EndedBySentinel(log))
    decreases |log|
  {
    if log != [] {
      var init, o := log[..|log| - 1], log[|log| - 1];
      var m := Watch(capacity, host, init).value;
      FinalsSoFar(capacity, host, init, t);
      ClosingStep(capacity, host, m, o, t);
      ClosingStep(capacity, host, m, o, Oldest(m));
      OldestStep(capacity, host, m, o);
      hide Next, FinalFor, Oldest;
    }
  }

  /** A retired request had exactly one final event, or none because the sentinel ended its fault stream. */
  lemma RetiredWasClosed(capacity: nat, host: byte, log: seq<Obs>, k: nat)
    requires k < |log| && Watch(capacity, host, log).Some? && log[k].Retired?
    ensures Finals(log[..k], log[k].ticket) == if EndedBySentinel(log[..k]) then 0 else 1
  {
    var m := At(capacity, host, log, k);
    assert m.busy && m.closing && log[k].ticket == Oldest(m);
    hide At;
    FinalsSoFar(capacity, host, log[..k], log[k].ticket);
  }

  /** An entry that concerns request t itself. */
  predicate Concerns(o: Obs, t: nat) {
    match o
    case Begun(a, _) => a == t
    case Sent(a, _) => a == t
    case Raised(owner, _, _) => owner == Some(t)
    case Retired(a) => a == t
    case _ => false
  }

  /** Once retired or dropped, a request is never begun, sent or told anything again. */
  lemma OverIsOver(capacity: nat, host: byte, log: seq<Obs>, k: nat, j: nat, t: nat)
    requires k < j < |log| && Watch(capacity, host, log).Some?
    requires log[k] == Retired(t) || (log[k] == Dropped && t < At(capacity, host, log, k).next)
    ensures !Concerns(log[j], t)
  {
    var m, n := At(capacity, host, log, k), At(capacity, host, log, j);
    AtNext(capacity, host, log, k);
    assert t < Oldest(At(capacity, host, log, k + 1));
    assert Next(capacity, host, n, log[j]).Some?;
    hide At;
    OldestUntilOver(capacity, host, log, k + 1, j);
  }

  // ---------------------------------------------------------------------------
  // Requests keep their number
  // ---------------------------------------------------------------------------

  /** A live request is the one accepted under its number. */
  lemma {:induction false} LiveAsAccepted(capacity: nat, host: byte, log: seq<Obs>, i: nat)
    requires i < |log| && Watch(capacity, host, log).Some? && log[i].Accepted?
    ensures var m, t := Watch(capacity, host, log).value, log[i].ticket;
            t < m.next && (t >= Oldest(m) ==> m.queue[t - Oldest(m)] == log[i].req)
    decreases |log|
  {
    hide Next;
    var init, o := log[..|log| - 1], log[|log| - 1];
    if i < |log| - 1 {
      LiveAsAccepted(capacity, host, init, i);
    }
    var m := Watch(capacity, host, init).value;
    QueueStep(capacity, host, m, o, log[i].ticket);
  }

  lemma QueueStep(capacity: nat, host: byte, m: Mon, o: Obs, t: nat)
    requires Sane(m) && Next(capacity, host, m, o).Some?
    ensures var n := Next(capacity, host, m, o).value;
            && m.next <= n.next && Oldest(m) <= Oldest(n)
            && (Oldest(n) <= t < m.next ==> n.queue[t - Oldest(n)] == m.queue[t - Oldest(m)])
            && (o.Accepted? ==> o.ticket == m.next && n.next == m.next + 1 && n.queue[o.ticket - Oldest(n)] == o.req)
  {
  }

  lemma ConcernsHead(capacity: nat, host: byte, m: Mon, o: Obs, t: nat)
    requires Sane(m) && Next(capacity, host, m, o).Some? && Concerns(o, t)
    ensures m.queue != [] && t == Oldest(m)
  {
  }

  lemma HeadAsAccepted(capacity: nat, host: byte, log: seq<Obs>, i: nat, j: nat)
    requires i < j < |log| && Watch(capacity, host, log).Some? && log[i].Accepted?
    requires Concerns(log[j], log[i].ticket)
    ensures At(capacity, host, log, j).queue != [] && At(capacity, host, log, j).queue[0] == log[i].req
    ensures Oldest(At(capacity, host, log, j)) == log[i].ticket
  {
    hide Next, Watch, Concerns;
    var m := At(capacity, host, log, j);
    hide At;
    assert log[..j][i] == log[i];
    LiveAsAccepted(capacity, host, log[..j], i);
    ConcernsHead(capacity, host, m, log[j], log[i].ticket);
  }

  /** Every transmission, first or repeated, is the encoding of the request accepted under that number. */
  lemma SentAsAccepted(capacity: nat, host: byte, log: seq<Obs>, i: nat, j: nat)
    requires i < j < |log| && Watch(capacity, host, log).Some?
    requires log[i].Accepted? && log[j].Sent? && log[j].ticket == log[i].ticket
    ensures log[j].frame == Encode(host, log[i].req.id, log[i].req.data)
  {
    HeadAsAccepted(capacity, host, log, i, j);
  }

  /** An event that has an owner goes to the handler its owner was accepted with. */
  lemma RaisedToOwner(capacity: nat, host: byte, log: seq<Obs>, i: nat, j: nat)
    requires i < j < |log| && Watch(capacity, host, log).Some?
    requires log[i].Accepted? && log[j].Raised? && log[j].owner == Some(log[i].ticket)
    ensures log[j].handler == log[i].req.handler
  {
    HeadAsAccepted(capacity, host, log, i, j);
  }

  /** UNKNOWN_DATA_ID is never raised. */
  lemma NeverUnknown(capacity: nat, host: byte, log: seq<Obs>, j: nat)
    requires j < |log| && Watch(capacity, host, log).Some? && log[j].Raised?
    ensures log[j].event.error != UnknownDataId
  {
  }

  // ---------------------------------------------------------------------------
  // Late count resolution
  // ---------------------------------------------------------------------------

  /** Three counts added in one unsigned byte. */
  function LowSum(a: int, b: int, c: int): byte {
    (a + b + c) % 256
  }

  /** The cell and sensor counts after one more frame heard: 0x94 carries them in its first two bytes, 0x51 board by
      board in the second to fourth and the fifth to seventh; no other frame carries any. */
  function CountsAfter(cells: byte, temps: byte, id: byte, d: DataBytes): (byte, byte) {
    if id == 0x94 then (d[0], d[1])
    else if id == 0x51 then (LowSum(d[1], d[2], d[3]), LowSum(d[4], d[5], d[6]))
    else (cells, temps)
  }

  /** The counts in the most recent 0x94 or 0x51 reply heard, or zero. */
  function LatestCounts(log: seq<Obs>): (byte, byte) {
    if log == [] then (0, 0)
    else
      var (o, before) := (log[|log| - 1], LatestCounts(log[..|log| - 1]));
      if o.Heard? then CountsAfter(before.0, before.1, o.id, o.data) else before
  }

  lemma {:induction false} CountsAreLatest(capacity: nat, host: byte, log: seq<Obs>)
    requires Watch(capacity, host, log).Some?
    ensures var m := Watch(capacity, host, log).value;
            LatestCounts(log) == (m.cells, m.temps)
    decreases |log|
  {
    if log != [] {
      CountsAreLatest(capacity, host, log[..|log| - 1]);
      CountsStep(capacity, host, Watch(capacity, host, log[..|log| - 1]).value, log[|log| - 1]);
      hide Next, CountsAfter;
    }
  }

  lemma CountsStep(capacity: nat, host: byte, m: Mon, o: Obs)
    requires Sane(m) && Next(capacity, host, m, o).Some?
    ensures var n := Next(capacity, host, m, o).value;
            (n.cells, n.temps) == if o.Heard? then CountsAfter(m.cells, m.temps, o.id, o.data) else (m.cells, m.temps)
  {
    hide HeardFits, RejectionFits, FinalFits, RecordFits, Encode, ItemsFor, FramesHeard;
  }

  /** The item count a request begins with: its own for 0x95 and 0x96 if it has one, else the count given; none for any
      other. */
  function ItemsWith(req: Request, cells: byte, temps: byte): byte {
    if req.id != 0x95 && req.id != 0x96 then 0
    else if req.hint != 0 then req.hint
    else if req.id == 0x95 then cells
    else temps
  }

  /** An uncounted read is sized when it first goes out, by the latest counts any reply had carried by then. */
  lemma SizedByLatestCounts(capacity: nat, host: byte, log: seq<Obs>, i: nat, j: nat)
    requires i < j < |log| && Watch(capacity, host, log).Some?
    requires log[i].Accepted? && log[j].Begun? && log[j].ticket == log[i].ticket
    ensures var (cells, temps) := LatestCounts(log[..j]);
            log[j].items == ItemsWith(log[i].req, cells, temps)
  {
    HeadAsAccepted(capacity, host, log, i, j);
    CountsAreLatest(capacity, host, log[..j]);
    hide LatestCounts;
  }

  // ---------------------------------------------------------------------------
  // Payloads
  // ---------------------------------------------------------------------------

  /** The frames of the reply in progress: everything heard since the last request began, sentinels aside. */
  function ReplySoFar(log: seq<Obs>): seq<DataBytes> {
    if log == [] then []
    else
      match log[|log| - 1]
      case Begun(_, _) => []
      case Heard(id, data) =>
        if id == FAULT_RECORDS && data[0] == FRAME_NO_END then ReplySoFar(log[..|log| - 1])
        else ReplySoFar(log[..|log| - 1]) + [data]
      case _ => ReplySoFar(log[..|log| - 1])
  }

  /** The item count the request in progress began with. */
  function ItemsSoFar(log: seq<Obs>): byte {
    if log == [] then 0
    else if log[|log| - 1].Begun? then log[|log| - 1].items
    else ItemsSoFar(log[..|log| - 1])
  }

  /** Fault records raised since the last request began. */
  function RecordsSoFar(log: seq<Obs>): seq<FaultRecord> {
    if log == [] then []
    else
      match log[|log| - 1]
      case Begun(_, _) => []
      case Raised(_, _, Event(Response, _, _, _, _, Fault(record))) => RecordsSoFar(log[..|log| - 1]) + [record]
      case _ => RecordsSoFar(log[..|log| - 1])
  }

  /** What one more entry does to them. */
  lemma ReplyLogged(log: seq<Obs>, o: Obs)
    ensures !o.Begun? && !o.Heard? ==>
              ReplySoFar(log + [o]) == ReplySoFar(log) && ItemsSoFar(log + [o]) == ItemsSoFar(log)
    ensures o.Begun? ==> ReplySoFar(log + [o]) == [] && ItemsSoFar(log + [o]) == o.items
    ensures o.Heard? && !(o.id == FAULT_RECORDS && o.data[0] == FRAME_NO_END) ==>
              ReplySoFar(log + [o]) == ReplySoFar(log) + [o.data] && ItemsSoFar(log + [o]) == ItemsSoFar(log)
  {
    assert (log + [o])[..|log|] == log;
  }

  lemma ReplyStep(capacity: nat, host: byte, m: Mon, o: Obs)
    requires Sane(m) && Next(capacity, host, m, o).Some?
    ensures var n := Next(capacity, host, m, o).value;
            && (o.Begun? ==> n.heard == [] && n.items == o.items && n.records == 0)
            && (o.Heard? ==> n.items == m.items && n.records == m.records)
            && (o.Heard? ==> n.heard == m.heard + if o.id == FAULT_RECORDS && o.data[0] == FRAME_NO_END
                                                  then [] else [o.data])
            && (!o.Begun? && !o.Heard? ==> n.heard == m.heard && n.items == m.items)
            && (!o.Begun? && !o.Heard? && !o.Raised? ==> n.records == m.records)
  {
  }

  lemma {:induction false} ReplyIsHeard(capacity: nat, host: byte, log: seq<Obs>)
    requires Watch(capacity, host, log).Some?
    ensures var m := Watch(capacity, host, log).value;
            ReplySoFar(log) == m.heard && ItemsSoFar(log) == m.items
    decreases |log|
  {
    if log != [] {
      ReplyIsHeard(capacity, host, log[..|log| - 1]);
      ReplyStep(capacity, host, Watch(capacity, host, log[..|log| - 1]).value, log[|log| - 1]);
      hide Next;
    }
  }

  /** A paginated response carries exactly what the frames of its own reply say: the unbroken run from the lowest
      counter, the latest payload of each counter, trimmed. */
  lemma {:induction false} ResponseIsWhatWasHeard(capacity: nat, host: byte, log: seq<Obs>, j: nat)
    requires j < |log| && Watch(capacity, host, log).Some?
    requires log[j].Raised? && log[j].event.kind == Response && Paginated(log[j].event.id)
    ensures var (e, heard) := (log[j].event, ReplySoFar(log[..j]));
            && heard != []
            && PagedPayload(e.id, ItemsSoFar(log[..j]), heard) == Some(e.payload)
            && e.frames == |Counters(heard)|
  {
    hide Watch, PagedPayload, ReplySoFar, ItemsSoFar, Counters, RejectionFits, RecordFits;
    var m := At(capacity, host, log, j);
    hide At;
    ReplyIsHeard(capacity, host, log[..j]);
    PagedFinal(capacity, host, m, log[j]);
  }

  lemma PagedFinal(capacity: nat, host: byte, m: Mon, o: Obs)
    requires Sane(m) && Next(capacity, host, m, o).Some?
    requires o.Raised? && o.event.kind == Response && Paginated(o.event.id)
    ensures m.heard != [] && PagedPayload(o.event.id, m.items, m.heard) == Some(o.event.payload)
    ensures o.event.frames == |Counters(m.heard)|
  {
    hide PagedPayload, Counters;
  }

  // ---------------------------------------------------------------------------
  // The fault stream
  // ---------------------------------------------------------------------------

  /** The record bytes of frames 4j to 4j+3. */
  function Four(heard: seq<DataBytes>, j: nat): (bytes: seq<byte>)
    requires 4 * j + 4 <= |heard|
    ensures |bytes| == 28
  {
    ((Body(heard[4 * j]) + Body(heard[4 * j + 1])) + Body(heard[4 * j + 2])) + Body(heard[4 * j + 3])
  }

  lemma TailAt(heard: seq<DataBytes>, k: nat, n: nat)
    requires n <= k < |heard|
    ensures Tail(heard[..k + 1], n + 1) == Tail(heard[..k], n) + Body(heard[k])
  {
    assert heard[..k + 1][..k] == heard[..k];
  }

  lemma TailIsFour(heard: seq<DataBytes>, j: nat)
    requires |heard| == 4 * j + 4
    ensures Tail(heard, 4) == Four(heard, j)
  {
    var k := 4 * j;
    assert Tail(heard[..k], 0) == [];
    hide Tail, Body;
    TailAt(heard, k, 0);
    assert [] + Body(heard[k]) == Body(heard[k]);
    TailAt(heard, k + 1, 1);
    TailAt(heard, k + 2, 2);
    TailAt(heard, k + 3, 3);
    assert heard[..k + 4] == heard;
  }

  /** The records raised so far are those of the frames heard so far, four by four, in order. */
  ghost predicate RecordsFollow(records: seq<FaultRecord>, heard: seq<DataBytes>) {
    4 * |records| <= |heard| &&
    forall j :: 0 <= j < |records| ==> 4 * j + 4 <= |heard| && records[j] == FaultFields(Four(heard, j))
  }

  lemma RecordsFollowMore(records: seq<FaultRecord>, heard: seq<DataBytes>, more: seq<DataBytes>)
    requires RecordsFollow(records, heard)
    ensures RecordsFollow(records, heard + more)
  {
    hide FaultFields, Body;
    forall j | 0 <= j < |records|
      ensures Four(heard + more, j) == Four(heard, j)
    {
    }
  }

  lemma RecordRaised(capacity: nat, host: byte, m: Mon, o: Obs)
    requires Sane(m) && m.busy && m.queue[0].id == FAULT_RECORDS
    requires o.Raised? && Next(capacity, host, m, o).Some?
    ensures var n := Next(capacity, host, m, o).value;
            n.heard == m.heard &&
            if o.event.payload.Fault?
            then n.records == m.records + 1 && |m.heard| == 4 * m.records + 4
                 && o.event == FaultEvent(FAULT_RECORDS, FaultFields(Tail(m.heard, 4)))
            else n.records == m.records
  {
  }

  lemma StaysBusy(capacity: nat, host: byte, m: Mon, o: Obs)
    requires Sane(m) && Next(capacity, host, m, o).Some? && !o.Begun?
    requires Next(capacity, host, m, o).value.busy
    ensures m.busy && Next(capacity, host, m, o).value.queue[0] == m.queue[0]
  {
  }

  /** What the records raised so far and the frames heard so far have to do with each other, if a stream is on. */
  ghost predicate StreamFollows(m: Mon, records: seq<FaultRecord>)
    requires Sane(m)
  {
    m.busy && m.queue[0].id == FAULT_RECORDS ==> |records| == m.records && RecordsFollow(records, m.heard)
  }

  lemma StreamStep(capacity: nat, host: byte, m: Mon, o: Obs, log: seq<Obs>)
    requires Sane(m) && Next(capacity, host, m, o).Some? && log != [] && log[|log| - 1] == o
    requires StreamFollows(m, RecordsSoFar(log[..|log| - 1]))
    ensures StreamFollows(Next(capacity, host, m, o).value, RecordsSoFar(log))
  {
    hide FaultFields, RecordsFollow;
    var n := Next(capacity, host, m, o).value;
    ReplyStep(capacity, host, m, o);
    if n.busy && n.queue[0].id == FAULT_RECORDS {
      if o.Begun? {
        NoRecordsFollow();
      } else {
        StaysBusy(capacity, host, m, o);
        hide Next;
        if o.Raised? {
          RecordRaised(capacity, host, m, o);
          if o.event.payload.Fault? {
            RecordAdded(RecordsSoFar(log[..|log| - 1]), m.heard);
          }
        } else if o.Heard? {
          RecordsFollowMore(RecordsSoFar(log), m.heard, [o.data]);
        }
      }
    }
  }

  lemma NoRecordsFollow()
    ensures RecordsFollow([], [])
  {
  }

  /** In a fault stream the j-th record raised is decoded from the payloads of frames 4j to 4j+3, in arrival order. */
  lemma {:induction false} FaultRecordsFollow(capacity: nat, host: byte, log: seq<Obs>)
    requires Watch(capacity, host, log).Some?
    ensures var m := Watch(capacity, host, log).value;
            m.busy && m.queue[0].id == FAULT_RECORDS ==>
              |RecordsSoFar(log)| == m.records && RecordsFollow(RecordsSoFar(log), m.heard)
    decreases |log|
  {
    hide Next, RecordsFollow;
    if log != [] {
      var init, o := log[..|log| - 1], log[|log| - 1];
      FaultRecordsFollow(capacity, host, init);
      StreamStep(capacity, host, Watch(capacity, host, init).value, o, log);
    }
  }

  lemma RecordAdded(records: seq<FaultRecord>, heard: seq<DataBytes>)
    requires RecordsFollow(records, heard) && |heard| == 4 * |records| + 4
    ensures RecordsFollow(records + [FaultFields(Tail(heard, 4))], heard)
  {
    hide FaultFields, Tail, Four;
    TailIsFour(heard, |records|);
  }
}
