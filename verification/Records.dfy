/**
 Fault records, from the device's side: what 27 bytes stand for, and when the
 record they make is raised.
 */
module Records {
  import opened Bytes
  import opened Protocol
  import opened Decode
  import opened Session
  import opened Monitor
  import opened Safety
  import opened Histories
  import opened RoundTrip
  import opened FaultStream
  import EndToEnd
  import Guarantees

  // ---------------------------------------------------------------------------
  // Bytes of a record
  // ---------------------------------------------------------------------------

  /** The bytes a device sends for v: words high byte first, the current offset by 30000 and kept in 16 bits,
      temperatures offset by 40, years counted from 2000. The last byte is right when it is the low byte of the sum of
      the first 26, or of the first 18. */
  predicate Image(v: FaultRecord, r: seq<byte>)
    requires |r| >= 27
  {
    && r[0] == v.year - 2000 && r[1] == v.month && r[2] == v.day
    && r[3] == v.hour && r[4] == v.minute && r[5] == v.second
    && r[6] == v.recordId && (r[7] == 0 <==> !v.occurred)
    && r[8] == v.totalVoltageDv / 256 && r[9] == v.totalVoltageDv % 256
    && -32768 <= v.currentDa < 32768
    && r[10] == (v.currentDa + 30000) % 65536 / 256 && r[11] == (v.currentDa + 30000) % 65536 % 256
    && r[12] == v.socPm / 256 && r[13] == v.socPm % 256
    && r[14] % 4 == (if v.chargeMosOn then 1 else 0) + (if v.dischargeMosOn then 2 else 0)
    && r[15] == v.highestCellMv / 256 && r[16] == v.highestCellMv % 256 && r[17] == v.highestCellNumber
    && r[18] == v.lowestCellMv / 256 && r[19] == v.lowestCellMv % 256 && r[20] == v.lowestCellNumber
    && r[21] == v.highestTempC + 40 && r[22] == v.highestTempNumber
    && r[23] == v.lowestTempC + 40 && r[24] == v.lowestTempNumber
    && r[25] == v.faultCode
    && (v.checksumOk <==> r[26] == Sum(r[..26]) % 256 || r[26] == Sum(r[..18]) % 256)
  }

  lemma CurrentBack(hi: byte, lo: byte, da: int)
    ensures ToCurrent(Word(hi, lo)) == da <==>
            && -32768 <= da < 32768
            && hi == (da + 30000) % 65536 / 256 && lo == (da + 30000) % 65536 % 256
  {
    NarrowedBack(Word(hi, lo), da);
    hide ToCurrent;
  }

  lemma NarrowedBack(raw: uint16, da: int)
    ensures ToCurrent(raw) == da <==> -32768 <= da < 32768 && raw == (da + 30000) % 65536
  {
  }

  lemma MosBack(b: byte, charge: bool, discharge: bool)
    ensures (b % 2 == 1) == charge && (b / 2 % 2 == 1) == discharge <==>
            b % 4 == (if charge then 1 else 0) + (if discharge then 2 else 0)
  {
  }

  /** A record is decoded to v exactly when its bytes are those of v; one short of 27 bytes to nothing. */
  lemma RecordReadsBack(v: FaultRecord, r: seq<byte>)
    ensures DecodeFault(r) == Some(v) <==> |r| >= 27 && Image(v, r)
  {
    if |r| >= 27 {
      CurrentBack(r[10], r[11], v.currentDa);
      MosBack(r[14], v.chargeMosOn, v.dischargeMosOn);
    }
    hide ToCurrent, Sum;
  }

  // ---------------------------------------------------------------------------
  // When it is raised
  // ---------------------------------------------------------------------------

  /** The bytes of four frames: the last three heard, and one more. */
  function FourFrames(heard: seq<DataBytes>, d: DataBytes): (bytes: seq<byte>)
    requires |heard| >= 3
    ensures |bytes| == 28
  {
    var k := |heard| - 3;
    ((heard[k][1..8] + heard[k + 1][1..8]) + heard[k + 2][1..8]) + d[1..8]
  }

  lemma TailIsThree(heard: seq<DataBytes>, d: DataBytes)
    requires |heard| >= 3
    ensures Tail(heard, 3) + Body(d) == FourFrames(heard, d)
  {
    var k := |heard| - 3;
    assert Tail(heard[..k], 0) == [];
    assert heard[..k + 3] == heard;
    TailAt(heard, k, 0);
    assert [] + Body(heard[k]) == Body(heard[k]);
    TailAt(heard, k + 1, 1);
    TailAt(heard, k + 2, 2);
    hide Tail;
  }

  lemma TailIsFourth(heard: seq<DataBytes>)
    requires |heard| >= 4
    ensures Tail(heard, 4) == FourFrames(heard[..|heard| - 1], heard[|heard| - 1])
  {
    TailIsThree(heard[..|heard| - 1], heard[|heard| - 1]);
    hide FourFrames, Body;
  }

  /** A fault frame that carries record bytes, in a stream of which these have been heard. */
  ghost predicate Continues(s: Sess, f: Message, heard: seq<DataBytes>) {
    && Settled(s) && s.awaiting && s.queue[0].id == 0x64 && heard == ReplySoFar(s.log)
    && f[1] == s.cfg.bmsAddress && f[2] == 0x64 && f[4] != 0xFF
  }

  lemma Held(s: Sess, f: Message, heard: seq<DataBytes>)
    requires Continues(s, f, heard)
    ensures WF(s) && s.awaiting && s.queue[0].id == 0x64 && s.xfer.record == Tail(heard, |heard| % 4)
    ensures f[1] == s.cfg.bmsAddress && f[2] == 0x64 && f[4] != 0xFF
  {
    StreamInProgress(s);
    hide Watched, Tracks, ReplySoFar, RecordsSoFar, RecordsFollow, Tail;
  }

  /** The session with the bytes of the frame appended. */
  function Grown(s: Sess, f: Message): (r: Sess)
    requires WF(s)
    ensures WF(r)
  {
    Logged(s, Heard(0x64, f[4..12])).(xfer := Appended(s.xfer, f[4..12]))
  }

  lemma FrameAppends(s: Sess, f: Message, h: Handlers)
    requires WF(s) && s.awaiting && s.queue[0].id == 0x64 && |s.xfer.record| <= 21
    requires f[1] == s.cfg.bmsAddress && f[2] == 0x64 && f[4] != 0xFF
    ensures OnFrame(s, f, h) == DeliverOrWait(Grown(s, f), 0x64, h)
    ensures Grown(s, f).xfer.record == s.xfer.record + Body(f[4..12])
  {
    hide DeliverOrWait;
    FreshBody(s.xfer.record, f[4..12]);
    hide Fresh, Body;
  }

  lemma FreshBody(record: seq<byte>, d: DataBytes)
    requires |record| <= 21
    ensures Fresh(record, d) == Body(d)
  {
  }

  /** A frame that does not complete a record raises nothing, and the stream goes on. */
  lemma NoRecordYet(s: Sess, f: Message, h: Handlers, heard: seq<DataBytes>)
    requires Continues(s, f, heard) && |heard| % 4 != 3
    ensures WF(s) && var r := OnFrame(s, f, h);
            r.log == s.log + [Heard(0x64, f[4..12])] && r.awaiting && r.queue == s.queue
  {
    Held(s, f, heard);
    hide Continues, OnFrame, Appended, DeliverRecord, Pump, Tail;
    FrameAppends(s, f, h);
  }

  /** Every fourth frame raises the record whose bytes the four carry, there and then, to the request's own handler. */
  lemma FourthFrameRaises(s: Sess, f: Message, h: Handlers, heard: seq<DataBytes>, v: FaultRecord)
    requires |heard| >= 3 && |heard| % 4 == 3 && Image(v, FourFrames(heard, f[4..12])) && Continues(s, f, heard)
    ensures WF(s)
    ensures (s.log + [Heard(0x64, f[4..12])])
            + [Raised(Some(HeadTicket(s)), s.queue[0].handler, Event(Response, 0x64, NoError, 0, 4, Fault(v)))]
            <= OnFrame(s, f, h).log
  {
    hide Continues, FourFrames, Image, OnFrame, Body;
    var d: DataBytes := f[4..12];
    TailIsThree(heard, d);
    hide Tail;
    Held(s, f, heard);
    RecordCompleted(s, f, h, FourFrames(heard, d), v);
  }

  lemma RecordCompleted(s: Sess, f: Message, h: Handlers, record: seq<byte>, v: FaultRecord)
    requires WF(s) && s.awaiting && s.queue[0].id == 0x64 && f[1] == s.cfg.bmsAddress && f[2] == 0x64 && f[4] != 0xFF
    requires |record| == 28 && record == s.xfer.record + Body(f[4..12]) && Image(v, record)
    ensures (s.log + [Heard(0x64, f[4..12])])
            + [Raised(Some(HeadTicket(s)), s.queue[0].handler, Event(Response, 0x64, NoError, 0, 4, Fault(v)))]
            <= OnFrame(s, f, h).log
  {
    hide Image, OnFrame, DeliverOrWait, Appended, DecodeFault;
    FrameAppends(s, f, h);
    RecordReadsBack(v, record);
    RecordGoesOut(Grown(s, f), h, v);
  }

  lemma RecordGoesOut(s: Sess, h: Handlers, v: FaultRecord)
    requires WF(s) && s.awaiting && |s.xfer.record| == 28 && DecodeFault(s.xfer.record) == Some(v)
    ensures s.log
            + [Raised(Some(HeadTicket(s)), s.queue[0].handler, Event(Response, 0x64, NoError, 0, 4, Fault(v)))]
            <= DeliverOrWait(s, 0x64, h).log
  {
    hide Emit, DecodeFault, Pump;
    EmitAppends(s, Event(Response, 0x64, NoError, 0, 4, Fault(v)), h);
    EndToEnd.PumpAppends(DeliverRecord(s, 0x64, h));
  }

  /** The sentinel ends the stream without an event. */
  lemma SentinelRetires(s: Sess, f: Message, h: Handlers)
    requires WF(s) && s.awaiting && s.queue[0].id == 0x64
    requires f[1] == s.cfg.bmsAddress && f[2] == 0x64 && f[4] == 0xFF
    ensures var r := OnFrame(s, f, h);
            && (s.log + [Heard(0x64, f[4..12])]) + [Retired(HeadTicket(s))] <= r.log && r.queue == s.queue[1..]
            && forall k :: |s.log| <= k < |r.log| ==> !r.log[k].Raised?
  {
    var heard := Logged(s, Heard(0x64, f[4..12]));
    assert OnFrame(s, f, h) == Complete(heard) by { hide Complete; }
    var retired := Retire(heard);
    assert retired.log == heard.log + [Retired(HeadTicket(s))] && retired.queue == s.queue[1..];
    hide OnFrame, Retire;
    PumpRaisesNothing(retired);
    hide Pump;
  }

  lemma PumpRaisesNothing(s: Sess)
    requires WF(s)
    ensures var r := Pump(s);
            r.queue == s.queue && s.log <= r.log && forall k :: |s.log| <= k < |r.log| ==> !r.log[k].Raised?
  {
    hide Encode, ExpectedFrames, ItemsFor, Zeros, Read;
  }

  /** In every run a fault record raised is the one whose bytes the last four frames heard carry, and it comes after
      every fourth frame only. */
  lemma RecordsAreWhatWasHeard(cfg: Config, inputs: seq<(Input, Handlers)>, j: nat)
    requires 1 <= cfg.capacity && j < |Guarantees.After(cfg, inputs).log|
    requires var o := Guarantees.After(cfg, inputs).log[j];
             o.Raised? && o.event.kind == Response && o.event.id == 0x64
    ensures var log := Guarantees.After(cfg, inputs).log;
            var (heard, e) := (ReplySoFar(log[..j]), log[j].event);
            && |heard| >= 4 && |heard| % 4 == 0
            && e.payload.Fault? && e == Event(Response, 0x64, NoError, 0, 4, e.payload)
            && Image(e.payload.record, FourFrames(heard[..|heard| - 1], heard[|heard| - 1]))
  {
    hide Guarantees.After, Watch, ReplySoFar, ItemsSoFar;
    var r := Guarantees.After(cfg, inputs);
    Guarantees.RunsAreAccepted(cfg, inputs);
    var m := At(r.cfg.capacity, r.cfg.host, r.log, j);
    hide At;
    ReplyIsHeard(r.cfg.capacity, r.cfg.host, r.log[..j]);
    RecordAdmitted(r.cfg.capacity, r.cfg.host, m, r.log[j]);
  }

  lemma RecordAdmitted(capacity: nat, host: byte, m: Mon, o: Obs)
    requires Sane(m) && Next(capacity, host, m, o).Some? && o.Raised?
    requires o.event.kind == Response && o.event.id == 0x64
    ensures |m.heard| >= 4 && |m.heard| % 4 == 0
    ensures var e := o.event;
            && e.payload.Fault? && e == Event(Response, 0x64, NoError, 0, 4, e.payload)
            && Image(e.payload.record, FourFrames(m.heard[..|m.heard| - 1], m.heard[|m.heard| - 1]))
  {
    hide Next, FaultFields, Image, FourFrames, Tail;
    RecordFitted(capacity, host, m, o);
    TailIsFourth(m.heard);
    RecordReadsBack(FaultFields(Tail(m.heard, 4)), Tail(m.heard, 4));
  }

  lemma RecordFitted(capacity: nat, host: byte, m: Mon, o: Obs)
    requires Sane(m) && Next(capacity, host, m, o).Some? && o.Raised?
    requires o.event.kind == Response && o.event.id == 0x64
    ensures |m.heard| == 4 * (m.records + 1)
    ensures o.event == FaultEvent(0x64, FaultFields(Tail(m.heard, 4)))
  {
    hide PagedPayload, FramesHeard, Counters, HeardFits, FaultFields, Tail;
  }
}
