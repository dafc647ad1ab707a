/**
 What the session says first of a frame, of a framing error and of a deadline that
 has passed: the one event each comes to, or the retry.
 */
module Reports {
  import opened Bytes
  import opened Protocol
  import opened Decode
  import opened Session
  import opened Monitor
  import opened Safety
  import opened Histories
  import opened RoundTrip
  import opened FaultStream
  import EndToEnd
  import Framer

  /** Commands answered by numbered pages. */
  predicate Paged(id: byte) {
    id in {0x55, 0x56, 0x57, 0x62, 0x63, 0x6A, 0x95, 0x96}
  }

  /** The request an event is about, if one is in flight, and its own handler. */
  function Told(s: Sess, e: Event): Obs
    requires WF(s)
  {
    if s.awaiting then Raised(Some(HeadTicket(s)), s.queue[0].handler, e) else Raised(None, None, e)
  }

  lemma EmitTells(s: Sess, e: Event, h: Handlers)
    requires WF(s)
    ensures FirstNew(s, Emit(s, e, h)) == Some(Told(s, e))
  {
    EmitAppends(s, e, h);
    hide Emit;
    var l := s.log + [Told(s, e)];
    assert l[|s.log|] == Told(s, e);
  }

  /** Why a frame is turned away, if it is: nothing was asked, it comes from elsewhere, it answers another command, or
      it is numbered above 16. */
  function Objection(s: Sess, f: Message): Option<ErrorCode>
    requires WF(s)
  {
    if !s.awaiting then Some(UnexpectedDataId)
    else if f[1] != s.cfg.bmsAddress then Some(BadSourceAddress)
    else if f[2] != s.queue[0].id then Some(UnexpectedDataId)
    else if Paged(f[2]) && f[4] > 16 then Some(FrameSequence)
    else None
  }

  /** A frame is heard, or reported under its own Data ID with the first objection to it. */
  lemma FrameSays(s: Sess, f: Message, h: Handlers)
    requires WF(s)
    ensures FirstNew(s, OnFrame(s, f, h)) ==
            match Objection(s, f)
            case None => Some(Heard(f[2], f[4..12]))
            case Some(code) => Some(Told(s, Event(ProtocolError, f[2], code, 0, 0, NoPayload)))
  {
    hide Emit, OnReply;
    var id, data := f[2], DataOf(f);
    EmitTells(s, Rejection(id, UnexpectedDataId), h);
    EmitTells(s, Rejection(id, BadSourceAddress), h);
    if s.awaiting && f[1] == s.cfg.bmsAddress && id == s.queue[0].id {
      ReplySays(NoteCounts(s, id, data), id, data, h);
      if Paged(id) {
        assert NoteCounts(s, id, data) == s;
      }
    }
  }

  lemma ReplySays(s: Sess, id: byte, data: DataBytes, h: Handlers)
    requires WF(s) && s.awaiting && s.queue[0].id == id
    ensures FirstNew(s, OnReply(s, id, data, h)) ==
            if Paged(id) && data[0] > 16
            then Some(Told(s, Event(ProtocolError, id, FrameSequence, 0, 0, NoPayload)))
            else Some(Heard(id, data))
  {
    hide Emit, Complete, File, MultiEvent, Appended, DeliverOrWait;
    var heard := Logged(s, Heard(id, data));
    assert heard.log[|s.log|] == Heard(id, data);
    if !MultiframeInfo(id).multi {
      FinalAppends(heard, SingleEvent(s.queue[0], id, data), h);
    } else if MultiframeInfo(id).streaming {
      CompleteAppends(heard);
      DeliverAppends(heard.(xfer := Appended(s.xfer, data)), id, h);
    } else if data[0] > 16 {
      EmitTells(s, Rejection(id, FrameSequence), h);
    } else {
      FinalAppends(FilePage(s, id, data), MultiEvent(FilePage(s, id, data).xfer, id), h);
    }
  }

  lemma DeliverAppends(s: Sess, id: byte, h: Handlers)
    requires WF(s)
    ensures s.log <= DeliverOrWait(s, id, h).log
  {
    hide Emit, DecodeFault, Pump;
    var decoded := DecodeFault(s.xfer.record);
    if decoded.Some? {
      EmitAppends(s, FaultEvent(id, decoded.value), h);
    }
    EndToEnd.PumpAppends(DeliverRecord(s, id, h));
    EndToEnd.PumpAppends(s);
  }

  /** Distinct pages that make the reply to a command for n items whole; 0 when nobody knows. */
  function PagesDue(id: byte, n: byte): nat {
    if id == 0x55 then 3
    else if id in {0x56, 0x57, 0x6A} then 5
    else if id in {0x62, 0x63} then 2
    else if id == 0x95 then (if n > 45 then 16 else (n + 2) / 3)
    else if id == 0x96 then (if n > 14 then 3 else (n + 6) / 7)
    else 0
  }

  lemma PagesDueIsExpected(id: byte, n: byte)
    requires Paged(id)
    ensures ExpectedFrames(id, n) == PagesDue(id, n) && Paginated(id)
  {
  }

  /** A page of the reply in progress makes it whole when that many distinct ones have come, and is answered there and
      then. Otherwise, and always while nobody knows how many are due, it is kept and nothing is raised. */
  lemma PageSays(s: Sess, f: Message, h: Handlers)
    requires Settled(s) && s.awaiting && Paged(f[2]) && WF(s) && Objection(s, f) == None
    ensures var (id, d, r) := (f[2], f[4..12], OnFrame(s, f, h));
            var (heard, due) := (ReplySoFar(s.log) + [d], PagesDue(id, ItemsSoFar(s.log)));
            if due == 0 || |Counters(heard)| < due then
              r.log == s.log + [Heard(id, d)] && r.awaiting && r.queue == s.queue
            else
              var payload := PagedPayload(id, ItemsSoFar(s.log), heard);
              && payload.Some?
              && (s.log + [Heard(id, d)])
                 + [Told(s, Event(Response, id, NoError, 0, |Counters(heard)|, payload.value))] <= r.log
  {
    var id, d := f[2], f[4..12];
    var heard := ReplySoFar(s.log) + [d];
    var payload := PagedPayload(id, ItemsSoFar(s.log), heard);
    assert payload.Some? by { hide Unbroken, ItemsSoFar, ReplySoFar, TrimmedLen, Counters; }
    hide Settled, FilePage, OnFrame, FinishMulti, PagesTrack, PagedPayload, Counters, ExpectedFrames, ReplySoFar,
         ItemsSoFar, Read, PagesDue;
    PagesDueIsExpected(id, ItemsSoFar(s.log));
    PageOutcome(s, f);
    FrameIsPage(s, f, h);
    if AllHeard(id, ItemsSoFar(s.log), heard) {
      ReplyRaised(s, f, h, payload.value);
    }
  }

  /** A framing error is reported under the command in flight, or 0x50 when there is none. */
  lemma ErrorSays(s: Sess, error: Framer.FrameError, h: Handlers)
    requires WF(s)
    ensures var (id, code) := (if s.awaiting then s.queue[0].id else 0x50,
                               if error == Framer.BadChecksum then Checksum else BadLength);
            FirstNew(s, OnFrameError(s, error, h)) == Some(Told(s, Event(ProtocolError, id, code, 0, 0, NoPayload)))
  {
    EmitTells(s, Rejection(if s.awaiting then s.queue[0].id else 0x50,
                           if error == Framer.BadChecksum then Checksum else BadLength), h);
    hide Emit;
  }

  lemma PagesInHand(s: Sess)
    requires Settled(s) && s.awaiting && Paged(s.queue[0].id)
    ensures WF(s)
    ensures var (id, heard) := (s.queue[0].id, ReplySoFar(s.log));
            && s.xfer.framesSeen == |Counters(heard)| && (heard != [] <==> Counters(heard) != {})
            && PagesTrack(s.xfer, MultiframeInfo(id).bytesPerFrame, heard)
            && s.xfer.expectedItems == ItemsSoFar(s.log)
  {
    Remembered(s);
    hide Watch, PagesTrack, AllHeard, ExpectedFrames, ReplySoFar, ItemsSoFar;
  }

  lemma PagesSay(s: Sess, t: Sess, h: Handlers)
    requires Settled(s) && s.awaiting && Paged(s.queue[0].id) && ReplySoFar(s.log) != []
    requires t == s.(now := t.now)
    ensures WF(s)
    ensures var (id, heard) := (s.queue[0].id, ReplySoFar(s.log));
            var payload := PagedPayload(id, ItemsSoFar(s.log), heard);
            && payload.Some?
            && FirstNew(s, OnExpiry(t, h)) ==
                 Some(Told(s, Event(Response, id, NoError, 0, |Counters(heard)|, payload.value)))
  {
    PagesInHand(s);
    hide Settled;
    var (id, heard) := (s.queue[0].id, ReplySoFar(s.log));
    var payload := PagedPayload(id, ItemsSoFar(s.log), heard);
    assert payload.Some? by { hide Unbroken, ItemsSoFar, ReplySoFar, TrimmedLen, Counters, PagesTrack; }
    hide PagedPayload, ItemsSoFar, ReplySoFar, Counters, PagesTrack;
    PageEvent(t.xfer, id, heard, payload.value);
    hide Emit, Complete, MultiEvent;
    FinalIsFirst(t, MultiEvent(t.xfer, id), h);
  }

  lemma NothingSays(s: Sess, h: Handlers)
    requires WF(s) && s.awaiting
    requires var info := MultiframeInfo(s.queue[0].id);
             !info.multi || s.xfer.framesSeen == 0
    ensures var (id, r) := (s.queue[0].id, OnExpiry(s, h));
            if s.retries < s.cfg.maxRetries then
              && r.awaiting && r.queue == s.queue && r.accepted == s.accepted && r.retries == s.retries + 1
              && r.log == s.log + if s.cfg.hasTx
                                  then [Sent(HeadTicket(s), Encode(s.cfg.host, id, s.queue[0].data))] else []
            else
              FirstNew(s, r) == Some(Told(s, Event(Timeout, id, NoError, s.retries, 0, NoPayload)))
  {
    hide Emit, Complete, Encode, MultiEvent, Read;
    assert s.log + [] == s.log;
    FinalIsFirst(s, Event(Timeout, s.queue[0].id, NoError, s.retries, 0, NoPayload), h);
  }

  /** A deadline that has passed. Pages in hand make the response they stand for, and a 0x64 stream is truncated. With
      nothing in hand, a stream of a multiple of 256 frames being nothing, the request is sent again while fewer retries
      are spent than allowed, and then times out, reporting them. */
  lemma ExpirySays(s: Sess, now: nat, h: Handlers)
    requires Settled(s) && s.awaiting && Expired(s.cfg.clock, Read(s.cfg.clock, now), s.deadline)
    ensures WF(s)
    ensures var (id, heard, r) := (s.queue[0].id, ReplySoFar(s.log), Tick(s, now, h));
            if Paged(id) && heard != [] then
              var payload := PagedPayload(id, ItemsSoFar(s.log), heard);
              && payload.Some?
              && FirstNew(s, r) == Some(Told(s, Event(Response, id, NoError, 0, |Counters(heard)|, payload.value)))
            else if id == 0x64 && |heard| % 256 != 0 then
              FirstNew(s, r) == Some(Told(s, Event(ProtocolError, 0x64, Truncated, 0, |heard| % 256, NoPayload)))
            else if s.retries < s.cfg.maxRetries then
              && r.awaiting && r.queue == s.queue && r.accepted == s.accepted && r.retries == s.retries + 1
              && r.log == s.log + if s.cfg.hasTx
                                  then [Sent(HeadTicket(s), Encode(s.cfg.host, id, s.queue[0].data))] else []
            else
              FirstNew(s, r) == Some(Told(s, Event(Timeout, id, NoError, s.retries, 0, NoPayload)))
  {
    var t := s.(now := Read(s.cfg.clock, now));
    var id := s.queue[0].id;
    TickExpires(s, now, h);
    hide Settled, Tick, OnExpiry, PagedPayload, ReplySoFar, ItemsSoFar, Counters, Encode, Expired, Read, PagesTrack,
         RecordsFollow;
    if Paged(id) && ReplySoFar(s.log) != [] {
      PagesSay(s, t, h);
    } else if Paged(id) {
      PagesInHand(s);
      NothingSays(t, h);
    } else if id == 0x64 && |ReplySoFar(s.log)| % 256 != 0 {
      StreamSilence(s, now, h);
    } else {
      if id == 0x64 {
        StreamInProgress(s);
      }
      NothingSays(t, h);
    }
  }

  lemma TickExpires(s: Sess, now: nat, h: Handlers)
    requires Settled(s) && s.awaiting && Expired(s.cfg.clock, Read(s.cfg.clock, now), s.deadline)
    ensures WF(s) && Tick(s, now, h) == OnExpiry(s.(now := Read(s.cfg.clock, now)), h)
  {
    hide OnExpiry, Watched, Tracks;
  }
}
