/** The 0x64 stream: what the session holds of it, and what silence makes of it. */
module FaultStream {
  import opened Bytes
  import opened Protocol
  import opened Decode
  import opened Session
  import opened Monitor
  import opened Safety
  import opened Histories
  import opened RoundTrip
  import opened Stuttering

  /** After k frames: floor(k/4) records raised, each from its own four frames; the rest buffered; k counted modulo
      256. */
  lemma StreamInProgress(s: Sess)
    requires Settled(s) && s.awaiting && s.queue[0].id == FAULT_RECORDS
    ensures var k := |ReplySoFar(s.log)|;
            && |RecordsSoFar(s.log)| == k / 4 && RecordsFollow(RecordsSoFar(s.log), ReplySoFar(s.log))
            && s.xfer.record == Tail(ReplySoFar(s.log), k % 4) && |s.xfer.record| == 7 * (k % 4)
            && s.xfer.framesSeen == k % 256
  {
    ReplyIsHeard(s.cfg.capacity, s.cfg.host, s.log);
    FaultRecordsFollow(s.cfg.capacity, s.cfg.host, s.log);
    hide Watch, RecordsFollow, ReplySoFar, RecordsSoFar, FaultFields;
  }

  /** The first thing a step adds to the history. */
  function FirstNew(s: Sess, r: Sess): Option<Obs> {
    if |s.log| < |r.log| then Some(r.log[|s.log|]) else None
  }

  lemma FinalIsFirst(s: Sess, e: Event, h: Handlers)
    requires WF(s)
    ensures FirstNew(s, Complete(Emit(s, e, h))) == Some(Raised(Owner(s), OwnHandler(s), e))
  {
    FinalAppends(s, e, h);
    hide Emit, Complete;
    var l := s.log + [Raised(Owner(s), OwnHandler(s), e)];
    assert l[|s.log|] == Raised(Owner(s), OwnHandler(s), e);
  }

  /** How a silent stream ends, or does not: TRUNCATED exactly when the frame count is not a multiple of 256; at a
      multiple, however many frames have come, the request is sent again, or times out once retries are spent. */
  lemma StreamSilence(s: Sess, now: nat, h: Handlers)
    requires Settled(s) && s.awaiting && s.queue[0].id == FAULT_RECORDS
    requires Expired(s.cfg.clock, Read(s.cfg.clock, now), s.deadline)
    ensures var k := |ReplySoFar(s.log)|;
            var (owner, handler) := (Some(HeadTicket(s)), s.queue[0].handler);
            FirstNew(s, Tick(s, now, h)) ==
              if k % 256 != 0 then
                Some(Raised(owner, handler, Event(ProtocolError, FAULT_RECORDS, Truncated, 0, k % 256, NoPayload)))
              else if s.retries >= s.cfg.maxRetries then
                Some(Raised(owner, handler, Event(Timeout, FAULT_RECORDS, NoError, s.retries, 0, NoPayload)))
              else if s.cfg.hasTx then Some(Sent(HeadTicket(s), Encode(s.cfg.host, FAULT_RECORDS, s.queue[0].data)))
              else None
  {
    hide ReplySoFar, Emit, Complete, Encode, Watched, Tracks, Expired;
    StreamInProgress(s);
    var t := s.(now := Read(s.cfg.clock, now));
    assert WF(t) && Tick(s, now, h) == OnExpiry(t, h);
    hide Settled, Tick;
    FinalIsFirst(t, Event(ProtocolError, FAULT_RECORDS, Truncated, 0, t.xfer.framesSeen, NoPayload), h);
    FinalIsFirst(t, Event(Timeout, FAULT_RECORDS, NoError, t.retries, 0, NoPayload), h);
  }

  // ---------------------------------------------------------------------------
  // Long streams happen
  // ---------------------------------------------------------------------------

  /** A fault frame that carries record bytes. */
  predicate StreamFrame(cfg: Config, f: Message) {
    f[1] == cfg.bmsAddress && f[2] == FAULT_RECORDS && DataOf(f)[0] != FRAME_NO_END
  }

  /** In the middle of a fault stream of k frames. */
  ghost predicate Streaming(s: Sess, k: nat) {
    Settled(s) && s.awaiting && s.queue[0].id == FAULT_RECORDS && |ReplySoFar(s.log)| == k
  }

  /** Nothing but the stream has moved. */
  predicate SameRequest(s: Sess, r: Sess) {
    r.cfg == s.cfg && r.queue == s.queue && r.accepted == s.accepted && r.retries == s.retries
  }

  /** A full record buffer, raised and emptied, is no new frame. */
  lemma DeliverStreams(s: Sess)
    requires WF(s) && s.awaiting
    ensures var r := DeliverOrWait(s, FAULT_RECORDS, QUIET);
            r.awaiting && SameRequest(s, r) && ReplySoFar(r.log) == ReplySoFar(s.log)
  {
    hide ReplySoFar, DecodeFault, Emit, Pump;
    var decoded := DecodeFault(s.xfer.record);
    if decoded.Some? {
      var e := FaultEvent(FAULT_RECORDS, decoded.value);
      QuietEmit(s, e);
      ReplyLogged(s.log, Raised(Owner(s), OwnHandler(s), e));
      ReplyLogged(s.log + [Raised(Owner(s), OwnHandler(s), e)], Finished(e));
    }
  }

  lemma FrameStreams(s: Sess, f: Message, k: nat)
    requires Streaming(s, k) && StreamFrame(s.cfg, f)
    ensures Streaming(OnFrame(s, f, QUIET), k + 1) && SameRequest(s, OnFrame(s, f, QUIET))
  {
    hide ReplySoFar, Watched, Tracks, DeliverOrWait, Appended;
    FrameSettled(s, f, QUIET);
    var d := DataOf(f);
    var heard := Logged(s, Heard(FAULT_RECORDS, d));
    assert OnFrame(s, f, QUIET) == DeliverOrWait(heard.(xfer := Appended(s.xfer, d)), FAULT_RECORDS, QUIET);
    hide OnFrame, Settled;
    ReplyLogged(s.log, Heard(FAULT_RECORDS, d));
    DeliverStreams(heard.(xfer := Appended(s.xfer, d)));
  }

  function Delivered(fs: seq<Message>): (inputs: seq<Input>)
    ensures |inputs| == |fs|
  {
    seq(|fs|, k requires 0 <= k < |fs| => Deliver(fs[k]))
  }

  /** With handlers that make no calls, any number of frames keeps the stream going. */
  lemma {:induction false} FramesStream(s: Sess, fs: seq<Message>, k: nat)
    requires Streaming(s, k) && forall j :: 0 <= j < |fs| ==> StreamFrame(s.cfg, fs[j])
    ensures WF(s) && Streaming(QuietRun(s, Delivered(fs)), k + |fs|) && SameRequest(s, QuietRun(s, Delivered(fs)))
    decreases |fs|
  {
    hide Settled, ReplySoFar, StreamFrame, OnFrame;
    assert WF(s) by { StreamIsWF(s, k); }
    if fs != [] {
      var n := |fs| - 1;
      FramesStream(s, fs[..n], k);
      assert Delivered(fs)[..n] == Delivered(fs[..n]);
      FrameStreams(QuietRun(s, Delivered(fs[..n])), fs[n], k + n);
    }
  }

  lemma StreamIsWF(s: Sess, k: nat)
    requires Streaming(s, k)
    ensures WF(s)
  {
  }

  /** A poll for the fault records, made of a new session. */
  lemma PollStreams(cfg: Config, req: Request)
    requires 1 <= cfg.capacity && cfg.hasTx && req.id == FAULT_RECORDS
    ensures var r := RunOp(Init(cfg), Poll(req));
            Streaming(r, 0) && r.cfg == cfg && r.queue == [req] && r.accepted == 1 && r.retries == 0
  {
    var s := Init(cfg);
    InitSettled(cfg);
    CallSettled(s, Poll(req));
    var log := [Accepted(0, req), Begun(0, 0)];
    assert RunOp(s, Poll(req)).log == log + [Sent(0, Encode(cfg.host, req.id, req.data))];
    ReplyLogged(log, Sent(0, Encode(cfg.host, req.id, req.data)));
    ReplyLogged([Accepted(0, req)], Begun(0, 0));
    assert [Accepted(0, req)] + [Begun(0, 0)] == log;
    hide ReplySoFar, Settled, Encode;
  }

  /** So a session gets there: poll a new one for its fault records and answer with a multiple of 256 frames, 256 say.
      When its deadline passes it has forgotten them all: it sends the request again, or times it out. */
  lemma StreamForgotten(cfg: Config, req: Request, fs: seq<Message>)
    requires 1 <= cfg.capacity && cfg.hasTx && req.id == FAULT_RECORDS
    requires |fs| % 256 == 0 && forall j :: 0 <= j < |fs| ==> StreamFrame(cfg, fs[j])
    ensures var s := QuietRun(RunOp(Init(cfg), Poll(req)), Delivered(fs));
            && Streaming(s, |fs|) && |RecordsSoFar(s.log)| == |fs| / 4 && s.xfer.framesSeen == 0
            && FirstNew(s, Tick(s, s.deadline, QUIET)) ==
                 Some(if cfg.maxRetries == 0
                      then Raised(Some(0), req.handler, Event(Timeout, FAULT_RECORDS, NoError, 0, 0, NoPayload))
                      else Sent(0, Encode(cfg.host, FAULT_RECORDS, req.data)))
  {
    hide Settled, ReplySoFar, RecordsSoFar, StreamFrame, Init, RunOp, QuietRun, Encode, Tick;
    PollStreams(cfg, req);
    var polled := RunOp(Init(cfg), Poll(req));
    FramesStream(polled, fs, 0);
    var s := QuietRun(polled, Delivered(fs));
    StreamInProgress(s);
    OnTheDot(s.cfg.clock, s.deadline);
    StreamSilence(s, s.deadline, QUIET);
  }

  lemma OnTheDot(clock: Clock, deadline: nat)
    ensures Expired(clock, Read(clock, deadline), deadline)
  {
    var ago: int := 0 - deadline;
    WrapAdd(deadline, ago);
  }
}
