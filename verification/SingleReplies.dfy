/**
 What single-frame replies come to, byte by byte: the counts they carry for the
 reads queued behind them, and the verdict on a write.
 */
module SingleReplies {
  import opened Bytes
  import opened Protocol
  import opened Decode
  import opened Session
  import opened Histories
  import opened Monitor
  import opened Stuttering
  import Guarantees
  import RoundTrip

  // ---------------------------------------------------------------------------
  // Counts for the read behind
  // ---------------------------------------------------------------------------

  /** The items the next request begins with, given the frame that completes the one before it. */
  function CarriedItems(f: Message, next: byte): byte {
    if next != 0x95 && next != 0x96 then 0
    else if f[2] == 0x94 then (if next == 0x95 then f[4] else f[5])
    else if next == 0x95 then LowSum(f[5], f[6], f[7])
    else LowSum(f[8], f[9], f[10])
  }

  /** The session once a single-frame reply has been answered and its request popped. */
  function Answered(s: Sess, f: Message): (r: Sess)
    requires WF(s) && s.awaiting
    ensures WF(r)
  {
    var id, data := f[2], DataOf(f);
    Retire(Emit(Logged(NoteCounts(s, id, data), Heard(id, data)), SingleEvent(s.queue[0], id, data), QUIET))
  }

  lemma Noted(s: Sess, f: Message)
    requires f[2] == 0x94 || f[2] == 0x51
    ensures NoteCounts(s, f[2], DataOf(f)) ==
            s.(cachedCells := if f[2] == 0x94 then f[4] else LowSum(f[5], f[6], f[7]),
               cachedTemps := if f[2] == 0x94 then f[5] else LowSum(f[8], f[9], f[10]))
  {
  }

  lemma AnsweredThenPumped(s: Sess, f: Message)
    requires WF(s) && s.awaiting
    requires f[1] == s.cfg.bmsAddress && f[2] == s.queue[0].id && (f[2] == 0x94 || f[2] == 0x51)
    ensures OnFrame(s, f, QUIET) == Pump(Answered(s, f))
  {
    SingleHandled(s, f, QUIET);
    hide OnFrame, NoteCounts, Retire, Emit, Pump, SingleEvent, DataOf;
  }

  lemma SingleHandled(s: Sess, f: Message, h: Handlers)
    requires WF(s) && s.awaiting && f[1] == s.cfg.bmsAddress && f[2] == s.queue[0].id && OneFrame(f[2])
    ensures var noted := NoteCounts(s, f[2], DataOf(f));
            && WF(noted) && noted.awaiting
            && noted == s.(cachedCells := noted.cachedCells, cachedTemps := noted.cachedTemps)
            && OnFrame(s, f, h) == HandleSingle(noted, f[2], DataOf(f), h)
  {
    var noted := NoteCounts(s, f[2], DataOf(f));
    assert noted == s.(cachedCells := noted.cachedCells, cachedTemps := noted.cachedTemps);
    assert !MultiframeInfo(f[2]).multi;
    hide NoteCounts, DataOf, HandleSingle, MultiframeInfo, OneFrame;
  }

  lemma StatusAnswered(s: Sess, f: Message)
    requires WF(s) && s.awaiting && (f[2] == 0x94 || f[2] == 0x51)
    ensures var r := Answered(s, f);
            && r.queue == s.queue[1..] && !r.awaiting && r.accepted == s.accepted && s.log <= r.log
            && r.cachedCells == (if f[2] == 0x94 then f[4] else LowSum(f[5], f[6], f[7]))
            && r.cachedTemps == (if f[2] == 0x94 then f[5] else LowSum(f[8], f[9], f[10]))
  {
    var id, data := f[2], DataOf(f);
    Noted(s, f);
    hide NoteCounts, LowSum, Retire, Emit, SingleEvent;
    QuietlyRetired(Logged(NoteCounts(s, id, data), Heard(id, data)), SingleEvent(s.queue[0], id, data));
  }

  lemma QuietlyRetired(s: Sess, e: Event)
    requires WF(s) && s.awaiting
    ensures var r := Retire(Emit(s, e, QUIET));
            && r.queue == s.queue[1..] && !r.awaiting && r.accepted == s.accepted && s.log <= r.log
            && r.cachedCells == s.cachedCells && r.cachedTemps == s.cachedTemps
  {
    QuietEmit(s, e);
    hide Emit;
  }

  lemma PumpBegins(s: Sess)
    requires WF(s) && !s.awaiting && s.queue != []
    ensures var r, items := Pump(s), ItemsWith(s.queue[0], s.cachedCells, s.cachedTemps);
            && r.awaiting && r.queue == s.queue && r.accepted == s.accepted
            && r.xfer.expectedItems == items && s.log + [Begun(HeadTicket(s), items)] <= r.log
  {
    hide ExpectedFrames, Encode, Zeros, Read;
    var b := BeginAwaiting(s.(awaiting := true));
    assert b.log == s.log + [Begun(HeadTicket(s), ItemsWith(s.queue[0], s.cachedCells, s.cachedTemps))];
    hide BeginAwaiting;
  }

  /** A status reply sizes the uncounted read queued behind it, which begins then and there. */
  lemma CountsSizeTheNext(s: Sess, f: Message)
    requires WF(s) && !s.dispatching && s.awaiting && |s.queue| >= 2 && s.queue[1].hint == 0
    requires f[1] == s.cfg.bmsAddress && f[2] == s.queue[0].id && (f[2] == 0x94 || f[2] == 0x51)
    ensures var (r, begun) := (OnFrame(s, f, QUIET), Begun(HeadTicket(s) + 1, CarriedItems(f, s.queue[1].id)));
            && r.awaiting && r.queue == s.queue[1..] && HeadTicket(r) == HeadTicket(s) + 1
            && r.xfer.expectedItems == CarriedItems(f, s.queue[1].id)
            && s.log <= r.log && begun in r.log[|s.log|..]
  {
    hide Answered, OnFrame, Pump, LowSum;
    AnsweredThenPumped(s, f);
    StatusAnswered(s, f);
    PumpBegins(Answered(s, f));
    var begun := Begun(HeadTicket(s) + 1, CarriedItems(f, s.queue[1].id));
    InTail(s.log, Answered(s, f).log, begun, OnFrame(s, f, QUIET).log);
  }

  lemma InTail(log: seq<Obs>, mid: seq<Obs>, o: Obs, more: seq<Obs>)
    requires log <= mid && mid + [o] <= more
    ensures log <= more && o in more[|log|..]
  {
    assert (mid + [o])[|mid|] == o;
    assert more[|log|..][|mid| - |log|] == o;
  }

  // ---------------------------------------------------------------------------
  // The event a single frame makes
  // ---------------------------------------------------------------------------

  /** Commands answered by one frame. */
  predicate OneFrame(id: byte) {
    || 0x50 <= id <= 0x54 || 0x58 <= id <= 0x61 || 0x65 <= id <= 0x69 || 0x70 <= id <= 0x8A
    || 0x90 <= id <= 0x94 || 0x97 <= id <= 0x9A || 0xD8 <= id <= 0xDA
  }

  /** A write is granted exactly when the state echoed is the state asked for; anything else is answered by its
      bytes. */
  function Outcome(req: Request, d: DataBytes): Event {
    if req.id == 0xD9 || req.id == 0xDA then
      var asked, echoed := req.data[0] != 0, d[0] != 0;
      if asked == echoed
      then Event(Response, req.id, NoError, 0, 1, MosControlAck(asked, echoed))
      else Event(ProtocolError, req.id, WriteRejected, 0, 1, MosControlAck(asked, echoed))
    else Event(Response, req.id, NoError, 0, 1, Single(d))
  }

  lemma OutcomeIs(req: Request, d: DataBytes)
    requires OneFrame(req.id)
    ensures SingleEvent(req, req.id, d) == Outcome(req, d)
    ensures !MultiframeInfo(req.id).multi && req.id != FAULT_RECORDS
  {
  }

  /** The reply to a one-frame command raises that event for its own handler at once. */
  lemma FrameRaisesOutcome(s: Sess, f: Message, h: Handlers)
    requires WF(s) && s.awaiting && f[1] == s.cfg.bmsAddress && f[2] == s.queue[0].id && OneFrame(f[2])
    ensures var (req, d) := (s.queue[0], f[4..12]);
            (s.log + [Heard(f[2], d)]) + [Raised(Some(HeadTicket(s)), req.handler, Outcome(req, d))]
              <= OnFrame(s, f, h).log
  {
    var id, d := f[2], DataOf(f);
    OutcomeIs(s.queue[0], d);
    SingleHandled(s, f, h);
    var heard := Logged(NoteCounts(s, id, d), Heard(id, d));
    hide NoteCounts, SingleEvent, Outcome, OnFrame, Emit, Complete, OneFrame, MultiframeInfo;
    RoundTrip.FinalAppends(heard, Outcome(s.queue[0], d), h);
  }

  /** Reports of a frame turned away, and of nothing having come, are no outcome. */
  predicate NoOutcome(e: Event) {
    e.kind == Timeout || e.error in {Checksum, BadLength, BadSourceAddress, UnexpectedDataId, FrameSequence}
  }

  /** In every run: any outcome a one-frame request gets is that of the one frame heard in reply. */
  lemma RunsGiveOutcome(cfg: Config, inputs: seq<(Input, Handlers)>, i: nat, j: nat)
    requires 1 <= cfg.capacity && i < j < |Guarantees.After(cfg, inputs).log|
    requires var log := Guarantees.After(cfg, inputs).log;
             && log[i].Accepted? && OneFrame(log[i].req.id)
             && log[j].Raised? && log[j].owner == Some(log[i].ticket) && !NoOutcome(log[j].event)
    ensures var log := Guarantees.After(cfg, inputs).log;
            && |ReplySoFar(log[..j])| == 1
            && log[j].event == Outcome(log[i].req, ReplySoFar(log[..j])[0])
  {
    hide Guarantees.After, Watch, Outcome, OneFrame, NoOutcome, ReplySoFar, ItemsSoFar;
    var r := Guarantees.After(cfg, inputs);
    var (cap, host) := (r.cfg.capacity, r.cfg.host);
    Guarantees.RunsAreAccepted(cfg, inputs);
    HeadAsAccepted(cap, host, r.log, i, j);
    var m := At(cap, host, r.log, j);
    hide At;
    ReplyIsHeard(cap, host, r.log[..j]);
    AdmittedOutcome(cap, host, m, r.log[j]);
  }

  lemma AdmittedOutcome(capacity: nat, host: byte, m: Mon, o: Obs)
    requires Sane(m) && Next(capacity, host, m, o).Some? && m.queue != [] && OneFrame(m.queue[0].id)
    requires o.Raised? && o.owner.Some? && !NoOutcome(o.event)
    ensures |m.heard| == 1 && o.event == Outcome(m.queue[0], m.heard[0])
  {
    hide PagedPayload, FramesHeard, Counters, HeardFits, Outcome, SingleEvent;
    if |m.heard| == 1 {
      OutcomeIs(m.queue[0], m.heard[0]);
    }
  }
}
