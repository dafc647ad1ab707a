/**
 A device that never answers. With handlers that make no calls, every expired tick
 brings the queue closer to empty, and after a number of them known in advance the
 session is idle with one TIMEOUT raised per request, in order.
 */
module Draining {
  import opened Bytes
  import opened Protocol
  import opened Decode
  import opened Session
  import opened Stuttering

  /** Transmissions each request is given. */
  function Attempts(s: Sess): nat {
    s.cfg.maxRetries + 1
  }

  function Times(n: nat, k: nat): nat {
    n * k
  }

  /** The most expired ticks left before the queue is empty: one per transmission still allowed. */
  function Remaining(s: Sess): int {
    Times(|s.queue|, Attempts(s)) - if s.awaiting then s.retries else 0
  }

  /** Between calls, with nothing of the current reply heard. */
  predicate Waiting(s: Sess) {
    && WF(s) && !s.dispatching
    && (s.awaiting <==> s.queue != [])
    && (s.awaiting ==> s.xfer.framesSeen == 0 && s.retries <= s.cfg.maxRetries)
  }

  predicate TimedOutBy(s: Sess, now: nat) {
    s.awaiting && Expired(s.cfg.clock, Read(s.cfg.clock, now), s.deadline)
  }

  /** What completing the head without handlers comes to. */
  lemma QuietCompletion(s: Sess, e: Event)
    requires WF(s) && s.awaiting && !s.dispatching
    ensures var r := Complete(Emit(s, e, QUIET));
            && r.queue == s.queue[1..] && (r.awaiting <==> r.queue != []) && !r.dispatching
            && (r.awaiting ==> r.retries == 0 && r.xfer.framesSeen == 0)
            && r.cfg == s.cfg && r.accepted == s.accepted
  {
  }

  lemma OneFewer(n: nat, k: nat)
    requires n > 0
    ensures Times(n - 1, k) == Times(n, k) - k && Times(n, k) >= k && Times(0, k) == 0
  {
  }

  /** Every expired tick makes progress, whatever of the reply has been heard. */
  lemma {:induction false} ExpiredTickDecreases(s: Sess, now: nat)
    requires WF(s) && !s.dispatching && s.retries <= s.cfg.maxRetries && TimedOutBy(s, now)
    ensures var r := Tick(s, now, QUIET);
            0 <= Remaining(r) < Remaining(s) && r.cfg == s.cfg && !r.dispatching
    ensures (Tick(s, now, QUIET).awaiting <==> Tick(s, now, QUIET).queue != [])
  {
    hide Emit, Complete, MultiEvent, Times;
    var t := s.(now := Read(s.cfg.clock, now));
    var id := s.queue[0].id;
    var n := |s.queue|;
    OneFewer(n, Attempts(s));
    if n > 1 {
      OneFewer(n - 1, Attempts(s));
    }
    QuietCompletion(t, MultiEvent(t.xfer, id));
    QuietCompletion(t, Event(ProtocolError, id, Truncated, 0, t.xfer.framesSeen, NoPayload));
    QuietCompletion(t, Event(Timeout, id, NoError, t.retries, 0, NoPayload));
  }

  // ---------------------------------------------------------------------------
  // A whole silence
  // ---------------------------------------------------------------------------

  function Silence(s: Sess, ticks: seq<nat>): (r: Sess)
    requires WF(s)
    ensures WF(r)
    decreases |ticks|
  {
    if ticks == [] then s else Silence(Tick(s, ticks[0], QUIET), ticks[1..])
  }

  /** Each tick comes when the deadline then pending has passed. */
  predicate EachExpires(s: Sess, ticks: seq<nat>)
    requires WF(s)
    decreases |ticks|
  {
    ticks == [] || (TimedOutBy(s, ticks[0]) && EachExpires(Tick(s, ticks[0], QUIET), ticks[1..]))
  }

  function TimeoutIn(o: Obs): seq<nat> {
    if o.Raised? && o.owner.Some? && o.event.kind == Timeout then [o.owner.value] else []
  }

  /** The requests that have timed out, in order. */
  function TimedOut(log: seq<Obs>): seq<nat> {
    if log == [] then [] else TimedOut(log[..|log| - 1]) + TimeoutIn(log[|log| - 1])
  }

  function Sends(log: seq<Obs>, t: nat): nat {
    if log == [] then 0
    else
      var o := log[|log| - 1];
      Sends(log[..|log| - 1], t) + if o.Sent? && o.ticket == t then 1 else 0
  }

  function Range(lo: nat, n: nat): seq<nat>
    decreases n
  {
    if n == 0 then [] else [lo] + Range(lo + 1, n - 1)
  }

  lemma Snoc(log: seq<Obs>, o: Obs, t: nat)
    ensures Sends(log + [o], t) == Sends(log, t) + if o.Sent? && o.ticket == t then 1 else 0
    ensures TimedOut(log + [o]) == TimedOut(log) + TimeoutIn(o)
  {
  }

  /** A retry: one more transmission of the head, nothing else. */
  lemma RetryTick(s: Sess, now: nat, t: nat)
    requires Waiting(s) && TimedOutBy(s, now) && s.retries < s.cfg.maxRetries && s.cfg.hasTx
    ensures var r := Tick(s, now, QUIET);
            && Waiting(r) && r.queue == s.queue && r.retries == s.retries + 1 && r.cfg == s.cfg
            && r.accepted == s.accepted && r.awaiting
            && TimedOut(r.log) == TimedOut(s.log)
            && Sends(r.log, t) == Sends(s.log, t) + if t == HeadTicket(s) then 1 else 0
  {
  }

  lemma TimeoutRaised(s: Sess, now: nat, t: nat)
    requires Waiting(s) && TimedOutBy(s, now) && s.retries == s.cfg.maxRetries
    ensures var e := Event(Timeout, s.queue[0].id, NoError, s.retries, 0, NoPayload);
            var a := Emit(s.(now := Read(s.cfg.clock, now)), e, QUIET);
            && Tick(s, now, QUIET) == Complete(a)
            && a == s.(now := Read(s.cfg.clock, now), log := a.log)
            && TimedOut(a.log) == TimedOut(s.log) + [HeadTicket(s)] && Sends(a.log, t) == Sends(s.log, t)
  {
    var a := s.(now := Read(s.cfg.clock, now));
    var e := Event(Timeout, s.queue[0].id, NoError, s.retries, 0, NoPayload);
    QuietEmit(a, e);
    Snoc(s.log, Raised(Owner(a), OwnHandler(a), e), t);
    Snoc(s.log + [Raised(Owner(a), OwnHandler(a), e)], Finished(e), t);
    assert Owner(a) == Some(HeadTicket(s));
    hide Sends, TimedOut, Emit, Complete;
  }

  function BegunNext(s: Sess): Obs
    requires WF(s) && |s.queue| > 1
  {
    Begun(HeadTicket(s) + 1, ItemsFor(s.queue[1], s.cachedCells, s.cachedTemps))
  }

  function SentNext(s: Sess): Obs
    requires WF(s) && |s.queue| > 1
  {
    Sent(HeadTicket(s) + 1, Encode(s.cfg.host, s.queue[1].id, s.queue[1].data))
  }

  lemma CompletionLog(s: Sess)
    requires WF(s) && s.awaiting && s.cfg.hasTx
    ensures var l := s.log + [Retired(HeadTicket(s))];
            Complete(s).log == if |s.queue| > 1 then (l + [BegunNext(s)]) + [SentNext(s)] else l
  {
  }

  lemma CompletionSends(s: Sess, t: nat)
    requires WF(s) && s.awaiting && s.cfg.hasTx
    ensures var r := Complete(s);
            && TimedOut(r.log) == TimedOut(s.log)
            && Sends(r.log, t) == Sends(s.log, t) + if t == HeadTicket(s) + 1 && |s.queue| > 1 then 1 else 0
  {
    hide Sends, TimedOut, Complete;
    var l := s.log + [Retired(HeadTicket(s))];
    CompletionLog(s);
    Snoc(s.log, Retired(HeadTicket(s)), t);
    if |s.queue| > 1 {
      Snoc(l, BegunNext(s), t);
      Snoc(l + [BegunNext(s)], SentNext(s), t);
    }
  }

  /** Out of retries: the head times out and is retired, and the next request is sent for the first time. */
  lemma TimeoutTick(s: Sess, now: nat, t: nat)
    requires Waiting(s) && TimedOutBy(s, now) && s.retries == s.cfg.maxRetries && s.cfg.hasTx
    ensures var r := Tick(s, now, QUIET);
            && Waiting(r) && r.queue == s.queue[1..] && r.cfg == s.cfg && r.accepted == s.accepted
            && (r.awaiting ==> r.retries == 0)
            && TimedOut(r.log) == TimedOut(s.log) + [HeadTicket(s)]
            && Sends(r.log, t) == Sends(s.log, t) + if t == HeadTicket(s) + 1 && |s.queue| > 1 then 1 else 0
  {
    hide Sends, TimedOut, Complete, Emit, Tick;
    TimeoutRaised(s, now, t);
    var e := Event(Timeout, s.queue[0].id, NoError, s.retries, 0, NoPayload);
    var ticked := s.(now := Read(s.cfg.clock, now));
    QuietCompletion(ticked, e);
    CompletionSends(Emit(ticked, e, QUIET), t);
  }

  /** Transmissions still due to request t, of the requests now queued. */
  function Due(s: Sess, t: nat): int
    requires WF(s)
  {
    var lo := HeadTicket(s);
    if t == lo && s.awaiting then s.cfg.maxRetries - s.retries
    else if lo < t < s.accepted then Attempts(s)
    else 0
  }

  /** Silence drains the queue: after exactly the remaining number of expired ticks the session is idle and empty, each
      request has timed out once, in order, and each was transmitted once more than the retry limit in all. */
  lemma {:induction false} SilenceDrains(s: Sess, ticks: seq<nat>, t: nat)
    requires Waiting(s) && s.cfg.hasTx && EachExpires(s, ticks) && |ticks| == Remaining(s)
    ensures var r := Silence(s, ticks);
            && !r.awaiting && r.queue == []
            && TimedOut(r.log) == TimedOut(s.log) + Range(HeadTicket(s), |s.queue|)
            && Sends(r.log, t) == Sends(s.log, t) + Due(s, t)
    decreases |ticks|
  {
    hide Tick, TimedOut, Sends, TimedOutBy, Times;
    if s.awaiting {
      OneFewer(|s.queue|, Attempts(s));
      var r := Tick(s, ticks[0], QUIET);
      if s.retries < s.cfg.maxRetries {
        RetryTick(s, ticks[0], t);
      } else {
        TimeoutTick(s, ticks[0], t);
        RangeCons(TimedOut(s.log), HeadTicket(s), |s.queue|);
      }
      SilenceDrains(r, ticks[1..], t);
    } else {
      OneFewer(1, Attempts(s));
    }
  }

  lemma RangeCons(before: seq<nat>, lo: nat, n: nat)
    requires n > 0
    ensures (before + [lo]) + Range(lo + 1, n - 1) == before + Range(lo, n)
  {
  }
}
