/**
 What a caller may rely on: the readings of accepted histories, said of the
 history every run writes from construction on, whatever arrives and whatever the
 handlers do.
 */
module Guarantees {
  import opened Bytes
  import opened Protocol
  import opened Decode
  import opened Session
  import opened Monitor
  import opened Safety
  import opened Histories

  function After(cfg: Config, inputs: seq<(Input, Handlers)>): (s: Sess)
    requires 1 <= cfg.capacity
    ensures WF(s)
  {
    Run(Init(cfg), inputs)
  }

  lemma RunsAreAccepted(cfg: Config, inputs: seq<(Input, Handlers)>)
    requires 1 <= cfg.capacity
    ensures var r := After(cfg, inputs);
            Watch(r.cfg.capacity, r.cfg.host, r.log).Some?
  {
    RunSettled(cfg, inputs);
    hide Run, Watch;
  }

  /** Requests begin in acceptance order, one at a time. */
  lemma FirstInFirstOut(cfg: Config, inputs: seq<(Input, Handlers)>, i: nat, j: nat)
    requires 1 <= cfg.capacity && i < j < |After(cfg, inputs).log|
    requires After(cfg, inputs).log[i].Begun? && After(cfg, inputs).log[j].Begun?
    ensures var log := After(cfg, inputs).log;
            log[i].ticket < log[j].ticket && OverWithin(log, i + 1, j, log[i].ticket)
  {
    hide After, Watch, OverWithin;
    var r := After(cfg, inputs);
    RunsAreAccepted(cfg, inputs);
    OneAtATimeInOrder(r.cfg.capacity, r.cfg.host, r.log, i, j);
  }

  /** During a dispatch requests are only accepted or dropped. */
  lemma HandlersOnlyQueueAndDrop(cfg: Config, inputs: seq<(Input, Handlers)>, i: nat, j: nat)
    requires 1 <= cfg.capacity && i < j < |After(cfg, inputs).log| && After(cfg, inputs).log[i].Raised?
    requires forall k :: i < k < j ==> !After(cfg, inputs).log[k].Finished?
    ensures var o := After(cfg, inputs).log[j];
            o.Accepted? || o.Dropped? || o.Finished?
  {
    hide After, Watch, At;
    var r := After(cfg, inputs);
    RunsAreAccepted(cfg, inputs);
    DispatchIsQuiet(r.cfg.capacity, r.cfg.host, r.log, i, j);
  }

  /** No request gets two last events. */
  lemma OneLastEvent(cfg: Config, inputs: seq<(Input, Handlers)>, t: nat)
    requires 1 <= cfg.capacity
    ensures Finals(After(cfg, inputs).log, t) <= 1
  {
    hide After, Watch, Finals;
    var r := After(cfg, inputs);
    RunsAreAccepted(cfg, inputs);
    FinalsSoFar(r.cfg.capacity, r.cfg.host, r.log, t);
  }

  /** A retired request had its last event, unless the sentinel ended its stream. */
  lemma RetiredWithLastEvent(cfg: Config, inputs: seq<(Input, Handlers)>, k: nat)
    requires 1 <= cfg.capacity && k < |After(cfg, inputs).log| && After(cfg, inputs).log[k].Retired?
    ensures var log := After(cfg, inputs).log;
            Finals(log[..k], log[k].ticket) == if EndedBySentinel(log[..k]) then 0 else 1
  {
    hide After, Watch, Finals, EndedBySentinel;
    var r := After(cfg, inputs);
    RunsAreAccepted(cfg, inputs);
    RetiredWasClosed(r.cfg.capacity, r.cfg.host, r.log, k);
  }

  /** A request retired, or accepted and then dropped by a reset, is never begun, sent or told anything again. */
  lemma OverForGood(cfg: Config, inputs: seq<(Input, Handlers)>, i: nat, k: nat, j: nat)
    requires 1 <= cfg.capacity && i < k < j < |After(cfg, inputs).log| && After(cfg, inputs).log[i].Accepted?
    requires var log := After(cfg, inputs).log;
             log[k] == Retired(log[i].ticket) || log[k] == Dropped
    ensures var log := After(cfg, inputs).log;
            !Concerns(log[j], log[i].ticket)
  {
    hide After, Watch, Concerns;
    var r := After(cfg, inputs);
    RunsAreAccepted(cfg, inputs);
    var m := At(r.cfg.capacity, r.cfg.host, r.log, k);
    hide At;
    LiveAsAccepted(r.cfg.capacity, r.cfg.host, r.log[..k], i);
    OverIsOver(r.cfg.capacity, r.cfg.host, r.log, k, j, r.log[i].ticket);
  }

  /** What is sent for a request is the encoding of what was asked, and what is raised for it goes to its own
      handler. */
  lemma AnsweredAsAsked(cfg: Config, inputs: seq<(Input, Handlers)>, i: nat, j: nat)
    requires 1 <= cfg.capacity && i < j < |After(cfg, inputs).log| && After(cfg, inputs).log[i].Accepted?
    ensures var (r, o, a) := (After(cfg, inputs), After(cfg, inputs).log[j], After(cfg, inputs).log[i]);
            && (o.Sent? && o.ticket == a.ticket ==> o.frame == Encode(r.cfg.host, a.req.id, a.req.data))
            && (o.Raised? && o.owner == Some(a.ticket) ==> o.handler == a.req.handler)
  {
    hide After, Watch, Encode;
    var r := After(cfg, inputs);
    RunsAreAccepted(cfg, inputs);
    if r.log[j].Sent? && r.log[j].ticket == r.log[i].ticket {
      SentAsAccepted(r.cfg.capacity, r.cfg.host, r.log, i, j);
    }
    if r.log[j].Raised? && r.log[j].owner == Some(r.log[i].ticket) {
      RaisedToOwner(r.cfg.capacity, r.cfg.host, r.log, i, j);
    }
  }

  /** No event of any run carries UNKNOWN_DATA_ID. */
  lemma UnknownDataIdIsUnreachable(cfg: Config, inputs: seq<(Input, Handlers)>, j: nat)
    requires 1 <= cfg.capacity && j < |After(cfg, inputs).log| && After(cfg, inputs).log[j].Raised?
    ensures After(cfg, inputs).log[j].event.error != UnknownDataId
  {
    hide After, Watch;
    var r := After(cfg, inputs);
    RunsAreAccepted(cfg, inputs);
    NeverUnknown(r.cfg.capacity, r.cfg.host, r.log, j);
  }

  /** A count left open is filled in when the request goes out, from the latest reply that carried counts. */
  lemma CountsResolvedLate(cfg: Config, inputs: seq<(Input, Handlers)>, i: nat, j: nat)
    requires 1 <= cfg.capacity && i < j < |After(cfg, inputs).log| && After(cfg, inputs).log[i].Accepted?
    requires var log := After(cfg, inputs).log;
             log[j].Begun? && log[j].ticket == log[i].ticket
    ensures var log := After(cfg, inputs).log;
            log[j].items == ItemsWith(log[i].req, LatestCounts(log[..j]).0, LatestCounts(log[..j]).1)
  {
    hide After, Watch, LatestCounts, ItemsWith;
    var r := After(cfg, inputs);
    RunsAreAccepted(cfg, inputs);
    SizedByLatestCounts(r.cfg.capacity, r.cfg.host, r.log, i, j);
  }

  /** The counts a session has cached are those of the latest reply that carried any, whatever has happened since. */
  lemma CachedCounts(cfg: Config, inputs: seq<(Input, Handlers)>)
    requires 1 <= cfg.capacity
    ensures var r := After(cfg, inputs);
            LatestCounts(r.log) == (r.cachedCells, r.cachedTemps)
  {
    RunSettled(cfg, inputs);
    var r := After(cfg, inputs);
    hide Run, Watch, LatestCounts, Tracks;
    CountsAreLatest(r.cfg.capacity, r.cfg.host, r.log);
  }

  /** A paginated response is what the frames of its own reply said. */
  lemma NothingFabricated(cfg: Config, inputs: seq<(Input, Handlers)>, j: nat)
    requires 1 <= cfg.capacity && j < |After(cfg, inputs).log| && After(cfg, inputs).log[j].Raised?
    requires var e := After(cfg, inputs).log[j].event;
             e.kind == Response && Paginated(e.id)
    ensures var (log, e) := (After(cfg, inputs).log, After(cfg, inputs).log[j].event);
            && ReplySoFar(log[..j]) != []
            && PagedPayload(e.id, ItemsSoFar(log[..j]), ReplySoFar(log[..j])) == Some(e.payload)
            && e.frames == |Counters(ReplySoFar(log[..j]))|
  {
    hide After, Watch, PagedPayload, ReplySoFar, ItemsSoFar, Counters;
    var r := After(cfg, inputs);
    RunsAreAccepted(cfg, inputs);
    ResponseIsWhatWasHeard(r.cfg.capacity, r.cfg.host, r.log, j);
  }
}
