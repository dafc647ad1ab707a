/**
 Readings and texts: what a device means by the bytes of a paginated reply. A
 device that sends its values as numbered pages, the last one padded with
 anything, gets exactly those values across.
 */
module Values {
  import opened Bytes
  import opened Protocol
  import opened Decode
  import opened Session
  import opened Monitor
  import opened Safety
  import opened Histories
  import opened RoundTrip
  import opened EndToEnd

  // ---------------------------------------------------------------------------
  // Pages of bytes
  // ---------------------------------------------------------------------------

  /** The bytes of a reply, cut into n pages. */
  ghost predicate Cut(chunks: seq<seq<byte>>, n: nat, width: nat) {
    |chunks| == n && forall k :: 0 <= k < n ==> |chunks[k]| == width
  }

  lemma {:induction false} FlatAt(chunks: seq<seq<byte>>, width: nat, k: nat, j: nat)
    requires Cut(chunks, |chunks|, width) && k < |chunks| && j < width
    ensures |Flat(chunks)| == Offset(|chunks|, width) && Offset(k, width) + j < |Flat(chunks)|
    ensures Flat(chunks)[Offset(k, width) + j] == chunks[k][j]
    decreases |chunks|
  {
    hide Offset;
    var n := |chunks| - 1;
    NextSlot(n, width);
    if n == 0 {
      NoPages(width);
    } else {
      FlatAt(chunks[..n], width, if k < n then k else 0, j);
    }
  }

  lemma NoPages(width: nat)
    ensures Offset(0, width) == 0
  {
  }

  lemma SixAPage(chunks: seq<seq<byte>>, i: nat)
    requires Cut(chunks, |chunks|, 6) && i < 6 * |chunks|
    ensures |Flat(chunks)| == 6 * |chunks| && Flat(chunks)[i] == chunks[i / 6][i % 6]
  {
    FlatAt(chunks, 6, i / 6, i % 6);
  }

  lemma SevenAPage(chunks: seq<seq<byte>>, i: nat)
    requires Cut(chunks, |chunks|, 7) && i < 7 * |chunks|
    ensures |Flat(chunks)| == 7 * |chunks| && Flat(chunks)[i] == chunks[i / 7][i % 7]
  {
    FlatAt(chunks, 7, i / 7, i % 7);
  }

  /** The pages in any order with any repetitions, the last missing one last. */
  ghost predicate SentLast(pages: seq<DataBytes>, b: nat, chunks: seq<seq<byte>>, width: nat) {
    && width <= 7 && AllPages(pages, b, chunks, width) && pages != []
    && (forall c :: b <= c < b + |chunks| ==> Arrived(pages, c))
    && forall k :: 0 <= k < |pages| - 1 ==> pages[k][0] != pages[|pages| - 1][0]
  }

  lemma SentCovers(pages: seq<DataBytes>, b: nat, chunks: seq<seq<byte>>, width: nat)
    requires SentLast(pages, b, chunks, width)
    ensures Covered(pages, b, |chunks|) && !Covered(pages[..|pages| - 1], b, |chunks|)
  {
    hide Counters;
    forall c | b <= c < b + |chunks|
      ensures c in Counters(pages)
    {
      Numbered(pages, c);
    }
    var n := |pages| - 1;
    assert PageOf(pages[n], b, chunks, width);
    Numbered(pages[..n], pages[n][0]);
  }

  // ---------------------------------------------------------------------------
  // From values to values
  // ---------------------------------------------------------------------------

  /** Nothing in flight or queued, nothing held by the framer, and a way to transmit. */
  ghost predicate Idle(s: Sess) {
    Settled(s) && s.queue == [] && s.cfg.hasTx && s.parser.buf == []
  }

  function Polled(s: Sess, req: Request): (r: Sess)
    requires WF(s)
    ensures WF(r)
  {
    RunOp(s, Poll(req))
  }

  /** The device's frames come in after the poll, with ticks in time, polls and settings between the bytes. */
  ghost predicate Carries(
    s: Sess, req: Request, pages: seq<DataBytes>, inputs: seq<(Input, Handlers)>, last: (Input, Handlers))
    requires WF(s)
  {
    && FromWire(inputs) && NoResets(inputs) && InTime(Polled(s, req), inputs) && last.0.Byte?
    && BytesOf(inputs) + [last.0.b] == Flat(Replies(s.cfg.bmsAddress, req.id, pages))
  }

  /** With the last byte, and not before, the session raises this event for the poll's own handler. */
  ghost predicate Reports(
    s: Sess, req: Request, pages: seq<DataBytes>, inputs: seq<(Input, Handlers)>, last: (Input, Handlers), e: Event)
    requires WF(s) && pages != []
  {
    var asked := Polled(s, req);
    var before := Run(asked, inputs);
    var r := Step(before, last.0, last.1);
    && Listened(asked.log, before.log)
    && (before.log + [Heard(req.id, pages[|pages| - 1])]) + [Raised(Some(s.accepted), req.handler, e)] <= r.log
  }

  lemma EventCarries(id: byte, items: byte, chunks: seq<seq<byte>>, payload: Payload)
    requires Nominal(id, items) <= |Flat(chunks)|
    requires DecodePages(id, Flat(chunks)[..Nominal(id, items)]) == Some(payload)
    ensures ReplyEvent(id, items, chunks) == Event(Response, id, NoError, 0, |chunks|, payload)
  {
    hide Nominal, DecodePages, Flat;
  }

  lemma {:induction false} ReplyComesBack(
    s: Sess, req: Request, pages: seq<DataBytes>, inputs: seq<(Input, Handlers)>, last: (Input, Handlers),
    b: nat, chunks: seq<seq<byte>>, items: byte, payload: Payload)
    requires Idle(s) && IsKnownDataId(req.id) && Paginated(req.id)
    requires items == ItemsFor(req, s.cachedCells, s.cachedTemps)
    requires |chunks| == ExpectedFrames(req.id, items) > 0 && b + |chunks| <= 17
    requires SentLast(pages, b, chunks, MultiframeInfo(req.id).bytesPerFrame)
    requires WF(s) && Carries(s, req, pages, inputs, last)
    requires Nominal(req.id, items) <= |Flat(chunks)|
    requires DecodePages(req.id, Flat(chunks)[..Nominal(req.id, items)]) == Some(payload)
    ensures Reports(s, req, pages, inputs, last, Event(Response, req.id, NoError, 0, |chunks|, payload))
  {
    hide Covered, AllPages, Run, Step, Flat, ReplyEvent, DecodePages, Nominal, Expecting, Replies, ItemsFor,
         ItemsSoFar, InTime, NoResets, FromWire, RunOp, MultiframeInfo, ExpectedFrames, Listened, BytesOf, Settled;
    assert Settled(s) && WF(s);
    PollExpects(s, req, b, chunks);
    SentCovers(pages, b, chunks, MultiframeInfo(req.id).bytesPerFrame);
    EventCarries(req.id, items, chunks, payload);
    ExpectingWaits(Polled(s, req), b, chunks);
    DeviceRoundTrip(Polled(s, req), pages, inputs, last, b, chunks);
  }

  /** Cells: asked for n of them, by hint or by the last count heard, a device that sends the first min(n, 48)
      big-endian, three a page, gets exactly those reported. */
  lemma {:induction false} CellsComeBack(
    s: Sess, req: Request, pages: seq<DataBytes>, inputs: seq<(Input, Handlers)>, last: (Input, Handlers),
    b: nat, chunks: seq<seq<byte>>, mv: seq<uint16>)
    requires Idle(s) && req.id == 0x95
    requires var n := if req.hint != 0 then req.hint else s.cachedCells;
             && 0 < n && Cut(chunks, if n > 45 then 16 else (n + 2) / 3, 6)
             && |mv| == if n > 48 then 48 else n
    requires forall i :: 0 <= i < |mv| ==>
               chunks[i / 3][2 * (i % 3)] == mv[i] / 256 && chunks[i / 3][2 * (i % 3) + 1] == mv[i] % 256
    requires b + |chunks| <= 17 && SentLast(pages, b, chunks, 6) && WF(s) && Carries(s, req, pages, inputs, last)
    ensures Reports(s, req, pages, inputs, last, Event(Response, 0x95, NoError, 0, |chunks|, CellVoltages(mv)))
  {
    var items := ItemsFor(req, s.cachedCells, s.cachedTemps);
    CellsDecode(chunks, mv);
    hide Idle, SentLast, Carries, Reports, Flat;
    ReplyComesBack(s, req, pages, inputs, last, b, chunks, items, CellVoltages(mv));
  }

  lemma CellsDecode(chunks: seq<seq<byte>>, mv: seq<uint16>)
    requires Cut(chunks, |chunks|, 6) && 0 < |mv| <= 48 && |mv| <= 3 * |chunks|
    requires forall i :: 0 <= i < |mv| ==>
               chunks[i / 3][2 * (i % 3)] == mv[i] / 256 && chunks[i / 3][2 * (i % 3) + 1] == mv[i] % 256
    ensures |Flat(chunks)| == 6 * |chunks|
    ensures DecodePages(0x95, Flat(chunks)[..2 * |mv|]) == Some(CellVoltages(mv))
  {
    SixAPage(chunks, 0);
    var s := Flat(chunks)[..2 * |mv|];
    forall i | 0 <= i < |mv|
      ensures Word(s[2 * i], s[2 * i + 1]) == mv[i]
    {
      SixAPage(chunks, 2 * i);
      SixAPage(chunks, 2 * i + 1);
      hide Flat;
    }
    assert Cells(s, |mv|) == mv;
    hide Flat;
  }

  /** Temperatures: asked for n sensors, the first min(n, 21) come back, offset by 40 on the way. */
  lemma {:induction false} SensorsComeBack(
    s: Sess, req: Request, pages: seq<DataBytes>, inputs: seq<(Input, Handlers)>, last: (Input, Handlers),
    b: nat, chunks: seq<seq<byte>>, readings: seq<int>)
    requires Idle(s) && req.id == 0x96
    requires var n := if req.hint != 0 then req.hint else s.cachedTemps;
             && 0 < n && Cut(chunks, if n > 14 then 3 else (n + 6) / 7, 7)
             && |readings| == if n > 21 then 21 else n
    requires forall i :: 0 <= i < |readings| ==> chunks[i / 7][i % 7] == readings[i] + 40
    requires b + |chunks| <= 17 && SentLast(pages, b, chunks, 7) && WF(s) && Carries(s, req, pages, inputs, last)
    ensures Reports(s, req, pages, inputs, last,
                    Event(Response, 0x96, NoError, 0, |chunks|, CellTemperatures(readings)))
  {
    var items := ItemsFor(req, s.cachedCells, s.cachedTemps);
    SensorsDecode(chunks, readings);
    hide Idle, SentLast, Carries, Reports, Flat;
    ReplyComesBack(s, req, pages, inputs, last, b, chunks, items, CellTemperatures(readings));
  }

  lemma SensorsDecode(chunks: seq<seq<byte>>, readings: seq<int>)
    requires Cut(chunks, |chunks|, 7) && 0 < |readings| <= 21 && |readings| <= 7 * |chunks|
    requires forall i :: 0 <= i < |readings| ==> chunks[i / 7][i % 7] == readings[i] + 40
    ensures |Flat(chunks)| == 7 * |chunks|
    ensures DecodePages(0x96, Flat(chunks)[..|readings|]) == Some(CellTemperatures(readings))
  {
    SevenAPage(chunks, 0);
    var s := Flat(chunks)[..|readings|];
    forall i | 0 <= i < |readings|
      ensures s[i] == readings[i] + 40
    {
      SevenAPage(chunks, i);
      hide Flat;
    }
    assert s[..|s|] == s;
    assert Temperatures(s) == readings;
    hide Flat;
  }

  /** Every text comes back whole, character for character and without the padding: 16 characters on three pages for
      0x55, 32 on five for 0x56, 0x57 and 0x6A, and the 14 of a version on two for 0x62 and 0x63. */
  lemma {:induction false} TextComesBack(
    s: Sess, req: Request, pages: seq<DataBytes>, inputs: seq<(Input, Handlers)>, last: (Input, Handlers),
    b: nat, chunks: seq<seq<byte>>, text: seq<byte>)
    requires Idle(s)
    requires || (req.id == 0x55 && Cut(chunks, 3, 7) && |text| == 16)
             || (req.id in {0x56, 0x57, 0x6A} && Cut(chunks, 5, 7) && |text| == 32)
             || (req.id in {0x62, 0x63} && Cut(chunks, 2, 7) && |text| == 14)
    requires forall i :: 0 <= i < |text| ==> chunks[i / 7][i % 7] == text[i]
    requires b + |chunks| <= 17 && SentLast(pages, b, chunks, 7) && WF(s) && Carries(s, req, pages, inputs, last)
    ensures Reports(s, req, pages, inputs, last,
                    Event(Response, req.id, NoError, 0, |chunks|,
                          if req.id in {0x62, 0x63} then Version(text) else Text(text)))
  {
    TextDecodes(req.id, chunks, text);
    hide Idle, SentLast, Carries, Reports, Flat;
    var payload := if req.id in {0x62, 0x63} then Version(text) else Text(text);
    ReplyComesBack(s, req, pages, inputs, last, b, chunks, 0, payload);
  }

  lemma TextDecodes(id: byte, chunks: seq<seq<byte>>, text: seq<byte>)
    requires id in {0x55, 0x56, 0x57, 0x6A, 0x62, 0x63} && 0 < |text| <= 32 && (id in {0x62, 0x63} ==> |text| <= 14)
    requires Cut(chunks, |chunks|, 7) && |text| <= 7 * |chunks|
    requires forall i :: 0 <= i < |text| ==> chunks[i / 7][i % 7] == text[i]
    ensures |Flat(chunks)| == 7 * |chunks|
    ensures DecodePages(id, Flat(chunks)[..|text|]) ==
            Some(if id in {0x62, 0x63} then Version(text) else Text(text))
  {
    SevenAPage(chunks, 0);
    forall i | 0 <= i < |text|
      ensures Flat(chunks)[i] == text[i]
    {
      SevenAPage(chunks, i);
      hide Flat;
    }
    assert Flat(chunks)[..|text|] == text;
    assert text[..|text|] == text;
    hide Flat;
  }
}
