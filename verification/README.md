# HAIDI BMS driver: a Dafny model

This project models the C++ driver that talks to one HAIDI battery-management
system over a byte stream, and proves what it promises over whole streams and
whole sessions, for every input and for handlers that call back into it.

- **The framer** (`Framer`, `Scan`, `FramerTheorems`). An incremental state
  machine turns chunked bytes into 13-byte frames; `Framer.FrameParser` is the
  object with its in-place compaction. `Scan.ScanFrom` is an independent
  reference: a scan over the positions of the whole stream, with no buffer. The
  two are proved equal, and the theorems are stated about the scan.
- **The session** (`Session`, `HaidiBms`). `Session` gives the effect of every
  operation on the session's state as a function; the class `HaidiBms.HaidiBms`
  has the source's fields (ring buffer, bit mask, fixed arrays, flags, wrapping
  clock) and each of its methods is proved to have exactly that effect.
  Handlers are arbitrary finite scripts of polls, resets and setters, run in the
  middle of a dispatch. A history of what was accepted, begun, sent, heard,
  raised and retired is kept as ghost state.
- **What histories may look like** (`Monitor`, `Safety`, `Histories`). `Monitor`
  is a specification automaton over histories that knows nothing of ring
  buffers, masks, reassembly buffers or clocks. `Safety.RunSettled` proves that
  every run is accepted by it and that the session's buffers and counters are
  what the history says; `Histories` reads the promises off accepted histories.
  `Guarantees` says them of the history of every run.
- **Hard properties with exact side conditions**: `WorkConservation`,
  `ClockRefinement`, `Stuttering`, `Draining`, `RetryBudget`, `FaultStream`,
  `RoundTrip`, `EndToEnd`, which joins framer and session, and `Values`, which
  goes from readings and texts on the device to the same in the event.
- **The protocol's own numbers**. Some theorems say what the driver does in bytes,
  addresses and milliseconds, without the model's own tables and formulas:
  `Protocol.EncodedBytes`, `FramerTheorems.CorruptedNeverEmitted`,
  `SingleReplies`, `Records`, `Partial`, `Values`, `Reports`, `Calls` and
  `Deadlines`.
- **Foundations**: `Bytes`, `Protocol` (codec), `Bits` (mask loops), `Decode`
  (pagination and payload decoding), `Machines`.

The queue capacity is a parameter, at least 1; the source's default is 24. Time,
received bytes and what the handlers do are inputs. What goes to the TX handler
and to the event handlers is recorded in the history.

Where the code and its documentation disagree the model follows the code:

- `include/haidi_frame_parser.hpp:34-38` says every emitted frame has 0x08 in
  byte 3. A candidate promoted by a checksum failure with four or more bytes
  already buffered is never checked for it. `FramerTheorems.LengthFieldExact`
  says exactly when the promise holds, `LengthFieldFromBytes` gives a condition on
  the bytes alone under which it does, and `LengthFieldCounterexample` a stream on
  which it does not.
- `include/haidi_bms.hpp:224` says wraparound is handled. A tick that comes late
  by 2^31 ms or more beyond a whole number of turns of the counter, from none on,
  is taken for early: `ClockRefinement.TickExactly`, `LateTickIgnored`.
- `include/haidi_bms.hpp:170-191` bounds neither timeout. One over 2^31 ms has
  run out as soon as it is set: `Deadlines.ResponseDeadline`, `InterframeDeadline`.
- `include/haidi_bms.hpp:196-198` says that once any frame of a multi-frame reply
  is in, the request is not resent. Frames of a 0x64 stream are counted modulo
  256, so after 256, 512, ... of them silence resends it or times it out:
  `FaultStream.StreamSilence`, and `StreamForgotten` for a session that gets there.
- `include/haidi_event.hpp:197-198` says that on TRUNCATED the event counts the
  fault-stream frames received so far. It reports them modulo 256, so exactly when
  there were fewer than 256 is the count theirs: `FaultStream.StreamSilence`.
- `include/haidi_bms.hpp:80-81` says polls made by a handler go out once dispatch
  finishes. On a rejected frame nothing is pumped afterwards, so a poll made
  while the session is idle stays queued; a queue stranded full stays so until a
  reset: `WorkConservation.StrandedExactly`, `IdleCanHoldWork`,
  `FullStrandReached`, `FullStrandIsForever`.

## Model

| member | source | states |
|---|---|---|
| Protocol.CalcChksum | src/haidi_protocol.cpp:9-17 | the byte accumulator ends at the sum of all of the first twelve bytes modulo 256 |
| Protocol.Encode | src/haidi_protocol.cpp:19-30 | an encoded frame is well formed, and address, Data ID and data can be read back from it |
| Protocol.EncodeFrame | src/haidi_protocol.cpp:19-30 | filling the message array byte by byte gives that frame |
| Protocol.EncodedBytes | src/haidi_protocol.cpp:9-30 | an encoded frame is 0xA5, address, Data ID, 0x08 and the eight data bytes, then the low byte of the sum of those twelve, spelled out byte by byte |
| Protocol.ExtractData | src/haidi_protocol.cpp:43-49 | the copy loop returns the eight data bytes of the frame |
| Framer.FrameParser.constructor | include/haidi_frame_parser.hpp:92-94 | a new parser holds nothing and has discarded nothing |
| Framer.FrameParser.Reset | src/haidi_frame_parser.cpp:9-12 | reset drops the partial frame and zeroes the junk counter |
| Framer.FrameParser.ResyncBuffer | src/haidi_frame_parser.cpp:14-32 | in-place compaction drops the first byte and everything up to the next start flag, counts what it drops modulo 2^32, and restores the invariant |
| Framer.FrameParser.PushByte | src/haidi_frame_parser.cpp:39-77 | one pass of the receive loop has exactly the effect and callbacks of the abstract step |
| Framer.FrameParser.Feed | src/haidi_frame_parser.cpp:34-78 | feeding a buffer is the run of the abstract machine over its bytes; a null buffer is ignored |
| Framer.ChunkIndependence | src/haidi_frame_parser.cpp:34-78 | feeding a ++ b equals feeding a, then b, in state, frames and errors |
| Scan.ItemsInOrder | src/haidi_frame_parser.cpp:39-77 | what the reference scan decides lies in stream order, disjoint, each at a start flag, emitted windows sealed |
| Scan.NoFrameSkipped | src/haidi_frame_parser.cpp:14-32 | no complete frame is passed over unless an emitted window begun strictly earlier covers its start |
| Scan.FramerIsScan | src/haidi_frame_parser.cpp:14-78 | from any state, over any bytes, the incremental framer makes exactly the callbacks of the scan and holds exactly its undecided tail |
| FramerTheorems.GreedyMaximalParse | src/haidi_frame_parser.cpp:14-78 | the emitted frames of a stream are its greedy, leftmost, disjoint, maximal set of windows |
| FramerTheorems.UncheckedWasPromoted | src/haidi_frame_parser.cpp:53-59 | an emitted frame has length field 0x08 or was promoted by a bad checksum after that byte had gone by |
| FramerTheorems.PromotedIsEmitted | src/haidi_frame_parser.cpp:65-76 | conversely a sealed window so promoted is emitted whatever its length field |
| FramerTheorems.LengthFieldExact | include/haidi_frame_parser.hpp:34-38 | every emitted frame carries 0x08 if and only if no window promoted by a bad checksum is sealed around another value |
| FramerTheorems.LengthFieldFromBytes | src/haidi_frame_parser.cpp:53-76 | a condition on the bytes alone, checkable before feeding: if every sealed window that follows a complete unsealed candidate by at most nine bytes, with no start flag between, carries 0x08, so does every emitted frame |
| FramerTheorems.LengthFieldCounterexample | src/haidi_frame_parser.cpp:53-59 | a 17-byte stream from which a frame with length byte 0 is emitted |
| FramerTheorems.AlignedFramesFlow | src/haidi_frame_parser.cpp:34-78 | with nothing held, back-to-back well-formed frames come out one for one, whatever start flags they contain |
| FramerTheorems.EmittedIsSound | src/haidi_frame_parser.cpp:65-76 | from any state, over any bytes, every frame emitted begins with 0xA5 and ends with the low byte of the sum of its first twelve bytes |
| FramerTheorems.CorruptedNeverEmitted | src/haidi_frame_parser.cpp:65-76 | a sound frame with any one byte changed to any other value is never emitted, whatever the state and the bytes around it |
| FramerTheorems.FrameOrError | src/haidi_frame_parser.cpp:39-77 | with nothing held, thirteen bytes from a start flag on are the frame or a checksum error as their sum is right or not, and a fourth byte other than 8 is a length error there and then |
| FramerTheorems.SelfSynchronisation | include/haidi_frame_parser.hpp:40-42 | from any state, of well-formed frames back to back at most the first is lost if it has no inner start flag; nothing is held after it and the rest come out exactly, with no error |
| FramerTheorems.ByteConservation | include/haidi_frame_parser.hpp:71-84 | discarded() is, modulo 2^32, what was held and fed less 13 per frame emitted and less what is held after, and that is never negative |
| FramerTheorems.DiscardedCountsJunk | src/haidi_frame_parser.cpp:19-25 | the junk counter grows, modulo 2^32, by the number of stream positions before the undecided tail that lie in no emitted window |
| Bits.Popcount32 | src/haidi_bms.cpp:22-29 | Kernighan's loop terminates with the number of counters in the mask |
| Bits.LowestFrameNo | src/haidi_bms.cpp:33-40 | the shift loop terminates with the lowest counter in a non-empty mask below 2^17 |
| Bits.ContiguousFrames | src/haidi_bms.cpp:44-50 | the loop terminates with the length of the unbroken run from the base, every shift staying below 32 |
| Bits.LowestIsMinimum | src/haidi_bms.cpp:31-40 | the base found is in the set and no counter of the set lies below it |
| Bits.RunIsMaximal | src/haidi_bms.cpp:42-50 | every counter of the run was seen, and the one after it was not |
| Bits.InsertBit | src/haidi_bms.cpp:354-358 | marking a counter adds it to the set and keeps the mask below 2^17 |
| Decode.CellVoltageFrames | src/haidi_decode.cpp:68 | the fewest three-cell frames that hold the cells, up to sixteen; none for an unknown count |
| Decode.CellTemperatureFrames | src/haidi_decode.cpp:70 | the fewest seven-sensor frames that hold the sensors, up to three; none for an unknown count |
| Decode.DecodeMulti | src/haidi_decode.cpp:279-332 | the copy and conversion loops decode exactly the given bytes of the buffer, each payload capped at its own limit |
| Decode.DecodeFaultRecord | src/haidi_decode.cpp:334-378 | a record of 27 bytes or more is decoded field by field, accepting either reading of its checksum; a shorter one is refused |
| HaidiBms.RingPush | src/haidi_bms.cpp:95-96 | writing one past the newest slot modulo the capacity appends to the queue |
| HaidiBms.RingPop | src/haidi_bms.cpp:174-177 | advancing the head modulo the capacity removes the oldest request |
| HaidiBms.HaidiBms.constructor | src/haidi_bms.cpp:54-55 | a new session is idle, its queue empty, with the default timeouts and retry limit |
| HaidiBms.HaidiBms.Reset | src/haidi_bms.cpp:67-78 | reset empties queue, framer and reassembly state and keeps handlers, timeouts, counts, clock and dispatch flag |
| HaidiBms.HaidiBms.Enqueue | src/haidi_bms.cpp:84-105 | the first refusal that applies, or the request appended and, outside a dispatch, the queue pumped |
| HaidiBms.HaidiBms.Transmit | src/haidi_bms.cpp:125-131 | the head request is encoded and sent, and its deadline is the response timeout from now, modulo 2^32; `Deadlines.ResponseDeadline` says what that does |
| HaidiBms.HaidiBms.BeginAwaiting | src/haidi_bms.cpp:133-156 | reassembly state is cleared and the reply sized by the hint or the latest counts |
| HaidiBms.HaidiBms.Pump | src/haidi_bms.cpp:158-165 | an idle session with work begins and transmits its head; otherwise nothing |
| HaidiBms.HaidiBms.Complete | src/haidi_bms.cpp:167-180 | the head is popped unless a handler reset the session, and the next request begins |
| HaidiBms.HaidiBms.RunScript | include/haidi_bms.hpp:76-84 | a handler's calls, one after the other |
| HaidiBms.HaidiBms.Emit | src/haidi_bms.cpp:182-211 | the owner's handler as it was before dispatch, then the session-wide one if still registered, with transmission held off meanwhile |
| HaidiBms.HaidiBms.OnFrameError | src/haidi_bms.cpp:229-235 | a framing error is reported under the command in flight, or 0x50 when idle, and nothing is pumped |
| HaidiBms.HaidiBms.NoteCounts | src/haidi_bms.cpp:237-248 | a 0x94 reply caches its bytes 0 and 1 as cells and sensors, a 0x51 reply the sums of bytes 1 to 3 and 4 to 6 modulo 256, any other nothing |
| HaidiBms.HaidiBms.OnFrame | src/haidi_bms.cpp:250-294 | unsolicited, misaddressed and mismatched frames are turned away; others are noted and handled by kind |
| HaidiBms.HaidiBms.HandleSingle | src/haidi_bms.cpp:296-327 | a single-frame reply raises its event and completes; `SingleReplies.FrameRaisesOutcome` says which event |
| HaidiBms.HaidiBms.HandleMulti | src/haidi_bms.cpp:329-369 | a page is filed under its own counter; the reply is finished when enough distinct counters are in, else the deadline re-armed |
| HaidiBms.HaidiBms.MarkSeen | src/haidi_bms.cpp:354-358 | the mask gains the counter and the frame count becomes the number of distinct counters |
| HaidiBms.HaidiBms.DecodeAssembly | src/haidi_bms.cpp:379-410 | base, run, trimming and decoding, by mask loops over the buffer, give the payload of the collected bytes |
| HaidiBms.HaidiBms.FinishMulti | src/haidi_bms.cpp:371-414 | the reassembled reply is raised and the request completed |
| HaidiBms.HaidiBms.HandleStream | src/haidi_bms.cpp:416-451 | a fault frame extends the record, a full record goes out, the sentinel completes, and a reset by a handler pumps instead of re-arming |
| HaidiBms.HaidiBms.Tick | src/haidi_bms.cpp:457-462 | the clock is set, and nothing more unless a request is in flight and its deadline has passed by signed difference |
| HaidiBms.HaidiBms.OnExpiry | src/haidi_bms.cpp:464-503 | an expired deadline finishes a partial reply, truncates a stream, retries, or times out |
| HaidiBms.HaidiBms.Feed | src/haidi_bms.cpp:225-227 | feeding a buffer is the run of the session over its bytes, each with its own handlers |
| HaidiBms.HaidiBms.InFlight | include/haidi_bms.hpp:740-742 | the Data ID of the head request exactly when one is in flight, else 0 |
| Safety.CollectedIsUnbroken | src/haidi_bms.cpp:379-407 | the bytes decoded are the latest payloads of the unbroken run from the lowest counter heard in this transaction, trimmed: nothing stale, from a gap, or past the buffer |
| Safety.FileTracks | src/haidi_bms.cpp:349-358 | every slot of the buffer holds the latest payload of its counter, and the frame count is the number of distinct counters |
| Safety.RunSettled | src/haidi_bms.cpp:84-503 | over every run and every handler script the history is accepted by the monitor, and queue, phase, buffers and counters are what that history says |
| Histories.OneAtATimeInOrder | src/haidi_bms.cpp:158-180 | requests begin in acceptance order, and never before the one begun earlier was retired or dropped |
| Histories.NoneSkipped | src/haidi_bms.cpp:167-180 | every request older than the oldest live one was retired, or was there when a reset dropped all |
| Histories.DispatchIsQuiet | src/haidi_bms.cpp:98-103 | while a handler runs nothing is begun, sent, heard, raised or retired |
| Histories.RetiredWasClosed | src/haidi_bms.cpp:182-211 | a retired request had exactly one final event, or none if the sentinel ended its stream |
| Histories.FinalsSoFar | src/haidi_bms.cpp:296-327 | no request ever has two final events, and none before it closes |
| Histories.OverIsOver | src/haidi_bms.cpp:167-180 | a request retired or dropped is never begun, sent or told anything again |
| Histories.SentAsAccepted | src/haidi_bms.cpp:125-131 | every transmission, retries included, encodes the request accepted under that number |
| Histories.RaisedToOwner | src/haidi_bms.cpp:187-203 | an owned event goes to the handler its request was accepted with |
| Safety.QueuedAreKnown | src/haidi_bms.cpp:88-90 | every queued command is a known one |
| Histories.SizedByLatestCounts | src/haidi_bms.cpp:143-155 | an uncounted read is sized when it first goes out, by the most recent 0x94 or 0x51 reply heard by then |
| Histories.ResponseIsWhatWasHeard | src/haidi_bms.cpp:371-414 | a paginated response carries exactly what the frames of its own reply say |
| Histories.FaultRecordsFollow | src/haidi_bms.cpp:416-439 | the j-th record of a stream is decoded from frames 4j to 4j+3 in arrival order |
| Guarantees.RunsAreAccepted | src/haidi_bms.cpp:84-503 | the history of every run from construction is accepted by the specification automaton |
| Guarantees.FirstInFirstOut | src/haidi_bms.cpp:158-180 | in every run requests begin in acceptance order, each after the one before is retired or dropped |
| Guarantees.HandlersOnlyQueueAndDrop | src/haidi_bms.cpp:98-103 | in every run a dispatch sees only requests accepted and dropped |
| Guarantees.OneLastEvent | src/haidi_bms.cpp:182-211 | in every run no request gets two final events |
| Guarantees.RetiredWithLastEvent | src/haidi_bms.cpp:167-180 | in every run a retired request had its final event, or its stream ended by the sentinel |
| Guarantees.OverForGood | src/haidi_bms.cpp:167-180 | in every run a request retired, or accepted and then dropped, is never heard of again |
| Guarantees.AnsweredAsAsked | src/haidi_bms.cpp:125-131 | in every run what is sent for a request is its encoding, and its events go to its own handler |
| Guarantees.UnknownDataIdIsUnreachable | src/haidi_bms.cpp:317-323 | no run raises UNKNOWN_DATA_ID |
| Guarantees.CountsResolvedLate | src/haidi_bms.cpp:143-155 | in every run an open count is filled in at begin from the latest reply that carried counts |
| Guarantees.CachedCounts | src/haidi_bms.cpp:237-248 | in every run the cached counts are those the latest 0x94 or 0x51 reply heard carried, byte by byte |
| Guarantees.NothingFabricated | src/haidi_bms.cpp:371-414 | in every run a paginated response is what the frames of its own reply said |
| FaultStream.StreamInProgress | src/haidi_bms.cpp:425-439 | after k stream frames, floor(k/4) records are out, 7*(k mod 4) bytes are buffered, and the frame count is k mod 256 |
| FaultStream.StreamSilence | src/haidi_bms.cpp:476-502 | a silent stream is TRUNCATED exactly when k is not a multiple of 256; otherwise it is resent or times out |
| FaultStream.StreamForgotten | include/haidi_bms.hpp:196-198 | a new session polled for fault records and answered with any multiple of 256 frames, passive handlers, has raised a quarter as many records, counts no frames, and at its deadline sends the request again or times it out |
| Records.RecordReadsBack | src/haidi_decode.cpp:334-378 | bytes decode to a record if and only if they are the 27 bytes a device sends for it: each field at its offset, words high byte first, current offset by 30000 in 16 bits, temperatures by 40, years from 2000, and the checksum good if and only if it fits either reading |
| Records.NoRecordYet | src/haidi_bms.cpp:416-451 | a stream frame that does not complete a record raises nothing and the stream goes on |
| Records.FourthFrameRaises | src/haidi_bms.cpp:425-439 | every fourth stream frame raises, then and there, the record whose bytes the four carry, with frame count 4, to the request's own handler, whatever handlers do |
| Records.SentinelRetires | src/haidi_bms.cpp:419-423 | a frame numbered 0xFF retires the request without an event |
| Records.RecordsAreWhatWasHeard | src/haidi_bms.cpp:416-439 | in every run a 0x64 response comes after a multiple of four frames and carries the record whose bytes are those of the last four |
| SingleReplies.CountsSizeTheNext | src/haidi_bms.cpp:143-248 | a 0x94 or 0x51 reply completes its request and begins the uncounted read queued behind it with the count at that frame's bytes 4 and 5, or the sums of bytes 5 to 7 and 8 to 10 modulo 256; any other command with none |
| SingleReplies.FrameRaisesOutcome | src/haidi_bms.cpp:296-327 | the frame that answers a one-frame command raises at once, for its own handler, a response with its bytes; for a write, a response if and only if the state echoed is the one asked for, else WRITE_REJECTED, with both in the payload |
| SingleReplies.RunsGiveOutcome | src/haidi_bms.cpp:296-327 | in every run a one-frame command that gets an outcome at all gets that one, from the request as accepted and the one frame heard |
| Reports.FrameSays | src/haidi_bms.cpp:250-347 | a frame is heard, or reported under its own Data ID: nothing asked, wrong address, wrong command, counter above 16, in that order |
| Reports.PageSays | src/haidi_bms.cpp:329-414 | a page accepted is answered there and then if and only if it makes 3, 5 or 2 distinct pages of a text, ceil(n / 3) up to 16 of n cells or ceil(n / 7) up to 3 of n sensors; otherwise, and always while n is unknown, it is kept and nothing is raised |
| Reports.ErrorSays | src/haidi_bms.cpp:229-235 | a framing error is reported to the request in flight under its command, or to nobody's under 0x50 |
| Reports.ExpirySays | src/haidi_bms.cpp:464-503 | what a passed deadline comes to, from the frames heard: pages in hand make their response, a stream of k frames is truncated when k is not a multiple of 256, and otherwise the request is sent again while retries are left, then times out reporting them |
| Calls.PollTaken | src/haidi_bms.cpp:84-93 | a poll changes the session if and only if there is a TX handler, the command is one of the protocol and the queue has room; refused, it is told the first that fails |
| Calls.PollQueues | src/haidi_bms.cpp:95-165 | a poll taken is queued last, and the oldest request goes out at once if and only if nothing is in flight and no event is being dispatched |
| Calls.OwnHandlerFirst | src/haidi_bms.cpp:182-211 | the polls of the request's own handler are queued before those of the session-wide one, each exactly if there is one |
| Calls.SessionWideAfter | src/haidi_bms.cpp:200-205 | a handler that unregisters the session-wide one keeps it from this very event; one that resets the session does not |
| Calls.ResetRenews | src/haidi_bms.cpp:67-78 | over any run and any handlers, what follows a reset, in a dispatch or out of it, is what follows with a new session of the same settings, counts and time |
| Calls.ResponseTimeoutGoverns | include/haidi_bms.hpp:170-178 | the response timeout set is how long the next poll is left alone, to the millisecond |
| Calls.InterframeTimeoutGoverns | include/haidi_bms.hpp:180-191 | the inter-frame timeout set is how long a page that does not complete its reply leaves it alone |
| Calls.RunningDeadlineStays | include/haidi_bms.hpp:173-174 | setting either timeout leaves a deadline already running as it was, to the millisecond |
| Calls.RetryLimitGoverns | include/haidi_bms.hpp:193-204 | a retry limit set in mid-request decides at its next deadline between another transmission and TIMEOUT |
| Calls.SwitchesGovern | src/haidi_bms.cpp:57-65 | without a TX handler no poll is taken, and without an event handler no session-wide call is made |
| Deadlines.ResponseDeadline | src/haidi_bms.cpp:125-131 | after any step in which a request was begun or transmitted, a tick to n, short of half a turn on, only moves the clock if and only if n is less than the response timeout away; on the wrapping clock that is so exactly for timeouts up to 2^31 ms, a longer one having run out at once |
| Deadlines.InterframeDeadline | src/haidi_bms.cpp:365-450 | the same with the inter-frame timeout after a page or fault frame that leaves the request in flight |
| WorkConservation.StrandedExactly | src/haidi_bms.cpp:229-281 | a step leaves an idle session with queued work if and only if it turns a frame away and its handlers' calls leave an accepted poll behind while idle |
| WorkConservation.WorkIsConserved | src/haidi_bms.cpp:98-103 | over any run in which no step does so, an idle session always has an empty queue |
| WorkConservation.IdleCanHoldWork | src/haidi_bms.cpp:256-262 | a handler that polls on an unsolicited frame strands its poll |
| WorkConservation.AcceptedPollRescues | src/haidi_bms.cpp:95-104 | the next accepted poll begins and transmits the stranded head, ahead of itself |
| WorkConservation.OnlyPollOrResetRescues | src/haidi_bms.cpp:158-165 | nothing else that arrives begins a stranded request |
| WorkConservation.FullStrandReached | src/haidi_bms.cpp:256-262 | for every capacity, one unsolicited frame and a handler that polls that often strand a full queue |
| WorkConservation.FullStrandIsForever | src/haidi_bms.cpp:91-93 | a queue stranded full stays as it is over any run without a reset |
| ClockRefinement.ExpiredExactly | src/haidi_bms.cpp:16-20 | the signed-difference test is right if and only if the tick is early, or late by less than 2^31 beyond whole turns |
| ClockRefinement.LateTickMissed | src/haidi_bms.cpp:16-20 | the signed-difference test takes a time 2^31 ms after a deadline for early |
| ClockRefinement.TickExactly | src/haidi_bms.cpp:457-462 | with a request in flight a session on the wrapping clock takes a tick as on the unbounded one if and only if the tick is early, or late by less than 2^31 beyond whole turns |
| ClockRefinement.LateTickIgnored | include/haidi_bms.hpp:224 | a tick 2^31 ms after the deadline of a request in flight only moves the clock |
| ClockRefinement.RunCommutes | src/haidi_bms.cpp:457-503 | on punctual ticks and timeouts up to 2^31 the wrapping session is the unbounded one with its clock fields wrapped, step for step |
| ClockRefinement.WrappingRefinesUnbounded | src/haidi_bms.cpp:457-462 | so from construction on it writes the same history |
| Stuttering.RefusalStutters | src/haidi_bms.cpp:229-281 | with passive handlers a refused frame changes nothing but the history |
| Stuttering.RefusedFramesAreNoise | src/haidi_bms.cpp:340-347 | deleting every refused frame from a run leaves the final session and the rest of its history the same |
| EndToEnd.RefusedBytesAreNoise | src/haidi_bms.cpp:217-281 | the same for runs that mix raw bytes, ticks and calls: of what the bytes unpack to, every refused frame and framing error can be deleted, leaving all but the framer and the reports the same |
| Draining.ExpiredTickDecreases | src/haidi_bms.cpp:457-503 | with passive handlers every expired tick decreases queue length times (retry limit + 1) less retries spent |
| Draining.SilenceDrains | src/haidi_bms.cpp:488-502 | against a silent device, after exactly that many expired ticks the session is idle and empty, one TIMEOUT per request in order, each sent retry limit + 1 times |
| RetryBudget.TransmissionsBounded | src/haidi_bms.cpp:457-503 | with a fixed limit m, whatever arrives and whatever the handlers do otherwise, retries never exceed m and no request is ever transmitted more than m + 1 times |
| RetryBudget.ExpirationsBounded | src/haidi_bms.cpp:488-502 | with a fixed limit m, no request lives through more than m + 1 expired ticks, whatever arrives |
| RetryBudget.ExpiredTicksPaidFor | src/haidi_bms.cpp:141-180 | over any run with a fixed limit m, expired ticks plus those remaining never exceed those remaining before plus m + 1 for each request accepted; where nothing polls, those remaining before |
| Partial.CellsReported | src/haidi_bms.cpp:371-407 | of n consecutive pages from the lowest heard, the next missing, a 0x95 reply reports exactly min(3 * n, 48) cells, no more than a known count, each the big-endian word at its place in the page as last heard |
| Partial.SensorsReported | src/haidi_bms.cpp:371-407 | likewise min(7 * n, 21) sensors for 0x96, each offset by 40 |
| Partial.TextReported | src/haidi_bms.cpp:371-407 | likewise the first min(7 * n, full length) characters of a text, 16, 32 or 14 in full |
| Partial.StretchExists | src/haidi_bms.cpp:31-50 | there are such pages once any has been heard |
| RoundTrip.FullReplyIsNominal | src/haidi_bms.cpp:388-401 | a complete reply of known size is trimmed to its nominal length: min(n, 48) cells, min(n, 21) sensors, or the command's fixed length |
| RoundTrip.CoveredIsCounted | src/haidi_bms.cpp:354-360 | all pages are in exactly when as many distinct counters as pages have been seen |
| RoundTrip.CoveredIsWhole | src/haidi_bms.cpp:374-391 | whatever the base, order and repetitions, a covered reply reads as its pages end to end |
| RoundTrip.ReassemblyRoundTrip | src/haidi_bms.cpp:329-414 | pages in any order, from any base, with repetitions, and between them stray bytes, refused frames, framing errors, ticks in time, polls and settings, raise no reply before the last missing page, and with it one RESPONSE carrying the original payload |
| EndToEnd.InputsAreCallbacks | src/haidi_bms.cpp:217-227 | over any inputs and any handlers, resets included, replacing each byte by the callback the session's framer makes of it leaves all but the framer the same |
| EndToEnd.BytesAreCallbacks | src/haidi_bms.cpp:217-227 | over any mixture of bytes, ticks and calls in which no reset happens, the callbacks of the session's framer are those of the framer running on its own over the bytes |
| EndToEnd.AlignedFramesArrive | src/haidi_bms.cpp:217-227 | with nothing held, feeding back-to-back well-formed frames is delivering them one by one, whatever the handlers do, and nothing is held after |
| EndToEnd.PollExpects | src/haidi_bms.cpp:84-165 | a paginated poll accepted by an idle session is at once on the wire, expecting the frames its count calls for |
| EndToEnd.WireRoundTrip | src/haidi_bms.cpp:225-414 | whatever the framer holds to begin with and whatever noise, ticks in time, polls and settings come between the bytes, the byte that completes the last missing page brings the one RESPONSE, and none before it does |
| EndToEnd.DeviceRoundTrip | src/haidi_bms.cpp:225-414 | a reply cut into pages, each encoded as a frame, and sent in any order to a session with an empty framer comes out as that RESPONSE |
| Values.CellsComeBack | src/haidi_bms.cpp:371-414 | an idle session polls 0x95 for n cells, by hint or by cached count; min(n, 48) words, high byte first, three a page, on ceil(n / 3) pages up to 16, padded with anything, sent in any order from any base with repetitions, are exactly the cells reported, with the last missing page and not before |
| Values.SensorsComeBack | src/haidi_bms.cpp:371-414 | likewise min(n, 21) temperatures for 0x96, offset by 40, seven a page, on ceil(n / 7) pages up to 3 |
| Values.TextComesBack | src/haidi_decode.cpp:72-307 | likewise every text: 16 characters on 3 pages for 0x55, 32 on 5 for 0x56, 0x57 and 0x6A, and the 14 of a version on 2 for 0x62 and 0x63, whole and without the padding |

## Left out

- The 40-odd `poll_*()` and `set_*_mos()` wrappers: one generic request with id, data, hint and handler tag stands for them.
- Field-by-field layouts of single-frame replies (`decode_single`): which ids have a decoder is kept, the payload is the eight raw bytes.
- `to_string()` tables, `as_*()` accessors, alarm-threshold id grid, examples, build files: lookups and plumbing.
- Function pointers and `void*` contexts: handlers are tags, and what they do is a script of calls given with each input.
- Handlers that call `feed()` or `tick()`, and TX handlers that call back into the session: outside the documented contract.
- The C++ union behind payloads and the fixed-size arrays inside them: a datatype with sequences of exactly the valid length.
- Decode.DecodeMulti: builds the payload as a sequence rather than filling a zeroed array, so bytes past its length are not modelled.
- HaidiBms.HaidiBms.Feed: takes the framer's callbacks as a returned list of at most one per byte rather than as calls from inside the framer; the framer's state is settled before either callback, as in the source.
- EndToEnd.DeviceRoundTrip: assumes, as the theorems of `Values` do, a framer holding nothing when the reply begins, which `SelfSynchronisation` provides; `WireRoundTrip` does not.
- RoundTrip.ReassemblyRoundTrip: assumes that neither the caller nor a handler resets the session before the reply is whole, since that abandons it, and that no deadline is missed.
- Stuttering.RefusedFramesAreNoise: assumes handlers that make no calls, as the property itself does.
- Draining.SilenceDrains: assumes handlers that make no calls, a retry limit that stays fixed and a device that never answers; the bounds of `RetryBudget` assume only the fixed limit.
- RetryBudget.TransmissionsBounded: assumes that nobody changes the retry limit during the run.
- The unused bound of `assembly_` in the page copy is kept, though it never cuts a page short.
