# Feng RTSP server: a verified model of its core

This project models the parts of the RTSP server that carry its invariants and proves what they
promise, for every input and every run:

- **The buffer queue** (`BufferLog.dfy`, `QueueState.dfy`, `QueueSteps.dfy`, `BufferQueue.dfy`). One
  producer feeds any number of consumers through a queue with serial numbers, generations, seen counts and raw pointers. The
  reference is an append-only log with one cursor per consumer; every public call of the queue is
  shown to be one step of that log, so every interleaving of calls is a run of the log. The order,
  completeness and numbering of what consumers receive are then theorems about the log. List nodes
  have explicit addresses which the allocator may reuse, and following an address requires that it
  is live, so the proofs cover stale pointers.
- **The RTP writer** (`RtpWriter.dfy`). The timer callback on top of the queue: each buffer is handed
  over once and in order, the counters count modulo 2^32, and the first packet after a seek has
  sequence number 1.
- **The sorted-index array** (`SortedArray.dfy`). The stepping search agrees with a scan of the keys,
  and every run of inserts, replacements, lookups and resets agrees with a finite map, computing in
  ints as the code does.
- **The Range header** (`RangeTable.dfy`, `RangeParser.dfy`, `RangePieces.dfy`, `RangeStamps.dfy`). The
  generated automaton with its whole table, its two binary searches and its actions; npt times of any
  length are read exactly, what a PLAY reply prints is read back, and headers of any parts are
  accepted exactly when they name a range and do not say "now".
- **The message handler** (`RequestScanner.dfy`, `RtspHandler.dfy`, `StreamDivision.dfy`,
  `InterleavedFraming.dfy`, `RequestStream.dfy`). The incremental handler loop terminates, although the
  parsers may read behind the end of the input. What it does does not depend on how a stream is
  divided into reads, if and only if no read ends inside a request, as long as the reads fit the input
  buffer. Interleaved packets come through exactly in any pieces, and every whole request comes to
  its one event.
- **The session** (`RtspSession.dfy`, `SessionLaws.dfy`). SETUP, PLAY, PAUSE, TEARDOWN and the writer
  timers as a state machine, with the invariant of all reachable states, the law of the media clock,
  and exactly when a writer runs.
- **PLAY to the first packet** (`PlayDelivery.dfy`). The session, the queues of its tracks and the
  writers together: what the RTP-Info header of a PLAY reply announces.
- **RTCP compounds** (`Rtcp.dfy`). Built reports and the walk over received ones.

Code that updates fields is a class (or a method with a loop) whose contract ties the new state to a
function of the old one; lemmas prove what the source promises about these functions. `Common.Unlock`
keeps some large definitions closed until a proof mentions it.

Findings, where the code does not do all that its design or comments promise:

- A PLAY without a Range header while the session already plays restarts the clock base without
  moving the recorded begin, so the time played so far in that interval is forgotten
  (`ReplayLosesTime`); the recorded begin is exact if and only if this never happens (`ClockLaw`).
- On a resource that cannot seek, a Range header is refused only if its begin is not zero *and* it has
  an end, while the comment promises that anything but "0-" is refused (`LiveRangeRule`,
  `LiveAcceptsOffset`).
- An interleaved packet is described rightly if and only if its payload is shorter than 65536 bytes
  (`PacketDescribedIff`), and comes through the read buffer if and only if it has at most 4996 bytes
  (`PacketReceivedIff`); with more than one packet the division into reads matters (`AnyDivision`,
  `DivisionMatters`).
- The generated parsers never test for the end of the input. A request that a read cuts, even between
  its line and its headers, is continued with whatever lies behind the input in memory: it may be
  rejected, or taken with bytes that were never received (`DivisionIff`, `CutHeadersRejected`,
  `CutOptionsRejected`). Only requests that are whole at the end of a read are safe (`AnyDivision`).
- A request line with an unsupported method changes the status without a pending request, so that
  the next read follows a null pointer (`WellFormedIff`, `CrashIff`, `UnsupportedCrashes`).
- The guard of the sorted array against more than INT_MAX entries comes too late: above 2^30 entries
  the search can leave the range of an int (`SearchFitsIff`, `LargeArrayOverflows`).
- RTP-Info announces sequence number 1 for every PLAY. That is so after a PLAY that seeks
  (`PlayAnnouncesOne`, `SeeksIff`), and otherwise if and only if the session is at the start of a generation
  of its queue or the queue runs empty first (`NumberedOneIff`, `NumberedTwo`).
- A time that is given up in a Range header stays in the sum and is added to the next one, unless its
  value is zero (`LastTimeIff`, `AbortedTimeLeaks`).
- A "time=" stamp is not taken in October, or in front of other parts (`OctoberIgnored`,
  `StampDropped`).
- Receiver reports are read without checking that their blocks fit (`ReadInsideIff`,
  `ReportReadsBehind`), and the blocks of a sender report are looked for behind its source, where its
  sender information is.
- `bq_consumer_unseen` is exact only while a buffer is held (`UnseenOverReports`).

## Model

| member | source | states |
|---|---|---|
| BufferLog.Floor | bufferqueue.c:560-570 | what is retained begins at the least position of any consumer |
| BufferLog.StepKeepsValid | bufferqueue.c:417-685 | every call keeps the log valid: all cursors between the oldest retained entry and the end, and while there are consumers one of them stands at the oldest |
| BufferLog.EntriesAdded | bufferqueue.c:417-436 | a put adds exactly its buffer at the end; nothing else adds or changes one |
| BufferLog.DiscardedOnlyThen | bufferqueue.c:487-513 | only a move, a leave or a reset discards buffers or starts a new numbering, and exactly as much as the remaining consumers have passed |
| BufferLog.OthersStay | bufferqueue.c:417-685 | no call but a reset touches the place of another consumer |
| BufferLog.OwnCursor | bufferqueue.c:451-635 | where a join, a get, a move, a leave and a reset put a consumer |
| BufferLog.AnswersGiven | bufferqueue.c:738-820 | what a get and a move answer, with the number counted from the start of the generation |
| BufferLog.JoinReadsOldest | bufferqueue.c:451-479 | a consumer that joins reads the oldest retained buffer first, and nobody else notices |
| BufferLog.FirstJoinLosesNothing | bufferqueue.c:592-625 | the first consumer of a queue that was fed before it came gets everything from the first buffer on, with number 1 |
| BufferLog.LeaveAfterMove | bufferqueue.c:673-679 | the moves that a leaving consumer makes change nothing for the others; a move past a held buffer advances by one |
| BufferLog.DeliveryInOrder | bufferqueue.c:581-635 | over any interleaving, with resets, a consumer passes buffers in strictly increasing put order, none twice |
| BufferLog.DeliveryWithoutGaps | bufferqueue.c:505-510 | without a reset the buffers passed are consecutive entries of the log, across generation changes |
| BufferLog.ReadingIsNext | bufferqueue.c:782-820 | a read gives the entry after those passed so far, with its sequence number, or nothing if it has not been put |
| BufferLog.StartStays | bufferqueue.c:487-513 | while a consumer passes nothing, nobody can take away its place at the start of a generation, and it gets to such a place only when the queue runs empty |
| BufferLog.NumberedOneIff | bufferqueue.c:505-510 | over any run in which a consumer passes nothing, the next buffer it reads has sequence number 1 if and only if it was at the start of a generation or the queue was empty at some moment |
| BufferLog.NumberKnown | bufferqueue.c:782-820 | what a consumer can read now is, without a reset, what it reads later, number included |
| BufferLog.NumberedTwo | rtsp_method_play.c:80-81 | a run from the creation of the queue after which the next buffer has number 2 although RTP-Info says 1 |
| BufferLog.FirstAfterReset | bufferqueue.c:278-295 | after a reset the first buffer that a consumer reads has sequence number 1, whatever the others do and however often it asked in vain |
| QueueSteps.PointerIsCurrent | bufferqueue.c:208-235 | a pointer of the current generation refers to a live buffer whose serial is the one remembered, never behind the head: the second staleness test never fires |
| QueueState.SomebodyAtHead | bufferqueue.c:560-570 | while there are consumers, one of them has not passed the head |
| QueueState.MarkCounts | bufferqueue.c:544-561 | the holder of a buffer is not counted yet, and the last consumer missing on a buffer is at the head |
| QueueState.MarkSeen | bufferqueue.c:560-561 | after the increment each seen count is again the number of consumers that passed the buffer |
| QueueState.PopKeepsInv | bufferqueue.c:487-513 | destroying a fully seen head leaves no other fully seen buffer, and an emptied queue starts a new generation with everybody behind |
| QueueSteps.CanAlwaysMove | bufferqueue.c:499-544 | in every valid state the assertions about the seen count and about the head hold |
| QueueState.UnrefRefines | bufferqueue.c:524-571 | letting go of a buffer keeps the whole invariant and is one entry of the log |
| QueueSteps.QueuedBuffers | bufferqueue.c:417-635 | serials are consecutive and end before the next one; seen is the number of consumers that passed, never increases towards the tail, and stays below the number of consumers |
| QueueSteps.PassedAllIsCounted | bufferqueue.c:637-677 | once a consumer has passed everything, every remaining seen count is at least 1 |
| QueueSteps.UnseenOverReports | bufferqueue.c:698-722 | the reported number exceeds the buffers still to pass by 0 when one is held, by 1 past the end, by the serial of the head before the first read of a generation; the empty-queue branch is unreachable |
| QueueSteps.PutStep | bufferqueue.c:417-436 | a put is a put on the log |
| QueueSteps.ResetStep | bufferqueue.c:278-295 | a reset makes everybody's pointers stale and is a reset of the log |
| QueueSteps.JoinStep | bufferqueue.c:451-479 | a new consumer starts at the oldest retained buffer |
| QueueSteps.MoveStep | bufferqueue.c:581-635 | a move is a move on the log, for stale, waiting and holding consumers alike |
| QueueSteps.GetStep | bufferqueue.c:782-820 | a get selects and returns the next unpassed entry with its serial |
| QueueSteps.LeaveStep | bufferqueue.c:651-685 | a consumer that passed everything can be removed without underflow, and only the others are counted afterwards |
| BufferQueue.Producer.constructor | bufferqueue.c:330-343 | a new queue is the empty log |
| BufferQueue.Producer.Put | bufferqueue.c:417-436 | appends the buffer with the next serial, unseen; the serial counter must not wrap |
| BufferQueue.Producer.ResetQueue | bufferqueue.c:309-322 | empties the queue and starts a new generation at serial 1 |
| BufferQueue.Producer.NewConsumer | bufferqueue.c:451-479 | registers a consumer that has seen nothing |
| BufferQueue.Producer.ConfirmPointer | bufferqueue.c:208-235 | keeps exactly the pointers of the current generation |
| BufferQueue.Producer.DestroyHead | bufferqueue.c:487-513 | removes the head; an emptied queue gets a new generation and serial 1 |
| BufferQueue.Producer.ElemUnref | bufferqueue.c:524-571 | drops the pointer, counts the consumer, destroys the buffer if it was the last |
| BufferQueue.Producer.FindUnseen | bufferqueue.c:615-624 | the scan finds the first buffer not passed |
| BufferQueue.Producer.Release | bufferqueue.c:592-625 | lets go of the current buffer and finds the next one in each of the three cases |
| BufferQueue.Producer.SelectPointer | bufferqueue.c:628-632 | remembers serial and generation of the selected buffer |
| BufferQueue.Producer.MoveInternal | bufferqueue.c:581-635 | the whole move, and whether a buffer is held afterwards |
| BufferQueue.Producer.Move | bufferqueue.c:738-761 | one move of the log, answering whether there is a next buffer |
| BufferQueue.Producer.ReadHeld | bufferqueue.c:806-815 | reads the buffer that the consumer points at, which is live |
| BufferQueue.Producer.ReadNext | bufferqueue.c:799-815 | a consumer that points at nothing moves to the first buffer not passed and reads it |
| BufferQueue.Producer.GetInternal | bufferqueue.c:799-815 | selects if nothing is held and reads the selected buffer |
| BufferQueue.Producer.Get | bufferqueue.c:782-820 | one get of the log |
| BufferQueue.Producer.DecrementSeen | bufferqueue.c:637-641 | every count goes down by one, none underflows |
| BufferQueue.Producer.Unregister | bufferqueue.c:675-679 | the counts and the number of consumers go down together |
| BufferQueue.Producer.MovePastAll | bufferqueue.c:673-673 | the loop terminates with everything passed, invisibly to the others |
| BufferQueue.Producer.FreeConsumer | bufferqueue.c:651-685 | removes the consumer's whole effect: the log of the remaining consumers |
| BufferQueue.Producer.CountUnseen | bufferqueue.c:698-722 | never fewer than the buffers still to pass, exact while one is held |
| BufferQueue.Perform | bufferqueue.c:417-820 | each public call is one step of the log with the log's answer |
| BufferQueue.Execute | bufferqueue.c:417-820 | every sequence of calls by any consumers runs as the log does, with its answers, up to a call that the program may not make |
| BufferQueue.ExecuteFromStart | bufferqueue.c:330-343 | the same from the creation of the queue |
| BufferQueue.NotAllowedIff | bufferqueue.c:430-430 | the only calls that a run stops at: a put when the counter would wrap or at an address in use, and calls with wrong handles |
| RtpWriter.CountSending | rtp.c:258-262 | a packet the transport took adds one packet and its size to what the counters must show, any other packet nothing |
| RtpWriter.RtpSession.PacketSend | rtp.c:233-266 | in every state the packet and octet counts are the number and total size of the sendings that succeeded, modulo 2^32; the last timestamp is that of the last such packet |
| RtpWriter.WriteCallback | rtp.c:308-371 | hands over exactly the next buffer, if there is one, and moves past it even when sending fails and whatever others do to the queue in between; otherwise it keeps its place; at the end of the resource the timer is not armed again |
| RtpWriter.MoveOn | rtp.c:338-347 | after a successful move there is a next buffer to look at, whatever others do between the two calls |
| RtpWriter.Meanwhile | bufferqueue.c:738-820 | calls of others between two calls of a callback leave the session where it is |
| RtpWriter.PerformOther | bufferqueue.c:581-635 | calls made for others leave a session where it is |
| RtpWriter.StreamTick | rtp.c:308-371 | one callback or one foreign call keeps what was handed over equal to the passed part of the log |
| RtpWriter.Stream | rtp.c:275-371 | over any run of callbacks and foreign calls without a reset, the buffers handed over are the consecutive entries of the log, each once, across underruns |
| RtpWriter.SeekTracks | resource.c:393-423 | a seek resets the queue of every track that has one |
| RtpWriter.FirstPacketAfterSeek | rtsp_method_play.c:54-80 | after a seek the first packet of a session has sequence number 1, as RTP-Info announces, over any sequence of firings, empty or not, and any use of the queue by others |
| RtpWriter.FirstPacketFromStart | rtp.c:308-371 | the same for any session at the start of a generation of its queue |
| RtpWriter.StartTick | rtp.c:308-328 | a firing that finds nothing keeps the session at the start of its generation |
| SortedArray.SplitExists | conf.rem/array.c:111-144 | in a sorted index there is one place before which all keys are smaller and from which none is; the key is there or nowhere |
| SortedArray.ComparisonTells | conf.rem/array.c:126-136 | one comparison tells on which side of the probed position the place is |
| SortedArray.Start | conf.rem/array.c:118-118 | the first probe is close enough for any power of two not below the number of entries |
| SortedArray.Step | conf.rem/array.c:121-138 | stepping and halving keep the place strictly within twice the next step |
| SortedArray.Finish | conf.rem/array.c:138-143 | at step zero the probe is at the key, or at the insertion point or one before |
| SortedArray.Bounds | conf.rem/array.c:113-123 | probes stay between minus and plus the power of two |
| SortedArray.StepFits | conf.rem/array.c:121-138 | every step of the search stays within the range of an int while at most 2^30 keys are smaller |
| SortedArray.SearchFitsIff | conf.rem/array.c:118-139 | all positions that the loop computes fit an int if and only if at most 2^30 keys are smaller than the one looked for |
| SortedArray.LargeArrayOverflows | conf.rem/array.c:194-199 | arrays of more than 2^30 entries pass the guard against INT_MAX, and the search for a larger key overflows |
| SortedArray.DoublingFits | conf.rem/array.c:194-235 | within the guard the power of two never exceeds 2^31 |
| SortedArray.CorrectedPlace | conf.rem/array.c:221-225 | one more comparison turns the miss position into the insertion point |
| SortedArray.InsertSorts | conf.rem/array.c:227-233 | the new index keeps the permutation strictly ordered and complete |
| SortedArray.InsertIndexed | conf.rem/array.c:227-235 | and the power of two stays one, and not below the number of entries |
| SortedArray.DistinctKeys | conf.rem/array.c:183-192 | no key occurs twice |
| SortedArray.ModelsReplace | conf.rem/array.c:166-168 | overwriting an entry is an update of the map |
| SortedArray.ModelsAppend | conf.rem/array.c:217-219 | adding an entry with a new key is an addition to the map |
| SortedArray.Index.constructor | conf.rem/array.c:39-48 | a new array is the empty map |
| SortedArray.Index.GetIndex | conf.rem/array.c:111-144 | finds a key exactly when a scan of the keys does; on a miss the position is the insertion point or one less |
| SortedArray.Index.Search | conf.rem/array.c:118-139 | the loop, computing in ints, ends at the key, or at its place or one before |
| SortedArray.Index.SafeIff | conf.rem/array.c:118-139 | the condition under which a key may be looked for is exactly that its search does not overflow |
| SortedArray.Index.GetElement | conf.rem/array.c:146-156 | map lookup |
| SortedArray.Index.SetEntry | conf.rem/array.c:166-167 | replaces the entry in place without touching the index |
| SortedArray.Index.Grow | conf.rem/array.c:201-215 | makes room without changing the contents |
| SortedArray.Index.Store | conf.rem/array.c:217-219 | puts the entry behind the others |
| SortedArray.Index.Place | conf.rem/array.c:221-225 | the exact insertion point |
| SortedArray.Index.InsertAt | conf.rem/array.c:227-233 | shifts the tail of the index by one and fills the gap |
| SortedArray.Index.Append | conf.rem/array.c:194-237 | a missing key is added to the map |
| SortedArray.Index.InsertUnique | conf.rem/array.c:172-238 | a new key is added with its entry, a taken key of the same type gets the old value merged with the new one, one of another type keeps its entry, a full array refuses; no other key changes |
| SortedArray.Index.Replace | conf.rem/array.c:159-170 | the key has the new entry and the old one is returned; no other key changes |
| SortedArray.Index.Reset | conf.rem/array.c:86-97 | the empty map, with the power of two kept |
| SortedArray.Perform | conf.rem/array.c:86-238 | each operation has the effect and the answer of the map |
| SortedArray.Execute | conf.rem/array.c:86-238 | every run of operations on a new array gives the state and the answers of a finite map, up to a search that would overflow, which needs more than 2^30 entries |
| SortedArray.InsertThenLookup | conf.rem/array.c:183-191 | what a lookup of any key gives after any operations and an insert |
| SortedArray.ReplaceThenLookup | conf.rem/array.c:159-170 | and after a replacement, with what that returns |
| SortedArray.LookupAndReset | conf.rem/array.c:86-97 | lookups change nothing, and after a reset nothing is found |
| RangeTable.RowOf | ragel_range.c:47-262 | the table row by row; keys ascend, ranges are disjoint and ascend, every row has a transition for each of them and a default |
| RangeParser.SearchKeys | ragel_range.c:290-311 | the binary search over single keys finds what a scan finds |
| RangeParser.OnlyRange | ragel_range.c:322-330 | a range that contains the character is the first and only one |
| RangeParser.SearchRanges | ragel_range.c:313-333 | so does the search over ranges with its even midpoint |
| RangeParser.FindTransition | ragel_range.c:286-336 | together they select the transition of a linear scan, for every row with ascending keys and ranges |
| RangeParser.InOrderAscends | ragel_range.c:59-157 | every row of the table is such a row |
| RangeParser.RunActions | ragel_range.c:339-478 | the action loop, with the early return |
| RangeParser.ParseHeader | ragel_range.c:269-494 | the character loop computes the automaton's run over the header and its terminating zero |
| RangeParser.ReadNumber | ragel_range.c:348-360 | a run of digits of any length is its decimal value |
| RangeParser.ReadDecimals | ragel_range.c:379-393 | decimals of any number give numerator and denominator |
| RangeParser.ReadHms | ragel_range.c:361-378 | hours, minutes and seconds add up to 3600 h + 60 m + s |
| RangeParser.ReadTime | ragel_range.c:348-399 | an npt time of either form, with or without fraction, adds exactly its value to the sum |
| RangeParser.ReadEnd | ragel_range.c:404-421 | the character after a time takes the sum over into the range and clears it |
| RangeParser.ParseOpen | ragel_range.c:404-421 | "npt=begin-" sets the begin to the value written and leaves the end alone |
| RangeParser.ParseClosed | ragel_range.c:404-421 | "npt=begin-end" sets both, nothing leaks from one into the other |
| RangeParser.ParseEndOnly | ragel_range.c:411-421 | "npt=-end" sets the end and leaves the begin alone |
| RangeParser.ParseNeither | ragel_range.c:489-494 | "npt=-" is refused |
| RangePieces.ReadPartial | ragel_range.c:361-378 | what a time that stops short has added to the sum when it stops, in each of the places where it can stop |
| RangePieces.SumIsZeroIff | ragel_range.c:361-421 | the sum behind any parts is zero if and only if every time given up since the last one taken has the value zero |
| RangePieces.AcceptedIff | ragel_range.c:400-421 | a header of any parts behind semicolons is accepted if and only if none of them says "now" and one of them names a range, and is read as its parts mean |
| RangePieces.NowRefused | ragel_range.c:400-403 | "npt=now-" is refused whatever follows, and leaves the range alone |
| RangePieces.LastTimeIff | ragel_range.c:361-421 | a header without "now" that ends with "npt=t-" is accepted, with t as the begin if and only if every time given up since the last one taken has the value zero |
| RangeStamps.StampTaken | ragel_range.c:422-475 | a "time=" stamp at the end sets the time to start playing at, and nothing else |
| RangeStamps.StampDropped | ragel_range.c:422-475 | a stamp in front of other parts is not taken |
| RangeStamps.OctoberIgnored | ragel_range.c:47-262 | nor is one in the month 10 |
| RangePieces.AbortedTimeLeaks | ragel_range.c:374-410 | "npt=5.;npt=3-" is accepted with the begin 8 |
| RangeParser.PrintedIsTime | rtsp_method_play.c:113-120 | a printed number of microseconds is an npt time of the same value |
| RangeParser.PrintThenParse | rtsp_method_play.c:109-124 | reading the printed Range header gives back begin and end for all microsecond values; what is not printed is untouched; it is accepted if and only if something was printed |
| RangeParser.ClockTimeRead | ragel_range.c:361-399 | hours, minutes and seconds with colons and millionths are read as 3600 h + 60 m + s and the fraction |
| RequestScanner.RunLine | ragel_request_line.c:368-582 | the loop over the request line reads on without testing for the end of the input; the place of a failure is compared with it afterwards |
| RequestScanner.RunHeaders | ragel_request_line.c:1270-1453 | the same for headers; the size is left unset if no header line was completed |
| RequestScanner.StopStays | ragel_request_line.c:557-560 | where an automaton stops inside a text is decided by the text, and otherwise lies behind it |
| RequestScanner.LineAnswer | ragel_request_line.c:567-582 | the answer to a request line from the verdicts of its automaton: more is needed if and only if it fails at the first byte behind the input |
| RequestScanner.HeadersAnswer | ragel_request_line.c:1449-1453 | the same for headers, with what is taken of them |
| RequestScanner.LineByOwnBytes | ragel_request_line.c:567-582 | a request line that is all there, or cannot become one, is judged by its own bytes in any memory |
| RequestScanner.HeadersByOwnBytes | ragel_request_line.c:1449-1453 | so is a header block |
| RtspHandler.StepProgress | rtsp_state_machine.c:195-376 | a step that asks for another shortens the input or goes on to one of at most two more steps that do not, in any memory |
| RtspHandler.Client.constructor | rtsp_state_machine.c:390-437 | a new connection waits for a message with nothing read |
| RtspHandler.Client.InterleavedStep | rtsp_state_machine.c:195-217 | delivers one packet if it is complete; the dollar assertion holds |
| RtspHandler.Client.NewStep | rtsp_state_machine.c:267-329 | tells packets from requests, with every rejection; a line that ends behind the input is taken and not removed |
| RtspHandler.Client.HeadersStep | rtsp_state_machine.c:331-360 | takes headers into the pending request and removes what the parser says, set or not, if there is so much |
| RtspHandler.Client.RequestStep | rtsp_state_machine.c:135-193 | passes a request on only with a sequence number above the last |
| RtspHandler.RequestAnswered | rtsp_state_machine.c:153-193 | a request without a body comes to exactly one event: passed on if and only if its number is above every one passed on before, dropped if it is not, refused if it has none; one with a body ends the program |
| RtspHandler.LastIsHighest | rtsp_state_machine.c:169-177 | on every connection the number compared with is the highest one passed on |
| RtspHandler.LineRejected | rtsp_state_machine.c:287-318 | what is answered to each line that is no request, which stays unread |
| RtspHandler.HeadersWait | rtsp_state_machine.c:338-352 | what is taken of headers that are not complete, and what is answered to malformed ones |
| RtspHandler.Client.ContentStep | rtsp_state_machine.c:362-376 | handles the request; one with a body aborts |
| RtspHandler.Client.Handler | rtsp_state_machine.c:390-437 | the loop terminates on every buffer and in every memory, computes the run of the steps, and leaves a connection that can go on if and only if it met no line with an unsupported method |
| RtspHandler.Client.Receive | rtsp_lowlevel.c:288-332 | a read of nothing, or beyond the 5000 bytes of the buffer, closes the connection; other bytes are appended and handled |
| StreamDivision.DecidedStep | rtsp_state_machine.c:267-360 | a step that is decided by the bytes of the input does not depend on memory |
| StreamDivision.StepExtended | rtsp_state_machine.c:195-376 | a decided step does the same with more input behind it |
| StreamDivision.StepResumed | rtsp_state_machine.c:195-376 | a run that nothing cuts stops only between messages, inside a packet or for good |
| StreamDivision.DrainResumed | rtsp_state_machine.c:390-437 | handling an uncut prefix and then the rest is handling it all, and one is clean if and only if the other is |
| StreamDivision.AnyDivision | rtsp_lowlevel.c:309-318 | if no read ends inside a request, then in every memory the connection stays open if and only if every read fits the buffer beside what is unread, and has then the events, state and unread bytes of the stream in one piece |
| RequestStream.EndsBetween | rtsp_state_machine.c:390-437 | whole requests and packets, and part of a packet, cut no request |
| RequestStream.StreamAnswered | rtsp_state_machine.c:153-217 | whole requests and packets in any division that cuts no request: every packet is delivered and every request passed on, dropped or refused by its number, in order, in any memory |
| RequestStream.RisingAllDispatched | rtsp_state_machine.c:169-190 | requests with rising numbers are all passed on, in order, and nothing else happens |
| StreamDivision.DivisionIff | ragel_request_line.c:557-582 | the reads of a stream of whole requests and packets give what the stream gives in one piece, in every memory, if and only if no read ends inside a request |
| StreamDivision.CutRejected | ragel_request_line.c:1449-1450 | a read that ends inside a request is rejected in some memory |
| StreamDivision.CutHeadersRejected | rtsp_state_machine.c:325-346 | a request line and part of its headers in one read are rejected if what the line leaves in memory makes no header with that part |
| StreamDivision.CutOptionsRejected | rtsp_state_machine.c:338-346 | so it is with "OPTIONS * RTSP/1.0", a line break and "CS" |
| StreamDivision.ShortStreamFits | rtsp_lowlevel.c:309-313 | a stream of at most 5000 bytes fits in any division |
| InterleavedFraming.SendPacket | rtsp_interleaved.c:60-77 | prepends dollar, channel and 16-bit length |
| InterleavedFraming.OnePacket | rtsp_state_machine.c:195-217 | takes one packet off the front with as much payload as the length says |
| InterleavedFraming.FramesDelivered | rtsp_state_machine.c:195-274 | a sequence of packets and an incomplete tail give exactly these deliveries and keep exactly the tail |
| InterleavedFraming.InterleavedRoundTrip | rtsp_interleaved.c:60-77 | the same for any division of the encoded packets into reads that fit, in any memory and with any parsers; no other division stays open |
| InterleavedFraming.PacketsUncut | rtsp_state_machine.c:195-217 | no division of a stream of packets cuts a request |
| InterleavedFraming.UnreadTail | rtsp_state_machine.c:195-217 | between reads exactly the incomplete packet is unread |
| InterleavedFraming.SmallReadsFit | rtsp_lowlevel.c:309-313 | reads that leave room for the longest packet always fit |
| InterleavedFraming.DivisionMatters | rtsp_lowlevel.c:309-313 | two packets of 3000 bytes come through in one division into two reads and close the connection in another |
| RtspHandler.OnlySmallPackets | rtsp_lowlevel.c:309-318 | whatever a connection reads, it never delivers a payload of more than 4996 bytes |
| InterleavedFraming.PacketReceivedIff | rtsp_lowlevel.c:309-318 | a packet comes through whole if and only if its payload has at most 4996 bytes, in whatever pieces it is read |
| InterleavedFraming.PacketDescribedIff | rtsp_interleaved.c:62-70 | a sent packet is a dollar sign, the channel, the length with the high byte first, and the payload; the length is right if and only if the payload is shorter than 65536 bytes |
| RtspHandler.WellFormedIff | rtsp_state_machine.c:294-322 | the handler leaves a request pending whenever the status says so if and only if it met no line with an unsupported method |
| RtspHandler.CrashIff | rtsp_state_machine.c:331-336 | the next read follows a null pointer if and only if the last one met such a line |
| RtspHandler.UnsupportedCrashes | rtsp_state_machine.c:314-336 | any line with an unsupported method, and any bytes in a read of their own after it, crash the program |
| RtspHandler.NoReplay | rtsp_state_machine.c:169-177 | whatever a connection reads, no sequence number is passed on twice or out of order |
| RtspSession.PauseKeepsInv | rtsp_method_pause.c:37-51 | pausing stops every writer and keeps the invariant |
| RtspSession.ParseKeepsInv | rtsp_method_play.c:171-270 | a new range keeps the invariant; after success there is a range |
| RtspSession.PlayKeepsInv | rtsp_method_play.c:45-71 | resumed writers hold the head of the list |
| RtspSession.SetupKeepsInv | rtsp_method_setup.c:180-239 | SETUP keeps the invariant on every path |
| RtspSession.StepKeepsInv | rtsp_state_machine.c:140-148 | every request and every timer event keeps the invariant |
| RtspSession.Run | rtsp_state_machine.c:135-193 | in every reachable state: a running writer means PLAYING and holds the live head of the list, READY or PLAYING has a resource and an RTP session, PLAYING has a range, resource and address are set together |
| RtspSession.WriterHoldsLiveHead | rtp.c:101-161 | whenever a writer timer runs, its range is live and at the head |
| RtspSession.BookedStep | rtsp_method_pause.c:37-51 | every request that keeps the range keeps the balance of begin, playing time and lost time |
| RtspSession.Books | rtsp_method_pause.c:37-51 | the balance holds after every run of such requests |
| RtspSession.LostIff | rtsp_method_play.c:193-203 | time is lost exactly when a PLAY comes while the session plays |
| RtspSession.ClockLaw | rtsp_method_pause.c:43-44 | the recorded begin of a paused session is the original begin plus the time spent playing, if and only if no PLAY came while playing |
| RtspSession.FirstPlay | rtsp_method_play.c:205-265 | the first PLAY of a session plays the requested range, cut to the resource, from now, or from the time that the header names |
| RtspSession.ClockFromFirstPlay | rtsp_method_play.c:171-270 | the clock law from the first PLAY of a freshly set up session on, with the requested begin as the original one |
| RtspSession.ReplayLosesTime | rtsp_method_play.c:193-203 | such a PLAY moves the clock base and not the begin |
| RtspSession.FailedSeekKeepsBegin | rtsp_method_play.c:54-56 | a PLAY whose seek fails leaves the session ready and the begin unchanged |
| RtspSession.SeeksIff | rtsp_method_play.c:277-323 | a PLAY that succeeds has sought if and only if the resource can seek and the session was not playing, or was paused by this request |
| SessionLaws.PlayAnswered | rtsp_method_play.c:277-323 | which state, address, header, range or seek a PLAY is refused for, and with which code |
| SessionLaws.PlayStarts | rtp.c:101-136 | after a PLAY that succeeds every writer runs on the head of the list, unless the session goes on playing or is multicast |
| SessionLaws.PlayFails | rtsp_method_play.c:54-56 | a PLAY that fails starts no writer |
| SessionLaws.PlayListed | rtsp_method_play.c:193-265 | the list of ranges after a PLAY: goes on, is extended or is replaced, with the requested begin, end and clock |
| SessionLaws.WholeByDefault | rtsp_method_play.c:179-183 | without a header the first PLAY plays the whole resource from now on |
| SessionLaws.PauseAnswered | rtsp_method_pause.c:37-73 | what a PAUSE changes and answers |
| SessionLaws.TeardownAnswered | rtsp_method_teardown.c:35-43 | a TEARDOWN leaves no session |
| SessionLaws.SetupSucceeds | rtsp_method_setup.c:180-239 | a SETUP for an existing track succeeds: one more RTP session that does not run, the resource and its address, and the state |
| SessionLaws.SetupFails | rtsp_method_setup.c:180-239 | a SETUP that fails adds no RTP session and keeps state and list |
| SessionLaws.FirstSetupRefused | rtsp_method_setup.c:49-134 | what a first SETUP is refused for, and with which code |
| SessionLaws.UnreservedIff | utilities.c:33-116 | the characters that a track name may have |
| SessionLaws.FireChanges | rtp.c:275-371 | a timer changes only whether it goes on |
| SessionLaws.RunningIff | rtp.c:101-173 | in every reachable state a writer runs if and only if it was resumed by the last PLAY that could, and has since neither been paused nor fired for the last time |
| SessionLaws.NotAllowedIff | rtsp_utils.c:30-60 | the only events that a run stops at |
| PlayDelivery.PlayOnTracks | rtsp_method_play.c:45-71 | a PLAY that gets so far puts every writer at the start of its queue, any other touches no queue |
| PlayDelivery.PlayAnnouncesOne | rtsp_method_play.c:73-90 | after a PLAY that seeks, the first packet of every RTP session has the number 1 that the reply announces |
| RtspSession.SetupNamesTrack | rtsp_method_setup.c:49-134 | a successful SETUP names a track of the session's resource; a resource once chosen stays |
| RtspSession.ParseNptHeader | ragel_range.c:404-421 | what each of the four forms of an npt header asks for |
| RtspSession.LiveRangeRule | rtsp_method_play.c:237-242 | for every npt header text: which are refused for a resource that cannot seek, and when that agrees with the documented rule |
| RtspSession.LiveAcceptsOffset | rtsp_method_play.c:237-242 | "npt=5-" is accepted there |
| RtspSession.SessionObject.constructor | rtsp_utils.c:97-107 | a new session is INIT with nothing in it |
| RtspSession.SessionObject.StopWriters | rtp.c:149-173 | stops every writer |
| RtspSession.SessionObject.StartWriters | rtp.c:101-136 | starts every writer with the given range |
| RtspSession.SessionObject.PauseNow | rtsp_method_pause.c:37-51 | records the pause point and stops the writers |
| RtspSession.SessionObject.TakeRange | rtsp_method_play.c:171-270 | restarts the clock, or parses, checks, completes and appends a range |
| RtspSession.SessionObject.PlayNow | rtsp_method_play.c:45-71 | seeks and resumes, with the multicast case |
| RtspSession.SessionObject.TimerFired | rtp.c:275-371 | the range that the callback reads is the live head |
| RtspSession.SessionObject.ChooseTrack | rtsp_method_setup.c:49-139 | finds resource and track, with every failure |
| RtspSession.Client.HandleSetup | rtsp_method_setup.c:180-239 | the SETUP step of the state machine and its answer |
| RtspSession.Client.HandlePlay | rtsp_method_play.c:277-323 | the PLAY step and its answer |
| RtspSession.Client.HandlePause | rtsp_method_pause.c:58-73 | the PAUSE step and its answer |
| RtspSession.Client.HandleTeardown | rtsp_method_teardown.c:35-43 | the TEARDOWN step and its answer |
| RtspSession.Client.Perform | rtsp_state_machine.c:135-193 | every request and timer event is one step of the state machine |
| RtspSession.Execute | rtsp_state_machine.c:135-193 | every sequence of events on a new client is a run of the state machine, up to an event that cannot happen |
| Rtcp.Fill | rtcp.c:211-213 | writes into the zeroed buffer and leaves the rest zero |
| Rtcp.Sizes | rtcp.c:199-209 | sizes are rounded up to words |
| Rtcp.Build | rtcp.c:192-280 | the buffer is the report, the payload packet and the padding |
| Rtcp.ReportFields | rtcp.c:164-185 | the six fields of the report in the order of section 6.4.1 of RFC 3550, modulo 2^32 |
| Rtcp.HeaderFields | rtcp.c:60-74 | version, padding, count, type and length as a receiver reads them |
| Rtcp.CompoundLayout | rtcp.c:192-280 | report, second header, payload and zeros |
| Rtcp.PayloadFields | rtcp.c:215-280 | what the source description and the goodbye contain |
| Rtcp.ParseReports | rtcp.c:327-345 | reads 4 bytes and 24 for each block counted |
| Rtcp.ReadPacket | rtcp.c:370-377 | reads behind the header of reports only |
| Rtcp.Handle | rtcp.c:352-381 | the loop terminates and visits the packets of the walk; it reads behind the buffer if and only if the blocks of some visited report do not fit |
| Rtcp.ReadInsideIff | rtcp.c:370-374 | a report is read inside its packet, or inside the buffer, if and only if the blocks that it counts fit there |
| Rtcp.ReportReadsBehind | rtcp.c:327-345 | a receiver report of 8 bytes that counts one block is read up to byte 32 |
| Rtcp.CompoundReadInside | rtcp.c:192-280 | what the server itself sends is read inside the buffer |
| Rtcp.WalkStaysInside | rtcp.c:357-380 | on any input every visited packet lies inside the buffer and follows the one before |
| Rtcp.WalkStopsAtEnd | rtcp.c:357-368 | the walk ends only at a bare header or at a packet that claims too much |
| Rtcp.WalkCompound | rtcp.c:170-272 | walking a built compound visits exactly its two packets, with less than four bytes of padding |
| Rtcp.WalkSdes | rtcp.c:192-233 | so for every host name that a packet can hold |
| Rtcp.WalkBye | rtcp.c:242-280 | and for the goodbye |

## Left out

- Buffers that arrive with a sequence number of their own (live sources): their serials may wrap, and the ordering argument does not cover them.
- `bq_producer_unref` and the stopped flag: it asserts that there are no consumers and frees the producer, so no consumer call ever sees the flag set.
- Consumers are entries of a map in their producer, keyed by handle, rather than separate heap objects; their fields and pointers are modelled one by one. The lock is modelled by atomic calls; nothing is claimed about fill threads or lock ordering.
- RtpWriter.WriteCallback: does not model the next delivery time, the wait after an underrun or the sender reports, because time there is only passed to the event loop; nor the test for a stopped producer, which no registered consumer ever finds stopped.
- The RTP packet header and the RTP timestamp.
- `array_pop`, generated index keys, copying and printing of arrays; values are merged by a function that is a parameter, and keys are compared by any total order, since the comparison is only declared in the source. The reset callbacks of entries have no effect on the map.
- RangeParser.ParseHeader: the fields of a `time=` stamp are not kept; the time that mktime makes of them is a parameter. Times are reals, so rounding of doubles is not modelled.
- RangeParser.PrintThenParse: printing covers whole microseconds, the resolution of the printed form.
- The tables of the request line and header automata are parameters, with the contract `Automata`: nothing is decided before the first byte, and no text begins both with a request line and with a header block. That behind every undecided text there can be bytes that make it fail (`Fragile`) is used for one half of `DivisionIff`. Neither is proved of the tables here. What a parser does that runs out of the memory it is given is modelled as the end of the program.
- RtspHandler.Client.Handler: stops in the HTTP tunnel states instead of running them.
- StreamDivision.AnyDivision: covers streams in which no request line or header is rejected, because a rejection leaves its bytes unread and is repeated at the next read.
- RtspHandler.Client.RequestStep: the checks of the session header and of required options, which follow the sequence number check, belong to what a request is passed on to.
- URI parsing, path checks, transports, sockets and the demuxer are inputs of the requests; seeking, opening and sending succeed or fail as the environment decides.
- Resource sharing, pausing and filling (`r_pause`, `r_resume`, `r_fill`). Which consumer an RTP session registered with which track is given to `PlayDelivery` from outside.
- RtpWriter.Meanwhile: no reset of the queue happens in the middle of a callback; only a client that shares the resource could seek there.
- DESCRIBE, OPTIONS, SDP, HTTP tunnelling, configuration parsing and logging.
- The contents of receiver reports and the item terminator of source descriptions in RTCP packets.
