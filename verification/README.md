# Verified model of the motor-controller client

The repository is a client for a motor controller on a serial line. This project models its three
layers and proves what they guarantee over every input and every run.

**Framing and reception.** `Checksums` has the CRC (the generator x^16+x^12+x^5+1 of section 2 of
ITU-T Recommendation V.41, initial value 0, no reflection, no final xor) as the loops of the source
and as a bit-serial register, with the algebra of the register; `Polynomials` proves that the register
computes the remainder of polynomial division. `Framing` has the frame format and the decision about
the head of a buffer, `FrameLayout` the bytes of a frame and the code that builds it. `Scanning` is
the theory of a greedy scan with a stable decision; `Parsing` has the byte-at-a-time receiver, proved
to compute the scan of everything fed to it; `StreamLaws` says what is delivered from intact, damaged,
truncated and interrupted streams; `Reception` composes receiver and transport: reading bytes is
reading packets off the channel.

**Transport.** `Scheduling` has one function for each region that runs under the scheduler lock and
`SchedulerClass` the object whose methods compute them in place. `Client` is the step machine:
caller threads, the I/O loop and the device interleave at the granularity of one locked region, one
atomic access, one system call or one callback, under an arbitrary monotone clock, arbitrary
outcomes of system calls and arbitrarily many connections; the device and the line to it outlive a
connection. `Step` is total, so a run is any sequence of events (`Runs` is the theory of runs of any
step function), and each law below holds in every reachable state: `ExactlyOnce`, `Correlation` and
`TimeoutLaws` (queries, their replies and their timeouts), `LifecycleLaws` (calls, stops and new
connections), `DeviceLaws` (the device and the line from it), `Leftovers` and
`LateReplies` (replies that outlive their connection), `ManagementLaws` and `ConfigurationLaws`
(operations under the management lock and what they send), `WatchdogLaws`, `FiringLaws` and
`SafeStopOnWire`, `PollLaws` and `PollTiming`, `CommandLaws` and `Starvation`
(the command queue), `PriorityLaws`, `PassLaws` and `OvertakingLaws` (commands against polls and
queries), `CalibrationLaws` (output suppression against the calibration request), `AdmissionLaws`
(queries), `WireLaws` (bytes written), `BrakeLaws` (brake commands, whose payloads `ControlCommands`
builds). `Walks` writes runs out, and `Witnesses` are runs that show what does not hold.

**Payloads.** `Codec` has big-endian fields, `Imu` the masked IMU sample, `LispTransfer` the chunked
transfer of LispBM programs against an arbitrary device, `LispWire` the bytes that such transfers send
and the answers they take, and `LispLaws` what they achieve against an arbitrary and against an
honest device.

Each law over runs has the same shape: the part of the state it is about, the few ways in which a
step can change that part, a proof that every step of the machine is one of them, and a proof that
each of them keeps the invariant.

What code and laws share is also stated without them: frames, fields, masks, requests and
acknowledgements as bytes, the CRC as a remainder of polynomials, and the regions under the scheduler
lock by the fields of the object before and after.

Where documentation and code differ, the model follows the code. For what does not hold there is a
run that shows it and a theorem that says exactly when it does:

- `include/goat_motor_controller/controller_client.hpp:38` and `docs/ai/README.md:77` give control
  commands priority over polls and queries; `docs/src/ARCHITECTURE.md:31-34` adds that one command is
  written per pass. A poll can go out while a command waits (`Witnesses.PollOvertakesCommand`). A poll
  or query can go out while the command at index k waits exactly when the present pass of the loop has
  popped already and can still start one, or k > 0, the loop goes on, and a management request in flight
  can be answered in time (`OvertakingLaws.OvertakenExactlyWhen`). The head of the queue goes first if
  the pass is still to pop (`PriorityLaws.HeadGoesFirst`), and the command at index k always goes out
  after at most k commands and k + 1 requests (`PriorityLaws.CommandPriority`).
- `include/goat_motor_controller/controller_client.hpp:335` says that output is suppressed during
  calibration. The calibration request can go out before the suppression queued ahead of it, from
  within a pass that has popped (`Witnesses.CalibrationOvertakesSuppression`) and from behind another
  command (`Witnesses.CalibrationOvertakesFromBehind`). It can do so exactly when the present pass can
  still take it, or the suppression is behind another command and the loop goes on
  (`CalibrationLaws.CalibrationGoesFirstExactlyWhen`).
- Refreshing a command moves it to the back of the queue, so one that is refreshed without end need
  never be written (`Starvation.RefreshingStarves`); one that is neither refreshed nor cleared is among
  the next six popped (`Starvation.SixPopsSuffice`).
- A poll interval set to 0 between the selection of a poll and its making stops the transport
  (`Witnesses.DisablingStopsTransport`), and nothing else does at that point
  (`PollLaws.PollFailsExactlyWhenDisabled`).
- Nothing is flushed when a connection is made. A late reply to a request of an earlier connection can
  complete a new request and license a configuration write (`Witnesses.LateReplyLicensesWrite`); a
  connection is open to such replies exactly when the line was not safe when it was made
  (`LateReplies.MisdeliversExactlyWhenUnsafe`): some request was not yet answered, or something other
  than noise was on its way, except for acknowledgements of configuration writes that the holder of the
  management lock cannot be about to make. Callers can tell: as long as every management request that
  reached the device has returned a reply, every connection is safe (`LateReplies.AnsweredCallersAreSafe`).
- LispBM images of one to nine bytes can be written but not read back
  (`LispLaws.ReadableExactlyFromTenBytes`); no device makes the client return so few
  (`LispLaws.ReadsNothingShort`).

## Model

| member | source | states |
|---|---|---|
| Checksums.Checksum | src/protocol.cpp:82-93 | the byte-wise double loop (also the receiver's own copy of it) computes the remainder register fed one message bit at a time |
| Checksums.ShiftByte | src/packet_parser.cpp:163-167 | the inner loop is eight steps of the shift register |
| Checksums.AddByte | src/packet_parser.cpp:160-168 | mixing a byte into the top of the register and shifting eight times feeds the register the eight bits of the byte |
| Checksums.FeedInjective | src/packet_parser.cpp:157-171 | feeding the same bits to different registers never merges them |
| Checksums.LowBitsDecide | src/packet_parser.cpp:157-171 | up to 16 bits fed since a known register can be read off its low bits |
| Checksums.ZeroResidue | src/packet_parser.cpp:157-171 | for every payload length, data followed by two bytes has residue zero if and only if those bytes are its CRC |
| Checksums.BurstDetected | src/packet_parser.cpp:141-151 | two messages of equal CRC that differ at most within 16 consecutive bits are equal |
| Polynomials.CrcIsRemainder | src/protocol.cpp:82-93 | for all data, two bytes are its CRC if and only if data and the two bytes, read as a polynomial with the most significant bit first, are a multiple of x^16 + x^12 + x^5 + 1 |
| Polynomials.Division | src/protocol.cpp:82-93 | the message times x^16 is the bits subtracted times the generator, plus the register |
| FrameLayout.BuildFrame | src/protocol.cpp:95-121 | a payload of 1 to 255 bytes becomes 2, its length, itself, two bytes that complete it to a multiple of the generator, and 3; one of 256 to 512 bytes begins with 3 and a big-endian length; nothing else is framed |
| FrameLayout.FrameBytes | src/protocol.cpp:95-121 | these are the bytes of the frame that all other laws are about, for those two bytes and no others |
| Framing.DecodeWrapped | src/packet_parser.cpp:123-154 | a candidate is accepted exactly when its stop byte is in place and its residue is zero, and always judged as a whole |
| Framing.FrameIsSuccess | src/packet_parser.cpp:73-155 | every frame is decoded to its payload, whatever follows it |
| Framing.SuccessIsFrame | src/packet_parser.cpp:73-155 | whatever is accepted is the frame of the payload returned |
| Framing.DecodesExactlyFrames | src/packet_parser.cpp:73-155 | decoding succeeds with a payload and size if and only if the buffer begins with that payload's frame |
| Framing.FramesPrefixFree | src/protocol.cpp:95-121 | framing is injective and no frame is a proper prefix of another |
| Framing.DecisionStable | src/packet_parser.cpp:73-155 | a decision once taken is not changed by later bytes |
| Scanning.FeedEachIsScan | src/packet_parser.cpp:59-71 | for every stable decision procedure, feeding element by element equals scanning the whole |
| Scanning.SegmentsPartition | src/packet_parser.cpp:23-57 | a scan splits its input into consecutive pieces and a remainder, with nothing lost or used twice |
| Parsing.PacketParser.FeedByte | src/packet_parser.cpp:23-57 | the resynchronising loop delivers and keeps exactly what a greedy scan of buffer and byte does, ends at rest, terminates, and leaves nothing behind a delivered packet |
| Parsing.PacketParser.FeedBytes | src/packet_parser.cpp:59-71 | a batch delivers, in order, what a scan of the buffer and the batch delivers |
| Parsing.PacketParser.Reset | src/packet_parser.cpp:19-21 | the receiver is as new |
| Parsing.ByteByByteIsScan | src/packet_parser.cpp:23-71 | for every stream, byte by byte gives the payloads and remainder of one scan of the whole |
| Parsing.ScanResumes | src/packet_parser.cpp:23-71 | a scan may stop anywhere and resume from its undecided bytes, which are at rest |
| Parsing.AtRestIsShort | src/packet_parser.cpp:85-125 | between bytes the receiver holds at most 517 bytes |
| Parsing.DecidedWhole | src/packet_parser.cpp:36-52 | a verdict on a packet always consumes the whole buffer, so no complete packet is left waiting |
| StreamLaws.ScanPartitions | src/packet_parser.cpp:23-155 | every stream is, in order, discarded pieces and whole frames and then the final buffer, and the payloads of those frames are what is delivered |
| StreamLaws.AdjacentBytesInBurst | src/packet_parser.cpp:141-151 | any change to one byte or two adjacent bytes lies within 16 consecutive bits |
| StreamLaws.ArrivalDecided | src/packet_parser.cpp:73-155 | a frame with a damaged stop byte or with damage within 16 bits of payload and CRC is rejected as a whole |
| StreamLaws.DamageIsContained | src/packet_parser.cpp:23-155 | from any stream of intact and damaged frames exactly the intact payloads are delivered, in order, and what follows is read as from an empty receiver |
| StreamLaws.FramesThenScan | src/packet_parser.cpp:23-71 | every concatenation of frames is read back, whatever follows |
| StreamLaws.WholeFramesDelivered | src/packet_parser.cpp:23-71 | whole frames and a truncated one deliver exactly the whole ones and hold the rest |
| StreamLaws.StrayByteIsDropped | src/packet_parser.cpp:26-49 | of what cannot begin a frame exactly one byte is dropped: a byte other than 2 and 3, or a start byte with a length its form cannot have |
| StreamLaws.StrayStopByteIsDropped | src/packet_parser.cpp:26-49 | a stop byte too many before a frame never costs that frame |
| StreamLaws.QuietGapResynchronises | src/packet_parser.cpp:26-56 | from every state at rest, 518 bytes without a start byte deliver nothing and empty the buffer, and the next frame is delivered |
| Reception.FrameIsPacket | src/controller_client.cpp:831-841 | a frame sent by the device, behind whatever the parser holds and the line carries, is one more packet on the channel |
| Reception.DamageIsDrop | src/controller_client.cpp:831-841 | a frame with a damaged stop byte or with damage within 16 bits of payload and CRC is a packet dropped from the channel |
| Reception.ReadIsPrefix | src/controller_client.cpp:831-841 | whatever piece of the line a read returns, the parser delivers the next packets of the channel, in order, and what it keeps and the rest of the line scan to the rest of the channel |
| Reception.PacketRead | src/controller_client.cpp:918-953 | dispatching the next payload, with its callback, is one to three steps of the machine |
| Reception.ReadPiece | src/controller_client.cpp:834-841 | the loop that feeds the bytes of a read to the parser and dispatches each payload at once takes the machine by its own steps through as many packets of the channel as were completed, and leaves line and channel in agreement |
| SchedulerClass.ShortFrame | src/controller_client.cpp:1009-1013 | the third byte of a short frame is the command ID |
| SchedulerClass.RemoveId | src/controller_client.cpp:1010-1014 | removing by third byte removes exactly the queued command with that ID and keeps the order of the others |
| SchedulerClass.Scheduler.constructor | src/controller_client.cpp:180-184 | a new scheduler is idle, with nothing queued, in flight or armed |
| SchedulerClass.Scheduler.EnqueueCommand | src/controller_client.cpp:999-1018 | acceptance if and only if running and a packet was built; the packet goes to the back and replaces the one with its ID; the watchdog is armed with the timeout from now if asked and enabled, and otherwise left alone |
| SchedulerClass.Scheduler.DequeueCommand | src/controller_client.cpp:862-869 | takes the head of the queue and nothing else |
| SchedulerClass.Scheduler.DequeueDueWatchdog | src/controller_client.cpp:1047-1054 | fires if and only if it is armed and its deadline has come, whatever is queued, disarming it and emptying the command queue |
| SchedulerClass.EraseExpired | src/controller_client.cpp:973-980 | the erase loop splits the queue into the expired and the live requests, each in order |
| SchedulerClass.SweepSorts | src/controller_client.cpp:973-980 | what a sweep takes is exactly what has expired, what it leaves exactly what has not, and a second sweep takes nothing |
| SchedulerClass.Scheduler.HandleRequestTimeout | src/controller_client.cpp:963-997 | hands out the in-flight request if and only if its deadline has come, and exactly the queued ones whose has; stops if and only if the former asked for it |
| SchedulerClass.Scheduler.Dispatch | src/controller_client.cpp:918-930 | completes the in-flight request if and only if the payload carries its expected ID |
| SchedulerClass.Scheduler.ClearPendingWork | src/controller_client.cpp:1170-1181 | hands out everything pending and leaves queues, slot and watchdog empty |
| SchedulerClass.Scheduler.SelectDuePollChannel | src/controller_client.cpp:1192-1214 | the loop selects a channel if and only if it is enabled and due and the other one is not, or is due later, or for the IMU as late |
| SchedulerClass.Scheduler.MakeDuePollRequest | src/controller_client.cpp:1216-1244 | an enabled and due channel, and no other, gets a request: 65 with the full mask or 4, with the poll timeout from now; its next due time is one interval from now, and nothing else changes |
| SchedulerClass.Scheduler.DequeueReadyQuery | src/controller_client.cpp:1246-1283 | a query is taken if and only if one is live and each enabled channel, IMU and motor, is due later than the guard window; it is the first live one |
| SchedulerClass.WritePacket | src/controller_client.cpp:1074-1103 | whatever the write calls do, a prefix of the packet is written, success is reported exactly for the whole packet, and failure only after a stop, an error or a call that wrote nothing |
| Client.ControlStep | src/controller_client.cpp:754-916 | every step keeps the control invariant: where the loop works on an empty slot the slot is empty, and after the final clear nothing is pending |
| Client.ControlReachable | src/controller_client.cpp:754-916 | the control invariant holds after every run |
| Client.ReachableKeeps | src/controller_client.cpp:754-916 | what holds initially and is kept by every step holds after every run |
| ExactlyOnce.SweepConserves | src/controller_client.cpp:963-997 | expired and live requests together are the requests there were, with multiplicity |
| ExactlyOnce.TransferConserves | src/controller_client.cpp:409-448 | moving requests between queue, slot, hand and completion neither loses nor duplicates a query |
| ExactlyOnce.StepTransfers | src/controller_client.cpp:754-997 | every step of the machine moves requests in one of eleven ways |
| ExactlyOnce.OnePlace | src/controller_client.cpp:436-447 | an accepted query is in exactly one of queued, in flight, in hand, held for writing or completed |
| Correlation.EveryQueryCompletesOnce | src/controller_client.cpp:409-448 | over every run each accepted query is in one place, none completes twice, and all are complete once the I/O thread is gone |
| Correlation.OwnReply | src/controller_client.cpp:918-930 | only its own reply can complete the awaited management request, and nothing about it is then under way |
| Correlation.RepliesAnswerTheirRequests | src/controller_client.cpp:918-997 | over every run a returned payload has the expected ID, and one returned to a management caller on a connection made with the line safe is the device's reply to that very request |
| Correlation.RepliesArriveInFlight | src/controller_client.cpp:918-930 | over every run a returned payload was read, as the next packet of the line, while that caller's request was in flight |
| TimeoutLaws.SweepTakesExactlyTheExpired | src/controller_client.cpp:963-997 | a sweep of the loop takes the in-flight request if and only if it has expired and exactly the queued ones that have, changes nothing else, and stops if and only if the former asks for it |
| TimeoutLaws.ReadCompletesExactlyTheExpected | src/controller_client.cpp:918-930 | a packet completes the request in flight if and only if it begins with the expected ID, and is dropped otherwise |
| TimeoutLaws.NobodyIsToldTooEarly | src/controller_client.cpp:901-916 | over every run, a caller told that there was no reply is told so after its deadline, while the transport stops, or because its request could not be written |
| LifecycleLaws.AcceptsExactlyWhileRunning | src/controller_client.cpp:999-1018 | a control call is accepted if and only if the client runs and the payload has 1 to 512 bytes; it is then last in the queue and sets the deadline of the watchdog if it is to |
| LifecycleLaws.QueriesExactlyWhileRunning | src/controller_client.cpp:409-443 | a version query is accepted if and only if the client runs, goes to the back of the queue and never stops the transport |
| LifecycleLaws.StoppedClientIsSilent | src/controller_client.cpp:1074-1103 | over every run, a client that has stopped or is on its way out writes not one byte more until a new connection is made |
| LifecycleLaws.ErrorsSilenceTheClient | src/controller_client.cpp:819-851 | over every run, after an error of a system call, or a write that wrote nothing, not one byte more is written until a new connection is made |
| LifecycleLaws.WaitsAndReads | src/controller_client.cpp:818-852 | an interrupted wait begins the pass again, an interrupted read is repeated, and the loop reads until nothing is there and then looks at the watchdog |
| LifecycleLaws.StoppedThreadEnds | src/controller_client.cpp:754-916 | from every state in which the client has stopped, the I/O thread comes to its end if its calls return |
| LifecycleLaws.ConnectionStartsFresh | src/controller_client.cpp:245-258 | over every run, a new connection starts with nothing queued, in flight, armed or written, and both polls due |
| LifecycleLaws.ConnectsExactlyWhenStopped | src/controller_client.cpp:248-266 | over every run, connecting does something if and only if the I/O thread is gone |
| LifecycleLaws.DisconnectStops | src/controller_client.cpp:268-285 | disconnecting clears the running flag wherever the I/O thread is, and nothing else |
| LifecycleLaws.ClearHandsOutEverything | src/controller_client.cpp:1170-1189 | the final clear hands out the queued requests in order and then the one in flight, and leaves nothing |
| DeviceLaws.KnownReachable | src/controller_client.cpp:888-930 | over every run and every connection, what has reached the device are management requests that were issued, every packet on the line says which of them it answers, and nothing about a request follows its reply |
| Leftovers.BarredKept | src/controller_client.cpp:471-554 | a configuration write of a kind that nobody is about to make is not about to be made after any step either, unless a management caller is told of a reply |
| LateReplies.SafeIsKept | src/controller_client.cpp:248-266 | no run from a state on a connection made with the line safe hands a stale payload to a management caller on that connection |
| LateReplies.UnservedMisdelivers | src/controller_client.cpp:918-930 | from any new connection with an unanswered earlier request, of whatever kind, there is a run in which its late reply completes a new request |
| LateReplies.AckMisdelivers | src/controller_client.cpp:471-554 | from any new connection on which the holder of the lock is about to write a configuration, a leftover acknowledgement of such a write can complete it |
| LateReplies.MisdeliversExactlyWhenUnsafe | src/controller_client.cpp:248-266 | in every reachable state in which a connection is about to be made, that connection can hand out a stale payload if and only if the line is not safe |
| LateReplies.AnsweredCallersAreSafe | src/controller_client.cpp:409-448 | over every run in which each completed management request that reached the device returned a reply, no stale payload was ever handed out and the next connection is safe |
| Witnesses.LateReplyLicensesWrite | src/controller_client.cpp:471-500 | a run over two connections in which the reply to a timed-out read of the first licenses a configuration write on the second |
| ManagementLaws.CompletedMeansNone | src/controller_client.cpp:409-448 | once the request waited for is complete, no management request is outstanding anywhere |
| ManagementLaws.OperationsAreContiguous | src/controller_client.cpp:471-678 | over every run, between two requests of one operation no other operation's request is sent |
| ManagementLaws.ConfigWritesAreGated | src/controller_client.cpp:471-554 | over every run, a configuration write is sent only after the same operation received an image of its kind with the same four signature bytes, which is the reply to its own read if that connection was made with the line safe |
| ConfigurationLaws.OperationsSendWhatWasAsked | src/controller_client.cpp:471-554 | over every run, a management request on the wire belongs to an operation that took the lock once, and is what that call asked for: a write of configuration sends its ID and the caller's image byte for byte, or its own read, and other operations send no configuration write |
| ConfigurationLaws.WritesCarryTheImage | src/protocol.cpp:142-185 | over every run, a request with ID 13, 16 or 149 is that ID followed by the image given to the call that took the lock |
| ConfigurationLaws.AsksInOrder | src/controller_client.cpp:484-496 | a configuration write asks first for the configuration of its kind and, once that is verified, sends the image, each with the deadline of the call |
| ConfigurationLaws.GateOpensExactlyWhen | src/controller_client.cpp:484-490 | the write is made if and only if the reply to the read is an image of its kind whose first four bytes are those of the image to be written |
| ConfigurationLaws.OthersSendTheirRequests | src/controller_client.cpp:556-727 | any other operation sends the request of its choice if and only if it is a management request and no configuration write, and otherwise ends |
| ConfigurationLaws.RefusedEndsTheOperation | src/controller_client.cpp:436-441 | a request that cannot be made ends the operation, and nothing is sent |
| ConfigurationLaws.OthersGoOnExactlyWhenAnswered | src/controller_client.cpp:585-609 | an operation other than a configuration write goes on to its next request if and only if it got a reply |
| ConfigurationLaws.LockIsExclusive | src/controller_client.cpp:479-482 | the lock is taken if and only if it is free, under a new number, and not given up while its holder waits for a reply |
| WatchdogLaws.NoStaleCommandAfterSafeStop | src/controller_client.cpp:854-873 | over every run, a command sent after a safe stop was accepted after the watchdog fired |
| SafeStopOnWire.NoStaleCommandOnTheWire | src/controller_client.cpp:854-873 | over every run, of the payloads written on a connection a queued command that follows a safe stop was accepted after that firing and is written as accepted, and the safe stop is the configured one |
| WatchdogLaws.FiresOnlyWhenOverdue | src/controller_client.cpp:1041-1064 | over every run, a firing names a control command of this connection at least the timeout old with no later one accepted |
| WatchdogLaws.FiresOncePerRefresh | src/controller_client.cpp:1041-1064 | over every run, between two firings a control command was accepted |
| FiringLaws.FiresExactlyWhenOverdue | src/controller_client.cpp:1041-1064 | over every run, the check of a pass fires if and only if a refresh is logged with no later refresh, firing or connection and the timeout has passed since; it then empties the command queue and the configured safe stop is written next, and otherwise the pass goes on to pop |
| FiringLaws.OverdueFiresFirst | src/controller_client.cpp:854-873 | over every run, once the watchdog is overdue with its check ahead of the next pop, a running client hands no command to the writer before the watchdog fires, is refreshed, or a connection is made |
| PollLaws.PollsKeepTheirRate | src/controller_client.cpp:888-899 | over every run, n polls of a channel whose schedule is not restarted span at least n - 1 intervals |
| PollLaws.WaitingChannelIsNext | src/controller_client.cpp:1192-1244 | over every run, a channel that was due when the other was polled is polled before the other is polled again |
| PollLaws.StepChanges | src/controller_client.cpp:310-326 | every step changes intervals, due times and restart flags in one of five ways: not at all, by setting an interval, by a restart of the loop or of the connection, or by one interval after a poll |
| PollTiming.PolledAgainWhenDue | src/controller_client.cpp:1192-1244 | over every run, a channel polled last at a logged time is not selected before its interval has passed, and once it has, it is, unless the other one has been due longer |
| PollTiming.SelectsExactlyTheDue | src/controller_client.cpp:888-901 | the loop selects a channel if and only if it is enabled and due and the other has not been due longer, and looks for a query if and only if neither is due |
| PollTiming.PollIsSent | src/controller_client.cpp:1216-1244 | over every run, a selected channel that is still enabled gets its request written, 65 with the full mask or 4, with the poll timeout |
| PollTiming.IntervalTakesEffect | src/controller_client.cpp:310-326 | a new interval, or 0 for a negative one, is in force at the next restart of the loop, and the channel is due then |
| PollLaws.PollFailsExactlyWhenDisabled | src/controller_client.cpp:888-895 | over every run, making the selected poll stops the transport if and only if its interval has become 0 |
| Witnesses.DisablingStopsTransport | src/controller_client.cpp:1216-1221 | a reachable state from which the poll would be written, and from which disabling the channel makes the next step stop the transport |
| CommandLaws.QueueIsLastValueMap | src/controller_client.cpp:999-1018 | for every history of accepts, pops and clears, the queue lists exactly the newest accepted command per ID not since popped or cleared, oldest first |
| CommandLaws.QueueIsShort | src/controller_client.cpp:1009-1015 | queued IDs are distinct, so at most six commands wait |
| CommandLaws.BoundedBypass | src/controller_client.cpp:862-873 | unless replaced or cleared, a command at index k is popped after at most k others |
| CommandLaws.CommandQueueOfRun | src/controller_client.cpp:862-873 | over every run of public calls, the client's queue is the last-value map of its own history, with distinct IDs and at most six entries |
| CommandLaws.CommandWaitIsBounded | src/controller_client.cpp:862-873 | over every run, the pop that takes a command queued at index k is found after at most k others |
| Starvation.RefreshingStarves | src/controller_client.cpp:1009-1015 | for every n there is a run with n pops, at each of which a command of one ID is queued and a command of another ID is popped |
| Starvation.SixPopsSuffice | src/controller_client.cpp:862-873 | over every run of public calls, a queued command that six pops neither see replaced nor cleared is one of those popped |
| PriorityLaws.RequestsFollowPops | src/controller_client.cpp:862-911 | over every run, polls and queries started never outnumber the pops by more than the credit of the present pass |
| PriorityLaws.CommandPriority | src/controller_client.cpp:862-911 | over every run, a command queued at index k goes out after at most k other commands and k polls and queries, and one more if the present pass has popped, unless replaced or cleared |
| PriorityLaws.HeadGoesFirst | src/controller_client.cpp:862-911 | over every run, the head of the queue goes out before every other command, poll and query if the present pass is still to pop |
| PassLaws.WaitsSpared | src/controller_client.cpp:862-869 | a command that is still queued after some events, neither replaced nor cleared on the way, was spared by every pop |
| PassLaws.AtTheNextPop | src/controller_client.cpp:754-873 | from every state in which the loop goes on, its next pop is reached with the command queue untouched, if the watchdog is not due and what is in flight cannot stop the transport |
| PassLaws.FromHere | src/controller_client.cpp:999-1054 | a due watchdog is put off by a refresh that leaves a waiting command where it is in the queue |
| PassLaws.OptionsAreSane | src/controller_client.cpp:1024-1039 | the watchdog is enabled only with a positive timeout |
| OvertakingLaws.UnsentReachable | src/controller_client.cpp:888-911 | over every run, a management request that is queued or being written has not reached the device |
| OvertakingLaws.OvertakenExactlyWhen | src/controller_client.cpp:754-911 | in every reachable state, a poll or query can go out while the command at index k waits if and only if the present pass can still start one, or k > 0, the loop goes on and a management request in flight can still be answered, before it expires and before the pop |
| Witnesses.PollOvertakesCommand | src/controller_client.cpp:862-899 | a run whose log has two commands accepted, one popped and then a poll, with the other command still queued |
| CalibrationLaws.CalibrationGoesFirstExactlyWhen | src/controller_client.cpp:703-727 | in every reachable state in which the holder of the management lock is about to make its request, that request can go out while the command at index k, the queued suppression say, waits if and only if the present pass can still take it, or k > 0 and the loop goes on |
| Witnesses.CalibrationOvertakesSuppression | src/controller_client.cpp:703-727 | a run whose log has the suppression accepted, then the calibration request sent, and only then the suppression popped |
| Witnesses.CalibrationOvertakesFromBehind | src/controller_client.cpp:703-727 | a run in which the suppression waits behind another command before the pop of a pass, that command is popped, and the calibration request goes out with the suppression still queued |
| AdmissionLaws.QueriesAreAdmitted | src/controller_client.cpp:901-911 | over every run, a query being written or in flight was taken from the queue at an earlier step, at which it was the one issued first of those not expired, each enabled channel was due later than the guard window, and nothing was in flight |
| AdmissionLaws.TakesExactlyTheAdmitted | src/controller_client.cpp:1246-1283 | over every run, whenever that is so of a query it is taken, and when it is so of none the loop goes on |
| AdmissionLaws.SlotIsNeverOverwritten | src/controller_client.cpp:879-911 | over every run, a request leaves the in-flight slot before another enters it |
| WireLaws.PeerDecodesWhatWasWritten | src/controller_client.cpp:1074-1103 | over every run, the bytes of a connection are whole frames and one unfinished frame, and a peer running the receiver delivers exactly the payloads written in full |
| ControlCommands.CallsAreShort | src/protocol.cpp:294-338 | every control payload is short and carries the ID of its call |
| ControlCommands.CurrentReadsBack | src/protocol.cpp:310-318 | a current is sent if and only if its milliamperes fit 32 bits, as 6 and them rounded toward zero |
| ControlCommands.DutyReadsBack | src/protocol.cpp:300-308 | a duty cycle is sent if and only if it lies in -1..1, as 5 and units of 0.00001 rounded toward zero |
| ControlCommands.ServoReadsBack | src/protocol.cpp:330-338 | a servo position is sent if and only if it lies in 0..1, as 12 and thousandths rounded toward zero |
| ControlCommands.RpmReadsBack | src/protocol.cpp:294-298 | a speed is sent as 8 and its 32 bits |
| ControlCommands.SuppressionReadsBack | src/protocol.cpp:266-276 | a suppression is sent if and only if its milliseconds are a nonnegative 32-bit number, as 63, 0 and them |
| ControlCommands.BrakeReadsBack | src/controller_client.cpp:385-392 | a brake current is sent if and only if it and the limit are positive numbers and the lesser of them fits, as 7 and the lesser of them in milliamperes |
| ControlCommands.SafeStopReadsBack | src/controller_client.cpp:1056-1063 | the safe stop of coasting is a current of zero, that of braking the configured brake current within the limit |
| ControlCommands.OptionsAreHeeded | src/controller_client.cpp:1024-1039 | the watchdog is enabled if and only if the timeout is positive and the action is coasting, or braking with a positive current and limit |
| BrakeLaws.ClampRange | src/controller_client.cpp:91-97 | the clamped current is never negative, never above the limit or the request, and equal to the lesser of them when both are nonnegative numbers |
| BrakeLaws.BrakeCarries | src/protocol.cpp:320-328 | the payload's raw value is the current in milliamperes rounded down |
| BrakeLaws.RunKeepsBodies | src/controller_client.cpp:754-916 | what holds of the safe stop, of every control call and of every request holds of everything written |
| BrakeLaws.BrakeIsBounded | src/controller_client.cpp:385-392 | over every run of public calls, each brake payload written, by a caller or the watchdog, carries the clamped value of a requested current, between 0 and 1000 times the limit |
| BrakeLaws.CallsFitTheQueue | src/controller_client.cpp:373-396 | the public calls produce short packets with the six known IDs, which is what the code of the queue asks of them |
| Codec.AppendIntegral | src/protocol.cpp:39-47 | the shifting loop appends the big-endian digits of the value |
| Codec.FieldBytes | src/protocol.cpp:39-47 | the bytes of 16-bit and 32-bit fields, most significant first |
| Codec.BytesOfValue | src/protocol.cpp:15-26 | what two and four bytes are worth |
| Codec.SignedBytes | src/protocol.cpp:28-30 | what four bytes are worth as a signed number |
| Codec.ValueOfField | src/protocol.cpp:23-26 | a field reads back as the value written |
| Codec.FieldOfValue | src/protocol.cpp:23-26 | every byte sequence is the field of the value it reads as |
| Codec.Int32RoundTrip | src/protocol.cpp:28-30 | signed 32-bit values survive encoding and decoding |
| Codec.ReadInt32Inverse | src/protocol.cpp:28-30 | four bytes survive decoding and encoding |
| Imu.ParseGetImuData | src/protocol.cpp:407-461 | decoding succeeds if and only if the ID is 65 and there are four bytes for each bit set in the big-endian mask; field i is the big-endian word after those of the lower bits set if its bit is set, and otherwise 1.0 for the quaternion's W and 0.0 for the others |
| Imu.FieldsByMask | src/protocol.cpp:421-458 | the same of the samples and fields that the other laws are about |
| Imu.FullSample | src/protocol.cpp:421-458 | with the full mask, a sample has 67 bytes or more and field i is the word at byte 3 + 4 i |
| Imu.DecodesWhatWasEncoded | src/protocol.cpp:407-461 | decoding inverts a masked encoder, for every mask and any trailing bytes |
| Imu.SampleIsEncoding | src/protocol.cpp:407-461 | a sample begins with the encoding of what is decoded from it |
| LispTransfer.RequestLispCode | src/controller_client.cpp:556-612 | against any device the reading loop computes the read that the laws are about and leaves the device where that leaves it |
| LispTransfer.PackLispCode | src/protocol.cpp:278-292 | the appending code builds size, CRC, flags and program, and nothing for an empty or oversized image |
| LispTransfer.EraseLispCodeUntil | src/controller_client.cpp:614-628 | one order, 132 and the size, refused for a size that is not a positive 32-bit number, unanswered, rejected, or acknowledged by exactly 132, 1 |
| LispTransfer.EraseLispCode | src/controller_client.cpp:631-638 | erasing alone is one order for 16 bytes |
| LispTransfer.WriteChunks | src/controller_client.cpp:660-677 | the writing loop sends the chunks of 384 bytes one after the other, each after the acknowledgement of the one before, and stops at the first failure |
| LispTransfer.WriteLispCode | src/controller_client.cpp:640-678 | images that cannot be packed touch nothing; otherwise the writing loop performs the plan of one erase and the chunk writes, each after the acknowledgement of the one before |
| LispLaws.ReadIsTiled | src/controller_client.cpp:566-611 | against any device every request is valid, reads are bounded by 1 + ceil((total-10)/400), and a result has the first declared total and is tiled without gap or overlap by the replies |
| LispLaws.RestTiles | src/controller_client.cpp:590-609 | each further read extends the image by exactly the chunk asked for |
| LispLaws.WritesStayInErasedRange | src/controller_client.cpp:653-675 | the chunk writes are valid, cover the packed image in order and stay inside the range erased |
| LispLaws.PackedSize | src/protocol.cpp:278-292 | the packed image is eight bytes longer, starts with the size and ends with the image |
| LispLaws.PackedChecks | src/protocol.cpp:278-292 | the CRC field of a packed image is the only one that leaves flags and program with residue zero |
| LispWire.BuiltExactlyWhen | src/protocol.cpp:182-218 | reads of 1 to 502 bytes that end below 2^31, erases of 1 to 2^31 - 1 bytes and writes of 1 to 507 bytes are built, as 130, 132 and 131 with big-endian fields, and nothing else |
| LispWire.PackedBytes | src/protocol.cpp:278-292 | the packed image is its size, two bytes that complete flags and image to a multiple of the generator, two zero flags and the image |
| LispWire.WriteSucceedsExactlyWhenAcked | src/controller_client.cpp:640-678 | against any device, a write succeeds if and only if 132 with the size and 102 more gets exactly 132, 1, and each chunk, 131 with its offset and the next 384 bytes, gets exactly 131, 1 and its own offset |
| LispWire.FailureIsExplained | src/controller_client.cpp:614-678 | otherwise the first order that does not get its acknowledgement decides: no reply if there was none, rejected if there was another |
| LispWire.ReplyMeans | src/protocol.cpp:471-493 | a read reply is accepted if and only if it has 130, a nonnegative total of at most 524274 and a nonnegative offset with as many bytes as fit, and these are what is read from it |
| LispWire.ReadRequests | src/controller_client.cpp:566-611 | against any device, a read asks for ten bytes at offset 0 and then for the rest of the declared total in pieces of 400 |
| LispWire.SmallRead | src/protocol.cpp:182-194 | the first of these is 130, 0, 0, 0, 10, 0, 0, 0, 0, as every read of fewer than 256 bytes from such an offset |
| LispLaws.WriteStoresImage | src/controller_client.cpp:640-678 | against an honest device, which refuses writes outside the range it was told to erase, a successful write leaves the packed image in flash and the image as the program, and without faults a write succeeds |
| LispLaws.ReplyParts | src/protocol.cpp:471-493 | a well-formed read reply parses to its total, offset and bytes |
| LispLaws.ReadReturnsCode | src/controller_client.cpp:556-612 | against an honest device a read of at least ten stored bytes returns them whenever it completes, and completes without faults |
| LispLaws.ReadsNothingShort | src/controller_client.cpp:579-584 | against any device a read returns nothing, the empty program or at least ten bytes |
| LispLaws.ShortIsUnreadable | src/controller_client.cpp:582-584 | against any device that declares one to nine bytes, a read returns nothing |
| LispLaws.ReadOfShortCode | src/controller_client.cpp:579-584 | from an honest device, whether or not it answers a read past the end with the bytes it has, one to nine stored bytes are never read, and no bytes read as the empty program |
| LispLaws.EraseThenRead | src/controller_client.cpp:631-638 | after a successful erase a read that completes finds no program |
| LispLaws.WriteThenRead | src/controller_client.cpp:556-678 | after a successful write a read that completes returns exactly the image, under any faults |
| LispLaws.ReadableExactlyFromTenBytes | src/controller_client.cpp:582-584 | without faults a write succeeds and the image is read back if and only if it has at least ten bytes |

## Left out

- Serial ports, termios, `glob`, pipes and `select` are system calls; the model lets them return anything they may return.
- `IEEE 754` arithmetic and telemetry scaling in `parse_get_values`: floats are reals with special values, or bit patterns. Scaling by at most 100000 is exact in double precision; nothing is said about other rounding.
- Subscriptions, callback bodies, sample caches and timestamps; a callback that disconnects is a `Disconnect` event between two steps of the I/O thread, and the refusal of queries from callbacks is not modelled.
- The computation of the wait time before `select`; the clock may advance by any amount at any step.
- The memory model of atomics. Each locked region, atomic access, system call and callback is one step; the reads of the two poll intervals in one selection, the clock read together with the reschedule flags, and the stop check together with the write call after it are single steps.
- A frame cut in two by the end of a connection: `Client` takes it as dropped or read whole, and `Reception` starts with receiver and line in agreement.
- `Correlation.RepliesAnswerTheirRequests` protects management requests only: a late telemetry or firmware-version reply may complete a newer request with the same ID, as in the source.
- `SteadyClock::duration::max()` for disabled polls is taken as beyond every guard window.
- Management operations other than configuration writes are any sequence of management requests under the lock; their own acknowledgement parsers and FOC parameter checks would add only one-branch facts.
- `Client` accepts any command payload of 1 to 512 bytes; the laws that depend on command IDs are stated for the payloads of the public calls, which are short.
- Firmware behaviour beyond the honest LispBM device: calibration, persistence of configurations, running programs.
- Examples, build files and device discovery.
