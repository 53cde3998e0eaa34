# Wire-harness tester: model and proofs

The firmware runs a tester for wire harnesses. A backend tells a master which slaves there are; the
master deals the wires out to the slaves over a UWB radio, starts scans in which all slaves step through
the wires in lock-step, and collects a bit matrix from each slave. This project models the parts of that
system in which something can go wrong quietly, and proves what they are for.

| file | what it models |
|---|---|
| `ReadWriteLock.dfy` | the reader/writer lock with a promise of promotion: the class, and any number of tasks interleaving its uninterrupted blocks |
| `Uci.dfy` | cutting a payload into UCI segments, and the parser that takes one byte at a time |
| `Uwb.dfy` | the receive path above that parser, and the queue of user data |
| `Protocol.dfy` | messages, record lists, packets and frames for all five directions |
| `Acknowledge.dfy` | sending a configuration until a slave has echoed it |
| `Partition.dfy` | dealing the wires out to the slaves |
| `Matrix.dfy` | the bit matrix and its packed form |
| `Harness.dfy` | one slave's timer callbacks, and all slaves scanning together |
| `Manager.dfy` | the master's batches and sessions |
| `Timing.dfy` | master and slaves on one clock |
| `Dw1000.dfy` | the search for the pulse-generator delay and the rebalancing of transmit power |
| `TagPacket.dfy` | the six layers of a tag's packet |
| `Bytes.dfy` | words and double words as bytes |

Objects whose methods change fields are classes, and each method is proved against a function on a
`View()` of the fields; the main results are lemmas about those functions over whole runs.

## Where the code differs from what one would expect

These are kept as the code has them, each with the exact condition under which the expected property holds.

- The UCI parser clears its mark of a complete packet only in its first state, so a message of several
  segments is reported on every byte of its last segment (`Uci.ReportedOnce`, `Uci.SegmentsRoundTrip`).
- A payload of more than 65536 bytes is segmented for ever (`Uci.SendingEnds`).
- The reply to a resistance configuration is written high byte first and read low byte first
  (`Protocol.MessageRoundTrip`).
- Two decoders go on reading after noticing that the payload is too short (`Protocol.FramesReadPastEnd`).
- A reply of the wrong size is compared with whatever the reply object held before, so a command whose fields
  that object already holds, like one sent twice in a row, can be reported as done without an answer to it
  (`Acknowledge.DoneMeansEchoedExactly`).
- `reload` indexes a pin of the slave only for the slave that owns the last wire (`Scan.ReloadAfterScan`).
- The fields of the power register are masked, so an adjustment that does not fit wraps around
  (`Dw1000.PowerConserved`).
- The timer period is cut to sixteen bits, and from 3272 wires on it is too short for a scan; and the timer is
  already running, since the enable, while the first sync is sent (`Timing.ScansDoNotOverlap`).
- A slave that is configured a second time has the pins of both configurations (`Scan.Harness.Init`).

Where the code and `document/Wireless Harness Test System Protocal.md` disagree, the model follows the code: the
messages of a slave to the master have the ids 0x10, 0x11, 0x12 and 0x30, a slave's reports carry its four-byte id
before the device status, the master's reset reply has the lock before the clips in each record, and its data
messages to the backend exist by name only. The frames in the tutorial beside it have one more byte in their header.

## Model

| member | source | states |
|---|---|---|
| `ReadWrite.Exclusion` | Source/Middlewares/FreeRTOScpp/ReadWrite.cpp:73-219 | Over every interleaving of any number of tasks that keep the discipline: the count is -1 exactly when some task has the write lock; then no other task has a write or a read lock; without a writer the count is the number of read locks held; the promise is always that of a task with a read lock |
| `ReadWrite.RunKeepsInv` | Source/Middlewares/FreeRTOScpp/ReadWrite.cpp:73-219 | The invariant holds after every disciplined run, of any length, from any state that satisfies it |
| `ReadWrite.UnlocksSucceed` | Source/Middlewares/FreeRTOScpp/ReadWrite.cpp:139-219 | In every disciplined run neither unlock refuses: the count is positive when a read unlock reaches its critical section, and negative when a write unlock looks at it |
| `ReadWrite.ReadersShare` | Source/Middlewares/FreeRTOScpp/ReadWrite.cpp:73-83 | An attempt of the read loop adds the task to the readers, however many there are, if and only if no writer has the lock and its priority exceeds the request; otherwise nothing changes |
| `ReadWrite.TwoReaders` | Source/Middlewares/FreeRTOScpp/ReadWrite.cpp:73-83 | A concrete run after which two tasks have read locks at once |
| `ReadWrite.PromiseIsGiven` | Source/Middlewares/FreeRTOScpp/ReadWrite.cpp:94-106 | The same for the loop that also reserves, if nobody has the promise, which the task then has |
| `ReadWrite.PromiseIsAdded` | Source/Middlewares/FreeRTOScpp/ReadWrite.cpp:116-126 | A reader that asks for the promise gets it if and only if nobody has it |
| `ReadWrite.WriterIsGranted` | Source/Middlewares/FreeRTOScpp/ReadWrite.cpp:165-176 | A writer is granted the lock if and only if there is no writer and no reader, or no reader but itself with the promise |
| `ReadWrite.GrantPromises` | Source/Middlewares/FreeRTOScpp/ReadWrite.cpp:94-126 | Both ways to be granted the promise leave its holder with it, with no writer but possibly itself |
| `ReadWrite.Promotion` | Source/Middlewares/FreeRTOScpp/ReadWrite.cpp:94-219 | From the grant of the promise until its holder drops it, through every upgrade and whatever the others do, nobody else has or can be granted the write lock, the data changes only by the holder's own updates, and the holder is granted the write lock exactly when it is the only reader |
| `ReadWrite.PromotionHandsBack` | Source/Middlewares/FreeRTOScpp/ReadWrite.cpp:165-219 | Whenever, in such a run, the holder is about to give the write lock back, it has it, and is left the one reader with its promise, ready to be upgraded again |
| `ReadWrite.PromiseNeedsReadLock` | Source/Middlewares/FreeRTOScpp/ReadWrite.cpp:116-126 | A concrete run: a promise requested without a read lock lets a writer in beside a reader, so that part of the discipline is needed |
| `ReadWrite.ReleaseWhileWritingLosesReadLock` | Source/Middlewares/FreeRTOScpp/ReadWrite.cpp:128-137 | A concrete run: dropping the promise while upgraded leaves a read lock that is not counted, and any writer can be granted beside it |
| `ReadWrite.WriterDrainsReaders` | Source/Middlewares/FreeRTOScpp/ReadWrite.cpp:165-204 | Until a writer is granted or times out, the request never falls below a priority once raised to it, no task of at most that priority gets a read lock, whoever else does, and when no reader has a higher one the count never rises |
| `ReadWrite.BlockedWriterDrainsReaders` | Source/Middlewares/FreeRTOScpp/ReadWrite.cpp:165-204 | So from the step in which a refused writer raises the request: until a writer is granted or times out no task of its priority or less becomes a reader |
| `ReadWrite.RequestFallsOnlyWithWriter` | Source/Middlewares/FreeRTOScpp/ReadWrite.cpp:171-197 | The request falls exactly when a writer is granted, or a writer of just that priority times out |
| `ReadWrite.ReadWriteLock.TryRead` | Source/Middlewares/FreeRTOScpp/ReadWrite.cpp:76-83 | An attempt is granted exactly when no writer holds the lock and the priority exceeds the request; it then counts one more reader, and otherwise nothing changes |
| `ReadWrite.ReadWriteLock.TryReserved` | Source/Middlewares/FreeRTOScpp/ReadWrite.cpp:98-106 | The same with a promise that nobody has yet, which it takes |
| `ReadWrite.ReadWriteLock.RequestReserved` | Source/Middlewares/FreeRTOScpp/ReadWrite.cpp:116-126 | A reader count above zero and no promise are needed; only then the promise changes |
| `ReadWrite.ReadWriteLock.DropCount` | Source/Middlewares/FreeRTOScpp/ReadWrite.cpp:147-157 | One reader fewer if there is one, failure otherwise; the promise is cleared at zero |
| `ReadWrite.ReadWriteLock.TryWrite` | Source/Middlewares/FreeRTOScpp/ReadWrite.cpp:170-176 | Granted with no reader, or with the one reader that has the promise; the promise is kept and the request cleared |
| `ReadWrite.ReadWriteLock.WithdrawRequest` | Source/Middlewares/FreeRTOScpp/ReadWrite.cpp:183-192 | A writer that times out clears the request if it is of its own priority |
| `ReadWrite.ReadWriteLock.RaiseRequest` | Source/Middlewares/FreeRTOScpp/ReadWrite.cpp:195-200 | A waiting writer raises the request to its priority and never lowers it |
| `ReadWrite.ReadWriteLock.StoreCount` | Source/Middlewares/FreeRTOScpp/ReadWrite.cpp:209-214 | The count after a write unlock: one for the promised holder, none otherwise |
| `Uci.PacketBuilder.BuildPacket` | Source/Core/uwb/uci/cx_uci.hpp:61-104 | Each call makes the next segment of the payload, says whether it is the last, and moves the 16-bit offset on or back to zero |
| `Uci.OffsetAt` | Source/Core/uwb/uci/cx_uci.hpp:61-104 | Up to 65536 bytes the offset of segment k is 1024 k without wrapping, all but the last segment are full, exactly the last call reports the end, and the offset is zero again afterwards |
| `Uci.SendingEnds` | Source/Core/uwb/uci/cx_uci.hpp:61-104 | Some call reports the last segment if and only if the payload has at most 65536 bytes |
| `Uci.FlowParser.FlowParse` | Source/Core/uwb/uci/cx_uci.hpp:106-168 | One byte moves the parser as its specification says, with the fall through from the first state, and the result is last segment and packet complete |
| `Uci.FeedPackets` | Source/Core/uwb/uci/cx_uci.hpp:61-168 | After the first k segments the parser holds just the first 1024 k bytes, and has reported nothing |
| `Uci.SegmentsRoundTrip` | Source/Core/uwb/uci/cx_uci.hpp:61-178 | From any point between packets, feeding all segments of a payload of at most 65536 bytes recovers payload, type, group and opcode, reports it on the last byte and ends between packets; the number of reports is stated exactly |
| `Uci.ReportedOnce` | Source/Core/uwb/uci/cx_uci.hpp:107-111 | A message is reported once if and only if it fits one segment: the mark of a complete packet is cleared only in the first state |
| `Uwb.UWB.NotifyProcess` | Source/Core/uwb/uwb/uwb.hpp:386-445 | A ready status moves a booting device to READY, received user data is queued without its two length bytes, everything else is left alone |
| `Uwb.UWB.Update` | Source/Core/uwb/uwb/uwb.hpp:316-320 | Loads what has arrived and absorbs the whole queue, byte by byte in order |
| `Uwb.UWB.GetRecvData` | Source/Core/uwb/uwb/uwb.hpp:273-289 | After an update, a ready device hands out everything queued, in order, and empties the queue; otherwise it fails and keeps it |
| `Uwb.UWB.Await` | Source/Core/uwb/uwb/uwb.hpp:347-364 | One poll absorbs bytes up to and including the first that completes a response; the rest stays queued |
| `Uwb.UWB.RspProcess` | Source/Core/uwb/uwb/uwb.hpp:347-368 | The whole wait is those polls until one finds a response or the arrivals are used up |
| `Uwb.WaitIsPolls` | Source/Core/uwb/uwb/uwb.hpp:347-368 | A wait for a response is a run of polls, so that everything proved about runs of calls covers it |
| `Uwb.OpsKeepWhole` | Source/Core/uwb/uwb/uwb.hpp:273-384 | Whatever calls are made on however cut arrivals, what was delivered, what is queued and what is still to come add up to the same result |
| `Uwb.OpsKeepSafe` | Source/Core/uwb/uwb/uwb.hpp:370-445 | If no notification in the stream is too short for its handler, no later call meets one |
| `Uwb.AbsorbItems` | Source/Core/uwb/uwb/uwb.hpp:370-445 | A stream of user data, device status, other one-segment packets and stray bytes, given byte by byte: its notifications are heard once each in order, just the user data behind the two length bytes is queued, and a booting device becomes ready with the first ready status |
| `Uwb.Lossless` | Source/Core/uwb/uwb/uwb.hpp:273-445 | For any such stream, cut in any way over any calls: what callers got followed by what is queued is a prefix of the user data sent, all of it once everything is parsed, and every notification is handled exactly once |
| `Uwb.WaitEndsAtResponse` | Source/Core/uwb/uwb/uwb.hpp:347-364 | A wait for a response takes the stream up to the last byte of the first response, and what follows stays queued |
| `Uwb.NothingBeforeReady` | Source/Core/uwb/uwb/uwb.hpp:273-289 | A booting device hands out nothing before it has reported that it is ready |
| `Uwb.LastReadDelivers` | Source/Core/uwb/uwb/uwb.hpp:273-289 | A read by a ready device when everything has arrived completes the delivery and leaves both queues empty |
| `Protocol.SerializeConfigs` | Source/Core/protocol.hpp:938-952 | The list loop writes the nine-byte records in order |
| `Protocol.DeserializeConfigs` | Source/Core/protocol.hpp:954-994 | The list loop reads exactly the records of its specification, with every index inside the data |
| `Protocol.DeserializeResets` | Source/Core/protocol.hpp:1055-1091 | The same for the seven-byte records |
| `Protocol.ConfigsCount` | Source/Core/protocol.hpp:954-994 | The number of records read is the smaller of the announced number and the records present |
| `Protocol.ResetsCount` | Source/Core/protocol.hpp:1055-1091 | The same for reset records |
| `Protocol.ConfigsRoundTrip` | Source/Core/protocol.hpp:938-994 | Records written behind any prefix are read back in order, up to the announced number |
| `Protocol.ResetsRoundTrip` | Source/Core/protocol.hpp:1041-1091 | The same for reset records |
| `Protocol.DecodePayload` | Source/Core/protocol.hpp:485-1459 | What each of the 23 message kinds is received as, for all field values |
| `Protocol.MessageRoundTrip` | Source/Core/protocol.hpp:485-1459 | A message is recovered if and only if its list is no longer and its data as long as announced and, for the swapped reply, each counter has two equal bytes |
| `Protocol.DecodedIsPayload` | Source/Core/protocol.hpp:485-1459 | The other direction: whatever is decoded is the payload of just that message, or, for the syncs, resets and lists, of which more is ignored, begins with it |
| `Protocol.FramesReadPastEnd` | Source/Core/protocol.hpp:1675-1870 | Of all byte strings, exactly the well-framed and well-addressed syncs with fewer than five payload bytes and resets with fewer than three make a receiver read past the end, and only a slave |
| `Protocol.ShortFramesReadPastEnd` | Source/Core/protocol.hpp:501-740 | Two frames of twelve bytes that do so at every slave |
| `Protocol.FrameRoundTrip` | Source/Core/protocol.hpp:110-152 | A frame is opened as the packet it was made of exactly when that packet has at most 65535 bytes; a longer one is rejected |
| `Protocol.OnlyFramesOpen` | Source/Core/protocol.hpp:1466-1489 | Of all byte strings exactly the frames of packets of at most 65535 bytes are opened |
| `Protocol.ParseRoundTrip` | Source/Core/protocol.hpp:1466-1870 | A framed message reaches each role that parses its kind, and a slave it is addressed to, as specified for its kind, and is rejected by everyone else and whenever it is too long |
| `Protocol.Delivered` | Source/Core/protocol.hpp:1491-1870 | Message by message: the master receives the four commands of the backend and the answers and reports of slaves, an addressed slave the eight messages of the master, the backend its four replies, and nobody anything else |
| `Protocol.KnownSlaveFrames` | Source/Core/protocol.hpp:34-60 | The bytes of a frame for each message to a slave |
| `Protocol.KnownAnswerFrames` | Source/Core/protocol.hpp:53-58 | The bytes of a frame for each answer of a slave |
| `Protocol.KnownReportFrames` | Source/Core/protocol.hpp:290-317 | The bytes of a frame for each report of a slave |
| `Protocol.KnownListFrames` | Source/Core/protocol.hpp:938-952 | The bytes of a frame for each list of records |
| `Protocol.KnownCommandFrames` | Source/Core/protocol.hpp:60-75 | The bytes of a frame for each other command and reply |
| `Acknowledge.Sends` | Source/Core/master/slave_manager.hpp:46-78 | From any transmission on at least one more is made, and at most four in all |
| `Acknowledge.SentUntilAnswered` | Source/Core/master/slave_manager.hpp:46-78 | A frame is sent until a transmission is answered acceptably, cannot be made, or was the fourth; it succeeds if and only if one is answered before any cannot be made |
| `Acknowledge.RepeatedUntilHeard` | Source/Core/master/slave_manager.hpp:46-78 | Through silences and answers of slaves that have stored something else a configuration is repeated, and succeeds with the first answer that carries it; four such transmissions give up |
| `Acknowledge.ReadAnsweredByData` | Source/Core/master/master_mode.cpp:209-219 | A read is answered by conduction data and by no other message, and a configuration never by data |
| `Acknowledge.ProcessBase.SendFrame` | Source/Core/master/slave_manager.hpp:46-78 | The outcome and the number of transmissions for every pattern of failures, silences and replies, and for a frame that is not answered |
| `Acknowledge.ProcessBase.CondConfig` | Source/Core/master/slave_manager.hpp:170-198 | The request made of a command and a time slot, its frame, and the outcome of sending it |
| `Acknowledge.DoneMeansEchoed` | Source/Core/master/slave_manager.hpp:46-78 | A command reported as done was echoed field for field by the last reply, or the last reply was malformed while the reply object held the same fields from an earlier command |
| `Acknowledge.DoneMeansEchoedExactly` | Source/Core/master/slave_manager.hpp:46-127 | Whatever becomes of the transmissions, done means echoed, if and only if the reply object does not already hold the fields of the command; otherwise one malformed frame that the master can receive is enough |
| `Acknowledge.DoneMeansApplied` | Source/Core/master/slave_manager.hpp:46-127 | When all that is heard comes from slaves, a command reported as done was last answered by a slave that has stored exactly what was asked, slot included |
| `Acknowledge.AcknowledgedIsApplied` | Source/Core/slave/src/msg_proc.cpp:19-41 | A slave stores what the request says, and its answer is accepted if and only if it stored what was requested |
| `Acknowledge.ProcessBase.ProcessCondAck` | Source/Core/master/master_mode.cpp:125-155 | A reply counts exactly when a configuration reply is expected and all five fields equal the request |
| `Acknowledge.ProcessBase.RspProcess` | Source/Core/master/slave_manager.hpp:102-127 | What is accepted and what the static reply object holds afterwards, for every received byte string |
| `Acknowledge.OthersStoreNothing` | Source/Core/protocol.hpp:1466-1870 | A slave that is not addressed stores nothing |
| `Partition.Forward` | Source/Core/master/pc_message.hpp:34-96 | The commands sent and the reply, for every list and every outcome of the forwarding: totals, prefix-sum starts, order, and failure exactly when some forwarded command failed in time |
| `Partition.DecodedListIsShort` | Source/Core/master/pc_message.hpp:38-61 | A decoded list has at most 255 slaves and 65025 wires, so that total and starts are exact in their sixteen bits |
| `Partition.RangesPartition` | Source/Core/master/pc_message.hpp:42-61 | Every wire below the total lies in the range of exactly one slave, and no other wire in any |
| `Scan.Harness.Init` | Source/Core/slave/inc/harness.h:231-241 | New pins, all inputs, come after the pins there are, and the matrix is resized with its old cells kept; the slave ends with as many pins as it was told exactly when it had none |
| `Matrix.BinaryMatrix.Resize` | Source/Core/slave/inc/harness.h:45-52 | The new shape, with the old cells that still fit and zeros elsewhere |
| `Matrix.BinaryMatrix.Flatten` | Source/Core/slave/inc/harness.h:54-80 | The bytes are the packed form of the cells in row order |
| `Matrix.FlattenExact` | Source/Core/slave/inc/harness.h:54-80 | There are just enough bytes, and the bit at each cell's place, first bit highest, is that cell's lowest bit |
| `Matrix.FlattenPads` | Source/Core/slave/inc/harness.h:74-77 | The bits after the last cell are zero |
| `Matrix.FlattenInjective` | Source/Core/slave/inc/harness.h:54-80 | Two matrices of zeros and ones of the same shape with the same bytes are equal |
| `Scan.Harness.StartWithCount` | Source/Core/slave/inc/harness.h:168-174 | A positive count restarts the trigger counter and the timer, any other changes nothing |
| `Scan.Harness.Run` | Source/Core/slave/inc/harness.h:209-229 | The pin of the row before is released, this row's pin is driven if it is the slave's own, and the row is what the pins read |
| `Scan.Harness.TimerCallback` | Source/Core/slave/inc/harness.h:176-185 | One callback samples the next row, or after the last row stops the timer and reloads |
| `Scan.Harness.Reload` | Source/Core/slave/inc/harness.h:243-250 | The pin of the last row is released and the row counter is zero again |
| `Scan.ScanProgress` | Source/Core/slave/inc/harness.h:176-229 | After k callbacks rows 0 to k-1 have been sampled once each in order, the rest is untouched, and at most the pin of row k-1 is driven |
| `Scan.ReloadAfterScan` | Source/Core/slave/inc/harness.h:243-250 | At the end the reload stays inside the pins if and only if the slave owns the last wire; then all pins are inputs and the slave is ready again; all other slaves already have only inputs |
| `Scan.ScansAgain` | Source/Core/slave/inc/harness.h:168-250 | So the slave that owns the last wire can start again after every scan |
| `Scan.ConfiguredAsDealt` | Source/Core/slave/src/msg_proc.cpp:19-41 | Each slave stores of the request made for it its place as its slot, its number of wires, the total, and the sum of the wires before it as its start |
| `Scan.RowsSampled` | Source/Core/slave/inc/harness.h:176-229 | After n rows in lock-step every slave holds the first n rows of the wiring, restricted to its wires |
| `Scan.ScanMeasuresWiring` | Source/Core/slave/inc/harness.h:204-229 | For every wiring and every dealt-out list of slaves: one wire is driven in every row, and at the end the matrices side by side are the conduction relation |
| `Scan.AnswerRead` | Source/Core/slave/src/msg_proc.cpp:45-57 | A read request is answered with the packed matrix in a frame for the backend |
| `Scan.ReadOutArrives` | Source/Core/protocol.hpp:1345-1386 | The master recovers the packed matrix if and only if it has at most 65526 bytes; otherwise the frame is rejected |
| `Scan.MasterLearnsWiring` | Source/Core/slave/src/msg_proc.cpp:45-57 | From wiring to master: the packed answer of every slave after a scan of the whole harness is received, and each of its bits is whether the row's wire conducts to the slave's own |
| `Manager.SlaveManager.ConfigProcess` | Source/Core/master/slave_manager.hpp:442-484 | Registers the device in the next slot, whether or not it answered, starts a new list at the start of a batch, and reports success when the configuration was acknowledged |
| `Manager.SlaveManager.GetTimerPeriod` | Source/Core/master/slave_manager.hpp:433-440 | The period of a mode, cut to sixteen bits |
| `Manager.SlaveManager.CtrlProcess` | Source/Core/master/slave_manager.hpp:485-520 | A session starts exactly on an enable with slaves configured while none is running, and then the semaphore is given and the timer armed with its new period; a disable ends it and stops the timer |
| `Manager.SlaveManager.PollSync` | Source/Core/master/slave_manager.hpp:616-642 | A given semaphore is taken; if data is due the timer is stopped and the devices are read, and otherwise a sync is sent |
| `Manager.SlaveManager.EndRead` | Source/Core/master/slave_manager.hpp:637-642 | After the read the timer is restarted and a sync is sent |
| `Manager.SlaveManager.EndSend` | Source/Core/master/slave_manager.hpp:643-643 | After the sync has been sent the timer is restarted |
| `Manager.SlaveManager.SyncTimerCallback` | Source/Core/master/slave_manager.hpp:441-441 | The semaphore is given and the timer reloads itself |
| `Manager.BatchRegisters` | Source/Core/master/slave_manager.hpp:442-484 | An uninterrupted batch of n devices, n at most 255, registers exactly those, in order, in slots 0 to n-1, each configured with its own slot, and each reported as it was acknowledged |
| `Manager.SlaveManager.ReadCondDataProcess` | Source/Core/master/slave_manager.hpp:521-557 | Every registered device is read, in order |
| `Manager.SlaveManager.Handle` | Source/Core/master/slave_manager.hpp:558-614 | Configuration and mode commands have an effect only while nothing runs |
| `Manager.DealtBatchRegisters` | Source/Core/master/slave_manager.hpp:442-484 | The commands dealt out for a list leave the manager with that list and its exact number of wires |
| `Manager.Session` | Source/Core/master/slave_manager.hpp:485-649 | From an accepted enable to the next disable, for every order of commands, timer and task: mode, devices, total and period do not change, slaves remain configured, and the radio carries a sync and then, for each further sync, first a read of every device in order |
| `Manager.SessionReads` | Source/Core/master/slave_manager.hpp:521-557 | The reads of a session are one request to each device in the order of registration in the mode for conduction tests, and none in other modes |
| `Manager.DisableEndsSession` | Source/Core/master/slave_manager.hpp:515-519 | A disable ends the session and stops the timer; devices, mode, total and record stay |
| `Manager.DisabledStaysSilent` | Source/Core/master/slave_manager.hpp:616-617 | Until the next enable no sync and no read is sent, whatever commands come and even if the timer fires |
| `Manager.CommandsAreTaken` | Source/Core/master/slave_manager.hpp:566-596 | Outside a session modes and configurations take effect again, and an enable begins the next session |
| `Timing.TimedSession` | Source/Core/master/slave_manager.hpp:485-649 | Every run on the clock is such a session |
| `Timing.SpacedRuns` | Source/Core/master/slave_manager.hpp:485-649 | Under the condition of the next row, the invariant of the clock holds in every timed run: the semaphore is given no earlier than a period after a sync was sent, and every scan ends before that |
| `Timing.ScansDoNotOverlap` | Source/Core/master/slave_manager.hpp:433-649 | In every timed run of every session no slave scans when the master reads or sends a sync, and no sync restarts a scan, if and only if the period outlasts a scan and the time in which syncs are heard, and, unless sending takes no time, the first sync has been sent before the timer that was armed by the enable expires; or nothing is ever scanned |
| `Timing.ConductionScansDoNotOverlap` | Source/Core/master/slave_manager.hpp:433-440 | For conduction tests with syncs heard within 80 ticks the first part is: at most 3271 wires |
| `Timing.SlowFirstSync` | Source/Core/master/slave_manager.hpp:495-506 | For all waits that break the second part, a run in which a slave is read while it scans |
| `Timing.ShortPeriod` | Source/Core/master/slave_manager.hpp:433-440 | For all periods that break the first part, such a run |
| `Dw1000.CalcBandwidthTempAdj` | Source/Drivers/DW1000/decadriver/deca_device.c:3662-3714 | For every non-increasing count the result is nearest the target among all settings when one is within the tolerance and zero otherwise; for any count the probes kept and rejected last bracket the target |
| `Dw1000.AdjustLane` | Source/Drivers/DW1000/decadriver/deca_device.c:3742-3779 | The loop ends, never lowers attenuation back to zero, and changes the attenuation by the least that brings the gain into its band or by the most it may |
| `Dw1000.ComputeTxPowerSetting` | Source/Drivers/DW1000/decadriver/deca_device.c:3732-3785 | Each of the four bytes is the byte in its place, rebalanced for the adjustment cut to a signed byte |
| `Dw1000.LaneDetermined` | Source/Drivers/DW1000/decadriver/deca_device.c:3740-3782 | A byte of the result depends on nothing but that byte and the adjustment |
| `Dw1000.PowerConserved` | Source/Drivers/DW1000/decadriver/deca_device.c:3747-3779 | Gain less five times attenuation changes by just the adjustment if and only if the result can be represented in the two fields |
| `Dw1000.CalcPowerTempAdj` | Source/Drivers/DW1000/decadriver/deca_device.c:3805-3838 | The register is unchanged for no power difference and for other channels than 2 and 5, and otherwise rebalanced by the difference rounded toward zero |
| `Dw1000.WarmerMeansMore` | Source/Drivers/DW1000/decadriver/deca_device.c:3810-3831 | The difference has the sign of the temperature difference and its size is 607 or 327 times that over 4096, rounded down, exactly as far as this fits a signed byte |
| `TagPacket.UWBPacketBuilder.BuildTag2BackendPacket` | Source/Core/tag_uwb_protocol.hpp:21-36 | The counter goes up by one, modulo its width, and the packet is the six layers around the data with the new counter |
| `TagPacket.UWBPacketBuilder.BuildFrame` | Source/Core/tag_uwb_protocol.hpp:245-267 | The frame layer around what was built so far |
| `TagPacket.UWBPacketBuilder.CalculateFrameChecksum` | Source/Core/tag_uwb_protocol.hpp:79-86 | The sum of all bytes, modulo 65536 |
| `TagPacket.EnvelopeRoundTrip` | Source/Core/tag_uwb_protocol.hpp:21-36 | A receiver that checks every length field and both checksums recovers UID, counter and data if and only if the data has at most 1016 bytes |
| `TagPacket.PayloadFormat` | Source/Core/tag_uwb_protocol.hpp:89-122 | The innermost layer byte by byte: low byte of the counter, length, data |
| `TagPacket.MsgFormat` | Source/Core/tag_uwb_protocol.hpp:144-157 | Message id 43 in six bits and the length in ten, high byte first |
| `TagPacket.SharedFormat` | Source/Core/tag_uwb_protocol.hpp:175-187 | UID and counter, high byte first |
| `TagPacket.PacketFormat` | Source/Core/tag_uwb_protocol.hpp:202-221 | Packet id 2, size 12 in six bits and the message length in ten |
| `TagPacket.FrameFormat` | Source/Core/tag_uwb_protocol.hpp:245-267 | Start byte, length low byte first, the sum of those three modulo 256, the packet, and the sum of all modulo 65536 |
| `TagPacket.UciFormat` | Source/Core/tag_uwb_protocol.hpp:270-288 | The outermost header: 0x23, 0, and the length high byte first |
| `TagPacket.CorruptionDetected` | Source/Core/tag_uwb_protocol.hpp:262-266 | Changing any one summed byte of a frame makes the receiver refuse it |

## Left out

- The lock's event bits, wake-ups and tick counts: after a failed attempt a task may time out or try again at any moment, which allows every run the code has. Task priorities do not change.
- `ReadWrite.Exclusion`: holds for tasks that unlock what they hold, ask for a promise only over a read lock, and neither read-unlock nor drop the promise while they have the write lock; two lemmas show runs that break the promise and the release rules.
- `ReadWrite.ReadWriteLock.TryRead`: one attempt, as the unit of interleaving; the retry loop around it is part of the state machine, as it is for the other two lock operations.
- `Uci.PacketBuilder.BuildPacket`: sending and receiving use separate objects in the program, and are two classes here; the caller passes the same payload to every call until the last segment.
- `Uci.FlowParser.FlowParse`: the caller's payload vector is a field of the parser here.
- `Uwb.UWB.RspProcess`: takes what arrives at each poll instead of reading a clock; the log of handled notifications is a ghost field.
- `Uwb.UWB.NotifyProcess`: needs the payload bytes that its handler indexes without a length check; `Uwb.OpsKeepSafe` and `Uwb.Lossless` show where that is given.
- The status byte that the response checks read from a buffer nothing fills, application data of more than 1020 bytes, and the commands to the chip.
- The device status in a slave's packet is never set by the packing function; it is a parameter here.
- A data message whose length field and data disagree still updates the length field of the reused object; here it counts as `Stale` without a value.
- `Acknowledge.ProcessBase.RspProcess`: covers replies to conduction configurations and conduction data; the replies to clip and resistance configurations, whose handlers have the same form, count as not accepted. The source id of a reply is not compared, as in the code.
- `Acknowledge.AcknowledgedIsApplied`: the slave's part is its decoding and its answer; what `init` then does is `Scan.Harness.Init`.
- `Acknowledge.DoneMeansApplied`: a reply is believed whichever slave it comes from, as in the code; that it was the slave asked follows only from the time slot within one batch.
- `Scan.ScanMeasuresWiring`: the slaves have been configured once; the board has 62 pins, which the model does not limit.
- `Scan.Harness.Reload`: requires the index to lie inside the pins; for the slaves for which it does not, only that fact is proved.
- `Scan.Harness.Run`: the pin levels are a parameter and the delays take no time; in the whole harness all slaves switch before any of them samples.
- A restart in the middle of a scan, and the change of the timer's period by a configuration.
- `Partition.Forward`: whether a command is taken in time and its result event are inputs; a late event that upsets the handshake with the next command is not modelled.
- `Manager.Session`: the sync timer may fire at any moment here; when it does is `Timing.ScansDoNotOverlap`.
- `Manager.SlaveManager.PollSync`: the task loop is cut into methods where it blocks, in a read of all devices and in sending a sync; sending a configuration counts as one step. A period of 0 stops the master, as the assertion in the timer's `period` does.
- `Timing.ScansDoNotOverlap`: for sessions that begin while no slave scans, with slaves that have all been told the master's total; a disable and enable in the middle of a scan is not covered. Ticks are not cut to 32 bits.
- `Manager.SlaveManager.ReadCondDataProcess`: records one read per device, all when the reading begins; the repetitions of an unanswered read are those of `Acknowledge.Sends`, and the upload to the backend through shared memory, queues and semaphores is not modelled.
- Clip and resistance tests beyond their messages, which read nothing at the master yet; the JSON commands; blink packets.
- `Dw1000.CalcBandwidthTempAdj`: the measured counts are a function of the setting; the register writes around the search are not modelled.
- `Dw1000.CalcPowerTempAdj`: the product of temperature and factor is exact; an overflow of a C `int` is not modelled.
- GPIO, UART, SPI, Ethernet, logging and the FreeRTOS primitives themselves.
