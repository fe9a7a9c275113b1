# Verified model of the animatronic character's protocols

The repository drives an animatronic character: microcontroller firmware that talks over serial
links, ROS 2 nodes that manage hardware, sessions, alerts and the system state, and a client
library. This project models its stateful cores and proves what holds of them over every input,
every run or every interleaving. `dafny verify dfyconfig.toml` checks all of it.

| module | core | form |
|---|---|---|
| `LargeRx`, `LargeTx` | SerialDevice large transfers: chunked, acknowledged, retried, over a link that loses and delays packets | specification functions refined by the classes `Receiver` and `Sender` |
| `Psp` | packetized serial framing with resynchronisation | a grammar, the fall-through call, and the class `PacketizedSerial` |
| `LoopSupervisor` | loop threads under start, stop, pause and resume | interleaved program counters |
| `Reconciler` | desired-state control of hardware controllers | one pass as a function, its runs, and the class that refines it |
| `Sessions` | one session at a time, creator against runner threads | interleaved program counters |
| `Alerts`, `SystemFsm` | alert table with TTL, client mirrors, system state | histories, reachable states, and the classes |
| `AuthMsg` | sequence-numbered authenticated frames | codec functions, sessions over a channel, endpoint class |
| `Behaviors` | behavior registry, executor and running table | operations, runs, engine class |
| `ConfigTree` | configuration tree: merge, render, fetch | values and the two loops |
| `Dispatch` | batched against plain command dispatch | functions and the classes |

`Bytes` and `Options` hold byte encodings and the optional value.

## What turned out false, and the exact condition

- `sendLarge` can report success without delivery. `ReliableExactly`: on a link where nothing
  outlives its wait, it is reliable exactly when `chunkSize <= 250` or the payload has at most
  250 bytes. `ReliableAnywhereExactly`: on links that may be late, exactly when the payload is one
  chunk that fits, because acknowledgements name no offset (`LateAckBreaksDelivery`).
- Two threads can run one loop when two callers start it (`OneLiveThreadExactly`).
- A pause after a stop request can leave the thread waiting for good (`StopThenPause`), exactly
  when it finds the thread in its wait (`StuckAfterStopExactly`).
- Rebinding the receive buffer in mid-transfer can make the handler run beyond it, exactly when the
  new buffer has no room for the transfer and its end comes in time (`RebindOverrunsExactly`).
- The session slot can be lost for good (`SlotLostRunExactly`, `SlotLostForever`).
- A derived state of UNINITIALIZED hides initialised hardware that no later pass takes down
  (`StrandedExactly`, `StrandedUntilNewGoal`), and a pass that meets a failing loop revives
  hardware for a dying thread (`FailingUndoesExactly`).
- A play that raises `TypeError` leaves its behavior borrowed (`BorrowedMeansRunningExactly`).
- PSP's resync makes no progress while a multiple of 65536 unread bytes waits (`StuckExactly`), so
  that a printed list of frames behind garbage is not always read back by calls alone
  (`CallsReadBackExactly`, `SettlesExactly`). A packet of more than 200 bytes never is
  (`ReadBackExactly`).
- A session alert identical to an active one never reaches the state machine: a second identical
  failure leaves the system in CONNECTING (`RepeatedFailureStays`), and a session repeats exactly
  when its alerts have gone in between (`SessionRepeatsExactly`).
- Controllers that share a loop and disagree do not all reach their goals, exactly as
  `GoalReachedExactly` tells.
- A publication under the name of a child is shown only while nothing is published in the child
  (`GatherAtNode`), and is then found at the child although nothing was published there
  (`GatherThroughSilentNode`, `FalseFind`).
- `unpack` accepts the endpoint's own frames when they come back with a number above those received
  (`OnlyPeerExactly`).
- The timer is called rollover safe; it is, up to a wait of a whole 2^32 ms range
  (`TimerAcrossRollover`).

## Model

| member | source | states |
|---|---|---|
| `LargeTx.SuccessMeansDelivered` | src/firmware/platformio_project/lib/SerialDevice/src/SerialDevice.cpp:407-473 | Whatever is lost, delayed within a chunk or resent: when sendLarge returns a nonzero size, that size is the payload's, the receiver's buffer holds exactly the sender's bytes on [0, size), and only the end packet is under way. Needs chunks that fit the transmit buffer and a link on which no packet outlives its chunk |
| `LargeTx.HandlerGetsPayload` | src/firmware/platformio_project/lib/SerialDevice/src/SerialDevice.cpp:223-244 | After a nonzero result and the rest of the schedule: the buffer holds the payload, and the user handler has run for the transfer if and only if one is set, the receiver was still in the transfer and the end packet reached it before the timeout; then once, with that buffer, the payload's size and its id |
| `LargeTx.PunctualEndsReceiving` | src/firmware/platformio_project/lib/SerialDevice/src/SerialDevice.cpp:437-444 | On a link where nothing outlives its wait, a nonzero result leaves the receiver in the transfer, so that the handler, if set, runs if and only if the end packet arrives in time |
| `LargeTx.ReliableExactly` | src/firmware/platformio_project/lib/SerialDevice/src/SerialDevice.cpp:364-370 | On links where nothing outlives its wait, for every receiver state and schedule, a nonzero result means delivered if and only if chunkSize is at most 250 or the payload is: beyond that txBytes appends nothing and the empty chunks are acknowledged |
| `LargeTx.ReliableAnywhereExactly` | src/firmware/platformio_project/lib/SerialDevice/src/SerialDevice.cpp:423-473 | With no promise about late packets, over every quiet link, receiver state and schedule: a nonzero result means delivered if and only if the payload is one chunk that fits, its length at most chunkSize and at most 250 (or chunkSize is zero, and nothing is ever sent to the end) |
| `LargeTx.OneChunkDelivers` | src/firmware/platformio_project/lib/SerialDevice/src/SerialDevice.cpp:430-438 | A payload of one chunk that fits is delivered, given a nonzero result, on every quiet link, however late its packets |
| `LargeTx.LateAckBreaksDelivery` | src/firmware/platformio_project/lib/SerialDevice/src/SerialDevice.cpp:215-216 | An acknowledgement names no offset: for every payload of more than one chunk, a run in which the late acknowledgement of a resent chunk answers for a lost one, and sendLarge returns the full size of a payload that was not delivered |
| `LargeTx.RetriesSucceedExactly` | src/firmware/platformio_project/lib/SerialDevice/src/SerialDevice.cpp:407-473 | Whatever requests and acknowledgements are lost, whatever packets of other ids come in and whatever old acknowledgements are still under way, each exchange at its own time, as long as the receiver hears from the sender before each timeout: sendLarge of a nonempty payload returns its size if and only if the receiver is ready or its last transfer has timed out, it has room, and no chunk meets more than four failed attempts; the handler then runs once, and the payload is delivered if its chunks fitted the transmit buffer |
| `LargeTx.ForeignPacketsIgnored` | src/firmware/platformio_project/lib/SerialDevice/src/SerialDevice.cpp:323-333 | For every transfer and schedule: packets of other ids, however many and whenever they come in, change neither the result of sendLarge nor what becomes of stream, receiver and link |
| `LargeTx.StaleRepliesSkipped` | src/firmware/platformio_project/lib/SerialDevice/src/SerialDevice.cpp:323-333 | Replies of the other kind that are still under way are skipped, and the first of the wanted kind behind them ends the wait |
| `LargeTx.StreamGuards` | src/firmware/platformio_project/lib/SerialDevice/src/SerialDevice.cpp:407-452 | After any begins, chunks and ends in any order over any link: a chunk or an end is refused as not initiated if and only if the last begin was not accepted or has since been closed, by an end or by a chunk that timed out; a chunk is out of bounds if and only if the stream is open and its end, on 32 bits, is beyond the size last announced; a refusal puts nothing on the link |
| `LargeTx.AttemptsGiveUp` | src/firmware/platformio_project/lib/SerialDevice/src/SerialDevice.cpp:430-443 | As many failed attempts as are made, lost or unanswered, and the chunk is given up |
| `LargeTx.PunctualIsOrderly` | src/firmware/platformio_project/lib/SerialDevice/src/SerialDevice.cpp:407-445 | A link on which nothing outlives its wait starts every chunk empty, so the delivery theorem covers it |
| `LargeTx.WaitStores` | src/firmware/platformio_project/lib/SerialDevice/src/SerialDevice.cpp:323-333 | During any wait for a chunk's acknowledgement, late copies included: the stored prefix stays, and a reply means the chunk is stored |
| `LargeTx.ChunkOnWire` | src/firmware/platformio_project/lib/SerialDevice/src/SerialDevice.cpp:353-377 | The receiver decodes the offset that was sent, and the data exactly when it fitted the transmit buffer beside the offset |
| `LargeTx.FramesOnWire` | src/firmware/platformio_project/lib/SerialDevice/src/SerialDevice.h:56-60 | The three packets of a transfer byte by byte: ids 215, 216 and 219, size and offset on four bytes low byte first, data behind the offset, one byte of id |
| `LargeTx.Sender.TxBytes` | src/firmware/platformio_project/lib/SerialDevice/src/SerialDevice.cpp:363-370 | Appends all of the bytes or, when they do not fit, none, and tells which |
| `LargeTx.Sender.WaitPacketOfId` | src/firmware/platformio_project/lib/SerialDevice/src/SerialDevice.cpp:323-333 | The loop discards packets of other ids and ends with the reply or the timeout that the schedule prescribes |
| `LargeTx.Sender.StreamBegin` | src/firmware/platformio_project/lib/SerialDevice/src/SerialDevice.cpp:407-421 | Sends begin, waits for the answer, opens the stream exactly when the peer accepted |
| `LargeTx.Sender.StreamChunk` | src/firmware/platformio_project/lib/SerialDevice/src/SerialDevice.cpp:423-445 | The guards in order, then up to five sends of the same packet until an acknowledgement; five timeouts close the stream |
| `LargeTx.Sender.StreamEnd` | src/firmware/platformio_project/lib/SerialDevice/src/SerialDevice.cpp:447-452 | Sends the end packet once and closes the stream; refuses when it is not open |
| `LargeTx.Sender.SendLarge` | src/firmware/platformio_project/lib/SerialDevice/src/SerialDevice.cpp:454-473 | The whole transfer refines the specification that the delivery theorems are about |
| `LargeRx.ReceiverTold` | src/firmware/platformio_project/lib/SerialDevice/src/SerialDevice.cpp:152-244 | For every starting state, sequence of messages and clock values: the transfer the receiver is in, every byte of its buffer and every call of its handler, told from the messages and their times alone. A transfer is in progress from its accepted begin until its end, unless 3000 ms pass without a word of its sender; a byte is what the last chunk of a transfer in progress put there; the handler is called once for each end of a transfer in progress, with its size, the id and the buffer of that moment |
| `LargeRx.AnswersTold` | src/firmware/platformio_project/lib/SerialDevice/src/SerialDevice.cpp:161-221 | And every answer: a begin is left unanswered if and only if a transfer is in progress, otherwise answered by whether the buffer has room; a chunk is acknowledged, with the bytes stored, if and only if a transfer is in progress |
| `LargeRx.BeginAnswered` | src/firmware/platformio_project/lib/SerialDevice/src/SerialDevice.cpp:161-181 | In any state, a begin gets no reply if and only if a transfer is open and not timed out at that moment; otherwise the reply says whether there is room, and a positive one opens the transfer then |
| `LargeRx.TransferOver` | src/firmware/platformio_project/lib/SerialDevice/src/SerialDevice.cpp:183-244 | A live transfer is closed by its end packet or by a chunk that finds no buffer, which leave the timer as if it had just run out, and by no other message |
| `LargeRx.HandlerAtMostOncePerBegin` | src/firmware/platformio_project/lib/SerialDevice/src/SerialDevice.cpp:152-244 | Over every sequence of messages and clock values, the handler fires at most once per accepted begin, an open transfer counting as a begin not yet fired; the buffer is never rebound or resized |
| `LargeRx.HandlerSizeInBounds` | src/firmware/platformio_project/lib/SerialDevice/src/SerialDevice.cpp:236-239 | Every handler call of every run gets the bound buffer and a size inside it |
| `LargeRx.HandleKeepsValid` | src/firmware/platformio_project/lib/SerialDevice/src/SerialDevice.cpp:152-244 | RECVING implies a bound buffer with the expected size inside it, kept by every handler; no handler unbinds or resizes the buffer |
| `LargeRx.ChunkWritesInside` | src/firmware/platformio_project/lib/SerialDevice/src/SerialDevice.cpp:195-213 | A chunk of any offset and size changes no byte outside its own range and none outside the buffer |
| `LargeRx.ChunkIdempotent` | src/firmware/platformio_project/lib/SerialDevice/src/SerialDevice.cpp:183-221 | Receiving a chunk again, at any time, changes nothing in the buffer |
| `LargeRx.ChunkReadsPayloadExactly` | src/firmware/platformio_project/lib/SerialDevice/src/SerialDevice.cpp:199-213 | The copy stays inside the received payload for every room if and only if the packet carries the four offset bytes; a shorter one wraps the subtraction |
| `LargeRx.RebindOverrunsExactly` | src/firmware/platformio_project/lib/SerialDevice/src/SerialDevice.cpp:223-239 | After a rebind in any reachable state and whatever messages come then: a handler call goes beyond the bound buffer if and only if a handler is set, a transfer is open, the new buffer is missing or smaller than the transfer, and an end packet is handled before the transfer times out, with no chunk before it if the buffer is missing |
| `LargeRx.RebindOverruns` | src/firmware/platformio_project/lib/SerialDevice/src/SerialDevice.cpp:289-292 | For every accepted begin, smaller buffer and end in time: the run in which the handler gets the announced size with the smaller buffer |
| `LargeRx.TimerAcrossRollover` | src/firmware/platformio_project/lib/SerialDevice/src/timer.h:15-18 | Against an unbounded clock, a timer answers by the time waited modulo 2^32: rollover does no harm, a wait of a whole range does |
| `LargeRx.Timer.Expired` | src/firmware/platformio_project/lib/SerialDevice/src/timer.h:20-27 | True exactly when timed out, and then the timer restarts, so that it is not timed out again at once |
| `LargeRx.Timer.Fire` | src/firmware/platformio_project/lib/SerialDevice/src/timer.h:29-32 | Afterwards the timer is timed out, with exactly its duration elapsed, at every clock value |
| `LargeRx.Receiver.HandleLargeTxBegin` | src/firmware/platformio_project/lib/SerialDevice/src/SerialDevice.cpp:152-181 | In place, as specified: no reply if and only if a transfer is open and its timer, read before anything else, has not run out; otherwise the reply says whether the bound buffer has room |
| `LargeRx.Receiver.HandleLargeTxChunk` | src/firmware/platformio_project/lib/SerialDevice/src/SerialDevice.cpp:183-221 | The byte copy into the bound array is the specified write, with the clamped offset and size; bytes beyond the bound size stay |
| `LargeRx.Receiver.HandleLargeTxEnd` | src/firmware/platformio_project/lib/SerialDevice/src/SerialDevice.cpp:223-244 | Hands the buffer to the handler if one is set, and makes the device ready again |
| `LargeRx.Receiver.ConfigLargeRx` | src/firmware/platformio_project/lib/SerialDevice/src/SerialDevice.cpp:289-292 | Binds maxSize bytes at the array, or none; the transfer state is left as it was |
| `Psp.ArrivalIndependence` | src/firmware/libs/PSP/PSP.h:141-220 | Two runs over the same bytes, however they arrive, in mid-call too, whenever recv_packet is called and whatever resync timeouts occur, agree on packets, parser and leftover once no field can be consumed |
| `Psp.RunComputesDrain` | src/firmware/libs/PSP/PSP.h:123-220 | In every run, the packets handed out followed by the meaning of the unread bytes is the meaning of everything that arrived |
| `Psp.DrainSplit` | src/firmware/libs/PSP/PSP.h:160-220 | Draining a and then b emits the packets, and ends in the state and leftover, of draining a + b, for every parser state and split |
| `Psp.CallSound` | src/firmware/libs/PSP/PSP.h:160-220 | One fall-through call, stopped at any byte and with bytes arriving before any of its tests, hands out a prefix of the stream's meaning and leaves exactly the rest |
| `Psp.RunRoundTrip` | src/firmware/libs/PSP/PSP.h:102-220 | When garbage without a start byte and any list of frames of at most 200 bytes arrive, in whatever pieces, in mid-call too, and whatever resync timeouts occur: the packets recv_packet has handed out are at every moment a prefix of that list, and all of it, with nothing left over, once no field can be consumed |
| `Psp.CallsReadBackExactly` | src/firmware/libs/PSP/PSP.h:123-220 | When those bytes wait unread, as many calls as there are bytes, each with time to look at one byte, hand out exactly the list if and only if no multiple of 65536 unread bytes is passed within the garbage; otherwise calls alone never hand out a packet |
| `Psp.SettlesExactly` | src/firmware/libs/PSP/PSP.h:141-220 | Such calls bring any parser state and stream to where no field can be consumed if and only if the stream does not jam: come to a multiple of 65536 unread bytes without a start byte in front |
| `Psp.JamNeverSettles` | src/firmware/libs/PSP/PSP.h:143-154 | A stream that jams is never settled by calls alone, however many and whatever their timeouts |
| `Psp.ShortNeverJams` | src/firmware/libs/PSP/PSP.h:143-146 | Fewer than 65536 unread bytes never jam |
| `Psp.GarbageJamsExactly` | src/firmware/libs/PSP/PSP.h:102-155 | Garbage in front of frames jams if and only if a multiple of 65536 lies above the length of the frames and not above the whole |
| `Psp.RoundTrip` | src/firmware/libs/PSP/PSP.h:102-220 | The meaning of garbage without a start byte and printed frames, field by field, is exactly the list of frames, with nothing left over |
| `Psp.DrainReadsFrames` | src/firmware/libs/PSP/PSP.h:160-220 | For every stream: the three phases hand out exactly the packets that a reader of whole frames finds, who skips to a start byte, goes on behind a length above 200, and drops a frame without its end byte |
| `Psp.PacketsAreFrames` | src/firmware/libs/PSP/PSP.h:160-220 | Whatever bytes come: every packet handed out stood in the stream as a whole frame, start byte, length, body and end byte, and the frames of later packets come behind those of earlier ones |
| `Psp.FrameOnWire` | src/firmware/libs/PSP/PSP.h:102-109 | The bytes of a printed frame: 1, the length of category and data on two bytes low byte first, category, data, 2 |
| `Psp.CodeTells` | src/firmware/libs/PSP/PSP.h:160-220 | What each code of a call tells: an empty stream if and only if it is empty; too few bytes if and only if the parser is left in mid-frame, with fewer bytes than it waits for; an invalid header only for one above 200; a resync timeout leaves the parser as it was |
| `Psp.ReadBackExactly` | src/firmware/libs/PSP/PSP.h:102-109 | A frame sent alone is read back if and only if category and data fit in 200 bytes |
| `Psp.PacketsFitBuffer` | src/firmware/libs/PSP/PSP.h:186-206 | No input yields a packet longer than the buffer |
| `Psp.StuckExactly` | src/firmware/libs/PSP/PSP.h:141-155 | A call during which nothing arrives consumes nothing if and only if the stream is too short for its state, or resync scans no byte because its time is over or a multiple of 65536 bytes waits unread |
| `Psp.NeverWrongStartByte` | src/firmware/libs/PSP/PSP.h:180-181 | The WRONG_START_BYTE outcome never occurs |
| `Psp.PacketizedSerial.Resync` | src/firmware/libs/PSP/PSP.h:141-155 | The loop discards exactly the bytes before the next start byte, within its limits, and tells whether it found one |
| `Psp.PacketizedSerial.ProcessStream` | src/firmware/libs/PSP/PSP.h:160-220 | The state machine in place keeps every write inside the buffer and refines the specified call |
| `Psp.PacketizedSerial.RecvPacket` | src/firmware/libs/PSP/PSP.h:123-126 | Returns the packet the specified call hands out, once |
| `Psp.PacketizedSerial.SendPacket` | src/firmware/libs/PSP/PSP.h:102-109 | Writes the frame that the round trip reads back |
| `Psp.PacketizedSerial.WriteHeader` | src/firmware/libs/PSP/PSP.h:132-137 | The byte loop writes the length modulo 65536, low byte first |
| `LoopSupervisor.OneLiveThreadExactly` | src/animacharacter_server/ros2_ws/src/hardware_mng/hardware_mng/looper/looper_util.py:171-193 | In every interleaving at most one live thread exists per loop, if and only if the supervisor has a single caller |
| `LoopSupervisor.RequestDecides` | src/animacharacter_server/ros2_ws/src/hardware_mng/hardware_mng/looper/looper_util.py:171-206 | Every start, stop, pause and resume that nobody interrupts leads where it should from every state of the loop: a start of a loop that runs and a stop of one that does not change nothing |
| `LoopSupervisor.ThreadEndsExactly` | src/animacharacter_server/ros2_ws/src/hardware_mng/hardware_mng/looper/looper_util.py:57-91 | In every run, with any number of callers: a thread is dead, or past the point from which it can only end, if and only if it found the run flag clear at one of its tests, or one of its jobs asked to stop or its exception handler raised |
| `LoopSupervisor.NeverEndsUnasked` | src/animacharacter_server/ros2_ws/src/hardware_mng/hardware_mng/looper/looper_util.py:57-91 | In every run of one caller without a stop request and without such a job, every thread ever started is live, with the run flag set: pauses, resumes and starts never end one |
| `LoopSupervisor.GoesRound` | src/animacharacter_server/ros2_ws/src/hardware_mng/hardware_mng/looper/looper_util.py:57-91 | An unpaused loop that nobody stops goes round for ever: 6 n steps of its thread run exactly n jobs and bring it back to its head |
| `LoopSupervisor.JobResultDecides` | src/animacharacter_server/ros2_ws/src/hardware_mng/hardware_mng/looper/looper_util.py:66-91 | What becomes of a thread whose job has returned, if nobody interferes: back to the head; into a wait that nothing ends, the run flag still set, when it asked to pause; dead, with the events as after a stop request, when it asked to stop |
| `LoopSupervisor.PausedExactly` | src/animacharacter_server/ros2_ws/src/hardware_mng/hardware_mng/looper/looper_util.py:205-213 | In every run a loop reads as paused if and only if the last pause, paused start or pause asked by a job came after the last resume, unpaused start, wake-up of a stop or stop asked by a job |
| `LoopSupervisor.ResumeStartsJob` | src/animacharacter_server/ros2_ws/src/hardware_mng/hardware_mng/looper/looper_util.py:268-279 | After a resume a waiting thread can step, and its next two steps start its job, however long it was paused and whether or not it was asked to stop meanwhile |
| `LoopSupervisor.TwoCallersRace` | src/animacharacter_server/ros2_ws/src/hardware_mng/hardware_mng/looper/looper_util.py:180-189 | For two or more callers, a run in which both find the loop stopped and two threads live |
| `LoopSupervisor.PauseHoldsJobs` | src/animacharacter_server/ros2_ws/src/hardware_mng/hardware_mng/looper/looper_util.py:255-266 | After a pause, until a resume, a stop's wake-up or an unpaused start, at most one more job starts, and only if the thread had already passed its wait |
| `LoopSupervisor.StopLimitsJobs` | src/animacharacter_server/ros2_ws/src/hardware_mng/hardware_mng/looper/looper_util.py:195-198 | Once a stop request has cleared the run flag, the thread starts at most one more job and takes at most six more steps, whatever is asked of the supervisor meanwhile |
| `LoopSupervisor.StopEndsThread` | src/animacharacter_server/ros2_ws/src/hardware_mng/hardware_mng/looper/looper_util.py:57-91 | After the stop request, unless a pause finds it in its wait, the thread is dead or able to step, and six steps end it |
| `LoopSupervisor.StuckAfterStopExactly` | src/animacharacter_server/ros2_ws/src/hardware_mng/hardware_mng/looper/looper_util.py:195-206 | After a stop request and until something sets the wait event again, the thread is stuck in its wait if and only if some pause came while it stood there |
| `LoopSupervisor.PauseAfterStopBlocks` | src/animacharacter_server/ros2_ws/src/hardware_mng/hardware_mng/looper/looper_util.py:60-61 | A thread left waiting by a pause stays there, stopped or not, until something sets the wait event |
| `LoopSupervisor.StopThenPause` | src/animacharacter_server/ros2_ws/src/hardware_mng/hardware_mng/looper/looper_util.py:240-266 | A run in which a pause after a stop leaves the thread waiting with the run flag clear |
| `LoopSupervisor.RunKeepsInv` | src/animacharacter_server/ros2_ws/src/hardware_mng/hardware_mng/looper/looper_util.py:57-198 | The invariant behind these theorems holds in every reachable state of a single-caller supervisor |
| `Reconciler.RunGuarded` | src/animacharacter_server/ros2_ws/src/hardware_mng/hardware_mng/hw_controller_state_reconciler.py:70-114 | In every run of goal changes, passes with any outcome, failing jobs and ending threads: a live thread over uninitialised hardware is one whose job has just failed, and but for a failing job the derived state is UNINITIALIZED if and only if the thread is dead; every visit attempts only operations that the state of their moment allows, and replaying them gives the state it leaves |
| `Reconciler.GoalHeld` | src/animacharacter_server/ros2_ws/src/hardware_mng/hardware_mng/hw_controller_state_reconciler.py:93-114 | From any situation without a failing job, one pass in which all succeeds reaches the goal of the moment, and no further passes, whatever their outcome, change anything until a new goal, a failure or the end of the thread |
| `Reconciler.GoalReachedExactly` | src/animacharacter_server/ros2_ws/src/hardware_mng/hardware_mng/hw_controller_state_reconciler.py:93-205 | For a pass over all controllers in which all succeeds, any sharing of loops, any goals and any start: a controller that wants its loop up ends at its goal if and only if the last controller with a say in that loop (one that wants it up or has hardware to take down) has the same goal; one that wants it down, if and only if its hardware was down, or the loop was up when it was visited, or the loop ends down |
| `Reconciler.PassAllConverges` | src/animacharacter_server/ros2_ws/src/hardware_mng/hardware_mng/hw_controller_state_reconciler.py:97-114 | So every controller ends at its goal when those that share a loop agree, in particular when each has a loop of its own |
| `Reconciler.PassAllSafe` | src/animacharacter_server/ros2_ws/src/hardware_mng/hardware_mng/hw_controller_state_reconciler.py:97-153 | On any outcome and with any sharing of loops: each operation of a pass over all controllers is attempted in a state that allows it, and replaying the operations in order, as they turned out, gives where the pass leaves every controller and loop |
| `Reconciler.PassAllIndependent` | src/animacharacter_server/ros2_ws/src/hardware_mng/hardware_mng/hw_controller_state_reconciler.py:97-114 | Controllers with loops of their own each end as their own pass from the initial state would |
| `Reconciler.PassReachesExactly` | src/animacharacter_server/ros2_ws/src/hardware_mng/hardware_mng/hw_controller_state_reconciler.py:157-205 | A pass reaches its goal if and only if the operations it has to attempt succeed, from every combination of hardware flag, thread and pause |
| `Reconciler.PassConverges` | src/animacharacter_server/ros2_ws/src/hardware_mng/hardware_mng/hw_controller_state_reconciler.py:93-114 | A pass in which all succeeds reaches the goal, and the next pass does nothing |
| `Reconciler.PassSafe` | src/animacharacter_server/ros2_ws/src/hardware_mng/hardware_mng/hw_controller_state_reconciler.py:157-205 | On any outcome: hardware is deinitialised only once its thread is dead, a loop is started or resumed only over initialised hardware, and nothing is done twice, each in the state that the operations before left; the operations, as they turned out, lead from where the controller was to where the pass leaves it, and a raise is the last of them |
| `Reconciler.PassAttemptsExactly` | src/animacharacter_server/ros2_ws/src/hardware_mng/hardware_mng/hw_controller_state_reconciler.py:157-205 | A pass attempts, once each and in this order, exactly the operations it has cause for: on the way up it initialises hardware that is down, starts a dead thread, pauses one that runs on over it or shall only be initialised, and resumes what stands initialised; on the way down it stops the thread and deinitialises what that left; a failed operation leaves no cause for those after it |
| `Reconciler.HardwareLeftUpExactly` | src/animacharacter_server/ros2_ws/src/hardware_mng/hardware_mng/hw_controller_state_reconciler.py:83-89 | A pass towards UNINITIALIZED takes live hardware down if and only if the thread is alive, stops, and deinitialisation succeeds |
| `Reconciler.FailingUndoesExactly` | src/animacharacter_server/ros2_ws/src/hardware_mng/hardware_mng/abstract_hw_controller.py:264-290 | A goal reached by a successful pass survives the end of a failing thread if and only if it is UNINITIALIZED or no job was failing |
| `Reconciler.StrandedUntilNewGoal` | src/animacharacter_server/ros2_ws/src/hardware_mng/hardware_mng/hw_controller_state_reconciler.py:102-103 | Hardware up without a thread under an UNINITIALIZED goal stays up, and no pass attempts anything, until a new goal is set |
| `Reconciler.StrandedExactly` | src/animacharacter_server/ros2_ws/src/hardware_mng/hardware_mng/hw_controller_state_reconciler.py:194-205 | A step strands hardware if and only if a goal of UNINITIALIZED meets a dead thread over live hardware: by the goal, by the end of the thread, or by a pass that stopped the thread and whose deinitialisation did not succeed |
| `Reconciler.PassKeepsGuard` | src/animacharacter_server/ros2_ws/src/hardware_mng/hardware_mng/hw_controller_state_reconciler.py:172-205 | A pass never leaves an unpaused thread over uninitialised hardware unless it found that unpaused thread over uninitialised hardware |
| `Reconciler.HWControllerStateReconciler.Reconcile` | src/animacharacter_server/ros2_ws/src/hardware_mng/hardware_mng/hw_controller_state_reconciler.py:93-153 | The loop makes the visits the fleet theorems are about, each in the state the ones before left, with exactly their effects in order; a raise does not stop the others |
| `Reconciler.HWControllerStateReconciler.ReconcileOne` | src/animacharacter_server/ros2_ws/src/hardware_mng/hardware_mng/hw_controller_state_reconciler.py:98-114 | One controller's pass in place: its flag, its loop and the effects as specified, nothing else changed |
| `Reconciler.HWControllerStateReconciler.StepToInitialized` | src/animacharacter_server/ros2_ws/src/hardware_mng/hardware_mng/hw_controller_state_reconciler.py:172-192 | In place, as specified for every outcome of its operations |
| `Reconciler.HWControllerStateReconciler.StepToRunning` | src/animacharacter_server/ros2_ws/src/hardware_mng/hardware_mng/hw_controller_state_reconciler.py:157-170 | In place, as specified; resumes only from INITIALIZED |
| `Reconciler.HWControllerStateReconciler.StepToUninitialized` | src/animacharacter_server/ros2_ws/src/hardware_mng/hardware_mng/hw_controller_state_reconciler.py:194-205 | In place, as specified; stops first and gives up if the thread lives |
| `Reconciler.HWControllerStateReconciler.SetGoal` | src/animacharacter_server/ros2_ws/src/hardware_mng/hardware_mng/hw_controller_state_reconciler.py:58-62 | Changes the goal of the first controller of that loop and nothing else |
| `Reconciler.HWControllerStateReconciler.SetGoalAll` | src/animacharacter_server/ros2_ws/src/hardware_mng/hardware_mng/hw_controller_state_reconciler.py:64-66 | Changes every goal and nothing else |
| `Sessions.MutualExclusion` | src/animacharacter_server/ros2_ws/src/session_mng/session_mng/session/session_manager.py:60-117 | In every interleaving of any number of new_session calls, session ends and crashes, two run bodies never execute at the same time |
| `Sessions.NewSessionExactly` | src/animacharacter_server/ros2_ws/src/session_mng/session_mng/session/session_manager.py:60-117 | In every interleaving from the start: new_session fails if and only if one of its six tests does, and succeeds only after all six have passed: slot empty, criteria met, resources created, slot still empty, thread started, thread alive at the join |
| `Sessions.UnmetCriteriaRefuse` | src/animacharacter_server/ros2_ws/src/session_mng/session_mng/session/session_manager.py:69-78 | A call whose criteria are not met has returned false for good, in every continuation, and has created, started and destroyed nothing |
| `Sessions.AloneSucceeds` | src/animacharacter_server/ros2_ws/src/session_mng/session_mng/session/session_manager.py:60-117 | The run in which a call on its own passes its tests, succeeds and fills the slot |
| `Sessions.CleanupClearsOnlyItself` | src/animacharacter_server/ros2_ws/src/session_mng/session_mng/session/session_manager.py:134-138 | The unlocked write of a runner's cleanup never clears the slot of another session |
| `Sessions.NoContextLeaks` | src/animacharacter_server/ros2_ws/src/session_mng/session_mng/session/runner.py:101-115 | Once a call has failed or its thread has ended, destroy was attempted on every created context, at most twice, and twice exactly when the thread died before the call published it |
| `Sessions.SlotLostRunExactly` | src/animacharacter_server/ros2_ws/src/session_mng/session_mng/session/session_manager.py:98-143 | From any reachable state, a run ends with the active slot held by a session that will never clear it if and only if some step of it was a losing one: publishing a thread whose cleanup has already passed, or a cleanup whose destroy failed |
| `Sessions.SlotLostExactly` | src/animacharacter_server/ros2_ws/src/session_mng/session_mng/session/session_manager.py:98-114 | A single step loses the slot if and only if it is one of those two |
| `Sessions.SlotLostForever` | src/animacharacter_server/ros2_ws/src/session_mng/session_mng/session/session_manager.py:62-67 | From then on the slot stays lost and no new_session call succeeds, in every continuation |
| `Sessions.SlotLostReachable` | src/animacharacter_server/ros2_ws/src/session_mng/session_mng/session/session_manager.py:100-114 | A run in which a session that ends during the join loses the slot |
| `Sessions.RunKeepsInv` | src/animacharacter_server/ros2_ws/src/session_mng/session_mng/session/session_manager.py:60-143 | The invariant behind these theorems holds in every reachable state |
| `Alerts.Replication` | src/animacharacter_server/ros2_ws/src/system_alerts/system_alerts/client.py:103-108 | In every reachable state and for any number of clients, folding a client's undelivered changes into its table gives the server's table, so suppressed raises never make a mirror diverge |
| `Alerts.CatchesUp` | src/animacharacter_server/ros2_ws/src/system_alerts/system_alerts/client.py:103-108 | Once a client has been handed the changes that wait for it, one by one, its table is the server's, and nothing else has changed |
| `Alerts.TableIsStanding` | src/animacharacter_server/ros2_ws/src/system_alerts/system_alerts/server.py:107-173 | After every history both tables have the same keys and hold exactly the alerts raised and since then neither replaced, cleared nor swept TTL after their latest raise, each with the time of that raise |
| `Alerts.SweepExactly` | src/animacharacter_server/ros2_ws/src/system_alerts/system_alerts/server.py:153-165 | A sweep removes exactly the alerts of finite TTL whose latest raise, identical re-raises included, is at least TTL ago |
| `Alerts.InfiniteStays` | src/animacharacter_server/ros2_ws/src/system_alerts/system_alerts/server.py:153-161 | An infinite-TTL alert leaves only by a clear or a replacement, through any number of sweeps |
| `Alerts.HoldsExactly` | src/animacharacter_server/ros2_ws/src/system_alerts/system_alerts/server.py:113-122 | Raising an alert is no change if and only if an identical raise still stands |
| `Alerts.PublishesExactly` | src/animacharacter_server/ros2_ws/src/system_alerts/system_alerts/server.py:107-173 | After every history, each operation publishes, once each and nothing else: a raise, itself unless an identical one stands; a clear that carries an alert, that alert if any of its code stands; a clear by code, the standing alert of the code; a sweep, every standing alert raised at least its TTL ago |
| `Alerts.ApplyReplays` | src/animacharacter_server/ros2_ws/src/system_alerts/system_alerts/server.py:113-134 | What an operation publishes replays what it did to the table |
| `Alerts.DropAllRemoves` | src/animacharacter_server/ros2_ws/src/system_alerts/system_alerts/server.py:163-173 | Clearing a list of codes removes them from both tables and touches no other entry |
| `Alerts.SysAlertsServer.ApplyRaise` | src/animacharacter_server/ros2_ws/src/system_alerts/system_alerts/server.py:113-122 | In place; publishes, and returns true, exactly when the alert changed |
| `Alerts.SysAlertsServer.ApplyClear` | src/animacharacter_server/ros2_ws/src/system_alerts/system_alerts/server.py:124-134 | In place; publishes, and returns true, exactly when the code was active |
| `Alerts.SysAlertsServer.ClearAlertFromCode` | src/animacharacter_server/ros2_ws/src/system_alerts/system_alerts/server.py:167-173 | In place; publishes the clear of the stored alert |
| `Alerts.SysAlertsServer.ExpireAlerts` | src/animacharacter_server/ros2_ws/src/system_alerts/system_alerts/server.py:153-165 | The two loops are one legal sweep: they clear exactly what had expired when the sweep began |
| `Alerts.SysAlertsServer.Collect` | src/animacharacter_server/ros2_ws/src/system_alerts/system_alerts/server.py:155-161 | Lists exactly the expired codes |
| `Alerts.SysAlertsClient.HandleChange` | src/animacharacter_server/ros2_ws/src/system_alerts/system_alerts/client.py:103-108 | In place, one step of the fold |
| `SystemFsm.DownForever` | src/animacharacter_server/ros2_ws/src/orchestration/orchestration/supervisor_node.py:211-239 | Once in FAULT or SHUTDOWN, the system never leaves that pair, in every interleaving of alert operations, startup and shutdown |
| `SystemFsm.FatalRaiseTakesDown` | src/animacharacter_server/ros2_ws/src/orchestration/orchestration/supervisor_node.py:227-239 | If a fatal alert was raised anywhere in a run from boot, the system is down at its end, although unchanged raises never reach the state machine |
| `SystemFsm.BootIsClean` | src/animacharacter_server/ros2_ws/src/orchestration/orchestration/state_machine/system_fsm.py:27-28 | A booting system is not down and has no fatal alert, so the two theorems above apply to every run from boot |
| `SystemFsm.SpinupDrives` | src/animacharacter_server/ros2_ws/src/orchestration/orchestration/supervisor_node.py:123-133 | The startup routine at its state change, from any state: success takes the system from BOOTING, CONNECTING or DISCONNECTING to STANDBY, failure from any state that is not down to FAULT; a change the table does not allow leaves the state |
| `SystemFsm.ShutdownDrives` | src/animacharacter_server/ros2_ws/src/orchestration/orchestration/supervisor_node.py:211 | Shutdown ends in SHUTDOWN from every state and changes nothing else |
| `SystemFsm.FaultOnRecord` | src/animacharacter_server/ros2_ws/src/orchestration/orchestration/supervisor_node.py:227-239 | In every run the fault on record is the last fatal alert the server has published, whatever the state of the system |
| `SystemFsm.BootsUntilTold` | src/animacharacter_server/ros2_ws/src/orchestration/orchestration/state_machine/system_fsm.py:60-112 | Whatever alerts come during startup, a booting system is in FAULT if one of those published was fatal and still in BOOTING otherwise |
| `SystemFsm.AllowedExactly` | src/animacharacter_server/ros2_ws/src/orchestration/orchestration/state_machine/system_fsm.py:27-58 | The table by where it leads: to FAULT from every state that is not down, to SHUTDOWN from FAULT alone, to STANDBY from startup and from either end of a session, round one session and nowhere else |
| `SystemFsm.ProcessEventTotal` | src/animacharacter_server/ros2_ws/src/orchestration/orchestration/state_machine/system_fsm.py:60-112 | process_event never raises and flags exactly ACTIVE to STANDBY on DISCONNECTED and SHUTDOWN to FAULT on a fatal; every other change is in the table |
| `SystemFsm.SessionRoundExactly` | src/animacharacter_server/ros2_ws/src/orchestration/orchestration/state_machine/system_fsm.py:86-108 | In standby, a session's four alerts take the system through CONNECTING, ACTIVE and DISCONNECTING back to STANDBY if and only if none of them repeats an active alert |
| `SystemFsm.SessionAfterExactly` | src/animacharacter_server/ros2_ws/src/system_alerts/system_alerts/server.py:113-122 | After any history of the alert server, a session goes round if and only if no raise identical to one of its own still stands: each earlier one was cleared, replaced or swept its TTL later |
| `SystemFsm.SessionRepeatsExactly` | src/animacharacter_server/ros2_ws/src/system_alerts/system_alerts/server.py:113-165 | The same session, alert by alert, goes round again if and only if each of its raises was ended in between, by a clear of its code or a sweep at least its TTL later |
| `SystemFsm.RepeatedFailureStays` | src/animacharacter_server/ros2_ws/src/session_mng/session_mng/sess_manager_node.py:192-199 | For every pair of different requests and failure alert: when the second attempt fails with the same alert before the first has gone, the failure is suppressed and the system stays in CONNECTING |
| `SystemFsm.SessionLifecycle` | src/animacharacter_server/ros2_ws/src/orchestration/orchestration/supervisor_node.py:123-133 | Startup takes a booting system to standby, from where the session goes round if and only if none of its alerts was active |
| `SystemFsm.RaiseDrives` | src/animacharacter_server/ros2_ws/src/orchestration/orchestration/state_machine/event_mapper.py:17-39 | In every state, a raise identical to an active alert moves nothing, and any other takes the system where the alert says |
| `SystemFsm.AwaitedMovesExactly` | src/animacharacter_server/ros2_ws/src/orchestration/orchestration/state_machine/system_fsm.py:86-108 | In the state that awaits it, a session alert moves the system if and only if no identical raise stands in the server's history |
| `SystemFsm.FSM.AddTransitions` | src/animacharacter_server/ros2_ws/src/orchestration/orchestration/state_machine/fsm.py:53-60 | Adds to the source state's set, or changes nothing once finalized |
| `SystemFsm.FSM.TryChangeState` | src/animacharacter_server/ros2_ws/src/orchestration/orchestration/state_machine/fsm.py:70-86 | Moves exactly when the table allows it |
| `SystemFsm.FSM.Force` | src/animacharacter_server/ros2_ws/src/orchestration/orchestration/state_machine/fsm.py:88-99 | Always moves, and flags whether the table allows it |
| `SystemFsm.NewSystemFsm` | src/animacharacter_server/ros2_ws/src/orchestration/orchestration/state_machine/system_fsm.py:27-58 | The machine built step by step has exactly the table the theorems use |
| `SystemFsm.Process` | src/animacharacter_server/ros2_ws/src/orchestration/orchestration/state_machine/system_fsm.py:60-112 | The machine in place takes the specified step on every state and event |
| `AuthMsg.AcceptsNewest` | src/shared_libs/authmsg/src/authmsg/protocol/wire_protocol.py:26-38 | Over a channel that drops, repeats, reorders, reflects the endpoint's own frames and injects unauthenticated bytes, a delivery is accepted if and only if it is a frame whose number is above those of all frames delivered before, and then yields its message |
| `AuthMsg.AcceptedInOrder` | src/shared_libs/authmsg/src/authmsg/protocol/wire_protocol.py:21-38 | The accepted messages carry strictly increasing numbers; without reflection they are an in-order, duplicate-free subsequence of those the peer packed |
| `AuthMsg.OnlyPeerExactly` | src/shared_libs/authmsg/src/authmsg/protocol/wire_protocol.py:21-38 | Every accepted message is the peer's if and only if no reflected frame had the highest number so far: both directions share one key and carry no direction mark |
| `AuthMsg.FifoDeliversAll` | src/shared_libs/authmsg/src/authmsg/protocol/wire_protocol.py:21-38 | Over a loss-free FIFO channel every message is accepted, in order |
| `AuthMsg.DecodeUndoesEncode` | src/shared_libs/authmsg/src/authmsg/protocol/protocol.py:12-32 | Decoding undoes encoding for every payload and 64-bit sequence number; a stale number is refused as such |
| `AuthMsg.EncodeUndoesDecode` | src/shared_libs/authmsg/src/authmsg/protocol/protocol.py:18-32 | Any byte string that decodes re-encodes to exactly the same bytes |
| `AuthMsg.AcceptedExactly` | src/shared_libs/authmsg/src/authmsg/protocol/protocol.py:18-32 | A byte string is accepted if and only if it is the encoding of some payload and number newer than the last |
| `AuthMsg.FrameBytes` | src/shared_libs/authmsg/src/authmsg/protocol/protocol.py:12-15 | The bytes of a frame: eight that spell the number, the first the highest, the payload, and the HMAC under the key of all bytes before |
| `AuthMsg.RefusedExactly` | src/shared_libs/authmsg/src/authmsg/protocol/protocol.py:18-32 | Every outcome for every byte string: framing error if and only if shorter than 40 bytes; authentication error if and only if the last 32 are not the HMAC of the rest; sequence error if and only if they are and the number is not above the last; otherwise number and payload |
| `AuthMsg.OtherKeyExactly` | src/shared_libs/authmsg/src/authmsg/protocol/protocol.py:12-32 | A frame packed under one key is accepted under another if and only if the two HMACs agree and its number is new |
| `AuthMsg.TamperedExactly` | src/shared_libs/authmsg/src/authmsg/protocol/protocol.py:12-32 | A frame changed in number or payload but not in its tag is accepted if and only if the HMACs collide |
| `AuthMsg.SecureWireProtocol.PackMessage` | src/shared_libs/authmsg/src/authmsg/protocol/wire_protocol.py:21-24 | In place; numbers frames from 1 on |
| `AuthMsg.SecureWireProtocol.UnpackRaise` | src/shared_libs/authmsg/src/authmsg/protocol/wire_protocol.py:26-30 | In place; the last number moves forward on success and stays on every error |
| `AuthMsg.SecureWireProtocol.UnpackMessage` | src/shared_libs/authmsg/src/authmsg/protocol/wire_protocol.py:32-38 | In place; every refusal is a missing message |
| `Behaviors.TablesAgree` | src/animacharacter_server/libs/behavior_engine/src/behavior_engine/engine.py:34-81 | After every sequence of operations: running names and executor instances correspond one to one, over borrowed entries, none done; the list is sorted by priority and by arrival within a priority |
| `Behaviors.BorrowedMeansRunningExactly` | src/animacharacter_server/libs/behavior_engine/src/behavior_engine/engine.py:34-39 | Every borrowed entry is running after every sequence of operations, if and only if no play met a behavior that returns no iterator: that play leaves its entry borrowed for good |
| `Behaviors.TickExactly` | src/animacharacter_server/libs/behavior_engine/src/behavior_engine/executor.py:41-55 | After every sequence of operations, a tick at a time steps exactly the running instances whose wake time, told from the operations, has come, each once, by priority and arrival; those of them that yield a stop or are exhausted leave list and running table and free their entry in that tick, and every other stays |
| `Behaviors.SteppedExactly` | src/animacharacter_server/libs/behavior_engine/src/behavior_engine/behavior.py:48-69 | An instance whose last act was a sleep of d in a tick at t is stepped, once, at a tick if and only if that is at or past max(0, t) + d; one that never slept, at every tick |
| `Behaviors.PlayExactly` | src/animacharacter_server/libs/behavior_engine/src/behavior_engine/executor.py:25-34 | A play succeeds if and only if the name is registered, free and iterates; then there is one more instance, of the priority asked for and awake, running under the name, behind all instances of its priority or a smaller one and before all others |
| `Behaviors.StopExactly` | src/animacharacter_server/libs/behavior_engine/src/behavior_engine/engine.py:45-52 | A stop of a running name takes out its instance and frees its entry, and nothing else changes |
| `Behaviors.RegistryTold` | src/animacharacter_server/libs/behavior_engine/src/behavior_engine/registry.py:38-55 | After every sequence of operations the registry holds exactly the names ever loaded, each as its first load said |
| `Behaviors.AddKeepsOrder` | src/animacharacter_server/libs/behavior_engine/src/behavior_engine/executor.py:29-34 | Appending the newest instance and stable sorting keeps priority and arrival order and adds only that instance |
| `Behaviors.ApplyKeepsInv` | src/animacharacter_server/libs/behavior_engine/src/behavior_engine/engine.py:34-81 | Every operation keeps the three tables in agreement |
| `Behaviors.BehaviorEngine.LoadBehavior` | src/animacharacter_server/libs/behavior_engine/src/behavior_engine/registry.py:38-55 | In place; refuses a name already registered |
| `Behaviors.BehaviorEngine.Borrow` | src/animacharacter_server/libs/behavior_engine/src/behavior_engine/registry.py:80-86 | In place; the two refusals change nothing |
| `Behaviors.BehaviorEngine.PlayBehavior` | src/animacharacter_server/libs/behavior_engine/src/behavior_engine/engine.py:34-39 | In place, as specified for each outcome, including the one that leaks the borrow |
| `Behaviors.BehaviorEngine.StopBehavior` | src/animacharacter_server/libs/behavior_engine/src/behavior_engine/engine.py:45-52 | In place; leaves list, table and registry in agreement |
| `Behaviors.BehaviorEngine.TickEngine` | src/animacharacter_server/libs/behavior_engine/src/behavior_engine/executor.py:41-55 | The loop over the snapshot and the clean-up that follows are the specified tick |
| `Behaviors.BehaviorEngine.StepBehavior` | src/animacharacter_server/libs/behavior_engine/src/behavior_engine/behavior.py:48-69 | In place; nothing for a sleeping or finished instance |
| `Behaviors.BehaviorEngine.CleanupFinished` | src/animacharacter_server/libs/behavior_engine/src/behavior_engine/engine.py:76-81 | The loop releases exactly the finished names |
| `ConfigTree.GatherExactly` | src/animacharacter_pyclient/src/animacharacter_pyclient/json_tree/node.py:50-94 | After any sequence of publications without name clashes, a fetch at node path plus key in gather() succeeds if and only if something was published there, and returns the in-order merge of it all |
| `ConfigTree.GatherShowsLast` | src/animacharacter_pyclient/src/animacharacter_pyclient/json_tree/node.py:50-94 | After any sequence of publications, at any place below a node's key: gather() shows a leaf if and only if the last publication that reached the place put that leaf there, and something if and only if some publication put something there and none after it a leaf on the way |
| `ConfigTree.MergedAtPath` | src/animacharacter_pyclient/src/animacharacter_pyclient/json_tree/node.py:4-13 | Told from what source and destination show at every path: where the source holds a leaf, exactly that leaf; where both hold dictionaries, one with the keys of both; where only one holds something, that, unless a leaf of the source stands in the way |
| `ConfigTree.MergedExactly` | src/animacharacter_pyclient/src/animacharacter_pyclient/json_tree/node.py:4-13 | deep_merge leaves the one value that looks so at every path |
| `ConfigTree.FetchFollows` | src/animacharacter_server/ros2_ws/src/hardware_mng/hardware_mng/abstract_hw_controller.py:35-47 | A lookup finds a value if and only if dictionaries lead to it, key by key |
| `ConfigTree.MergedIdempotent` | src/animacharacter_pyclient/src/animacharacter_pyclient/json_tree/node.py:4-13 | Merging the same value twice equals merging it once |
| `ConfigTree.FetchBuild` | src/animacharacter_pyclient/src/animacharacter_pyclient/json_tree/node.py:62-74 | The rendering shows, at a node's path and key, exactly what that node holds |
| `ConfigTree.NodeHolds` | src/animacharacter_pyclient/src/animacharacter_pyclient/json_tree/node.py:50-58 | Each node holds the merge of what was published at it, and nothing of other nodes |
| `ConfigTree.GatherWithClashes` | src/animacharacter_pyclient/src/animacharacter_pyclient/json_tree/node.py:50-94 | Every lookup in gather(), of any path and with any clashes of keys and names of children, told from the publications: it follows names below which something was published, and where they end it goes on in what was published there under the next name |
| `ConfigTree.GatherAtNode` | src/animacharacter_pyclient/src/animacharacter_pyclient/json_tree/node.py:50-94 | At a node at or below which something was published, the lookup of a key returns the in-order merge published there, unless something was published at or below a child of that name; then that child's rendering |
| `ConfigTree.GatherThroughSilentNode` | src/animacharacter_pyclient/src/animacharacter_pyclient/json_tree/node.py:62-74 | Through the name of a node at or below which nothing was published, a lookup succeeds if and only if what was published at the parent under that name has the rest of the path |
| `ConfigTree.FalseFind` | src/animacharacter_pyclient/src/animacharacter_pyclient/json_tree/node.py:65-72 | For every child with nothing in it: what is published at the root under its name is found at the child, key by key, although nothing was published there |
| `ConfigTree.RendersExactly` | src/animacharacter_pyclient/src/animacharacter_pyclient/json_tree/node.py:69-72 | A node renders to something if and only if something was published at or below it |
| `ConfigTree.ClashHides` | src/animacharacter_pyclient/src/animacharacter_pyclient/json_tree/node.py:69-72 | A publication under a child's name is lost once the child renders to something |
| `ConfigTree.DeepMerge` | src/animacharacter_pyclient/src/animacharacter_pyclient/json_tree/node.py:4-13 | The recursive loop computes the merge in whatever order the items come |
| `ConfigTree.FetchDictDeep` | src/animacharacter_server/ros2_ws/src/hardware_mng/hardware_mng/abstract_hw_controller.py:35-47 | The loop finds a value exactly where the path leads |
| `Dispatch.BatchedConserves` | src/animacharacter_server/ros2_ws/src/hardware_mng/hardware_mng/dispatcher/batch_dispatcher.py:38-66 | For every key, batched dispatch makes plain dispatch's calls in the same order, max(1, number of batches containing the key) times over |
| `Dispatch.BatchedCounts` | src/animacharacter_server/ros2_ws/src/hardware_mng/hardware_mng/dispatcher/batch_dispatcher.py:38-66 | Every call is made exactly that many times as often |
| `Dispatch.PlainReachesAll` | src/animacharacter_server/ros2_ws/src/hardware_mng/hardware_mng/dispatcher/dispatcher.py:64-88 | Plain dispatch key by key: each command of the key in turn reaches every handler of the key, in the order of registration |
| `Dispatch.PlainCounts` | src/animacharacter_server/ros2_ws/src/hardware_mng/hardware_mng/dispatcher/dispatcher.py:64-88 | Plain dispatch makes a call exactly as often as its command is given times as often as its handler is registered for the key |
| `Dispatch.PlainInOrder` | src/animacharacter_server/ros2_ws/src/hardware_mng/hardware_mng/dispatcher/dispatcher.py:64-88 | The plain log in its order: the calls of the earlier commands come before those of the later ones, and one command reaches each handler in turn |
| `Dispatch.BatchedReachesAll` | src/animacharacter_server/ros2_ws/src/hardware_mng/hardware_mng/dispatcher/batch_dispatcher.py:38-66 | The whole law of batched dispatch: a handler is called with a payload as often as the command is given, times as often as the handler is registered, times the number of batches that contain the key, or once if none does |
| `Dispatch.BatchedRegroups` | src/animacharacter_server/ros2_ws/src/hardware_mng/hardware_mng/dispatcher/batch_dispatcher.py:38-66 | Across keys and handlers: batched dispatch makes, for each batch in turn, the part of the plain log whose keys it contains, and then the part whose keys are in no batch, each in the order of the plain log |
| `Dispatch.DisjointBatchesPermute` | src/animacharacter_server/ros2_ws/src/hardware_mng/hardware_mng/dispatcher/batch_dispatcher.py:38-66 | With pairwise disjoint batches the calls are the same multiset as plain dispatch, every key in order |
| `Dispatch.SelectProject` | src/animacharacter_server/ros2_ws/src/hardware_mng/hardware_mng/dispatcher/batch_dispatcher.py:46-51 | A batch's commands cause all calls of its keys, in order, and no other |
| `Dispatch.Dispatcher.AddHandler` | src/animacharacter_server/ros2_ws/src/hardware_mng/hardware_mng/dispatcher/dispatcher.py:54-62 | Appends to the key's handlers and touches no other key |
| `Dispatch.Dispatcher.Dispatch` | src/animacharacter_server/ros2_ws/src/hardware_mng/hardware_mng/dispatcher/dispatcher.py:77-88 | The loop adds exactly one call for each registration of the key, the i-th to the i-th handler with the command's payload |
| `Dispatch.Dispatcher.DispatchMultiple` | src/animacharacter_server/ros2_ws/src/hardware_mng/hardware_mng/dispatcher/dispatcher.py:64-75 | The nested loop makes the calls of each command in turn, each exactly as often as its command is given times as often as its handler is registered |
| `Dispatch.BatchDispatcher.Group` | src/animacharacter_server/ros2_ws/src/hardware_mng/hardware_mng/dispatcher/batch_dispatcher.py:42-53 | The single pass splits the commands into each batch's and the rest, in order |
| `Dispatch.BatchDispatcher.Dispatch` | src/animacharacter_server/ros2_ws/src/hardware_mng/hardware_mng/dispatcher/batch_dispatcher.py:38-66 | The whole operation makes the calls the conservation theorems are about |

## Left out

- The serial libraries, ROS executors and futures, sockets, msgpack and the HMAC computation: links and topics are FIFO queues, handlers are atomic steps, the HMAC is an arbitrary 32-byte function of key and data.
- A `maxSize` larger than the memory at the buffer given to `configLargeRx`: the source trusts its caller there.
- Clocks: times are inputs, and the durations of `waitPacket`, of joins and of sleeps are choices of the schedule, so nothing is claimed about when a wait ends.
- Large transfers started while another is in progress on the same link, and begin or end packets too short for their field, which the sender never emits. A chunk packet of fewer than four bytes is covered by `ChunkReadsPayloadExactly` only.
- Overlap between the chunk buffer and other memory, and buffers whose owner frees or changes them.
- PSP `poll`, its category handlers and the authentication packet: a table lookup on top of `recv_packet`.
- Loop supervisor and session manager as objects: both are modelled on values, as interleaved steps, so sharing of their fields is by the state and not by the heap. The exact order of steps in the source is kept. Signals emitted by a job and the frequency of loops are not modelled.
- `terminate_session` and stop requests of sessions: no code calls them. Cleanup callbacks that raise other than ordinary exceptions are not modelled.
- Interference by loop threads and jobs inside one reconcile pass: they act between the visits of a controller.
- Alert change waiters, the order of the change callback against the publication, topic depth limits, and late-joining clients.
- Publication of the system status and the waits of startup and shutdown: only their state changes are steps.
- `set_psk` in mid-session and the UDP payload limit.
- Behavior groups, metadata, `play_behavior_group`, and equality of instances by fields: every play gets a fresh iterator, so instances differ. Behaviors that raise or call the engine while stepped are not modelled. The executor's stable sort is a function, not the library's algorithm.
- Dictionaries shared between caller and tree, which the source's merge can alias; nodes as linked objects, `clear`, and JSON text. Dictionaries and trees are values.
- Context managers around batches and handlers that change the dispatcher while called.
- The remaining drivers, codecs, listeners, launch files, diagnostics, calibration and the simulator: they hold no state shared between operations beyond hardware registers, configuration files and library objects, which are outside this model.
