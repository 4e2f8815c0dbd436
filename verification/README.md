# Verified model of the adaptivemsg v3 recovery session

adaptivemsg multiplexes messages over one connection. In version 3 a connection survives the loss of
its transport: frames are numbered and kept in a replay buffer until the peer acknowledges them, a
client that loses its transport dials again, both sides exchange the last number they received, and
the rest is replayed. The model covers this session layer and the stream layer above it, and proves
that it is a reliable, ordered, exactly-once channel of frames.

## Parts

- `Replay`: the replay buffer as a class, its byte count and its binary search.
- `Receiver`: in-order delivery and the delayed cumulative ACK, as classes over a value `Inbox`.
- `Sending`: what the writer task of `src/recovery_runtime.rs` has taken, kept, held and left to replay,
  as a value `Sender` with one function per move of the task.
- `WriterTask`: the task itself as a class with its real fields over the buffer and the ACK state. Each
  method is proved to make moves of `Sending`; `Refinement` turns a turn into steps of a session that put
  on the wires what the turn reports as written, and relates its commands to those of `Fencing`.
- `Wires`, `Direction`, `Session`: two endpoints over transports that are FIFO channels. A break loses
  any suffix in flight and every later write; older transports may still be read. The invariant of a
  direction ties the log, the replay queue, the held frame, the numbers, the frames and ACKs in flight
  on every transport, and what the peer has delivered. The main results are about every state of every
  run: `ExactlyOnceInOrder`, `HonestPeersNeverFail`, `GracefulCloseIsComplete`, `WireOrder`,
  `Conservation`.
- `Closing`: a CLOSE that was written is on its way until it is read or its wire breaks.
- `Progress`, `Freeing`, `Liveness`, `Stranding`: when a sender that waits for room is freed. While the
  transport lives it can be, and in a fair infinite run it is, if and only if a condition on the attach
  holds.
- `AckWake`: the lock-free ACK check against the reader's stores, one load or store at a time.
- `Fencing`, `Reconnect`: transport generations, expiry timers and the reconnect hand-off. In `Fencing` an
  expiry timer looks first and closes later; in `Reconnect` an attach advances the generation first and
  sets `transport_attached` later.
- `Streams`, `Fin`, `Replies`: streams are not reopened, FIN is last, replies are paired.
- `Framing`, `Negotiation`, `Deadline`: frames as bytes, attach options, the read deadline.

## Assumptions

- Memory is sequentially consistent. The grain of a step is one move of a writer task (one write, one
  command, one frame taken in hand), one frame read and handled, one frame enqueued, one break.
  `AckWake`, `Fencing`, `Reconnect`, `Streams` and `Fin` split their operations further.
- Delivering a frame and noting it are one step, and aborting the old reader takes effect between steps.
  `attach_transport_parts` is one step, except in `Reconnect`, and every attach names a new transport. A
  look at `closed` and the change that follows it are one step, except in an expiry timer.
- For safety the number exchanged at an attach may be any that the peer has reached, however stale:
  `src/server.rs` reads it at line 626 and attaches at line 633.
- Peers are honest: they run this code.
- Clocks, the outcome of a write, what wakes a task and where bytes are cut are parameters that the
  theorems hold for all values of.

## Where the code falls short of its promise

Each is a property that fails, with its exact condition and a run in which it fails.

- A held sender can be stranded. If the server reads its last received number before its old reader
  delivers the last frames, and the ACK of these is lost with the old transport, the client replays
  them, the server finds nothing to acknowledge (`last_ack_sent` equals `last_recv_seq`, so a duplicate
  schedules no ACK), and a frame held for room stays held while the transport lives. The conditions are
  `Freeing.FreedIffNotStranded` (some run frees it) and `Liveness.FreedInTheEndIffNotStranded` (every
  fair run does), the run is `Stranding.StaleNumberStrands`. The comment on `prepare_resume` promises
  more than that.
- A reconnect can be lost. The writer task may use a new transport, lose it and clear
  `transport_attached` before the attaching loop sets that flag. The flag then stays set for a transport
  that is gone, the loop ends, and the later detach of that transport's reader is refused for its old
  generation. `Reconnect.NoLostReconnect` says exactly when the flag misleads, over every run;
  `Reconnect.LostIffMayLose` from which states the client can end up detached for good, `LostForGood`
  that it then stays so, and `AttachCanLoseTheReconnect` gives the run.
- An attached client can be reconnected. A detaching task can be late in starting its loop, and a loop
  that has found the flag cleared can be late in taking `reconnect_active` again; meanwhile another loop
  has attached a transport and gone, and that transport is replaced. `Reconnect.ReplacedIffMayReplace` is
  the exact condition, `LateStartReconnectsAgain` and `LateRetakeReconnectsAgain` the two runs. No frame
  is lost by it.
- An expiry timer can close a connection that has been resumed. The timer looks at the generation, then
  closes; a transport attached in between, after its peer was told that the resume succeeded, is closed
  with the connection. `Fencing.TimerClosesOnlyIfStayedDetached` is the exact condition, over every run,
  `Fencing.TimerCanCloseNewTransport` the run.
- An ACK whose time passes between the check and the computation of the wait gets no timer, as an
  expired instant reads as a zero wait and `min_wait` takes that for no wait. `AckWake.TimerIffNotLate`
  is the exact condition, over every run, `AckWake.ExpiredAckCanBeSleptOn` the run. The heartbeat, if
  there is one, ends that sleep.
- Options with a heartbeat interval below one millisecond can encode to a response that the decoder
  rejects: both durations are raised to a millisecond, and the timeout is then less than two intervals.
  `Negotiation.OptionsSurviveTheWire` is the exact condition.

## Model

| member | source | states |
|---|---|---|
| `Replay.ReplayBuffer.constructor` | src/replay.rs:40-47 | a new buffer is empty and inside its budget |
| `Replay.ReplayBuffer.Stage` | src/replay.rs:51-91 | which of kept, full, too large and invalid number a frame meets, each with its exact condition over the frames kept so far; only a kept frame changes the buffer, and the byte count stays the sum of the sizes and inside the budget |
| `Replay.ReplayBuffer.Ack` | src/replay.rs:93-112 | the pop loop drops exactly the records numbered up to the ACK, reports their bytes, and an old or zero ACK drops nothing |
| `Replay.ReplayBuffer.SnapshotFrom` | src/replay.rs:115-121 | the binary search finds what filtering by number finds |
| `Replay.AfterIsSuffix` | src/replay.rs:115-120 | on a queue with a partition point, filtering by number is slicing at that point |
| `Receiver.RecoveryState.NoteReceived` | src/recovery.rs:364-387 | field by field: an old number asks for the ACK still owed, a new one is pending, due at once when as many are pending as one ACK may cover, and else after the delay from the first; the wake-up it asks for; the ACK books stay balanced |
| `Receiver.RecoveryState.TakePendingAck` | src/recovery.rs:399-427 | an ACK is taken if and only if one is owed and due, its value is the last received number, with nothing due no field changes, and the ACK books stay balanced |
| `Receiver.RecoveryState.SetNegotiated` | src/recovery.rs:327-345 | new ACK options leave the books balanced |
| `Receiver.RecoveryReader.constructor` | src/recovery_runtime.rs:104-105 | a reader on a new transport continues behind the last delivered frame |
| `Receiver.RecoveryReader.HandleDataFrame` | src/recovery_runtime.rs:398-428 | the next frame is delivered, an older one only noted, a missing number, a gap and a closed connection are errors that change nothing; the reader's own copy of the last number stays right |
| `Receiver.AckBookkeeping` | src/recovery.rs:364-427 | over all runs of notes and takes: pending is received minus acknowledged, an ACK is scheduled exactly when that is positive, emitted values strictly increase and never pass what was delivered, delivery only extends |
| `Receiver.AckIsTimely` | src/recovery.rs:372-386 | from the first unacknowledged frame on, until an ACK is taken, one is due by the delay, and at once when `ack_every` frames are pending |
| `Receiver.AckIsExact` | src/recovery.rs:364-427 | over all events since the first unacknowledged frame, and no ACK sent yet, a look sends one if and only if `ack_every` frames are pending, or the delay has run out, or an older frame came again |
| `Sending.StageKeeps` | src/recovery_runtime.rs:663-712 | a frame is refused exactly when it exceeds the whole budget, held exactly when it fits but has no room now, and otherwise kept under the next number; held and refused frames take no number |
| `Sending.HeldFitsWhenAcknowledged` | src/replay.rs:58-65 | a held frame has room once everything is acknowledged |
| `Sending.MoveKeeps` | src/recovery_runtime.rs:531-712 | every move keeps the sender's books: nothing enqueued is lost or reordered, the log is what fitted of what was taken, bytes stay inside the budget |
| `Sending.RunMovesKeep` | src/recovery_runtime.rs:482-484 | the same over any run of moves |
| `Sending.RecordsAfter` | src/recovery.rs:351-356 | what the buffer holds after an acknowledgement is the tail of the log |
| `Sending.LiveMeans` | src/recovery_runtime.rs:649-723 | a frame written live: CLOSE for the marker; a frame with room is kept and goes out under the next number; one without is held, one that never fits is refused, and neither goes out |
| `Sending.NextFrameMeans` | src/recovery_runtime.rs:545-564 | the next frame is of the replay, and goes out unless it was sent or acknowledged, else the held one, else the head of the queue; and the sender has come further unless it has to hold the frame |
| `Sending.PriorityRuns` | src/recovery_runtime.rs:531-544 | an ACK that is owed and due goes out alone, before any frame |
| `Wires.OrderedAppend` | src/recovery_runtime.rs:545-554 | writing the next number keeps a wire strictly increasing, with every number passed over acknowledged |
| `Direction.MovedKeeps` | src/recovery_runtime.rs:531-658 | every move of the writer task keeps the invariant that ties log, replay queue, numbers, bytes in flight and the peer's deliveries together |
| `Direction.MovedBackKeeps` | src/recovery_runtime.rs:532-544 | so does every move of the writer task at the receiving end: the ACK it takes is one of delivered frames |
| `Direction.DeliverKeeps` | src/recovery_runtime.rs:407-428 | the next frame of any wire, also one of an older transport, is accepted or is an old one, never a gap; CLOSE is read only with the whole log delivered |
| `Direction.BreakKeeps` | src/recovery_runtime.rs:128-137 | a break may lose any suffix in flight and every later write |
| `Session.RunOk` | src/recovery_runtime.rs:462-755 | the invariant of both directions holds in every state of every run of two endpoints |
| `Session.ExactlyOnceInOrder` | src/recovery_runtime.rs:398-428 | in every run, over any number of breaks and stale resume numbers, what one side has delivered is a prefix of what the other kept, which is what fitted of what it took, in order |
| `Session.DeliveryOnlyExtends` | src/recovery_runtime.rs:423-427 | deliveries, the log and the frames enqueued only grow along a run |
| `Session.HonestPeersNeverFail` | src/recovery_runtime.rs:407-422 | no endpoint of any run closes on a bad frame, and any frame on any wire, read at any time, is accepted |
| `Session.GracefulCloseIsComplete` | src/recovery_runtime.rs:630-646 | once a side reads CLOSE it has exactly the frames that fitted of those enqueued before the close marker, and the senders told Ok are those of these frames |
| `Closing.CloseIsOnItsWay` | src/recovery_runtime.rs:630-646 | in every run a CLOSE that was written has been read, or its wire has broken, or it is on that wire, and who reads up to it has the whole log |
| `Closing.PeerCanReadClose` | src/recovery_runtime.rs:142-145 | a run in which the peer has the frames and has read CLOSE |
| `Session.WireOrder` | src/recovery_runtime.rs:531-565 | on every transport of every run the data numbers strictly increase, so a replay precedes every live frame, and every number passed over is acknowledged |
| `Session.Conservation` | src/recovery_runtime.rs:555-712 | every frame enqueued is in exactly one of log, refused, held and queue, in the order enqueued; each decided sender has its verdict; unacknowledged bytes stay inside the budget |
| `Progress.NoSenderStuck` | src/recovery_runtime.rs:375-387 | if the attach left the direction driven, then as long as the transport lives a sender without room always has a frame to replay or in flight, or an ACK scheduled or in flight |
| `Progress.ExchangeDecides` | src/server.rs:622-633 | the attach leaves the direction driven if and only if it is not so that the peer has and has acknowledged the whole log while the number reported leaves part of it unacknowledged; a number that covers the ACKs sent, such as the exact one, is enough |
| `Progress.StrandedForever` | src/recovery_runtime.rs:531-603 | in the remaining case the held frame stays held and no acknowledgement arrives, as long as the transport lives |
| `Progress.StrandedDrained` | src/recovery_runtime.rs:412-417 | and once the replay is drained nothing is left that could wake the sender |
| `Freeing.UsefulHelps` | src/recovery_runtime.rs:531-565 | while something is on its way, a replay, a read, an ACK or the reading of one is possible and brings the last acknowledgement nearer |
| `Freeing.Drain` | src/recovery_runtime.rs:531-603 | from any state with a live transport and no side closing, some run gets everything on its way to its end, with the frame still held |
| `Freeing.FreedIffNotStranded` | src/server.rs:622-633 | after the attach of any reachable state some run on the new transport gives a waiting sender its room if and only if it is not so that the peer has and has acknowledged the whole log while the number reported leaves part of it unacknowledged |
| `Liveness.EventuallyFreed` | src/recovery_runtime.rs:531-603 | in every infinite run on a live transport in which a replay, a read or an ACK that is to happen next happens in the end, a driven sender is, from any state on, later not waiting |
| `Liveness.FreedInTheEndIffNotStranded` | src/server.rs:622-633 | after the attach of any reachable state a waiting sender gets its room in such a run if and only if it is not stranded by the number reported |
| `Stranding.StaleNumberStrands` | src/server.rs:622-633 | that case is reachable: a run in which the server reports a number read before its old reader delivers one more frame whose ACK is lost |
| `WriterTask.RecoveryWriter.constructor` | src/recovery_runtime.rs:74-85 | the task starts with nothing enqueued, kept or acknowledged |
| `WriterTask.CommandsMean` | src/recovery_runtime.rs:605-624 | the last attach of a list of commands decides transport, generation and replay position, a detach of its generation behind it takes the transport, and the highest capped number of all acknowledges |
| `WriterTask.WaitMeans` | src/recovery_runtime.rs:505-526 | what each wake-up of a detached task does to queue, log, held frame and end |
| `WriterTask.FlushMeans` | src/recovery_runtime.rs:570-603 | what a failed flush and each wake-up behind a flush do, and what they write |
| `WriterTask.TurnMeans` | src/recovery_runtime.rs:494-499 | what a turn has written when it comes to wait, and when it waits |
| `WriterTask.RecoveryWriter.Enqueue` | src/connection.rs:1001-1032 | a frame goes behind the others |
| `WriterTask.RecoveryWriter.AckReceived` | src/recovery.rs:319-321 | an ACK frees the frames up to its number, and the buffer still holds exactly the rest of the log; one beyond what was sent empties the buffer and makes it refuse the next number |
| `WriterTask.RecoveryWriter.Write` | src/recovery_runtime.rs:727-754 | a failed write gives up the transport, reports its generation as lost, and changes nothing else |
| `WriterTask.RecoveryWriter.WriteRecord` | src/recovery_runtime.rs:715-723 | the last sent number follows written frames only |
| `WriterTask.RecoveryWriter.Offer` | src/recovery_runtime.rs:678-681 | the buffer keeps, has no room for or refuses a frame exactly as the log says; neither of its invalid-number errors can occur |
| `WriterTask.RecoveryWriter.StageFrame` | src/recovery_runtime.rs:663-712 | stages as the specification does over the log, with its reply |
| `WriterTask.RecoveryWriter.Keep` | src/recovery_runtime.rs:682-688 | a number is taken only with its frame kept, and the buffer is again the tail of the log |
| `WriterTask.RecoveryWriter.FinishOnClose` | src/recovery_runtime.rs:630-646 | CLOSE goes out if and only if a transport takes it, the task ends either way, and the closer is told so only if the transport was shut down, too |
| `WriterTask.RecoveryWriter.WriteLive` | src/recovery_runtime.rs:649-658 | CLOSE for the marker, a kept frame under the next number, nothing for a held or refused one |
| `WriterTask.RecoveryWriter.PrepareResume` | src/recovery.rs:351-356 | the resume number acknowledges, and the frames to replay are exactly the log behind the last acknowledged one |
| `WriterTask.RecoveryWriter.AttachWriter` | src/recovery_runtime.rs:608-620 | the reported number, capped by what was sent, is where writing goes on and acknowledges; the rest of the log is to be replayed |
| `WriterTask.RecoveryWriter.Apply` | src/recovery_runtime.rs:606-624 | an attach takes its generation and transport, its capped number acknowledges and is where writing goes on, and the log behind is to be replayed; a detach of this generation takes the transport, one of another does nothing |
| `WriterTask.RecoveryWriter.DrainCommands` | src/recovery_runtime.rs:494-496 | the commands come to what `CommandsMean` says, and change nothing else |
| `WriterTask.RecoveryWriter.WriteNext` | src/recovery_runtime.rs:531-565 | an ACK owed and due goes out alone; else the next record of the replay is taken, and written unless it was sent or acknowledged; else the held frame, else the head of the queue is written live; more is reported unless nothing was found or the frame had to be held, and then an ACK was taken or less is ahead |
| `WriterTask.RecoveryWriter.WriteFrame` | src/recovery_runtime.rs:545-564 | the part of that behind the ACK |
| `WriterTask.RecoveryWriter.ReplayNext` | src/recovery_runtime.rs:545-554 | the first frame to replay is written unless it is acknowledged or was sent |
| `WriterTask.RecoveryWriter.SendHeldFrame` | src/recovery_runtime.rs:555-564 | the held frame is tried again before any other |
| `WriterTask.RecoveryWriter.TakeLive` | src/recovery_runtime.rs:591-593 | a queued frame is taken only with nothing held or left to replay |
| `WriterTask.RecoveryWriter.WaitDetached` | src/recovery_runtime.rs:505-526 | a closed connection and a close with a frame held stop the task, a command is applied, a queued frame is staged or ends the task; any other wake-up changes nothing |
| `WriterTask.RecoveryWriter.FlushAndWait` | src/recovery_runtime.rs:570-603 | a failed flush loses the transport; otherwise a wake-up stops the task, applies a command, writes a queued frame live, or sends a ping, and any other changes nothing |
| `WriterTask.RecoveryWriter.WriteReady` | src/recovery_runtime.rs:494-499 | commands go first, then an ACK or the next frame is written if they leave a transport; it waits exactly if it has one and found nothing, or had to hold the frame |
| `WriterTask.RecoveryWriter.BeforeWait` | src/recovery_runtime.rs:487-497 | a closed connection stops the task, a task without a transport waits, and else it writes what is ready |
| `WriterTask.RecoveryWriter.AfterWait` | src/recovery_runtime.rs:497-500 | frames and commands queued meanwhile are behind the others when it wakes up |
| `WriterTask.RecoveryWriter.Step` | src/recovery_runtime.rs:487-501 | exactly which moves a turn makes, all of them enabled; it loses and reorders nothing enqueued, and never writes without a transport |
| `Refinement.TurnIsARun` | src/recovery_runtime.rs:482-501 | the moves of a turn, the frames queued while it waits and the moves behind that are one run of session steps that ends in the task's state; the wires then carry what they carried and what the turn reports as written, and the peer is as it was |
| `Refinement.CommandsAgree` | src/recovery_runtime.rs:606-624 | the drained task holds a transport exactly if the generations of its commands say so |
| `Refinement.CommandAgrees` | src/recovery_runtime.rs:606-624 | applying one command is the same in `Fencing` and in the task |
| `AckWake.PlanIsNote` | src/recovery.rs:364-427 | a note and a take, split into their loads and stores, do what they do as a whole |
| `AckWake.DueAckIsFollowedByWakeUp` | src/recovery.rs:399-427 | with the lock-free check interleaved with the reader's stores, a due ACK is never slept on: a wake-up is stored or coming, or the writer's timer is set for it, unless its time had passed when the wait was computed |
| `AckWake.TimerIffNotLate` | src/recovery.rs:389-397 | over every run: a waiting writer will look at a delayed ACK again, by a wake-up or its timer, if and only if a wake-up is coming anyway or the ACK had not expired when this wait was computed |
| `AckWake.ExpiredAckCanBeSleptOn` | src/recovery_runtime.rs:757-765 | otherwise the writer can sleep on an expired ACK: a reachable state with no timer and no wake-up for it |
| `Fencing.OldDetachIsFenced` | src/recovery_runtime.rs:186-215 | in any run the current transport ends only by its own detach or a new attach, and the writer task gives up no transport that is still current |
| `Fencing.TimerClosesOnlyIfStayedDetached` | src/recovery_runtime.rs:217-235 | a timer that closes saw the connection detached from its start to its look at the generation; it is detached still when the timer closes it if and only if no transport was attached since that look |
| `Fencing.TimerCanCloseNewTransport` | src/recovery_runtime.rs:229-233 | a reachable state in which a timer closes a connection that is on a newer transport |
| `Fencing.WriterFollowsCurrent` | src/recovery_runtime.rs:606-624 | with the commands drained and no detach under way the writer task holds a transport exactly if it is the current one |
| `Reconnect.NoLostReconnect` | src/recovery_runtime.rs:34-62 | under any interleaving at most one loop owns `reconnect_active`; an open, detached client with no detach under way has its flag cleared, and a loop running or about to check again, if and only if no attach set the flag for a transport already gone since it was last cleared |
| `Reconnect.LastCheckReconnects` | src/recovery_runtime.rs:259-270 | and if that check is the only task left, it reconnects |
| `Reconnect.LostIffMayLose` | src/recovery_runtime.rs:237-272 | from any reachable open, detached state the tasks can run out with the client detached if and only if no loop is reconnecting and the flag is to be set, or is set with no task that would clear it or find `reconnect_active` free |
| `Reconnect.LostForGood` | src/recovery_runtime.rs:186-215 | in such a state only an explicit close can still happen |
| `Reconnect.AttachCanLoseTheReconnect` | src/recovery_runtime.rs:46-51 | such a state is reachable |
| `Reconnect.ReplacedIffMayReplace` | src/recovery_runtime.rs:237-272 | from any reachable open state with a live transport the tasks under way can replace it if and only if one is to take `reconnect_active`, or is still to look at a flag that is not set |
| `Reconnect.LateStartReconnectsAgain` | src/recovery_runtime.rs:209-250 | an attached client is reconnected by a detaching task that starts its loop late |
| `Reconnect.LateRetakeReconnectsAgain` | src/recovery_runtime.rs:261-270 | an attached client, with no detach under way, is reconnected by a loop that looked before the attach |
| `Streams.ReleasedStreamNeverReopens` | src/connection.rs:708-779 | with opening, lookup, check and creation interleaved with any closers, each ID is created at most once and all its frames reach that one stream |
| `Streams.OwnIdsAreNotCreated` | src/connection.rs:561-573 | as `new_stream` advances the next ID, no frame creates a stream under an ID of this side: a side that opens streams has exactly those it opened, numbered from 1 |
| `Fin.FinIsLast` | src/stream.rs:161-191 | with send, close and protocol errors interleaved, nothing is queued behind a FIN, and there is one |
| `Fin.DispatchedAhead` | src/connection.rs:857-872 | the messages dispatched are those ahead of the first item that is a FIN or does not decode, and the stream is released if and only if there is one |
| `Fin.DecodeTask` | src/connection.rs:845-875 | the decode loop dispatches the messages ahead of the first item that ends the stream, in order |
| `Fin.AllDispatchedBeforeRelease` | src/connection.rs:857-872 | a receiver that can decode what it gets releases the stream only on the FIN, with every message ever queued dispatched |
| `Replies.ReplyStream.ReadRaw` | src/stream.rs:422-435 | the discard loop skips exactly the late replies; the last request's reply is returned if and only if it arrives before the timeout, a close or the end, and otherwise that decides |
| `Replies.ReplyStream.SendRecv` | src/stream.rs:260-289 | a call returns a reply if and only if its own arrives in time, it returns its own, and `stale_replies` is the number of requests that timed out and whose replies were not discarded |
| `Framing.BuildHeader` | src/frame.rs:28-51 | the array filled in place holds the version, flags, stream, length and number, in big-endian order; an oversized payload is an error |
| `Framing.Put` | src/frame.rs:45-48 | writes the big-endian bytes at its offset and changes no other byte |
| `Framing.BigEndianDigits` | src/frame.rs:45-48 | byte i of a number is its base-256 digit at that place, the most significant first |
| `Framing.FrameLayout` | src/frame.rs:5-50 | version, flags, stream, length and number of an encoded frame at their literal offsets, in a header of 10 or 18 bytes with the payload behind it |
| `Framing.ReadCases` | src/connection.rs:1203-1227 | the answer to any bytes, with the exact condition of each error, in the order of the checks |
| `Framing.HeaderRoundTrip` | src/frame.rs:61-84 | parsing a header that was built gives its fields, v2 without the number |
| `Framing.ByteReader.ReadFrame` | src/connection.rs:1199-1228 | the result is a function of the bytes alone, however they are cut up; the rest of the stream is left untouched |
| `Framing.FrameRoundTrip` | src/connection.rs:1169-1228 | a written frame followed by anything is read back, and exactly that is left |
| `Framing.CutFrame` | src/connection.rs:1205-1226 | a stream that ends inside a frame is an unexpected end |
| `Framing.StreamRoundTrip` | src/connection.rs:1169-1228 | of any list of frames cut anywhere exactly the whole ones are read, and the end is clean exactly at a frame boundary |
| `Framing.ListRoundTrip` | src/connection.rs:1169-1228 | writing any list of frames and reading it gives the list back, and a clean end |
| `Negotiation.Normalize` | src/recovery.rs:207-227 | each zero field becomes its default (64, 20 ms, 30 s, 90 s), the others stay, and the timeout is raised to two heartbeats |
| `Negotiation.NormalizedIsNormal` | src/recovery.rs:207-227 | normalizing makes options normal, is idempotent, and leaves normal options alone |
| `Negotiation.OptionsSurviveTheWire` | src/recovery_protocol.rs:143-203 | encodable options are accepted at the other end, floored to milliseconds and still normal, if and only if the normalized heartbeat interval is at least 1 ms or the timeout at least 2 ms |
| `Negotiation.EncodableIffShort` | src/recovery_protocol.rs:190-203 | encoding fails exactly for a duration of 2^32 ms or more |
| `Negotiation.HalfMillisecondHeartbeatIsRejected` | src/recovery_protocol.rs:182-186 | normal options with a sub-millisecond heartbeat whose encoding the other end rejects |
| `Negotiation.FillResponse` | src/recovery_protocol.rs:97-106 | the fixed buffer holds every field at its offset and zeros in the gap |
| `Negotiation.ResponseRoundTrip` | src/recovery_protocol.rs:90-134 | an attach response is read as it was written, its last received number included |
| `Negotiation.ControlLayout` | src/recovery_protocol.rs:205-218 | the bytes of each control payload |
| `Negotiation.ControlRoundTrip` | src/recovery_protocol.rs:205-256 | a control payload parses as a given control if and only if it is what is built for it |
| `Deadline.FrameReader.ReadWithin` | src/recovery_runtime.rs:434-456 | one read with the timer re-armed only when it fires ends as with a timer set anew, never before its start plus the timeout; the armed instant never lies later than that |
| `Deadline.FrameReader.ReadAll` | src/recovery_runtime.rs:101-139 | so does each of any sequence of reads that share the timer, one begun no earlier than the other |
| `Deadline.EagerIsExact` | src/recovery_runtime.rs:445-453 | the reference deadline times out at the first look past its time without a frame, and not before |

## Left out

- Sockets, dialing, TLS, QUIC and task scheduling: a transport is a channel that can be cut.
- Payload codecs, macros, the registry of handlers: payloads are opaque bytes, messages are numbers.
- The version handshake and the fallback to v2: a short case analysis with easy members only.
- Debug counters, failure records, logging and callbacks: no hard invariants.
- Tokens and the authorization of a resume: the attach step starts where it was granted.
- The attach request: it is laid out as the first 44 bytes of the response, whose round trip is proved.
- Integer widths of sequence numbers, generations and byte counts: these are unbounded here; header and attach fields have their real widths.
- `dirty`: a flush that fails is possible on every turn, not only after a write.
- A write that fails half-way: the transport is lost with it, and the broken frame is the end of that wire.
- Cancellation of a `send` that waits for its verdict: the verdict is recorded whether or not somebody waits for it.
- Wall-clock promises: no bound on when an ACK leaves or `connect` ends.
- Overlap of an aborted old reader with the new one, and concurrent attaches: the hand-off is one step.
- Reconnect.NoLostReconnect: the first attach of a connection, before any loop, is where its runs begin; only those of the loops are split.
- A TTL of zero: normalized server options never have one, and it would close the connection at once, which is the `Close` step of `Fencing`.
- Backoff of the reconnect loop: only its outcomes are steps.
- Stream 0 and the default stream, and the size of `closed_peer_streams`: an ID may stay reserved after its FIN.
- `peek_wire` and plain `recv` on a stream used for `send_recv`: the pairing assumes calls that are made one at a time and not cancelled.
- In-place update of the stream maps, stream flags and generation counters: `Streams`, `Fin`, `Fencing`, `Reconnect` and `AckWake` are state machines on values, because what they prove is about interleavings of steps; the model then has no aliasing.
- WriterTask.RecoveryWriter.AckReceived: after an ACK beyond what was sent, which only a dishonest peer sends, the task is not modelled further.
- WriterTask.RecoveryWriter.Step: a turn runs against other tasks only while it waits; interleaving between its moves is covered by the runs of `Session`, whose steps are single moves.
- WriterTask.RecoveryWriter.FlushAndWait: which of several ready sources wakes the task is a parameter, and so is whether the timer was the heartbeat.
- Framing.ByteReader.ReadFrame: a read error other than the end of the stream is not modelled; it ends the reader like a cut.
- Streams.OwnIdsAreNotCreated: one side of a connection opens streams; the model does not cover both sides opening streams under the same IDs, nor the end of the ID range.
- Fencing.OldDetachIsFenced: the reader's abort handle, which `detach_transport` takes for the same generation only, is not modelled.
- Streams.ReleasedStreamNeverReopens: a frame dropped because its stream closed after the lookup counts as delivered to that stream.
