# A verified model of the relay server

The relay server takes binary frames from authenticated WebSocket connections and forwards each of
them to up to ten other connections. One frame lives in one reference-counted buffer that is shared
by all recipients. This project models that server in Dafny and proves what it promises: memory
safety of the shared buffers under every interleaving, what is delivered to whom and in which order,
an exact parser, exact laws for the counters, and correct latency statistics.

`dafny verify dfyconfig.toml` verifies everything.

## Layout

The concurrent relay is a step system (`Model.dfy`). Every connection has a read loop and a write
pump; a step is one atomic action of one of them, cut wherever the Go code can be interrupted: the
registry `Swap` is apart from `connCount.Add`, `Retain` from the lock, the lock from the `isClosed`
test, the test from the send, `Write` from `Release`, `delivered` from RecordLatency. RWMutex.Lock is
two steps, so that a pending Close already shuts out new readers. The latency worker is a goroutine of
its own behind a bounded channel. `Run` takes any enabled steps in any order, and
`Reachable` is what runs from the empty server can lead to. The fault field records a double free, a
use after free, a retain of a freed buffer, a send on a closed channel or a second close.
Its functions and the code they stand for:

- `Model.LifeMove`: internal/domains/relayer/relayer.go:134-151, internal/network/ws_connector.go:210-246, internal/server/server.go:174-177
- `Model.FrameMove`: internal/network/ws_connector.go:163-187 and 248-255, internal/domains/relayer/relayer.go:179-191
- `Model.RouteMove`: internal/domains/relayer/relayer.go:193-206, internal/core/protocol.go:43-50
- `Model.PushMove`: internal/network/ws_connector.go:58-70
- `Model.PumpMoveOf`: internal/network/ws_connector.go:214-236, internal/domains/relayer/relayer.go:226-235
- `Model.ApplyWorker`: internal/domains/relayer/relayer.go:52-77
- `Model.CloseStep`: internal/network/ws_connector.go:72-82
- `Model.Bufs`, `Model.BufFault`: internal/mem/buffer.go:27-29, internal/mem/buffer_linux.go:35-47

The invariant of that system is spread over `Ownership.dfy` (reference counts), `Locking.dfy` (the
RWMutex and the channel), `Content.dfy` (what buffers carry), `Traffic.dfy` (what was sent where),
`Registry.dfy` and `Accounting.dfy`, and put together in `Invariant.dfy`. The results are in
`Safety.dfy`, `Totals.dfy`, `Liveness.dfy`, `Failure.dfy`, `EndToEnd.dfy` and, for particular runs,
`Witnesses.dfy`. What one goroutine does undisturbed is in `Lifecycle.dfy` (a connection's beginning and
end), `Reception.dfy` (the answer to a frame), `Alone.dfy`, `Outcome.dfy` and `Arrival.dfy` (its distribution),
`Departure.dfy` (the write pump) and `Failure.dfy` (its end after a failed write). `Runs.dfy` puts runs
together; `Folds.dfy` and `Sequences.dfy` hold sums and subsequences.

The objects of the Go code that change in place are classes or methods over arrays: `Memory.dfy`
(mem.Buffer), `Message.dfy` and `Targets.dfy` (the view of a message, ExtractTargets, duplicate
detection), `Parser.dfy` (the incremental parser over a reader that splits the bytes as it likes),
`Connector.dfy` (WSConnector), `Relayer.dfy` (the relayer and its HandleMessage), `Session.dfy` (one
turn of a read loop, one run of a write pump), `Latency.dfy` (the statistics worker and snapshot).
They are proved against functions whose meaning is the subject of separate lemmas: `Codec.dfy` (the
grammar), `Rejection.dfy` (which stream gets which error, in terms of its bytes), `Unreached.dfy` (what a
message adds to noRecip), `Welford.dfy`, `Reservoir.dfy`, `Quantile.dfy`. `Wire.dfy` has the frame layout,
`Client.dfy` the command-line client's encoder (cmd/client/main.go:154-205) and decoder
(cmd/client/main.go:84-99), and `Addressing.dfy` whom and what its frames carry.

## What the code does differently from its comments

- `Retain` is announced to panic on a freed buffer (internal/mem/buffer.go:24-26); it does not look.
  `Safety.NoFaults` shows that it never has to.
- `Count` is said to mirror the registry (internal/domains/relayer/relayer.go:20). It lags by the
  outstanding updates and can be negative: `Witnesses.CountCanBeNegative` is a run, and
  `Totals.CountIsExactIff` says exactly when it is right.
- `delivered` is commented as "pushed" (internal/domains/relayer/relayer.go:22) but counts completed
  writes. `Totals.DeliveredIsPushedIff` says when that is the same; `Witnesses.CountersDisagree` passes
  through a state in which it is not.
- `noRecip` is commented as messages without a recipient (internal/domains/relayer/relayer.go:23); it
  also counts dropped pushes and failed writes, and a single-recipient message whose push is dropped
  counts twice (`Relaying.SingleTarget`). So delivered + noRecip is not processed in general, not even
  at rest (`Witnesses.CountersDisagree`); `Totals.PublicCountersAgreeIff` says when it is.
- Recipients are promised every frame if they are online (Comunication.md:100); the code also requires
  room in their queue and leaves out the sender. For a sender that runs undisturbed,
  `Arrival.FrameGetsThrough` has the exact condition.
- `latencyCount` is said to match `delivered` (internal/domains/relayer/relayer.go:28), but
  measurements are dropped when the latency channel is full. `Totals.LatencyCountIsDeliveredIff` says
  when the two agree; `Witnesses.LatencyCanBeLost` is a run after which, by `Totals.LossIsFinal`,
  they never will.
- A reader that answers neither bytes nor an error when probed for the end makes the parser reject a
  valid frame (internal/network/ws_connector.go:173-185). `Parser.ChunkingMattersOnlyAtTheProbe`
  says exactly for which streams that changes the verdict.

## Model

| member | source | states |
|---|---|---|
| `Invariant.StepKeepsInv` | internal/network/ws_connector.go:58-271 | every atomic step of every read loop, write pump and new connection keeps the whole invariant |
| `Invariant.ReachableInv` | internal/network/ws_connector.go:58-271 | the invariant holds in every reachable state of every interleaving |
| `Safety.NoFaults` | internal/mem/buffer_linux.go:32-47 | no interleaving double-frees, uses or retains a freed buffer, sends on a closed channel or closes one twice |
| `Safety.StepsAreSound` | internal/core/protocol.go:35-50 | in any reachable state, a step that changes, retains or releases a buffer finds it alive, one that adds to a channel finds it open, and no channel is opened again |
| `Safety.RefsAreHolders` | internal/core/protocol.go:35-50 | refs is the owner's read-loop references plus occurrences in all queues plus pumps holding it; never negative; freed exactly at zero |
| `Ownership.ReadBalance` | internal/core/protocol.go:43-50 | every step of a read loop works only on buffers it holds, and what it and the channel it touches hold afterwards is what they held before, plus what it retains or allocates, minus what it releases |
| `Ownership.ReadConserves` | internal/core/protocol.go:43-50 | a move so balanced keeps every refs equal to the number of holders, and does not fault on memory |
| `Ownership.PumpBalance` | internal/network/ws_connector.go:215-231 | the same balance for every step of a write pump, its drain included |
| `Ownership.PumpConserves` | internal/network/ws_connector.go:215-231 | a pump move so balanced keeps every refs equal to the number of holders, and does not fault on memory |
| `Safety.WipesExclusively` | internal/domains/relayer/relayer.go:188-191 | at the wipe the read loop's reference is the only one: refs is 1, and no queue, pump or other loop has the buffer |
| `Totals.WritesAreExclusive` | internal/core/message.go:71-83 | a read loop's step that changes a buffer's bytes is its allocator's, holding the only reference |
| `Totals.PumpsWriteNothing` | internal/network/ws_connector.go:215-236 | a pump's step changes no bytes |
| `Safety.StepKeepsFinal` | internal/domains/relayer/relayer.go:189-202 | no step changes the bytes of a wiped buffer |
| `Safety.FinalContentStays` | internal/domains/relayer/relayer.go:189-202 | from the wipe on, all later states of any run show the same bytes |
| `Totals.InTransit` | internal/core/message.go:71-83 | whatever is queued or in a pump's hand is alive, addressed to that connection, and shows the parsed frame with its recipients wiped |
| `Safety.FinalContent` | internal/domains/relayer/relayer.go:179-191 | a wiped buffer is the delivered form of the frame its sender sent, and is for exactly the listed identities other than the sender |
| `Safety.DeliveriesLegitimate` | internal/network/ws_connector.go:215-217 | everything written on c comes from one accepted frame of another key's connection that lists c's key, byte for byte in the documented layout |
| `Safety.AtMostOncePerKey` | internal/domains/relayer/relayer.go:193-202 | no frame is written twice for one recipient key, even if connections under that key are replaced meanwhile |
| `Safety.FifoPerPair` | internal/network/ws_connector.go:58-70 | for each sender and recipient connection the frames written are, in order, a subsequence of those accepted |
| `EndToEnd.RecipientReads` | cmd/client/main.go:84-99 | the recipient decodes each written frame to the sender's authenticated key and the sender's data |
| `EndToEnd.ChunkArrives` | cmd/client/main.go:154-205 | if the frame was the i-th a client made of its line, the recipient reads the i-th chunk |
| `EndToEnd.LineArrives` | cmd/client/main.go:154-205 | if a sender's accepted frames contain a client's frames in a row and all of them have been written on c, they stand there in a row among that sender's frames, decode to its key, and concatenate to the line |
| `EndToEnd.FrameIsDelivered` | internal/network/ws_connector.go:214-255 | a valid frame for a served connection whose pump waits is, by the sender's and then the pump's undisturbed steps, written behind what was queued, and decodes to the sender's key and data |
| `Safety.RefsBounded` | internal/core/message.go:14 | no buffer ever has more than eleven references |
| `Safety.QueuesBounded` | internal/network/ws_connector.go:44-54 | no queue exceeds its capacity |
| `Safety.LiveBounded` | internal/network/ws_connector.go:44-54 | live buffers number at most (capacity + 2) per unfinished connection |
| `Safety.NoLeakAtQuiescence` | internal/network/ws_connector.go:210-236 | once all read loops and pumps have ended, every buffer ever allocated is freed |
| `Locking.ReadLockMoveOf` | internal/network/ws_connector.go:58-82 | every read-loop step respects the RWMutex; sends happen only on open channels with room |
| `Locking.PumpLockMoveOf` | internal/network/ws_connector.go:72-82 | every pump step respects the RWMutex, and closes no channel twice |
| `Locking.PumpKeepsLocked` | internal/network/ws_connector.go:72-82 | pump moves that do keep the lock discipline between SafePush and Close |
| `Liveness.StepTowardsEnd` | internal/network/ws_connector.go:58-82 | after Close nothing is pushed any more; each pump step lowers the distance to its end and no other step raises it |
| `Liveness.PumpEnds` | internal/network/ws_connector.go:214-236 | in any run a closed connection's pump takes at most twelve steps per queued message and a constant |
| `Liveness.TakenLockMoves` | internal/network/ws_connector.go:58-82 | of a lock that is held, or announced by a pending Close, somebody inside can take the next step |
| `Liveness.ReadLoopNeverStuck` | internal/network/ws_connector.go:238-271 | a read loop that has not ended can step, or waits for a lock whose holder or pending closer can; readers wait for a pending Close, too |
| `Liveness.PumpNeverStuck` | internal/network/ws_connector.go:214-236 | a started pump can step, or waits for such a lock, or for messages on an open channel |
| `Alone.PushAlone` | internal/network/ws_connector.go:58-70 | SafePush without interference queues the message exactly if the connector is open and not full, and is counted so |
| `Alone.DeliverAlone` | internal/core/protocol.go:43-50 | DeliverTo then leaves one reference more on success, none on a drop, which is counted |
| `Alone.LoopIsExact` | internal/domains/relayer/relayer.go:193-202 | with distinct targets exactly the registered, open, non-full ones get the buffer once, all other channels are unchanged |
| `Alone.HandlingAlone` | internal/domains/relayer/relayer.go:193-206 | the whole loop without interference: queues, references and all counters as serving target after target gives them, one more failure if nothing matched |
| `Outcome.LoopCounts` | internal/domains/relayer/relayer.go:193-202 | with distinct targets the loop takes one reference and counts one push for each that is registered, open and not full, and one failure for each that is registered and not so |
| `Arrival.FrameGetsThrough` | internal/network/ws_connector.go:238-255 | in any reachable state in which no connector the frame names is about to close, a valid frame arriving on an idle connection can, by that connection's undisturbed steps, reach the queue of exactly the named, registered, open, non-full connectors other than the sender's key, once each, in its delivered form; the buffer then has one reference per copy, every counter has moved by the number of copies and refusals, a frame for nobody but its sender has moved none, and the connection is idle again |
| `Departure.QueueGetsOut` | internal/network/ws_connector.go:214-236 | a waiting pump can, by its own steps and with working writes, write its whole queue in order, byte for byte, count each message as delivered, and record or drop its latency |
| `Failure.NothingAfterFailure` | internal/network/ws_connector.go:222-232 | after a failed write on a connection nothing is ever written on it again, in any run |
| `Failure.FailureEndsThePump` | internal/network/ws_connector.go:222-232 | a pump whose write failed can, by its own steps once the lock is free, report one failure, close the connector, release every queued message unwritten, and stop |
| `Lifecycle.Connects` | internal/domains/relayer/relayer.go:131-139 | a new connection, undisturbed, replaces the entry under its key, is counted exactly if there was none, and ends idle with its pump waiting |
| `Lifecycle.Disconnects` | internal/network/ws_connector.go:210-212 | a connection that is given up can, by its own steps once the lock is free, leave the registry and the count exactly if it is still registered, close its connector, leave the queue to its pump, and end |
| `Reception.TextIgnored` | internal/network/ws_connector.go:243-246 | a text message changes nothing at all |
| `Reception.ReaderFails` | internal/network/ws_connector.go:239-242 | a connection whose next frame cannot be had is given up, and nothing else changes |
| `Reception.FrameArrives` | internal/network/ws_connector.go:120-161 | in any state a frame without recipients changes nothing, one whose fixed part is whole and within the rules gets a fresh buffer, any other ends the connection |
| `Reception.FrameFilled` | internal/network/ws_connector.go:163-187 | in any state the body is accepted, and stamped, if and only if the stream is in the grammar, ends cleanly and its end probe does not stall; otherwise the buffer is released and the connection is given up |
| `Reception.FrameAnswered` | internal/network/ws_connector.go:248-270 | undisturbed, a frame is accepted exactly if it is in the grammar with a clean end, leaves the connection idle exactly if it starts with 0, and ends it otherwise; a refused frame leaves nothing queued, counted or allocated |
| `Registry.RegMoveOf` | internal/domains/relayer/relayer.go:134-151 | every read-loop step swaps, deletes and counts as OnConnect and OnDisconnect do, and only there |
| `Registry.RegisteredAfterRead` | internal/domains/relayer/relayer.go:134-151 | moves that do keep registry, latest swap and counter related |
| `Totals.RegistryIsLatest` | internal/domains/relayer/relayer.go:131-160 | a key maps to the connection swapped in last, until that one's own OnDisconnect, under its own key |
| `Totals.CountIsExactIff` | internal/domains/relayer/relayer.go:134-165 | connCount is the registry's size minus outstanding increments plus outstanding decrements; exact, or negative, exactly when these say so |
| `Witnesses.CountCanBeNegative` | internal/domains/relayer/relayer.go:134-151 | a reachable state in which Count reports -1 |
| `Totals.PushesAndFailures` | internal/network/ws_connector.go:215-234 | pushes are delivered, failed, drained, queued or in hand; noRecip is dropped pushes, unmatched messages and failed writes |
| `Totals.PublicCountersAgreeIff` | internal/domains/relayer/relayer.go:184-218 | the law between delivered, noRecip and processed with nobody in HandleMessage, and exactly when they agree |
| `Totals.SingleRecipientLaw` | internal/domains/relayer/relayer.go:184-218 | the law for single-recipient traffic |
| `Witnesses.CountersDisagree` | internal/domains/relayer/relayer.go:184-218 | one run that passes through a state with delivered + noRecip below processed and delivered below the pushes, and comes to rest with delivered + noRecip above processed |
| `Totals.DeliveredIsPushedIff` | internal/domains/relayer/relayer.go:22 | delivered is the number of pushes exactly when no write failed, nothing was drained and nothing is on its way |
| `Totals.DeliveredIsWritten` | internal/network/ws_connector.go:217-233 | the successful writes on all connections are delivered, plus those whose success is just being reported |
| `Totals.LatencyCountIsDeliveredIff` | internal/domains/relayer/relayer.go:226-235 | delivered is latencyCount plus measurements dropped at the full channel plus those on their way; the two counters agree exactly when there are none of either |
| `Totals.LossIsFinal` | internal/domains/relayer/relayer.go:226-235 | once a measurement has been dropped, latencyCount stays below delivered in every later state of every run |
| `Witnesses.LatencyCanBeLost` | internal/domains/relayer/relayer.go:226-235 | a reachable state at rest, with the latency channel empty, in which one measurement has been dropped and latencyCount is one short of delivered |
| `Rejection.HeaderPassesIff` | internal/network/ws_connector.go:113-150 | a buffer is allocated if and only if the stream begins with a whole fixed part that names 1 to 10 distinct recipients and announces no more than the limit |
| `Rejection.SkippedIff` | internal/network/ws_connector.go:120-124 | skipped is exactly a non-empty stream that starts with 0 |
| `Rejection.TooLargeIff` | internal/network/ws_connector.go:146-150 | too large is exactly a whole fixed part with 1 to 10 distinct recipients that announces more than the limit |
| `Rejection.InvalidIff` | internal/network/ws_connector.go:125-144 | invalid is exactly a count above ten, a whole fixed part that names somebody twice, or a frame of the grammar with bytes behind it |
| `Rejection.CutIff` | internal/network/ws_connector.go:115-185 | a stream that ends within the fixed part or the data is EOF between two reads, unexpected EOF inside one, or the reader's fault, which a whole frame gets, too; and only these get these errors |
| `Codec.AcceptedIsFrame` | internal/network/ws_connector.go:112-188 | an accepted stream is the encoding of some recipients and data |
| `Codec.AcceptsExactlyTheGrammar` | internal/network/ws_connector.go:84-188 | a stream is accepted if and only if it is one frame of the grammar, and is then stamped, not altered |
| `Codec.FrameInjective` | internal/network/ws_connector.go:88 | no two frames share an encoding |
| `Parser.Reader.Read` | internal/network/ws_connector.go:174 | an io.Reader that hands out its stream in order, in pieces of any size, and may stall |
| `Parser.ReadFull` | internal/network/ws_connector.go:115-117 | fills the requested range or reports the right end of the stream, whatever the pieces |
| `Parser.Drain` | internal/network/ws_connector.go:120-124 | a skipped frame is read to its end |
| `Parser.ReadHeader` | internal/network/ws_connector.go:113-150 | for every splitting, the header or the error that the Rejection lemmas give the stream, and the rest of the stream |
| `Parser.ReadTail` | internal/network/ws_connector.go:131-150 | the same from the recipients on, through a stack copy of them |
| `Parser.ReadBody` | internal/network/ws_connector.go:163-185 | data in place and stream at its end, or the error of the first failing test |
| `Parser.ReadMessageWithFixedFromID` | internal/network/ws_connector.go:112-188 | the grammar's verdict for every stream and splitting; one buffer of the exact size, released on every failing path |
| `Parser.ChunkingMattersOnlyAtTheProbe` | internal/network/ws_connector.go:170-185 | the verdict departs from the grammar's exactly for frames whose end probe stalls; these are then invalid |
| `Targets.HasDuplicateTarget` | internal/network/ws_connector.go:190-207 | true if and only if two of the n identities are equal |
| `Targets.ExtractTargets` | internal/core/protocol.go:18-33 | writes the order-preserving filter of the first min(N, 10) identities, and nothing beyond |
| `Targets.WithoutMembers` | internal/core/protocol.go:24-31 | the filter keeps exactly the identities other than self |
| `Targets.WithoutKeepsOrder` | internal/core/protocol.go:24-31 | the filter is a subsequence |
| `Targets.WithoutCounts` | internal/core/protocol.go:24-31 | the filter drops every occurrence of self and none of anybody else |
| `Targets.RecipientsOfFrame` | internal/core/protocol.go:9-33 | an accepted frame is routed to distinct identities: those it lists, without its sender |
| `Targets.NamedOfLongFrame` | internal/core/protocol.go:18-23 | of more than ten recipients the first ten are looked at |
| `Message.ZeroToIDs` | internal/core/message.go:71-83 | the array afterwards is the wiped message |
| `Message.ZeroedKeepsTheRest` | internal/core/message.go:23-83 | the wipe blanks every recipient and changes neither sender, count nor payload; wiping twice is wiping once |
| `Message.StampedFields` | internal/core/message.go:23-69 | the accessors read back every field of a stamped frame |
| `Message.ZeroedIsDelivered` | internal/core/message.go:71-83 | wiping a stamped frame gives the documented delivered layout |
| `Message.PayloadIff` | internal/core/message.go:54-69 | the payload is p if and only if p's length and p follow the recipients |
| `Message.MissingReadsAsZero` | internal/core/message.go:23-52 | sender, count and identities that a message does not have read as zero, and a recipient list that is cut off is not wiped |
| `Wire.FlattenIdsOf` | internal/core/message.go:40-52 | cutting a recipient region into identities and joining them gives the region back |
| `Wire.PutUint32Of` | internal/network/ws_connector.go:146 | the big-endian length re-encodes to the same bytes |
| `Wire.Uint32Put` | internal/network/ws_connector.go:146 | an encoded length decodes to itself |
| `Wire.BigEndian` | internal/network/ws_connector.go:146 | lengths are ordered as their encodings, most significant byte first |
| `Memory.Buffer.constructor` | internal/mem/buffer_linux.go:14-30 | n bytes, one reference; no bytes for n = 0 |
| `Memory.Buffer.Retain` | internal/mem/buffer.go:24-29 | one reference more, unconditionally |
| `Memory.Buffer.Release` | internal/mem/buffer_linux.go:32-47 | one reference less, bytes gone exactly at zero, panic exactly below |
| `Connector.WSConnector.constructor` | internal/network/ws_connector.go:44-54 | an open, empty channel of the given capacity, 256 by default |
| `Connector.WSConnector.SafePush` | internal/network/ws_connector.go:58-70 | succeeds exactly if open and not full; the message is appended then and dropped otherwise |
| `Connector.WSConnector.Close` | internal/network/ws_connector.go:72-82 | closed afterwards, and never panics however often it is called |
| `Connector.WSConnector.Drain` | internal/network/ws_connector.go:226-230 | every message left is released once per occurrence |
| `Connector.WSConnector.WriteQueued` | internal/network/ws_connector.go:215-222 | messages go out in order up to the first failing write, each released after its write |
| `Connector.WSConnector.WritePump` | internal/network/ws_connector.go:214-236 | written in order up to the first failing write, which closes; every queued reference is released, none twice |
| `Relaying.DeliverTo` | internal/core/protocol.go:35-50 | the push's outcome, with one reference more exactly if it succeeded |
| `Relaying.Relayer.OnConnect` | internal/domains/relayer/relayer.go:131-139 | the entry is replaced and the count still mirrors the registry |
| `Relaying.Relayer.OnDisconnect` | internal/domains/relayer/relayer.go:141-151 | removes the entry only if it still is the caller's |
| `Relaying.Relayer.Count` | internal/domains/relayer/relayer.go:162-165 | the counter, which between calls is the number of registered connectors |
| `Relaying.Relayer.GetConnectorByKey` | internal/domains/relayer/relayer.go:153-160 | the registered connector, if any |
| `Relaying.Relayer.PushToAll` | internal/domains/relayer/relayer.go:193-202 | queues, references and failure count after any list of targets, repeated ones included |
| `Relaying.Relayer.HandleMessage` | internal/domains/relayer/relayer.go:167-207 | wiped bytes, new queues, references and counters for any message, and no trace of one without recipients; the Unreached lemmas say what its failure count is |
| `Relaying.OneCopyEach` | internal/domains/relayer/relayer.go:193-202 | distinct targets that are registered with room get one copy each, all other queues none |
| `Relaying.ReferencesAreCopies` | internal/core/protocol.go:43-50 | the references taken are the copies queued, whatever the targets |
| `Relaying.SingleTarget` | internal/domains/relayer/relayer.go:193-206 | a lone target adds 0, 1 or, if its push is dropped, 2 to noRecip |
| `Unreached.FailuresOfDistinct` | internal/domains/relayer/relayer.go:193-206 | a message to distinct targets adds to noRecip the number of targets registered without room, and one more exactly if no target is registered with room |
| `Unreached.MatchedIff` | internal/domains/relayer/relayer.go:193-206 | somebody gets a message exactly if some target, repeated or not, is registered with room |
| `Unreached.PushesSplit` | internal/domains/relayer/relayer.go:193-202 | each naming of somebody registered is one push, taken or dropped, for any targets |
| `Unreached.FailuresOfAny` | internal/domains/relayer/relayer.go:193-206 | any targets add to noRecip the namings of registered connectors beyond the copies queued, and one more exactly if nobody has room |
| `Session.Route` | internal/network/ws_connector.go:249-255 | after HandleMessage and the loop's Release the buffer has one reference per queued copy and is gone if there is none |
| `Session.Turn` | internal/network/ws_connector.go:248-269 | a rejected frame changes nothing and ends the loop unless it is skipped; an accepted one is routed by its own recipients |
| `Session.RunPump` | internal/network/ws_connector.go:214-236 | one success per message written, one failure for the write that ended the pump, nothing for drained ones |
| `Client.BuildFrame` | cmd/client/main.go:179-193 | the appended pieces are the frame for at most ten recipients |
| `Client.SendLine` | cmd/client/main.go:170-202 | the frames of the line in order, all of them or up to the first failing write |
| `Client.ChunksConcat` | cmd/client/main.go:172-177 | the chunks concatenate to the payload |
| `Client.DecodeAgreesWithMessage` | cmd/client/main.go:84-99 | the client reads a message as the server's accessors do |
| `Client.FrameRoundTrip` | internal/network/ws_connector.go:152-168 | encoding, parsing, wiping and decoding give the sender's key and the data |
| `Client.RoundTrip` | cmd/client/main.go:154-205 | for every payload and up to ten distinct recipients the decoded chunks concatenate to the payload |
| `Client.FramesAcceptedIff` | cmd/client/main.go:179-193 | the server accepts a client's frames exactly if it addresses somebody, and nobody twice |
| `Addressing.FrameNames` | cmd/client/main.go:183-195 | the identities read back from a client's frame are its recipients in order, up to the tenth, their count is the smaller of ten and their number, and the data are the chunk |
| `Addressing.FrameReaches` | cmd/client/main.go:183-190 | the server routes a client's frame to exactly its first ten recipients other than the sender |
| `Addressing.ChunksAt` | cmd/client/main.go:172-177 | the chunks are consecutive stretches of 32 KiB, of which only the last may be shorter |
| `Addressing.FramesRefused` | cmd/client/main.go:183-190 | a line for nobody is skipped by the server frame by frame; one that names somebody twice is invalid |
| `Welford.Accumulate` | internal/domains/relayer/relayer.go:58-63 | one update keeps mean and M2 equal to their textbook definitions |
| `Welford.MomentsAreExact` | internal/domains/relayer/relayer.go:252-258 | mean, non-negative M2 and the sample variance of the whole stream |
| `Reservoir.SlotsInjective` | internal/domains/relayer/relayer.go:64-73 | slots hold pairwise different stream items |
| `Reservoir.AllDrawsAreDraws` | internal/domains/relayer/relayer.go:68-70 | the set of runs counted is the set of all sequences of draws in range |
| `Reservoir.AllDrawsCount` | internal/domains/relayer/relayer.go:68-70 | there are n!/k! possible runs |
| `Reservoir.Uniform` | internal/domains/relayer/relayer.go:64-73 | every item survives in exactly k/n of the possible runs |
| `Reservoir.SurvivingRuns` | internal/domains/relayer/relayer.go:64-73 | the same in closed form |
| `Quantile.SortSorts` | internal/domains/relayer/relayer.go:264 | sorted, and a permutation |
| `Quantile.IsType7` | internal/domains/relayer/relayer.go:260-284 | the closure is the type-7 quantile of Hyndman and Fan, for one sample as for many |
| `Quantile.WithinSamples` | internal/domains/relayer/relayer.go:266-284 | between the smallest and the largest sample |
| `Quantile.Monotone` | internal/domains/relayer/relayer.go:266-284 | monotone in q, across segments |
| `Latency.LatencyStats.Ingest` | internal/domains/relayer/relayer.go:56-75 | one more item in the history that count, mean, M2 and reservoir describe |
| `Latency.LatencyStats.Work` | internal/domains/relayer/relayer.go:56-75 | the same over any stretch of the channel |
| `Latency.LatencyStats.LatencySnapshot` | internal/domains/relayer/relayer.go:237-290 | count, mean, sample standard deviation and ordered percentiles of what was recorded, in milliseconds |
| `Latency.Percentiles` | internal/domains/relayer/relayer.go:260-289 | the three type-7 quantiles of the sorted samples, in order |
| `Latency.HeldFromDistinctPlaces` | internal/domains/relayer/relayer.go:64-73 | the reservoir holds min(count, k) items from pairwise different places of the stream |

## Left out

- WebSocket framing, HTTP handlers, authentication, registration and JSON metrics: I/O and libraries; only the order connect, loop, disconnect, close is kept.
- conn.Reader and conn.Write: each succeeds or fails as it likes; timeouts and cancellation are failures.
- Weak memory: atomics, sync.Map and channel operations are single steps.
- The order in which RWMutex.Unlock lets waiters in: the model lets any of them go first, so it has more runs than the program.
- Out of memory, jemalloc and cgo: allocation always succeeds, with arbitrary bytes; freeing is a flag.
- 32-bit platforms: DataLen fits in int. The 32-bit reference count needs no wrap-around, by Safety.RefsBounded.
- Parser.Reader.Read: scripts of answers are finite, so a reader that stalls for ever is not modelled.
- Latency.LatencyStats.LatencySnapshot: arithmetic is over the reals, with math.Sqrt a parameter that is an exact square root; rounding is not modelled.
- Latency.LatencyStats: the reservoir's size is a parameter; the default of 65536 << 2 is not part of the model.
- Latency.LatencyStats.Ingest: the random index is any number in range; the generator itself is not modelled.
- The measured values on their way through the latency channel (Model counts them, Latency takes them as a stream), RecvTime, and the order of LatencySnapshot and the worker under their mutex.
- Relayer.Close and calls after it, StartRecording, StopRecording.
- Relaying.Relayer.HandleMessage: one call at a time; calls that interleave with other goroutines are the business of Model.
- Connector.WSConnector.Close: the closing of the underlying connection, which only ends later reads and writes.
- Connector.WSConnector.WritePump: runs from a state in which nobody pushes any more; pushes in between are the business of Model.
- Session.RunPump: books its successes in one sum after the run, and leaves RecordLatency to Model.
- Fairness: Lifecycle, Reception, Arrival, Departure and Failure say what a goroutine can do on its own, and Liveness bounds the steps a pump takes and rules out deadlock, but does not say that the scheduler lets it take them.
- The client's command loop and recipient parsing, load and churn tools, the CPU sampler, scripts and benchmark data.
