# A verified model of the UMA event broadcast system

The system watches UMA oracle events for Polymarket, decodes and enriches them,
and broadcasts them: a server (`tinyuma`) batches events into frames and serves
them over WebSocket sessions, edge nodes take the frames from the server and fan
them out to their own subscribers, and a console balances clients over the edges
and raises alerts. This project models the parts that keep the promises of that
path and proves what those promises come to.

| files | part of the system |
|---|---|
| `Processor`, `Batcher`, `FrameReplay` | racing event sources, batching, the replayable frame ring and the session that reads it |
| `Wire`, `ProtoWire` | the frame format, and the edge's walk over it |
| `EdgeUpstream`, `EdgeSessions`, `EdgeHub` | an edge's reconnecting upstream loop, what it republishes session by session, and its fan-out hub |
| `EndToEnd` | the whole path from race to client as one machine |
| `Registry`, `RegistryServer` | the console's client balancing and public node list |
| `Alerts`, `AlertEngine` | the console's alert conditions, messages and counter windows |
| `Gate`, `GateMemory`, `Calldata` | pending transactions: which calls are emitted, what is remembered of them, and how calldata becomes an event |
| `Forfeit`, `ForfeitPb` | the forfeit blocklist and the protobuf codec of its feed |
| `Wal`, `WalCrash`, `Catalog` | the event write-ahead log, also over crashes; the market catalog |
| `Calendar`, `Uint256` | dates of the closed-market look-back; 256-bit decimal numbers |
| `Basics`, `BigEndian`, `Decimal`, `Hex`, `MapSum`, `Sorting`, `StringOrder`, `TextSearch` | shared vocabulary |

Protocols are state machines: a state, steps with a guard, an invariant, and
theorems about every run. Objects the source updates in place are classes whose
methods are proved equal to the steps of those machines, and loops are methods
proved against specification functions. `dafny verify dfyconfig.toml` checks
everything.

## How the parts fit together

`EndToEnd` puts the machines side by side: a chain of server, link, edge and hub
in which a frame the edge receives is a frame its hub publishes. Every move keeps
the coupling, so one theorem covers the path.

1. Sources race to deliver an event (`Racing.EveryRaceKeepsInv`). If no number is
   drawn while another is still on its way, they reach the batcher in order
   (`Racing.OrderlyRunsRise`).
2. The batcher neither loses nor reorders what it is given (`Batcher.RunBatcher`).
   The frames encoded from its batches rise and can be read by the edge
   (`Origin.BatchesGiveGoodFrames`).
3. A session sends exactly the frames after its starting cursor
   (`FrameReplay.SessionSendsExactly`), and the edge asks for the cursor it means
   (`DialUrl.DialAsksForTheCursorIff`), so it republishes a stretch of the server's
   log without gap or repeat (`EdgeDelivery.RepublishesWithoutGapOrRepeat`).
4. The hub gives each client a gap-free stretch of that
   (`EdgeProtocol.EveryRunIsGapFree`), hence in every run of the chain an unbroken
   stretch of the server's log (`EndToEnd.EveryClientSeesUpstream`).
5. Taken together, what the orderly races of one server process after another
   hand to their batchers reaches every client as the encoded frames of consecutive
   published batches (`Origin.FromRaceToClient`). This is stated for runs in which
   the server may broadcast anything: that its frames are as the delivery machine
   asks is derived (`Origin.RunAnyIsRun`), not assumed.

## Hypotheses

- Each hold of a lock is one atomic step; channels and queues are sequences.
- Events reach the batcher in rising sequence order. The code does not ensure
  it, because drawing a sequence and queueing the event are separate steps. It
  holds in every run in which no number is drawn while another is out
  (`Racing.OrderlyRunsRise`); with two out, some continuation breaks it
  (`Racing.TwoOutMayLandSwapped`), and such a state is reachable
  (`Racing.BatcherMayReceiveOutOfOrder`). A frame out of order is never sent to
  those who are past it (`FrameReplay.NewFrameIsReadIff`).
- A restarted server resumes at the newest sequence it had broadcast. The code
  takes the highest enriched, unblocked event that reached the write-ahead log
  (src/main.rs:58-79), which need not be that one, as an event can be broadcast
  and its write dropped. `FrameReplay.RestartFloorIff` states what a lower and
  what a higher value costs.
- Recovered events have distinct sequences.
- The edge's configured URL spells no cursor in percent-encoding, and the server's
  payload limit is at most the edge's; `DialUrl.DialAsksForTheCursorIff` and
  `FrameWire.EdgeDecodesLastIff` say exactly what these are needed for.
- Counters that only ever grow are unbounded numbers. Wrap-around is modelled
  where it shows: batch numbers, varints, 64-bit offsets in calldata, the 32-bit
  payload size and record length.
- Keccak-256, CRC-32, zstd, the prost codec of stored events, the validity of
  UTF-8 and the search for a market id in text are parameters, with the one law
  about each stated as a hypothesis.
- Sizes are at most those the machine can address: buffers below 2^64 bytes, a
  stored event below 2^32 bytes.
- The gate's tip quantile is at most 1 and its minimum of tip samples is positive,
  as in the default configuration. A larger quantile, or no sample demanded and none
  held, makes the source index out of range (src/mempool/gate.rs:129).
- A release build, in which 64-bit additions wrap.

## Where the code falls short of a promise

- The header of src/edge/upstream.rs says that after close code 1013 the edge
  dials once without its cursor. The flag is never cleared, so every later dial
  goes without one. The next session reads what the edge is missing if and only if
  no cursor was ever rejected (`EdgeRejection.OutageIsReadIff`), and over whole
  runs what is republished is unbroken if and only if nothing is received after a
  1013 (`EdgeRejection.UnbrokenIffNothingAfterClose`).
  `EdgeRejection.RejectedEdgeSkipsTheOutage` is a run that loses a frame the ring
  still holds. What runs with an earlier rejection republish is
  `EdgeSessions.RepublishesBySessions`.
- A frame the edge cannot decode does not move its cursor, so it comes again after a
  reconnect (`EdgeSessions.UndecodedComesAgain`). Once a frame has been decoded,
  nothing is skipped for it and only such frames come again
  (`EdgeSessions.RepublishesBySessions`).
- The write-ahead log is to keep what is appended. Opening it (src/storage.rs:458)
  does not cut off a record torn by a crash; an appended record can be recovered if
  and only if there is no torn one before it, up to the checksum
  (`WalCrash.AppendIsRecoveredIff`, `WalCrashWitness.AppendBehindTearIsLost`). A
  rewrite mends the log.
- A percent-encoded cursor in the edge's configured URL is not replaced; from the
  second dial on the server is asked twice and refuses
  (`DialUrl.EncodedCursorIsAskedTwice`).
- The forfeit blocklist is to block exactly the listed ids. An apply and a prune
  each take the list's lock and then the index's, in different tasks, and either
  may overtake the other in between. A step leaves the index right if and only if
  it does not overtake in a way that matters (`Forfeit.StepIsSoundIff`). One
  overlap lets a listed id through (`Forfeit.ListedIdIsNotBlocked`), the other
  blocks an id nothing lists (`Forfeit.UnlistedIdIsBlocked`).
- A match is to hold each market once. It does if and only if an event's market
  details do not name a new id twice (`Forfeit.StoredOnceIff`).
- A market found by its id is to be its latest row. A row does no more than that
  if and only if it takes no condition id that another market holds
  (`Catalog.UpsertLookupsIff`); otherwise the other market is found as this one
  (`Catalog.TakenConditionMisleads`).
- Dates are compared as text. Two dates compare as their days do if and only if
  the earlier year is at most the number the later year's digits start with, cut
  to the same length (`Calendar.TextOrderIsDayOrderIff`). Years of equal length
  always do; 9999 and 10000 do not (`Calendar.FiveDigitYearsSortWrong`).
- A rewrite of the log does not apply the size limit that append and recovery
  apply. Recovery returns everything if and only if no record is oversized
  (`Wal.NothingIsLostUncutIff`), and `WalWitness.RewriteLosesOversized` is a file
  that loses its records.
- Automatic balancing is to converge. A release goes to any node within the spread
  of the emptiest, and it may merely swap two loads. Balancing ends from every
  state if and only if the settings rule that out (`Registry.AlwaysEndsIff`), and
  the default settings do not (`Registry.DefaultsMaySwapForever`).

## Model

| member | source | states |
|---|---|---|
| EdgeProtocol.InitInv | src/edge/hub.rs:63-73 | a new hub meets the fan-out invariant |
| EdgeProtocol.StepKeepsInv | src/edge/hub.rs:76-183 | every hub operation, with sends to subscribers interleaved in any order with receives and disconnects, keeps the invariant that each subscriber's stream is a stretch of the log |
| EdgeProtocol.EveryRunIsGapFree | src/edge/hub.rs:112-147 | in every run, what a subscriber gets (snapshot, then delivered, then queued) carries consecutive offsets from its start: never a gap, never a repeat |
| EdgeProtocol.RemovedIsFrozen | src/edge/hub.rs:149-183 | once out of the table a subscriber gets nothing more in any run, can drain what is queued, and keeps its close code |
| EdgeProtocol.OnlyFullQueueEvicts | src/edge/hub.rs:83-96 | a subscriber whose queue is never found full and who is not removed by name stays subscribed, up to date and with its close code, through every run |
| EdgeProtocol.FullQueueEvicts | src/edge/hub.rs:86-96 | a subscriber found full is out when the publish ends, with close code 1008, and is counted once as slow |
| EdgeProtocol.DroppedReceiverLeaves | src/edge/hub.rs:86-96 | a subscriber that dropped its end is out when the publish ends, with its own close code and uncounted |
| EdgeProtocol.KickRemovesExactly | src/edge/hub.rs:169-183 | a token sweep keeps exactly those without a token and those whose token is live, closes the others with 1008, and changes nothing else |
| EdgeProtocol.ReleaseRemovesExactly | src/edge/hub.rs:155-167 | a release removes exactly the named subscribers, with the given code, and changes nothing else |
| EdgeHub.FrameRing.Push | src/edge/ring.rs:42-51 | numbers the frame one past the last and keeps the newest frames of the whole history |
| EdgeHub.FrameRing.Tail | src/edge/ring.rs:53-60 | the newest frames of the history, as many as asked for and held |
| EdgeHub.Hub.Publish | src/edge/hub.rs:76-110 | one publish is a run of the protocol: begin, one try per subscriber, end; exactly those with room get the frame and stay, the others go, a full queue with 1008, and deliveries and slow clients are counted as such |
| EdgeHub.Hub.Subscribe | src/edge/hub.rs:114-147 | snapshot and registration are one step under a fresh id |
| EdgeHub.Hub.Unsubscribe | src/edge/hub.rs:149-151 | is the protocol's step, whether or not the id is subscribed |
| EdgeHub.Hub.Release | src/edge/hub.rs:155-167 | removes exactly min(n, subscribers) of them with the given code and reports that number |
| EdgeHub.Hub.KickTokens | src/edge/hub.rs:169-183 | keeps exactly those without a token or with a live one, closes the others with 1008 and reports how many went |
| EdgeHub.Hub.Receive | src/edge/server.rs:215-240 | a socket writer takes the oldest queued frame of its subscriber, if any; it is the protocol's receive step |
| FrameReplay.PublishKeepsInv | src/hub.rs:149-160 | publishing keeps the floor at the highest sequence no longer replayable |
| FrameReplay.RestartKeepsInvIff | src/hub.rs:137-147 | starting again with an empty ring keeps it if and only if the recovered sequence is the newest broadcast one |
| FrameReplay.RestartFloorIff | src/main.rs:58-79 | for any recovered sequence: no cursor is served with something missing if and only if it is not below the newest broadcast one, and none is refused for nothing if and only if it is not above it |
| FrameReplay.LaggedExactly | src/hub.rs:172-184 | a cursor is refused if and only if a frame past it is out of the ring |
| FrameReplay.AfterIsComplete | src/hub.rs:172-184 | otherwise the answer is every frame ever published past the cursor |
| FrameReplay.NewFrameIsReadIff | src/hub.rs:149-184 | a frame just published is in the answer if and only if it lies past the cursor |
| FrameReplay.OpenOnTrack | src/api.rs:430-447 | a session just opened at a positive cursor meets the condition of the next theorem |
| FrameReplay.SessionSendsExactly | src/api.rs:430-532 | in every run of a session against publishes and restarts, what is sent is a prefix of the frames past the starting cursor, and with the next read it is all of them |
| FrameReplay.RejectedHasMissed | src/api.rs:506-532 | a session is told its cursor is too old only when something it was not sent is out of reach |
| FrameServer.FrameHub.ResumingAfter | src/hub.rs:137-147 | starts with the floor at the recovered sequence and a capacity of at least one |
| FrameServer.FrameHub.Publish | src/hub.rs:149-160 | the ring after a publish is the specified one |
| FrameServer.FrameHub.After | src/hub.rs:172-184 | reads the ring as specified |
| FrameServer.SendAvailable | src/api.rs:506-532 | sends the frames read in order, stops at the first failed write, and leaves the cursor at the highest sequence sent |
| Batcher.FillBatch | src/pipeline.rs:278-291 | a batch and its carried-over event are exactly what was taken from the queue, within the limits, and an event is carried over only if it would not have fitted |
| Batcher.RunBatcher | src/pipeline.rs:250-303 | over the whole run nothing is lost, repeated or reordered; every batch is within the limits and numbered in turn, and is unpublished only if it fails to encode |
| Batcher.NumbersCount | src/pipeline.rs:292-292 | the i-th batch, from 0 on, has the number i mod (2^64 - 1) + 1: counting from 1, never 0 |
| Batcher.FramesIncrease | src/pipeline.rs:292-301 | from rising sequences come frames that rise as the session theorem needs, whichever batches fail to encode |
| FrameWire.EventWalkFindsSequence | src/edge/frame.rs:88-104 | walking any well-formed event finds its last sequence field, whatever the order and the other fields |
| FrameWire.WalkReadsTheBatch | src/edge/frame.rs:65-86 | walking any well-formed batch finds its last batch sequence, its last send time and the highest event sequence |
| FrameWire.TakeVarintIff | src/edge/frame.rs:116-133 | a number is read if and only if a byte below 128 ends it within eleven bytes, as its groups of seven bits modulo 2^64 |
| FrameWire.ParseInvertsEncode | src/edge/frame.rs:37-63 | for every frame the server writes, the edge reads back batch sequence, send time, size and highest event sequence, except exactly when the payload was compressed and outgrows the cap |
| FrameWire.HeaderReadsBack | src/wire.rs:70-77 | the twelve header bytes read back field by field |
| FrameWire.EncodesIff | src/wire.rs:46-84 | a batch is refused exactly when it is empty, its payload is over the limit, or it is to be compressed and cannot be |
| FrameWire.EdgeDecodesLastIff | src/wire.rs:46-84 | with rising sequences a frame is labelled with the first and last of its events, and the edge decodes that last sequence if and only if the payload is not compressed or is within the cap, hence always when the server's own limit is at most the edge's |
| FrameCursor.Cursor.Varint | src/edge/frame.rs:116-133 | on every input it stops inside the buffer, with the low 64 bits of the encoded number, or an error exactly when the number does not end within eleven bytes or the buffer |
| FrameCursor.Cursor.Take | src/edge/frame.rs:135-144 | returns exactly the announced bytes or an error, never leaving the buffer |
| FrameCursor.Cursor.Advance | src/edge/frame.rs:161-168 | moves over exactly the asked bytes or reports that they are not there |
| FrameCursor.Cursor.Skip | src/edge/frame.rs:146-159 | passes over one field of wire type 0, 1, 2 or 5 and refuses the others |
| FrameCursor.ReadEvent | src/edge/frame.rs:88-104 | terminates on every byte string with the specified sequence or error |
| FrameCursor.ReadBatch | src/edge/frame.rs:65-86 | terminates on every byte string with the specified reading or error |
| DialUrl.DialAsksForTheCursorIff | src/edge/upstream.rs:29-49 | for every configured URL the server parses, percent-decoding included, the dialled URL keeps its path, and it asks for exactly the intended cursor (the edge's own, the configured one, or none after a rejection) if and only if it is the configured URL or that one hides no cursor in percent-encoding |
| DialUrl.ServerCursorIs | src/api.rs:404-428 | the server takes a cursor from a URL if and only if it names one, in digits after an optional plus sign, of a number below 2^64 |
| DialUrl.EncodedCursorIsAskedTwice | src/edge/upstream.rs:29-49 | with such a hidden cursor the first dial is accepted and every later one names the cursor twice and is refused |
| DialUrl.EncodedCursorExists | src/edge/upstream.rs:29-49 | `after%5Fsequence=5` is one |
| EdgeDelivery.InitInv | src/edge/upstream.rs:51-55 | the edge and the server start in the delivery invariant, for every configured URL that spells its cursor plainly |
| EdgeDelivery.StepKeepsInv | src/edge/upstream.rs:51-97 | every step of dialling, reading, writing, receiving, failing, publishing and restarting keeps it, and what was republished stays |
| EdgeDelivery.RepublishesWithoutGapOrRepeat | src/edge/upstream.rs:167-218 | in every run, across any disconnects and restarts and until a cursor is rejected, the edge has republished one contiguous stretch of the server's log, each frame once, and its cursor is the last one's |
| EdgeSessions.InitInv | src/edge/upstream.rs:51-55 | the edge starts in the invariant of the next theorem |
| EdgeSessions.RepublishesBySessions | src/edge/upstream.rs:51-97 | in every run, also with frames the edge cannot decode and after any rejection, it republishes one stretch of the log per session: once a frame was decoded and until a rejection each begins right behind the last decoded one, so that nothing is skipped and only undecoded frames come again; after one it begins no earlier than the log ended at its dial, so that nothing comes again |
| EdgeSessions.UnbrokenIffSessionsFollowOn | src/edge/upstream.rs:51-97 | in every such run what was republished is an unbroken stretch of the log if and only if each session that brought something went on where the one before ended |
| EdgeSessions.UndecodedComesAgain | src/edge/upstream.rs:167-197 | a run from the start in which a frame that cannot be decoded is republished twice |
| EndToEnd.InitInv | src/edge/upstream.rs:51-55 | the chain of server, link, edge and hub starts in its invariant |
| EndToEnd.MoveKeepsInv | src/edge/upstream.rs:167-218 | every move of any part keeps it; receiving a frame is publishing it on the hub, so the hub's log is what was republished |
| EndToEnd.ClientSeesUpstream | src/edge/hub.rs:112-147 | in every such state each client holds, byte for byte and with batch number and last sequence, a contiguous stretch of the server's log |
| EndToEnd.EveryClientSeesUpstream | src/edge/hub.rs:112-147 | so in every run of the chain until a cursor is rejected, with disconnects, restarts and clients coming and going |
| Origin.RaceFeedsRising | src/pipeline.rs:161-217 | what an orderly race hands to the batcher rises past everything recovered |
| Origin.NextProcessGoesOn | src/main.rs:58-79 | the frames of a later process go on rising if it resumes at or past everything broadcast before |
| Origin.BatcherGivesGoodBatches | src/pipeline.rs:250-303 | what the batcher promises of its batches is what the encoder needs |
| Origin.ProcessGivesGoodFrames | src/pipeline.rs:161-303 | an orderly race, batched and encoded, comes out as frames that rise past everything the process recovered and that the edge can read |
| Origin.ProcessesGiveGoodFrames | src/main.rs:58-79 | so do the frames of any number of processes, each resuming past those before |
| Origin.EncodedFrameIsOk | src/wire.rs:46-84 | the frame encoded from a rising batch carries its number, its first and last sequence, and the edge decodes the last |
| Origin.BatchesGiveGoodFrames | src/pipeline.rs:292-301 | rising events, batched and encoded, come out as frames that rise and that the edge can read: what the delivery theorems ask of them |
| Origin.NextFrameIsEnabled | src/hub.rs:149-160 | a frame that goes on from the log in this way meets the delivery machine's guard |
| Origin.RunAnyIsRun | src/hub.rs:149-160 | every run of the chain in which such frames are broadcast, nothing else being asked of it, is a run of the delivery machine |
| Origin.BatchesReachClients | src/edge/hub.rs:112-147 | in every run that broadcasts the frames of rising events every client holds the encoded frames of consecutive published batches |
| Origin.FromRaceToClient | src/pipeline.rs:161-217 | the same from the races on: one process after another with its orderly race, batcher and encoder, then the link and the hub, with nothing asked of the run but that these are the frames broadcast |
| EdgeRejection.OutageIsReadIff | src/edge/upstream.rs:75-82 | with the link down and frames missing that the ring still holds, the next session reads exactly those if and only if no cursor was ever rejected, and nothing otherwise |
| EdgeRejection.UnbrokenIffNothingAfterClose | src/edge/upstream.rs:75-82 | in every run from a first published frame, what was republished is an unbroken stretch of the log if and only if no frame was received after a 1013 |
| EdgeRejection.RejectedEdgeSkipsTheOutage | src/edge/upstream.rs:75-82 | a run from the start in which the edge is rejected, then misses a frame that its cursor would have got, and does not ask for it |
| EdgeUpstreamLoop.UpstreamLoop.NextDial | src/edge/upstream.rs:57-73 | the first dial does not wait, and after k waits since the last healthy session the next is min(2^k, 15) seconds; the server reads the intended cursor in the URL; the dial is a step of the delivery machine |
| EdgeUpstreamLoop.UpstreamLoop.FrameArrives | src/edge/upstream.rs:167-218 | is a step of the delivery machine, so that until a rejection what was republished stays a stretch of the server's log |
| EdgeUpstreamLoop.UpstreamLoop.SessionEnds | src/edge/upstream.rs:75-95 | is a step of the delivery machine and keeps its invariant; only a session of thirty seconds starts the waits over |
| Racing.InitInv | src/main.rs:58-75 | the pipeline with its ring preloaded from recovered events of distinct sequences meets the race invariant |
| Racing.EveryRaceKeepsInv | src/pipeline.rs:77-217 | in every interleaving of racing deliveries, accepted events have distinct sequences, a key is accepted once while it is in the ring, and every delivery is counted in one place |
| Racing.QuiescentCountersBalance | src/stats.rs:126-136 | whenever no delivery is in flight: received = errors + duplicates + decoded, each decoded event has one winner, and each race is received once per source |
| Racing.InitInOrder | src/main.rs:58-75 | it starts with the order condition of the next theorem |
| Racing.OrderlyRunsRise | src/pipeline.rs:161-217 | in every run in which no number for the batcher is drawn while another is out, the batcher gets events in rising order, past all recovered ones |
| Racing.TwoOutMayLandSwapped | src/pipeline.rs:161-217 | conversely, from every state with two numbers out for new events some continuation hands them over in the wrong order |
| Racing.BatcherMayReceiveOutOfOrder | src/pipeline.rs:161-217 | such a state is reachable: a run from the start in which two events reach the batcher against their order |
| EventRing.EventHub.Contains | src/hub.rs:38-44 | true exactly for the keys of events in the ring |
| EventRing.EventHub.Insert | src/hub.rs:46-62 | refuses exactly the keys held, otherwise keeps the newest events and the key set of exactly those |
| EventRing.RecentEnrichment.Record | src/pipeline.rs:222-237 | the window is the newest outcomes and its hit count is theirs |
| EventRing.HitsTail | src/pipeline.rs:222-237 | dropping the oldest outcome lowers the count by exactly its own hit |
| EventProto.ComesBackAs | src/model.rs:303-385 | a stored event comes back with its kind, sequence, price outcome, chain position, condition and enrichment, only the block, requester, question and price being lost and the market id being the event's own |
| EventProto.ComesBackIff | src/model.rs:336-385 | any stored form comes back if and only if its ids have 32 bytes and its kind is known; unknown numbers count as 0 and malformed token ids are left out |
| EventProto.RecoveredStoresTheSame | src/model.rs:303-385 | what comes back stores to exactly the same content, comes back unchanged, and has the same dedup key |
| Wal.RecoversWhatSurvives | src/storage.rs:231-274 | after any appends and rewrites of a clean log and a cut at any byte after the magic, recovery returns exactly the newest `capacity` of the records that survive whole, each as it comes back |
| Wal.LoadFailsIff | src/storage.rs:231-265 | recovery fails exactly when the file is shorter than the magic, has another one, or holds a record that passes its checksum and cannot be decoded, each with its own error |
| Wal.SurvivingIsLongest | src/storage.rs:242-271 | those are the longest prefix that lies within the cut and has no oversized record |
| Wal.NothingIsLostUncutIff | src/storage.rs:231-274 | with room for all, recovery of an uncut log returns every record as it comes back, in order, if and only if none is oversized, and otherwise those before the first oversized one |
| Wal.OversizedHides | src/storage.rs:242-271 | an oversized first record hides all that follows |
| WalCrash.FileIs | src/storage.rs:458-519 | after any appends, rewrites and crashes the file is whole records and what lies behind a torn one |
| WalCrash.RecoversOverCrashes | src/storage.rs:231-274 | recovery then returns the newest of the whole records before the tear, up to the first oversized one, unless what lies behind passes for a record by length and checksum; in that case it goes on with what that gives |
| WalCrash.CleanCrash | src/storage.rs:458-475 | a crash between two records tears nothing, so that later appends are recovered |
| WalCrash.AppendIsRecoveredIff | src/storage.rs:477-489 | an appended record is recovered if and only if no torn one lies before it, up to the checksum |
| WalCrashWitness.AppendBehindTearIsLost | src/storage.rs:458-489 | a record is torn behind its header, another appended, and recovery returns nothing |
| WalWitness.WitnessIsCodec | src/storage.rs:477-519 | a concrete codec meets all that is asked of the stored format |
| WalWitness.RewriteLosesOversized | src/storage.rs:496-519 | under it, a rewrite stores an oversized and a small record and recovery returns neither |
| WalServer.Journal.Append | src/storage.rs:477-489 | adds one record, or refuses it unchanged exactly when it is oversized |
| WalServer.Journal.Rewrite | src/storage.rs:496-519 | leaves exactly the given records, oversized ones too |
| WalServer.Journal.Handle | src/storage.rs:400-410 | appends the event, and rewrites from the ring exactly when twice its capacity has been appended |
| WalServer.LoadEvents | src/storage.rs:231-274 | the recovery loop with its bounded queue returns the specified records or error for every file |
| Registry.ReleaseFitsTheGap | src/console/registry.rs:278-344 | an automatic release, however its clients spread over nodes within the spread, does not exceed the gap to any of them, and fills one only if that node is exactly at the ceiling, the spread is positive and the least excess is at most a batch |
| Registry.AutoReleaseEffect | src/console/registry.rs:278-344 | such a release keeps the number of clients, gives each target its share, and lowers the sum of squared loads by exactly the sum of n(2(me - t) - n) over the shares less the square of their sum: at least that square less the shares' squares, and by something if and only if it does not merely swap two loads |
| Registry.EmptiestTakesMost | src/console/registry.rs:278-344 | it lowers it by at least 2n² if all targets are emptiest nodes |
| Registry.BalancingTerminates | src/console/registry.rs:278-344 | in every sequence of such releases, with any splits, all but the swaps number at most half the sum of squares; where the settings rule swaps out this bounds the whole sequence |
| Registry.AlwaysEndsIff | src/console/registry.rs:278-344 | balancing ends from every state if and only if the spread is zero or the least excess is more than a batch |
| Registry.DefaultsMaySwapForever | src/console/registry.rs:127-136 | under the default settings nodes of 110, 105 and 100 clients trade places without end |
| Registry.StopsExactlyWhenBalanced | src/console/registry.rs:278-344 | the busiest node is asked for nothing if and only if it is within the spread, too close to the emptiest, or the others have no room |
| Registry.ReleasesIff | src/console/registry.rs:278-344 | a node is told to release for a manual request always, and without one for balance if and only if balancing is on, the node is the busiest, beyond the spread by the least excess, twice that above the emptiest, and the others have room |
| Registry.AutoReleaseBounds | src/console/registry.rs:278-344 | an automatic release comes only from the busiest node and never exceeds half the gap, the others' room, the excess over the spread or the batch |
| Registry.AutoReleaseIsMost | src/console/registry.rs:278-344 | and it is the largest number within those bounds |
| Registry.ServingIff | src/console/registry.rs:346-429 | a node can give clients away if and only if it was seen within the stale time, is neither relay nor disabled, neither to be drained nor draining, and ready; it is serving if and only if it also has room |
| Registry.LatestBeatCounts | src/console/registry.rs:222-276 | over any heartbeats of any nodes, what is known of a node is its own latest heartbeat and when it came, and an operator's drain lasts exactly until the node restarts |
| Registry.BeatRecords | src/console/registry.rs:222-276 | what one heartbeat records and answers: first seen, restarted, drain, releases and their time |
| Registry.RelayIsLeftAlone | src/console/registry.rs:222-276 | whatever a relay reports it is told to release nothing and not to drain, and it is not listed or balanced |
| Registry.RelayStaysOut | src/console/registry.rs:222-276 | over every run of heartbeats of any nodes a relay is never listed or balanced, and requests made of it are forgotten once it reports |
| Registry.DisabledStaysOut | src/console/registry.rs:412-429 | over every run of heartbeats a disabled node is neither listed nor balanced |
| Registry.ManualReleaseIsServed | src/console/registry.rs:278-290 | over any heartbeats of any nodes, after k of its own min(request, k batches) of a manual request is served, and at least that many clients are released |
| Registry.RequestIsServedInFull | src/console/registry.rs:401-410 | a new request is gone, with all of it released, if and only if the node has since sent as many heartbeats as it takes batches |
| Registry.BeatServesOneBatch | src/console/registry.rs:222-276 | one heartbeat serves exactly one batch of a manual request and counts what it releases |
| PublicListing.CompareIsTotalPreorder | src/console/registry.rs:464-474 | the list's comparison is reflexive, antisymmetric in its sign, total and transitive |
| PublicListing.StableSortFacts | src/console/registry.rs:461-474 | sorting permutes, sorts, and keeps the shuffled order inside the band |
| PublicListing.PublicList | src/console/registry.rs:431-474 | lists exactly the nodes that are in service with room, each once with its clients and room: first those within the spread of the emptiest, in shuffled order, then the others by clients, room and id; a non-empty list starts inside the band |
| RegistryServer.BusiestIsUnique | src/console/registry.rs:378-388 | the busiest sheddable node is determined, ties broken by id |
| RegistryServer.NodeRegistry.BusiestSheddable | src/console/registry.rs:378-388 | finds it, or none exactly when no node can shed |
| RegistryServer.NodeRegistry.Excess | src/console/registry.rs:317-343 | the balancing excess as specified, by loops over the nodes |
| RegistryServer.NodeRegistry.FewestServing | src/console/registry.rs:333-337 | the least load among serving nodes |
| RegistryServer.NodeRegistry.DecideRelease | src/console/registry.rs:278-306 | the specified number and reason, and the specified bookkeeping |
| RegistryServer.NodeRegistry.Heartbeat | src/console/registry.rs:222-276 | a heartbeat's whole effect is the specified one |
| Alerts.InitInv | src/console/alerts.rs:231-239 | a new engine meets the invariant |
| Alerts.EveryRunKeepsInv | src/console/alerts.rs:241-302 | over every run of rounds, messages and failed or successful sends: a condition carries rule, title and subject of the finding that made it and the latest detail; it fires only after its delay, recovers only after being unseen for the resolve time, and a recovery, with its names and how long it lasted, is announced at most once and then forgotten; the newest 200 wait |
| Alerts.RoundDecides | src/console/alerts.rs:241-295 | a found condition is kept and fires exactly when it has been pending for its hold time; missed by a round that ran the rule whose finding made it, it is kept exactly when it had fired and has not been missing for the resolve time, and its recovery is queued if it was announced; missed by any other round it stays as it was |
| Alerts.DueIff | src/console/alerts.rs:738-760 | due are exactly the firing conditions never announced or announced at least the repeat time ago |
| Alerts.SentIsSettled | src/console/alerts.rs:738-802 | after an acknowledged message nothing is due, and nothing it announced is due again before the repeat time |
| Alerts.SkippedRoundChangesNothing | src/console/alerts.rs:267-281 | a condition whose rule was not evaluated this round is left as it was |
| Alerts.TouchAllAt | src/console/alerts.rs:243-263 | what one round's findings do to each condition, key by key: names from the first finding, detail from the last, firing exactly when a hold time is over |
| Alerts.TouchAt | src/console/alerts.rs:243-263 | one finding creates or refreshes its own condition, fires it exactly when it has been pending for the hold time, and leaves the others alone |
| Alerts.CreatedIs | src/console/alerts.rs:246-258 | a new condition carries the finding's rule, title and subject and starts now, silent |
| Alerts.KeyIsInjective | src/console/alerts.rs:245-245 | different rule and subject give different keys, the rule having no colon |
| AlertEngine.AlertState.ObserveRound | src/console/alerts.rs:241-302 | a round's whole effect is the specified one |
| AlertEngine.AlertState.TakeMessage | src/console/alerts.rs:738-792 | a message is composed if and only if something is due; it names exactly the due conditions and all queued recoveries, and taking it changes nothing, so that a failed send loses nothing |
| AlertEngine.AlertState.Acknowledge | src/console/alerts.rs:794-802 | after acknowledging the message just taken nothing is due, and no condition is forgotten or brought back |
| CounterSeries.IncreaseTelescopes | src/console/alerts.rs:162-175 | without a reset the windowed increase is last value minus the value just before the window |
| CounterSeries.DroppingUndercounts | src/console/alerts.rs:149-175 | forgetting old samples can only lower it |
| CounterSeries.Series.Push | src/console/alerts.rs:149-160 | keeps exactly the samples within the retention time, the new one always |
| CounterSeries.Series.WindowIncrease | src/console/alerts.rs:162-175 | the loop computes the specified increase, resets counted from zero |
| Gate.InitInv | src/mempool/gate.rs:92-103 | a new gate meets the invariant |
| Gate.EveryRunKeepsInv | src/mempool/gate.rs:138-250 | in every run of pending calls, confirmations and prunes, the gate's memory mirrors the history since each request was last forgotten, every check is counted once, and every recorded quote is scored, waiting or discarded |
| Gate.EmitsExactly | src/mempool/gate.rs:138-202 | a pending call is emitted if and only if its round is current, nothing for its request was emitted or settled since it was last forgotten, the tip reaches the floor and a proposer is trusted |
| Gate.TrustedIsLowerBound | src/mempool/gate.rs:105-114 | a sender is trusted if and only if it has enough samples and the smoothed rate of agreements less 1.645 deviations reaches the required rate |
| Gate.TrustedAgreesMore | src/mempool/gate.rs:105-114 | so whoever is trusted at a rate above one half has agreed more often than not |
| GateMemory.InitRemembers | src/mempool/gate.rs:92-103 | a new gate meets the condition of the next theorem |
| GateMemory.EveryRunRemembers | src/mempool/gate.rs:138-250 | in every run every part of the gate's memory is determined by what happened: per request when it was last touched, the price confirmed first, what was emitted, who quoted what; each sender's standing; each market's latest round; each transaction's tip; and the tips kept are all confirmed ones but a first part that had gone stale |
| GateMemory.VerdictIs | src/mempool/gate.rs:138-202 | the verdict on every call, with its reason, told by that history |
| GateMemory.FreshTipsAre | src/mempool/gate.rs:116-124 | the tips that leave are the stale ones at the front up to the first that is not |
| Gate.EmittedOnceBetweenPrunes | src/mempool/gate.rs:138-202 | two emissions of a request, or an emission after it was confirmed, have a forgetting of that request between them |
| Gate.RoundsNeverGoBack | src/mempool/gate.rs:147-155 | no call of an older round of a market is emitted after a newer one was emitted or confirmed |
| Gate.ConfirmScores | src/mempool/gate.rs:205-241 | the first confirmed proposal scores all waiting quotes and empties the list; later ones score nothing; scores plus waiting quotes is conserved |
| Gate.ScoredPerSender | src/mempool/gate.rs:229-236 | each sender gains one agreement per matching quote and one disagreement per other |
| Gate.ScoresAfter | src/mempool/gate.rs:229-236 | the total of scores grows by the number of quotes |
| Gate.TipFloorIsOrderStatistic | src/mempool/gate.rs:116-130 | the tip floor is the one value of the quantile's rank among the fresh tips: at most that many tips are below it and more are at or below it |
| Gate.QuantileIsNearest | src/mempool/gate.rs:129-129 | that rank is the whole number nearest to the configured fraction of n - 1, the upper of two, and 0 for a negative fraction |
| GateServer.MempoolGate.CurrentTipFloor | src/mempool/gate.rs:116-130 | drops the stale tips and computes that floor |
| GateServer.MempoolGate.CheckCall | src/mempool/gate.rs:138-202 | verdict and new state are the specified ones |
| GateServer.MempoolGate.OnConfirmed | src/mempool/gate.rs:205-241 | a confirmation's whole effect is the specified one |
| GateServer.MempoolGate.Sweep | src/mempool/gate.rs:243-250 | forgets exactly the requests not touched within the retention time |
| Calldata.DecodesCall | src/mempool/calldata.rs:98-124 | every ABI-encoded propose or dispute call, with or without an explicit actor and whatever follows it, is recovered exactly |
| Calldata.DecodesMulticall | src/mempool/calldata.rs:127-155 | of every ABI-encoded multicall the first 256 entries are decoded as they would be alone, in order, and the others skipped |
| Calldata.RecoversMulticallIff | src/mempool/calldata.rs:127-155 | a multicall of calls is recovered whole if and only if it has at most 256 |
| SignalLog.SynthDecodes | src/uma/events/mod.rs:67-160 | the synthetic log of a call decodes to its requester, question id, price and transaction and to the condition id of the adapter's question with two outcomes, or to the one error that applies |
| SignalLog.SynthIsConfirmedAs | src/mempool/feed.rs:144-170 | read as a confirmed log it yields exactly the call's kind, request key and price |
| SignalLog.SynthNamesTheActor | src/mempool/calldata.rs:179-217 | the log carries the identifier, and in its last topic the explicit actor or else the sender; a dispute's proposer is the zero address |
| SignalLog.TopicsAreKnown | src/uma/events/mod.rs:14-17 | the two event topics are told apart and recognised in lower case |
| SignalLog.KindOfIff | src/uma/events/mod.rs:14-17 | a log is a proposal or a dispute if and only if its first topic is that event's, in whatever case |
| CalldataReader.ReadInput | src/mempool/calldata.rs:127-155 | the loop over entries returns the specified calls for every input |
| CalldataReader.BuildData | src/mempool/calldata.rs:172-205 | the buffer grown field by field is the specified log data |
| Forfeit.ApplyKeepsIndex | src/forfeit.rs:248-374 | an applied event leaves the index holding exactly the ids of the listed matches |
| Forfeit.MergedIds | src/forfeit.rs:281-355 | a match's ids after an event are exactly its ids before and the event's |
| Forfeit.StoredOnceIff | src/forfeit.rs:281-355 | each is stored once if and only if it was before and the event's market details name no new id twice |
| Forfeit.MergedMarketsAre | src/forfeit.rs:310-350 | a match holds after an event exactly what it held, the event's new market details as given, and its new ids that no detail names, without details |
| Forfeit.ReplayReflects | src/forfeit.rs:248-374 | after any feed, every match is what the set of its events says: its games, feed sequences and ids |
| Forfeit.ReplayIsOrderIndependent | src/forfeit.rs:248-374 | two feeds with the same set of events, in any order and with any repeats, give the same matches with the same games, feed sequences and ids, and the same high-water mark |
| Forfeit.ReplayTells | src/forfeit.rs:248-374 | after any feed a match was added when first named, is matched from the first event on that says so and has the latest status until then, and has the latest slug given |
| Forfeit.ChangedIff | src/forfeit.rs:279-356 | an event changes a match if and only if it is new or brings a new game, sequence or id, another status while unmatched, or another slug; then and only then its time of update moves, and no other match is touched |
| Forfeit.PruneKeepsIff | src/forfeit.rs:377-389 | a prune keeps exactly the matches whose time to live is not over, all of them without one, and leaves them alone |
| Forfeit.SecondPushIsNoChange | src/forfeit.rs:248-374 | an event applied again changes nothing and says so |
| Forfeit.StepIsSoundIff | src/forfeit.rs:248-397 | with apply and prune each as a step under the list's lock and one under the index's, every step from a sound state leads to a sound one if and only if it does not overtake |
| Forfeit.SafeRunsKeepIndex | src/forfeit.rs:248-397 | in every run of overlapping applies and prunes without overtaking, whenever neither is under way the index holds exactly the listed ids |
| Forfeit.PruneOvertakenByApply | src/forfeit.rs:377-397 | an index rebuilt for a pruned list is right after an event applied meanwhile if and only if the event brings no new id |
| Forfeit.ApplyOvertakenByPrune | src/forfeit.rs:357-374 | ids inserted after a prune went by leave the index right if and only if the prune kept them all listed |
| Forfeit.ListedIdIsNotBlocked | src/forfeit.rs:377-397 | a run of the first kind after which a listed id is not in the index |
| Forfeit.UnlistedIdIsBlocked | src/forfeit.rs:357-374 | a run of the second kind after which the index holds an id no match lists |
| Forfeit.HexReadsBack | src/forfeit.rs:515-533 | an id written as text is read back for the index |
| ForfeitServer.BuildIndex | src/forfeit.rs:515-533 | builds an index of exactly the listed ids, each entered for the match of least id that lists it, with the time that match was learned |
| ForfeitServer.AddMatch | src/forfeit.rs:515-533 | adds the ids of a match that are not there yet and leaves the entries that are |
| ForfeitServer.ForfeitBlocklist.Lookup | src/forfeit.rs:196-205 | blocks exactly the listed ids when enabled, with neither task under way and none overtaken, naming a match that lists it |
| ForfeitServer.ForfeitBlocklist.MergeUnderLock | src/forfeit.rs:248-356 | the first half of an apply is the machine's step, by loops over markets and ids, with the reported change |
| ForfeitServer.ForfeitBlocklist.InsertUnderLock | src/forfeit.rs:357-374 | the second half leaves the index sound if and only if no prune went by that dropped its ids |
| ForfeitServer.ForfeitBlocklist.Apply | src/forfeit.rs:248-374 | with no prune under way, list and reported change are the specified ones and the index holds exactly the listed ids |
| ForfeitServer.ForfeitBlocklist.Merge | src/forfeit.rs:281-355 | merging an event into a match, by loops over markets and ids |
| ForfeitServer.ForfeitBlocklist.SweepUnderLock | src/forfeit.rs:377-391 | the first half of a prune keeps exactly the matches within their time to live and builds an index of those |
| ForfeitServer.ForfeitBlocklist.InstallUnderLock | src/forfeit.rs:390-397 | the second half leaves the index sound if and only if no event brought a new id meanwhile |
| ForfeitServer.ForfeitBlocklist.Prune | src/forfeit.rs:377-397 | with no apply under way, keeps exactly the matches within their time to live and an index of exactly those |
| ForfeitServer.ForfeitBlocklist.Load | src/forfeit.rs:399-443 | a snapshot of the known version is loaded, pruned and indexed; another is ignored |
| ForfeitServer.LastMatchCounts | src/forfeit.rs:423-440 | of a snapshot's matches with one id the last counts |
| SchemaPb.MessageReadsBack | tools/forfeit-feed/forfeit_pb.py:51-129 | for every schema and every part of it, a message encoded under the schema and decoded under the part is the message as the part describes it, at every depth |
| SchemaPb.RoundTripsIff | tools/forfeit-feed/forfeit_pb.py:51-129 | under one schema a message survives unchanged if and only if it is canonical |
| SchemaPb.SkipsUnknown | tools/forfeit-feed/forfeit_pb.py:112-113 | fields of unknown numbers are passed over |
| SchemaPb.ZerosDecode | tools/forfeit-feed/forfeit_pb.py:90-113 | a run of zero bytes decodes to nothing new or an error, by its parity |
| SchemaPb.NumbersActAsZeros | tools/forfeit-feed/forfeit_pb.py:114-124 | a number standing where a flag, text, bytes or a message should be reads as that many zero bytes would |
| SchemaPbCodec.WriteVarint | tools/forfeit-feed/forfeit_pb.py:36-46 | writes the number modulo 2^64 |
| SchemaPbCodec.ReadVarint | tools/forfeit-feed/forfeit_pb.py:81-88 | reads the number and its end, or fails exactly when it does not end in the buffer |
| SchemaPbCodec.EncodeMessage | tools/forfeit-feed/forfeit_pb.py:51-76 | the nested loops produce the specified bytes |
| SchemaPbCodec.EncodeItem | tools/forfeit-feed/forfeit_pb.py:60-75 | key and body of one item |
| SchemaPbCodec.ReadField | tools/forfeit-feed/forfeit_pb.py:99-111 | one field and its end, which may lie beyond the buffer |
| SchemaPbCodec.ConvertField | tools/forfeit-feed/forfeit_pb.py:114-124 | the field's value by its kind, mismatched wire types included |
| SchemaPbCodec.DecodeMessage | tools/forfeit-feed/forfeit_pb.py:90-129 | the loop decodes every byte string to the specified message or error |
| Catalog.UpsertKeepsInverseIff | src/enrichment.rs:81-102 | the two indexes stay inverse if and only if the row takes no other market's condition id |
| Catalog.UpsertLookupsIff | src/enrichment.rs:45-102 | after a row every market is found by id as before and this one as this row, if and only if the row takes no other market's condition id |
| Catalog.TakenConditionMisleads | src/enrichment.rs:81-102 | two rows after which market 1 is found as market 2 |
| Catalog.LeftConditionIsGone | src/enrichment.rs:81-102 | a condition id a market has left finds nothing |
| Catalog.RunKeepsCatalog | src/enrichment.rs:81-128 | after any such rows every id finds its latest row and the largest id is known |
| Catalog.ResolvesLatest | src/enrichment.rs:71-79 | an event is enriched with the latest row of the market it names, and only for a market never seen with the latest row that holds the derived condition id, which is found if there is one |
| Catalog.MarketCatalog.UpsertRow | src/enrichment.rs:81-102 | the row's effect is the specified one, and no change is reported exactly when it was there already |
| Calendar.CivilIsTheCalendar | src/enrichment.rs:685-696 | for every day number the computed date is a valid one and the next number gives the next day of the Gregorian calendar |
| Calendar.CountingAgrees | src/enrichment.rs:685-696 | day n is what counting n days from 1970-01-01 gives |
| Calendar.LaterIsLater | src/enrichment.rs:685-696 | later day numbers are later dates |
| Calendar.TextOrderIff | src/enrichment.rs:674-682 | an earlier date with any time behind it is below a later one as text if and only if its year is at most the leading digits of the later year; otherwise the later one is below |
| Calendar.TextOrderIsDayOrderIff | src/enrichment.rs:674-682 | the same for any two day numbers from year 0 on |
| Calendar.TextOrderIsDayOrder | src/enrichment.rs:674-682 | so for years of four digits text order is day order |
| Calendar.FiveDigitYearsSortWrong | src/enrichment.rs:674-682 | the day after 9999-12-31 sorts before it |
| Calendar.LookbackDropsEarlierDays | src/enrichment.rs:723-726 | the look-back boundary drops exactly the timestamps of earlier days |
| Calendar.LookbackDayIs | src/enrichment.rs:674-682 | the boundary is the day that many days before the current one, or the epoch |
| Uint256.MultiplyAdd | src/enrichment.rs:884-892 | in place, times ten plus a digit, with the overflow returned |
| Uint256.DivideByTen | src/model.rs:428-433 | in place, divided by ten, with the remainder returned |
| Uint256.ParseUint256 | src/enrichment.rs:861-895 | accepts exactly the decimal strings of numbers below 2^256, as that number, and with a hexadecimal prefix exactly 64 digits, as their bytes |
| Hex.DecodeIff | src/enrichment.rs:861-870 | a text reads as some bytes if and only if it is what they are written as, in either case |
| Uint256.ToDecimal | src/model.rs:421-438 | the decimal digits of the number, without leading zeros |
| Uint256.RoundTrip | src/enrichment.rs:872-895 | printing and parsing gives back every 256-bit number |
| Uint256.PrintParsed | src/model.rs:421-438 | parsing and printing gives back every accepted string without its leading zeros |

## Left out

- Networking, timers, configuration, logging, statistics pages and HTTP handlers: they would add members without laws.
- The console's and edges' authentication, tokens and self-update.
- Category and bet-type classification, alert rule evaluation and message wording: long tables of cases.
- Catalog synchronisation from Gamma, and the catalog's own file format.
- The parsing of a market id in ancillary text; it is a parameter of the log decoder.
- The feed's business conversion (`event_to_pb`, `iso_to_us`): easy field copying.
- Floating point: the jitter of the reconnect wait is left out; quantiles, the balancing ceiling and the trust bound are computed on exact reals, the trust bound's square root by comparing squares.
- The order in which alert conditions leave a round, and the display order of a match's markets, are arbitrary in the model.
- SchemaPb.MessageReadsBack: text is held as its UTF-8 bytes, and only typed messages are encoded; Python would raise or print other values.
- SchemaPbCodec.EncodeMessage: encodings of 2^64 bytes or more are excluded, where Python's masking of lengths would corrupt them.
- Wal.RecoversWhatSurvives: records of 2^32 bytes or more are excluded, where the length field wraps; crashes before the last are covered by WalCrash.RecoversOverCrashes.
- WalCrash.RecoversOverCrashes: a crash that tears the magic itself is excluded; the file is then unreadable.
- FrameWire.ParseInvertsEncode: the numbers of an event's fields other than its sequence are not fixed, because the wire schema's file is not part of this model.
- EdgeDelivery.RepublishesWithoutGapOrRepeat: holds up to the first rejected cursor and for frames the edge can decode; EdgeSessions.RepublishesBySessions covers the other runs.
- Registry.BalancingTerminates: each release is taken up before the next is decided, by nodes within the spread, and loads do not otherwise change meanwhile.
- Gate.TipFloorIsOrderStatistic: the quantile is taken on exact reals, at most 1, and at least one sample is demanded.
- EdgeHub.Hub.Publish: the order in which subscribers are tried is arbitrary, as in the source's hash map.
