# Verified protocols of the audio node

A Dafny model of the hand-built protocols of the node, with proofs about every run of them:

- **Sessions** (`Sinks`, `SinkRuns`, `SinkWakeup`, `Sessions`, `SessionLife`, `OverflowChecks`, `Greetings`,
  `Connections`, `Shutdowns`). The bounded outbound queue with its coalesced snapshots, the registry of open and
  resumable sessions, and the connection task that drives a websocket. `SessionLife` is the machine of one session;
  `Connections` is the whole world of tasks, sends, claims and two-phase sweeps, one step per lock-held section, proved
  to refine it.
- **Pump** (`PumpSignal`, `AudioFlow`, `PumpOutside`, `Pump`). The command handshake between engine and pump, and the
  pump's loops over an audio flow whose samples carry the epoch (number of landed seeks) they were decoded in.
  `PumpOutside` is what the loops talk to: channel, container, resampler, filters and ring may each answer anything,
  and write down what they were asked, which is what the loops are judged by.
- **Ring** (`RingBytes`, `RingEpochs`, `RingPosition`, `PlayerPosition`, `FrameLedger`, `Rings`). The byte reader over
  the sample queue, the pump's epochs as the reader is handed them, the reported position with announced seeks, all
  that stores into a player's position counter, the per-minute frame ledger, and the ring itself.
- **Loader** (`LoadTables`, `SingleFlight`, `LoadAnswers`, `LoadPermits`, `LoadOutcomes`). Cache and in-flight table,
  single flight under cancellation, permits that travel with threads, and where every answer comes from.
- **Resampler** (`CatmullRom`, `Resampling`). Chunked interpolation equal to the one-shot computation, in exact
  arithmetic.
- **Track codec** (`ModifiedUtf8`, `JavaIo`, `EncodedTrack`, `TrackBytes`, `WireFormat`). Modified UTF-8 over UTF-16 code
  units (section 2 of RFC 2781), the `DataInput`/`DataOutput` layer, the versioned track format, and which bytes it is.

Where the source updates an object in place there is a class whose methods are proved against functions of a
plain state (`Sinks.Sink` against `SinkState`, `Rings.Ring` against `Stream`, `Clock` and the ledger's history,
and so on). Concurrency is modelled as step systems over those functions: the theorems range over every
reachable state.

`Options` and `Octets` hold shared types. `dafny verify dfyconfig.toml` checks everything.

## Where the code and its comments differ

The model follows the code. Six promises made in comments do not hold outright; each is proved with its exact
condition, and with an input that meets the failing case.

1. A lost event is not always caught (`ws.rs:385-394`, `sink.rs:33-43`). Until the pump has computed
   `overflow_armed`, or while it sits in its select disarmed, a refused event leaves no trace if the queue drains
   before the next check, and the session can be resumed with the gap. `Connections.SilentGapIffInGrace` shows
   that this grace period is the only such place, and `Connections.SilentGapIsReachable` that it is reachable.
2. A flushed tail is emitted once, and nothing crosses a landed seek (`pump.rs:602-618`, `filter.rs:259-274`),
   exactly when each flush is of an enabled chain or finds the transpose scratch empty (for the seek: finds nothing
   in it from before the seek), because a disabled chain's flush leaves the scratch alone and it is pushed again.
   `AudioFlow.FlushKeepsOrderIff` and `AudioFlow.FlushKeepsBarrierIff` say so of one flush,
   `AudioFlow.BatchKeepsOrderIff` of a batch of commands, and `Pump.Run` of whole runs of the pump, epoch by epoch.
   `AudioFlow.StaleTailCrossesASeek` is the failing case.
3. Retiring a seek by compare-exchange leaves a newer announcement alone (`ring.rs:313-326`, `ring.rs:514-521`)
   only if the targets differ: finishing an older seek with an equal target retires the newer one.
   `RingPosition.AnnouncedSeekHoldsIff` and `RingPosition.LandThrough`.
4. Audio from before a seek is not played after it (`ring.rs:504-507`) exactly when the reader holds no bytes of a
   half-read sample at the reset: `leftover` is not cleared and comes out first. `RingBytes.BytesFromAfterAResetIff`
   and `RingBytes.HalfReadSampleCrossesAReset`. A reader that never asks for one to three bytes never holds any
   (`RingBytes.LargeReadsLeaveNothing`).
5. Only the newest ring writes the shared position (`ring.rs:257-275`) as far as rings go
   (`PlayerPosition.OneRingOwns`), but it is not the only writer. The actor stores the target of a seek it has handed
   to the engine, and the position a play starts at (`actor.rs:478-485`, `actor.rs:556`); a direct playback checks that
   it is current, or that its seek landed, and stores in later steps (`engine.rs:247-252`, `engine.rs:289-299`). The
   actor's early store is meant, so that a seek shows at once, but it may also come after the ring has landed or
   cancelled the seek. While a ring is held, all stores until the actor's next request are that ring's if and only if
   the actor is free and no store of an earlier direct playback is still to come:
   `PlayerPosition.HeldRingStoresAloneIff`. The failing runs are `PlayerPosition.SeekStoreComesLate`,
   `PlayerPosition.CancelledSeekIsStored` and `PlayerPosition.ReportComesLate`.
6. A foreign track survives decoding and re-encoding byte for byte (`encoded_track.rs:28-34`) exactly when every
   string is in shortest form (U+0000 as C0 80) with its surrogates paired, each flag byte is 0 or 1, the header has
   just the flag the version needs, a probe name is followed by the position, and nothing follows the payload:
   `TrackBytes.SurvivesByteForByteIff`. `TrackBytes.TitledSurvivesIff` with `TrackBytes.SomeAcceptedTitlesAreNotKept`
   gives accepted tracks that do not. Whenever the re-encoding succeeds, and `EncodedTrack.EncodingSucceedsIff` says
   exactly when it does, decoding it gives the same track again (`EncodedTrack.ReencodingKeepsTheTrack`).

## Model

| member | source | states |
|---|---|---|
| `Sinks.SectionsKeepWellFormed` | crates/server/src/sink.rs:92-239 | every locked section keeps the bound of 4096, the two lanes apart, and nothing kept once closed |
| `Sinks.ReceiveTakesOldestEssential` | crates/server/src/sink.rs:180-192 | a receive takes the oldest essential and nothing else, and a snapshot only when no essential waits |
| `Sinks.ReceiveTakesLeastSnapshot` | crates/server/src/sink.rs:180-192 | a receive comes up empty exactly when paused, closed or empty, and takes the snapshot with the least key |
| `Sinks.Sink.Send` | crates/server/src/sink.rs:92-129 | the in-place send is the section's function: refused when closed or full, coalesced, or dropped when paused |
| `Sinks.Sink.SendFirst` | crates/server/src/sink.rs:136-153 | an essential goes ahead of the backlog, subject to the same bound |
| `Sinks.Sink.ResumeWithFirst` | crates/server/src/sink.rs:158-176 | the insertion and the unpausing happen together or not at all |
| `Sinks.Sink.TryRecv` | crates/server/src/sink.rs:180-192 | the in-place receive is the section's function |
| `Sinks.Sink.Pause` | crates/server/src/sink.rs:208-212 | essentials stay, snapshots go |
| `Sinks.Sink.Close` | crates/server/src/sink.rs:224-239 | everything queued is discarded |
| `SinkRuns.SnapshotsAreTheNewest` | crates/server/src/sink.rs:92-129 | in every run of the sections the snapshot waiting under a key is the newest sent for it while the sink was open and unpaused, unless received since or thrown away by a pause or close; nothing else waits |
| `SinkRuns.ReceivedIsTheNewest` | crates/server/src/sink.rs:180-192 | in every run a receive hands over the essential that has waited longest, and otherwise, for the least key, the newest snapshot sent for it; nothing only if closed, paused or empty |
| `SinkRuns.SendReplacesItsKey` | crates/server/src/sink.rs:92-129 | after an accepted unpaused send its snapshot is the one that waits; other keys and the essentials are untouched |
| `SinkRuns.RefusedIff` | crates/server/src/sink.rs:92-176 | in every run a send is refused exactly when the sink was closed before, or is full and the message may not be dropped |
| `SinkRuns.FlagsAndLaneFollow` | crates/server/src/sink.rs:208-239 | in every run the sink is closed exactly once a close came, and paused by the newest pause or successful resumption |
| `SinkRuns.WhatCoalesces` | crates/protocol/src/message.rs:40-46 | exactly stats and player updates coalesce, the latter by guild |
| `SinkRuns.SnapshotsComeInOrder` | crates/server/src/sink.rs:66-70 | stats go out before every player, players by guild |
| `SinkWakeup.NoLostWakeup` | crates/server/src/sink.rs:195-239 | in every run, a parked receiver has no stored permit, and either some notifier is between its change and its notify or the sink is open with nothing deliverable |
| `SinkWakeup.ParkedReceiverIsServed` | crates/server/src/sink.rs:195-205 | when something is deliverable to a parked receiver, a notification already due is enough to hand it over |
| `Sessions.CanResumeIffClaimSucceeds` | crates/server/src/session.rs:327-358 | looking and claiming agree in every state whose registered sink is open, as every reachable one is |
| `Sessions.ClaimReopens` | crates/server/src/session.rs:342-358 | a claim reopens the one session, unpaused, Ready ahead of an untouched backlog, and touches no other entry |
| `Sessions.ClaimableXorExpired` | crates/server/src/session.rs:478-488 | at one instant a waiting session is claimable or expired, never both, and an open one neither |
| `Sessions.WaitsForItsTimeout` | crates/server/src/session.rs:383-417 | a resuming session that disconnects can be claimed for exactly its timeout, if sane and its queue has room; a second disconnect changes nothing |
| `Sessions.SweepTakesOne` | crates/server/src/session.rs:442-469 | removing one expired id commutes with those already swept |
| `Sessions.SessionRegistry.Open` | crates/server/src/session.rs:301-319 | a new session is registered open with an empty sink |
| `Sessions.SessionRegistry.CanResume` | crates/server/src/session.rs:327-331 | resumable: unexpired and not overflowing |
| `Sessions.SessionRegistry.ClaimForResume` | crates/server/src/session.rs:342-358 | the in-place claim is the claim of the abstract registry, sink included |
| `Sessions.SessionRegistry.OnDisconnect` | crates/server/src/session.rs:383-417 | a resuming session is paused under a deadline, any other removed, a waiting one left alone |
| `Sessions.SessionRegistry.RemoveIfStillExpired` | crates/server/src/session.rs:461-469 | the second look of a sweep decides |
| `Sessions.SessionRegistry.SweepExpired` | crates/server/src/session.rs:442-456 | without interference a sweep removes exactly the expired entries |
| `SessionLife.ActionKeepsInv` | crates/server/src/ws.rs:177-405 | every action of one session's life keeps its history exact, or marks it lost and doomed |
| `SessionLife.DoomedStays` | crates/server/src/ws.rs:177-405 | a session that can no longer be claimed never becomes claimable |
| `SessionLife.DoomedIsNeverClaimed` | crates/server/src/session.rs:342-358 | over any run of its actions |
| `SessionLife.FullQueueDoomsOutsideGrace` | crates/server/src/ws.rs:395-405 | a full queue dooms the session exactly when its pump is not in its grace period |
| `SessionLife.RefusedRestoreDooms` | crates/server/src/ws.rs:364-374 | a failed write that cannot be put back dooms the session |
| `SessionLife.GraceEndsInAClaim` | crates/server/src/ws.rs:177-327 | from a full queue in the grace period there is a run to a successful claim |
| `SessionLife.ClaimedReplaysExactly` | crates/server/src/session.rs:342-358 | a claim succeeds only with everything accepted written or queued, in order |
| `SessionLife.GraceMeetsAFullQueue` | crates/server/src/ws.rs:109-172 | a client can resume onto a backlog of 4095 and meet the bound in the grace period |
| `OverflowChecks.ClosedExactlyWhenNotDraining` | crates/server/src/ws.rs:177-405 | in every run a pump looks at the backlog at its start and once after each select arm, and closes exactly at the first later look that finds the queue full, or over the threshold after it has been seen below |
| `Greetings.NewConnectionsHearReadyFirst` | crates/server/src/ws.rs:134-144 | in every run a new connection hears that its session is new before anything else, unless the queue was full before that could be queued, and then the oldest event |
| `Greetings.ResumedConnectionsHearReadyFirst` | crates/server/src/session.rs:342-358 | in every run a resumed connection hears first that it resumed |
| `Greetings.ClosedSinkEndsThePump` | crates/server/src/ws.rs:243-244 | a pump whose sink is closed under it ends and destroys nothing |
| `Connections.StepFollows` | crates/server/src/ws.rs:109-327 | refinement: each step of the world does one action, or none, of each session's own life |
| `Connections.StepKeepsInv` | crates/server/src/session.rs:327-501 | ownership, registry well-formedness and every session's invariant are kept by every step |
| `Connections.EverySessionHasOneOwner` | crates/server/src/session.rs:327-501 | in every reachable state an open entry has exactly one task and a waiting one none; waiting iff paused; registered sinks are open; looking and claiming agree |
| `Connections.TasksFindTheirOwnSession` | crates/server/src/ws.rs:109-172 | the id a task disconnects or destroys by still names its own open session |
| `Connections.SweepNeverTakesAnOpenSession` | crates/server/src/session.rs:442-469 | however stale its scan, a sweep takes only a waiting session that no claim at the scan's time could have |
| `Connections.ClaimReplaysExactly` | crates/server/src/session.rs:342-358 | in every reachable state a successful claim finds Ready at the head, and written events with queued ones are every accepted event, in order, once |
| `Connections.LiveHistoryIsExact` | crates/server/src/ws.rs:177-327 | while connected, leaving included: written, then in hand, then queued is everything accepted, unless the restore of a failed write was refused, and then the queue is full; a resumed connection hears Ready first |
| `Connections.SilentGapIffInGrace` | crates/server/src/ws.rs:364-405 | a session whose queue refuses an event can be claimed in some later state if and only if its pump is in the grace period |
| `Connections.RefusedRestoreIsNeverResumed` | crates/server/src/ws.rs:364-374 | after a restore is refused no run ever claims the session |
| `Connections.NewSessionCanReachTheGap` | crates/server/src/ws.rs:177-327 | any new session can be brought to the gap |
| `Connections.SilentGapIsReachable` | crates/server/src/ws.rs:177-327 | the exception is real: a reachable state with a full queue in the grace period |
| `Shutdowns.NobodyIsForgotten` | crates/server/src/session.rs:383-501 | in every reachable state a session that has left the registry has its sink closed or somebody about to close it, and a registered one has neither |
| `Shutdowns.ExpiredAreSwept` | crates/server/src/session.rs:442-469 | a sweep finds an expired session, and its second look takes it out to be shut down |
| `PumpSignal.NoCommandWaitsUnannounced` | crates/server/src/audio/pump.rs:632-669 | outside the drain every queued command has the flag up or its sender about to raise it; commands are applied once, in order |
| `PumpSignal.LeavingAfterOneClearStrandsACommand` | crates/server/src/audio/pump.rs:632-669 | without the second look a command can be stranded |
| `AudioFlow.FilterKeepsSound` | crates/server/src/audio/pump.rs:803-834 | processed audio keeps chain order and the epoch barrier |
| `AudioFlow.FlushKeepsSound` | crates/server/src/audio/pump.rs:602-618 | so does a flush, a disabled chain's included |
| `AudioFlow.SetFiltersKeepsSound` | crates/server/src/audio/pump.rs:696-699 | so does a hot swap, which starts the next chain unflushed |
| `AudioFlow.LandSeekKeepsSound` | crates/server/src/audio/pump.rs:677-695 | so does a landed seek, which starts a new epoch |
| `AudioFlow.FlushKeepsOrderIff` | crates/server/src/audio/filter.rs:259-274 | a flush keeps what is heard equal to what the chains made, in order, each sample once, if and only if its chain is enabled or the scratch is empty |
| `AudioFlow.FlushKeepsBarrierIff` | crates/server/src/audio/filter.rs:259-274 | a flush lets nothing from before the last landed seek be heard, if and only if its chain is enabled or the scratch holds nothing older |
| `AudioFlow.BatchKeepsOrderIff` | crates/server/src/audio/pump.rs:626-708 | a batch of commands without a landed seek keeps the order if and only if each of its filter changes meets that guard |
| `AudioFlow.EveryEpochKeepsPromises` | crates/server/src/audio/pump.rs:626-708 | in every epoch, ended or under way, each promise is kept exactly when the epoch's flushes met their guard, and whatever is heard that the chains of the epoch did not make is a tail |
| `AudioFlow.EnabledChainsKeepBothPromises` | crates/server/src/audio/filter.rs:259-274 | when every chain installed is enabled both promises hold outright, in every epoch |
| `AudioFlow.StaleTailCrossesASeek` | crates/server/src/audio/filter.rs:752-775 | the concrete case in which an old tail is pushed behind a landed seek |
| `AudioFlow.BatchEffect` | crates/server/src/audio/pump.rs:626-708 | a drained batch either only adds behind the buffer being written or, with a landed seek in it, discards everything from before |
| `AudioFlow.LoneKeepsBypassing` | crates/server/src/audio/pump.rs:803-834 | what a lone timescale processes never passes through the scratch; any other enabled chain leaves its output there |
| `Pump.State.FlushFiltersIntoPending` | crates/server/src/audio/pump.rs:602-618 | is the flush of the flow; the settings stay |
| `Pump.State.ApplyCommand` | crates/server/src/audio/pump.rs:677-708 | each command does just what it asks: a seek is tried once, answered for to the ring and discards exactly if it landed; a filter change is exactly one flush and one new chain with those filters; the others set their own setting |
| `Pump.State.ApplySeek` | crates/server/src/audio/pump.rs:678-695 | a landed seek discards and rebases the ring at its target, a failed one cancels it and touches nothing else |
| `Pump.State.TakeNext` | crates/server/src/audio/pump.rs:632-708 | one poll: a command is applied and answered for, the first empty poll clears the flag, and stop applies nothing |
| `PumpOutside.Surroundings.Senders` | crates/server/src/audio/engine.rs:130-146 | any number of sends and raises between two steps of the pump keep every queued command announced or about to be |
| `PumpOutside.Surroundings.ClearInterrupt` | crates/server/src/audio/pump.rs:646-666 | the clear, with senders at work since the empty poll before it, does not end the drain |
| `PumpOutside.NewestCommandDecides` | crates/server/src/audio/pump.rs:696-707 | over every sequence of polls each setting is that of the newest command of its kind |
| `PumpOutside.OnlyItsCommandsChangeASetting` | crates/server/src/audio/pump.rs:696-707 | without a command of its kind a setting stays what it was, and each filter change makes one new chain |
| `Pump.State.TakeCommands` | crates/server/src/audio/pump.rs:632-708 | takes each command with its effect, in order; stops exactly when the last poll was a stop or a disconnect, and otherwise leaves on the first two empty polls in a row, so that whatever is queued outside a drain is announced; the settings are those of the newest commands |
| `Pump.State.DrainCommands` | crates/server/src/audio/pump.rs:626-708 | the drained batch extends or discards, a reset reported iff a seek landed; it stops exactly on a stop or a disconnect; every seek polled was tried and answered for, in order |
| `Pump.State.FinishAtTheEnd` | crates/server/src/audio/pump.rs:620-624 | the loop goes on exactly while the listener's position has not reached the configured end, and otherwise marks the ring finished |
| `Pump.State.TryWrite` | crates/server/src/audio/pump.rs:497-505 | an attempt writes a prefix of what remains, only after the commands were drained and the end checked since the last one, and gives up exactly if the ring is closed |
| `Pump.State.WriteInterruptibly` | crates/server/src/audio/pump.rs:471-530 | the whole buffer reaches the ring ahead of anything pushed meanwhile, or a landed seek takes the rest of it away, or the run ends; never a write or a wait without a drain since the last write |
| `Pump.State.WritePendingFilterTail` | crates/server/src/audio/pump.rs:584-600 | everything waiting reaches the ring in order, tails arriving meanwhile included |
| `Pump.State.FilterInto` | crates/server/src/audio/pump.rs:803-834 | processed audio becomes the buffer being written |
| `Pump.State.PlayPcm` | crates/server/src/audio/pump.rs:424-455 | everything the resampler gave goes through the chain and into the ring |
| `Pump.State.FinishAndDrain` | crates/server/src/audio/pump.rs:535-582 | at end of stream it continues only after a landed seek, with nothing older left; it finishes only with resampler and chain emptied into the ring and the ring drained, or past the configured end |
| `Pump.State.WriteLastTail` | crates/server/src/audio/pump.rs:560-565 | after the last tail nothing waits, is being written or is held back by the chain |
| `Pump.State.WaitForDrain` | crates/server/src/audio/pump.rs:535-582 | the wait continues only after a landed seek |
| `Pump.State.PlayPacket` | crates/server/src/audio/pump.rs:256-460 | a packet's audio is delivered or discarded before the next one |
| `Pump.State.TakePacket` | crates/server/src/audio/pump.rs:292-379 | the track fails exactly on a broken container or the 33rd packet in a row that the decoder refuses; a new format has the resampler rebuilt before anything more is decoded |
| `Pump.State.PlayNext` | crates/server/src/audio/pump.rs:292-464 | whatever the packet was, all that was decoded is passed on before the next |
| `Pump.State.BeforePacket` | crates/server/src/audio/pump.rs:264-290 | no packet is read before the commands were drained, the closed ring noticed, waiting tails written and the end checked |
| `Pump.State.DecodeLoop` | crates/server/src/audio/pump.rs:256-460 | whatever arrives when: it ends stopped only if told to or its ring was closed, failed exactly as its packets say and as started only if the ring may have had a sample, and finished with the ring drained or the configured end reached, the ring knowing that nothing more comes |
| `Pump.Run` | crates/server/src/audio/pump.rs:83-100 | in every run, under any commands at any time: all that was decoded went through the resampler, all of that through the chains; what the ring received is the run's log epoch by epoch, and in each epoch the two promises are kept exactly when its flushes met their guards, and then by what the ring received; with every chain enabled the ring received just the first of what the chains gave; every seek taken was tried once and answered for in order, the chain is that of the newest commands, a stop is the last thing polled, and playback is based where the start seek landed |
| `RingBytes.ReturnedIsAnImage` | crates/server/src/audio/ring.rs:610-725 | for every interleaving and every read size, bytes returned and left over are the little-endian image of whole samples |
| `RingBytes.BytesDetermineTheSample` | crates/server/src/audio/ring.rs:699-711 | the four bytes determine the sample |
| `RingBytes.QueueIsFifo` | crates/server/src/audio/ring.rs:415-429 | what left the queue, then what is in it, is everything accepted, in order |
| `RingBytes.HeardAddsUp` | crates/server/src/audio/ring.rs:610-725 | the real samples heard are exactly those each operation let be heard, in order |
| `RingBytes.OnlyResetsDiscard` | crates/server/src/audio/ring.rs:522-534 | whatever leaves the queue, by its length before and after, is heard, except in a reset, which silences the whole queue |
| `RingBytes.WithoutResetNothingIsLost` | crates/server/src/audio/ring.rs:415-429 | between resets the ring is a lossless FIFO |
| `RingBytes.NoSampleFromBeforeAReset` | crates/server/src/audio/ring.rs:522-534 | no sample still queued at a reset is taken off the queue to be heard later |
| `RingBytes.BytesFromAfterAResetIff` | crates/server/src/audio/ring.rs:610-620 | the bytes handed over after a reset are those of samples taken after it if and only if no bytes were left over at the reset; otherwise the leftover comes first |
| `RingBytes.HalfReadSampleCrossesAReset` | crates/server/src/audio/ring.rs:615-620 | one sample written, one byte read, a reset, and the other three bytes still come out |
| `RingBytes.LargeReadsLeaveNothing` | crates/server/src/audio/ring.rs:610-725 | a reader that asks for no bytes or at least four never leaves any of a sample behind, in any run |
| `RingBytes.SilenceOnlyWhenStarved` | crates/server/src/audio/ring.rs:640-668 | a read invents silence exactly when it is starved and the ring goes on, never mixed with samples, for as much of the request as one frame holds |
| `RingBytes.WritesTakeWhatFits` | crates/server/src/audio/ring.rs:415-429 | a write that does not take everything leaves the ring full, and takes nothing once the reader has closed it |
| `RingBytes.EndOfStreamIff` | crates/server/src/audio/ring.rs:622-634 | an open reader gets no bytes exactly when the producer finished and every byte was handed over; until then reads make progress, and a stocked ring fills the request |
| `RingEpochs.ReaderHearsTheEpoch` | crates/server/src/audio/ring.rs:504-534 | whatever the pump did, however reads fall between its puts and resets: the samples heard between two resets are the first ones it put there, of that epoch and in chain order when its flushes met their guards, and the bytes are their image alone if and only if no half-read sample was left over |
| `RingEpochs.EachEpochsBytesAreItsOwn` | crates/server/src/audio/pump.rs:677-695 | with a filter in every chain and reads of whole samples, the bytes of each epoch are exactly the image of its own samples, in order, each once, with the silences of starved reads |
| `RingEpochs.EpochsAreFaithful` | crates/server/src/audio/ring.rs:610-725 | in every run of the ring each epoch lets be heard a prefix of what it accepted, and hands over its image behind the bytes the epoch before it left |
| `RingEpochs.EpochsReturnEverything` | crates/server/src/audio/ring.rs:610-725 | the epochs together returned every byte the run returned |
| `RingEpochs.NothingToReadIff` | crates/server/src/audio/ring.rs:610-646 | in every run an open ring gives a read nothing exactly when the producer has finished since the newest reset and every sample accepted since is handed over to its last byte; a closed one as soon as no half-read sample is left |
| `RingEpochs.AResetReopens` | crates/server/src/audio/ring.rs:522-534 | after a reset no read comes back empty until the producer finishes again or the reader closes |
| `RingPosition.ReportedPosition` | crates/server/src/audio/ring.rs:297-340 | in every run the report is the newest unfinished target, unless an equal one was retired since, and otherwise the landed target plus the time of the whole frames handed over, however reads were sized |
| `RingPosition.StaysExact` | crates/server/src/audio/ring.rs:297-340 | pending target, base, frames and remainder are exact after every step |
| `RingPosition.AnnouncedSeekHoldsIff` | crates/server/src/audio/ring.rs:522-559 | an announced target is pending for as long as it is unfinished, in every run, if and only if it is not -1 and no seek unfinished at the announcement has the same target |
| `RingPosition.LandThrough` | crates/server/src/audio/ring.rs:319-326 | otherwise there is a run in which an older landing retires it |
| `RingPosition.LandingIsSeamless` | crates/server/src/audio/ring.rs:504-534 | landing the pending seek does not change the reported value |
| `PlayerPosition.StepKeepsInv` | crates/server/src/audio/engine.rs:893-981 | every step of actor, engine, rings and direct playbacks keeps who owns the counter and every ring's exact account of its seeks |
| `PlayerPosition.OnlyStoresMoveTheCounter` | crates/server/src/audio/engine.rs:247-299 | a step that is no store leaves the counter alone |
| `PlayerPosition.OneRingOwns` | crates/server/src/audio/engine.rs:893-922 | in every reachable state only the newest ring may store, from the section that installs it until it is detached, which is one step after it is taken out |
| `PlayerPosition.DetachedForever` | crates/server/src/audio/ring.rs:500-502 | a detached ring never stores again, in any run |
| `PlayerPosition.HeldRingReports` | crates/server/src/audio/ring.rs:297-340 | over all the rings a player has had, the held one stores the newest unfinished target, unless an equal one was retired since, and otherwise the landed target plus the time of the whole frames handed over |
| `PlayerPosition.ActorStoresWhatWasRequested` | crates/server/src/player/actor.rs:476-556 | in every run the actor stores each seek's target, each play's start and a stop's zeros once, in order, and nothing else |
| `PlayerPosition.PendingSeekSilencesReports` | crates/server/src/audio/engine.rs:247-252 | while a seek of a direct playback is pending its reports are dropped, in every run |
| `PlayerPosition.DirectSeekEnds` | crates/server/src/audio/engine.rs:545-562 | a direct seek clears its pending target and reports where it landed, or nothing if it failed |
| `PlayerPosition.HeldRingStoresAloneIff` | crates/server/src/player/actor.rs:476-487 | while a ring is held, every store until the actor's next request is that ring's, in every run, if and only if the actor is free and no store of an earlier direct playback can still come |
| `PlayerPosition.SeekStoreComesLate` | crates/server/src/player/actor.rs:476-487 | from any reachable idle ring the actor's store of a seek can come after the landing and the playing that followed, and put the position back |
| `PlayerPosition.CancelledSeekIsStored` | crates/server/src/player/actor.rs:476-487 | or after the pump cancelled the seek, and then the position is a target nothing will reach |
| `PlayerPosition.ReportComesLate` | crates/server/src/audio/engine.rs:247-252 | a report that found its direct playback current and no seek pending can store after a ring has taken over |
| `Rings.Ring.constructor` | crates/server/src/audio/ring.rs:346-376 | capacity of at least 20 ms, and an empty stream and clock |
| `Rings.Ring.TryWrite` | crates/server/src/audio/ring.rs:415-429 | takes what fits, or nothing once closed |
| `Rings.Ring.ResetTo` | crates/server/src/audio/ring.rs:522-534 | clears, rebases, retires its own announcement and refreshes |
| `Rings.Ring.FinishWriting` | crates/server/src/audio/ring.rs:482-486 | marks the end and touches nothing else |
| `Rings.Ring.CloseReader` | crates/server/src/audio/ring.rs:596-599 | closes and touches nothing else |
| `Rings.Ring.BeginSeek` | crates/server/src/audio/ring.rs:540-544 | announces without touching the stream |
| `Rings.Ring.CancelSeek` | crates/server/src/audio/ring.rs:557-559 | retires the announcement it is given |
| `Rings.Ring.DetachPosition` | crates/server/src/audio/ring.rs:500-502 | gives up the counter |
| `Rings.Ring.RefreshPosition` | crates/server/src/audio/ring.rs:297-311 | writes the counter only while it owns it |
| `Rings.Ring.Read` | crates/server/src/audio/ring.rs:610-725 | one read is one read of the stream, advances the clock by the samples handed over, reports the position, and records them sent or nulled |
| `Rings.WriteSamples` | crates/server/src/audio/ring.rs:682-706 | whole samples, low byte first, leaving the rest of the buffer alone |
| `FrameLedger.ReportedIsExactIff` | crates/server/src/audio/ring.rs:149-175 | with clocks that do not run backwards, the previous minute's report is exact if and only if both counts fit 32 bits |
| `FrameLedger.BucketHoldsItsMinute` | crates/server/src/audio/ring.rs:149-160 | a bucket holds exactly the counts of its minute while they fit |
| `FrameLedger.BucketReachedTheMinute` | crates/server/src/audio/ring.rs:149-160 | a bucket has moved on to every counted minute of its parity and never past the newest reading |
| `FrameLedger.OneReadingAdds` | crates/server/src/audio/ring.rs:136-147 | a call adds exactly the frames it completed to the packed word |
| `FrameLedger.MinutesAddUp` | crates/server/src/audio/ring.rs:104-147 | over all the minutes of a history a path's counts are its samples over 1920 and the frames that arrived whole |
| `FrameLedger.SplittingDoesNotMatter` | crates/server/src/audio/ring.rs:136-147 | histories that split the same samples differently count the same frames |
| `FrameLedger.FrameCounters.RecordAt` | crates/server/src/audio/ring.rs:123-147 | remainder and buckets follow the history, a count too large for 32 bits skipped |
| `FrameLedger.FrameCounters.RecordSentFramesAt` | crates/server/src/audio/ring.rs:111-115 | whole frames go to the sent half |
| `FrameLedger.FrameCounters.StatsAt` | crates/server/src/audio/ring.rs:162-175 | reports the previous minute, exactly iff it fits |
| `LoadTables.CacheAnswersOnlyTheLive` | crates/server/src/loader.rs:341-349 | answers are for the identifier asked, unexpired, never errors |
| `LoadTables.StoreKeepsTheBound` | crates/server/src/loader.rs:181-196 | the cache never outgrows 10000 entries |
| `LoadTables.CacheHoldsTheLive` | crates/server/src/loader.rs:181-196 | over every run of look-ups, stores and sweeps the cache holds exactly the live part of a table that is never swept, evicted or pruned |
| `LoadTables.LookUpAnswersTheNewest` | crates/server/src/loader.rs:341-349 | over every such run a look-up answers the newest store of its identifier that took effect, for exactly its minute; a store takes effect when it is no error and fewer than 10000 entries are live |
| `LoadTables.NewestIsTheLastStore` | crates/server/src/loader.rs:181-196 | that is the last store of the run that took effect for the identifier |
| `LoadTables.Loader.Cached` | crates/server/src/loader.rs:341-349 | a look-up evicts the expired entry it finds |
| `LoadTables.Loader.JoinOrLead` | crates/server/src/loader.rs:132-144 | joins the registered channel or registers its own |
| `LoadTables.Loader.RemoveIfStillOurs` | crates/server/src/loader.rs:80-96 | removes an entry only of its own generation |
| `LoadTables.Loader.Store` | crates/server/src/loader.rs:181-196 | keeps a result that is no error if there is room, dropping expired entries only when full |
| `LoadTables.Loader.SweepExpired` | crates/server/src/loader.rs:336-339 | keeps exactly the unexpired entries, and every load in flight |
| `LoadTables.Retained` | crates/server/src/loader.rs:336-339 | the visit of every entry keeps exactly the unexpired ones |
| `SingleFlight.StepKeepsInv` | crates/server/src/loader.rs:118-207 | requests, channels and entries agree after every step |
| `SingleFlight.OneLeaderPerIdentifier` | crates/server/src/loader.rs:128-144 | at most one registered leader per identifier, in every reachable state |
| `SingleFlight.EntriesHaveLiveLeaders` | crates/server/src/loader.rs:64-96 | every entry in flight has a live leader for the same identifier |
| `SingleFlight.FollowerIsServed` | crates/server/src/loader.rs:146-205 | from any reachable world the leader's own steps and one of the follower's bring it the leader's result, or back to join if the leader was cancelled |
| `SingleFlight.LeaderFinishes` | crates/server/src/loader.rs:169-205 | a live leader's own steps close its channel with what it promised, and change no other request |
| `SingleFlight.FollowersAreNeverStranded` | crates/server/src/loader.rs:146-154 | a waiting follower can go on or its channel has a live leader |
| `SingleFlight.LeadersCanGoOn` | crates/server/src/loader.rs:169-205 | a leader waits on nothing but its own load |
| `SingleFlight.OnlyTheOwnerRemoves` | crates/server/src/loader.rs:80-96 | an entry leaves only by its own leader's removal, never by a stale guard |
| `SingleFlight.EntriesAreNeverReplaced` | crates/server/src/loader.rs:132-144 | an entry is not overwritten under its leader |
| `SingleFlight.FollowersGetTheLeadersAnswer` | crates/server/src/loader.rs:146-154 | a follower is answered exactly when its leader finished, with that answer, for its own identifier; a cancelled leader sends it back to join |
| `SingleFlight.AnswersAreFinal` | crates/server/src/loader.rs:198-206 | an answered request stays answered with the same result |
| `SingleFlight.SentIsFinal` | crates/server/src/loader.rs:198-206 | what a leader sent never changes |
| `LoadAnswers.LookUpAnswers` | crates/server/src/loader.rs:118-127 | in every run a request is answered at once exactly when the newest result kept for its identifier is less than a minute old, with that result |
| `LoadAnswers.AnswersWereLoaded` | crates/server/src/loader.rs:118-207 | in every run whoever is answered, from the cache, a channel or a load of its own, gets what some load of its identifier gave in that run |
| `LoadPermits.PermitsAreConserved` | crates/server/src/loader.rs:209-268 | available, held and travelling permits are sixteen under every schedule; never more than sixteen threads; none leaks |
| `LoadPermits.CancellingKeepsTheThread` | crates/server/src/loader.rs:230-238 | cancelling a call whose thread runs frees nothing |
| `LoadPermits.AnswersMatchTheirCalls` | crates/server/src/loader.rs:239-279 | an answer is for the identifier asked, and no call waits on a finished thread |
| `LoadPermits.WaitsOnlyForAPermit` | crates/server/src/loader.rs:209-229 | a waiting call can go on exactly while fewer than sixteen permits are in use |
| `LoadOutcomes.ReceivedIsWhatTheThreadDid` | crates/server/src/loader.rs:239-279 | in every run a call that heard from its thread has the payload that thread reported, for the identifier asked, exactly if it reported, and a panic exactly if it panicked |
| `LoadOutcomes.StagesHaveCauses` | crates/server/src/loader.rs:209-279 | in every run a call has a failed spawn, a cancellation, a thread or nothing yet exactly when the run says so |
| `CatmullRom.CurveReverses` | crates/server/src/audio/resample.rs:464-478 | a segment run backwards is the curve of the reversed points |
| `CatmullRom.CurveInterpolates` | crates/server/src/audio/resample.rs:464-478 | segments meet at the control points, and a straight line stays straight |
| `CatmullRom.SegmentsMeetSmoothly` | crates/server/src/audio/resample.rs:464-478 | neighbouring segments leave a control point with the same slope |
| `Resampling.ProcessAll` | crates/server/src/audio/resample.rs:126-242 | for every rate, channel count and frame-aligned partition, the outputs together are the one-shot output |
| `Resampling.OneShotIsExact` | crates/server/src/audio/resample.rs:180-233 | output frame n sits at n times the rate, for exactly the n before the last two frames |
| `Resampling.AtAFrame` | crates/server/src/audio/resample.rs:195-230 | on a source frame the output is that frame |
| `Resampling.AtOnParabolas` | crates/server/src/audio/resample.rs:195-230 | each channel that runs along a parabola is resampled along it, at every position |
| `Resampling.FirstFrameIsItsOwnNeighbour` | crates/server/src/audio/resample.rs:204-218 | the stream plays as if its first frame had come twice |
| `Resampling.OneShotHitsTheFrames` | crates/server/src/audio/resample.rs:180-233 | output frame n is the source frame it falls on, where n times the rate is a whole number of frames |
| `Resampling.StereoFramesAt` | crates/server/src/audio/resample.rs:252-267 | frame k is the k-th group's front pair, or its one sample on both sides; an incomplete group is dropped |
| `Resampling.InterleavedAt` | crates/server/src/audio/resample.rs:145-152 | left then right of every frame in turn |
| `Resampling.MoreInputAddsFrames` | crates/server/src/audio/resample.rs:180-242 | more input adds exactly the frames it makes reachable and changes none |
| `Resampling.AtInBuffer` | crates/server/src/audio/resample.rs:195-230 | a buffer starting inside the stream interpolates the stream's own frame |
| `Resampling.CarriedIsNext` | crates/server/src/audio/resample.rs:235-241 | after a carried tail the position is past its first frame, so the repeated left neighbour is only ever that of the stream's first frame |
| `Resampling.PassthroughIsIdentity` | crates/server/src/audio/resample.rs:137-143 | 48 kHz stereo passes unchanged up to an odd last sample |
| `Resampling.StereoFramesConcat` | crates/server/src/audio/resample.rs:252-267 | channel conversion of aligned buffers is that of the whole |
| `Resampling.Resampler.FillStereoFrames` | crates/server/src/audio/resample.rs:252-267 | the loop over whole groups of samples |
| `Resampling.Interpolate` | crates/server/src/audio/resample.rs:195-233 | the loop emits the rest of the buffer and ends at the first position without two right-hand neighbours |
| `Resampling.RestOfTheStream` | crates/server/src/audio/resample.rs:195-233 | that rest is the stream's output from the next frame on |
| `Resampling.Resampler.CarryTail` | crates/server/src/audio/resample.rs:235-241 | tail and rebased cursor again stand exactly at the next output frame |
| `Resampling.Resampler.ProcessInto` | crates/server/src/audio/resample.rs:129-242 | output so far, then this call's, is the output of the stream so far |
| `Resampling.Resampler.Reset` | crates/server/src/audio/resample.rs:98-104 | forgets the stream |
| `ModifiedUtf8.Utf16RoundTrip` | crates/protocol/src/java_io.rs:184-259 | surrogate pairs give back their character |
| `ModifiedUtf8.RoundTrip` | crates/protocol/src/java_io.rs:175-260 | decoding an encoded string gives the string, for all strings of scalar values |
| `ModifiedUtf8.NoZeroByte` | crates/protocol/src/java_io.rs:183-199 | no encoding contains a zero byte |
| `ModifiedUtf8.FastPathAgrees` | crates/protocol/src/java_io.rs:210-218 | the ASCII fast path gives what the general loop would |
| `ModifiedUtf8.ReencodingDoesNotGrow` | crates/protocol/src/java_io.rs:202-260 | re-encoding an accepted input is at most one byte longer for each raw zero byte in it |
| `ModifiedUtf8.LossyKeepsWidth` | crates/protocol/src/java_io.rs:253-259 | replacing unpaired surrogates keeps every width |
| `ModifiedUtf8.FailureIsAtTheBadByte` | crates/protocol/src/java_io.rs:223-251 | every input that agrees up to and with the reported byte fails there too |
| `ModifiedUtf8.BeforeTheBadByteAllIsFine` | crates/protocol/src/java_io.rs:223-251 | what comes before it can be completed to something accepted |
| `ModifiedUtf8.EncodeInto` | crates/protocol/src/java_io.rs:183-200 | the encoding loop appends exactly the encoding |
| `ModifiedUtf8.DecodeBytes` | crates/protocol/src/java_io.rs:209-260 | the decoding loop returns the string or the first bad offset |
| `JavaIo.BigEndianRoundTrip` | crates/protocol/src/java_io.rs:66-81 | big-endian digits give back every value of their width |
| `JavaIo.ReadBackInt64` | crates/protocol/src/java_io.rs:76-81 | a written i64 is read back, negative ones included, leaving what follows |
| `JavaIo.ReadBackUtf` | crates/protocol/src/java_io.rs:83-91 | a written string is read back, leaving what follows |
| `JavaIo.ReadBackNullableUtf` | crates/protocol/src/java_io.rs:93-100 | so is an absent or present one |
| `JavaIo.DataInput.Take` | crates/protocol/src/java_io.rs:44-56 | moves the offset or names offset, wanted and available |
| `JavaIo.DataInput.ReadUtf` | crates/protocol/src/java_io.rs:83-91 | result, error offset and new offset of a string read |
| `JavaIo.DataInput.ReadNullableUtf` | crates/protocol/src/java_io.rs:93-100 | flag, then text |
| `JavaIo.DataOutput.WriteUtf` | crates/protocol/src/java_io.rs:137-159 | patched length and bytes, or the buffer exactly as it was |
| `JavaIo.DataOutput.WriteNullableUtf` | crates/protocol/src/java_io.rs:161-172 | rolls its flag back too |
| `EncodedTrack.RoundTripIff` | crates/protocol/src/encoded_track.rs:122-286 | an encoded track followed by anything decodes to itself if and only if its version holds its fields, seekable is not stream, and its tail fits its source |
| `EncodedTrack.DecodedIsRepresentable` | crates/protocol/src/encoded_track.rs:122-222 | every accepted track is one the format can hold |
| `EncodedTrack.ReencodingKeepsTheTrack` | crates/protocol/src/encoded_track.rs:122-286 | whenever a decoded track re-encodes, decoding that gives the same track |
| `EncodedTrack.OwnOutputSurvivesByteForByte` | crates/protocol/src/encoded_track.rs:28-34 | what this codec wrote re-encodes byte for byte |
| `ModifiedUtf8.ComesBackIff` | crates/protocol/src/java_io.rs:202-260 | accepted bytes re-encode to themselves if and only if every form is the shortest, U+0000 being C0 80, and every surrogate is paired |
| `ModifiedUtf8.UnitsComeBackIff` | crates/protocol/src/java_io.rs:204-208 | decoded units re-encode to their bytes exactly when every lead is one no shorter form could replace |
| `ModifiedUtf8.PairedIffComesBack` | crates/protocol/src/java_io.rs:253-259 | units come back from their text exactly when every surrogate is paired |
| `TrackBytes.SurvivesByteForByteIff` | crates/protocol/src/encoded_track.rs:28-34 | any accepted bytes, whoever wrote them, re-encode to themselves if and only if every string is in shortest form and paired, every flag is 0 or 1, the header has just the flag its version needs, and nothing follows |
| `TrackBytes.TitledSurvivesIff` | crates/protocol/src/encoded_track.rs:28-34 | a track titled with any accepted bytes is accepted, and comes back exactly when the title is in that form |
| `TrackBytes.SomeAcceptedTitlesAreNotKept` | crates/protocol/src/java_io.rs:202-208 | an overlong form, a raw zero byte and half a surrogate pair are accepted titles that are not |
| `TrackBytes.FieldsIff` | crates/protocol/src/encoded_track.rs:165-221 | the fields are in the written form exactly when the bytes read are those that would be written |
| `TrackBytes.UtfIff` | crates/protocol/src/java_io.rs:202-260 | a string is written back as the bytes it took exactly when they are in shortest form and paired |
| `TrackBytes.LinksIff` | crates/protocol/src/encoded_track.rs:174-184 | the same for the optional fields of each version |
| `TrackBytes.SourceIff` | crates/protocol/src/encoded_track.rs:186-202 | the same for the source and its tail, a probing source's being its probe name alone |
| `EncodedTrack.EncodingSucceedsIff` | crates/protocol/src/encoded_track.rs:233-286 | encoding succeeds exactly when the version is known, every string it writes fits 65535 bytes and the payload 30 bits, and then has exactly the stated size |
| `EncodedTrack.EmptyTrackEncodes` | crates/protocol/src/encoded_track.rs:233-286 | every version has a representable track that encodes |
| `EncodedTrack.TrailingBytesAreIgnored` | crates/protocol/src/encoded_track.rs:129-137 | bytes past the declared size change nothing |
| `EncodedTrack.TruncationIsDetected` | crates/protocol/src/encoded_track.rs:125-135 | every proper prefix of an encoded track is refused with the exact error |
| `EncodedTrack.ReadBackHeader` | crates/protocol/src/encoded_track.rs:276-285 | size and flag share the header without touching each other |
| `EncodedTrack.EncodeTrack` | crates/protocol/src/encoded_track.rs:233-286 | the encoder with its patched header writes the layout, or the first error in field order |
| `EncodedTrack.DecodeTrack` | crates/protocol/src/encoded_track.rs:122-222 | the field-by-field decoder reads the layout, with every error case |
| `EncodedTrack.DecodeFields` | crates/protocol/src/encoded_track.rs:165-221 | fields by version, tail by source and by what is left |
| `WireFormat.TracksAreWrittenSo` | crates/protocol/src/encoded_track.rs:9-24 | every track of plain strings, byte for byte in absolute terms: header, version, each field in its place by version, source tail, position last |
| `WireFormat.OriginalTrackIsUnderstood` | crates/protocol/src/encoded_track.rs:293-350 | a track as the original server wrote it is read as what it is and written back the same |
| `WireFormat.UnitsAreWrittenSo` | crates/protocol/src/java_io.rs:183-199 | a code unit is written with its bits in order, in its shortest form but for U+0000 |
| `WireFormat.CharactersAreWrittenSo` | crates/protocol/src/java_io.rs:184-187 | a character outside the basic plane is two surrogates of ten bits each |
| `WireFormat.AcceptedIffForms` | crates/protocol/src/java_io.rs:202-251 | bytes are accepted exactly when they are a row of one, two and three byte forms, overlong ones included, and stand for their units |
| `WireFormat.LongsAreWrittenSo` | crates/protocol/src/java_io.rs:129-131 | two's complement, eight bytes, most significant first |
| `WireFormat.TakesWhatIsThere` | crates/protocol/src/java_io.rs:44-56 | a read takes the bytes at its offset or names offset, wanted and available, and then takes nothing |
| `WireFormat.FlagsAreReadSo` | crates/protocol/src/java_io.rs:62-64 | any byte but zero is true |
| `WireFormat.StringsAreReadSo` | crates/protocol/src/java_io.rs:83-91 | a string is as long as its first two bytes say; a bad byte is named by its place in the whole input |
| `WireFormat.RefusedSo` | crates/protocol/src/encoded_track.rs:122-163 | what is refused before any field is read, in order: short header, short payload, no position, no version, unknown version, each with its exact error |
| `WireFormat.TooLongIsNamed` | crates/protocol/src/encoded_track.rs:233-274 | a track with strings too long is refused for the first of them in order, with its length |
| `WireFormat.ProbingSources` | crates/protocol/src/encoded_track.rs:87-89 | exactly http and local have a probe name |

## Left out

- Sockets, HTTP, JSON, configuration, logging and the WebSocket close frames; a write succeeds or fails as the environment chooses.
- The branch of the socket pump that drops a message that cannot be serialized: the source calls it impossible.
- Players and voice of a session (`get_or_create_player`, `take_players`), and the player actor and the direct playback path beyond their stores to the shared position.
- Relaxed memory ordering: atomics are sequentially consistent, one step each.
- `Deadline` arithmetic of the monotonic clock cannot overflow here; the source guards it and expires the session at once.
- 64-bit overflow of counted frames times 1000 and of position sums.
- The symphonia decoder, the SoundTouch stretcher and the rubato sinc resampler: any outcome within their contract is allowed, and `finish_into` of the sinc engine is not claimed to end.
- Float rounding: the resampler is exact, and samples in the ring are bit patterns. The gain of the player's volume: its setting is followed, its product with a sample is part of the bit pattern.
- Condition-variable waits of the ring (`wait_for_space`, `wait_for_drain`, `wake`): their outcomes are arbitrary answers in `PumpOutside.Surroundings`.
- `is_data_usable_at` and the track-switch timestamps of the frame counters.
- Base64 around the track bytes, and the text of the oversized-track error.
- RingEpochs.ReaderHearsTheEpoch: the pump and the ring are joined by what one gives and the other accepts, not run as one step system.
- Pump.State.DecodeLoop: the environment's answers are drawn from a finite budget of polls, so that runs end; nothing else limits it.
- RingPosition.AnnouncedSeekHoldsIff: seeks are announced and queued by one caller, as the player actor does, so that announcements and commands have one order.
- FrameLedger.ReportedIsExactIff: clocks that run backwards, after which a rotated bucket has forgotten its counts. Its bound is the range of the packed word, which no playback reaches in a minute.
