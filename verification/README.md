# Netplay rollback, spectator and replay models

A Dafny model of the netplay runtime's core: what it stores, what it sends and what it promises, with proofs for all
inputs, all runs and all orders of delivery.

Every component that changes state in place is a class (or a method with loops) proved against a value: `State()`
gives the value of the fields, each method's contract equates the new value with a function of the old one, and the
lemmas then speak about those values. The values of several components together make the worlds in which the
protocol results are stated.

- **Undo journals.** `BlockIndex` is the address-ordered AVL tree kept as indices in a growing vector;
  `RollbackJournal` (with `JournalRecord`, `JournalState`) the ring of first-write checkpoints with deferred capture
  and coalescing restore; `PartitionedPoolJournal` (with `PoolRecord`, `PoolState`) the journal of a fixed pool that
  restores oldest first. Memory is an array of bytes and an address a position in it. A ghost field remembers all of
  memory at the start of every retained checkpoint, and `Valid` says that the stored bytes suffice to return there.
- **Rollback input core.** `InputLane`, `CoreState` and `RollbackCore` are the 256-slot rings, prediction, rewind,
  packets and confirmed rows of one peer. `CoreRun` has every run of one core under its driver, whatever packets
  arrive. `PeerProtocol` has two or three honest peers and every packet ever sent, each of which may arrive any number
  of times, in any order, or never. `ChannelState` and `SessionChannel` are the sending half of a session:
  postponing, resending, repairing and retiring, each with the exact moment and packet. `DelayedDuplicate`, `RunAhead`
  and `LongDelay` hold the runs of the first two findings below, and `HonestRun` what builds such a run act by act.
- **Spectator pipeline.** `StageStream` and `SpectatorStageHistory` are the received stream; `Broadcast` and
  `SpectatorStagePublisher` the retrying publisher; `PlaybackState` and `SpectatorStagePlayback` the seekable viewer,
  with restoring and ticking as functions that may fail. `StoredStream` ties what a viewer finds in its history
  to what was sent and shown. `SeamViewers` holds the two viewers of the third finding.
- **Replay files.** `ReplayFormat` is the printer, the strict reader and the checksum; `InputReplay` the owner of a
  recording. Axes are their 32-bit patterns, finite when the exponent is not 255. `ReplayLayout` says which bytes hold
  what, and `KnownHash` that the checksum is the published one.
- **Calibration.** `AdonisState` and `AdonisStartup` are one peer's numbered attempts, measurement and commit;
  `AdonisAgreement` has all peers and every packet they ever sent. `AdonisRules` says what one call comes to, deadline
  by deadline and packet by packet, and `CommitRun` builds a run in which both of two peers commit.

"No frame" is -1 in the core and 2^32 - 1 in the spectator and replay parts, where words are bounded. 32-bit sequence
numbers and serials wrap or stop where the program's do; other counters are unbounded.

`Folding` explains how the bodies of large definitions are kept out of proofs that do not need them.

## Model

| member | source | states |
|---|---|---|
| BlockIndex.RebalanceBlock | src/netplay/RollbackJournal.cpp:265-285 | at a node whose children are balanced, exact and differ by at most two levels, returns the four-case AVL rebalancing of that subtree with exact heights; no range and no block outside the subtree changes |
| BlockIndex.RebalancedIsAvl | src/netplay/RollbackJournal.cpp:265-285 | that rebalancing is balanced again and at most one level lower than before |
| BlockIndex.RebalancedOrder | src/netplay/RollbackJournal.cpp:245-285 | and keeps the in-order sequence of blocks |
| BlockIndex.Search | src/netplay/RollbackJournal.cpp:303-342 | one downward path decides: duplicate exactly when the range is a block, fresh exactly when it meets no block of the whole checkpoint, overlapping otherwise |
| BlockIndex.Insert | src/netplay/RollbackJournal.cpp:377-414 | after linking the new block and walking back up with the early stop, the vector is again indexed by a balanced tree that holds every block exactly once, in address order over disjoint ranges with exact heights; earlier ranges and offsets are untouched |
| BlockIndex.DepthBound | src/netplay/RollbackJournal.cpp:303-321 | with fewer than 2^32 - 1 blocks no search path has 64 ancestors: the fixed array never overflows and its failure exit is unreachable |
| BlockIndex.CoversBlock | src/netplay/RollbackJournal.cpp:428-439 | true exactly when some block of the checkpoint encloses the whole range |
| BlockIndex.IndexedIsDisjoint | src/netplay/RollbackJournal.cpp:303-342 | two blocks of one checkpoint never share an address |
| RollbackJournals.RollbackJournal.Reset | src/netplay/RollbackJournal.cpp:61-76 | accepts exactly the usable configurations; a refusal leaves a cleared journal |
| RollbackJournals.RollbackJournal.BeginFrame | src/netplay/RollbackJournal.cpp:93-136 | begins or extends a checkpoint exactly when the frame follows, else fails the journal; a new checkpoint remembers the memory of this moment and displaces at most the oldest one; the undo promise for every retained checkpoint is kept |
| JournalState.BeginsExactly | src/netplay/RollbackJournal.cpp:95-116 | in every reachable journal a new checkpoint begins exactly at a frame after all retained ones, an extension exactly at the next frame of the newest; any other frame fails the journal |
| RollbackJournals.RollbackJournal.EndFrame | src/netplay/RollbackJournal.cpp:417-426 | seals the checkpoint exactly when one is open, nothing failed and no capture window is open |
| RollbackJournals.RollbackJournal.Write | include/eagler/netplay/RollbackJournal.hpp:35-46 | a write of the program to a byte the newest checkpoint covers keeps every undo promise; writing touched bytes outside a capture window is the program's side of the contract |
| RollbackJournals.RollbackJournal.BeginReadOnlyCapture | src/netplay/RollbackJournal.cpp:148-158 | opens the window exactly when a checkpoint is open, nothing failed and no window is open |
| RollbackJournals.RollbackJournal.EndReadOnlyCapture | src/netplay/RollbackJournal.cpp:160-169 | after the window closes every block of every checkpoint holds the bytes an immediate copy would have stored, even after a refused touch |
| RollbackJournals.RollbackJournal.FlushReadOnlyCapture | src/netplay/RollbackJournal.cpp:171-204 | copies exactly the outstanding large blocks of the window and moves the counters accordingly |
| JournalState.FlushedIsGood | src/netplay/RollbackJournal.cpp:171-204 | a flush leaves nothing outstanding in blocks or bytes and every block as an immediate copy would have it; deferred stays copied plus pending in both |
| JournalState.EarlierNotRecopied | src/netplay/RollbackJournal.cpp:189-196 | whatever the memory has become, a flush leaves every stored byte of the blocks accepted before the window's first outstanding one as it was |
| JournalState.FlushCounts | src/netplay/RollbackJournal.cpp:197-201 | a flush counts itself and exactly the blocks and bytes that were outstanding, keeps the largest flush, and leaves what was deferred |
| RollbackJournals.RollbackJournal.EnsureByteCapacity | src/netplay/RollbackJournal.cpp:206-232 | refuses beyond the budget; else the arena grows by doubling within the budget after draining the window, so that every accepted byte moves along; the loop ends |
| RollbackJournals.RollbackJournal.Touch | src/netplay/RollbackJournal.cpp:287-415 | accepts exactly an exact duplicate, or a range disjoint from all blocks and within both budgets; a duplicate changes nothing, a fresh range is recorded (its copy deferred if it is large and the window is open), a refusal of an open checkpoint fails the journal and drains the window; the undo promises are kept |
| JournalState.TouchedCovers | src/netplay/RollbackJournal.cpp:374-387 | after an accepted fresh touch the newest checkpoint covers exactly what it covered before and the new range |
| RollbackJournals.RollbackJournal.UndoTo | src/netplay/RollbackJournal.cpp:441-491 | succeeds exactly when idle and some retained checkpoint contains the frame; then all of memory is byte for byte what it was when that checkpoint began, that checkpoint and all newer ones are dropped and no other, copied plus skipped bytes are the bytes of the dropped checkpoints, and all this with or without coalescing; a refusal changes nothing |
| RollbackJournals.RollbackJournal.Overwritten | src/netplay/RollbackJournal.cpp:463-473 | a block is skipped exactly when an older checkpoint that is also being restored encloses it |
| RollbackJournals.RollbackJournal.FindFrame | src/netplay/RollbackJournal.cpp:506-515 | the first retained checkpoint whose frames include the frame, or none |
| RollbackJournals.RollbackJournal.DiscardBefore | src/netplay/RollbackJournal.cpp:493-504 | forgets exactly the leading checkpoints that ended before the frame, and nothing while one is open; the rest can still be undone |
| RollbackJournals.RollbackJournal.Clear | src/netplay/RollbackJournal.cpp:78-91 | closes an open window first and forgets every checkpoint |
| Ring.SlotIsRemainder | src/netplay/RollbackJournal.cpp:143-146 | the conditional subtraction used for ring positions is the remainder modulo the ring size |
| PoolJournals.PartitionedPoolJournal.Reset | include/eagler/netplay/PartitionedPoolJournal.hpp:40-59 | accepts exactly parts that follow one another and fill an item, and at least one checkpoint |
| PoolJournals.PartitionedPoolJournal.BeginFrame | include/eagler/netplay/PartitionedPoolJournal.hpp:69-92 | begins or extends a checkpoint exactly when the frame follows; the pool of this moment is remembered; every promise is kept |
| PoolJournals.BeginsExactly | include/eagler/netplay/PartitionedPoolJournal.hpp:69-92 | in every reachable journal a new checkpoint begins exactly at a frame after all retained ones, an extension exactly at the next frame of the newest; any other frame fails the journal |
| PoolJournals.PartitionedPoolJournal.Touch | include/eagler/netplay/PartitionedPoolJournal.hpp:94-104 | refuses, and fails, exactly when nothing is open or something is out of range; else the checkpoint has saved the wanted parts too, each at most once |
| PoolJournals.SavedExactly | include/eagler/netplay/PartitionedPoolJournal.hpp:196-207 | after an accepted touch or capture exactly the keys saved before and the wanted ones are saved |
| PoolRecord.WantedExactly | include/eagler/netplay/PartitionedPoolJournal.hpp:198-204 | the wanted keys of an item are exactly the parts its mask names |
| PoolRecord.AllWantedExactly | include/eagler/netplay/PartitionedPoolJournal.hpp:108-119 | of all items together a part is wanted exactly when the mask of its own item names it: no item gets the parts of another |
| PoolJournals.PartitionedPoolJournal.CaptureMasks | include/eagler/netplay/PartitionedPoolJournal.hpp:108-119 | the same for all items at once: everything is planned before any byte is copied, and a bad mask fails the journal before anything is planned |
| PoolRecord.PlannedCopy | include/eagler/netplay/PartitionedPoolJournal.hpp:180-187 | merging adjacent regions never changes what a plan copies |
| PoolRecord.PlanKeeps | include/eagler/netplay/PartitionedPoolJournal.hpp:196-207 | planning all wanted keys and copying once leaves the checkpoint able to return the pool to its start, as copying every part when it is touched would |
| PoolRecord.PlanFitsPool | include/eagler/netplay/PartitionedPoolJournal.hpp:219-224 | a checkpoint's used bytes are the sizes of its saved parts, hence at most the size of the pool |
| PoolJournals.PartitionedPoolJournal.EnsureCapacity | include/eagler/netplay/PartitionedPoolJournal.hpp:219-228 | doubling towards the size of the pool ends, and keeps the stored bytes |
| PoolJournals.PartitionedPoolJournal.Write | include/eagler/netplay/PartitionedPoolJournal.hpp:14-18 | a write to a part the newest checkpoint has saved keeps every promise; touching before writing is the program's side of the contract |
| PoolJournals.PartitionedPoolJournal.UndoTo | include/eagler/netplay/PartitionedPoolJournal.hpp:128-157 | restoring oldest first with a coverage mask and merged regions gives the pool of the moment the oldest checkpoint containing the frame began, which is what restoring every checkpoint whole, newest first, gives; exactly it and the newer ones are dropped; copied plus skipped bytes are theirs; a refusal changes nothing |
| PoolState.NewestFirstUndoes | include/eagler/netplay/PartitionedPoolJournal.hpp:135-154 | the plain way, every checkpoint whole from the newest down, arrives at the pool at the target's start |
| PoolState.OldestFirstEnds | include/eagler/netplay/PartitionedPoolJournal.hpp:135-154 | so does the oldest saved value of each part, taken once |
| PoolJournals.PartitionedPoolJournal.DiscardBefore | include/eagler/netplay/PartitionedPoolJournal.hpp:159-163 | forgets exactly the leading checkpoints that ended before the frame; the rest can still be undone |
| PoolJournals.PartitionedPoolJournal.EndFrame | include/eagler/netplay/PartitionedPoolJournal.hpp:121-126 | seals the checkpoint exactly when one is open and nothing failed |
| RollbackCores.RollbackCore.Reset | src/netplay/NetplayCore.cpp:25-48 | accepts exactly the usable configurations and starts with neutral lead-in input for the delay |
| RollbackCores.RollbackCore.ScheduleLocalInput | src/netplay/NetplayCore.cpp:89-101 | stores the capture at its delayed frame and moves the frontier over the contiguous prefix, or refuses a different repeat |
| CoreRun.CapturesExactly | src/netplay/NetplayCore.cpp:89-101 | in every reachable node a capture lands exactly the input delay later: fresh input is stored there and moves the frontier there; a repeat changes nothing and is taken exactly if it says the same |
| RollbackCores.RollbackCore.SubmitRemoteInput | src/netplay/NetplayCore.cpp:138-168 | computes the submission on the state value: result, stored slot, frontier and the earliest pending rollback; the next rows pin each of these by the input and what is known |
| CoreState.SubmitAnswers | src/netplay/NetplayCore.cpp:146-167 | each answer to a sample that is not too old, pinned by the slot that may know it and by what its frame was simulated with: only a wrong prediction asks for a rollback, and only to an earlier frame than one already pending |
| CoreRun.SampleAnswered | src/netplay/NetplayCore.cpp:138-168 | in every reachable node: too old, duplicate exactly if known, accepted exactly if not yet simulated, prediction correct exactly if it equals what was used, rollback otherwise; nothing else moves the pending rollback |
| CoreRun.RollbackIsExact | src/netplay/NetplayCore.cpp:162-167 | in every reachable node a rollback is pending to frame f exactly when f is the earliest recorded frame that some seat's known input contradicts; so a correct prediction never rolls back and no contradiction is missed |
| CoreRun.TruePredictionsRollNothingBack | src/netplay/NetplayCore.cpp:529-543 | a packet whose samples all equal what was predicted leaves no rollback pending |
| RollbackCores.RollbackCore.PredictInput | src/netplay/NetplayCore.cpp:235-276 | predicts from the nearest known earlier input by the rules of each analog mode |
| CoreState.PredictionRepeatsNewest | src/netplay/NetplayCore.cpp:235-276 | the prediction is the held form of the newest known input before the frame within the ring |
| CoreState.PredictionWithoutInput | src/netplay/NetplayCore.cpp:235-276 | with nothing known before it, the prediction is neutral |
| CoreState.RepeatedButtons | src/netplay/NetplayCore.cpp:245-249 | the predicted buttons are the predictable ones of the repeated input, without directions beyond the direction limit; the bomb is never predicted, the other flags are held |
| CoreState.RepeatedAxes | src/netplay/NetplayCore.cpp:253-271 | the predicted mode and axes by mode and distance: a begun touch becomes a delta and stays put, a delta moves on only within its limit, a relative touch only for one frame, everything else is held |
| RollbackCores.RollbackCore.PrepareFrame | src/netplay/NetplayCore.cpp:278-315 | computes the decision on the state value |
| CoreRun.AdvancesExactly | src/netplay/NetplayCore.cpp:278-315 | in every reachable node the next frame can be simulated exactly when the local input is known and every remote frontier is within the rollback limit, or, without prediction, when every seat has confirmed it; then known input is used as it is and exactly the unknown is predicted |
| RollbackCores.RollbackCore.MarkSimulated | src/netplay/NetplayCore.cpp:317-335 | accepts exactly an advancing decision, without prediction only the exact next one, and records it |
| CoreRun.MarkedExactly | src/netplay/NetplayCore.cpp:321-327 | without prediction, in every reachable node a frame is marked exactly when it is the next one, nothing in it is predicted, every seat has confirmed it, and each seat's input is the known one |
| RollbackCores.RollbackCore.RewindSimulationTo | src/netplay/NetplayCore.cpp:337-360 | accepts exactly a complete recorded interval not after the pending rollback, and forgets it |
| CoreRun.RewindSettles | src/netplay/NetplayCore.cpp:354-359 | a rewind that is taken forgets exactly the frames from the target on, and afterwards no rollback is pending and no recorded frame is contradicted by any known input |
| RollbackCores.RollbackCore.AdvanceConfirmedThrough | src/netplay/NetplayCore.cpp:362-374 | moves the frontier over the contiguous known frames and stops at the largest frame |
| RollbackCores.RollbackCore.ConfirmedInputs | src/netplay/NetplayCore.cpp:381-399 | yields a row exactly when the frame is simulated, before any pending rollback, and confirmed with the used value for every seat; the next rows say when that is so |
| CoreRun.RowExactly | src/netplay/NetplayCore.cpp:384-396 | in every reachable node the row exists exactly when the frame is recorded and not newer than the simulation, no rollback is pending to it or before it, and every seat's input is confirmed and still stored; the comparison with what was used then never fails |
| CoreRun.RowIsThere | src/netplay/NetplayCore.cpp:381-399 | availability: a frame within the rollback limit of the newest one ever simulated, simulated, settled and confirmed for every seat, can be read, and the row is what is known of every seat |
| RollbackCores.RollbackCore.BuildInputPacket | src/netplay/NetplayCore.cpp:429-467 | the redundant window from the first unacknowledged frame, up to 32 samples or the first gap |
| RollbackCores.RollbackCore.ApplyInputPacket | src/netplay/NetplayCore.cpp:469-547 | computes the application on the state value; a refused packet changes nothing at all |
| CoreRun.AcceptedExactly | src/netplay/NetplayCore.cpp:472-521 | any packet at all, honest or not, is accepted exactly when it is for this core, reaches less than a ring ahead and acknowledges nothing unscheduled, and each of its samples is well-formed and either too old or free to take its slot without contradicting what is known |
| CoreRun.ConflictExactly | src/netplay/NetplayCore.cpp:513-520 | a refusal is reported as a conflict exactly when the first sample that may not come is well-formed, has room, and contradicts what is known; otherwise as an invalid player |
| CoreState.ReportsWorst | src/netplay/NetplayCore.cpp:529-545 | an accepted packet reports the worst answer to any of its samples: too old, then rollback, then prediction correct, then accepted, then duplicate |
| CoreState.WholeOrNothing | src/netplay/NetplayCore.cpp:487-546 | for any packet whatever, a refusal leaves the core as it was, and once validation has passed the commit loop never fails: every sample passed, and the loop ran to its end |
| RollbackCores.RollbackCore.ConfirmedThroughAllRemotes | src/netplay/NetplayCore.cpp:216-233 | the least remote frontier, or none if one has none |
| RollbackCores.RollbackCore.AcknowledgedLocalThroughAllRemotes | src/netplay/NetplayCore.cpp:416-427 | the least acknowledged frame, or none if a peer has acknowledged nothing |
| CoreRun.StepKeeps | src/netplay/NetplayCore.cpp:65-547 | every driver step, with any packet from any sender, keeps the invariant: each retained simulated frame used every input known for it or lies at or after the pending rollback; rings agree with the write-once logs, frontiers are exact; the logs only grow |
| CoreRun.OneValuePerFrame | src/netplay/NetplayCore.cpp:469-547 | in any run, even with a dishonest sender and across rewinds, no frame of any player ever shows two values |
| CoreRun.NothingGoesBack | src/netplay/NetplayCore.cpp:362-374 | a slot's frame number never decreases, a frontier never decreases and is always exactly the end of the contiguous known prefix |
| CoreRun.NoHole | src/netplay/NetplayCore.cpp:299-309 | with no rollback pending, known input of the next frame is still in the ring: the corruption exit inside confirmed history is never taken |
| CoreRun.RewindPossible | src/netplay/NetplayCore.cpp:337-353 | a pending rollback can always be carried out, and lies above the last simulated frame ever minus the rollback limit |
| CoreRun.SimulateKeeps | src/netplay/NetplayCore.cpp:278-335 | simulating the decided next frame is always accepted and keeps the invariant |
| CoreRun.SubmitKeeps | src/netplay/NetplayCore.cpp:138-168 | a sample that passed validation never conflicts; new input enters the log once, and a wrong prediction lowers the pending rollback to its frame |
| CoreRun.ConfirmedRowIsActual | src/netplay/NetplayCore.cpp:381-399 | a confirmed row is the known actual input of every seat |
| PeerProtocol.HistoryKeeps | src/netplay/NetplayCore.cpp:429-547 | in every reachable state of two or three honest peers over a lossy, duplicating, reordering network: each peer's record of an acknowledgement is at most what that peer has confirmed, every packet ever sent tells the truth, every remote log is part of the owner's |
| PeerProtocol.NoDesync | src/netplay/NetplayCore.cpp:381-399 | any two peers that can read a confirmed row, each at any moment of a history, read the same row, and it is what every seat scheduled |
| PeerProtocol.RowIsScheduled | src/netplay/NetplayCore.cpp:381-399 | a confirmed row holds, for every seat, what that seat itself scheduled |
| PeerProtocol.RowIsRead | src/netplay/NetplayCore.cpp:381-399 | the rows that agree are there: in any history a peer within its rollback limit, settled and confirmed at a frame, reads its row, and each entry is what that seat scheduled |
| DelayedDuplicate.InStepReads | src/netplay/NetplayCore.cpp:381-399 | two peers in step both read the row of the frame they have just simulated, and read the same |
| PeerProtocol.UnacknowledgedBound | src/netplay/NetplayCore.cpp:284-298 | captured minus acknowledged local frames never exceed the two leads (rollback limit, delay and one) together |
| PeerProtocol.NoUnacknowledgedEviction | src/netplay/NetplayCore.cpp:65-74 | with both leads together at most a ring, every unacknowledged local input is still in the ring with its value |
| PeerProtocol.WindowBegins | src/netplay/NetplayCore.cpp:443-453 | in every reachable world and with any settings: a peer's newest packet begins right after the last acknowledged frame if and only if, before the first acknowledgement, the newest frame is below 32, and afterwards at most 256 frames are unacknowledged |
| PeerProtocol.WindowIsComplete | src/netplay/NetplayCore.cpp:443-465 | it carries every unacknowledged input if and only if there are at most 32 of them |
| PeerProtocol.TightWindow | src/netplay/NetplayCore.cpp:443-465 | with both leads together at most 32 that is always so: nothing is skipped |
| LongDelay.FirstPacketBeginsLate | src/netplay/NetplayCore.cpp:443-446 | with a delay of 32 frames or more the very first packet of a session begins after frame 0, at the delay less 31 |
| LongDelay.FirstPacketAt33 | src/netplay/NetplayCore.cpp:443-446 | with a delay of 33 it begins at frame 2 |
| LongDelay.NothingIsHeard | src/netplay/SessionChannel.cpp:177-181 | in every history of such a peer whose sends reach the frame of a capture: no packet carries its frame 0, nobody confirms or acknowledges any of its frames, the others have no confirmed row and never simulate as many frames as they may run ahead, and the peer itself stops soon after |
| PeerProtocol.DeliveryAdvances | src/netplay/NetplayCore.cpp:494-546 | with both leads together at most 32, a delivered packet leaves its receiver confirmed through the packet's last frame, however late it comes |
| PeerProtocol.HonestDelivery | src/netplay/NetplayCore.cpp:498-521 | with any settings, an honest packet is accepted whole if and only if it reaches less than a ring past the receiver's simulation and the slot of none of its unexpired frames holds another frame that the receiver may still roll back to or that is the sender's frontier |
| PeerProtocol.RoomyDelivery | src/netplay/NetplayCore.cpp:498-521 | with both leads and the receiver's rollback limit together under a ring, that is so if and only if none of its frames is overtaken: not expired, while its slot already holds a later frame |
| DelayedDuplicate.HonestPacketRefused | src/netplay/NetplayCore.cpp:498-510 | a run of honest peers in which a late duplicate of an honest packet is refused |
| RunAhead.NextFrameRefused | src/netplay/NetplayCore.cpp:504-510 | a run of honest peers in which the packet with the next frame its receiver waits for is refused, on its first arrival, with no frame of it overtaken |
| PeerProtocol.RetirementIsSafe | src/netplay/SessionChannel.cpp:476-482 | when a peer may retire at a frame, every peer holds all its inputs through that frame and it holds all of theirs, with the scheduled values |
| PeerProtocol.TerminalAckSuffices | src/netplay/SessionChannel.cpp:490-502 | the cached terminal acknowledgement of a retired peer is accepted at every later moment of the history, and it alone lifts both frontiers of the slower peer for that peer to the terminal frame; no input is needed |
| SessionChannels.SessionChannel.SendInputs | src/netplay/SessionChannel.cpp:125-216 | computes the send on the channel value: postponed, idle, or one turn for each peer with ordinary and repair copies; the next rows say which, when and to whom |
| ChannelState.SentNowGives | src/netplay/SessionChannel.cpp:173-215 | a send that is not postponed hands each other peer its own packet once on the ordinary lane exactly when the transport is not blocked, and once on the repair lane, blocked or not, exactly when the packet has inputs or the peer needs an acknowledgement and the interval since its last repair or frontier change is over |
| ChannelState.EachOnce | src/netplay/SessionChannel.cpp:174-212 | what a turn leaves on record: the next sequence number, the frontier seen, and the time of the last repair or frontier change, for that peer alone |
| ChannelState.ResendsWhenDue | src/netplay/SessionChannel.cpp:129-131 | the resend timer: an unforced, undeferred send that is not postponed sends exactly when the interval is over and sets the next one; before that nothing changes and nothing is sent |
| ChannelState.LostIsResent | src/netplay/SessionChannel.cpp:125-216 | in every reachable state of the honest peers the timer hands every other peer, on the ordinary lane, its newest packet each time the interval is over, so a lost packet is replaced without another capture |
| ChannelState.PostponedExactly | src/netplay/SessionChannel.cpp:138-171 | a send is postponed exactly when the title allows it, the lane is open and free, no phase sampling is on, no peer's window is full and no peer's repair is due; postponing changes nothing but the noted frontiers |
| ChannelState.PacketHeads | src/netplay/SessionChannel.cpp:177-186 | the sender frame, acknowledgement, sequence numbers and the advantage over the peer, clamped to sixteen signed bits |
| SessionChannels.SessionChannel.FlushDeferredInputs | src/netplay/SessionChannel.cpp:218-226 | computes the flush on the channel value; a reversed clock fails it |
| ChannelState.FlushRefuses | src/netplay/SessionChannel.cpp:218-226 | without a postponed send a flush does nothing; with the clock going back it fails and sends nothing |
| SessionChannels.SessionChannel.LocalCaptured | src/netplay/SessionChannel.cpp:228-245 | computes the notice on the channel value: refusals, the flush before a jump, and the send |
| ChannelState.CaptureIsSent | src/netplay/SessionChannel.cpp:236-244 | a new capture is sent at once on the lanes that are due and restarts the timer, a repeated one only when the timer is over |
| ChannelState.NotedRefuses | src/netplay/SessionChannel.cpp:231-235 | a notice out of session, without input, going back, or with the clock going back sends nothing and fails the channel with the reason |
| ChannelState.PostponedOnce | src/netplay/SessionChannel.cpp:137-175 | postponing sends nothing and uses no sequence number, never happens while one send is postponed already, and is ended by a real send, which uses exactly one number for each peer |
| ChannelState.DeferredSendLosesNothing | src/netplay/SessionChannel.cpp:137-245 | in every reachable state: when a send is postponed and, after any rewinding and simulating, the next capture is announced, the send succeeds and hands every peer exactly one ordinary packet, which carries the postponed inputs plus the new one behind them within 32 samples, the same acknowledgement and the number the postponed packet would have had; nothing stays postponed |
| ChannelState.FlushSendsPostponed | src/netplay/SessionChannel.cpp:218-226 | flushing hands every peer exactly the packet that was postponed |
| ChannelState.JumpFlushes | src/netplay/SessionChannel.cpp:237-241 | a capture that is not the next one flushes first, before anything else is sent |
| SessionChannels.SessionChannel.CanRetire | src/netplay/SessionChannel.cpp:476-482 | the two frontier minima reach the terminal frame exactly when every peer has settled it in both directions |
| SessionChannels.SessionChannel.Retire | src/netplay/SessionChannel.cpp:484-514 | computes the retirement on the channel value: refusals, the cached answers, and the first sending of them |
| ChannelState.RetiresExactly | src/netplay/SessionChannel.cpp:487-513 | a session retires exactly when it may, the clock does not go back and no earlier session is still being answered; a refusal sends nothing |
| SessionChannels.SessionChannel.SendRetired | src/netplay/SessionChannel.cpp:375-413 | computes the answers of a retired session on the channel value |
| ChannelState.RetiredAnswers | src/netplay/SessionChannel.cpp:490-513 | a retirement at an open transport hands every peer its terminal acknowledgement |
| ChannelState.KeepsAnswering | src/netplay/SessionChannel.cpp:375-413 | until a peer begins the next session, every due sending hands it the same acknowledgement again |
| ChannelState.AnswersEnd | src/netplay/SessionChannel.cpp:378-385 | once no peer needs an answer the next sending forgets the retired session and sends nothing |
| ChannelState.AnswersWait | src/netplay/SessionChannel.cpp:386-405 | no answer is repeated before it is due, while the transport is closed, or to a peer that has moved on; each one is the cached acknowledgement |
| SessionChannels.SessionChannel.PeerBegan | src/netplay/SessionChannel.cpp:319 | a peer's first packet of the next session ends the answers to it, and to it alone |
| StageStream.EventKeeps | include/eagler/netplay/SpectatorStageHistory.hpp:20-46 | an accepted event keeps the history a chain of segments in stream order |
| StageStream.LocatedExactly | include/eagler/netplay/SpectatorStageHistory.hpp:58-62 | a frame is found exactly when it lies between the first checkpoint and the end received, and then in the one segment that owns it |
| SpectatorStagePublishers.SpectatorStagePublisher.Reset | include/eagler/netplay/SpectatorStagePublisher.hpp:54-63 | accepts exactly a valid identity and starts an empty stream at the first frame; a refusal changes nothing |
| SpectatorStageHistories.SpectatorStageHistory.AcceptEvent | include/eagler/netplay/SpectatorStageHistory.hpp:20-46 | accepts exactly what the stream value admits, and becomes it; a refusal changes nothing |
| SpectatorStageHistories.SpectatorStageHistory.AcceptInput | include/eagler/netplay/SpectatorStageHistory.hpp:47-57 | accepts exactly the next confirmed input of the session within the limits and stores it; a refusal changes nothing |
| StoredStream.HistoryIsStream | include/eagler/netplay/SpectatorStageHistory.hpp:20-57 | an accepted stream is stored as it came: the inputs of the segments, one after another, are the packets of the stream, their checkpoints and nodes are its events, and the frame and byte counts and the end are those of the stream |
| StoredStream.StoredAt | include/eagler/netplay/SpectatorStageHistory.hpp:47-62 | the input of any frame of any segment is the packet of the stream at that frame's distance from the first checkpoint |
| StoredStream.InOrderExactly | include/eagler/netplay/SpectatorStageHistory.hpp:20-57 | a stream is accepted exactly when each item fits what comes before it: the frame, serial, stage, identity, checkpoint and room it must have, stated on the items alone |
| SpectatorStageHistories.SpectatorStageHistory.Locate | include/eagler/netplay/SpectatorStageHistory.hpp:58-62 | the newest segment that contains the frame |
| SpectatorStagePublishers.SpectatorStagePublisher.Record | include/eagler/netplay/SpectatorStagePublisher.hpp:89-107 | stores a frame exactly when it is new enough, and otherwise only says whether it agrees; nothing published and nothing under way is ever amended |
| SpectatorStagePublishers.SpectatorStagePublisher.NeedsCheckpoint | include/eagler/netplay/SpectatorStagePublisher.hpp:69-88 | decides from the contiguous pending records alone, with all four answers |
| SpectatorStagePublishers.SpectatorStagePublisher.Publish | include/eagler/netplay/SpectatorStagePublisher.hpp:108-153 | for any pattern of send failures and missing inputs: appends to what was sent, resumes where it stopped, names a failure that explains it, and keeps the stream in order |
| SpectatorStagePublishers.SpectatorStagePublisher.Finish | include/eagler/netplay/SpectatorStagePublisher.hpp:154-160 | ends the stream exactly at a frame boundary with a checkpoint out, if the send succeeds |
| Broadcast.ExactlyOnce | include/eagler/netplay/SpectatorStagePublisher.hpp:89-160 | between any two calls what has been sent is accepted item by item by a fresh history up to its limits, its serials rise strictly, and it carries each frame's input once, in order from the first frame |
| StoredStream.ViewerReplaysShown | include/eagler/netplay/SpectatorStagePublisher.hpp:116-151 | end to end: every input a viewer finds in what was sent, at any frame of any segment, is the input of that frame as the publisher was shown it |
| StoredStream.SentCheckpoints | include/eagler/netplay/SpectatorStagePublisher.hpp:120-126 | the k-th checkpoint sent carries the frame, stage, schema and initializer of the k-th frame that has one |
| StoredStream.SentMarks | include/eagler/netplay/SpectatorStagePublisher.hpp:143-149 | the k-th boss mark sent carries the following frame and the boss slots of the k-th frame shown that has bosses |
| Broadcast.RenderCollects | include/eagler/netplay/SpectatorStagePublisher.hpp:116-151 | the stream of any publishable frames is in order for a fresh history |
| Broadcast.InputsOnceInOrder | include/eagler/netplay/SpectatorStageHistory.hpp:47-57 | whatever a history accepts in order carries every input exactly once, frame after frame |
| Broadcast.AcceptedUpToLimits | include/eagler/netplay/SpectatorStageHistory.hpp:33-56 | a stream in order is accepted exactly as long as it stays within the byte and frame limits |
| PlaybackState.StepKeeps | include/eagler/netplay/SpectatorStagePlayback.hpp:44-79 | after any step the world is the restored segment's initializer folded over exactly its inputs up to the position; the viewer fails only when the reference replay of the segment it is to show stops there, never by the locate or mismatch tests |
| PlaybackState.SeekEndsAtTarget | include/eagler/netplay/SpectatorStagePlayback.hpp:44-79 | a seek ends, whatever the path, at its latched target showing the replay of the segment that owns it, or is still bound for it, or the replay cannot be carried out |
| PlaybackState.SeekArrives | include/eagler/netplay/SpectatorStagePlayback.hpp:44-79 | with budget and time enough one step arrives |
| PlaybackState.HomesMeet | include/eagler/netplay/SpectatorStagePlayback.hpp:59-71 | two viewers at the same frame in different segments are in neighbours, at the first frame of the later one: one shows the earlier segment replayed to its end, the other what the later checkpoint restores |
| PlaybackState.SamePositionSameWorld | include/eagler/netplay/SpectatorStagePlayback.hpp:59-74 | two viewers at the same frame show different worlds if and only if they stand on either side of such a seam and the two worlds of the seam differ |
| SeamViewers.ViewersDiffer | include/eagler/netplay/SpectatorStagePlayback.hpp:44-79 | two viewers of one received stream, brought to the same frame by a bootstrap and by a seek and a tick, that show different worlds and stay there |
| SpectatorStagePlaybacks.SpectatorStagePlayback.ReceiveEvent | include/eagler/netplay/SpectatorStagePlayback.hpp:13-23 | accepts what the history accepts and leaves the viewer alone, or one bootstrap that matches all that was received, which sends the viewer to the newest node or the checkpoint of the last segment; a refusal changes nothing |
| SpectatorStagePlaybacks.SpectatorStagePlayback.ReceiveInput | include/eagler/netplay/SpectatorStagePlayback.hpp:24 | accepts what the history accepts, and leaves the viewer's world where it is |
| SpectatorStagePlaybacks.SpectatorStagePlayback.Control | include/eagler/netplay/SpectatorStagePlayback.hpp:25-40 | pause, play, seek and live as the player value has them; a seek beyond the edge or outside the stream is refused and changes nothing |
| SpectatorStagePlaybacks.SpectatorStagePlayback.Request | include/eagler/netplay/SpectatorStagePlayback.hpp:101-110 | latches the target of a located frame, and rebuilds only when it must |
| PlaybackState.RequestLatches | include/eagler/netplay/SpectatorStagePlayback.hpp:101-110 | what a granted request latches, and that it rebuilds exactly if nothing was restored, the frame lies behind, or it lies in another segment |
| PlaybackState.EdgeLags | include/eagler/netplay/SpectatorStagePlayback.hpp:80-84 | a viewer stays ninety frames behind what was received, or at the start while there are fewer; after the end it may go to the end |
| SpectatorStagePlaybacks.SpectatorStagePlayback.Step | include/eagler/netplay/SpectatorStagePlayback.hpp:44-79 | computes the step on the player value, and keeps its world the reference replay; a failure is a replay that stops |
| PlaybackState.PausedStays | include/eagler/netplay/SpectatorStagePlayback.hpp:45 | a paused viewer that is not seeking keeps its position, its world and everything else |
| PlaybackState.PlaysByBudget | include/eagler/netplay/SpectatorStagePlayback.hpp:53-77 | a playing viewer with time enough advances by exactly its budget, or to the edge if that is nearer, unless the replay stops |
| PlaybackState.ArrivalFollows | include/eagler/netplay/SpectatorStagePlayback.hpp:54-58 | a viewer starts or stops following the live edge only by arriving, and follows exactly if it went there to go live |
| InputReplays.InputReplay.Begin | src/netplay/InputReplay.cpp:67-75 | accepts exactly valid metadata; a refusal changes nothing |
| InputReplays.InputReplay.Append | src/netplay/InputReplay.cpp:77-96 | accepts exactly the next frame with valid samples and a chapter that continues or is new; a refusal changes nothing |
| InputReplays.AppendsExactly | src/netplay/InputReplay.cpp:80-91 | a frame is taken exactly when it is the next one and the result is again a recording that the strict reader accepts |
| InputReplays.AppendsAsGiven | src/netplay/InputReplay.cpp:84-95 | the recording then ends with exactly the given inputs under the given label, with a new chapter exactly when the label is new; all earlier frames and chapters stay |
| InputReplays.InputReplay.Encode | src/netplay/InputReplay.cpp:159-198 | prints exactly the file of the first frames with the chosen description |
| InputReplays.ExcerptIsRead | src/netplay/InputReplay.cpp:163-197 | reading an encoded excerpt gives back exactly the chosen frames, the chapters that begin among them, the configuration, and the description that was given instead |
| InputReplays.Inspect | src/netplay/InputReplay.cpp:108-143 | accepts exactly the byte strings of the format, with the metadata and chapters that reading them gives |
| ReplayLayout.HeaderStands | src/netplay/InputReplay.cpp:110-125 | where each field of the header of an accepted file stands, its checksum, its exact length, and the description behind it |
| ReplayLayout.ChapterStands | src/netplay/InputReplay.cpp:126-130 | where the label and the first frame of each chapter stand |
| ReplayLayout.FrameStands | src/netplay/InputReplay.cpp:48-59 | where each sample stands, by frame and seat, and how buttons, mode, flags and axes stand in its twelve bytes |
| InputReplays.InputReplay.Decode | src/netplay/InputReplay.cpp:145-157 | becomes exactly the recording read, or refuses and changes nothing |
| InputReplays.InputReplay.FrameAt | src/netplay/InputReplay.cpp:98-101 | the recorded row of a frame, exactly when there is one |
| InputReplays.AppendKeeps | src/netplay/InputReplay.cpp:77-96 | whatever has been appended can be printed and reads back as itself |
| ReplayFormat.PrintedIsRead | src/netplay/InputReplay.cpp:108-198 | every valid recording prints as a file that is accepted and reads back as the same metadata, chapters and bit-exact samples |
| ReplayFormat.ReadIsPrinted | src/netplay/InputReplay.cpp:108-198 | every accepted byte string prints as itself |
| InputReplays.EncodedIsDecoded | src/netplay/InputReplay.cpp:145-198 | decoding an accepted file and encoding all of it gives the file back |
| ReplayFormat.PrefixIsRead | src/netplay/InputReplay.cpp:164-197 | the file of the first frames reads back as those frames with exactly the chapters that begin among them |
| ReplayFormat.CorruptionIsDetected | src/netplay/InputReplay.cpp:120-124 | replacing any one byte of an accepted file of any length by another value makes it rejected |
| ReplayFormat.StepInjective | src/netplay/InputReplay.cpp:33-34 | each FNV-1a step is injective modulo 2^32 in the running hash and in the byte |
| KnownHash.StepIsFnv | src/netplay/InputReplay.cpp:33-34 | a step flips in the lowest byte exactly the bits set in the input, keeps the others, and multiplies by 16777619 modulo 2^32 |
| KnownHash.XorBitwise | src/netplay/InputReplay.cpp:34 | the arithmetic exclusive or is bitwise |
| KnownHash.KnownHashes | src/netplay/InputReplay.cpp:32-34 | the published values of the 32-bit hash: 0x811C9DC5 for no byte and 0xE40C292C for "a" |
| AdonisStartups.AdonisStartup.Begin | include/eagler/netplay/AdonisStartup.hpp:35-48 | accepts exactly valid configurations and starts the first attempt |
| AdonisStartups.AdonisStartup.Tick | include/eagler/netplay/AdonisStartup.hpp:54-141 | computes the pump on the peer value: state and the set of packets sent |
| AdonisRules.ClockReversed | include/eagler/netplay/AdonisStartup.hpp:268-270 | a clock going back fails the peer and sends nothing |
| AdonisRules.GivesUp | include/eagler/netplay/AdonisStartup.hpp:59-64 | a broken connection, ninety seconds in all or forty-five alone make the peer unavailable for that reason in that order, and it says so at once if the transport is open |
| AdonisRules.ClientAsksAgain | include/eagler/netplay/AdonisStartup.hpp:65-81 | an interrupted, timed-out or cut-off client keeps its attempt, asks the host for another one at once and again after 200 milliseconds |
| AdonisRules.HostStartsOver | include/eagler/netplay/AdonisStartup.hpp:69-71 | the host instead begins the next attempt with nothing known and announces it, or, after three, gives up as exhausted |
| AdonisRules.MeasuringBegins | include/eagler/netplay/AdonisStartup.hpp:88-99 | measuring begins exactly when everyone has greeted, with the first probe a second later; a greeting goes out whenever it is due |
| AdonisRules.ProbesWhenDue | include/eagler/netplay/AdonisStartup.hpp:100-106 | a probe goes to each other peer exactly when it is due, with the next number, at most 129; it is recorded for those it reached, and the next is due 16 milliseconds later |
| AdonisRules.SummaryIsRepeated | include/eagler/netplay/AdonisStartup.hpp:127-138 | until every summary is known a peer repeats its own exactly when it is due |
| AdonisRules.Concludes | include/eagler/netplay/AdonisStartup.hpp:128-138 | with every summary: too long a choice ends the calibration, the host proposes until all have accepted and then commits exactly when the transport takes it, a client repeats its acceptance exactly if it has accepted |
| AdonisRules.RepeatsWhenDue | include/eagler/netplay/AdonisStartup.hpp:74-87 | a stopped peer, a client that wants another attempt, and a committed host with acknowledgements missing for five seconds repeat exactly that, exactly when due |
| AdonisStartups.AdonisStartup.Receive | include/eagler/netplay/AdonisStartup.hpp:142-216 | computes the delivery on the peer value, with every failure and every packet it answers |
| AdonisRules.ProbesAreAnswered | include/eagler/netplay/AdonisStartup.hpp:179-189 | a greeting is noted, a probe is echoed to its sender, and exactly the first timely echo of a slot that counts is its round trip |
| AdonisRules.SummariesAreStored | include/eagler/netplay/AdonisStartup.hpp:190-200 | a well-formed summary is stored once; exactly a malformed or changed one fails the peer |
| AdonisRules.DecisionsCount | include/eagler/netplay/AdonisStartup.hpp:201-215 | each decision's effect and answer by sender and receiver, and that a choice other than the determined one fails the peer |
| AdonisRules.SteeringCounts | include/eagler/netplay/AdonisStartup.hpp:163-175 | when a stop, a restart or a request for another attempt takes effect |
| AdonisState.ChoiceCovers | include/eagler/netplay/AdonisStartup.hpp:223-231 | the full delay is the least number of frames, at least one, that lasts half the worst round trip; an automatic choice splits it between queueing and prediction, a requested delay is kept; in hybrid mode the prediction is the greatest allowed: the whole reserve, or all but one queued frame of an automatic delay, or all that a requested one covers; otherwise none |
| AdonisState.WorstIsGreatest | include/eagler/netplay/AdonisStartup.hpp:296-300 | the choice is made from the greatest of all measured percentiles |
| AdonisState.PublishedIsValid | include/eagler/netplay/AdonisStartup.hpp:109-126 | the report made from any plausible samples passes every test its receivers make |
| AdonisRules.SlotsExactly | include/eagler/netplay/AdonisStartup.hpp:112 | the samples of a link are exactly the recorded round trips of the slots that count |
| AdonisRules.ReportsLink | include/eagler/netplay/AdonisStartup.hpp:117-121 | the report of a link from its sorted round trips: number, least, greatest, and the value at or the mean of the two values beside the position that 95 of 100 others do not exceed |
| AdonisRules.WorstLinkExactly | include/eagler/netplay/AdonisStartup.hpp:110-123 | the measurement fails exactly when some link has fewer than 96 samples; otherwise the report is that of a link whose percentile no other exceeds |
| AdonisRules.MeasurementEnds | include/eagler/netplay/AdonisStartup.hpp:109-126 | the measurement ends exactly 216 milliseconds after the last of 129 probes: in another attempt when a link is bad, else in a report that is published at once |
| AdonisAgreement.PumpKeeps | include/eagler/netplay/AdonisStartup.hpp:54-141 | every pump of an honest peer keeps the invariant of the calibrating peers |
| AdonisAgreement.DeliveryKeeps | include/eagler/netplay/AdonisStartup.hpp:142-216 | so does every delivery of any packet ever sent, late, repeated or out of order |
| AdonisAgreement.Agreement | include/eagler/netplay/AdonisStartup.hpp:127-139 | in every run with loss, repetition, delay and restarts: all committed peers have the same attempt and the same choice, a committed host has the acceptance of every client for that attempt, a committed client's host is committed, and no honest peer ever fails |
| CommitRun.BothCommit | include/eagler/netplay/AdonisStartup.hpp:54-216 | agreement is not vacuous: from any start of two peers at time zero, whatever mode, reserve and delay, there is a run in which both commit, with the choice for the round trip measured |
| AdonisAgreement.CommittedCoversWorst | include/eagler/netplay/AdonisStartup.hpp:202-213 | what a committed peer chose covers the worst link that any peer measured in its attempt |

## Findings

| finding | where | condition |
|---|---|---|
| An honest packet can be refused, which ends the session with an input conflict. `DelayedDuplicate.HonestPacketRefused` gives a run with narrow settings: two peers play 256 frames in step, frame 256 arrives, then the first packet once more, with frame 0, which has not expired. `RunAhead.NextFrameRefused` gives one with a rollback limit of 127 and a delay of 1 and no duplicate at all: a peer stops after frame 125, the other goes on, and its frame 256 meets frame 0, which the stopped peer could still roll back to. | src/netplay/NetplayCore.cpp:502-510, src/netplay/SessionChannel.cpp:353 | `PeerProtocol.HonestDelivery`: an honest packet is accepted if and only if it reaches less than a ring past the receiver's simulation (lines 500-501) and no frame f of it collides, that is f has not expired and its slot holds another frame that is at least the oldest recoverable one or is the sender's frontier. All of it can be read off before the call. |
| The redundant window can begin after the first unacknowledged frame: while a peer has acknowledged nothing, only the newest 32 samples are sent. With a delay of 32 frames or more, which `Reset` allows, even the first packet does (`LongDelay.FirstPacketBeginsLate`; with a delay of 33 it begins at frame 2), frame 0 is never sent, and everyone stops, on a perfect network too (`LongDelay.NothingIsHeard`). | src/netplay/NetplayCore.cpp:443-446, src/netplay/SessionChannel.cpp:181 | `PeerProtocol.WindowBegins`: the newest packet begins at the first unacknowledged frame if and only if the newest frame is below 32 before the first acknowledgement, and at most 256 frames are unacknowledged afterwards. `PeerProtocol.WindowIsComplete`: it carries all of them if and only if there are at most 32. |
| At a frame where one segment ends and the next begins, two viewers may show different worlds: the end of the old segment, or what the new checkpoint restores. `SeamViewers.ViewersDiffer` gives two that do, and neither moves again by itself. | include/eagler/netplay/SpectatorStagePlayback.hpp:59-71 | `PlaybackState.SamePositionSameWorld`: if and only if one has come to the end of a segment, the other has installed the next one at its first frame, and replaying the earlier segment to its end does not give what the next checkpoint restores. |

## Left out

- ChannelState.DeferredSendLosesNothing: is about what is handed to an open, unblocked transport, with no packet applied
  between the postponement and the capture; what the network then loses is the business of the peer protocol.
- RollbackCores.RollbackCore.SubmitRemoteInput: direct submission by a title is a method here but no step of the runs,
  which take remote input from packets only.
- SpectatorStagePlaybacks.SpectatorStagePlayback.Step: the tick callback is not told whether the viewer is seeking.
- AdonisStartups.AdonisStartup.Tick: the packets of one call are a set, without their order; a control send succeeds
  for all peers or for none; the 64-byte packet layout is a value.
- `SetLocalLeadInInput`, `ClearRollbackRequest`, `SubmitEquivalentRemoteInput`: they change confirmed or pending input
  outside the packet guard.
- `BeginSession`, `Pump`, `Receive`, `SendSession`, `PumpRetirement` and `FlushRetirementFence` of the session channel:
  handshake and dispatch around the sends and packet applications that are modelled.
- Watchdogs, pacing and phase samples, and how soon anything arrives: the timers are modelled by the clock values the
  calls are given.
- `AddFloatPairToSnapshots`, `BytesForFrame`, `BlocksForFrame`: float arithmetic and plain queries.
- The copies through JavaScript and the memory-size test of the wasm build, and the copy callback of the pool journal:
  every copy is a plain byte copy.
- Checkpoint records and arenas are sequences inside a ring, so aliasing between a record and its arena does not occur.
- Axes of live input are numbers or not finite: -0 equals 0, and the publisher's comparison of two records compares
  values, not encoded bytes.
- Packet and event encodings of the network, and transport counters.
- The percentiles shown for single links, `Replies` and `NextWakeUs`, and the viewer's `WaitingForLiveInput`: queries
  for display.
- Allocation failure and null pointers.
