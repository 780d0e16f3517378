# vox-streaming verification

A Dafny model of the proctoring stream service's hardest parts, with proofs about it:

- **RTP to pictures.** The resequencing buffer, the gap counter and the H.264 depacketizer of the recorder. The buffer is
  modelled twice: over its own 16-bit fields (`ReorderBuffer`) and over unbounded numbers (`Resequencing`), and the first is
  proved to refine the second. The sender's side (`Packetization`, RFC 6184 sections 5.6, 5.7.1, 5.8 and 6.3) is an
  independent description of every well-formed non-interleaved stream. `Recovery` says what is committed after losses, and
  `CachedSets` which parameter sets head a key frame. The wait budget is an input: every push says whether
  it has run out.
- **Peers.** Recorder slots and port groups, signaling generations, the session map, the completeness flag, and the restart
  loop with its ffmpeg processes, forwarders and stop, as steps that interleave freely. A step is what the program does
  without giving up a lock.
- **Owed recordings.** The due-set, the watchdog's sweeps, and everything that arms, disarms or assembles a stream; the
  sweeps are proved to be the watchdog's steps in that interleaving (`WatchdogRefines`).
- **Live rewind.** Tailing ffmpeg's playlist, dating fragments, and the playlist served, read back by an independent player.
- **Uploads.** Coverage reconciliation and the upload-session scripts.

Modules follow the program's components; where a component changes fields in place there is a class whose methods are
proved to do what a function on the fields' value specifies, and the results are proved about that function. Times are
integers (nanoseconds), frame rates exact reals, sequence numbers explicit 16-bit values. Foreign calls (network, storage,
Redis, ffmpeg, clocks) appear as inputs that say how they turn out.

`dafny verify dfyconfig.toml` verifies the whole project.

## Where the code does not do what it says

Each of these is proved, with the exact condition where there is one:

- *Reordering is not always invisible.* The buffer undoes a reordering exactly when no packet is more than 63 positions late
  and none overtakes one numbered 32768 or more before it (`PromptDelivery.InvisibleExactly`). Promptness alone is not
  enough (`ReorderingInvisible.PromptIsNotEnough`).
- *`reorderMaxHold` is not a hard cap.* With 63 packets held, none of them the one after the number waited for, a new one
  beyond it is stored and the give-up frees nothing. The buffer never holds more than 63 packets after a push exactly as
  long as no push meets that guard, and the same goes for every larger cap (`ResequencingBounds.OverfillsExactly`,
  `ResequencingBounds.CapHoldsExactly`); runs that meet it exist (`ResequencingBounds.HoldBoundMet`).
- *A picture with a hole can be committed.* Emitted packets are never more than 32768 numbers apart; exactly 32768 is the one
  distance that the gap counter takes for an out-of-order packet (`LossyStreams.OutOfOrderExactly`,
  `Reception.OrderedPacketMisread`). It then stays behind, and a packet 65537 numbers later reads as the next one, whatever
  is missing before it. Every committed picture is a suffix of an access unit, for every stream, exactly while no hole is
  overlooked in this way (`HiddenHoles.SuffixesExactlyWhenSeen`), which gaps of less than 32768 never are
  (`LossyStreams.ReadableGapsSeen`). A run from the network to such a picture exists (`OverlookedHole.HoleCommitted`).
- *A parameter set built across a lost fragment is published.* `addNAL` caches SPS and PPS before the picture's corruption
  is looked at. From a fresh start, a set cut into fragments leads to a key frame of NALs that were sent exactly when its
  first or its last fragment was lost, so that nothing is cached, or every fragment lost was empty
  (`FragmentedSets.KeyFrameSentExactly`). Where an older set without its last fragment is left over, a set that loses its
  first fragment is spliced to it, and the key frame is sound exactly when the splice happens to equal one of the two
  (`FragmentedSets.SplicedSetPublished`), which an empty lost fragment does not ensure (`FragmentedSets.SplicedSetNeverSent`).
  From any state, `KeyFrames.FragmentsCached` says what is cached. Senders that do not fragment parameter sets are safe
  (`KeyFrames.KeyFramesAreSent`).
- *A bound peer can be closed by its grace timer*: exactly when a connection binds between the timer's check and its close
  and does not let go again (`Signaling.CloseLandsOnBoundExactly`, `Signaling.BoundPeerCanBeClosed`).
- *`StopProcess` can return while ffmpeg runs.* Its comment says the process is dead then and no restart follows. That is so
  exactly unless, when it reads the current recorder, the loop is past its last look at the stop channel: in the backoff,
  whose timer may still win, or starting or publishing the next recorder (`RecorderRuns.ReturnsEarlyExactly`). Some run of
  every configuration gets there (`EarlyReturn.EarlyReturnReached`). The loop itself stops that recorder, and no second one
  starts (`RecorderRuns.StopReachesAll`).
- *An arming can be lost.* One that lands while the watchdog holds a copy of the entry with `a` failures is charged those
  failures: it is undone after 5 - `a` more, so after a single one on the fifth attempt (`AssemblyTriggers.RacingArmIsLost`,
  exactly so by `AssemblyTriggers.ArmingHonouredExactly`).
- *Five attempts need Redis.* One watchdog fails at most five times between armings, and once more for every reschedule and
  every removal after giving up that Redis refuses (`AssemblyTriggers.AttemptsBounded`); while it refuses, there is no bound
  (`AssemblyTriggers.AttemptsUncounted`).
- *Media sequence numbers move after a failed upload*: a fragment keeps its number from one reload to another exactly when no
  upload failed between the fragments that head the two (`LiveTimeline.MediaNumberKeptExactly`).
- *A negative frame count is reported as a low frame rate* and is no part of the median. At most half of the measurable
  segments are slow, and all negative ones besides (`Coverage.SlowExactly`), so that all segments but one can be
  (`Coverage.AllButOneSlow`).
- The comment on `windowFragments` promises at most the window; the loop keeps the fragment that reaches it. The model
  follows the loop.

## Model

| member | source | states |
|---|---|---|
| `SequenceNumbers.UnwrapExact` | internal/recorder/frame_extractor.go:64-67 | the signed 16-bit difference recovers the sender's unbounded number if and only if it is within the half-window |
| `Resequencing.PushEffect` | internal/recorder/frame_extractor.go:55-111 | one push advances past what it emits plus at most one given-up number, keeps pending packets 1..32767 ahead, and leaves exactly what was on hand beyond the new number |
| `Resequencing.PushOutput` | internal/recorder/frame_extractor.go:79-92 | position by position, a push emits the packets on hand under the last numbers below the new one |
| `Resequencing.PushSkipsExactly` | internal/recorder/frame_extractor.go:68-77 | one number is given up exactly when a packet beyond it makes 64 on hand or finds the budget used up |
| `ReorderBuffer.ReorderBuffer.Push` | internal/recorder/frame_extractor.go:55-92 | the method with its map and drain loop does exactly what `Push16` specifies, from an unset buffer as well |
| `ReorderBuffer.ReorderBuffer.GiveUpAndDrain` | internal/recorder/frame_extractor.go:95-111 | gives up one number and drains what follows it, as `GiveUp16` specifies |
| `ReorderBuffer.DrainWraps` | internal/recorder/frame_extractor.go:82-90 | the 16-bit drain loop emits what the unbounded one does, across wraparound |
| `ReorderBuffer.PushWraps` | internal/recorder/frame_extractor.go:55-111 | one 16-bit push refines one unbounded push: same packets out, corresponding buffers afterwards |
| `ReorderBuffer.StartWraps` | internal/recorder/frame_extractor.go:59-62 | the first packet sets the number waited for |
| `ResequencingRuns.OrderedRun` | internal/recorder/frame_extractor.go:30-111 | over every run, the output is read off a trail with one slot per number: emitted packets in increasing order, each number once, and numbers advanced equal emitted plus given up |
| `ResequencingRuns.EmissionsIncrease` | internal/recorder/frame_extractor.go:52-54 | what the trail emits strictly increases in the unbounded numbering |
| `ResequencingRuns.NumberedRun` | internal/recorder/frame_extractor.go:64-73 | packets come out, and are held, under the numbers they were given on arrival |
| `ResequencingRuns.EmittedAsGiven` | internal/recorder/frame_extractor.go:64-92 | every emitted packet is one that was pushed, under the number it was given then |
| `ResequencingRuns.ConservedRun` | internal/recorder/frame_extractor.go:55-111 | every packet pushed is emitted, pending, late or replaced by a duplicate, exactly one of these with multiplicity |
| `ResequencingBounds.ClosedRun` | internal/recorder/frame_extractor.go:55-111 | consecutive emitted packets are at most 32768 numbers apart, and the first packet pushed is the first emitted |
| `ResequencingBounds.HalfCycleGapMet` | internal/recorder/frame_extractor.go:55-111 | runs that emit packets 0 and 32768 one after the other, so the bound on gaps is met |
| `ResequencingBounds.HoldBound` | internal/recorder/frame_extractor.go:73-75 | after any push at most 63 packets are held plus one per give-up that drained nothing |
| `ResequencingBounds.OverfillsExactly` | internal/recorder/frame_extractor.go:70-111 | for every limit from 63 on, a push takes the buffer past it if and only if that many packets are held, the new one is not among them and lies two or more beyond the number waited for, and the one after that number is missing |
| `ResequencingBounds.CapHoldsExactly` | internal/recorder/frame_extractor.go:47-50 | a run keeps the limit after every push if and only if no push meets that guard |
| `ResequencingBounds.HoldBoundMet` | internal/recorder/frame_extractor.go:47-50 | that bound is met by a family of runs, so `reorderMaxHold` is not a hard cap |
| `ReorderingInvisible.Delivery.InOrderRun` | internal/recorder/frame_extractor.go:30-39 | a consecutive run whose packets arrive at most 63 positions late, overtaking nothing numbered 32768 or more before them, comes out exactly in order with nothing left pending |
| `ReorderingInvisible.Delivery.InvisibleExactlyWhenNear` | internal/recorder/frame_extractor.go:30-39 | for prompt deliveries of distinct packets, the output is the run sent if and only if no packet overtakes one numbered 32768 or more before it |
| `PromptDelivery.InvisibleExactly` | internal/recorder/frame_extractor.go:30-39 | for deliveries of distinct packets, the lowest numbered one first and no expired budget, the output is the run sent if and only if no packet is more than 63 positions late and none overtakes one numbered 32768 or more before it |
| `ReorderingInvisible.PromptIsNotEnough` | internal/recorder/frame_extractor.go:30-39 | prompt deliveries of 32770 to 65536 distinct packets, with one far overtaking, whose output is not the run sent |
| `Depacketizer.MaskIsRemainder` | internal/recorder/frame_extractor.go:279 | the arithmetic reading of a NAL type is the masking with 0x1F |
| `Depacketizer.TopBitsAreRanges` | internal/recorder/frame_extractor.go:330-332 | the arithmetic reading of the FU start and end bits is the masking with 0x80 and 0x40 |
| `Depacketizer.MasksRebuildHeader` | internal/recorder/frame_extractor.go:336-338 | the rebuilt NAL header is the high bits of the indicator joined with the type of the FU header |
| `Packetization.UnitsBeforeTail` | internal/recorder/frame_extractor.go:310-319 | the aggregation parser finds exactly the NALs that were bundled, also when a truncated one follows |
| `PictureIntegrity.DispatchReads` | internal/recorder/frame_extractor.go:270-288 | the bytes of every well-formed packet lead to the branch for what was packed |
| `PictureIntegrity.DispatchAdvances` | internal/recorder/frame_extractor.go:270-391 | every packet keeps the buffered NALs a run of the last ones sent of the unit unless the picture is marked, and commits at most such a run |
| `LossyStreams.CounterExact` | internal/recorder/frame_extractor.go:227-259 | while gaps are readable the counter follows the stream and counts exactly the numbers missing between first and last |
| `LossyStreams.OutOfOrderExactly` | internal/recorder/frame_extractor.go:236-258 | for packets as the buffer emits them, the out-of-order branch is never taken if and only if no two consecutive ones are exactly 32768 apart |
| `LossyStreams.ReadableGapsSeen` | internal/recorder/frame_extractor.go:234-258 | while no gap reaches 32768 the gap check overlooks no hole |
| `LossyStreams.CommittedAreSuffixes` | internal/recorder/frame_extractor.go:270-391 | for every well-formed stream and every loss pattern of which the gap check overlooks no hole, each committed picture is a non-empty suffix of one access unit, byte for byte, of a later unit each time |
| `HiddenHoles.SuffixesExactlyWhenSeen` | internal/recorder/frame_extractor.go:227-391 | for packets in order under any numbers, that holds of every stream they can be packets of if and only if the gap check overlooks no hole: no number is one more, modulo 65536, than the last one accepted without following the packet before |
| `Recovery.StretchCommittedExactly` | internal/recorder/frame_extractor.go:225-391 | after any losses, with gaps of less than 32768: what arrives without a hole from the beginning of an access unit on is committed, unit by unit as sent, up to where it ends; the first unit exactly if no NALs, no mark and, behind a hole, no reassembly is left over |
| `RoundTrip.LosslessCommitsAll` | internal/recorder/frame_extractor.go:290-391 | an in-order lossless run commits exactly the NALs of every access unit, in order, keeps nothing back and counts nothing lost |
| `RoundTrip.PlansAreStreams` | internal/recorder/frame_extractor.go:309-353 | every choice of single NAL, STAP-A and FU-A packets for a list of access units is a well-formed stream of them |
| `RoundTrip.DepacketizingUndoesPacketizing` | internal/recorder/frame_extractor.go:290-391 | depacketizing a planned stream returns exactly the planned access units |
| `KeyFrames.IdrStaysCurrent` | internal/recorder/frame_extractor.go:371-390 | the buffered IDR picture is always the last committed picture that holds an IDR slice |
| `CachedSets.LastSetsCached` | internal/recorder/frame_extractor.go:290-323 | from the sender's access units, without loss: the cached SPS and PPS are the last NALs of type 7 and 8 of the concatenated units, in single, aggregation or fragment packets alike, and the key frame is those two and the last unit with an IDR slice |
| `CachedSets.LastReceivedCached` | internal/recorder/frame_extractor.go:290-323 | whatever is lost, and however the rest is ordered, while no parameter set is fragmented: cached are the last SPS and PPS received |
| `CachedSets.LastOfMeans` | internal/recorder/frame_extractor.go:290-307 | the last NAL of a type is one of them with no later one of that type, and missing only if there is none |
| `KeyFrames.KeyFramesAreSent` | internal/recorder/frame_extractor.go:290-307 | while no parameter set is fragmented, whatever was lost as long as the gap check overlooks no hole, a key frame consists of NALs that were sent and ends an access unit with an IDR slice |
| `KeyFrames.FragmentsCached` | internal/recorder/frame_extractor.go:290-352 | from any state, fragments whose last one arrives are cached as SPS or PPS by the first byte of the reassembly they continue, their own or a leftover one, followed by all bytes that arrived; without a reassembly nothing is cached |
| `KeyFrames.FragmentedSetExactly` | internal/recorder/frame_extractor.go:336-352 | a fragmented SPS or PPS whose first and last fragments arrive is cached as sent if and only if every fragment lost in between was empty |
| `KeyFrames.NextKeyFramePublishes` | internal/recorder/frame_extractor.go:455-477 | what is cached heads the next key frame, before the IDR picture |
| `FragmentedSets.KeyFrameSentExactly` | internal/recorder/frame_extractor.go:290-477 | from the sender's plan of a fragmented SPS or PPS and an IDR picture, whatever fragments are lost, to the key frame: it consists of NALs that were sent if and only if the first or the last fragment was lost or every fragment lost was empty |
| `FragmentedSets.SplicedSetPublished` | internal/recorder/frame_extractor.go:336-352 | from the plan of two fragmented sets and an IDR picture, the last fragment of the first set and the first of the second lost: the key frame begins with the two spliced, and consists of NALs that were sent if and only if that equals one of them |
| `FragmentedSets.SplicedSetNeverSent` | internal/recorder/frame_extractor.go:336-352 | two SPS and a loss of which only an empty fragment of the second is missing, and the splice equals neither |
| `FrameExtractor.FrameExtractor.CheckSeqGap` | internal/recorder/frame_extractor.go:227-259 | updates the counter fields as specified and reports a gap for anything but the next number |
| `FrameExtractor.FrameExtractor.AddNAL` | internal/recorder/frame_extractor.go:290-307 | buffers the NAL, caches parameter sets, commits on the marker |
| `FrameExtractor.FrameExtractor.IngestSTAPA` | internal/recorder/frame_extractor.go:310-323 | the parse loop adds exactly the aggregation units the specification finds, which `CachedSets.LastSetsCached` and `RoundTrip.LosslessCommitsAll` are about |
| `FrameExtractor.FrameExtractor.IngestFUA` | internal/recorder/frame_extractor.go:326-353 | reassembles on the FU bits as specified |
| `FrameExtractor.FrameExtractor.CommitPicture` | internal/recorder/frame_extractor.go:356-391 | drops a marked picture, publishes one with an IDR slice |
| `FrameExtractor.FrameExtractor.IngestOrdered` | internal/recorder/frame_extractor.go:270-288 | the gap check followed by the dispatch on the NAL type |
| `FrameExtractor.FrameExtractor.Ingest` | internal/recorder/frame_extractor.go:262-268 | pushes into the reorder buffer and depacketizes everything handed on, in order |
| `FrameExtractor.FrameExtractor.CaptureKeyFrame` | internal/recorder/frame_extractor.go:455-477 | writes SPS, PPS and the IDR picture, each behind a start code |
| `AnnexBReader.ReadsBack` | internal/recorder/frame_extractor.go:455-477 | a decoder that splits the key frame at its start codes finds exactly the NALs written, if each is escaped as H.264 prescribes |
| `Reception.Run16Refines` | internal/recorder/frame_extractor.go:55-111 | over whole runs the 16-bit buffer hands on what the unbounded one does |
| `Reception.ReceivedPicturesAreSuffixes` | internal/recorder/frame_extractor.go:262-391 | from network to pictures: under loss, duplication, delay and reordering within the half-window of the receiver, as long as the gap check overlooks no hole in what the buffer hands on, every committed picture is a non-empty suffix of one access unit, of a later one each time |
| `OverlookedHole.HoleCommitted` | internal/recorder/frame_extractor.go:227-391 | a stream and arrivals of it within the half-window after which a picture without its middle is committed |
| `Reception.LostIsGivenUp` | internal/recorder/frame_extractor.go:240-250 | for arrivals within the half-window, while no two consecutive packets handed on are exactly 32768 apart, `lostPackets` is the number of sequence numbers given up between the first and the last of them |
| `Reception.OrderedPacketMisread` | internal/recorder/frame_extractor.go:227-259 | runs of the buffer after which the gap check takes the next packet in order for an out-of-order one |
| `PortAllocator.GroupsExactly` | internal/recorder/port_allocator.go:24-36 | the pool holds each group that starts a whole number of groups into the range and ends within it, once, and no other |
| `PortAllocator.GroupsDisjoint` | internal/recorder/port_allocator.go:29-31 | two groups share no port and lie within the range |
| `PortAllocator.PortAllocator.Create` | internal/recorder/port_allocator.go:24-36 | refuses exactly the ranges too small for one stream and otherwise fills the pool with the range's groups |
| `PortAllocator.PortAllocator.Allocate` | internal/recorder/port_allocator.go:38-52 | takes the last group, or fails on an empty pool |
| `PortAllocator.PortAllocator.Release` | internal/recorder/port_allocator.go:54-58 | puts the group back at the end |
| `IngestLifecycle.CallStepExclusive` | internal/transport/webrtc/peer.go:291-311 | every step keeps the claim: at most one start per peer is under way, and none once a session is committed |
| `IngestLifecycle.CommitKeepsBalance` | internal/transport/webrtc/peer.go:372-417 | the commit hands slot and ports over to the peer, neither losing nor doubling them |
| `IngestLifecycle.EveryRunBalanced` | internal/transport/webrtc/peer.go:291-425 | in every interleaving slots taken equal slots held and never exceed capacity, and every port group is free or held, never both and never twice |
| `IngestLifecycle.OutstandingGroupsDisjoint` | internal/recorder/port_allocator.go:38-58 | the groups held by any two calls or peers are disjoint four-port ranges inside the configured range |
| `IngestLifecycle.QuietHoldsNothing` | internal/transport/webrtc/peer.go:1078-1177 | once starts and closes have finished, every slot and group is back and everything taken was returned exactly once |
| `IngestLifecycle.FairRunsSettle` | internal/recorder/session.go:64-88 | every schedule that keeps giving turns to every start and close reaches that state |
| `IngestLifecycle.UnhinderedStartCommits` | internal/transport/webrtc/peer.go:291-417 | whatever others do in between, the track that completes the pair gets its peer a session and a slot in seven turns of its own, unless the peer closes, a call fails, or no ports or no slot are left when it asks for them |
| `Signaling.TimerPassesExactly` | internal/transport/webrtc/peer.go:803-817 | the grace timer passes its check if and only if no connection was bound since the release that armed it |
| `Signaling.ReleaseCountsExactly` | internal/transport/webrtc/peer.go:782-819 | a release detaches and arms a timer if and only if no connection was bound after the one that releases; otherwise it changes nothing |
| `Signaling.NeverForgotten` | internal/transport/webrtc/peer.go:761-819 | at most one timer is armed, the current one, and an open peer that was ever bound has an attached connection that has not let go or a current timer on its way |
| `Signaling.ClosingPeerBars` | internal/transport/webrtc/peer.go:757-792 | in every interleaving, once a peer is closing a connection that arrives is refused and never attached, and one that is attached goes without a release |
| `Signaling.OpenPeerAdmits` | internal/transport/webrtc/peer.go:761-777 | while it is open, a connection that arrives is attached, and no timer stays armed |
| `Signaling.DropsOnce` | internal/transport/webrtc/peer.go:1038-1060 | `close` drops the binding once, and leaves nothing attached and no timer armed |
| `Signaling.CloseLandsOnBoundExactly` | internal/transport/webrtc/peer.go:803-816 | in every reachable state, the close of a timer past its check finds a connection attached if and only if the last thing since the check, of bindings, releases and the drop, was a binding |
| `Signaling.BoundPeerCanBeClosed` | internal/transport/webrtc/peer.go:803-816 | a schedule in which a peer is closed under a connection bound after the timer's check |
| `SessionMap.SessionManager.Replace` | internal/transport/webrtc/session.go:57-68 | registers the peer and returns the one displaced |
| `SessionMap.SessionManager.RemoveIfSame` | internal/transport/webrtc/session.go:70-81 | removes the entry only if it is this peer's |
| `SessionMap.SessionManager.Get` | internal/transport/webrtc/session.go:47-55 | looks the key up |
| `SessionMap.MapAddressesNewest` | internal/transport/webrtc/handler.go:336-384 | in every run a key addresses the peer last registered under it, from then until its own reaper has run, and nobody else: a displaced peer's reaper never removes its replacement |
| `SessionMap.MapIsTheLivePeers` | internal/transport/webrtc/handler.go:336-384 | once closes and reapers have caught up, a key addresses a peer if and only if that peer is alive |
| `RecordingCompleteness.IngestRecording.UploadWithRetry` | internal/transport/webrtc/peer.go:557-587 | succeeds if and only if the file can be read and one of three tries does |
| `RecordingCompleteness.IngestRecording.RunSegmentUploader` | internal/transport/webrtc/peer.go:495-537 | records the uploaded segments under consecutive numbers, each from the receipt of the file before it to its own, with its size, and sets `incomplete` if and only if one failed |
| `RecordingCompleteness.IngestRecording.Finish` | internal/transport/webrtc/peer.go:1108-1205 | registers the recorded segments and marks the recording complete under exactly the stated conditions |
| `RecordingCompleteness.RecordStream` | internal/transport/webrtc/peer.go:495-537 | marked complete if and only if nothing failed, timed out or gave up and something was recorded; then the registry holds exactly segments 0 to n - 1, and the audit of their timestamps finds no gap and all time up to the last one recorded. Whatever fails, the registry holds exactly the files uploaded whose registration got through, each with its file's key, size, upload time and receipt times |
| `RecorderSupervisor.Supervise` | internal/recorder/supervisor.go:96-191 | ends after at most five times the configured number of recorders, each but the last followed by a restart, and gives up exactly for one of three reasons |
| `RecorderSupervisor.UnproductiveRunsBounded` | internal/recorder/supervisor.go:146-160 | no run of unproductive attempts is longer than the configured maximum |
| `RecorderSupervisor.StreakExactly` | internal/recorder/supervisor.go:138-146 | the streak reaches k exactly when the last k attempts produced no segment |
| `RecorderRuns.OneAtATime` | internal/recorder/supervisor.go:105-190 | in every interleaving of loop, processes, forwarders and stop: nothing is started or forwarded for an attempt before the previous ffmpeg has exited and both its forwarders have been joined, epochs never decrease, at most one ffmpeg runs, and none once the loop has ended |
| `RecorderRuns.ForwardedOnceInOrder` | internal/recorder/supervisor.go:194-240 | in every interleaving each channel carries, attempt after attempt, the first entries of each list once and in order; all of it for a joined attempt whose last read succeeded |
| `RecorderRuns.EndsAsSupervised` | internal/recorder/supervisor.go:96-191 | in every interleaving the number of recorders and the verdict are those `Supervise` promises for the passes as they went |
| `RecorderRuns.StopReachesAll` | internal/recorder/supervisor.go:267-277 | in every interleaving at most one recorder starts after the stop has begun, and every running one has been told to stop or is still to be looked at |
| `RecorderRuns.ReturnsEarlyExactly` | internal/recorder/supervisor.go:260-282 | in every reachable state in which the stop is about to read the current recorder, it can return with a recorder running if and only if the loop is past its last look at the channel and the recorder it started since, if any, still runs |
| `EarlyReturn.EarlyReturnReached` | internal/recorder/supervisor.go:96-191 | for every configuration, a run to such a state, in the backoff after a first attempt that forwarded a segment |
| `AssemblyRegistry.PendingAssemblyRegistry.Schedule` | internal/infrastructure/cache/assembly.go:75-92 | moves the stream to its new place in the due order and stores its detail |
| `AssemblyRegistry.PendingAssemblyRegistry.Due` | internal/infrastructure/cache/assembly.go:97-128 | returns the first due entries with a readable detail and drops those without one |
| `AssemblyRegistry.PendingAssemblyRegistry.Cancel` | internal/infrastructure/cache/assembly.go:132-140 | removes entry and detail |
| `AssemblyWatchdog.AssemblyWatchdog.SweepOnce` | internal/watcher/assembly_watchdog.go:95-105 | handles every stream of the batch, in order, as `Sweep` specifies |
| `AssemblyWatchdog.AssemblyWatchdog.Handle` | internal/watcher/assembly_watchdog.go:107-181 | computes `Handled`, of which `WatchdogRefines.HandledFor` says what it does to the stream, and that it touches no other: gone if assembled, empty or failed five times, otherwise one more attempt counted and due in 120 s |
| `AssemblyWatchdog.SweepKeyed` | internal/watcher/assembly_watchdog.go:95-181 | a sweep keeps one entry per stream, in due order, scored by the detail stored for it |
| `AssemblyWatchdog.AlwaysKeyed` | internal/infrastructure/cache/assembly.go:75-140 | every registry that calls, sweeps and expiry can produce in any order is so |
| `AssemblyWatchdog.NeverEarly` | internal/infrastructure/cache/assembly.go:97-128 | no stream is handled a full second or more before the due time it carries |
| `AssemblyWatchdog.SweepMovesUp` | internal/watcher/assembly_watchdog.go:95-181 | a due entry is in the batch, or exactly 32 entries ahead of it get out of its way |
| `AssemblyWatchdog.HandledInTime` | internal/watcher/assembly_watchdog.go:95-181 | without earlier-due arrivals an entry of rank r is taken within r / 32 + 1 sweeps |
| `WatchdogRefines.HandledFor` | internal/watcher/assembly_watchdog.go:107-181 | handling a stream removes it from set and details if it is assembled, has no segments or failed for the fifth time, and counts any other failure with a due time 120 s later; the set and detail of every other stream stay as they are |
| `WatchdogRefines.SweepFor` | internal/watcher/assembly_watchdog.go:95-181 | a sweep leaves every stream it does not take as it is, and treats every one it takes by its own outcome once, or drops it for want of a readable detail |
| `WatchdogRefines.FailuresCounted` | internal/watcher/assembly_watchdog.go:167-181 | over any number of sweeps: a stream due with a < 5 attempts has a + n attempts after n sweeps that take it and fail, due 120 s after the last, and after 5 - a of them is in neither set nor details |
| `WatchdogRefines.SettledIsGone` | internal/watcher/assembly_watchdog.go:118-173 | one sweep that takes a stream and assembles it, or finds no segments, leaves it in neither set nor details |
| `WatchdogRefines.HandleRefines` | internal/watcher/assembly_watchdog.go:107-181 | handling an entry, seen from its stream, is the steps of the watchdog in `AssemblyTriggers` from the copy it read to being idle |
| `WatchdogRefines.SweepRefines` | internal/watcher/assembly_watchdog.go:95-181 | a whole sweep, seen from one stream, is those steps from idle to idle if it takes the stream and none if it does not |
| `WatchdogRefines.ScheduleRefines` | internal/infrastructure/cache/assembly.go:75-92 | scheduling a stream without attempts is an arming there |
| `AssemblyTriggers.RunsNeverOverlap` | internal/usecase/assembler_usecase.go:160-165 | whatever triggers coincide, at most one run of a stream is under way, and the guard is set exactly then |
| `AssemblyTriggers.NothingForgotten` | internal/usecase/assembler_usecase.go:86-200 | a stream armed and no longer due is recorded, queued, met another run, had no segments, lost its entry to expiry, or failed five times, counted from its last arming and the failures that one was charged |
| `AssemblyTriggers.StaysDue` | internal/watcher/assembly_watchdog.go:107-181 | whatever interleaves, without these excuses a stream stays due until five attempts have failed, those charged to its arming included |
| `AssemblyTriggers.EndIsAnswered` | internal/usecase/assembler_usecase.go:86-121 | from any state, whatever interleaves: once the end of a stream has been handled, the stream is complete and was assembled or met a run, or it was armed, and that only if it was not complete at first; a queued request is done with only once there is a recording or it met a run |
| `AssemblyTriggers.QueuedIsComplete` | internal/usecase/segment_usecase.go:185-213 | in every reachable state a request is queued only for a complete stream, and `/complete` is about to take the stream off the due-set only behind a queued request |
| `AssemblyTriggers.AtMostFiveAttempts` | internal/watcher/assembly_watchdog.go:107-181 | with one watchdog and Redis answering, at most five attempts fail between two armings, less those charged to the first, in every reachable state |
| `AssemblyTriggers.ArmingHonouredExactly` | internal/watcher/assembly_watchdog.go:167-181 | and then, while nothing else takes the stream off, it is due between attempts if and only if fewer than 5 - a have failed since an arming that was charged a |
| `AssemblyTriggers.RacingArmIsLost` | internal/watcher/assembly_watchdog.go:167-173 | for every a below five, a run in which an arming during an attempt with a failures is undone after 5 - a more |
| `AssemblyTriggers.AttemptsBounded` | internal/watcher/assembly_watchdog.go:167-189 | with one watchdog and any Redis call free to fail, at most five attempts fail between armings, plus one for each reschedule and each removal after giving up that is refused |
| `AssemblyTriggers.AttemptsUncounted` | internal/watcher/assembly_watchdog.go:175-181 | while rescheduling fails, any number of attempts follows one arming |
| `LiveManifest.WindowFragments` | internal/transport/webrtc/live_manifest.go:122-136 | the window is the shortest suffix that reaches the window length, or everything |
| `LiveManifest.WindowNeverMovesBack` | internal/transport/webrtc/live_manifest.go:122-136 | a fragment appended never brings back one that has scrolled out |
| `LiveManifest.DiscontinuitiesBefore` | internal/transport/webrtc/live_manifest.go:140-165 | counts the epoch changes of the full history up to the first fragment served |
| `LiveManifest.RenderBody` | internal/transport/webrtc/live_manifest.go:88-108 | renders the fragments, or fails if and only if one of their epochs has no init segment |
| `LiveManifest.BuildLiveManifest` | internal/transport/webrtc/live_manifest.go:56-115 | the playlist over the window, or exactly the two errors; it ends with the end tag, on its last line only, if and only if the stream has ended |
| `LiveManifest.TargetDurationHolds` | internal/transport/webrtc/live_manifest.go:71-81 | no printed duration, rounded to the nearest second, exceeds the target duration (RFC 8216 section 4.3.3.1) |
| `LiveManifest.TargetTight` | internal/transport/webrtc/live_manifest.go:71-81 | the target duration is no longer than it has to be: a fragment served lasts more than the target less a second |
| `LiveManifest.PlayerSees` | internal/transport/webrtc/live_manifest.go:78-112 | what a player computes from the playlist: it stops reloading if and only if the stream has ended, decodes each fragment with the init segment of its own epoch, and gives it its printed length, its date, and as discontinuity number the epoch changes before it in the full history |
| `LiveManifest.DiscontinuityNumberKept` | internal/transport/webrtc/live_manifest.go:82-86 | a fragment keeps its name and discontinuity number in every reload |
| `LiveTimeline.RunHLSFragmentUploader` | internal/transport/webrtc/peer.go:607-660 | registers a fragment for an event if and only if its upload succeeds, ending when the first fragment of its epoch was handled plus the media time since, and as long as ffmpeg says |
| `LiveTimeline.RegisteredDated` | internal/transport/webrtc/peer.go:635-644 | every fragment registered is dated so: its epoch's first one ends, not starts, when it was handled |
| `LiveTimeline.MediaNumberExactly` | internal/transport/webrtc/live_manifest.go:82 | a player's media sequence number for a fragment is the number it was uploaded under if and only if no upload failed between the first fragment served and it |
| `LiveTimeline.MediaNumberKeptExactly` | internal/transport/webrtc/live_manifest.go:82 | between two loads a fragment keeps its media sequence number if and only if no upload failed between the fragments that head the loads |
| `LiveTimeline.DateDrift` | internal/transport/webrtc/live_manifest.go:99-107 | a player's date is the stored one less the gaps since the last printed date, to within a millisecond and half a microsecond per duration added |
| `LiveTimeline.GapIsLostTime` | internal/transport/webrtc/peer.go:645-658 | a gap between registered neighbours of one epoch is the media time of the uploads that failed in between |
| `LiveTimeline.DatesAccurate` | internal/transport/webrtc/peer.go:612-659 | while no upload fails, wherever the window starts: a player's date for a fragment's end is within a millisecond plus half a microsecond per duration of the moment its epoch's first fragment was handled plus the media time since, and its date for the start as close to the stored one |
| `PlaylistTailing.PollingReadsOnce` | internal/watcher/hls_watch.go:113-119 | while snapshots extend each other, all polls together emit exactly the last snapshot read |
| `PlaylistTailing.TailedPlaylistReadsOnce` | internal/watcher/hls_watch.go:36-56 | however a growing playlist is polled, its fragments come out once, in order, each with its own duration |
| `PlaylistTailing.TailedListReadsOnce` | internal/watcher/segment_watch.go:15-63 | however a growing segment list is polled, its segments come out once and in order |
| `PlaylistTailing.FragmentsExactly` | internal/watcher/hls_watch.go:69-105 | the fragments are the name lines in order, each with the duration of the EXTINF line before it, whatever other lines stand between, and none without one since the name before |
| `PlaylistTailing.InitUriExactly` | internal/watcher/hls_watch.go:73-80 | the init segment is that of the first map line that names one |
| `PlaylistTailing.FilledExactly` | internal/watcher/segment_watch.go:35-63 | the entries of the list are its lines that are not blank, in order |
| `PlaylistTailing.HLSWatcher.EmitNewHLSEntries` | internal/watcher/hls_watch.go:58-120 | one poll emits the init segment at most once ever, and the fragments beyond those sent, paired with their durations |
| `PlaylistTailing.SegmentWatcher.EmitNewLines` | internal/watcher/segment_watch.go:35-63 | one poll emits the lines beyond those sent |
| `Coverage.AuditGaps` | internal/stream/gap.go:19-38 | reports exactly the gaps over two seconds and sums the recorded time |
| `Coverage.GapsExactly` | internal/stream/gap.go:19-38 | a gap is reported exactly when two neighbours are more than two seconds apart, with their numbers and distance |
| `Coverage.SpanAccounted` | internal/stream/gap.go:19-38 | the received span is recorded time plus reported gaps plus unreported ones of at most two seconds each |
| `Coverage.MissingEndsInvisible` | internal/stream/coverage.go:75-89 | a missing head or tail shows in no timestamp gap |
| `Coverage.MedianFrameRate` | internal/stream/coverage.go:171-190 | the median of the measurable segments' rates |
| `Coverage.MedianIsMiddle` | internal/stream/coverage.go:171-190 | the median lies half way between the least rate that at most half of them exceed and the greatest that at most half fall short of |
| `Coverage.CaptureAnomalies` | internal/stream/coverage.go:124-167 | one verdict per declared segment, against half the median |
| `Coverage.AnomaliesExactly` | internal/stream/coverage.go:124-167 | an anomaly is reported exactly when a declared segment of its number shows it: no bytes; no frames in a positive time; frames at less than half the median rate |
| `Coverage.AtMostHalfSlow` | internal/stream/coverage.go:157-164 | at most half of the measurable segments are ever called slow |
| `Coverage.EvenStreamsNeverSlow` | internal/stream/coverage.go:20-24 | a stream whose fastest segment is at most twice as fast as its slowest has no slow segment |
| `Coverage.NegativeCountsAreSlow` | internal/stream/coverage.go:143-164 | a negative frame count is never measurable and always called slow once there is a median |
| `Coverage.SlowExactly` | internal/stream/coverage.go:124-190 | the segments called slow are those among the measurable ones, at most half of them, and every negative declaration once anything is measurable |
| `Coverage.AllButOneSlow` | internal/stream/coverage.go:143-164 | beside one measurable segment, n negative declarations are n slow segments |
| `Coverage.Reconcile` | internal/stream/coverage.go:53-118 | with an inventory, declared against arrived; without one, the timestamp gaps; it has gaps if and only if a declared number did not arrive, or a timestamp gap was reported |
| `Coverage.MissingExactly` | internal/stream/coverage.go:95-114 | the missing numbers are exactly the declared ones that did not arrive, as often as declared, sorted |
| `Coverage.FramesAccounted` | internal/stream/coverage.go:95-118 | the frames of the segments that arrived and of those that did not are all the frames declared |
| `UploadSessions.UploadRegistry.RegisterOrGetUpload` | internal/infrastructure/cache/session.go:175-231 | resumes the unfinished session of the key with the new credential, or starts a new one; refuses an expired offer; no segment or other session changes |
| `UploadSessions.UploadRegistry.LookupUpload` | internal/infrastructure/cache/session.go:233-252 | finds a live session of the right owner, deleting an expired one |
| `UploadSessions.UploadRegistry.MarkUploadComplete` | internal/infrastructure/cache/session.go:264-305 | completes the session, keeping the first stop reason, and says whether it was open |
| `UploadSessions.UploadRegistry.MarkComplete` | internal/usecase/segment_usecase.go:185-213 | checks the owner, completes the session and then marks the stream complete beside its segments; a failure of the second write leaves the first |
| `UploadSessions.CompletionRepeats` | internal/usecase/segment_usecase.go:185-213 | only streams with a closed session are ever marked, and a completion whose second write failed can be repeated, keeps its stop reason and is not reported as new |
| `UploadSessions.UploadRegistry.Upload` | internal/usecase/segment_usecase.go:100-143 | an accepted segment is stored under its content, newly exactly if its number was free; a conflict is exactly other content stored under it; an open session of the right owner always takes a free number that storage takes; a refusal leaves the segments alone |
| `UploadSessions.OneUnfinishedSession` | internal/infrastructure/cache/session.go:199-231 | in every reachable state there is at most one unfinished session per schedule, exam session, candidate and stream type |
| `UploadSessions.HistoryIsSettled` | internal/infrastructure/cache/session.go:254-283 | whatever follows, a completed session never reopens or takes a segment, a stop reason never changes, and a stored hash never changes |
| `UploadSessions.AcceptedStays` | internal/usecase/segment_usecase.go:100-143 | after an accepted upload, whatever follows while the session is open: the same segment is taken as stored, and other content under its number is a conflict |
| `UploadSessions.ResumedBySuccessor` | internal/infrastructure/cache/session.go:199-252 | in every reachable state a resumed session keeps its id and segments, is opened by the new credential until the new expiry, and refuses any other |

## Left out

- The peer's ingest state, its signaling binding, the supervisor's interleavings and the assembly triggers are state machines on values, not classes: their
  methods interleave inside one call, which a method contract cannot say. Their loops and the uploader are classes and methods.
- FrameExtractor.FrameExtractor.Ingest: an empty aggregation unit makes the recorder panic; the model requires that none arrives.
- Resequencing: the wait budget is an input of each push; when exactly it runs out is not modelled.
- RecordingCompleteness.RecordStream: a server without storage, whose uploader consumes nothing, is not modelled; it never marks a recording complete.
- RecorderRuns.ForwardedOnceInOrder: init segments are told apart in `PlaylistTailing` only. What makes ffmpeg exit (the hang
  watchdog, a kill, a crash) and the requests for a keyframe are not steps of their own.
- IngestLifecycle.EveryRunBalanced: slots are accounted for, not live ffmpeg processes; RTCP forwarding, keyframe requests and draining of the supervisor's channels hold no counted resource and are not steps.
- AssemblyTriggers.NothingForgotten: one instance of the service; the in-flight guard does not reach across instances.
- AssemblyWatchdog.HandledInTime: assumes no Redis call fails; failing calls are part of `AssemblyTriggers` instead.
- LiveManifest.BuildLiveManifest: asset names and the textual form of tags; a tag carries the number it prints. The fallback for an empty window cannot be reached and is not modelled.
- PlaylistTailing.HLSWatcher.EmitNewHLSEntries: splitting lines and parsing tag prefixes; a line arrives already told apart.
- Coverage.Reconcile: the detail texts of anomalies, and floating-point rounding of frame rates.
- UploadSessions.HistoryIsSettled: requests are single steps, the session and index keys expire together, and segment keys outlive the session; tokens are compared by their hash.
- Kafka consumers, object storage, Redis wire behaviour, ffmpeg, WebRTC and HTTP handling: foreign calls, modelled as outcomes.
- `webrtcAssemblyDueAt`, `recordingSummary`, `RecordedDuration`, stop-reason normalisation, asset-name parsing: single expressions whose properties can be read off them.
- JWT and asset signatures, quality reports, alerts, monitoring, AI relay, JPEG conversion, hang watchdog, health checks, wiring.
