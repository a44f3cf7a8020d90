# A verified model of the meeting system's hard parts

The system is a video meeting service: Go signaling nodes that share a route table in Redis, C++ SFU servers that forward media, and a Qt client. This project models, in Dafny, the parts whose correctness is not visible in any one function, and proves what they keep over every run:

- **Failover** (`Failover`, `FailoverOrphans`, `FailoverProgress`, `RouteStore`, `RouteCalls`, `RecoveryLock`, `NodeRanking`). Recovery and allocation runs on many signaling nodes are state machines that interleave step by step over the route table and the rooms the SFU servers hold; RPCs may be lost, run unheard or arrive late. Redis commands are the atomic steps, WATCH/EXEC is a version check. The reference-counted recovery lock is a state machine of its own, and the order in which nodes are tried is proved a strict, rotating order.
- **Render scheduler** (`RenderModel`, `RenderQueues`, `RenderRuns`, `RenderFates`, `RenderCallbacks`, `RenderPacing`, `RenderScheduler`). The client's bounded deadline queue: the object with its loops refines functions on one value, and the invariants are proved of every run of enqueue, drain and invalidate.
- **Meeting lifecycle** (`MemoryStore`). The in-memory store refines one join-ordered list per meeting.
- **Media plane** (`Bytes`, `RtpParser`, `NackBuffer`, `RtpRouter`, `RtcpHandler`, `Remb`, `RembAggregator`, `Rtt`, `RouteRewrite`, `MediaRoutes`, `MediaIndex`, `PublisherRemoval`, `MediaPorts`, `MediaIngress`, `MediaEvents`, `MediaThreads`, `MediaOverlap`). RTP parsing and in-place SSRC rewriting, the retransmission cache, RTCP compound, NACK and REMB formats (sections 6.1 and 6.4.1 of RFC 3550, section 6.2.1 of RFC 4585), the feedback index, REMB aggregation and round-trip times.
- **Identifiers** (`Snowflake`).

`dafny verify dfyconfig.toml` checks everything.

Where the code departs from what one would expect, the model follows the code and the exact condition is proved, with a failing input where there is one:

- `UpsertRoom` and `DeleteRoom` read the meeting's node before, not inside, their transaction. A load counter stays exact on a step if and only if the node that was read is still the meeting's node when the step commits (`RouteCalls.ConservedIffFresh`); `RouteCalls.StaleUpsertsDrift` is a run of two upserts that loses a count for good.
- An allocation whose SFU client is disabled routes its meeting without a room. `Failover.RoutedRoomExists` says that the routed server holds the room if and only if the last routing was not of that kind, to a server without one; `Failover.DisabledAllocationHasNoRoom` and `Failover.RollbackCanHitBlindRoute` are runs in which the room is missing and in which a rollback removes it.
- The failover safety results need neither the local nor the distributed recovery lock: exclusive room creation carries them.
- `ComputeRttMs` returns 0 once the compact clock wraps between the two reports, and cutting the elapsed time to microseconds first can cost more than one tick; `Rtt.LowerBoundIff` says exactly when it is less than one tick low.
- `EncodeRembBitrate` is right for every 32-bit rate but the largest, whose rounding overflows to 0; the kbps cap of its caller keeps that rate away.
- With several publishers the rewritten SSRC is the subscriber's own in exactly one case (`RouteRewrite.OwnSsrcOnlyInOneCase`).
- The UDP and the RPC thread refresh routes under no common lock. `MediaThreads.FeedbackIsBackedUndisturbed` says what holds while nothing disturbs a refresh; for overlapping operations `MediaOverlap.OverlapBackedIff` gives the exact condition, and `MediaOverlap.OverlapLeavesUnbackedEntry` and `MediaOverlap.RemovalOverlapLeavesEntry` are schedules that leave an entry without its route.
- An identifier generator whose clock starts before the epoch and passes it goes out of order; `Snowflake.IdsIncreaseIff` says exactly when.
- `RemovePublisher` does not refresh the room. `PublisherRemoval.RemovalKeepsCurrentIff` says when the remaining routes still reflect it, and `PublisherRemoval.RemovalLeavesStaleRoutes` gives runs in which they do not; the client then expects another SSRC (`RouteRewrite.OneLeftNeedsRefresh`) until the next bind or endpoint change.
- A member who joins again while the meeting is full gets the "full" error, because capacity is checked before membership (`MemoryStore.RejoinIff`, `MemoryStore.RejoinFailsExactlyWhenFull`).
- A render callback that invalidates the queue is followed by the drain noting that frame's timestamp, so the new epoch can start with the old epoch's last timestamp and lose a frame; `RenderCallbacks.NewEpochFrameLostIff` says exactly when.

## Model

| member | source | states |
|---|---|---|
| `Failover.StepKeepsInv` | meeting-server/signaling/handler/media_handler.go:363-466 | every step of every run (candidate loop, rollback, late or lost RPC, allocation with or without a client, route change) keeps: the routed server holds the room handed to the route exactly if the last routing was not a disabled allocation to a server without such a room, a run past creation owns an unnamed room, a pending rollback targets such a room |
| `Failover.Reachable` | meeting-server/signaling/handler/media_handler.go:261-473 | that invariant holds after any interleaving of any number of recovery and allocation runs |
| `Failover.RoutedRoomExists` | meeting-server/signaling/handler/media_handler.go:413-466 | in every reachable state the server of the node a meeting is routed to holds the room handed to the route if and only if the last routing was not a disabled allocation to a server without a room handed to the route |
| `Failover.RollbackIsSafe` | meeting-server/signaling/handler/media_handler.go:394-454 | whatever step makes a room disappear, the run behind the step created that room and had not handed it to the route, the step leaves the route alone, and the route names that room only if a disabled allocation made it |
| `Failover.RollbackRemovesOwn` | meeting-server/signaling/handler/media_handler.go:394-411 | a run removes no room but its own, unnamed one |
| `Failover.RollbackCanHitBlindRoute` | meeting-server/signaling/handler/meeting_handler.go:581-583 | a run in which a rollback removes the room that a disabled allocation has named, with any assignment of servers |
| `Failover.OnlyCandidatesRoute` | meeting-server/signaling/handler/media_handler.go:413-421 | a meeting gets a new node only from a run on exactly that candidate, which holds the room there or is an allocation with a disabled client |
| `Failover.RoutingLandsOnRoom` | meeting-server/signaling/handler/media_handler.go:413-466 | every successful switch, and first routing with a client, lands on the room the acting run created there; one without a client lands on a room handed to the route exactly if one was there before |
| `Failover.BlindKeepsInv` | meeting-server/signaling/handler/meeting_handler.go:581-583 | the routing of an allocation with a disabled client keeps the invariant |
| `Failover.DisabledAllocationMakesNoRoom` | meeting-server/signaling/handler/meeting_handler.go:42-68 | after any run such an allocation routes its meeting, changes no room and no other run, and leaves it blind exactly if the server had no room handed to the route |
| `Failover.DisabledAllocationHasNoRoom` | meeting-server/signaling/handler/meeting_handler.go:581-583 | a concrete reachable state in which the routed server holds no room |
| `Failover.HoldingKeepsInv` | meeting-server/signaling/handler/media_handler.go:384-466 | the stages after room creation (add, swap, inspect, roll back) keep the invariant, whatever the RPC and Redis faults |
| `Failover.CreateKeepsInv` | meeting-server/sfu/room/RoomManager.cpp:9-17 | creating a room, which succeeds only when it is absent, keeps the invariant even if the reply is lost or the request arrives late |
| `Failover.DeliverKeepsInv` | meeting-server/sfu/room/RoomManager.cpp:19-33 | a late create or destroy that arrives at any time keeps the invariant |
| `FailoverOrphans.OrphanIff` | meeting-server/signaling/handler/media_handler.go:363-466 | in any interleaving a step leaves a room that is unnamed, no longer held and behind no late rollback exactly if it is a create whose reply is lost or that arrives late, a disabled add, a failed switch or upsert without effect, a lost switch after which the route names no other node, or a rollback that never reaches the server |
| `FailoverOrphans.OrphanStays` | meeting-server/signaling/handler/media_handler.go:363-466 | no later step of any run hands such a room over or removes it |
| `FailoverProgress.RecoverySwitches` | meeting-server/signaling/handler/media_handler.go:363-466 | from every reachable state in which a recovery starts and its first usable candidate has no room, once its steps have been answered, with any other steps in between that leave the route entry and that room alone, the meeting is routed to that candidate and the room there is the one the run made and handed over |
| `FailoverProgress.AllocationRoutes` | meeting-server/signaling/handler/meeting_handler.go:571-597 | likewise an allocation routes its meeting to its first candidate |
| `FailoverProgress.RollbackBeginsIff` | meeting-server/signaling/handler/media_handler.go:394-435 | a rollback begins exactly if adding the publisher was not answered, or after a lost switch the route names another node |
| `FailoverProgress.InspectionBeginsIff` | meeting-server/signaling/handler/media_handler.go:417-428 | the route is inspected exactly if the switch found another node than expected or conflicted for the third time |
| `FailoverProgress.NextCandidateIff` | meeting-server/signaling/handler/media_handler.go:363-454 | exactly when a run moves on to its next candidate |
| `FailoverProgress.EndsIff` | meeting-server/signaling/handler/media_handler.go:363-466 | exactly when a run ends |
| `RouteCalls.InvPreserved` | meeting-server/signaling/store/redis.go:178-231 | every command of every concurrent call keeps: an unchanged watched version means the node a switch read is still the meeting's node |
| `RouteCalls.Reachable` | meeting-server/signaling/store/redis.go:136-231 | that invariant after any interleaving of upserts, deletes, switches and other writes |
| `RouteCalls.DriftLaw` | meeting-server/signaling/store/redis.go:136-231 | each step moves a counter's distance from the true room count by exactly the difference between the meeting's node and the node the call had read |
| `RouteCalls.ConservedIffFresh` | meeting-server/signaling/store/redis.go:927-964 | from exact counters a step keeps them exact if and only if its commit is based on the meeting's current node |
| `RouteCalls.SwitchCommitsFresh` | meeting-server/signaling/store/redis.go:188-229 | a route switch only ever commits on the meeting's current node |
| `RouteCalls.LoadConserved` | meeting-server/signaling/store/redis.go:136-231 | if no upsert or delete commits a stale read, every node's counter equals the number of rooms assigned to it in every reachable state |
| `RouteCalls.AtomicPairIsFresh` | meeting-server/signaling/store/redis.go:136-176 | an upsert or delete whose commit directly follows its read is never stale |
| `RouteCalls.AtomicCallsConserve` | meeting-server/signaling/store/redis.go:136-231 | over every run in which each upsert and delete names a meeting and commits right after its read, every counter equals the number of rooms assigned, however the steps of the switches interleave |
| `RouteCalls.NamelessUpsertsDrift` | meeting-server/signaling/store/redis.go:136-151 | an upsert without a meeting never reads its node, so two in turn leave a counter at 1 with no room assigned |
| `RouteCalls.StaleUpsertsDrift` | meeting-server/signaling/store/redis.go:136-176 | a concrete run in which two upserts of one meeting leave a counter at 1 with no room assigned |
| `RouteCalls.WinIsAtomic` | meeting-server/signaling/store/redis.go:178-231 | a call that returns true moved the meeting from the expected node to the next one in that one step, set its address, moved one unit of load and left node, version and address of every other meeting alone |
| `RouteCalls.SwitchHarmlessUntilWin` | meeting-server/signaling/store/redis.go:188-229 | until it returns true a switch changes nothing, unless a reply is lost |
| `RouteCalls.OneWinner` | meeting-server/signaling/store/redis.go:178-231 | of several calls leaving the same node at most one wins unless the meeting was moved back in between |
| `RouteCalls.ReturnsFalseIff` | meeting-server/signaling/store/redis.go:188-230 | over every run a switch returns false on a step exactly if it reads another node than expected or its third commit is refused; a first or second refusal is tried again |
| `RouteCalls.UpsertLands` | meeting-server/signaling/store/redis.go:153-175 | a committing upsert sets the meeting's node, and its address if given, and leaves all others alone |
| `RouteCalls.DeleteLands` | meeting-server/signaling/store/redis.go:927-964 | a committing delete removes route and address and leaves all others alone |
| `RouteCalls.NamelessSwitchDoesNothing` | meeting-server/signaling/store/redis.go:178-181 | a switch without a meeting returns true and changes nothing |
| `RecoveryLock.StepKeepsInv` | meeting-server/signaling/handler/media_handler.go:534-562 | every step of acquire and release keeps one shared entry per meeting, exact counts and holders that are inside |
| `RecoveryLock.Reachable` | meeting-server/signaling/handler/media_handler.go:534-562 | that invariant after any interleaving of any number of threads |
| `RecoveryLock.MutualExclusion` | meeting-server/signaling/handler/media_handler.go:534-562 | two threads inside for one meeting are the same thread |
| `RecoveryLock.RefsAreExact` | meeting-server/signaling/handler/media_handler.go:543-551 | the map has an entry exactly while someone uses it, all users share it, and its count is the number of users |
| `RecoveryLock.DeletionIsSafe` | meeting-server/signaling/handler/media_handler.go:553-561 | an entry leaves the map only with its last user, and nobody else points to it |
| `RecoveryLock.NothingLeaks` | meeting-server/signaling/handler/media_handler.go:553-561 | once all have released the map is empty |
| `RecoveryLock.SomeoneCanMove` | meeting-server/signaling/handler/media_handler.go:534-562 | a waiting thread can enter, or another thread is inside on the same entry |
| `NodeRanking.RankedNodes` | meeting-server/signaling/store/redis.go:319-383 | the loops compute the sorted runtimes' nodes, or the plain rotation without Redis |
| `NodeRanking.RotateNodes` | meeting-server/signaling/store/redis.go:1015-1024 | the index arithmetic yields the list cut at the start and swapped |
| `NodeRanking.RankingIsStrict` | meeting-server/signaling/store/redis.go:366-376 | the ranking is a permutation of the nodes in strict order by tier, load and turn: no tie is left |
| `NodeRanking.HealthyRoomyLightFirst` | meeting-server/signaling/store/redis.go:1026-1038 | of any two ranked nodes the earlier is healthy if the later is; among equals it has a place if the later has; among those it is lighter, or as light and its turn comes first |
| `NodeRanking.RuntimeOf` | meeting-server/signaling/store/redis.go:343-364 | what is read about each node: its counter if positive, its quarantine, and its distance from the node whose turn it is |
| `NodeRanking.OrderIsUnique` | meeting-server/signaling/store/redis.go:366-376 | there is only one such order, whatever the sorting algorithm |
| `NodeRanking.EvenLoadRotates` | meeting-server/signaling/store/redis.go:328-330 | among equally healthy and loaded nodes the Redis ranking is the plain rotation |
| `NodeRanking.EveryNodeLeadsInTurn` | meeting-server/signaling/store/redis.go:1001-1024 | of any n consecutive allocations over n nodes each node leads exactly one |
| `RenderScheduler.Scheduler.constructor` | plasma-hawking/src/app/MeetingController.cpp:234-274 | a new scheduler is the empty state, with a tuning inside the bounds its variables are clamped to |
| `RenderScheduler.Scheduler.InsertTask` | plasma-hawking/src/app/MeetingController.cpp:3004-3012 | the scan inserts before the first task that is later by (due time, sequence) |
| `RenderScheduler.Scheduler.CapPeer` | plasma-hawking/src/app/MeetingController.cpp:3014-3035 | the nested loops erase exactly the peer's earliest tasks above its cap, in turn |
| `RenderScheduler.Scheduler.CapDepth` | plasma-hawking/src/app/MeetingController.cpp:3037-3039 | popping keeps exactly the last tasks within the depth |
| `RenderScheduler.Scheduler.Enqueue` | plasma-hawking/src/app/MeetingController.cpp:2981-3044 | the method's whole effect, counters and history included, is the enqueue function of the model |
| `RenderScheduler.Scheduler.TakeTasks` | plasma-hawking/src/app/MeetingController.cpp:3063-3094 | pops exactly the due tasks, orders them for showing and cuts a backlog from the front |
| `RenderScheduler.Scheduler.Handle` | plasma-hawking/src/app/MeetingController.cpp:3110-3159 | one due task is dropped, dropped as stale, queued again or shown as the model's round says, which `RenderPacing.JudgeExactly` gives in terms of the clocks |
| `RenderScheduler.Scheduler.ShowTask` | plasma-hawking/src/app/MeetingController.cpp:3195-3200 | showing a frame, also when its callback invalidates the queue |
| `RenderScheduler.Scheduler.Drain` | plasma-hawking/src/app/MeetingController.cpp:3046-3219 | the method's whole effect is the drain function of the model |
| `RenderScheduler.Scheduler.Invalidate` | plasma-hawking/src/app/MeetingController.cpp:3220-3234 | clears the queue, takes a new ticket, forgets the last frame |
| `RenderModel.SuggestDelay` | plasma-hawking/src/av/sync/AVSync.h:110-127 | the delay suggested by the audio clock is between 0 and the maximum |
| `RenderPacing.DelayAlignsClocks` | plasma-hawking/src/av/sync/AVSync.h:71-127 | for whole milliseconds v of the video and a of the audio timestamp: a frame not ahead of the sound does not wait, one ahead by less than the maximum waits until a plus the delay is v, any other waits the maximum |
| `RenderPacing.NoClockNoDelay` | plasma-hawking/src/av/sync/AVSync.h:85-92 | without a video timestamp or a running audio clock a frame does not wait |
| `RenderPacing.JudgeExactly` | plasma-hawking/src/app/MeetingController.cpp:3111-3160 | exactly when a due frame goes, is stale, waits and until when, and is shown, in terms of the tickets, timestamps, clocks and cadence bounds |
| `RenderPacing.FramesKeepTheirDistance` | plasma-hawking/src/app/MeetingController.cpp:3143-3200 | over every run two frames shown one after the other in one epoch are at least their own distance apart, within the cadence bounds |
| `RenderPacing.FramesAreOnTime` | plasma-hawking/src/app/MeetingController.cpp:2981-2997 | under a clock that never goes back no frame is shown or queued before the time it was enqueued plus its delay, nor queued for later than the maximal audio delay after that or one maximal cadence after the last frame |
| `RenderQueues.InsertSorted` | plasma-hawking/src/app/MeetingController.cpp:3096-3106 | inserting a task with a higher number than all queued keeps the queue strictly sorted |
| `RenderQueues.TrimPeers` | plasma-hawking/src/app/MeetingController.cpp:3014-3035 | trimming brings the peer to its cap exactly and takes nothing from any other |
| `RenderQueues.TrimTakesEarliest` | plasma-hawking/src/app/MeetingController.cpp:3021-3034 | what trimming takes from a peer is earlier than all it leaves of that peer |
| `RenderQueues.SortOrders` | plasma-hawking/src/app/MeetingController.cpp:3075-3089 | due tasks are shown in strict order: valid timestamps first and increasing |
| `RenderQueues.ComesMeans` | plasma-hawking/src/app/MeetingController.cpp:3075-3089 | a frame shown before one with a valid timestamp has a valid one, not above it; equals are shown by due time and number |
| `RenderRuns.DrainKeepsNewest` | plasma-hawking/src/app/MeetingController.cpp:3091-3094 | a due frame that a drain cuts has no later timestamp than any kept frame with a valid one, among equals was due earlier, and the kept ones fill the limit |
| `RenderRuns.EnqueueDropsEarliest` | plasma-hawking/src/app/MeetingController.cpp:3014-3039 | a task that an enqueue takes out is earlier than all that stay, or than all of its peer that stay |
| `RenderRuns.PutBackDropsEarliest` | plasma-hawking/src/app/MeetingController.cpp:3203-3209 | a task queued again stays unless the queue is too deep and it is earlier than all that stay |
| `RenderRuns.SharingClears` | plasma-hawking/src/app/MeetingController.cpp:3058-3061 | a drain while the screen is shared shows nothing, clears the queue and takes a new ticket |
| `RenderRuns.AgainIsPrompt` | plasma-hawking/src/app/MeetingController.cpp:3122-3160 | a rescheduled frame is due before its audio deadline or within the maximal cadence of the last frame |
| `RenderRuns.QueueSortedAndCapped` | plasma-hawking/src/app/MeetingController.cpp:2981-3219 | in every reachable state tasks are strictly sorted by (due time, sequence), the global cap and every named peer's cap hold |
| `RenderRuns.NeverPostponedBeyondBound` | plasma-hawking/src/app/MeetingController.cpp:3110-3209 | under a clock that never goes back each queued task is due by the later of its audio deadline and the last render time plus the maximal cadence, in every reachable state |
| `RenderRuns.TimestampsIncreaseWithinEpoch` | plasma-hawking/src/app/MeetingController.cpp:3111-3120 | over every run valid timestamps shown between two invalidations strictly increase, and each frame is shown under the ticket and timestamp it was enqueued with |
| `RenderRuns.DrainShowsFew` | plasma-hawking/src/app/MeetingController.cpp:3091-3094 | one drain shows at most the configured number of frames |
| `RenderRuns.NothingSurvivesInvalidation` | plasma-hawking/src/app/MeetingController.cpp:3110-3234 | over every run, for every ticket however it was raised (a call, a share found by a drain, a render callback inside one), a frame shown under it or a later one was enqueued after it was raised, and before the next |
| `RenderRuns.OldTicketsShowNothing` | plasma-hawking/src/app/MeetingController.cpp:3111-3113 | once the ticket has moved past that of the due tasks, the drain under way shows none of them |
| `RenderRuns.RaisedTicketShutsOut` | plasma-hawking/src/app/MeetingController.cpp:3046-3234 | after an operation that raised the ticket no continuation shows a frame enqueued before the operation |
| `RenderRuns.RunKeepsEpochs` | plasma-hawking/src/app/MeetingController.cpp:3220-3234 | after every run the frames of each ticket are exactly those enqueued between its issue and the next |
| `RenderCallbacks.CallbackLeavesTimestamp` | plasma-hawking/src/app/MeetingController.cpp:3195-3200 | a callback that invalidates leaves no last timestamp exactly if the frame shown had no valid one |
| `RenderCallbacks.StaleAfterCallbackIff` | plasma-hawking/src/app/MeetingController.cpp:3115-3120 | after that a frame of the new epoch is dropped as stale exactly if both timestamps are valid and its own is not above the old one |
| `RenderCallbacks.NewEpochFrameLostIff` | plasma-hawking/src/app/MeetingController.cpp:3115-3200 | over a run of two frames, for all timestamps, the new epoch's frame is lost exactly under that condition |
| `RenderRuns.RunKeeps` | plasma-hawking/src/app/MeetingController.cpp:2981-3234 | the joint invariant of order, caps, origins and progress holds after every run, whatever the clock |
| `RenderFates.RoundMoves` | plasma-hawking/src/app/MeetingController.cpp:3110-3201 | each round of the drain loop gives its frame exactly one place |
| `RenderFates.EveryFrameAccountedForOnce` | plasma-hawking/src/app/MeetingController.cpp:2981-3234 | after every run each enqueued frame is counted exactly once among queued, rendered, stale, trimmed and cleared, and nothing else is counted |
| `MemoryStore.PickNextHostParticipant` | meeting-server/signaling/store/memory_store.go:592-609 | the scan, in any map order, finds the member before all others by (join number, user id), even with missing or equal numbers |
| `MemoryStore.NextHostUnique` | meeting-server/signaling/store/memory_store.go:592-609 | there is only one such member, so map iteration order cannot matter |
| `MemoryStore.HeadIsNextHost` | meeting-server/signaling/store/memory_store.go:592-609 | the successor is the head of the join-ordered list of those left, and only it |
| `MemoryStore.MeetingStore.CreateMeeting` | meeting-server/signaling/store/memory_store.go:290-328 | the three maps, host and counter after a create, or the error |
| `MemoryStore.MeetingStore.JoinMeeting` | meeting-server/signaling/store/memory_store.go:330-375 | the maps after a join, with the error cases in the code's order |
| `MemoryStore.MeetingStore.LeaveMeeting` | meeting-server/signaling/store/memory_store.go:377-407 | the maps after a leave: meeting closed, host handed on with its role, or member removed |
| `MemoryStore.JoinRefines` | meeting-server/signaling/store/memory_store.go:330-375 | a join appends to the list, with the same answer |
| `MemoryStore.LeaveRefines` | meeting-server/signaling/store/memory_store.go:377-407 | a leave removes from the list, whichever order the scan took, with the same answer |
| `MemoryStore.StepRefines` | meeting-server/signaling/store/memory_store.go:290-407 | every operation keeps the store equal to the list store, for every meeting at once |
| `MemoryStore.StoreRefinesLists` | meeting-server/signaling/store/memory_store.go:290-407 | over every run the store answers as the list store does; in every state keys agree, size is between 1 and the maximum, the host is the longest-present member and exactly the host has role 1 |
| `MemoryStore.RejoinIff` | meeting-server/signaling/store/memory_store.go:330-355 | a present member who joins again changes nothing and is accepted exactly if the password fits and the meeting is below its maximum |
| `MemoryStore.RejoinFailsExactlyWhenFull` | meeting-server/signaling/store/memory_store.go:330-355 | in every reachable state, with the right password, a member is refused exactly when the meeting has its maximum of members |
| `MemoryStore.SoleHostCannotRejoin` | meeting-server/signaling/store/memory_store.go:330-355 | the host of a meeting for one is refused |
| `MemoryStore.StartsAsGiven` | meeting-server/signaling/store/memory_store.go:290-375 | title, password and capacity (16 by default) of a created meeting, and what its host and members start with |
| `NackBuffer.Cache.constructor` | meeting-server/sfu/rtp/NackBuffer.cpp:5-7 | an empty cache with the default limits where 0 is given |
| `NackBuffer.Cache.StorePacket` | meeting-server/sfu/rtp/NackBuffer.cpp:9-30 | queue and map after a store: refused, replaced in place, or appended with the oldest evicted |
| `NackBuffer.StoreConsistent` | meeting-server/sfu/rtp/NackBuffer.cpp:9-30 | every store keeps queue and map keys equal, free of duplicates and within capacity |
| `NackBuffer.MatchesLog` | meeting-server/sfu/rtp/NackBuffer.cpp:9-45 | after any log of stores the queue is exactly the last insertions up to capacity, each with the last bytes accepted for it |
| `NackBuffer.GetIsLatestInWindow` | meeting-server/sfu/rtp/NackBuffer.cpp:32-45 | a lookup returns the latest accepted bytes if the number is in the window and nothing otherwise |
| `NackBuffer.Survival` | meeting-server/sfu/rtp/NackBuffer.cpp:9-45 | an inserted number survives the next capacity - 1 insertions, and is gone after that unless inserted again |
| `NackBuffer.TakesExactlyFitting` | meeting-server/sfu/rtp/NackBuffer.cpp:9-13 | after a store the packet is retrievable exactly if it is neither empty nor too long, or was there already |
| `NackBuffer.DefaultLimits` | meeting-server/sfu/rtp/NackBuffer.cpp:5-7 | 1500 packets and 1600 bytes where 0 is given |
| `RtpParser.RewriteSsrc` | meeting-server/sfu/rtp/RtpRouter.cpp:103-112 | rewriting in place sets bytes 8 to 11 and leaves every other byte, and short packets, alone |
| `RtpParser.RewriteChangesOnlySsrc` | meeting-server/sfu/rtp/RtpParser.cpp:19-82 | for all packets rewriting changes the parsed SSRC and nothing else, and never whether the packet parses |
| `RtpParser.RewriteOwnSsrc` | meeting-server/sfu/rtp/RtpRouter.cpp:103-112 | writing back a packet's own SSRC changes no byte |
| `RtpParser.ParseInvertsBuild` | meeting-server/sfu/rtp/RtpParser.cpp:19-82 | every packet laid out as section 5.1 of RFC 3550 says, with any sources, extension, payload and padding, is read back field for field and its payload found |
| `RtpRouter.Router.RegisterPublisher` | meeting-server/sfu/rtp/RtpRouter.cpp:10-18 | registering keeps an existing route and its cache |
| `RtpRouter.Router.AddForward` | meeting-server/sfu/rtp/RtpRouter.cpp:25-38 | adds one subscriber to one source, and refuses zero |
| `RtpRouter.Router.ClearForwards` | meeting-server/sfu/rtp/RtpRouter.cpp:40-48 | empties one source's subscribers and keeps its cache |
| `RtpRouter.Router.RoutePacket` | meeting-server/sfu/rtp/RtpRouter.cpp:50-82 | caches the packet and sends each subscriber its rewritten copy, in order, exactly when it parses and has a route |
| `RtpRouter.CachedWasRouted` | meeting-server/sfu/rtp/RtpRouter.cpp:50-101 | over every run whatever is retrievable was routed at some step for that source and number |
| `RtpRouter.CacheIsTruthful` | meeting-server/sfu/rtp/RtpRouter.cpp:84-101 | over every run a packet retrievable as (S, q) parses with SSRC S and sequence q |
| `RtpRouter.CacheIsRoutedLog` | meeting-server/sfu/rtp/RtpRouter.cpp:10-82 | over every run a publisher's cache is exactly what storing, under the number in bytes 2 and 3, the packets routed for it since it was registered gives; nothing else changes it |
| `RtpRouter.RetransmitIsByteIdentical` | meeting-server/sfu/rtp/RtpRouter.cpp:50-112 | over every run a cached packet was routed, and each time it was, its retransmission is byte for byte what every subscriber with that SSRC was sent |
| `RtcpHandler.ParseCompound` | meeting-server/sfu/rtp/RtcpHandler.cpp:52-90 | the offset loop computes the summaries of the recursive reading |
| `RtcpHandler.CompoundTilesPrefix` | meeting-server/sfu/rtp/RtcpHandler.cpp:52-90 | for any buffer the summaries tile a prefix with well-formed packets and report their fields truly |
| `RtcpHandler.CompoundInvertsConcat` | meeting-server/sfu/rtp/RtcpHandler.cpp:52-90 | any list of well-formed packets parses back to exactly its fields, offsets and sizes |
| `RtcpHandler.ConsumedIffCompound` | meeting-server/sfu/server/MediaIngress.cpp:1235-1243 | summaries are found and their sizes sum to the length exactly when the buffer is a nonempty concatenation of well-formed packets |
| `RtcpHandler.ParseNackFeedback` | meeting-server/sfu/rtp/RtcpHandler.cpp:148-182 | the nested loops over packets, blocks and bits compute the feedback list that `RtcpHandler.NackReportsExactly` characterises from the bytes |
| `RtcpHandler.MaskMembers` | meeting-server/sfu/rtp/RtcpHandler.cpp:168-173 | a number is in the mask's list exactly when its distance from PID + 1 modulo 65536 is a set bit |
| `RtcpHandler.LostMembers` | meeting-server/sfu/rtp/RtcpHandler.cpp:161-174 | a number is reported for a packet exactly when some block names it |
| `RtcpHandler.NackReportsExactly` | meeting-server/sfu/rtp/RtcpHandler.cpp:148-182 | a number is reported lost by a sender for an SSRC exactly when at some offset that fitting packets lead to stands a packet of type 205, format 1 and at least 16 bytes with these SSRCs and a block with PID equal to it or the right BLP bit |
| `RtcpHandler.TypeInvertsCode` | meeting-server/sfu/rtp/RtcpHandler.cpp:35-48 | the packet type numbers are recognised exactly |
| `Remb.EncodeRembBitrate` | meeting-server/sfu/server/MediaIngress.cpp:59-67 | mantissa times 2^exp is the least multiple of 2^exp not below the rate, exp at most 15, exact below 2^18, otherwise less than 2b/(2^18 - 1) above; the largest 32-bit rate is the one exception and its result is given |
| `Remb.BuildThenParse` | meeting-server/sfu/server/MediaIngress.cpp:31-57 | building then parsing yields exactly one feedback, field for field |
| `Remb.ParseInvertsPacket` | meeting-server/sfu/rtp/RtcpHandler.cpp:202-244 | a REMB packet for any list of 1 to 255 targets is read back with every field, the targets in order |
| `Remb.RembReportsExactly` | meeting-server/sfu/rtp/RtcpHandler.cpp:202-244 | a rate is reported for a target exactly when some packet of type 206 and format 15 of the datagram says so |
| `Remb.EveryReportHasTargets` | meeting-server/sfu/rtp/RtcpHandler.cpp:227-240 | every report has a target and the saturated rate |
| `Remb.CapIsTight` | meeting-server/sfu/server/MediaIngress.cpp:425-427 | the kbps cap is the largest whose bps fit 32 bits |
| `Remb.ParseRembFeedback` | meeting-server/sfu/rtp/RtcpHandler.cpp:202-244 | the loops compute the feedback of each well-formed REMB packet |
| `Remb.SendEstimatedRemb` | meeting-server/sfu/server/MediaIngress.cpp:401-472 | for every positive kbps the packet parses to one feedback for the source, covering the capped rate within the overshoot bound and saturating at 2^32 - 1 |
| `RembAggregator.Aggregator.Select` | meeting-server/sfu/server/MediaIngress.cpp:775-823 | stores the sample, drops the stale ones and reports one with the least rate |
| `RembAggregator.Prune` | meeting-server/sfu/server/MediaIngress.cpp:801-807 | erasing in any order leaves exactly the recent samples |
| `RembAggregator.Least` | meeting-server/sfu/server/MediaIngress.cpp:813-819 | the scan, in any order, finds a sample with the least rate |
| `RembAggregator.TableMatchesLog` | meeting-server/sfu/server/MediaIngress.cpp:775-823 | under a steady clock the table holds each endpoint's latest sample unless that is stale |
| `RembAggregator.TableIsLiveSet` | meeting-server/sfu/server/MediaIngress.cpp:793-807 | at every arrival the table is exactly the endpoints whose latest sample since the last removal is at most 3 seconds old |
| `RembAggregator.SelectedIsLogMinimum` | meeting-server/sfu/server/MediaIngress.cpp:813-823 | the selected rate is the minimum over each endpoint's latest sample that is at most 3,000,000,000 ns old |
| `Rtt.RttIsAccurate` | meeting-server/sfu/server/MediaIngress.cpp:721-757 | without a wrap the result is less than 1 ms above and less than a tick plus a microsecond below the true value; less than a tick below for whole microseconds |
| `Rtt.RttScaled` | meeting-server/sfu/server/MediaIngress.cpp:721-757 | the result equals the true value less the lag of the floors plus the slack of the ceiling |
| `Rtt.WrapReportsZero` | meeting-server/sfu/server/MediaIngress.cpp:742-757 | after a wrap of the compact clock every round trip is reported as 0 |
| `Rtt.UnmatchedReportsZero` | meeting-server/sfu/server/MediaIngress.cpp:742-748 | a report that echoes another sender report, or none, is reported as 0 |
| `Rtt.SubMicrosecondLosesMore` | meeting-server/sfu/server/MediaIngress.cpp:725-732 | a concrete elapsed time for which the result is more than a tick low |
| `Rtt.LowerBoundIff` | meeting-server/sfu/server/MediaIngress.cpp:721-757 | the result is less than a tick low exactly when the true value is below a tick, or there was no wrap and the slack covers the lag |
| `RouteRewrite.Hash` | meeting-server/sfu/server/MediaIngress.cpp:678-694 | the byte loop computes the FNV fold of the key |
| `RouteRewrite.FoldedMeetsSource` | meeting-server/sfu/server/MediaIngress.cpp:696-701 | the folded hash is never 0 and equals the source only for source 0x5A5A5A5A with a hash of 0 in its low 31 bits |
| `RouteRewrite.NeverZero` | meeting-server/sfu/server/MediaIngress.cpp:1003-1013 | for every hash, count and nonzero source the final SSRC is not 0 |
| `RouteRewrite.OwnSsrcOnlyInOneCase` | meeting-server/sfu/server/MediaIngress.cpp:1003-1013 | with several publishers it is the subscriber's own SSRC exactly in the one case named |
| `RouteRewrite.RemoteVideoSsrc` | plasma-hawking/src/app/MeetingController.cpp:2374-2387 | the client's branches compute the expected SSRC |
| `RouteRewrite.ClientRewrite` | plasma-hawking/src/app/MeetingController.cpp:135-157 | the client's loop over signed characters computes its left fold |
| `RouteRewrite.ClientKeyIsKey` | plasma-hawking/src/app/MeetingController.cpp:143-146 | filling the numbered template yields the bytes the SFU concatenates |
| `RouteRewrite.ClientFoldIsFnv` | plasma-hawking/src/app/MeetingController.cpp:147-151 | the left fold over signed characters equals the SFU's hash of the bytes |
| `RouteRewrite.UpdateRemoteMappings` | plasma-hawking/src/app/MeetingController.cpp:2358-2391 | the counting and mapping loops compute the mapping of the participant list |
| `RouteRewrite.ClientAgreesWithServer` | plasma-hawking/src/app/MeetingController.cpp:135-157 | for equal counts and own SSRC client and SFU compute the same value for every source, each from its own key and loop |
| `RouteRewrite.OneLeftNeedsRefresh` | meeting-server/sfu/server/MediaIngress.cpp:296-331 | a route made for several publishers equals what a client counting one expects in one case only |
| `PublisherRemoval.RemovalKeepsCurrentIff` | meeting-server/sfu/server/MediaIngress.cpp:296-331 | from routes that reflect the room, with distinct SSRCs and addresses: after a publisher is removed they still do if and only if no kind of media drops to one publisher with a subscriber that has an SSRC of its own (but for the one hash case) |
| `PublisherRemoval.SourceCurrentIff` | meeting-server/sfu/server/MediaIngress.cpp:296-331 | the same, source by source |
| `PublisherRemoval.RemovalLeavesStaleRoutes` | meeting-server/sfu/server/MediaIngress.cpp:296-331 | runs in which it fails: any two video publishers and a watching subscriber, current after the binds, stale after one leaves |
| `RouteRewrite.MappingsAreServerRoutes` | plasma-hawking/src/app/MeetingController.cpp:2358-2391 | exactly the expected participants get a mapping, and it is the SFU's SSRC for their last entry |
| `RouteRewrite.LastExpectedIff` | plasma-hawking/src/app/MeetingController.cpp:2369-2373 | a participant has such an entry exactly if some entry with its nonempty id, not the client's own, has a video SSRC and video or sharing on |
| `RouteRewrite.CountIsEntries` | plasma-hawking/src/app/MeetingController.cpp:2361-2367 | the count is the number of entries with a user and a video SSRC |
| `RouteRewrite.DecimalIsRead` | meeting-server/sfu/server/MediaIngress.cpp:688 | the decimal digits in the key stand for the source SSRC |
| `MediaRoutes.ChoiceNeverRefused` | meeting-server/sfu/server/MediaIngress.cpp:998-1020 | no forwarding target is ever refused by the router |
| `MediaRoutes.RefreshedRoutes` | meeting-server/sfu/server/MediaIngress.cpp:940-1025 | a refresh makes the source's subscribers exactly the targets, in order, and touches no other source |
| `MediaRoutes.RefreshedFeedback` | meeting-server/sfu/server/MediaIngress.cpp:940-1025 | after a refresh exactly the targets lead back to the source and every other entry is as it was |
| `MediaRoutes.RefreshMakesCurrent` | meeting-server/sfu/server/MediaIngress.cpp:940-1025 | after a refresh the source's routes reflect the room: one per subscriber with a usable endpoint |
| `MediaPorts.VideoGoesToVideoEndpoint` | meeting-server/sfu/server/MediaIngress.cpp:987-990 | current video routes reach every subscriber that is not excluded at its video endpoint |
| `MediaPorts.AudioGoesToAudioEndpoint` | meeting-server/sfu/server/MediaIngress.cpp:991-993 | current audio routes reach it at its audio endpoint |
| `MediaPorts.FallsBack` | meeting-server/sfu/server/MediaIngress.cpp:987-993 | without an endpoint of its kind media goes to the common endpoint, and without that to the other kind's |
| `MediaPorts.NoEcho` | meeting-server/sfu/server/MediaIngress.cpp:983-985 | with several subscribers none is sent its own media |
| `MediaPorts.OtherKindStays` | meeting-server/sfu/server/MediaIngress.cpp:940-1025 | a subscriber that moves its endpoint of one kind leaves the routes of the other kind as they were, if it had an endpoint for that |
| `MediaRoutes.AfterKeepsSound` | meeting-server/sfu/server/MediaIngress.cpp:940-1059 | any sequence of whole operations, one after another, keeps feedback index and router in agreement and the caches truthful |
| `MediaIngress.Ingress.CreateRoom` | meeting-server/sfu/room/RoomManager.cpp:9-17 | an existing room is kept, and no room is made for no publishers |
| `MediaIngress.Ingress.DestroyRoom` | meeting-server/sfu/room/RoomManager.cpp:19-33 | removes the room and leaves the routes |
| `MediaIngress.Ingress.RefreshPublisherRoutes` | meeting-server/sfu/server/MediaIngress.cpp:940-1025 | with no other operation inside it: one refresh step for an owner of the source over all subscribers in some order, which leaves the source current |
| `MediaIngress.Ingress.RefreshRoomRoutes` | meeting-server/sfu/server/MediaIngress.cpp:919-938 | with no other operation inside it: leaves the routes of every publisher of the room current |
| `MediaIngress.Ingress.RemovePublisherRoutes` | meeting-server/sfu/server/MediaIngress.cpp:1027-1059 | with no other operation inside it: removes the source's route and every feedback entry leading to it |
| `MediaIngress.Ingress.BindPublisher` | meeting-server/sfu/server/MediaIngress.cpp:121-164 | succeeds exactly when the room admits the publisher, never beyond its limit; a nonzero SSRC replaces, 0 keeps the old one; drops replaced ones first and, with no other operation inside it, leaves all routes of the room current |
| `MediaIngress.Ingress.BindSubscriber` | meeting-server/sfu/server/MediaIngress.cpp:166-198 | a nonzero SSRC replaces, 0 keeps the old one, endpoints stay and, with no other operation inside it, all routes of the room are left current |
| `MediaIngress.Ingress.RemovePublisher` | meeting-server/sfu/server/MediaIngress.cpp:296-331 | removes the publisher and the routes of both its SSRCs, and says exactly when the remaining routes still reflect the room |
| `MediaIngress.Ingress.RemoveSubscriber` | meeting-server/sfu/server/MediaIngress.cpp:333-350 | removes the subscriber and, with no other operation inside it, leaves all routes of the room current |
| `MediaIngress.Ingress.SelectEndpoint` | meeting-server/sfu/server/MediaIngress.cpp:825-853 | moves the subscriber's endpoints of that kind and, with no other operation inside it, leaves all routes of the room current: every source of that kind it is not excluded from is sent to the new address, and the routes of the other kind stay |
| `MediaIngress.Ingress.ResolveNackSource` | meeting-server/sfu/server/MediaIngress.cpp:887-903 | a published SSRC stands for itself, otherwise the feedback index decides |
| `MediaIngress.Ingress.AnswerNack` | meeting-server/sfu/server/MediaIngress.cpp:1118-1141 | every cached number asked for is answered, in order, under the requester's SSRC; if the index resolved the NACK, each answer is what the router forwards to that endpoint |
| `MediaIngress.RepliesExactly` | meeting-server/sfu/server/MediaIngress.cpp:1126-1140 | a reply is sent exactly for the numbers asked for that have a nonempty packet in the cache, under the requester's SSRC |
| `MediaRoutes.Reachable` | meeting-server/sfu/server/MediaIngress.cpp:940-1059 | after any sequence of whole refreshes, removals, registrations and packets, one after another, both indexes agree and the caches are truthful |
| `MediaRoutes.FeedbackIsBacked` | meeting-server/sfu/server/MediaIngress.cpp:940-1059 | after any such sequence a feedback entry (endpoint, m) to S is matched by a current subscriber of S with SSRC m at that endpoint |
| `MediaRoutes.NackReplyIsForwardedCopy` | meeting-server/sfu/server/MediaIngress.cpp:1118-1141 | after any such sequence a NACK resolved by the feedback index is answered with the bytes the router forwards to that endpoint for the cached packet |
| `MediaIndex.RouteFoundBackIff` | meeting-server/sfu/server/MediaIngress.cpp:940-1059 | after any such sequence a current subscriber's key leads back to its source if and only if no other source was given the same SSRC at the same endpoint since |
| `MediaIndex.SharedKeyLosesEntry` | meeting-server/sfu/server/MediaIngress.cpp:1022-1041 | runs in which a shared key and a removal leave a route without an entry |
| `MediaEvents.FeedbackLaw` | meeting-server/sfu/server/MediaIngress.cpp:965-1023 | for every order in which any number of threads take the locks, the index leads from a key to a source exactly if a note of it still stands |
| `MediaEvents.RouteLaw` | meeting-server/sfu/rtp/RtpRouter.cpp:20-48 | likewise the router has a subscriber exactly if an addition of it still stands |
| `MediaEvents.SourceBackedIff` | meeting-server/sfu/server/MediaIngress.cpp:940-1059 | for every such order the entries of a source are backed if and only if each standing note has a standing addition |
| `MediaEvents.UndisturbedRefresh` | meeting-server/sfu/server/MediaIngress.cpp:965-1024 | the steps of a refresh with none between them have the effect of the one-step refresh |
| `MediaEvents.UndisturbedRemoval` | meeting-server/sfu/server/MediaIngress.cpp:1032-1042 | likewise for a removal |
| `MediaEvents.CachesAlwaysTruthful` | meeting-server/sfu/rtp/RtpRouter.cpp:50-101 | whatever overlaps, every cached packet parses with its source and sequence |
| `MediaThreads.AlwaysHistoric` | meeting-server/sfu/server/MediaIngress.cpp:965-1042 | over every schedule of any number of jobs each refresh erases, clears, and adds before it notes, and no addition is ever refused |
| `MediaThreads.FeedbackIsBackedUndisturbed` | meeting-server/sfu/server/MediaIngress.cpp:940-1059 | in every state of every schedule in which no step of another refresh or removal of the same source falls between a refresh's erase and its last insertion, each entry is backed by a current subscriber unless its source is in mid-removal; different sources interleave freely |
| `MediaThreads.BackedAtRest` | meeting-server/sfu/server/MediaIngress.cpp:940-1059 | when all jobs of such a schedule are finished every entry is backed |
| `MediaThreads.FinishedRefreshIsExact` | meeting-server/sfu/server/MediaIngress.cpp:976-1024 | in such a schedule the step that finishes a refresh leaves the source with exactly the subscribers it added, in order |
| `MediaThreads.NackReplyUndisturbed` | meeting-server/sfu/server/MediaIngress.cpp:1118-1141 | in every state of such a schedule a NACK resolved by the index, for a source not in mid-removal, is answered with the bytes the router forwards there |
| `MediaOverlap.OverlapBackedIff` | meeting-server/sfu/server/MediaIngress.cpp:940-1059 | over every schedule, after two operations (refreshes or removals) that had a source to themselves, its entries are backed if and only if every insertion of one that is noted after the erase and added before the clear of the other is added again after that clear |
| `MediaOverlap.OverlapLeavesUnbackedEntry` | meeting-server/sfu/server/MediaIngress.cpp:965-1023 | a schedule of two overlapping refreshes after which an entry leads from an endpoint where the source has no subscriber |
| `MediaOverlap.RemovalOverlapLeavesEntry` | meeting-server/sfu/server/MediaIngress.cpp:1014-1042 | a schedule of a refresh and a removal after which an entry leads to a source that is gone |
| `Snowflake.Generator.Next` | meeting-server/signaling/pkg/snowflake.go:32-58 | one call moves (last millisecond, sequence) as the transition relation says, with the spin loop ending at the first later reading |
| `Snowflake.IdsIncreaseIff` | meeting-server/signaling/pkg/snowflake.go:32-58 | over every run with readings below the 42-bit limit, two identifiers less than 2^42 ms apart are in order if and only if the epoch does not fall between their times |
| `Snowflake.IdsIncrease` | meeting-server/signaling/pkg/snowflake.go:32-58 | over every run whose clock starts at or after the epoch and may then go back, identifiers strictly increase, across the 4096 wrap too |
| `Snowflake.Decompose` | meeting-server/signaling/pkg/snowflake.go:53-57 | time, node and sequence can be read back from an identifier |
| `Snowflake.LowBits` | meeting-server/signaling/pkg/snowflake.go:53-57 | node and sequence can be read back from every identifier, whatever its time |
| `Snowflake.NodesNeverCollide` | meeting-server/signaling/pkg/snowflake.go:24-58 | generators with different node numbers never produce the same identifier, in any two runs of any two clocks |
| `Snowflake.EarlyClockBreaksOrder` | meeting-server/signaling/pkg/snowflake.go:32-58 | a clock that starts before the epoch and passes it breaks the order |

## Left out

- Failover: SFU servers do not lose rooms on their own, a node's RPC address resolves to one fixed server, and the end of a meeting (which destroys its room deliberately) is not a step of the failover runs.
- RouteCalls: status reports that overwrite the load counter, key expiry and quarantine timing are not steps; without Redis the store does nothing and is not modelled.
- RecoveryLock: the distributed lock in Redis and its expiry; the failover results do not use it.
- NodeRanking.RankedNodes: allocation numbers are unbounded, so the signed conversion of a local counter above 2^63 is not modelled; sorting is a stable sort of the model's own.
- RenderScheduler: the checks for a missing timer, frame store or callback, timer start and stop, skew statistics, and 64-bit overflow when a timestamp is scaled to milliseconds; a render callback re-enters only by invalidating; `std::stable_sort` is a stable sort of the model's own.
- MemoryStore: chat, mute and share flags, SSRC fields, password hashing and the database; a generated meeting number that is already in use replaces that meeting, as in the code; counters do not wrap.
- RtpRouter: callbacks are endpoints, the order of concurrent calls is that of the router's lock, and packets sent while a route is being replaced are not modelled.
- MediaIngress.Ingress.RefreshPublisherRoutes: promises current routes for an operation that runs alone; what overlapping ones leave is stated by MediaThreads and MediaOverlap.
- MediaIngress.Ingress.RefreshRoomRoutes: likewise.
- MediaIngress.Ingress.RemovePublisherRoutes: likewise.
- MediaIngress.Ingress.BindPublisher: likewise for its current routes.
- MediaIngress.Ingress.BindSubscriber: likewise for its current routes.
- MediaIngress.Ingress.RemoveSubscriber: likewise for its current routes.
- MediaIngress.Ingress.SelectEndpoint: likewise for its current routes.
- MediaRoutes.AfterKeepsSound: whole operations one after another; MediaThreads has the interleaved form.
- MediaRoutes.Reachable: likewise.
- MediaRoutes.FeedbackIsBacked: likewise.
- MediaRoutes.NackReplyIsForwardedCopy: likewise.
- MediaThreads: routing a packet is one event, so a copy sent from a subscriber list that is being replaced is not told apart; what the room looks like to a job is arbitrary at each subscriber.
- MediaIngress: address parsing is a parameter, and so are STUN, DTLS and SRTP; PLI throttling, sender-report bookkeeping and traffic counters are not modelled.
- PublisherRemoval.RemovalKeepsCurrentIff: is stated for rooms in which no SSRC is published twice and no two subscribers share an address; otherwise a removal can also take another publisher's route, and a coincidence of hashes at one address can hide a stale one.
- Remb.SendEstimatedRemb: the throttle that skips an estimate sent within 500 ms and 5% of the last one, and the lookup of the publisher; the source SSRC is a parameter, 0 when there is none.
- RouteRewrite.ClientKeyIsKey: text is a sequence of byte values, and identifiers are filled into the client's template as they are; an identifier that itself contains a place marker such as `%1` would be filled again by the second pass, which is not modelled.
- Snowflake.Generator.Next: the spin loop ends because the readings eventually pass the last millisecond; the model requires that.
- `BandwidthEstimator`, sockets, sessions, the TCP protocol, authentication, QML models, SQL stores and configuration: plumbing around these parts that would only add easy members.
