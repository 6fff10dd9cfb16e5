# shm2 transport: model and proofs

This project models the shared-memory transport of shm2-rs and proves what it promises. The transport
moves buffers between a producer (`Writer`) and a consumer (`Reader`) through one shared region: a
header, a ready ring, a recycle ring and an arena of bytes that the producer's first-fit allocator
hands out.

| file | models |
|---|---|
| `Basics.dfy`, `Rings.dfy` | arithmetic, ring windows addressed by growing counters |
| `Heap.dfy`, `HeapLemmas.dfy`, `Allocator.dfy` | the first-fit allocator: as a value, its laws, and as an object with its histories |
| `Timeline.dfy` | timeline generation and snapshot in the header |
| `Channel.dfy`, `ChannelLemmas.dfy` | the region and the writer's private state as a value, one function an operation |
| `Transport.dfy` | `SharedRegion`, `Writer`, `Reader`: the operations in place, each proved equal to its function |
| `System.dfy` | the state machine of the whole transport, its three families of runs and their invariants |
| `SoundRuns.dfy`, `TidyRuns.dfy`, `OwnedRuns.dfy` | every event keeps the three invariants |
| `Guarantees.dfy` | the theorems about whole runs: ownership, order, making room, the live policy, announcements |
| `Operations.dfy` | what each operation does, field by field, and what repeated receives deliver |
| `Payloads.dfy` | payload bytes from copy to return, the whole cycle, and runs that break the promises |
| `RecycleRing.dfy` | the recycle ring at the grain of single loads and stores |
| `ClockSync.dfy` | the slew-limited clock synchroniser |
| `Sessions.dfy`, `Consumer.dfy`, `SessionRuns.dfy` | the synchroniser and the transport together, the header load by load and store by store: what every session keeps, when the consumer has the right generation, and runs in which it has not |
| `LeaseTracker.dfy` | the sink's map from lent pointers to leases |

Three layers connect the code to the theorems. The classes update counters, slots and arena bytes in
place; each method's contract gives its whole new state as a function of the old one, where a ring is
seen as the sequence between its counters (`Rings.PushWindow`, `Rings.PopWindow`). The state machine
in `System.dfy` is built from the same functions, and the theorems quantify over its runs.

There are three families of runs. *Issued* runs allow everything: resets, attaches, returns of stale
or invented descriptors, leases from before a reset. `Sound` holds in all of them. *Orderly* runs only
demand besides that the id counter does not come round to a live id; there the heap stays `Tidy`,
whatever is returned or freed. *Owned* runs demand that a lease is used while it is leased and that a
received frame is returned once by its holder (as the drop of `ShmReadWrap` does); a reset ends every
holding. `Accounted` holds in all of those, resets included. `StaleReturnRun` shows why the holder has
to be the one who returns.

Sessions are finer still. There the consumer takes a frame, loads the seven fields of the snapshot one
by one, and maps the timestamp; the writer queues a frame, decides whether to announce, loads the
generation, and makes six stores; an attach or reset changes the generation in one act and invalidates
the snapshot in another. Anyone may act between any two of these. `PublishInSteps` and `ChangeInSteps`
show that, left alone, these acts add up to the operations.

## Where code and documents differ

The model follows the code.

- README.md:194 says the sink never blocks for a consumer. `publish_lease` (src/transport.rs:323-347)
  polls while the ready ring is full. `PublishWaitsIff` gives the exact condition, `WaitingRun` a run
  that meets it.
- docs/SHM2_LIVE_SYNC_DESIGN.md:75-79 derives the offset from sink clock and producer timestamp. The
  code takes it from the local running time and the sink clock, and adds (sink clock - producer
  timestamp) when it maps a frame (src/shm2src.rs:115-132, src/shm2src.rs:413-416).
- docs/SHM2_LIVE_SYNC_DESIGN.md:61-63 drops one frame when three or more are queued. The code takes
  the second-newest and drops all that are older (src/transport.rs:585-603).
- docs/SHM2_LIVE_SYNC_DESIGN.md:95 asks to ignore small clock errors. The code corrects every error.
- `alloc_failures` never exceeds 1: the only path that counts a failure has just reset the counter
  (src/transport.rs:297-302). `Sound` carries this.
- docs/SHM2_LIVE_SYNC_DESIGN.md:83-88 takes the offset, once the generation changes, from the next valid
  snapshot, that is, one of the new generation. The consumer never compares `snapshot_gen` with
  `generation` (src/shm2src.rs:107-132), and nothing orders its loads (src/shm2src.rs:354-374,
  src/transport.rs:696-707), the writer's stores (src/transport.rs:445-462) and the two stores of an attach
  or reset (src/transport.rs:429-430, src/transport.rs:730-731). `InStepThroughoutIff` says exactly when a
  valid offset is of the expected generation, `FramesAreMappedInTheirGenerationIff` when a frame is mapped
  by its own, and `AnnouncedIsCurrentIff` when a valid snapshot is current, each in terms of where attaches
  and resets fall. Four runs show how it fails: a reset within a reading (`ResetWithinReading`), a reading
  within a reset (`ReadingWithinReset`), an attach within an announcement (`AttachWithinAnnouncement`,
  `AttachRun`), and a reset and a publish between take and reading (`ResetBetweenTakeAndReading`).
  `CheckedReadingKeepsStep` is a test that would rule out the first three.
- An allocation of size zero can cut a free range in two touching entries. Exactly then the list stops
  being canonical (`AllocateCanonicalIff`) and first fit stops being complete
  (`AllocateCompleteIff`; `EmptyBlockBreaksCompleteness` is an instance). Tiling, ownership, payload and
  bounds hold for all sizes, and an emptied arena is whole again for all sizes.
- Lending can overwrite an entry of the lease tracker: exactly when an empty lease is pending at the
  same address, or when the new lease is empty, was placed at the end of its free range, and a lease
  with bytes begins there (`LendOverwritesIff`). `EmptyLeasesCollide` and `EmptyLendLosesLiveLease` are
  runs of both kinds.
- The drop of a lent memory frees whatever its address is lent to at that time (src/shm2sink.rs:97-145).
  `LateDropRun` is a run from the start that frees another's lease so; `DropIsNoOpIff` and
  `PublishedBlockKeepsItsAddress` say when the drop changes nothing.
- A reset does not clear the lease tracker. `ResetForgetsLeases` and `EntriesAfterReset` say what the old
  entries do until the next reset.
- A return that is not the holder's can free another's block. `ReturnIsHarmlessIff` says exactly when it
  does not, `StaleReturnRun` is a run in which it does.
- Frames skipped by an attach or by a full recycle ring are never freed before a reset. `StrandedStays`
  and `OnlyStrandedBlocksLeak` say that this is all that leaks.
- After 2^32 - 1 allocations ids repeat (src/allocator.rs:50). `AllocateTilesIff` says exactly when
  that loses a block, and `IdWrapLosesBlock` is a history in which it does.

## Model

| member | source | states |
|---|---|---|
| Heaps.AlignUp | src/allocator.rs:98-104 | the result is a multiple of the alignment, not below the argument, and less than one alignment above it |
| HeapLemmas.AlignUpIsLeast | src/allocator.rs:98-104 | no smaller multiple of the alignment is at or above the argument |
| Allocator.FreeListAllocator.Alloc | src/allocator.rs:26-63 | the scanning loop with its in-place remove and inserts computes first fit: new free list, used map, next id and result |
| Allocator.FreeListAllocator.FreeById | src/allocator.rs:65-72 | frees a live id and reports it, leaves everything alone for an unknown one |
| Allocator.FreeListAllocator.InsertAndCoalesce | src/allocator.rs:78-95 | the merging loop over the sorted list computes the coalesced list |
| Allocator.FreeListAllocator.UsedBytes | src/allocator.rs:74-76 | the sum over the used map |
| HeapLemmas.CoalesceFacts | src/allocator.rs:78-95 | after every free no two free entries touch, whatever the sizes; no empty entry appears if none was given |
| HeapLemmas.CoalesceCovers | src/allocator.rs:78-95 | the merged list covers exactly the old free bytes and the freed ones |
| HeapLemmas.AllocateLowest | src/allocator.rs:26-63 | for positive size: succeeds iff some aligned offset in the arena touches no used range, and returns the least such offset |
| HeapLemmas.CanonicalUnique | src/allocator.rs:78-95 | two canonical free lists over the same bytes are equal |
| HeapLemmas.SameBytesSameFreeList | src/allocator.rs:41-95 | heaps with the same used bytes have the same free list |
| HeapLemmas.AllocateTilesIff | src/allocator.rs:49-51 | free and used ranges still tile the arena after an allocation iff the new id owned no bytes |
| Allocator.IdWrapLosesBlock | src/allocator.rs:49-51 | a history of 2^32 allocations from a fresh arena, of two blocks live at a time, after which a byte is neither free nor used |
| HeapLemmas.AllocateCanonicalIff | src/allocator.rs:36-47 | the free list stays canonical iff the allocation does not cut a range at an empty block |
| HeapLemmas.AllocateCompleteIff | src/allocator.rs:26-63 | afterwards every positive request is served, and by the lowest hole, iff the allocation did not cut a range at an empty block |
| HeapLemmas.EmptyBlockBreaksCompleteness | src/allocator.rs:26-63 | a concrete zero-size history after which 90 free bytes do not serve 60 |
| Allocator.HistoryTiles | src/allocator.rs:18-95 | after any history of fewer than 2^32 allocations of any size: disjoint, nothing missing, bytes conserved, ids fresh |
| Allocator.HistoryCanonical | src/allocator.rs:18-95 | with positive sizes the free list is sorted, non-empty and strictly gapped after any history |
| Allocator.HistoryIsForgotten | src/allocator.rs:18-95 | histories of positive sizes with the same used map have the same free list |
| Allocator.EmptiedHistoryIsWhole | src/allocator.rs:18-95 | after any history of any sizes that freed everything the arena is one free range |
| Transport.Writer.Create | src/transport.rs:226-273 | rejects empty rings and a missing arena, otherwise the initial state |
| Operations.RegionsAreDisjoint | src/transport.rs:749-789 | header, ready ring, recycle ring and arena follow one another without overlap, aligned, the arena on the first page boundary behind the rings |
| Transport.Writer.AllocLease | src/transport.rs:288-311 | the loop of attempt, drop oldest, reset and retry, as one function of the old state |
| Operations.RequestAfterReset | src/transport.rs:294-306 | a request that resets loses everything queued or out; larger than the arena it fails and is counted, otherwise it is served at the start of the arena |
| Transport.Writer.DropOldestReady | src/transport.rs:373-388 | drops the head of the ready queue and releases its block, false iff empty |
| Transport.Writer.ResetAllocatorState | src/transport.rs:420-431 | fresh heap, empty rings, next generation |
| Operations.ResetLeavesAFreshRegion | src/transport.rs:420-431 | counters, rings and heap are those of a fresh region; arena bytes and the rest of the snapshot stay |
| Transport.Writer.FreeLease | src/transport.rs:313-319 | releases one id, updates the meter, reports whether it was live |
| Operations.FreeReleasesOne | src/transport.rs:313-319 | that id and no other is released and the rest metered |
| Transport.Writer.PublishLease | src/transport.rs:321-348 | one pass: appends the descriptor, meters, announces the timeline when due; nothing while the ring is full |
| Operations.PublishAppendsOne | src/transport.rs:321-341 | one descriptor is appended, with the block's place and length, the timestamp as both timestamps, no duration, no flags and the next number; nothing else in rings, arena and heap changes |
| Operations.PublishRenewsSnapshotIff | src/transport.rs:433-462 | the snapshot is renewed iff the generation is not the one last announced or the period is over; then it reads back as this publish's clock, timestamp and number |
| Transport.Writer.Publish | src/transport.rs:275-286 | allocate, copy the payload into the block, publish |
| Transport.Writer.DrainRecycles | src/transport.rs:355-371 | empties the recycle ring and releases its ids in order |
| Operations.DrainTakesAll | src/transport.rs:355-371 | the recycle ring is empty and exactly the ids named in it are no longer live |
| Transport.Writer.ForceTimelineSnapshot | src/transport.rs:445-462 | the whole new snapshot and beacon |
| Transport.Reader.TryRecvDesc | src/transport.rs:548-572 | takes the oldest queued descriptor, none iff empty, refused iff out of the arena |
| Operations.RecvTakesTheOldest | src/transport.rs:548-572 | in every sound region nothing is received iff the queue is empty; otherwise the oldest frame, and only it leaves the queue |
| Operations.ReceivingEmptiesTheQueue | src/transport.rs:548-572 | as many receives as frames are queued deliver exactly those, in order, and leave none |
| Transport.Reader.TryRecvLatestDesc | src/transport.rs:574-624 | the recycling loop with its early exit computes the closed form of the live policy |
| Operations.TwoLatestReceivesEmptyTheQueue | src/transport.rs:574-624 | two receives of the live policy deliver the two newest frames in order and leave none |
| Transport.Reader.TryRecycleDesc | src/transport.rs:641-694 | appends to the recycle ring, nothing while it is full |
| Operations.RecycleAppendsOne | src/transport.rs:641-694 | one entry is appended with the id, place, length and status given and the next number; into a full ring nothing |
| Transport.Reader.PayloadBytes | src/transport.rs:626-630 | the arena bytes of an in-bounds descriptor |
| Transport.Reader.SyncStartupState | src/transport.rs:726-735 | skips the backlog and starts a generation |
| Operations.AttachSkipsAll | src/transport.rs:726-731 | every frame leaves the queue, the generation is the next and the snapshot invalid; nothing else changes |
| Rings.PushWindow | src/transport.rs:327-341 | storing at `head % cap` below capacity appends to the window and disturbs none of it |
| Guarantees.EveryRunIsSound | src/transport.rs:275-746 | in every run, stale handles and resets included: ring bounds, slot numbers, arena bounds, timeline and history; no receive is refused; at most one counted failure |
| Guarantees.EveryOwnedRunIsAccounted | src/transport.rs:275-694 | in every owned run each live id is in exactly one of leased, queued, held, in the recycle ring, stranded |
| Guarantees.EveryOrderlyRunIsTidy | src/transport.rs:275-431 | with ids not reused, tiling holds whatever is returned or freed, and the free list is canonical unless an empty block was handed out |
| Guarantees.NoBlockIsLost | src/transport.rs:355-694 | used ids are those with a place; queue and recycle ring name exactly theirs; stranded means skipped |
| Guarantees.EveryReleaseFindsItsBlock | src/transport.rs:363-383 | each free made by draining or dropping finds its id live |
| Guarantees.FewAllocationsAreFresh | src/allocator.rs:49-51 | ids need no care for the first 2^32 - 1 allocations after a reset |
| Payloads.UnownedReturnFreesQueuedFrame | src/transport.rs:355-371 | a return naming the id of a queued frame releases the block under it |
| Payloads.ReturnIsHarmlessIff | src/transport.rs:355-371 | a return followed by a drain frees nobody else's block iff it names no live id, is the holder's, or names one already on its way back |
| Payloads.StaleReturnRun | src/transport.rs:355-431 | a run from the start that ends so: publish, receive, reset, publish, return the first frame, drain |
| Payloads.WaitingRun | src/transport.rs:321-347 | a run from the start after which a publish has to wait |
| Payloads.LeaseKeepsItsBytes | src/transport.rs:275-371 | a lease keeps its bytes through every run in which its holder does not act and nothing resets |
| Payloads.PublishRecordsPayload | src/transport.rs:275-286 | after the copy and any run that leaves the lease alone, the poll that finds room records the payload under the next sequence number, in a descriptor with the timestamp given; a poll that does not changes nothing |
| Payloads.ReceivedBytesArePublishedBytes | src/transport.rs:548-630 | a received frame has the bytes published under its number until its return is drained |
| Payloads.EndToEnd | src/transport.rs:275-630 | copy, wait, publish, anything short of a reset, receive, anything short of a reset and of its return: the reader sees the payload and the publisher's timestamp |
| Payloads.QuiescenceReturnsTheArena | src/transport.rs:313-371 | with nothing queued, held, returned, leased or stranded: one free range, meter zero |
| Payloads.StrandedStays | src/transport.rs:726-731 | a skipped frame's block stays live in every owned run until a reset |
| Payloads.OnlyStrandedBlocksLeak | src/transport.rs:574-735 | with nothing queued, held, returned or leased: nothing is live iff nothing is stranded, every byte is free iff all that is stranded is empty |
| Payloads.FullCycle | src/transport.rs:275-371 | from a quiet state, for every payload that fits: publish, receive, return and drain are owned steps, deliver that payload and timestamp, and give the arena back whole |
| Payloads.StartIsQuiet | src/transport.rs:245-273 | a fresh region is such a quiet state |
| Guarantees.GapsAreFramesNotDelivered | src/transport.rs:548-624 | received numbers increase; what is missing between two was not delivered |
| Guarantees.HistoryIsFatesThenQueue | src/transport.rs:321-388 | everything published has a fate in order or is the queue entry at its place |
| Guarantees.AttachPurgesTheBacklog | src/transport.rs:726-731 | attach opens a generation newer than everything published, which the next publish announces; nothing published before is received after |
| Guarantees.AllocLeaseDropsTheLeast | src/transport.rs:288-311 | in every tiled heap without touching free entries, stale returns or not: drops the shortest prefix that opens a fitting hole, takes the lowest hole, resets only if the whole queue would not do |
| Guarantees.AllocLeaseSucceedsIff | src/transport.rs:288-311 | a request of any size succeeds iff it is no larger than the arena |
| Guarantees.PublishWaitsIff | src/transport.rs:321-347 | a publish with a block waits iff the ring was full and nothing had to be dropped |
| Guarantees.LatestPolicy | src/transport.rs:574-624 | second-newest out, newest stays, older ones returned in order, short only when the recycle ring is full |
| Guarantees.PublishAnnouncesIff | src/transport.rs:433-443 | after a publish the snapshot is valid iff it was, or the generation had changed, or the period had passed |
| Guarantees.QueuedFramesAreAnnounced | src/transport.rs:420-462 | no frame is queued without a valid snapshot of its own generation |
| RecycleRing.StepRefinesBoundedFifo | src/transport.rs:355-371 | each load or store leaves the bounded queue alone, completes one put with room, or frees the oldest entry whole |
| RecycleRing.EveryEntryIsFreedOnceInOrder | src/transport.rs:648-694 | under every interleaving the frees are a prefix of the puts and the rest is still in the ring |
| RecycleRing.EveryEntryIsFreed | src/transport.rs:355-371 | under every interleaving, after a bounded number of the drainer's steps for each entry in the ring all of them have been freed |
| RecycleRing.DrainerFreesTheOldest | src/transport.rs:357-366 | left alone with an entry in the ring, the drainer frees the oldest whole and passes it, from the top of its loop in five steps more than the entry has words |
| RecycleRing.OfferIsSent | src/transport.rs:648-667 | under every interleaving, an offer that finds room is the next entry after a bounded number of the recycler's steps |
| RecycleRing.GivesUpIff | src/transport.rs:671-694 | the recycler drops an offer iff it may not wait and the counters it loaded showed a full ring |
| RecycleRing.UnreadSlotsAreNotWritten | src/transport.rs:650-664 | the recycler never stores into a slot still to be read |
| ClockSync.TimelineState.UpdateClockSync | src/shm2src.rs:107-132 | the whole new synchroniser state |
| ClockSync.FirstFrameIsMappedFromNow | src/shm2src.rs:107-132 | without overflow, on first adoption a frame is mapped to the local time plus its distance from the snapshot's timestamp |
| ClockSync.LockedInFramesAreMappedFromNow | src/shm2src.rs:413-420 | once locked in, so is every frame, from the last reading |
| ClockSync.DesiredIsClockDifference | src/shm2src.rs:115-117 | the target is local clock less sink clock, saturated to i64 |
| ClockSync.SnapshotIsAdoptedIff | src/shm2src.rs:107-132 | a valid snapshot with a new number is adopted in these fields, any other changes nothing |
| ClockSync.Shm2Src.MapFrame | src/shm2src.rs:393-449 | timestamp, discontinuity flag and stored-back state of one `create` |
| ClockSync.MarkedIff | src/shm2src.rs:400-425 | over a live-only stream a frame is marked discontinuous iff frames were dropped before it, the generation changed, or it is the first |
| ClockSync.NotLiveOnlyPassesThrough | src/shm2src.rs:445-447 | otherwise the timestamp passes through, nothing is marked and the synchroniser stays as it is |
| ClockSync.UnstampedIff | src/shm2src.rs:412-420 | without overflow a frame gets no timestamp iff there is no offset, it has none itself, or the result is negative |
| ClockSync.SlewIsExact | src/shm2src.rs:123-126 | the cast never truncates, the offset never overshoots and moves by at most 2 ms |
| ClockSync.LockIn | src/shm2src.rs:119-127 | the error after n snapshots is at most the initial one less n times (2 ms less the drift) |
| ClockSync.LocksIn | src/shm2src.rs:119-127 | the error is zero from then on |
| ClockSync.OutputFollowsProducer | src/shm2src.rs:412-420 | output spacing differs from producer spacing by at most 2 ms plus the change of base |
| ClockSync.OutputIncreases | src/shm2src.rs:412-420 | output timestamps strictly increase over the run when frames are spaced wider than that |
| Sessions.SessionsFollow | src/transport.rs:420-462 | with anyone acting between any two loads and stores: the words of the header come from ever earlier announcements, valid means numbered, a taken frame has the generation it was published in |
| Sessions.SameGenerationIff | src/transport.rs:420-431 | the header has the same generation at two moments of a session iff no attach or reset lies between |
| Sessions.MarksNameTheirActs | src/transport.rs:445-462 | the acts these conditions speak of are what they are said to be: the writer's load of the generation behind a value, the consumer's own, the take of the frame |
| Sessions.AnnouncedIsCurrentIff | src/transport.rs:445-462 | once attaches and resets have invalidated, a valid snapshot is of the current generation iff none of them fell between its announcement's load of the generation and its last store |
| SessionRuns.PublishInSteps | src/transport.rs:321-348 | queue, decide, load the generation and six stores, left alone, are the publish |
| SessionRuns.ChangeInSteps | src/transport.rs:420-431 | change and invalidation, left alone, are the reset or attach |
| Consumer.InStepThroughoutIff | src/shm2src.rs:354-410 | over every session from a fresh region: a valid offset is of the expected generation all the way iff, for each adopted clock and timestamp, no attach or reset lies between the writer's load of the generation behind it and the consumer's |
| Consumer.SessionsStayInStep | src/shm2src.rs:400-410 | so it is if no attach or reset falls within an announcement or a reading, nor is still to invalidate when a reading begins |
| Consumer.UnwrittenReadingKeepsStepIff | src/transport.rs:696-707 | if no store falls within a reading and none is under way, adopting keeps step iff the loaded snapshot generation is the loaded generation |
| Consumer.CheckedReadingKeepsStep | src/transport.rs:696-707 | it always does if these are equal and the header still has that generation after the loads |
| Consumer.FramesAreMappedInTheirGenerationIff | src/shm2src.rs:354-420 | in every session a frame is mapped by its own generation iff no attach or reset lies between its take and the writer's loads of the generation behind the clock and the timestamp used |
| Consumer.StampedInItsGenerationIff | src/shm2src.rs:354-420 | in an undisturbed session a stamped frame is so mapped iff none lies between its take and the consumer's load of the generation |
| SessionRuns.ResetWithinReading | src/transport.rs:696-707 | with a reset after the first load of a valid snapshot, every session adopts old data under the new generation |
| SessionRuns.ReadingWithinReset | src/transport.rs:429-430 | so does every session that reads between the two stores of a reset |
| SessionRuns.AttachWithinAnnouncement | src/transport.rs:445-462 | so does every session with an attach after the announcement's load of the generation, by a reading with nothing inside it |
| SessionRuns.AttachRun | src/transport.rs:445-462 | such a session from a fresh region |
| SessionRuns.ResetBetweenTakeAndReading | src/shm2src.rs:354-374 | with a reset and a publish after the take, every session stamps the frame by the following generation, in step all the while |
| Consumer.FirstSnapshotInFullThenSlewed | src/shm2src.rs:119-131 | the first snapshot of a generation is adopted in full, later ones within 2 ms |
| Consumer.ValidSnapshotsAreUsable | src/transport.rs:449-459 | the timestamp survives u64; valid means usable, current and numbered |
| LeaseTracker.AllocTracker.AllocLeaseForUpstream | src/shm2sink.rs:69-95 | writer and map after lending, with the size cut to u32 |
| LeaseTracker.LendLeavesEntry | src/shm2sink.rs:79-94 | a served lend of less than 2^32 bytes leaves an entry of that length at the block's address and touches no other |
| LeaseTracker.AllocTracker.ReleaseUnpublished | src/shm2sink.rs:97-105 | removes the key and frees its id |
| LeaseTracker.AllocTracker.MarkPublished | src/shm2sink.rs:107-121 | hands the lease over on equal length, otherwise the map is unchanged |
| LeaseTracker.HandedOverIff | src/shm2sink.rs:107-121 | a lease is handed over iff the address has an entry of exactly that length; then only that key goes, otherwise nothing changes |
| LeaseTracker.HandedOverLeaseIsOut | src/shm2sink.rs:107-121 | over every run within a generation, what a mark hands over is a lease that is out, at that address, of the length asked for |
| LeaseTracker.TrackerAgrees | src/shm2sink.rs:69-121 | every entry is a live lease with that id, offset and length at its address, after any run within a generation |
| LeaseTracker.ReleaseKeepsAgreement | src/shm2sink.rs:97-105 | release frees exactly that id, which was live |
| LeaseTracker.LateDropRun | src/shm2sink.rs:97-145 | a run from the start: lend, publish, return, lend again, drop the first memory; the second lease's block is freed while it is out |
| LeaseTracker.DropIsNoOpIff | src/shm2sink.rs:97-145 | a drop changes nothing iff its address has no entry; otherwise it frees that lease |
| LeaseTracker.PublishedBlockKeepsItsAddress | src/shm2sink.rs:97-145 | with positive sizes, while a published block is live its address is not lent again, so its drop changes nothing |
| LeaseTracker.LendOverwritesIff | src/shm2sink.rs:86-93 | an entry is overwritten iff an empty lease is pending at the address, or the new lease is empty and at the end of its free range where a lease with bytes begins |
| LeaseTracker.PositiveLendsKeepEntries | src/shm2sink.rs:86-93 | never with positive sizes |
| LeaseTracker.EmptyLeasesCollide | src/shm2sink.rs:86-93 | in every canonical state the second of two empty lends replaces the first one's entry, and both leases are out |
| LeaseTracker.EmptyLendLosesLiveLease | src/shm2sink.rs:86-93 | a run of three lends whose empty third takes the key of the live second |
| LeaseTracker.ResetForgetsLeases | src/shm2sink.rs:62-121 | after a reset the entries are still in the map, name no lease, and dropping one changes nothing yet |
| LeaseTracker.EntriesAfterReset | src/shm2sink.rs:97-105 | later, until the next reset, dropping one frees exactly the block its id has since been given to, if live; none if the id exceeds the allocations since |

## Left out

- Platform backends, GStreamer glue, demo programs and the relay daemon: foreign calls and plumbing.
- Weak memory: atomics are sequentially consistent.
- Granularity: the header's timeline is modelled load by load and store by store in `Sessions`, the recycle ring in `RecycleRing`; the rest of each Writer and Reader method is one step. The code does not order a reader call against a concurrent drop or reset, nor an attach's skipping of the backlog against a concurrent publish.
- Guarantees.QueuedFramesAreAnnounced: at the grain of methods, because the code stores `ready_head` before it announces.
- Waiting: a polling loop is one pass that reports whether it got through; sleeping and liveness are not modelled, and the clock is a parameter.
- 64-bit overflow of offsets, ring counters and generation counters; the id counter (u32) and the i64 casts of the clock are modelled with their wrap-around.
- Debug-mode overflow panics: `i64` sums in `create` wrap, as in release builds.
- Startup state, startup sequence, epoch, features, `arena_high_watermark`, checksum and reserved fields: no decision depends on them.
- Header validation on open, `recv_blocking`, `stop`, and the late-frame log.
- Library sorting: `sort_by_key` is the function `SortByStart`, a stable insertion sort; the map's sum is taken in any order.
- Transport.Writer.Publish: payloads of 2^32 bytes and more are excluded, because the code cuts their length to u32 while copying all of them.
- Guarantees.EveryOwnedRunIsAccounted: makes no claim about a handle used after the reset that followed it, because the code does not tell such a handle from a new one.
- LeaseTracker.TrackerAgrees: ends at a reset, because the code does not clear the tracker there.
