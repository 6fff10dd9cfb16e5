/** Payload bytes from publish to return: what a lease and a received frame keep, end to end, and when
    the arena comes back whole. */
module Payloads {
  import opened Basics
  import opened Heaps
  import opened HeapLemmas
  import opened Timelines
  import opened Channels
  import opened System
  import opened SoundRuns
  import opened OwnedRuns
  import opened Guarantees
  import opened Operations

  // ---------------------------------------------------------------- received frames

  /** Frame `n` has been received and its block not yet been released. */
  ghost predicate InReadersHands(s: State, id: nat, n: nat) {
    id in s.owner && (s.owner[id] == Held(n) || (s.owner[id].InRecycle? && s.owner[id].n == n))
  }

  /** Nothing in the run resets the arena or drains the frame's return. */
  ghost predicate Undisturbed(s: State, es: seq<Event>, id: nat)
    decreases |es|
  {
    es != [] ==>
      && !Resets(s, es[0])
      && (es[0].DrainRecycles? ==> id in s.owner && s.owner[id].Held?)
      && Undisturbed(Next(s, es[0]), es[1..], id)
  }

  lemma DropsKeepFrame(s: State, k: nat, id: nat)
    requires InOrder(s) && PlacesOk(s) && k <= |s.c.shm.queue|
    requires id in s.owner && !s.owner[id].Queued?
    ensures id in AfterDrops(s, k).owner && AfterDrops(s, k).owner[id] == s.owner[id]
  {
    var ids := QueueIds(s.c.shm.queue[..k]);
    ReleaseAllUsed(s.c.heap, ids);
    forall j | 0 <= j < k
      ensures ids[j] != id
    {
      assert s.owner[s.c.shm.queue[j].bufferId].Queued?;
    }
  }

  lemma DrainKeepsFrame(s: State, id: nat)
    requires PlacesOk(s) && id in s.owner && !s.owner[id].InRecycle?
    ensures id in NextDrain(s).owner && NextDrain(s).owner[id] == s.owner[id]
  {
    RecycleNamesReturned(s, id);
    assert s.c.shm.recycled[..|s.c.shm.recycled|] == s.c.shm.recycled;
    ReleaseAllUsed(s.c.heap, RecycledIds(s.c.shm.recycled));
  }

  lemma AllocKeepsFrame(s: State, size: nat, align: nat, id: nat)
    requires InOrder(s) && PlacesOk(s) && IdIsFresh(s, size, align) && !MustReset(s.c, size, align)
    requires id in s.owner && !s.owner[id].Queued?
    ensures var t := NextAllocLease(s, size, align);
            id in t.owner && t.owner[id] == s.owner[id] && t.history == s.history
  {
    DropsKeepFrame(s, DropsNeeded(s.c.heap, s.c.shm.queue, size, align), id);
  }

  lemma RecvKeepsFrame(s: State, id: nat)
    requires PlacesOk(s) && id in s.owner && !s.owner[id].Queued?
    ensures id in NextRecv(s).owner && NextRecv(s).owner[id] == s.owner[id] && NextRecv(s).history == s.history
  {
    if s.c.shm.queue != [] { assert s.owner[s.c.shm.queue[0].bufferId].Queued?; }
  }

  lemma LatestKeepsFrame(s: State, id: nat)
    requires id in s.owner && !s.owner[id].Queued?
    ensures var t := NextRecvLatest(s);
            id in t.owner && t.owner[id] == s.owner[id] && t.history == s.history
  {
  }

  lemma RecycleKeepsFrame(s: State, desc: ReadyDesc, id: nat, n: nat)
    requires InReadersHands(s, id, n) && IsHeld(s, desc)
    ensures InReadersHands(NextRecycle(s, desc), id, n) && NextRecycle(s, desc).history == s.history
  {
  }

  lemma PublishKeepsFrame(s: State, lease: Lease, ptsNs: Nanos, due: nat, now: nat, id: nat)
    requires IsLeased(s, lease) && id in s.owner && !s.owner[id].Leased?
    ensures var t := NextPublishLease(s, lease, ptsNs, due, now);
            id in t.owner && t.owner[id] == s.owner[id] && s.history <= t.history
  {
  }

  lemma StepKeepsFrame(s: State, e: Event, id: nat, n: nat)
    requires InOrder(s) && PlacesOk(s) && Owned(s, e) && InReadersHands(s, id, n)
    requires !Resets(s, e) && (e.DrainRecycles? ==> s.owner[id].Held?)
    ensures InReadersHands(Next(s, e), id, n) && s.history <= Next(s, e).history
  {
    match e {
      case AllocLease(size, align) => AllocKeepsFrame(s, size, align, id);
      case DrainRecycles => DrainKeepsFrame(s, id);
      case Recv => RecvKeepsFrame(s, id);
      case RecvLatest => LatestKeepsFrame(s, id);
      case Recycle(desc) => RecycleKeepsFrame(s, desc, id, n);
      case PublishLease(lease, ptsNs, due, now) => PublishKeepsFrame(s, lease, ptsNs, due, now, id);
      case _ =>
    }
  }

  lemma {:induction false} RunKeepsFrame(s: State, es: seq<Event>, id: nat, n: nat)
    requires Accounted(s) && AllOwned(s, es) && InReadersHands(s, id, n) && Undisturbed(s, es, id)
    ensures Accounted(Run(s, es)) && InReadersHands(Run(s, es), id, n) && s.history <= Run(s, es).history
    decreases |es|
  {
    if es != [] {
      StepKeepsFrame(s, es[0], id, n);
      NextKeepsAccounted(s, es[0]);
      RunKeepsFrame(Next(s, es[0]), es[1..], id, n);
    }
  }

  /** In state `s` the event takes frame `desc` off the queue. */
  ghost predicate Receives(s: State, e: Event, desc: ReadyDesc, dropped: nat) {
    || (e.Recv? && RecvOutcome(s.c.shm) == Received(desc, dropped))
    || (e.RecvLatest? && LatestOutcome(s.c.shm) == Received(desc, dropped))
  }

  lemma TakenIntoHands(s: State, e: Event, desc: ReadyDesc, dropped: nat)
    requires HistoryOk(s) && PlacesOk(s) && ShmOk(s.c.shm)
    requires Receives(s, e, desc, dropped)
    ensures InReadersHands(Next(s, e), desc.bufferId, desc.seqNo)
    ensures 1 <= desc.seqNo <= |s.history| && s.history[desc.seqNo - 1].desc == desc && Next(s, e).history == s.history
  {
    var shm := s.c.shm;
    var i := if e.Recv? then 0 else Chosen(shm);
    assert shm.queue[i] == desc;
    assert s.history[shm.readyTail + i].desc == desc && desc.seqNo == shm.readyTail + i + 1;
    assert s.owner[desc.bufferId] == Queued(desc.seqNo);
  }

  lemma FrameHasItsBytes(t: State, desc: ReadyDesc)
    requires PlacesOk(t) && InReadersHands(t, desc.bufferId, desc.seqNo)
    requires 1 <= desc.seqNo <= |t.history| && t.history[desc.seqNo - 1].desc == desc
    ensures desc.offset + desc.length <= |t.c.shm.arena|
    ensures Payload(t.c.shm, desc.offset, desc.length) == t.history[desc.seqNo - 1].bytes
  {
    assert PlaceOk(t, desc.bufferId, t.owner[desc.bufferId]);
  }

  /** The bytes of a received frame are those published under its sequence number, when it is received
      and through every later event, whoever acts, until its own return has been drained. */
  lemma ReceivedBytesArePublishedBytes(s: State, e: Event, desc: ReadyDesc, dropped: nat, es: seq<Event>)
    requires Accounted(s)
    requires Receives(s, e, desc, dropped)
    requires AllOwned(Next(s, e), es) && Undisturbed(Next(s, e), es, desc.bufferId)
    ensures 1 <= desc.seqNo <= |s.history| && s.history[desc.seqNo - 1].desc == desc
    ensures var t := Run(Next(s, e), es);
            && desc.offset + desc.length <= |t.c.shm.arena|
            && Payload(t.c.shm, desc.offset, desc.length) == s.history[desc.seqNo - 1].bytes
  {
    TakenIntoHands(s, e, desc, dropped);
    NextKeepsAccounted(s, e);
    RunKeepsFrame(Next(s, e), es, desc.bufferId, desc.seqNo);
    FrameHasItsBytes(Run(Next(s, e), es), desc);
  }

  // ---------------------------------------------------------------- leases

  lemma LeasedRangesApart(s: State, a: Lease, b: Lease)
    requires PlacesOk(s) && UsedApart(s.c.heap.used) && IsLeased(s, a) && IsLeased(s, b) && a.bufferId != b.bufferId
    ensures Range(a.offset, a.len).Apart(Range(b.offset, b.len))
  {
    assert PlaceOk(s, a.bufferId, s.owner[a.bufferId]) && PlaceOk(s, b.bufferId, s.owner[b.bufferId]);
  }

  lemma FreeKeepsLease(s: State, other: Lease, lease: Lease)
    requires PlacesOk(s) && IsLeased(s, lease) && IsLeased(s, other) && other != lease
    ensures IsLeased(NextFreeLease(s, other), lease)
  {
  }

  lemma PublishKeepsLease(s: State, other: Lease, ptsNs: Nanos, due: nat, now: nat, lease: Lease)
    requires IsLeased(s, lease) && IsLeased(s, other) && (other != lease || !CanPublish(s.c))
    ensures IsLeased(NextPublishLease(s, other, ptsNs, due, now), lease)
  {
  }

  /** The event is not the holder's: it neither resets nor frees, writes or publishes this lease. A
      publish that finds the ring full is only a poll. */
  ghost predicate SparesLease(s: State, e: Event, lease: Lease) {
    && !Resets(s, e)
    && (e.FreeLease? || e.Write? ==> e.lease != lease)
    && (e.PublishLease? ==> e.lease != lease || !CanPublish(s.c))
  }

  lemma LeaseStays(s: State, e: Event, lease: Lease)
    requires InOrder(s) && PlacesOk(s) && Owned(s, e) && !Resets(s, e) && IsLeased(s, lease)
    requires e.FreeLease? ==> e.lease != lease
    requires e.PublishLease? ==> e.lease != lease || !CanPublish(s.c)
    ensures IsLeased(Next(s, e), lease)
  {
    var id := lease.bufferId;
    match e {
      case AllocLease(size, align) => AllocKeepsFrame(s, size, align, id);
      case DrainRecycles => DrainKeepsFrame(s, id);
      case Recv => RecvKeepsFrame(s, id);
      case RecvLatest => LatestKeepsFrame(s, id);
      case FreeLease(other) => FreeKeepsLease(s, other, lease);
      case PublishLease(other, ptsNs, due, now) => PublishKeepsLease(s, other, ptsNs, due, now, lease);
      case _ =>
    }
  }

  lemma OnlyWritesChangeBytes(s: State, e: Event)
    requires !e.Write?
    ensures Next(s, e).c.shm.arena == s.c.shm.arena
  {
  }

  lemma OtherWritesSpareLease(s: State, lease: Lease, other: Lease, at: nat, bytes: seq<Byte>)
    requires PlacesOk(s) && UsedApart(s.c.heap.used) && IsLeased(s, lease) && IsLeased(s, other) && other != lease
    requires lease.offset + lease.len <= |s.c.shm.arena|
    ensures var t := NextWrite(s, other, at, bytes);
            && |t.c.shm.arena| == |s.c.shm.arena|
            && Payload(t.c.shm, lease.offset, lease.len) == Payload(s.c.shm, lease.offset, lease.len)
  {
    LeasedRangesApart(s, lease, other);
    if NextWrite(s, other, at, bytes) != s {
      StoreApart(s.c.shm, other.offset + at, bytes, Range(lease.offset, lease.len));
    }
  }

  ghost predicate LeaseBytes(s: State, lease: Lease, bytes: seq<Byte>) {
    lease.offset + lease.len <= |s.c.shm.arena| && Payload(s.c.shm, lease.offset, lease.len) == bytes
  }

  /** The lease is still out and its block holds these bytes. */
  ghost predicate LeaseHolds(s: State, lease: Lease, bytes: seq<Byte>) {
    IsLeased(s, lease) && LeaseBytes(s, lease, bytes)
  }

  lemma StepKeepsLeaseBytes(s: State, e: Event, lease: Lease, bytes: seq<Byte>)
    requires InOrder(s) && PlacesOk(s) && UsedApart(s.c.heap.used)
    requires Owned(s, e) && SparesLease(s, e, lease) && LeaseHolds(s, lease, bytes)
    ensures LeaseHolds(Next(s, e), lease, bytes)
  {
    LeaseStays(s, e, lease);
    if e.Write? {
      OtherWritesSpareLease(s, lease, e.lease, e.at, e.bytes);
    } else {
      OnlyWritesChangeBytes(s, e);
    }
  }

  ghost predicate AllSpareLease(s: State, es: seq<Event>, lease: Lease)
    decreases |es|
  {
    es != [] ==> SparesLease(s, es[0], lease) && AllSpareLease(Next(s, es[0]), es[1..], lease)
  }

  /** A lease keeps its bytes until its holder acts, whoever else does. */
  lemma {:induction false} LeaseKeepsItsBytes(s: State, es: seq<Event>, lease: Lease, bytes: seq<Byte>)
    requires Accounted(s) && AllOwned(s, es) && AllSpareLease(s, es, lease) && LeaseHolds(s, lease, bytes)
    ensures Accounted(Run(s, es)) && LeaseHolds(Run(s, es), lease, bytes)
    decreases |es|
  {
    if es != [] {
      StepKeepsLeaseBytes(s, es[0], lease, bytes);
      NextKeepsAccounted(s, es[0]);
      LeaseKeepsItsBytes(Next(s, es[0]), es[1..], lease, bytes);
    }
  }

  // ---------------------------------------------------------------- publishing

  /** The state once `publish` has its block and has copied the payload into it. */
  ghost function Filled(s: State, payload: seq<Byte>, align: nat): State
    requires LeaseOf(s.c, |payload|, align).Some?
  {
    NextWrite(NextAllocLease(s, |payload|, align), LeaseOf(s.c, |payload|, align).value, 0, payload)
  }

  lemma LeaseIsLeased(s: State, size: nat, align: nat)
    requires Accounted(s) && IdIsFresh(s, size, align) && LeaseOf(s.c, size, align).Some?
    ensures var lease := LeaseOf(s.c, size, align).value;
            var t := NextAllocLease(s, size, align);
            IsLeased(t, lease) && lease.len == size && lease.offset + lease.len <= |t.c.shm.arena|
            && t.c == AfterAllocLease(s.c, size, align)
  {
    AllocLeaseKeepsSound(s, size, align);
  }

  lemma FilledHoldsPayload(s: State, payload: seq<Byte>, align: nat)
    requires Accounted(s) && IdIsFresh(s, |payload|, align) && LeaseOf(s.c, |payload|, align).Some?
    ensures var lease := LeaseOf(s.c, |payload|, align).value;
            var a := NextAllocLease(s, |payload|, align);
            && Owned(s, AllocLease(|payload|, align)) && Owned(a, Write(lease, 0, payload))
            && Accounted(Filled(s, payload, align))
            && LeaseHolds(Filled(s, payload, align), lease, payload)
  {
    var lease := LeaseOf(s.c, |payload|, align).value;
    var a := NextAllocLease(s, |payload|, align);
    LeaseIsLeased(s, |payload|, align);
    AllocLeaseKeepsAccounted(s, |payload|, align);
    WriteKeepsAccounted(a, lease, 0, payload);
    assert Payload(Filled(s, payload, align).c.shm, lease.offset, lease.len) == payload;
  }

  /** From `q` to `t` one frame has been published: its descriptor, field by field, is the next one
      queued and recorded, with these bytes. */
  ghost predicate Publishes(q: State, t: State, lease: Lease, ptsNs: Nanos, bytes: seq<Byte>) {
    var n := |q.c.shm.queue|;
    && |t.c.shm.queue| == n + 1 && t.c.shm.queue[..n] == q.c.shm.queue
    && Describes(t.c.shm.queue[n], lease, ptsNs) && t.c.shm.queue[n].seqNo == q.c.shm.readyTail + n + 1
    && t.history == q.history + [Publication(t.c.shm.queue[n], t.c.shm.timeline.gen, bytes)]
  }

  lemma PublishingRecordsBytes(s: State, lease: Lease, bytes: seq<Byte>, ptsNs: Nanos, due: nat, now: nat)
    requires LeaseHolds(s, lease, bytes)
    ensures var t := NextPublishLease(s, lease, ptsNs, due, now);
            if CanPublish(s.c) then Publishes(s, t, lease, ptsNs, bytes) else t == s
  {
    LeaseDescDescribes(s.c, lease, ptsNs);
  }

  /** `publish` allocates, copies, and polls until the ready ring has room. Whatever owned events fall
      between the copy and the poll that gets through, that poll records the payload it was given,
      under the next sequence number and with the timestamp it was given; a poll that finds the ring
      full changes nothing. */
  lemma PublishRecordsPayload(s: State, payload: seq<Byte>, align: nat, es: seq<Event>,
                              ptsNs: Nanos, due: nat, now: nat)
    requires Accounted(s) && IdIsFresh(s, |payload|, align) && LeaseOf(s.c, |payload|, align).Some?
    requires AllOwned(Filled(s, payload, align), es)
    requires AllSpareLease(Filled(s, payload, align), es, LeaseOf(s.c, |payload|, align).value)
    ensures var lease := LeaseOf(s.c, |payload|, align).value;
            var q := Run(Filled(s, payload, align), es);
            var t := NextPublishLease(q, lease, ptsNs, due, now);
            && Accounted(q) && Owned(q, PublishLease(lease, ptsNs, due, now)) && Accounted(t)
            && (if CanPublish(q.c) then Publishes(q, t, lease, ptsNs, payload) else t == q)
  {
    var lease := LeaseOf(s.c, |payload|, align).value;
    FilledHoldsPayload(s, payload, align);
    LeaseKeepsItsBytes(Filled(s, payload, align), es, lease, payload);
    var q := Run(Filled(s, payload, align), es);
    PublishingRecordsBytes(q, lease, payload, ptsNs, due, now);
    PublishLeaseKeepsAccounted(q, lease, ptsNs, due, now);
  }

  /** From `p` on: a run without reset, the receipt of `desc`, and a run that does not disturb it. */
  ghost predicate ReceivedLater(p: State, es1: seq<Event>, e: Event, desc: ReadyDesc, dropped: nat, es2: seq<Event>) {
    var q := Run(p, es1);
    && AllOwned(p, es1) && NoReset(p, es1)
    && Receives(q, e, desc, dropped)
    && AllOwned(Next(q, e), es2) && Undisturbed(Next(q, e), es2, desc.bufferId)
  }

  lemma LaterBytesAreRecorded(p: State, es1: seq<Event>, e: Event, desc: ReadyDesc, dropped: nat, es2: seq<Event>)
    requires Accounted(p) && ReceivedLater(p, es1, e, desc, dropped, es2)
    requires 1 <= desc.seqNo <= |p.history|
    ensures var t := Run(Next(Run(p, es1), e), es2);
            && desc.offset + desc.length <= |t.c.shm.arena|
            && Payload(t.c.shm, desc.offset, desc.length) == p.history[desc.seqNo - 1].bytes
    ensures desc == p.history[desc.seqNo - 1].desc
  {
    RunKeepsAccounted(p, es1);
    RunExtends(p, es1);
    ReceivedBytesArePublishedBytes(Run(p, es1), e, desc, dropped, es2);
  }

  /** End to end: allocate and copy, wait for room while anything happens that leaves the lease to its
      holder, publish, let anything happen short of a reset, receive the frame with that sequence
      number, let anything happen short of a reset and of draining its return: the bytes the reader
      sees are the payload, and its descriptor carries the publisher's timestamp. */
  lemma EndToEnd(s: State, payload: seq<Byte>, align: nat, es0: seq<Event>, ptsNs: Nanos, due: nat, now: nat,
                 es1: seq<Event>, e: Event, desc: ReadyDesc, dropped: nat, es2: seq<Event>)
    requires Accounted(s) && IdIsFresh(s, |payload|, align) && LeaseOf(s.c, |payload|, align).Some?
    requires AllOwned(Filled(s, payload, align), es0)
    requires AllSpareLease(Filled(s, payload, align), es0, LeaseOf(s.c, |payload|, align).value)
    requires var q := Run(Filled(s, payload, align), es0);
             var p := NextPublishLease(q, LeaseOf(s.c, |payload|, align).value, ptsNs, due, now);
             CanPublish(q.c) && ReceivedLater(p, es1, e, desc, dropped, es2) && desc.seqNo == |p.history|
    ensures var q := Run(Filled(s, payload, align), es0);
            var p := NextPublishLease(q, LeaseOf(s.c, |payload|, align).value, ptsNs, due, now);
            var t := Run(Next(Run(p, es1), e), es2);
            && desc.offset + desc.length <= |t.c.shm.arena|
            && Payload(t.c.shm, desc.offset, desc.length) == payload
    ensures desc.ptsNs == ptsNs && desc.dtsNs == ptsNs && desc.durationNs == 0 && desc.flags == 0
    ensures desc.length == |payload|
  {
    PublishRecordsPayload(s, payload, align, es0, ptsNs, due, now);
    var q := Run(Filled(s, payload, align), es0);
    var p := NextPublishLease(q, LeaseOf(s.c, |payload|, align).value, ptsNs, due, now);
    LaterBytesAreRecorded(p, es1, e, desc, dropped, es2);
  }

  // ---------------------------------------------------------------- quiescence

  /** When nothing is stranded, queued, held, in the recycle ring or leased, the arena is whole again
      and the usage meter reads zero. */
  lemma QuiescenceReturnsTheArena(s: State)
    requires Accounted(s)
    requires s.c.shm.queue == [] && s.c.shm.recycled == []
    requires forall id :: id in s.owner ==> !s.owner[id].Leased? && !s.owner[id].Held? && !s.owner[id].Stranded?
    ensures s.c.heap.free == [Range(0, s.c.shm.arenaSize)] && s.c.heap.used == map[] && s.c.shm.usedBytes == 0
  {
    forall id
      ensures id !in s.owner
    {
      NoBlockIsLost(s, id);
    }
    assert s.c.heap.used.Keys == {};
    EmptyHeapIsWhole(s.c.heap, s.c.shm.arenaSize);
  }

  lemma StepKeepsStranded(s: State, e: Event, id: nat)
    requires InOrder(s) && PlacesOk(s) && Owned(s, e) && !Resets(s, e) && id in s.owner && s.owner[id].Stranded?
    ensures id in Next(s, e).owner && Next(s, e).owner[id] == s.owner[id]
  {
    match e {
      case AllocLease(size, align) => AllocKeepsFrame(s, size, align, id);
      case DrainRecycles => DrainKeepsFrame(s, id);
      case Recv => RecvKeepsFrame(s, id);
      case RecvLatest => LatestKeepsFrame(s, id);
      case PublishLease(lease, ptsNs, due, now) => PublishKeepsFrame(s, lease, ptsNs, due, now, id);
      case _ =>
    }
  }

  /** A stranded block, skipped by an attach or by a full recycle ring, stays live in every owned run
      until a reset. */
  lemma {:induction false} StrandedStays(s: State, es: seq<Event>, id: nat)
    requires Accounted(s) && AllOwned(s, es) && NoReset(s, es) && id in s.owner && s.owner[id].Stranded?
    ensures Accounted(Run(s, es)) && id in Run(s, es).owner && Run(s, es).owner[id] == s.owner[id]
    ensures id in Run(s, es).c.heap.used
    decreases |es|
  {
    if es != [] {
      StepKeepsStranded(s, es[0], id);
      NextKeepsAccounted(s, es[0]);
      StrandedStays(Next(s, es[0]), es[1..], id);
    }
  }

  /** Nothing is queued, returned, held or leased. */
  ghost predicate Settled(s: State) {
    && s.c.shm.queue == [] && s.c.shm.recycled == []
    && forall id :: id in s.owner ==> !s.owner[id].Leased? && !s.owner[id].Held?
  }

  /** Then stranded blocks are all that is missing: none is live exactly when none is stranded, and
      every byte is free exactly when all that is stranded is empty. */
  lemma OnlyStrandedBlocksLeak(s: State)
    requires Accounted(s) && Settled(s)
    ensures s.c.heap.used == map[] <==> forall id :: id in s.owner ==> !s.owner[id].Stranded?
    ensures (forall b: nat :: b < s.c.shm.arenaSize ==> Covers(s.c.heap.free, b))
       <==> forall id :: id in s.owner && s.owner[id].Stranded? ==> s.c.heap.used[id].len == 0
  {
    forall id | id in s.owner
      ensures s.owner[id].Stranded?
    {
      NoBlockIsLost(s, id);
    }
    if s.c.heap.used != map[] {
      var id :| id in s.c.heap.used;
      assert id in s.owner;
    }
    var used := s.c.heap.used;
    forall id | id in used && used[id].len > 0
      ensures Taken(used, used[id].start) && used[id].start < s.c.shm.arenaSize
    {
      assert used[id].Has(used[id].start);
    }
  }

  /** Nothing is queued, returned or owned. */
  ghost predicate Quiet(s: State) {
    Accounted(s) && s.c.shm.queue == [] && s.c.shm.recycled == [] && s.owner == map[]
  }

  lemma StartIsQuiet(arenaSize: nat, readyCap: nat, recCap: nat, periodNs: nat)
    requires arenaSize > 0 && readyCap > 0 && recCap > 0
    ensures Quiet(Start(arenaSize, readyCap, recCap, periodNs))
  {
    StartIsAccounted(arenaSize, readyCap, recCap, periodNs);
  }

  ghost function PublishEvents(s: State, payload: seq<Byte>, align: nat, ptsNs: Nanos, due: nat, now: nat): seq<Event>
    requires LeaseOf(s.c, |payload|, align).Some?
  {
    var lease := LeaseOf(s.c, |payload|, align).value;
    [AllocLease(|payload|, align), Write(lease, 0, payload), PublishLease(lease, ptsNs, due, now)]
  }

  lemma RunOfThree(s: State, e1: Event, e2: Event, e3: Event)
    ensures Run(s, [e1, e2, e3]) == Next(Next(Next(s, e1), e2), e3)
  {
    var s1, s2 := Next(s, e1), Next(Next(s, e1), e2);
    assert [e1, e2, e3][1..] == [e2, e3] && [e2, e3][1..] == [e3] && [e3][1..] == [];
    assert Run(s2, [e3]) == Next(s2, e3);
    assert Run(s1, [e2, e3]) == Run(s2, [e3]);
  }

  lemma ThreeOwned(s: State, e1: Event, e2: Event, e3: Event)
    requires Owned(s, e1) && Owned(Next(s, e1), e2) && Owned(Next(Next(s, e1), e2), e3)
    ensures AllOwned(s, [e1, e2, e3])
  {
    var s1, s2 := Next(s, e1), Next(Next(s, e1), e2);
    assert [e1, e2, e3][1..] == [e2, e3] && [e2, e3][1..] == [e3] && [e3][1..] == [];
    assert AllOwned(Next(s2, e3), []);
    assert AllOwned(s2, [e3]);
    assert AllOwned(s1, [e2, e3]);
  }

  lemma QuietHasRoom(s: State, size: nat, align: nat) returns (lease: Lease)
    requires Quiet(s) && size <= s.c.shm.arenaSize
    ensures RoomMade(s.c, size, align) == s.c && IdIsFresh(s, size, align)
    ensures LeaseOf(s.c, size, align) == Some(lease) && lease == Lease(s.c.heap.nextId, 0, size)
    ensures NextAllocLease(s, size, align).owner == map[lease.bufferId := Leased(lease)]
  {
    QuiescenceReturnsTheArena(s);
    assert AlignUp(0, Max(align, 1)) == 0 && FitsIn(s.c.heap.free[0], size, align);
    assert DropsNeeded(s.c.heap, s.c.shm.queue, size, align) == 0;
    lease := LeaseOf(s.c, size, align).value;
    assert WithRoom(s, size, align).owner == map[];
  }

  /** What the allocation and the copy leave of a quiet state. */
  lemma FilledFromQuiet(s: State, payload: seq<Byte>, align: nat, lease: Lease)
    requires Accounted(s) && IdIsFresh(s, |payload|, align) && RoomMade(s.c, |payload|, align) == s.c
    requires LeaseOf(s.c, |payload|, align) == Some(lease)
    requires s.c.shm.queue == [] && s.c.shm.recycled == [] && !MustReset(s.c, |payload|, align)
    ensures var w := Filled(s, payload, align);
            && w.c.shm.queue == [] && w.c.shm.recycled == [] && w.c.shm.readyTail == s.c.shm.readyTail
            && w.c.shm.readyCap == s.c.shm.readyCap
            && w.owner == NextAllocLease(s, |payload|, align).owner
            && w.received == s.received && w.positive == (s.positive && payload != [])
  {
    assert DropsNeeded(s.c.heap, [], |payload|, align) == 0;
  }

  /** One frame queued, its block the only live one. */
  ghost predicate PublishedIntoQuiet(s: State, p: State, lease: Lease, payload: seq<Byte>, ptsNs: Nanos) {
    && p.c.shm.queue == [LeaseDesc(s.c, lease, ptsNs)] && p.c.shm.recycled == []
    && p.owner == map[lease.bufferId := Queued(s.c.shm.ReadyHead() + 1)]
    && p.received == s.received && p.positive == (s.positive && payload != [])
    && lease.len == |payload| && LeaseBytes(p, lease, payload)
  }

  /** The quiet state `s` once `lease` has been handed out and filled. */
  ghost predicate FilledIn(s: State, w: State, lease: Lease, payload: seq<Byte>) {
    && LeaseHolds(w, lease, payload) && w.owner.Keys == {lease.bufferId} && lease.len == |payload|
    && w.c.shm.queue == [] && w.c.shm.recycled == [] && w.c.shm.readyCap > 0
    && s.c.shm.queue == [] && w.c.shm.readyTail == s.c.shm.readyTail
    && w.received == s.received && w.positive == (s.positive && payload != [])
  }

  lemma QuietIsFilled(s: State, payload: seq<Byte>, align: nat) returns (lease: Lease)
    requires Quiet(s) && |payload| <= s.c.shm.arenaSize
    ensures LeaseOf(s.c, |payload|, align) == Some(lease) && lease.bufferId == s.c.heap.nextId
    ensures IdIsFresh(s, |payload|, align) && FilledIn(s, Filled(s, payload, align), lease, payload)
  {
    lease := QuietHasRoom(s, |payload|, align);
    FilledHoldsPayload(s, payload, align);
    FilledFromQuiet(s, payload, align, lease);
  }

  lemma PublishingIntoQuiet(s: State, w: State, lease: Lease, payload: seq<Byte>, ptsNs: Nanos, due: nat, now: nat)
    requires FilledIn(s, w, lease, payload)
    ensures PublishedIntoQuiet(s, NextPublishLease(w, lease, ptsNs, due, now), lease, payload, ptsNs)
  {
  }

  lemma PublishFromQuiet(s: State, payload: seq<Byte>, align: nat, ptsNs: Nanos, due: nat, now: nat)
    returns (lease: Lease)
    requires Quiet(s) && |payload| <= s.c.shm.arenaSize
    ensures LeaseOf(s.c, |payload|, align) == Some(lease) && lease.bufferId == s.c.heap.nextId
    ensures IdIsFresh(s, |payload|, align)
    ensures var p := NextPublishLease(Filled(s, payload, align), lease, ptsNs, due, now);
            PublishedIntoQuiet(s, p, lease, payload, ptsNs)
  {
    lease := QuietIsFilled(s, payload, align);
    PublishingIntoQuiet(s, Filled(s, payload, align), lease, payload, ptsNs, due, now);
  }

  lemma PublishSteps(s: State, n: nat, align: nat, lease: Lease, payload: seq<Byte>, ptsNs: Nanos, due: nat, now: nat)
    ensures Next(s, AllocLease(n, align)) == NextAllocLease(s, n, align)
    ensures Next(s, Write(lease, 0, payload)) == NextWrite(s, lease, 0, payload)
    ensures Next(s, PublishLease(lease, ptsNs, due, now)) == NextPublishLease(s, lease, ptsNs, due, now)
  {
  }

  /** The three events of a publish that gets through at once. */
  lemma RunOfPublishEvents(s: State, payload: seq<Byte>, align: nat, ptsNs: Nanos, due: nat, now: nat, lease: Lease)
    requires LeaseOf(s.c, |payload|, align) == Some(lease)
    ensures Run(s, PublishEvents(s, payload, align, ptsNs, due, now))
         == NextPublishLease(Filled(s, payload, align), lease, ptsNs, due, now)
  {
    var a := NextAllocLease(s, |payload|, align);
    PublishSteps(s, |payload|, align, lease, payload, ptsNs, due, now);
    PublishSteps(a, |payload|, align, lease, payload, ptsNs, due, now);
    PublishSteps(Filled(s, payload, align), |payload|, align, lease, payload, ptsNs, due, now);
    RunOfThree(s, AllocLease(|payload|, align), Write(lease, 0, payload), PublishLease(lease, ptsNs, due, now));
  }

  lemma PublishEventsAreOwned(s: State, payload: seq<Byte>, align: nat, ptsNs: Nanos, due: nat, now: nat, lease: Lease)
    requires LeaseOf(s.c, |payload|, align) == Some(lease) && IdIsFresh(s, |payload|, align)
    requires IsLeased(NextAllocLease(s, |payload|, align), lease) && IsLeased(Filled(s, payload, align), lease)
    ensures AllOwned(s, PublishEvents(s, payload, align, ptsNs, due, now))
  {
    ThreeOwned(s, AllocLease(|payload|, align), Write(lease, 0, payload), PublishLease(lease, ptsNs, due, now));
  }

  lemma PublishIntoQuiet(s: State, payload: seq<Byte>, align: nat, ptsNs: Nanos, due: nat, now: nat)
    returns (lease: Lease)
    requires Quiet(s) && |payload| <= s.c.shm.arenaSize
    ensures LeaseOf(s.c, |payload|, align) == Some(lease) && lease.bufferId == s.c.heap.nextId
    ensures AllOwned(s, PublishEvents(s, payload, align, ptsNs, due, now))
    ensures PublishedIntoQuiet(s, Run(s, PublishEvents(s, payload, align, ptsNs, due, now)), lease, payload, ptsNs)
  {
    lease := PublishFromQuiet(s, payload, align, ptsNs, due, now);
    FilledHoldsPayload(s, payload, align);
    RunOfPublishEvents(s, payload, align, ptsNs, due, now, lease);
    PublishEventsAreOwned(s, payload, align, ptsNs, due, now, lease);
  }

  lemma OnlyFrameIsHeld(p: State, id: nat)
    requires HistoryOk(p) && PlacesOk(p) && ShmOk(p.c.shm)
    requires |p.c.shm.queue| == 1 && p.c.shm.recycled == []
    requires p.c.shm.queue[0].bufferId == id && p.owner.Keys == {id}
    ensures var desc := p.c.shm.queue[0];
            var q := NextRecv(p);
            var r := NextRecycle(q, desc);
            && RecvOutcome(p.c.shm) == Received(desc, 0)
            && IsHeld(q, desc) && q.c.shm.queue == [] && q.received == p.received + [desc]
            && r.c.shm.queue == [] && r.received == q.received && r.owner.Keys == {id}
            && |r.c.shm.recycled| == 1 && r.c.shm.recycled[0].bufferId == id
  {
    var desc := p.c.shm.queue[0];
    TakenIntoHands(p, Recv, desc, 0);
  }

  lemma DrainOfOnlyFrame(r: State, id: nat)
    requires |r.c.shm.recycled| == 1 && r.c.shm.recycled[0].bufferId == id && r.owner.Keys == {id}
    ensures var t := NextDrain(r);
            t.owner == map[] && t.c.shm.recycled == [] && t.c.shm.queue == r.c.shm.queue
            && t.received == r.received
  {
    var ids := RecycledIds(r.c.shm.recycled[..|r.c.shm.recycled|]);
    ReleaseAllUsed(r.c.heap, ids);
    assert ids[0] == id;
  }

  lemma ReturnOfOnlyFrame(p: State, id: nat)
    requires Accounted(p) && |p.c.shm.queue| == 1 && p.c.shm.recycled == []
    requires p.c.shm.queue[0].bufferId == id && p.owner.Keys == {id}
    ensures var desc := p.c.shm.queue[0];
            var es := [Recv, Recycle(desc), DrainRecycles];
            && AllOwned(p, es) && RecvOutcome(p.c.shm) == Received(desc, 0)
            && Quiet(Run(p, es)) && Run(p, es).received == p.received + [desc]
            && Run(p, es).c.heap.free == [Range(0, p.c.shm.arenaSize)]
  {
    var desc := p.c.shm.queue[0];
    var es := [Recv, Recycle(desc), DrainRecycles];
    RunOfThree(p, Recv, Recycle(desc), DrainRecycles);
    var q, r, t := Next(p, Recv), Next(Next(p, Recv), Recycle(desc)), Run(p, es);
    OnlyFrameIsHeld(p, id);
    ThreeOwned(p, Recv, Recycle(desc), DrainRecycles);
    DrainOfOnlyFrame(r, id);
    RunKeepsAccounted(p, es);
    RunKeepsSizes(p, es);
    QuiescenceReturnsTheArena(t);
  }

  /** The whole cycle, for every payload that fits: publish, receive, return, drain. Every step is an
      owned one, the reader gets exactly this frame with this payload, and the arena comes back. */
  lemma FullCycle(s: State, payload: seq<Byte>, align: nat, ptsNs: Nanos, due: nat, now: nat)
    requires Quiet(s) && |payload| <= s.c.shm.arenaSize
    ensures LeaseOf(s.c, |payload|, align).Some?
    ensures var p := Run(s, PublishEvents(s, payload, align, ptsNs, due, now));
            && AllOwned(s, PublishEvents(s, payload, align, ptsNs, due, now))
            && |p.c.shm.queue| == 1
            && var desc := p.c.shm.queue[0];
               var es := [Recv, Recycle(desc), DrainRecycles];
               && AllOwned(p, es)
               && RecvOutcome(p.c.shm) == Received(desc, 0)
               && desc.offset + desc.length <= |p.c.shm.arena|
               && Payload(p.c.shm, desc.offset, desc.length) == payload
               && desc.ptsNs == ptsNs && desc.dtsNs == ptsNs && desc.durationNs == 0 && desc.flags == 0
               && Quiet(Run(p, es)) && Run(p, es).received == s.received + [desc]
               && Run(p, es).c.heap.free == [Range(0, s.c.shm.arenaSize)]
  {
    var lease := PublishIntoQuiet(s, payload, align, ptsNs, due, now);
    var es := PublishEvents(s, payload, align, ptsNs, due, now);
    var p := Run(s, es);
    assert Accounted(p) by { RunKeepsAccounted(s, es); }
    assert p.c.shm.arenaSize == s.c.shm.arenaSize by { RunKeepsSizes(s, es); }
    assert p.c.shm.queue[0] == LeaseDesc(s.c, lease, ptsNs);
    LeaseDescDescribes(s.c, lease, ptsNs);
    ReturnOfOnlyFrame(p, lease.bufferId);
  }

  // ---------------------------------------------------------------- runs outside the promises

  /** Why returns must come from the holder: ids restart at 1 after a reset, and in any state a return
      that names the id of a frame still queued releases the block under that frame. */
  lemma UnownedReturnFreesQueuedFrame(s: State, desc: ReadyDesc)
    requires CanRecycle(s.c.shm) && s.c.shm.queue != [] && desc.bufferId == s.c.shm.queue[0].bufferId
    ensures var t := NextDrain(NextRecycle(s, desc));
            t.c.shm.queue == s.c.shm.queue && t.c.shm.queue[0].bufferId !in t.c.heap.used
    ensures Channels.Reset(s.c).heap.nextId == 1
  {
    var r := NextRecycle(s, desc);
    var all := RecycledIds(r.c.shm.recycled[..|r.c.shm.recycled|]);
    ReleaseAllUsed(r.c.heap, all);
    assert all[|all| - 1] == desc.bufferId;
  }

  /** The return and its drain free no block but those on their way back and the returner's own. */
  ghost predicate HarmsNoOther(s: State, desc: ReadyDesc) {
    forall id :: id in s.owner && !s.owner[id].InRecycle? && !(IsHeld(s, desc) && id == desc.bufferId) ==>
      id in NextDrain(NextRecycle(s, desc)).c.heap.used
  }

  lemma ReturnThenDrain(s: State, desc: ReadyDesc, id: nat)
    requires PlacesOk(s) && CanRecycle(s.c.shm)
    ensures id in NextDrain(NextRecycle(s, desc)).c.heap.used
       <==> id in s.owner && !s.owner[id].InRecycle? && id != desc.bufferId
  {
    var r := NextRecycle(s, desc);
    var all := RecycledIds(r.c.shm.recycled[..|r.c.shm.recycled|]);
    ReleaseAllUsed(r.c.heap, all);
    RecycleNamesReturned(s, id);
    assert all == RecycledIds(s.c.shm.recycled) + [desc.bufferId];
  }

  /** A return, whoever makes it, is harmless exactly when it names no live block, or is the holder's,
      or names a block that is on its way back already. */
  lemma ReturnIsHarmlessIff(s: State, desc: ReadyDesc)
    requires Accounted(s) && CanRecycle(s.c.shm)
    ensures HarmsNoOther(s, desc)
       <==> desc.bufferId !in s.c.heap.used || IsHeld(s, desc) || s.owner[desc.bufferId].InRecycle?
  {
    forall id
      ensures id in NextDrain(NextRecycle(s, desc)).c.heap.used
         <==> id in s.owner && !s.owner[id].InRecycle? && id != desc.bufferId
    {
      ReturnThenDrain(s, desc, id);
    }
  }

  lemma {:induction false} RunAppend(s: State, a: seq<Event>, b: seq<Event>)
    ensures Run(s, a + b) == Run(Run(s, a), b)
    ensures AllIssued(s, a) && AllIssued(Run(s, a), b) ==> AllIssued(s, a + b)
    decreases |a|
  {
    if a == [] {
      assert a + b == b;
    } else {
      assert (a + b)[1..] == a[1..] + b;
      RunAppend(Next(s, a[0]), a[1..], b);
    }
  }

  lemma {:induction false} OwnedRunsAreIssued(s: State, es: seq<Event>)
    requires Accounted(s) && AllOwned(s, es)
    ensures AllIssued(s, es)
    decreases |es|
  {
    if es != [] {
      NextKeepsAccounted(s, es[0]);
      OwnedRunsAreIssued(Next(s, es[0]), es[1..]);
    }
  }

  lemma RunOfTwo(s: State, e1: Event, e2: Event)
    requires !e1.PublishLease? && !e1.Write? && !e2.PublishLease? && !e2.Write?
    ensures Run(s, [e1, e2]) == Next(Next(s, e1), e2) && AllIssued(s, [e1, e2])
  {
    var s1 := Next(s, e1);
    assert [e1, e2][1..] == [e2] && [e2][1..] == [];
    assert AllIssued(Next(s1, e2), []);
    assert Run(s1, [e2]) == Next(s1, e2) && AllIssued(s1, [e2]);
  }

  lemma OnlyFrameIsReceived(p: State)
    requires ShmOk(p.c.shm) && |p.c.shm.queue| == 1
    ensures Receives(p, Recv, p.c.shm.queue[0], 0)
  {
  }

  /** Publish a frame into a quiet state, receive it, reset: quiet again, with ids from 1. */
  lemma ReceiveThenReset(s: State, payload: seq<Byte>) returns (es: seq<Event>, desc: ReadyDesc)
    requires Quiet(s) && |payload| <= s.c.shm.arenaSize
    ensures AllIssued(s, es) && desc.bufferId == s.c.heap.nextId
    ensures |es| == 5 && es[3..] == [Recv, Reset] && Receives(Run(s, es[..3]), Recv, desc, 0)
    ensures var r := Run(s, es);
            Quiet(r) && r.c.heap == Fresh(s.c.shm.arenaSize) && SameSizes(s, r)
  {
    var lease := PublishIntoQuiet(s, payload, 1, 0, 0, 0);
    var publish := PublishEvents(s, payload, 1, 0, 0, 0);
    var p := Run(s, publish);
    RunKeepsAccounted(s, publish);
    OwnedRunsAreIssued(s, publish);
    desc := p.c.shm.queue[0];
    es := publish + [Recv, Reset];
    assert es[..3] == publish && es[3..] == [Recv, Reset];
    OnlyFrameIsReceived(p);
    RunOfTwo(p, Recv, Reset);
    RunAppend(s, publish, [Recv, Reset]);
    RunKeepsSizes(s, es);
    NextKeepsAccounted(p, Recv);
    NextKeepsAccounted(Next(p, Recv), Reset);
  }

  lemma ReturnOfStaleFrame(v: State, desc: ReadyDesc)
    requires CanRecycle(v.c.shm) && v.c.shm.queue != [] && desc.bufferId == v.c.shm.queue[0].bufferId
    ensures AllIssued(v, [Recycle(desc), DrainRecycles])
    ensures var t := Run(v, [Recycle(desc), DrainRecycles]);
            t.c.shm.queue == v.c.shm.queue && t.c.shm.queue[0].bufferId !in t.c.heap.used
  {
    RunOfTwo(v, Recycle(desc), DrainRecycles);
    UnownedReturnFreesQueuedFrame(v, desc);
  }

  lemma PublishThenStaleReturn(r: State, payload: seq<Byte>, desc: ReadyDesc) returns (es: seq<Event>)
    requires Quiet(r) && |payload| <= r.c.shm.arenaSize && r.c.heap.nextId == desc.bufferId
    ensures AllIssued(r, es) && |es| == 5 && es[3..] == [Recycle(desc), DrainRecycles]
    ensures var t := Run(r, es);
            |t.c.shm.queue| == 1 && t.c.shm.queue[0].length == |payload|
            && t.c.shm.queue[0].bufferId !in t.c.heap.used
  {
    var lease := PublishIntoQuiet(r, payload, 1, 0, 0, 0);
    var publish := PublishEvents(r, payload, 1, 0, 0, 0);
    OwnedRunsAreIssued(r, publish);
    RunKeepsSizes(r, publish);
    assert r.c.shm.recCap > 0;
    ReturnOfStaleFrame(Run(r, publish), desc);
    RunAppend(r, publish, [Recycle(desc), DrainRecycles]);
    es := publish + [Recycle(desc), DrainRecycles];
  }

  /** Such a run exists from the start, for any two payloads that fit: publish and receive the first,
      reset, publish the second, return the first, drain. The second frame is still queued and its
      block is free. */
  lemma StaleReturnRun(arenaSize: nat, readyCap: nat, recCap: nat, periodNs: nat, first: seq<Byte>, second: seq<Byte>)
    returns (es: seq<Event>, desc: ReadyDesc)
    requires readyCap > 0 && recCap > 0 && arenaSize > 0 && |first| <= arenaSize && |second| <= arenaSize
    ensures AllIssued(Start(arenaSize, readyCap, recCap, periodNs), es)
    ensures |es| == 10 && es[3..5] == [Recv, Reset] && es[8..] == [Recycle(desc), DrainRecycles]
    ensures Receives(Run(Start(arenaSize, readyCap, recCap, periodNs), es[..3]), Recv, desc, 0)
    ensures var t := Run(Start(arenaSize, readyCap, recCap, periodNs), es);
            |t.c.shm.queue| == 1 && t.c.shm.queue[0].length == |second|
            && t.c.shm.queue[0].bufferId !in t.c.heap.used
  {
    var s := Start(arenaSize, readyCap, recCap, periodNs);
    StartIsQuiet(arenaSize, readyCap, recCap, periodNs);
    var before, received := ReceiveThenReset(s, first);
    var tail := PublishThenStaleReturn(Run(s, before), second, received);
    RunAppend(s, before, tail);
    es, desc := before + tail, received;
    assert es[..3] == before[..3] && es[3..5] == before[3..] && es[8..] == tail[3..];
  }

  lemma OnlyBlockLen(s: State, id: nat)
    requires InOrder(s) && PlacesOk(s) && |s.c.shm.queue| == 1 && s.c.shm.queue[0].bufferId == id
    ensures s.owner.Keys == s.c.heap.used.Keys && id in s.owner
    ensures s.c.heap.used[id].len == s.c.shm.queue[0].length
  {
    assert PlaceOk(s, id, s.owner[id]);
  }

  lemma OneByteLeavesRoom(s: State, id: nat)
    requires Accounted(s) && s.positive && s.c.shm.arenaSize >= 2
    requires s.owner.Keys == {id} && s.c.heap.used[id].len == 1
    ensures Fits(s.c.heap, 1, 1)
  {
    var used := s.c.heap.used;
    var o := if used[id].start == 0 then 1 else 0;
    assert Hole(used, s.c.shm.arenaSize, 1, 1, o);
    AllocateLowest(s.c.heap, s.c.shm.arenaSize, 1, 1);
  }

  /** A publish does wait in a run from the start: a ring of one entry, an arena of two bytes or more,
      and two publishes of one byte. */
  lemma WaitingRun(arenaSize: nat, recCap: nat, periodNs: nat, byte: Byte) returns (es: seq<Event>)
    requires arenaSize >= 2 && recCap > 0
    ensures AllOwned(Start(arenaSize, 1, recCap, periodNs), es)
    ensures var s := Run(Start(arenaSize, 1, recCap, periodNs), es);
            LeaseOf(s.c, 1, 1).Some? && !CanPublish(AfterAllocLease(s.c, 1, 1))
  {
    var start := Start(arenaSize, 1, recCap, periodNs);
    StartIsQuiet(arenaSize, 1, recCap, periodNs);
    var lease := PublishIntoQuiet(start, [byte], 1, 0, 0, 0);
    es := PublishEvents(start, [byte], 1, 0, 0, 0);
    var s := Run(start, es);
    RunKeepsAccounted(start, es);
    RunKeepsSizes(start, es);
    OnlyBlockLen(s, lease.bufferId);
    OneByteLeavesRoom(s, lease.bufferId);
    AllocLeaseSucceedsIff(s, 1, 1);
    PublishWaitsIff(s, 1, 1);
  }
}
