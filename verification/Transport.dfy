/** The transport as the program has it: a header and two rings in shared memory, and a Writer and a
    Reader that update them in place. A polling loop is modelled by one pass, which reports whether
    it got through; clock readings are parameters. */
module Transport {
  import opened Basics
  import opened Heaps
  import opened HeapLemmas
  import opened Allocator
  import opened Rings
  import opened Timelines
  import opened Channels
  import opened ChannelLemmas

  class SharedRegion {
    const ready: array<ReadyDesc>
    const recycle: array<RecycleDesc>
    const arena: array<Byte>
    var readyHead: nat
    var readyTail: nat
    var recHead: nat
    var recTail: nat
    var arenaUsedBytes: nat
    var allocFailures: nat
    var timelineGen: nat
    var timelineSnapshotGen: nat
    var timelineValid: nat
    var timelineSeq: nat
    var timelineSinkMonoNs: nat
    var timelineProducerPtsNs: nat
    var timelineReadyHead: nat

    ghost predicate Valid()
      reads this
    {
      && 0 < ready.Length < U32_LIMIT && 0 < recycle.Length < U32_LIMIT
      && readyTail <= readyHead <= readyTail + ready.Length
      && recTail <= recHead <= recTail + recycle.Length
    }

    ghost function Header(): Timeline
      reads this
    {
      Timeline(timelineGen, timelineSnapshotGen, timelineValid != 0, timelineSeq,
               timelineSinkMonoNs, timelineProducerPtsNs, timelineReadyHead)
    }

    ghost function View(): Shm
      requires Valid()
      reads this, ready, recycle, arena
    {
      Shm(arena.Length, ready.Length, recycle.Length,
          readyTail, Window(ready[..], readyTail, readyHead - readyTail),
          recTail, Window(recycle[..], recTail, recHead - recTail),
          arena[..], arenaUsedBytes, allocFailures, Header())
    }

    constructor (readyCapacity: nat, recCapacity: nat, arenaSize: nat)
      requires 0 < readyCapacity < U32_LIMIT && 0 < recCapacity < U32_LIMIT
      ensures Valid() && fresh(ready) && fresh(recycle) && fresh(arena)
      ensures View() == MappedRegion(arenaSize, readyCapacity, recCapacity)
    {
      ready := new ReadyDesc[readyCapacity](_ => ReadyDesc(0, 0, 0, 0, 0, 0, 0, 0));
      recycle := new RecycleDesc[recCapacity](_ => RecycleDesc(0, 0, 0, 0, 0));
      arena := new Byte[arenaSize](_ => 0);
      readyHead, readyTail, recHead, recTail := 0, 0, 0, 0;
      arenaUsedBytes, allocFailures := 0, 0;
      timelineGen, timelineSnapshotGen, timelineValid, timelineSeq := 0, 0, 0, 0;
      timelineSinkMonoNs, timelineProducerPtsNs, timelineReadyHead := 0, 0, 0;
      new;
      assert arena[..] == seq(arenaSize, _ => 0);
    }
  }

  datatype PublishResult = Published(bufferId: nat) | Exhausted | Waiting(lease: Lease)

  class Writer {
    const shm: SharedRegion
    var allocator: FreeListAllocator
    const allocatorAlign: nat
    const timelineBeaconNs: nat
    var lastTimelineEmitNs: nat
    var lastTimelineSnapshotGen: nat

    ghost predicate Valid()
      reads this, allocator, shm
    {
      shm.Valid() && Bounded(allocator.View(), shm.arena.Length)
    }

    ghost function View(): Channel
      requires Valid()
      reads this, allocator, shm, shm.ready, shm.recycle, shm.arena
    {
      Channel(shm.View(), allocator.View(), Beacon(timelineBeaconNs, lastTimelineEmitNs, lastTimelineSnapshotGen))
    }

    constructor (readyCapacity: nat, recCapacity: nat, arenaSize: nat, align: nat, beaconMs: nat)
      requires 0 < readyCapacity < U32_LIMIT && 0 < recCapacity < U32_LIMIT
      ensures Valid() && fresh(shm) && fresh(allocator)
      ensures View() == Created(arenaSize, readyCapacity, recCapacity, Max(beaconMs, 1) * 1_000_000)
    {
      var region := new SharedRegion(readyCapacity, recCapacity, arenaSize);
      var a := new FreeListAllocator(arenaSize);
      FreshBounded(arenaSize);
      shm := region;
      allocator := a;
      allocatorAlign := align;
      timelineBeaconNs := Max(beaconMs, 1) * 1_000_000;
      lastTimelineEmitNs, lastTimelineSnapshotGen := 0, 0;
    }

    /** Null for a configuration the program rejects: an empty ring, or no room left for an arena. */
    static method Create(totalSize: nat, readyCapacity: nat, recCapacity: nat, align: nat, beaconMs: nat)
      returns (w: Writer?)
      requires readyCapacity < U32_LIMIT && recCapacity < U32_LIMIT
      ensures w == null
         <==> (readyCapacity == 0 || recCapacity == 0 || ArenaOffset(readyCapacity, recCapacity) >= totalSize)
      ensures w != null ==>
                && fresh(w) && w.Valid()
                && w.View() == Created(totalSize - ArenaOffset(readyCapacity, recCapacity), readyCapacity, recCapacity,
                                       Max(beaconMs, 1) * 1_000_000)
                && ArenaOffset(readyCapacity, recCapacity) + w.shm.arena.Length == totalSize
    {
      if readyCapacity == 0 || recCapacity == 0 {
        return null;
      }
      var arenaOffset := ArenaOffset(readyCapacity, recCapacity);
      if arenaOffset >= totalSize {
        return null;
      }
      w := new Writer(readyCapacity, recCapacity, totalSize - arenaOffset, align, beaconMs);
    }

    method StoreUsedBytes()
      requires Valid()
      modifies shm`arenaUsedBytes
      ensures Valid() && View() == Metered(old(View()))
    {
      var bytes := allocator.UsedBytes();
      shm.arenaUsedBytes := bytes;
    }

    method DropOldestReady() returns (dropped: bool)
      requires Valid()
      modifies allocator, shm
      ensures Valid()
      ensures dropped <==> old(View()).shm.queue != []
      ensures View() == if dropped then DropN(old(View()), 1) else old(View())
    {
      var head, tail := shm.readyHead, shm.readyTail;
      if head == tail {
        return false;
      }
      ghost var before := View();
      var desc := shm.ready[Slot(tail, shm.ready.Length)];
      assert desc == before.shm.queue[0];
      OperationsKeepBounds(before.heap, shm.arena.Length, 0, 1, desc.bufferId);
      PopWindow(shm.ready[..], tail, head - tail, 1);
      var _ := allocator.FreeById(desc.bufferId);
      shm.readyTail := tail + 1;
      StoreUsedBytes();
      ReleaseAllAppend(before.heap, [], desc.bufferId);
      assert QueueIds(before.shm.queue[..1]) == [] + [desc.bufferId];
      return true;
    }

    method ResetAllocatorState()
      requires Valid()
      modifies this`allocator, shm
      ensures Valid() && fresh(allocator)
      ensures View() == Reset(old(View()))
    {
      FreshBounded(shm.arena.Length);
      allocator := new FreeListAllocator(shm.arena.Length);
      shm.readyHead, shm.readyTail := 0, 0;
      shm.recHead, shm.recTail := 0, 0;
      shm.arenaUsedBytes := 0;
      shm.allocFailures := 0;
      shm.timelineGen := shm.timelineGen + 1;
      shm.timelineValid := 0;
    }

    method AllocLease(size: nat, align: nat) returns (r: Option<Lease>)
      requires Valid()
      modifies this`allocator, allocator, shm
      ensures Valid() && (allocator == old(allocator) || fresh(allocator))
      ensures View() == AfterAllocLease(old(View()), size, align)
      ensures r == LeaseOf(old(View()), size, align)
      ensures r.Some? ==> r.value.offset + size <= shm.arena.Length
    {
      ghost var before := View();
      ghost var k := 0;
      while true
        invariant Valid() && allocator == old(allocator)
        invariant Dropping(before, View(), k, size, align)
        decreases |View().shm.queue|
      {
        ghost var c := View();
        var lease := TryAlloc(size, align);
        if lease.Some? {
          DropSuffices(before, c, k, size, align);
          return lease;
        }
        var dropped := DropOldestReady();
        if dropped {
          DropGoesOn(before, c, k, size, align);
          k := k + 1;
          continue;
        }
        DropIsNotEnough(before, c, k, size, align);
        r := ResetAndRetry(size, align);
        return;
      }
    }

    /** The last attempt, in an arena that has been reset. */
    method ResetAndRetry(size: nat, align: nat) returns (r: Option<Lease>)
      requires Valid()
      modifies this`allocator, shm
      ensures Valid() && fresh(allocator)
      ensures var c := Reset(old(View()));
              && View() == (if Fits(c.heap, size, align) then c.(heap := Allocate(c.heap, size, align))
                            else c.(shm := c.shm.(failures := 1)))
              && r == (if !Fits(c.heap, size, align) then None
                       else Some(Lease(c.heap.nextId, FitOffset(c.heap, size, align), size)))
      ensures r.Some? ==> r.value.offset + size <= shm.arena.Length
    {
      ResetAllocatorState();
      r := TryAlloc(size, align);
      if r.None? {
        shm.allocFailures := shm.allocFailures + 1;
      }
    }

    /** One attempt of the allocator, as a lease. */
    method TryAlloc(size: nat, align: nat) returns (r: Option<Lease>)
      requires Valid()
      modifies allocator
      ensures Valid() && View() == old(View()).(heap := Allocate(old(View()).heap, size, align))
      ensures r == if Fits(old(View()).heap, size, align)
                   then Some(Lease(old(View()).heap.nextId, FitOffset(old(View()).heap, size, align), size)) else None
      ensures r.Some? ==> r.value.offset + size <= shm.arena.Length
    {
      ghost var h := allocator.View();
      OperationsKeepBounds(h, shm.arena.Length, size, align, 0);
      var alloc := allocator.Alloc(size, align);
      if alloc.None? {
        return None;
      }
      LeaseInArena(h, shm.arena.Length, size, align);
      return Some(Lease(alloc.value.bufferId, alloc.value.offset, alloc.value.len));
    }

    method FreeLease(bufferId: nat) returns (freed: bool)
      requires Valid()
      modifies allocator, shm
      ensures Valid() && View() == Channels.FreeLease(old(View()), bufferId)
      ensures freed <==> bufferId in old(View()).heap.used
    {
      OperationsKeepBounds(View().heap, shm.arena.Length, 0, 1, bufferId);
      freed := allocator.FreeById(bufferId);
      StoreUsedBytes();
    }

    method ForceTimelineSnapshot(producerPtsNs: Nanos, readyHead: nat, now: nat)
      requires Valid()
      modifies this`lastTimelineEmitNs, this`lastTimelineSnapshotGen, shm
      ensures Valid() && View() == Channels.EmitSnapshot(old(View()), producerPtsNs, readyHead, now)
    {
      var generation := shm.timelineGen;
      shm.timelineSinkMonoNs := now;
      shm.timelineProducerPtsNs := Max(producerPtsNs, 0);
      shm.timelineReadyHead := readyHead;
      shm.timelineSnapshotGen := generation;
      shm.timelineSeq := shm.timelineSeq + 1;
      shm.timelineValid := 1;
      lastTimelineEmitNs := now;
      lastTimelineSnapshotGen := generation;
    }

    /** One pass of the publishing loop; false while the ready ring is full. */
    method PublishLease(lease: Lease, ptsNs: Nanos, due: nat, now: nat) returns (published: bool)
      requires Valid()
      modifies this`lastTimelineEmitNs, this`lastTimelineSnapshotGen, shm, shm.ready
      ensures Valid() && allocator == old(allocator)
      ensures published <==> CanPublish(old(View()))
      ensures View() == Channels.PublishLease(old(View()), lease, ptsNs, due, now)
    {
      var head, tail := shm.readyHead, shm.readyTail;
      if WrappingSub(head, tail) >= shm.ready.Length {
        return false;
      }
      PushWindow(shm.ready[..], tail, head - tail,
        ReadyDesc(head + 1, lease.offset, lease.len, lease.bufferId, ptsNs, ptsNs, 0, 0));
      shm.ready[Slot(head, shm.ready.Length)] :=
        ReadyDesc(head + 1, lease.offset, lease.len, lease.bufferId, ptsNs, ptsNs, 0, 0);
      shm.readyHead := head + 1;
      StoreUsedBytes();
      var generationChanged := shm.timelineGen != lastTimelineSnapshotGen;
      var periodicDue := Max(due - lastTimelineEmitNs, 0) >= timelineBeaconNs;
      if generationChanged || periodicDue {
        ForceTimelineSnapshot(ptsNs, head + 1, now);
      }
      return true;
    }

    method CopyIn(offset: nat, payload: seq<Byte>)
      requires Valid() && offset + |payload| <= shm.arena.Length
      modifies shm.arena
      ensures Valid() && View() == old(View()).(shm := Store(old(View()).shm, offset, payload))
    {
      forall i | 0 <= i < |payload| {
        shm.arena[offset + i] := payload[i];
      }
      assert shm.arena[..] == old(shm.arena[..offset]) + payload + old(shm.arena[offset + |payload|..]);
    }

    method Publish(payload: seq<Byte>, ptsNs: Nanos, due: nat, now: nat) returns (r: PublishResult)
      requires Valid() && |payload| < U32_LIMIT
      modifies this, allocator, shm, shm.ready, shm.arena
      ensures Valid() && (allocator == old(allocator) || fresh(allocator))
      ensures var c, size := old(View()), |payload|;
              var room := AfterAllocLease(c, size, allocatorAlign);
              match LeaseOf(c, size, allocatorAlign)
              case None => r == Exhausted && View() == room
              case Some(lease) =>
                && lease.offset + size <= |room.shm.arena|
                && var filled := room.(shm := Store(room.shm, lease.offset, payload));
                   && View() == Channels.PublishLease(filled, lease, ptsNs, due, now)
                   && r == if CanPublish(filled) then Published(lease.bufferId) else Waiting(lease)
    {
      var lease := AllocLease(|payload|, allocatorAlign);
      if lease.None? {
        return Exhausted;
      }
      var offset := lease.value.offset;
      CopyIn(offset, payload);
      var published := PublishLease(lease.value, ptsNs, due, now);
      return if published then Published(lease.value.bufferId) else Waiting(lease.value);
    }

    method EmitTimelineSnapshot(producerPtsNs: Nanos, now: nat)
      requires Valid()
      modifies this`lastTimelineEmitNs, this`lastTimelineSnapshotGen, shm
      ensures Valid()
      ensures View() == EmitSnapshot(old(View()), producerPtsNs, old(View()).shm.ReadyHead(), now)
    {
      ForceTimelineSnapshot(producerPtsNs, shm.readyHead, now);
    }

    method DrainRecycles()
      requires Valid()
      modifies allocator, shm
      ensures Valid() && View() == Channels.DrainRecycles(old(View()))
    {
      ghost var before := View();
      ghost var k := 0;
      while shm.recHead != shm.recTail
        invariant Valid() && k <= |before.shm.recycled|
        invariant View() == DrainN(before, k)
        decreases |View().shm.recycled|
      {
        DrainOne();
        DrainOneMore(before, k);
        k := k + 1;
      }
      StoreUsedBytes();
    }

    /** One pass of the draining loop. */
    method DrainOne()
      requires Valid() && View().shm.recycled != []
      modifies allocator, shm`recTail
      ensures Valid()
      ensures View() == DrainN(old(View()), 1)
    {
      ghost var c := View();
      var head, tail := shm.recHead, shm.recTail;
      var rec := shm.recycle[Slot(tail, shm.recycle.Length)];
      assert rec == c.shm.recycled[0];
      OperationsKeepBounds(c.heap, shm.arena.Length, 0, 1, rec.bufferId);
      PopWindow(shm.recycle[..], tail, head - tail, 1);
      ReleaseAllAppend(c.heap, [], rec.bufferId);
      assert RecycledIds(c.shm.recycled[..1]) == [] + [rec.bufferId];
      var _ := allocator.FreeById(rec.bufferId);
      shm.recTail := tail + 1;
    }
  }

  class Reader {
    const shm: SharedRegion

    constructor (region: SharedRegion)
      ensures shm == region
    {
      shm := region;
    }

    method ValidateBounds(offset: nat, len: nat) returns (ok: bool)
      requires shm.Valid()
      ensures ok <==> InArena(shm.View(), offset, len)
    {
      ok := offset + len <= shm.arena.Length;
    }

    method TryRecvDesc() returns (r: Outcome)
      requires shm.Valid()
      modifies shm
      ensures shm.Valid()
      ensures r == RecvOutcome(old(shm.View())) && shm.View() == AfterRecv(old(shm.View()))
    {
      var head, tail := shm.readyHead, shm.readyTail;
      if head == tail {
        return Nothing;
      }
      var desc := shm.ready[Slot(tail, shm.ready.Length)];
      assert desc == shm.View().queue[0];
      var ok := ValidateBounds(desc.offset, desc.length);
      if !ok {
        return OutOfBounds;
      }
      PopWindow(shm.ready[..], tail, head - tail, 1);
      shm.readyTail := tail + 1;
      return Received(desc, 0);
    }

    /** One pass of the recycling loop; false while the recycle ring is full. */
    method TryRecycleDesc(bufferId: nat, offset: nat, length: nat, status: nat) returns (ok: bool)
      requires shm.Valid()
      modifies shm`recHead, shm.recycle
      ensures shm.Valid()
      ensures ok <==> CanRecycle(old(shm.View()))
      ensures shm.View() == Recycle(old(shm.View()), bufferId, offset, length, status)
    {
      var head, tail := shm.recHead, shm.recTail;
      if WrappingSub(head, tail) >= shm.recycle.Length {
        return false;
      }
      PushWindow(shm.recycle[..], tail, head - tail, RecycleDesc(head + 1, bufferId, status, offset, length));
      shm.recycle[Slot(head, shm.recycle.Length)] := RecycleDesc(head + 1, bufferId, status, offset, length);
      shm.recHead := head + 1;
      return true;
    }

    method TryRecvLatestDesc() returns (r: Outcome)
      requires shm.Valid()
      modifies shm, shm.recycle
      ensures shm.Valid()
      ensures r == LatestOutcome(old(shm.View())) && shm.View() == AfterLatest(old(shm.View()))
    {
      ghost var before := shm.View();
      var head, tail := shm.readyHead, shm.readyTail;
      if head == tail {
        return Nothing;
      }
      var len := head - tail;
      var dropped := 0;
      var chosen := tail;
      if len == 1 {
        RecycleNone(before);
      } else {
        chosen := head - 2;
        dropped := RecycleOlder(chosen);
      }
      var desc := shm.ready[Slot(chosen, shm.ready.Length)];
      assert desc == before.queue[Chosen(before)];
      var valid := ValidateBounds(desc.offset, desc.length);
      if !valid {
        return OutOfBounds;
      }
      PopWindow(shm.ready[..], tail, head - tail, chosen + 1 - tail);
      shm.readyTail := if len <= 1 then head else head - 1;
      return Received(desc, dropped);
    }

    /** The dropping loop of the live policy: recycles what precedes `chosen` while there is room. */
    method RecycleOlder(chosen: nat) returns (dropped: nat)
      requires shm.Valid() && shm.View().queue != []
      requires chosen == shm.readyTail + Chosen(shm.View())
      modifies shm`recHead, shm.recycle
      ensures shm.Valid()
      ensures dropped == Recyclable(old(shm.View()))
      ensures shm.View() == RecycleOldest(old(shm.View()), dropped)
    {
      ghost var before := shm.View();
      RecycleNone(before);
      dropped := 0;
      var cur := shm.readyTail;
      while cur < chosen
        invariant shm.Valid() && cur == before.readyTail + dropped
        invariant dropped <= Recyclable(before)
        invariant shm.View() == RecycleOldest(before, dropped)
      {
        var desc := shm.ready[Slot(cur, shm.ready.Length)];
        assert desc == before.queue[dropped];
        var ok := TryRecycleDesc(desc.bufferId, desc.offset, desc.length, 1);
        if !ok {
          break;
        }
        RecycleOneMore(before, dropped);
        dropped := dropped + 1;
        cur := cur + 1;
      }
    }

    /** The bytes behind the pointer that `payload_ptr` returns. */
    method PayloadBytes(desc: ReadyDesc) returns (r: Option<seq<Byte>>)
      requires shm.Valid()
      ensures r == if InArena(shm.View(), desc.offset, desc.length)
                   then Some(Payload(shm.View(), desc.offset, desc.length)) else None
    {
      var ok := ValidateBounds(desc.offset, desc.length);
      return if ok then Some(shm.arena[desc.offset..desc.offset + desc.length]) else None;
    }

    method TimelineSnapshot() returns (s: Snapshot)
      requires shm.Valid()
      ensures s == Read(shm.View().timeline)
    {
      s := Snapshot(shm.timelineGen, shm.timelineSnapshotGen, shm.timelineValid != 0, shm.timelineSeq,
                    shm.timelineSinkMonoNs, AsI64(shm.timelineProducerPtsNs), shm.timelineReadyHead);
    }

    method SyncStartupState()
      requires shm.Valid()
      modifies shm
      ensures shm.Valid() && shm.View() == Attach(old(shm.View()))
    {
      PopWindow(shm.ready[..], shm.readyTail, shm.readyHead - shm.readyTail, shm.readyHead - shm.readyTail);
      shm.readyTail := shm.readyHead;
      shm.timelineGen := shm.timelineGen + 1;
      shm.timelineValid := 0;
    }
  }
}
