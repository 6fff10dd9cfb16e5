/** What holds in every run, resets and stale handles included: ring bounds, arena bounds, the
    timeline, and the history of the queue. */
module SoundRuns {
  import opened Heaps
  import opened HeapLemmas
  import opened Timelines
  import opened Channels
  import opened ChannelLemmas
  import opened System

  lemma StartIsSound(arenaSize: nat, readyCap: nat, recCap: nat, periodNs: nat)
    requires arenaSize > 0 && readyCap > 0 && recCap > 0
    ensures Sound(Start(arenaSize, readyCap, recCap, periodNs))
  {
    FreshBounded(arenaSize);
  }

  // ---------------------------------------------------------------- deliveries

  lemma {:induction false} DeliveriesPrefix(history: seq<Publication>, more: seq<Publication>, fates: seq<Fate>)
    requires |fates| <= |history|
    ensures Deliveries(history + more, fates) == Deliveries(history, fates)
  {
    if fates != [] { DeliveriesPrefix(history, more, fates[..|fates| - 1]); }
  }

  lemma {:induction false} DeliveriesSkip(history: seq<Publication>, fates: seq<Fate>, more: seq<Fate>)
    requires |fates| + |more| <= |history| && Delivered !in more
    ensures Deliveries(history, fates + more) == Deliveries(history, fates)
  {
    if more == [] {
      assert fates + more == fates;
    } else {
      var k := |more| - 1;
      DeliveriesSkip(history, fates, more[..k]);
      assert (fates + more)[..|fates| + k] == fates + more[..k];
      assert more[k] in more;
    }
  }

  lemma DeliveriesAdd(history: seq<Publication>, fates: seq<Fate>)
    requires |fates| < |history|
    ensures Deliveries(history, fates + [Delivered]) == Deliveries(history, fates) + [history[|fates|].desc]
  {
    assert (fates + [Delivered])[..|fates|] == fates;
  }

  // ---------------------------------------------------------------- one lemma an event

  /** The region stays in order whatever the snapshot is, and the snapshot with it. */
  ghost predicate StaysSound(s: State, t: State) {
    RegionOk(t) && (Sound(s) ==> Sound(t))
  }

  /** Taking `k` entries off the front of the queue, with a fate each, keeps the history straight. */
  lemma ConsumeKeepsHistory(s: State, t: State, more: seq<Fate>)
    requires RegionOk(s) && |more| <= |s.c.shm.queue|
    requires t.history == s.history && t.fates == s.fates + more
    requires t.received == Deliveries(t.history, t.fates)
    requires t.c.shm.readyTail == s.c.shm.readyTail + |more| && t.c.shm.queue == s.c.shm.queue[|more|..]
    requires t.c.shm.timeline.gen >= s.c.shm.timeline.gen && t.c.shm.arenaSize == s.c.shm.arenaSize
    requires t.c.shm.timeline.gen == s.c.shm.timeline.gen || t.c.shm.queue == []
    ensures HistoryOk(t)
  {
    forall i | 0 <= i < |t.c.shm.queue|
      ensures t.history[t.c.shm.readyTail + i].desc == t.c.shm.queue[i]
    {
      var j := |more| + i;
      assert t.c.shm.queue[i] == s.c.shm.queue[j];
      assert s.history[s.c.shm.readyTail + j].desc == s.c.shm.queue[j];
    }
  }

  lemma DropsKeepSound(s: State, k: nat)
    requires RegionOk(s) && k <= |s.c.shm.queue|
    ensures StaysSound(s, AfterDrops(s, k))
  {
    if k > 0 { ReleaseAllBounded(s.c.heap, s.c.shm.arenaSize, QueueIds(s.c.shm.queue[..k])); }
    DeliveriesSkip(s.history, s.fates, Repeat(Dropped, k));
    ConsumeKeepsHistory(s, AfterDrops(s, k), Repeat(Dropped, k));
  }

  lemma ResetKeepsSound(s: State)
    requires RegionOk(s)
    ensures StaysSound(s, AfterReset(s, Channels.Reset(s.c)))
  {
    FreshBounded(s.c.shm.arenaSize);
  }

  lemma WithRoomKeepsSound(s: State, size: nat, align: nat)
    requires RegionOk(s)
    ensures StaysSound(s, WithRoom(s, size, align))
    ensures WithRoom(s, size, align).c == RoomMade(s.c, size, align)
    ensures !MustReset(s.c, size, align) ==> Fits(RoomMade(s.c, size, align).heap, size, align)
    ensures MustReset(s.c, size, align) ==> RoomMade(s.c, size, align).shm.failures == 0
  {
    if MustReset(s.c, size, align) {
      ResetKeepsSound(s);
    } else {
      var k := DropsNeeded(s.c.heap, s.c.shm.queue, size, align);
      DropsKeepSound(s, k);
      DropsNeededIsLeast(s.c.heap, s.c.shm.queue, size, align, k);
      assert s.c.shm.queue[..0] == [];
    }
  }

  /** The failure counter, the heap and the record of owners do not matter to the rest. */
  lemma SoundReframed(s: State, t: State)
    requires RegionOk(s)
    requires t.c.shm == s.c.shm.(failures := t.c.shm.failures) && t.c.shm.failures <= 1
    requires t.c.beacon == s.c.beacon && Bounded(t.c.heap, t.c.shm.arenaSize)
    requires t.history == s.history && t.fates == s.fates && t.received == s.received
    requires forall lease :: lease in t.issued && lease !in s.issued ==> InArena(t.c.shm, lease.offset, lease.len)
    ensures StaysSound(s, t)
  {
  }

  lemma AllocLeaseKeepsSound(s: State, size: nat, align: nat)
    requires RegionOk(s)
    ensures StaysSound(s, NextAllocLease(s, size, align))
  {
    WithRoomKeepsSound(s, size, align);
    var w := WithRoom(s, size, align);
    OperationsKeepBounds(w.c.heap, w.c.shm.arenaSize, size, align, 0);
    if Fits(w.c.heap, size, align) { LeaseInArena(w.c.heap, w.c.shm.arenaSize, size, align); }
    SoundReframed(w, NextAllocLease(s, size, align));
  }

  lemma EnqueueKeepsRegion(s: State, lease: Lease, ptsNs: Nanos)
    requires RegionOk(s) && lease in s.issued && CanEnqueue(s, lease)
    ensures RegionOk(NextEnqueue(s, lease, ptsNs))
  {
    var t := NextEnqueue(s, lease, ptsNs);
    DeliveriesPrefix(s.history, t.history[|s.history|..], s.fates);
    assert t.history == s.history + t.history[|s.history|..];
  }

  /** The snapshot in the header and the writer's memory of it do not matter to the region. */
  lemma RegionIgnoresSnapshot(s: State, t: State)
    requires RegionOk(s) && t == s.(c := s.c.(shm := s.c.shm.(timeline := t.c.shm.timeline), beacon := t.c.beacon))
    requires t.c.shm.timeline.gen == s.c.shm.timeline.gen
    ensures RegionOk(t)
  {
  }

  lemma PublishLeaseKeepsSound(s: State, lease: Lease, ptsNs: Nanos, due: nat, now: nat)
    requires RegionOk(s) && lease in s.issued
    ensures StaysSound(s, NextPublishLease(s, lease, ptsNs, due, now))
  {
    if CanEnqueue(s, lease) {
      EnqueueKeepsRegion(s, lease, ptsNs);
      RegionIgnoresSnapshot(NextEnqueue(s, lease, ptsNs), NextPublishLease(s, lease, ptsNs, due, now));
    }
  }

  lemma DrainKeepsSound(s: State)
    requires RegionOk(s)
    ensures StaysSound(s, NextDrain(s))
  {
    ReleaseAllBounded(s.c.heap, s.c.shm.arenaSize, RecycledIds(s.c.shm.recycled[..|s.c.shm.recycled|]));
  }

  lemma RecvKeepsSound(s: State)
    requires RegionOk(s)
    ensures StaysSound(s, NextRecv(s))
    ensures !RecvOutcome(s.c.shm).OutOfBounds?
  {
    if s.c.shm.queue != [] {
      DeliveriesAdd(s.history, s.fates);
      ConsumeKeepsHistory(s, NextRecv(s), [Delivered]);
    }
  }

  lemma LatestKeepsShm(shm: Shm)
    requires ShmOk(shm)
    ensures ShmOk(AfterLatest(shm)) && !LatestOutcome(shm).OutOfBounds?
  {
    if shm.queue != [] {
      var older := RecycleOldest(shm, Recyclable(shm));
      assert forall i :: |shm.recycled| <= i < |older.recycled| ==>
          older.recycled[i] == DescsOf(shm, Recyclable(shm))[i - |shm.recycled|];
      assert ShmOk(older);
    }
  }

  lemma RecvLatestKeepsSound(s: State)
    requires RegionOk(s)
    ensures StaysSound(s, NextRecvLatest(s))
    ensures !LatestOutcome(s.c.shm).OutOfBounds?
  {
    var shm := s.c.shm;
    LatestKeepsShm(shm);
    if shm.queue != [] {
      var skipped := Repeat(Recycled, Recyclable(shm)) + Repeat(Skipped, Chosen(shm) - Recyclable(shm));
      DeliveriesSkip(s.history, s.fates, skipped);
      DeliveriesAdd(s.history, s.fates + skipped);
      assert s.fates + LatestFates(shm) == s.fates + skipped + [Delivered];
      ConsumeKeepsHistory(s, NextRecvLatest(s), LatestFates(shm));
    }
  }

  lemma AttachKeepsSound(s: State)
    requires RegionOk(s)
    ensures StaysSound(s, NextAttach(s))
  {
    DeliveriesSkip(s.history, s.fates, Repeat(Skipped, |s.c.shm.queue|));
    ConsumeKeepsHistory(s, NextAttach(s), Repeat(Skipped, |s.c.shm.queue|));
  }

  /** Nothing a step does to the heap, the owners, the arena or the usage meter touches soundness. */
  lemma SameRingsKeepSound(s: State, t: State)
    requires RegionOk(s)
    requires t.c.shm == s.c.shm.(usedBytes := t.c.shm.usedBytes, arena := t.c.shm.arena)
    requires |t.c.shm.arena| == |s.c.shm.arena| && t.c.beacon == s.c.beacon
    requires Bounded(t.c.heap, t.c.shm.arenaSize)
    requires t.issued == s.issued && t.history == s.history && t.fates == s.fates && t.received == s.received
    ensures StaysSound(s, t)
  {
  }

  lemma FreeLeaseKeepsSound(s: State, lease: Lease)
    requires RegionOk(s)
    ensures StaysSound(s, NextFreeLease(s, lease))
  {
    OperationsKeepBounds(s.c.heap, s.c.shm.arenaSize, 0, 1, lease.bufferId);
    SameRingsKeepSound(s, NextFreeLease(s, lease));
  }

  lemma WriteKeepsSound(s: State, lease: Lease, at: nat, bytes: seq<Byte>)
    requires RegionOk(s)
    ensures StaysSound(s, NextWrite(s, lease, at, bytes))
  {
    SameRingsKeepSound(s, NextWrite(s, lease, at, bytes));
  }

  lemma EmitKeepsSound(s: State, ptsNs: Nanos, now: nat)
    requires RegionOk(s)
    ensures StaysSound(s, Next(s, EmitSnapshot(ptsNs, now)))
  {
  }

  lemma RecycleKeepsSound(s: State, desc: ReadyDesc)
    requires RegionOk(s)
    ensures StaysSound(s, NextRecycle(s, desc))
  {
  }

  lemma NextKeepsSound(s: State, e: Event)
    requires RegionOk(s) && Issued(s, e)
    ensures StaysSound(s, Next(s, e))
  {
    match e
    case AllocLease(size, align) => AllocLeaseKeepsSound(s, size, align);
    case FreeLease(lease) => FreeLeaseKeepsSound(s, lease);
    case Write(lease, at, bytes) => WriteKeepsSound(s, lease, at, bytes);
    case PublishLease(lease, ptsNs, due, now) => PublishLeaseKeepsSound(s, lease, ptsNs, due, now);
    case EmitSnapshot(ptsNs, now) => EmitKeepsSound(s, ptsNs, now);
    case DrainRecycles => DrainKeepsSound(s);
    case Reset => ResetKeepsSound(s);
    case Recv => RecvKeepsSound(s);
    case RecvLatest => RecvLatestKeepsSound(s);
    case Recycle(desc) => RecycleKeepsSound(s, desc);
    case Attach => AttachKeepsSound(s);
  }
}
