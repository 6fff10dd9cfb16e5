/** The heap in runs where no allocation reuses a live id. Returns and frees may be stale or invented:
    whatever is released, tiling, the id count and the shape of the free list survive. */
module TidyRuns {
  import opened Heaps
  import opened HeapLemmas
  import opened Channels
  import opened System

  lemma FreshIsTidy(total: nat)
    requires total > 0
    ensures TidyHeap(Fresh(total), total, 0, true)
  {
    FreshIsTiled(total);
  }

  lemma ReleaseKeepsTidy(h: Heap, total: nat, served: nat, positive: bool, id: nat)
    requires TidyHeap(h, total, served, positive)
    ensures TidyHeap(Release(h, id), total, served, positive)
  {
    ReleaseKeepsTiling(h, total, id);
    if id in h.used { CoalesceFacts(h.free, h.used[id]); }
  }

  lemma {:induction false} ReleasesKeepTidy(h: Heap, total: nat, served: nat, positive: bool, ids: seq<nat>)
    requires TidyHeap(h, total, served, positive)
    ensures TidyHeap(ReleaseAll(h, ids), total, served, positive)
    decreases |ids|
  {
    if ids != [] {
      ReleaseKeepsTidy(h, total, served, positive, ids[0]);
      ReleasesKeepTidy(Release(h, ids[0]), total, served, positive, ids[1..]);
    }
  }

  lemma AllocateKeepsTidy(h: Heap, total: nat, served: nat, positive: bool, size: nat, align: nat)
    requires TidyHeap(h, total, served, positive) && h.nextId !in h.used && Fits(h, size, align)
    ensures TidyHeap(Allocate(h, size, align), total, served + 1, positive && size > 0)
  {
    var g := Allocate(h, size, align);
    AllocateKeepsTiling(h, total, size, align);
    if positive { AllocateCanonicalIff(h, size, align); }
    assert h.nextId in g.used;
  }

  lemma DropsKeepTidy(s: State, k: nat)
    requires Tidy(s) && k <= |s.c.shm.queue|
    ensures Tidy(AfterDrops(s, k))
  {
    ReleasesKeepTidy(s.c.heap, s.c.shm.arenaSize, s.served, s.positive, QueueIds(s.c.shm.queue[..k]));
  }

  lemma WithRoomKeepsTidy(s: State, size: nat, align: nat)
    requires Tidy(s) && s.c.shm.arenaSize > 0
    ensures Tidy(WithRoom(s, size, align))
    ensures WithRoom(s, size, align).c == RoomMade(s.c, size, align)
    ensures WithRoom(s, size, align).served <= s.served
  {
    if MustReset(s.c, size, align) {
      FreshIsTidy(s.c.shm.arenaSize);
    } else {
      DropsKeepTidy(s, DropsNeeded(s.c.heap, s.c.shm.queue, size, align));
    }
  }

  lemma AllocLeaseKeepsTidy(s: State, size: nat, align: nat)
    requires Tidy(s) && s.c.shm.arenaSize > 0 && IdIsFresh(s, size, align)
    ensures Tidy(NextAllocLease(s, size, align))
  {
    WithRoomKeepsTidy(s, size, align);
    var w := WithRoom(s, size, align);
    if Fits(w.c.heap, size, align) {
      AllocateKeepsTidy(w.c.heap, w.c.shm.arenaSize, w.served, w.positive, size, align);
    }
  }

  lemma FreeLeaseKeepsTidy(s: State, lease: Lease)
    requires Tidy(s)
    ensures Tidy(NextFreeLease(s, lease))
  {
    ReleaseKeepsTidy(s.c.heap, s.c.shm.arenaSize, s.served, s.positive, lease.bufferId);
  }

  lemma DrainKeepsTidy(s: State)
    requires Tidy(s)
    ensures Tidy(NextDrain(s))
  {
    ReleasesKeepTidy(s.c.heap, s.c.shm.arenaSize, s.served, s.positive,
                     RecycledIds(s.c.shm.recycled[..|s.c.shm.recycled|]));
  }

  lemma NextKeepsTidy(s: State, e: Event)
    requires Tidy(s) && s.c.shm.arenaSize > 0
    requires e.AllocLease? ==> IdIsFresh(s, e.size, e.align)
    ensures Tidy(Next(s, e))
  {
    match e
    case AllocLease(size, align) => AllocLeaseKeepsTidy(s, size, align);
    case FreeLease(lease) => FreeLeaseKeepsTidy(s, lease);
    case DrainRecycles => DrainKeepsTidy(s);
    case Reset => FreshIsTidy(s.c.shm.arenaSize);
    case _ =>
  }
}
