/** What holds when handles are used by their holder: every live buffer is in exactly one place, and
    the bytes of a published frame stay put until its block is released. */
module OwnedRuns {
  import opened Heaps
  import opened HeapLemmas
  import opened Timelines
  import opened Channels
  import opened System
  import opened SoundRuns
  import opened TidyRuns

  lemma StartIsAccounted(arenaSize: nat, readyCap: nat, recCap: nat, periodNs: nat)
    requires arenaSize > 0 && readyCap > 0 && recCap > 0
    ensures Accounted(Start(arenaSize, readyCap, recCap, periodNs))
  {
    StartIsSound(arenaSize, readyCap, recCap, periodNs);
    FreshIsTidy(arenaSize);
  }

  lemma ResetKeepsAccounted(s: State)
    requires Accounted(s)
    ensures Accounted(AfterReset(s, Channels.Reset(s.c)))
  {
    ResetKeepsSound(s);
    FreshIsTidy(s.c.shm.arenaSize);
  }

  // ---------------------------------------------------------------- releasing

  /** A frame that is still queued is the queue entry its number names. */
  lemma QueuedIsInQueue(s: State, id: nat, n: nat)
    requires InOrder(s) && PlaceOk(s, id, Queued(n))
    ensures var i := n - s.c.shm.readyTail - 1;
            0 <= i < |s.c.shm.queue| && s.c.shm.queue[i].bufferId == id
  {
    assert s.history[s.c.shm.readyTail + (n - s.c.shm.readyTail - 1)].desc == s.c.shm.queue[n - s.c.shm.readyTail - 1];
  }

  lemma QueuedIsListed(s: State, id: nat, place: Place, k: nat)
    requires InOrder(s) && PlaceOk(s, id, place) && k <= |s.c.shm.queue|
    ensures place.Queued? && place.n <= s.c.shm.readyTail + k ==> id in QueueIds(s.c.shm.queue[..k])
  {
    if place.Queued? && place.n <= s.c.shm.readyTail + k {
      QueuedIsInQueue(s, id, place.n);
      assert QueueIds(s.c.shm.queue[..k])[place.n - s.c.shm.readyTail - 1] == id;
    }
  }

  /** What a step has to leave alone for a buffer to stay where it is. */
  ghost predicate Untouched(s: State, t: State, id: nat) {
    && s.history <= t.history && s.fates <= t.fates && s.issued <= t.issued
    && t.c.shm.arena == s.c.shm.arena
    && id in s.c.heap.used && id in t.c.heap.used && t.c.heap.used[id] == s.c.heap.used[id]
  }

  lemma PlaceStays(s: State, t: State, id: nat, place: Place)
    requires PlaceOk(s, id, place) && Untouched(s, t, id)
    requires place.Queued? ==> t.c.shm.readyTail < place.n <= t.c.shm.ReadyHead()
    requires place.InRecycle? ==>
               && t.c.shm.recTail < place.slot <= t.c.shm.RecHead()
               && t.c.shm.recycled[place.slot - t.c.shm.recTail - 1].bufferId == id
    ensures PlaceOk(t, id, place)
  {
  }

  lemma DropKeepsPlace(s: State, k: nat, id: nat)
    requires InOrder(s) && k <= |s.c.shm.queue| && id in s.owner && PlaceOk(s, id, s.owner[id])
    requires id in AfterDrops(s, k).owner
    ensures PlaceOk(AfterDrops(s, k), id, s.owner[id])
  {
    var t := AfterDrops(s, k);
    var ids := QueueIds(s.c.shm.queue[..k]);
    ReleaseAllUsed(s.c.heap, ids);
    QueuedIsListed(s, id, s.owner[id], k);
    PlaceStays(s, t, id, s.owner[id]);
  }

  lemma DropsKeepPlaces(s: State, k: nat)
    requires InOrder(s) && PlacesOk(s) && k <= |s.c.shm.queue|
    ensures PlacesOk(AfterDrops(s, k))
  {
    var t := AfterDrops(s, k);
    var queue := s.c.shm.queue;
    var ids := QueueIds(queue[..k]);
    ReleaseAllUsed(s.c.heap, ids);
    forall id | id in ids
      ensures id in s.owner && s.owner[id].Queued? && s.owner[id].n <= s.c.shm.readyTail + k
    {
      var j :| 0 <= j < k && ids[j] == id;
      assert queue[j].bufferId == id;
    }
    forall id | id in t.owner
      ensures PlaceOk(t, id, t.owner[id])
    {
      DropKeepsPlace(s, k, id);
    }
    forall i | 0 <= i < |t.c.shm.queue|
      ensures t.c.shm.queue[i].bufferId in t.owner
      ensures t.owner[t.c.shm.queue[i].bufferId] == Queued(t.c.shm.readyTail + i + 1)
    {
      assert t.c.shm.queue[i] == queue[k + i];
    }
  }

  lemma DropsKeepAccounted(s: State, k: nat)
    requires Accounted(s) && k <= |s.c.shm.queue|
    ensures Accounted(AfterDrops(s, k))
  {
    DropsKeepSound(s, k);
    DropsKeepPlaces(s, k);
    DropsKeepTidy(s, k);
    if k == 0 { assert AfterDrops(s, k).owner == s.owner; }
  }

  lemma FreeKeepsPlaces(s: State, lease: Lease)
    requires PlacesOk(s) && IsLeased(s, lease)
    ensures PlacesOk(NextFreeLease(s, lease))
  {
    var t := NextFreeLease(s, lease);
    forall id | id in t.owner
      ensures PlaceOk(t, id, t.owner[id])
    {
      PlaceStays(s, t, id, s.owner[id]);
    }
  }

  lemma FreeLeaseKeepsAccounted(s: State, lease: Lease)
    requires Accounted(s) && IsLeased(s, lease)
    ensures Accounted(NextFreeLease(s, lease))
  {
    FreeLeaseKeepsSound(s, lease);
    FreeLeaseKeepsTidy(s, lease);
    FreeKeepsPlaces(s, lease);
  }

  lemma RecycledIsListed(s: State, id: nat, place: Place)
    requires PlaceOk(s, id, place)
    ensures place.InRecycle? ==> id in RecycledIds(s.c.shm.recycled[..|s.c.shm.recycled|])
  {
    var ids := RecycledIds(s.c.shm.recycled[..|s.c.shm.recycled|]);
    if place.InRecycle? { assert ids[place.slot - s.c.shm.recTail - 1] == id; }
  }

  lemma DrainKeepsPlace(s: State, id: nat)
    requires id in s.owner && PlaceOk(s, id, s.owner[id])
    requires id in NextDrain(s).owner
    ensures PlaceOk(NextDrain(s), id, s.owner[id])
  {
    var recycled := s.c.shm.recycled;
    var ids := RecycledIds(recycled[..|recycled|]);
    ReleaseAllUsed(s.c.heap, ids);
    RecycledIsListed(s, id, s.owner[id]);
    PlaceStays(s, NextDrain(s), id, s.owner[id]);
  }

  lemma DrainKeepsPlaces(s: State)
    requires PlacesOk(s)
    ensures PlacesOk(NextDrain(s))
  {
    var recycled := s.c.shm.recycled;
    var ids := RecycledIds(recycled[..|recycled|]);
    ReleaseAllUsed(s.c.heap, ids);
    forall id | id in ids
      ensures id in s.owner && s.owner[id].InRecycle?
    {
      var j :| 0 <= j < |recycled| && ids[j] == id;
      assert recycled[j].bufferId == id;
    }
    forall id | id in NextDrain(s).owner
      ensures PlaceOk(NextDrain(s), id, NextDrain(s).owner[id])
    {
      DrainKeepsPlace(s, id);
    }
  }

  lemma DrainKeepsAccounted(s: State)
    requires Accounted(s)
    ensures Accounted(NextDrain(s))
  {
    DrainKeepsSound(s);
    DrainKeepsPlaces(s);
    DrainKeepsTidy(s);
  }

  // ---------------------------------------------------------------- leasing and publishing

  lemma TakeKeepsPlaces(w: State, t: State, lease: Lease)
    requires PlacesOk(w) && lease.bufferId !in w.c.heap.used
    requires t.c.shm == w.c.shm && t.c.heap.used == w.c.heap.used[lease.bufferId := Range(lease.offset, lease.len)]
    requires t.issued == w.issued + {lease} && t.owner == w.owner[lease.bufferId := Leased(lease)]
    requires t.history == w.history && t.fates == w.fates
    ensures PlacesOk(t)
  {
    forall id | id in t.owner
      ensures PlaceOk(t, id, t.owner[id])
    {
      if id != lease.bufferId { PlaceStays(w, t, id, w.owner[id]); }
    }
  }

  lemma WithRoomKeepsAccounted(s: State, size: nat, align: nat)
    requires Accounted(s)
    ensures Accounted(WithRoom(s, size, align))
  {
    if MustReset(s.c, size, align) {
      ResetKeepsAccounted(s);
    } else {
      DropsKeepAccounted(s, DropsNeeded(s.c.heap, s.c.shm.queue, size, align));
    }
  }

  lemma TakeKeepsAccounted(w: State, t: State, size: nat, align: nat)
    requires Accounted(w) && Sound(t) && w.c.heap.nextId !in w.c.heap.used && Fits(w.c.heap, size, align)
    requires var lease := Lease(w.c.heap.nextId, FitOffset(w.c.heap, size, align), size);
             t == w.(c := w.c.(heap := Allocate(w.c.heap, size, align)), issued := w.issued + {lease},
                     owner := w.owner[lease.bufferId := Leased(lease)],
                     served := w.served + 1, positive := w.positive && size > 0)
    ensures Accounted(t)
  {
    var lease := Lease(w.c.heap.nextId, FitOffset(w.c.heap, size, align), size);
    AllocateKeepsTidy(w.c.heap, w.c.shm.arenaSize, w.served, w.positive, size, align);
    TakeKeepsPlaces(w, t, lease);
    assert t.owner[lease.bufferId].Leased?;
  }

  lemma AllocLeaseKeepsAccounted(s: State, size: nat, align: nat)
    requires Accounted(s) && IdIsFresh(s, size, align)
    ensures Accounted(NextAllocLease(s, size, align))
  {
    assert Sound(NextAllocLease(s, size, align)) by { AllocLeaseKeepsSound(s, size, align); }
    WithRoomKeepsAccounted(s, size, align);
    WithRoomKeepsSound(s, size, align);
    var w, t := WithRoom(s, size, align), NextAllocLease(s, size, align);
    assert w.issued == s.issued;
    if Fits(w.c.heap, size, align) {
      TakeKeepsAccounted(w, t, size, align);
    } else {
      assert w.owner == map[] && t.owner == map[];
      assert t.c.heap == w.c.heap && t.c.shm == w.c.shm.(failures := t.c.shm.failures);
    }
  }

  lemma StoreApart(shm: Shm, offset: nat, bytes: seq<Byte>, r: Range)
    requires offset + |bytes| <= |shm.arena| && r.End() <= |shm.arena|
    requires r.Apart(Range(offset, |bytes|))
    ensures Payload(Store(shm, offset, bytes), r.start, r.len) == Payload(shm, r.start, r.len)
  {
    var before, after := shm.arena, Store(shm, offset, bytes).arena;
    assert |after| == |before|;
    forall i | r.start <= i < r.End()
      ensures after[i] == before[i]
    {
      assert !Range(offset, |bytes|).Has(i);
    }
  }

  /** Writing through a lease changes no byte of any other live buffer. */
  lemma WriteKeepsPlace(s: State, lease: Lease, at: nat, bytes: seq<Byte>, id: nat)
    requires id in s.owner && PlaceOk(s, id, s.owner[id]) && UsedApart(s.c.heap.used)
    requires IsLeased(s, lease) && PlaceOk(s, lease.bufferId, Leased(lease))
    ensures PlaceOk(NextWrite(s, lease, at, bytes), id, s.owner[id])
  {
    if NextWrite(s, lease, at, bytes) != s && !s.owner[id].Leased? {
      var r := s.c.heap.used[id];
      assert r.Apart(s.c.heap.used[lease.bufferId]);
      StoreApart(s.c.shm, lease.offset + at, bytes, r);
    }
  }

  lemma WriteKeepsAccounted(s: State, lease: Lease, at: nat, bytes: seq<Byte>)
    requires Accounted(s) && IsLeased(s, lease)
    ensures Accounted(NextWrite(s, lease, at, bytes))
  {
    var t := NextWrite(s, lease, at, bytes);
    forall id | id in t.owner
      ensures PlaceOk(t, id, t.owner[id])
    {
      WriteKeepsPlace(s, lease, at, bytes, id);
    }
    WriteKeepsSound(s, lease, at, bytes);
  }

  lemma PublishKeepsPlace(s: State, lease: Lease, ptsNs: Nanos, due: nat, now: nat, id: nat)
    requires InOrder(s) && id in s.owner && PlaceOk(s, id, s.owner[id])
    requires IsLeased(s, lease) && InArena(s.c.shm, lease.offset, lease.len)
    ensures var t := NextPublishLease(s, lease, ptsNs, due, now);
            PlaceOk(t, id, t.owner[id])
  {
    var t := NextPublishLease(s, lease, ptsNs, due, now);
    if t != s {
      if id == lease.bufferId {
        assert t.history[|s.history|].desc == LeaseDesc(s.c, lease, ptsNs);
      } else {
        PlaceStays(s, t, id, s.owner[id]);
      }
    }
  }

  lemma PublishKeepsRings(s: State, lease: Lease, ptsNs: Nanos, due: nat, now: nat)
    requires QueuePlaced(s.owner, s.c.shm.readyTail, s.c.shm.queue)
    requires RecyclePlaced(s.owner, s.c.shm.recTail, s.c.shm.recycled)
    requires IsLeased(s, lease)
    ensures var t := NextPublishLease(s, lease, ptsNs, due, now);
            && QueuePlaced(t.owner, t.c.shm.readyTail, t.c.shm.queue)
            && RecyclePlaced(t.owner, t.c.shm.recTail, t.c.shm.recycled)
  {
  }

  lemma PublishLeaseKeepsPlaces(s: State, lease: Lease, ptsNs: Nanos, due: nat, now: nat)
    requires InOrder(s) && PlacesOk(s) && IsLeased(s, lease) && InArena(s.c.shm, lease.offset, lease.len)
    ensures PlacesOk(NextPublishLease(s, lease, ptsNs, due, now))
  {
    var t := NextPublishLease(s, lease, ptsNs, due, now);
    PublishKeepsRings(s, lease, ptsNs, due, now);
    forall id | id in t.owner
      ensures PlaceOk(t, id, t.owner[id])
    {
      PublishKeepsPlace(s, lease, ptsNs, due, now, id);
    }
  }

  lemma LeasesAreIssued(s: State, lease: Lease)
    requires PlacesOk(s) && IsLeased(s, lease)
    ensures lease in s.issued
  {
    assert PlaceOk(s, lease.bufferId, s.owner[lease.bufferId]);
  }

  lemma PublishLeaseKeepsAccounted(s: State, lease: Lease, ptsNs: Nanos, due: nat, now: nat)
    requires Accounted(s) && IsLeased(s, lease)
    ensures Accounted(NextPublishLease(s, lease, ptsNs, due, now))
  {
    LeasesAreIssued(s, lease);
    PublishLeaseKeepsSound(s, lease, ptsNs, due, now);
    PublishLeaseKeepsPlaces(s, lease, ptsNs, due, now);
  }

  // ---------------------------------------------------------------- receiving and returning

  lemma RecvKeepsPlace(s: State, id: nat)
    requires InOrder(s) && id in s.owner && PlaceOk(s, id, s.owner[id])
    requires QueuePlaced(s.owner, s.c.shm.readyTail, s.c.shm.queue)
    requires s.c.shm.queue != [] ==> s.c.shm.queue[0].seqNo == s.c.shm.readyTail + 1
    ensures PlaceOk(NextRecv(s), id, NextRecv(s).owner[id])
  {
    var t := NextRecv(s);
    if t != s {
      if s.owner[id].Queued? { QueuedIsInQueue(s, id, s.owner[id].n); }
      if id != s.c.shm.queue[0].bufferId { PlaceStays(s, t, id, s.owner[id]); }
    }
  }

  lemma RecvKeepsPlaces(s: State)
    requires ShmOk(s.c.shm) && InOrder(s) && PlacesOk(s)
    ensures PlacesOk(NextRecv(s))
  {
    var t := NextRecv(s);
    forall id | id in t.owner
      ensures PlaceOk(t, id, t.owner[id])
    {
      RecvKeepsPlace(s, id);
    }
    if s.c.shm.queue != [] {
      forall i | 0 <= i < |t.c.shm.queue|
        ensures t.c.shm.queue[i].bufferId in t.owner
        ensures t.owner[t.c.shm.queue[i].bufferId] == Queued(t.c.shm.readyTail + i + 1)
      {
        assert t.c.shm.queue[i] == s.c.shm.queue[i + 1];
      }
    }
  }

  /** The meter and the leases, when a step changes neither the heap nor which buffers are leased. */
  lemma SameHeapKeepsAccounted(s: State, t: State)
    requires Accounted(s) && Sound(t) && PlacesOk(t)
    requires t.c.heap == s.c.heap && t.c.shm.usedBytes == s.c.shm.usedBytes
    requires t.positive == s.positive && t.served == s.served
    requires t.c.shm.arenaSize == s.c.shm.arenaSize
    requires forall id :: id in s.owner && s.owner[id].Leased? ==> id in t.owner && t.owner[id].Leased?
    ensures Accounted(t)
  {
    if NothingLeased(t) { assert NothingLeased(s); }
  }

  lemma RecvKeepsAccounted(s: State)
    requires Accounted(s)
    ensures Accounted(NextRecv(s))
  {
    RecvKeepsSound(s);
    RecvKeepsPlaces(s);
    if s.c.shm.queue != [] { assert s.owner[s.c.shm.queue[0].bufferId].Queued?; }
    SameHeapKeepsAccounted(s, NextRecv(s));
  }

  /** The fate and the recycle entry of the frame at each queue position. */
  lemma LatestAt(s: State, i: nat)
    requires LatestOutcome(s.c.shm).Received? && i < |s.c.shm.queue| && |s.fates| == s.c.shm.readyTail
    ensures var t := NextRecvLatest(s);
            i <= Chosen(s.c.shm) ==>
              |t.fates| > |s.fates| + i
              && t.fates[|s.fates| + i] == (if i < Recyclable(s.c.shm) then Recycled
                                            else if i < Chosen(s.c.shm) then Skipped else Delivered)
    ensures var t := NextRecvLatest(s);
            i < Recyclable(s.c.shm) ==>
              |t.c.shm.recycled| > |s.c.shm.recycled| + i
              && t.c.shm.recycled[|s.c.shm.recycled| + i].bufferId == s.c.shm.queue[i].bufferId
  {
    if i <= Chosen(s.c.shm) {
      assert NextRecvLatest(s).fates[|s.fates| + i] == LatestFates(s.c.shm)[i];
    }
    if i < Recyclable(s.c.shm) {
      assert NextRecvLatest(s).c.shm.recycled[|s.c.shm.recycled| + i] == DescsOf(s.c.shm, Recyclable(s.c.shm))[i];
    }
  }

  lemma LatestMovesQueued(s: State, id: nat, n: nat)
    requires LatestOutcome(s.c.shm).Received? && |s.fates| == s.c.shm.readyTail
    requires HoldsFrame(s, id, n) && s.c.shm.readyTail < n <= s.c.shm.ReadyHead()
    requires s.c.shm.queue[n - s.c.shm.readyTail - 1].bufferId == id
    ensures PlaceOk(NextRecvLatest(s), id, PlaceAfterLatest(s.c.shm, n))
  {
    LatestAt(s, n - s.c.shm.readyTail - 1);
    assert HoldsFrame(NextRecvLatest(s), id, n);
  }

  lemma LatestKeepsPlace(s: State, id: nat)
    requires InOrder(s) && id in s.owner && PlaceOk(s, id, s.owner[id])
    requires LatestOutcome(s.c.shm).Received? && |s.c.shm.recycled| <= s.c.shm.recCap
    ensures PlaceOk(NextRecvLatest(s), id, NextRecvLatest(s).owner[id])
  {
    if s.owner[id].Queued? {
      QueuedIsInQueue(s, id, s.owner[id].n);
      LatestMovesQueued(s, id, s.owner[id].n);
    } else {
      PlaceStays(s, NextRecvLatest(s), id, s.owner[id]);
    }
  }

  lemma LatestKeepsRings(s: State)
    requires QueuePlaced(s.owner, s.c.shm.readyTail, s.c.shm.queue)
    requires RecyclePlaced(s.owner, s.c.shm.recTail, s.c.shm.recycled)
    requires LatestOutcome(s.c.shm).Received?
    ensures var t := NextRecvLatest(s);
            && QueuePlaced(t.owner, t.c.shm.readyTail, t.c.shm.queue)
            && RecyclePlaced(t.owner, t.c.shm.recTail, t.c.shm.recycled)
  {
    var shm, t := s.c.shm, NextRecvLatest(s);
    var d, c := Recyclable(shm), Chosen(shm);
    forall i | 0 <= i < |t.c.shm.queue|
      ensures t.c.shm.queue[i].bufferId in t.owner
      ensures t.owner[t.c.shm.queue[i].bufferId] == Queued(t.c.shm.readyTail + i + 1)
    {
      assert t.c.shm.queue[i] == shm.queue[c + 1 + i];
    }
    forall i | 0 <= i < |t.c.shm.recycled|
      ensures t.c.shm.recycled[i].bufferId in t.owner
      ensures t.owner[t.c.shm.recycled[i].bufferId].InRecycle?
      ensures t.owner[t.c.shm.recycled[i].bufferId].slot == t.c.shm.recTail + i + 1
    {
      if i >= |shm.recycled| {
        var j := i - |shm.recycled|;
        assert t.c.shm.recycled[i] == DescsOf(shm, d)[j];
        assert s.owner[shm.queue[j].bufferId] == Queued(shm.readyTail + j + 1);
      }
    }
  }

  lemma LatestKeepsPlaces(s: State)
    requires InOrder(s) && PlacesOk(s) && ShmOk(s.c.shm)
    ensures PlacesOk(NextRecvLatest(s))
  {
    LatestKeepsShm(s.c.shm);
    if s.c.shm.queue != [] {
      LatestKeepsRings(s);
      forall id | id in NextRecvLatest(s).owner
        ensures PlaceOk(NextRecvLatest(s), id, NextRecvLatest(s).owner[id])
      {
        LatestKeepsPlace(s, id);
      }
    }
  }

  lemma RecvLatestKeepsAccounted(s: State)
    requires Accounted(s)
    ensures Accounted(NextRecvLatest(s))
  {
    RecvLatestKeepsSound(s);
    LatestKeepsPlaces(s);
    SameHeapKeepsAccounted(s, NextRecvLatest(s));
  }

  lemma RecycleKeepsPlace(s: State, desc: ReadyDesc, id: nat)
    requires id in s.owner && PlaceOk(s, id, s.owner[id]) && IsHeld(s, desc)
    ensures var t := NextRecycle(s, desc);
            PlaceOk(t, id, t.owner[id])
  {
    if id != desc.bufferId { PlaceStays(s, NextRecycle(s, desc), id, s.owner[id]); }
  }

  lemma RecycleKeepsPlaces(s: State, desc: ReadyDesc)
    requires PlacesOk(s) && IsHeld(s, desc)
    ensures PlacesOk(NextRecycle(s, desc))
  {
    forall id | id in NextRecycle(s, desc).owner
      ensures PlaceOk(NextRecycle(s, desc), id, NextRecycle(s, desc).owner[id])
    {
      RecycleKeepsPlace(s, desc, id);
    }
  }

  lemma RecycleKeepsAccounted(s: State, desc: ReadyDesc)
    requires Accounted(s) && IsHeld(s, desc)
    ensures Accounted(NextRecycle(s, desc))
  {
    RecycleKeepsSound(s, desc);
    RecycleKeepsPlaces(s, desc);
    SameHeapKeepsAccounted(s, NextRecycle(s, desc));
  }

  lemma AttachKeepsPlace(s: State, id: nat)
    requires InOrder(s) && id in s.owner && PlaceOk(s, id, s.owner[id])
    ensures PlaceOk(NextAttach(s), id, NextAttach(s).owner[id])
  {
    var t := NextAttach(s);
    if s.owner[id].Queued? {
      QueuedIsInQueue(s, id, s.owner[id].n);
      var i := s.owner[id].n - s.c.shm.readyTail - 1;
      assert t.fates[s.c.shm.readyTail + i] == Repeat(Skipped, |s.c.shm.queue|)[i];
    } else {
      PlaceStays(s, t, id, s.owner[id]);
    }
  }

  lemma AttachKeepsAccounted(s: State)
    requires Accounted(s)
    ensures Accounted(NextAttach(s))
  {
    AttachKeepsSound(s);
    var t := NextAttach(s);
    forall id | id in t.owner
      ensures PlaceOk(t, id, t.owner[id])
    {
      AttachKeepsPlace(s, id);
    }
    SameHeapKeepsAccounted(s, t);
  }

  lemma EmitKeepsPlaces(s: State, t: State, timeline: Timeline, beacon: Beacon)
    requires PlacesOk(s)
    requires t == s.(c := s.c.(shm := s.c.shm.(timeline := timeline), beacon := beacon))
    ensures PlacesOk(t)
  {
    forall id | id in t.owner
      ensures PlaceOk(t, id, t.owner[id])
    {
      PlaceStays(s, t, id, s.owner[id]);
    }
  }

  lemma EmitKeepsAccounted(s: State, ptsNs: Nanos, now: nat)
    requires Accounted(s)
    ensures Accounted(Next(s, EmitSnapshot(ptsNs, now)))
  {
    var t := Next(s, EmitSnapshot(ptsNs, now));
    EmitKeepsSound(s, ptsNs, now);
    EmitKeepsPlaces(s, t, t.c.shm.timeline, t.c.beacon);
    SameHeapKeepsAccounted(s, t);
  }

  lemma NextKeepsAccounted(s: State, e: Event)
    requires Accounted(s) && Owned(s, e)
    ensures Accounted(Next(s, e)) && Issued(s, e)
  {
    if e.PublishLease? || e.Write? { LeasesAreIssued(s, e.lease); }
    match e
    case AllocLease(size, align) => AllocLeaseKeepsAccounted(s, size, align);
    case FreeLease(lease) => FreeLeaseKeepsAccounted(s, lease);
    case Write(lease, at, bytes) => WriteKeepsAccounted(s, lease, at, bytes);
    case PublishLease(lease, ptsNs, due, now) => PublishLeaseKeepsAccounted(s, lease, ptsNs, due, now);
    case EmitSnapshot(ptsNs, now) => EmitKeepsAccounted(s, ptsNs, now);
    case DrainRecycles => DrainKeepsAccounted(s);
    case Reset => ResetKeepsAccounted(s);
    case Recv => RecvKeepsAccounted(s);
    case RecvLatest => RecvLatestKeepsAccounted(s);
    case Recycle(desc) => RecycleKeepsAccounted(s, desc);
    case Attach => AttachKeepsAccounted(s);
  }
}
