/** What the transport promises its users, over whole runs. */
module Guarantees {
  import opened Basics
  import opened Heaps
  import opened HeapLemmas
  import opened Timelines
  import opened Channels
  import opened ChannelLemmas
  import opened System
  import opened SoundRuns
  import opened TidyRuns
  import opened OwnedRuns

  // ---------------------------------------------------------------- runs

  lemma {:induction false} RunKeepsSound(s: State, es: seq<Event>)
    requires Sound(s) && AllIssued(s, es)
    ensures Sound(Run(s, es))
    decreases |es|
  {
    if es != [] {
      NextKeepsSound(s, es[0]);
      RunKeepsSound(Next(s, es[0]), es[1..]);
    }
  }

  ghost predicate SameSizes(s: State, t: State) {
    t.c.shm.readyCap == s.c.shm.readyCap && t.c.shm.recCap == s.c.shm.recCap && t.c.shm.arenaSize == s.c.shm.arenaSize
  }

  lemma StepKeepsSizes(s: State, e: Event)
    ensures SameSizes(s, Next(s, e))
  {
  }

  lemma {:induction false} RunKeepsSizes(s: State, es: seq<Event>)
    ensures SameSizes(s, Run(s, es))
    decreases |es|
  {
    if es != [] {
      StepKeepsSizes(s, es[0]);
      RunKeepsSizes(Next(s, es[0]), es[1..]);
    }
  }

  lemma {:induction false} DeliveriesWereDelivered(history: seq<Publication>, fates: seq<Fate>)
    requires |fates| <= |history|
    requires forall i :: 0 <= i < |history| ==> history[i].desc.seqNo == i + 1
    ensures forall d :: d in Deliveries(history, fates) ==>
              1 <= d.seqNo <= |fates| && fates[d.seqNo - 1] == Delivered && history[d.seqNo - 1].desc == d
  {
    if fates != [] { DeliveriesWereDelivered(history, fates[..|fates| - 1]); }
  }

  /** From a fresh region, through resets, attaches and stale returns alike: both rings stay within
      their capacity, everything queued or received lies in the arena, so no receive is ever refused
      for its bounds, and the counter of allocation failures never passes 1. */
  lemma EveryRunIsSound(arenaSize: nat, readyCap: nat, recCap: nat, periodNs: nat, es: seq<Event>)
    requires arenaSize > 0 && readyCap > 0 && recCap > 0
    requires AllIssued(Start(arenaSize, readyCap, recCap, periodNs), es)
    ensures var s := Run(Start(arenaSize, readyCap, recCap, periodNs), es);
            && Sound(s)
            && |s.c.shm.queue| <= readyCap && |s.c.shm.recycled| <= recCap && s.c.shm.failures <= 1
            && !RecvOutcome(s.c.shm).OutOfBounds? && !LatestOutcome(s.c.shm).OutOfBounds?
            && (forall d :: d in s.received ==> InArena(s.c.shm, d.offset, d.length))
  {
    var start := Start(arenaSize, readyCap, recCap, periodNs);
    StartIsSound(arenaSize, readyCap, recCap, periodNs);
    RunKeepsSound(start, es);
    RunKeepsSizes(start, es);
    var s := Run(start, es);
    RecvKeepsSound(s);
    RecvLatestKeepsSound(s);
    DeliveriesWereDelivered(s.history, s.fates);
  }

  lemma {:induction false} RunKeepsTidy(s: State, es: seq<Event>)
    requires Sound(s) && Tidy(s) && AllOrderly(s, es)
    ensures Sound(Run(s, es)) && Tidy(Run(s, es))
    decreases |es|
  {
    if es != [] {
      NextKeepsSound(s, es[0]);
      NextKeepsTidy(s, es[0]);
      RunKeepsTidy(Next(s, es[0]), es[1..]);
    }
  }

  /** As long as no allocation reuses a live id, free and used ranges tile the arena whatever is
      returned or freed, stale and invented handles included; and unless a block of size zero was
      handed out since the last reset, the free list is canonical. */
  lemma EveryOrderlyRunIsTidy(arenaSize: nat, readyCap: nat, recCap: nat, periodNs: nat, es: seq<Event>)
    requires arenaSize > 0 && readyCap > 0 && recCap > 0
    requires AllOrderly(Start(arenaSize, readyCap, recCap, periodNs), es)
    ensures var s := Run(Start(arenaSize, readyCap, recCap, periodNs), es);
            && Sound(s) && Tiled(s.c.heap, s.c.shm.arenaSize)
            && (s.positive ==> Canonical(s.c.heap.free))
            && (s.served < U32_LIMIT ==> IdsUpTo(s.c.heap, s.served))
  {
    StartIsSound(arenaSize, readyCap, recCap, periodNs);
    FreshIsTidy(arenaSize);
    RunKeepsTidy(Start(arenaSize, readyCap, recCap, periodNs), es);
  }

  lemma {:induction false} RunKeepsAccounted(s: State, es: seq<Event>)
    requires Accounted(s) && AllOwned(s, es)
    ensures Accounted(Run(s, es))
    decreases |es|
  {
    if es != [] {
      NextKeepsAccounted(s, es[0]);
      RunKeepsAccounted(Next(s, es[0]), es[1..]);
    }
  }

  /** In every owned run each live buffer is in exactly one place. */
  lemma EveryOwnedRunIsAccounted(arenaSize: nat, readyCap: nat, recCap: nat, periodNs: nat, es: seq<Event>)
    requires arenaSize > 0 && readyCap > 0 && recCap > 0
    requires AllOwned(Start(arenaSize, readyCap, recCap, periodNs), es)
    ensures Accounted(Run(Start(arenaSize, readyCap, recCap, periodNs), es))
  {
    StartIsAccounted(arenaSize, readyCap, recCap, periodNs);
    RunKeepsAccounted(Start(arenaSize, readyCap, recCap, periodNs), es);
  }

  ghost predicate Resets(s: State, e: Event) {
    e.Reset? || (e.AllocLease? && MustReset(s.c, e.size, e.align))
  }

  ghost predicate NoReset(s: State, es: seq<Event>)
    decreases |es|
  {
    es != [] ==> !Resets(s, es[0]) && NoReset(Next(s, es[0]), es[1..])
  }

  ghost predicate Extends(s: State, t: State) {
    s.history <= t.history && s.fates <= t.fates && s.received <= t.received
  }

  lemma StepExtends(s: State, e: Event)
    requires !Resets(s, e)
    ensures Extends(s, Next(s, e))
  {
  }

  lemma {:induction false} RunExtends(s: State, es: seq<Event>)
    requires NoReset(s, es)
    ensures Extends(s, Run(s, es))
    decreases |es|
  {
    if es != [] {
      StepExtends(s, es[0]);
      RunExtends(Next(s, es[0]), es[1..]);
    }
  }

  /** Ids are fresh by themselves for the first 2^32 - 1 allocations after a reset. */
  lemma FewAllocationsAreFresh(s: State, size: nat, align: nat)
    requires Tidy(s) && s.c.shm.arenaSize > 0 && s.served < U32_LIMIT - 1
    ensures IdIsFresh(s, size, align)
  {
    WithRoomKeepsTidy(s, size, align);
    assert IdsUpTo(WithRoom(s, size, align).c.heap, WithRoom(s, size, align).served);
  }

  // ---------------------------------------------------------------- ownership

  lemma ReturnsDiffer(s: State, i: nat)
    requires RecyclePlaced(s.owner, s.c.shm.recTail, s.c.shm.recycled) && i < |s.c.shm.recycled|
    ensures s.c.shm.recycled[i].bufferId !in RecycledIds(s.c.shm.recycled[..i])
  {
    forall j | 0 <= j < i
      ensures s.c.shm.recycled[j].bufferId != s.c.shm.recycled[i].bufferId
    {
      assert s.owner[s.c.shm.recycled[j].bufferId].slot == s.c.shm.recTail + j + 1;
    }
  }

  lemma QueuedDiffer(s: State, i: nat)
    requires QueuePlaced(s.owner, s.c.shm.readyTail, s.c.shm.queue) && i < |s.c.shm.queue|
    ensures s.c.shm.queue[i].bufferId !in QueueIds(s.c.shm.queue[..i])
  {
    forall j | 0 <= j < i
      ensures s.c.shm.queue[j].bufferId != s.c.shm.queue[i].bufferId
    {
      assert s.owner[s.c.shm.queue[j].bufferId] == Queued(s.c.shm.readyTail + j + 1);
    }
  }

  /** Every free made while draining the recycle ring, and every free made while dropping queued
      frames, finds its block live: nothing is freed twice and nothing unknown is freed. */
  lemma EveryReleaseFindsItsBlock(s: State, i: nat)
    requires Accounted(s)
    ensures i < |s.c.shm.recycled| ==>
              s.c.shm.recycled[i].bufferId in ReleaseAll(s.c.heap, RecycledIds(s.c.shm.recycled[..i])).used
    ensures i < |s.c.shm.queue| ==>
              s.c.shm.queue[i].bufferId in ReleaseAll(s.c.heap, QueueIds(s.c.shm.queue[..i])).used
  {
    if i < |s.c.shm.recycled| {
      ReturnsDiffer(s, i);
      ReleaseAllUsed(s.c.heap, RecycledIds(s.c.shm.recycled[..i]));
    }
    if i < |s.c.shm.queue| {
      QueuedDiffer(s, i);
      ReleaseAllUsed(s.c.heap, QueueIds(s.c.shm.queue[..i]));
    }
  }

  ghost predicate FrameHasFate(s: State, id: nat, fate: Fate)
    requires id in s.owner && !s.owner[id].Leased?
  {
    var n := s.owner[id].n;
    1 <= n <= |s.fates| && n <= |s.history| && s.history[n - 1].desc.bufferId == id && s.fates[n - 1] == fate
  }

  lemma QueueNamesQueued(s: State, id: nat)
    requires InOrder(s) && PlacesOk(s)
    ensures id in QueueIds(s.c.shm.queue) <==> id in s.owner && s.owner[id].Queued?
  {
    var queue := s.c.shm.queue;
    if id in s.owner {
      QueuedIsListed(s, id, s.owner[id], |queue|);
      assert queue[..|queue|] == queue;
      assert PlaceOk(s, id, s.owner[id]);
    }
    if id in QueueIds(queue) {
      var i :| 0 <= i < |queue| && QueueIds(queue)[i] == id;
      assert queue[i].bufferId == id;
    }
  }

  lemma RecycleNamesReturned(s: State, id: nat)
    requires PlacesOk(s)
    ensures id in RecycledIds(s.c.shm.recycled) <==> id in s.owner && s.owner[id].InRecycle?
  {
    var recycled := s.c.shm.recycled;
    if id in s.owner {
      RecycledIsListed(s, id, s.owner[id]);
      assert recycled[..|recycled|] == recycled;
    }
    if id in RecycledIds(recycled) {
      var i :| 0 <= i < |recycled| && RecycledIds(recycled)[i] == id;
      assert recycled[i].bufferId == id;
    }
  }

  /** The queue and the recycle ring name exactly the ids placed there, and the used map has exactly
      one id for each of their entries, each held frame, each lease and each stranded frame. */
  lemma NoBlockIsLost(s: State, id: nat)
    requires Accounted(s)
    ensures id in s.c.heap.used <==> id in s.owner
    ensures id in QueueIds(s.c.shm.queue) <==> id in s.owner && s.owner[id].Queued?
    ensures id in RecycledIds(s.c.shm.recycled) <==> id in s.owner && s.owner[id].InRecycle?
    ensures id in s.owner && s.owner[id].Held? ==> FrameHasFate(s, id, Delivered)
    ensures id in s.owner && s.owner[id].Stranded? ==> FrameHasFate(s, id, Skipped)
    ensures id in s.owner && s.owner[id].InRecycle? ==> FrameHasFate(s, id, Delivered) || FrameHasFate(s, id, Recycled)
  {
    QueueNamesQueued(s, id);
    RecycleNamesReturned(s, id);
    if id in s.owner { assert PlaceOk(s, id, s.owner[id]); }
  }

  // ---------------------------------------------------------------- queue history

  lemma {:induction false} DeliveredIsReceived(history: seq<Publication>, fates: seq<Fate>, i: nat)
    requires i < |fates| <= |history| && fates[i] == Delivered
    ensures history[i].desc in Deliveries(history, fates)
  {
    if i < |fates| - 1 { DeliveredIsReceived(history, fates[..|fates| - 1], i); }
  }

  ghost predicate Increasing(r: seq<ReadyDesc>) {
    forall a, b :: 0 <= a < b < |r| ==> r[a].seqNo < r[b].seqNo
  }

  lemma {:induction false} DeliveriesInOrder(history: seq<Publication>, fates: seq<Fate>)
    requires |fates| <= |history|
    requires forall i :: 0 <= i < |history| ==> history[i].desc.seqNo == i + 1
    ensures Increasing(Deliveries(history, fates))
  {
    if fates != [] {
      var k := |fates| - 1;
      var before, r := Deliveries(history, fates[..k]), Deliveries(history, fates);
      DeliveriesInOrder(history, fates[..k]);
      DeliveriesWereDelivered(history, fates[..k]);
      assert r == before + if fates[k] == Delivered then [history[k].desc] else [];
      assert forall a :: 0 <= a < |before| ==> before[a] in before;
    }
  }

  lemma NothingBetween(r: seq<ReadyDesc>, a: nat, d: ReadyDesc)
    requires Increasing(r)
    requires a + 1 < |r| && r[a].seqNo < d.seqNo < r[a + 1].seqNo
    ensures d !in r
  {
    forall b | 0 <= b < |r|
      ensures r[b] != d
    {
      assert b < a ==> r[b].seqNo < r[a].seqNo;
      assert a + 1 < b ==> r[a + 1].seqNo < r[b].seqNo;
    }
  }

  lemma Gaps(history: seq<Publication>, fates: seq<Fate>, r: seq<ReadyDesc>, a: nat)
    requires |fates| <= |history| && forall i :: 0 <= i < |history| ==> history[i].desc.seqNo == i + 1
    requires r == Deliveries(history, fates) && a + 1 < |r|
    ensures 1 <= r[a].seqNo < r[a + 1].seqNo <= |fates|
    ensures fates[r[a].seqNo - 1] == Delivered == fates[r[a + 1].seqNo - 1]
    ensures forall i :: r[a].seqNo <= i < r[a + 1].seqNo - 1 ==> fates[i] != Delivered
  {
    DeliveriesInOrder(history, fates);
    DeliveriesWereDelivered(history, fates);
    assert r[a] in r && r[a + 1] in r;
    forall i | r[a].seqNo <= i < r[a + 1].seqNo - 1
      ensures fates[i] != Delivered
    {
      NothingBetween(r, a, history[i].desc);
      if fates[i] == Delivered { DeliveredIsReceived(history, fates, i); }
    }
  }

  /** Received sequence numbers strictly increase, and what is missing between two consecutive ones
      is exactly what was dropped, recycled unread or skipped. */
  lemma GapsAreFramesNotDelivered(s: State, a: nat)
    requires Sound(s) && a + 1 < |s.received|
    ensures 1 <= s.received[a].seqNo < s.received[a + 1].seqNo <= |s.fates|
    ensures s.fates[s.received[a].seqNo - 1] == Delivered == s.fates[s.received[a + 1].seqNo - 1]
    ensures forall i :: s.received[a].seqNo <= i < s.received[a + 1].seqNo - 1 ==> s.fates[i] != Delivered
  {
    Gaps(s.history, s.fates, s.received, a);
  }

  /** What was published is what has a fate, in order, followed by what is queued. */
  lemma HistoryIsFatesThenQueue(s: State, i: nat)
    requires Sound(s) && i < |s.history|
    ensures s.history[i].desc.seqNo == i + 1
    ensures if i < |s.fates| then
              (s.fates[i] == Delivered <==> s.history[i].desc in s.received)
            else
              s.history[i].desc == s.c.shm.queue[i - |s.fates|] && s.history[i].gen == s.c.shm.timeline.gen
  {
    DeliveriesWereDelivered(s.history, s.fates);
    if i < |s.fates| && s.fates[i] == Delivered { DeliveredIsReceived(s.history, s.fates, i); }
    if i >= |s.fates| {
      assert s.history[s.c.shm.readyTail + (i - |s.fates|)].desc == s.c.shm.queue[i - |s.fates|];
    }
  }

  lemma FateIsKnown(history: seq<Publication>, fates: seq<Fate>, d: ReadyDesc)
    requires |fates| <= |history| && d in Deliveries(history, fates)
    requires forall i :: 0 <= i < |history| ==> history[i].desc.seqNo == i + 1
    ensures 1 <= d.seqNo <= |fates| && fates[d.seqNo - 1] == Delivered && history[d.seqNo - 1].desc == d
  {
    DeliveriesWereDelivered(history, fates);
  }

  lemma NewlyDelivered(h: seq<Publication>, f: seq<Fate>, history: seq<Publication>, fates: seq<Fate>, d: ReadyDesc)
    requires |f| == |h| && h <= history && f <= fates && |fates| <= |history|
    requires forall i :: 0 <= i < |history| ==> history[i].desc.seqNo == i + 1
    requires d in Deliveries(history, fates) && d !in Deliveries(h, f)
    ensures d.seqNo > |h|
  {
    FateIsKnown(history, fates, d);
    if d.seqNo <= |h| { DeliveredIsReceived(h, f, d.seqNo - 1); }
  }

  lemma NotRepeated(before: seq<ReadyDesc>, r: seq<ReadyDesc>, k: nat)
    requires Increasing(r) && before <= r && |before| <= k < |r|
    ensures r[k] !in before
  {
    forall b | 0 <= b < |before|
      ensures before[b] != r[k]
    {
      assert before[b] == r[b];
    }
  }

  /** When everything published has its fate, later deliveries are of later frames. */
  lemma LaterDeliveriesAreNew(h: seq<Publication>, f: seq<Fate>, history: seq<Publication>, fates: seq<Fate>)
    requires |f| == |h| && h <= history && f <= fates && |fates| <= |history|
    requires forall i :: 0 <= i < |history| ==> history[i].desc.seqNo == i + 1
    requires Deliveries(h, f) <= Deliveries(history, fates)
    ensures var r := Deliveries(history, fates);
            forall k :: |Deliveries(h, f)| <= k < |r| ==> r[k].seqNo > |h|
  {
    var r, before := Deliveries(history, fates), Deliveries(h, f);
    DeliveriesInOrder(history, fates);
    forall k | |before| <= k < |r|
      ensures r[k].seqNo > |h|
    {
      NotRepeated(before, r, k);
      NewlyDelivered(h, f, history, fates, r[k]);
    }
  }

  /** Attach purges the backlog: it opens a generation newer than everything published so far, the
      next publish announces it whatever the clock says, and no frame published before the attach is
      ever received after it. */
  lemma AttachPurgesTheBacklog(s: State, es: seq<Event>)
    requires Sound(s) && AllIssued(Next(s, Attach), es) && NoReset(Next(s, Attach), es)
    ensures var a := Next(s, Attach);
            && a.c.shm.queue == [] && !a.c.shm.timeline.valid
            && (forall now :: EmissionDue(a.c.shm.timeline, a.c.beacon, now))
            && (forall i :: 0 <= i < |s.history| ==> s.history[i].gen < a.c.shm.timeline.gen)
    ensures var t := Run(Next(s, Attach), es);
            forall k :: |s.received| <= k < |t.received| ==> t.received[k].seqNo > |s.history|
  {
    var a := Next(s, Attach);
    NextKeepsSound(s, Attach);
    RunKeepsSound(a, es);
    RunExtends(a, es);
    var t := Run(a, es);
    assert Sound(t) && a.history == s.history && a.received == s.received && |a.fates| == |s.history|;
    LaterDeliveriesAreNew(a.history, a.fates, t.history, t.fates);
  }

  // ---------------------------------------------------------------- making room

  /** The used ranges once the oldest `j` queued frames are gone. */
  function UsedWithout(c: Channel, j: nat): map<nat, Range>
    requires j <= |c.shm.queue|
  {
    c.heap.used - IdSet(QueueIds(c.shm.queue[..j]))
  }

  ghost predicate HasRoom(c: Channel, j: nat, size: nat, align: nat)
    requires j <= |c.shm.queue|
  {
    exists o :: Hole(UsedWithout(c, j), c.shm.arenaSize, size, align, o)
  }

  /** The heap tiles the arena without touching free entries, as it does in every orderly run that
      handed out only blocks with bytes. */
  ghost predicate WellGapped(c: Channel) {
    Tiled(c.heap, c.shm.arenaSize) && StrictGaps(c.heap.free)
  }

  lemma RoomIsFit(s: State, j: nat, size: nat, align: nat)
    requires WellGapped(s.c) && size > 0 && j <= |s.c.shm.queue|
    ensures HasRoom(s.c, j, size, align)
       <==> Fits(ReleaseAll(s.c.heap, QueueIds(s.c.shm.queue[..j])), size, align)
  {
    var h := ReleaseAll(s.c.heap, QueueIds(s.c.shm.queue[..j]));
    ReleaseAllUsed(s.c.heap, QueueIds(s.c.shm.queue[..j]));
    ReleaseAllKeeps(s.c.heap, s.c.shm.arenaSize, QueueIds(s.c.shm.queue[..j]));
    assert h.used == UsedWithout(s.c, j);
    AllocateLowest(h, s.c.shm.arenaSize, size, align);
    assert forall o :: Hole(h.used, s.c.shm.arenaSize, size, align, o)
                  <==> Hole(UsedWithout(s.c, j), s.c.shm.arenaSize, size, align, o);
  }

  lemma LeaseIsLowest(s: State, size: nat, align: nat)
    requires WellGapped(s.c) && size > 0 && !MustReset(s.c, size, align)
    ensures var k := DropsNeeded(s.c.heap, s.c.shm.queue, size, align);
            var used := UsedWithout(s.c, k);
            var t, lease := AfterAllocLease(s.c, size, align), LeaseOf(s.c, size, align);
            && t.shm.queue == s.c.shm.queue[k..] && t.shm.timeline == s.c.shm.timeline
            && lease.Some? && Hole(used, s.c.shm.arenaSize, size, align, lease.value.offset)
            && (forall o :: Hole(used, s.c.shm.arenaSize, size, align, o) ==> lease.value.offset <= o)
            && t.heap.used == used[lease.value.bufferId := Range(lease.value.offset, size)]
  {
    var k := DropsNeeded(s.c.heap, s.c.shm.queue, size, align);
    var ids := QueueIds(s.c.shm.queue[..k]);
    ReleaseAllUsed(s.c.heap, ids);
    ReleaseAllKeeps(s.c.heap, s.c.shm.arenaSize, ids);
    assert k == 0 ==> ids == [];
    DropsNeededIsLeast(s.c.heap, s.c.shm.queue, size, align, k);
    AllocateLowest(RoomMade(s.c, size, align).heap, s.c.shm.arenaSize, size, align);
  }

  /** `alloc_lease` removes the shortest prefix of the queue whose release opens an aligned hole that
      is large enough, takes the lowest such hole, and resets only if the whole queue would not do. */
  lemma AllocLeaseDropsTheLeast(s: State, size: nat, align: nat) returns (k: nat)
    requires WellGapped(s.c) && size > 0
    ensures k <= |s.c.shm.queue|
    ensures forall j :: 0 <= j < k ==> !HasRoom(s.c, j, size, align)
    ensures HasRoom(s.c, k, size, align) ==>
              var t := AfterAllocLease(s.c, size, align);
              var lease := LeaseOf(s.c, size, align);
              && t.shm.queue == s.c.shm.queue[k..] && t.shm.timeline == s.c.shm.timeline
              && lease.Some?
              && Hole(UsedWithout(s.c, k), s.c.shm.arenaSize, size, align, lease.value.offset)
              && (forall o :: Hole(UsedWithout(s.c, k), s.c.shm.arenaSize, size, align, o) ==> lease.value.offset <= o)
              && t.heap.used == UsedWithout(s.c, k)[lease.value.bufferId := Range(lease.value.offset, size)]
    ensures !HasRoom(s.c, k, size, align) ==>
              && k == |s.c.shm.queue|
              && AfterAllocLease(s.c, size, align).shm.timeline == NextGeneration(s.c.shm.timeline)
  {
    var queue := s.c.shm.queue;
    var needed := DropsNeeded(s.c.heap, queue, size, align);
    k := Min(needed, |queue|);
    forall j | 0 <= j <= k
      ensures HasRoom(s.c, j, size, align) <==> j == needed
    {
      RoomIsFit(s, j, size, align);
      DropsNeededIsLeast(s.c.heap, queue, size, align, j);
    }
    if needed <= |queue| { LeaseIsLowest(s, size, align); }
  }

  /** A request of any size succeeds exactly when it is no larger than the arena, whatever the state. */
  lemma AllocLeaseSucceedsIff(s: State, size: nat, align: nat)
    requires Sound(s)
    ensures LeaseOf(s.c, size, align).Some? <==> size <= s.c.shm.arenaSize
  {
    WithRoomKeepsSound(s, size, align);
    var h := RoomMade(s.c, size, align).heap;
    if Fits(h, size, align) {
      LeaseInArena(h, s.c.shm.arenaSize, size, align);
    } else {
      assert h == Fresh(s.c.shm.arenaSize);
      assert AlignUp(0, Max(align, 1)) == 0;
    }
  }

  /** A publish that got its block has to wait for the reader exactly when the ready ring was full and
      the arena had room without dropping anything. */
  lemma PublishWaitsIff(s: State, size: nat, align: nat)
    requires Sound(s) && LeaseOf(s.c, size, align).Some?
    ensures !CanPublish(AfterAllocLease(s.c, size, align))
       <==> |s.c.shm.queue| == s.c.shm.readyCap && Fits(s.c.heap, size, align)
  {
  }

  // ---------------------------------------------------------------- the live policy

  /** The live policy: with one frame queued it takes it; with more it takes the second-newest, leaves
      the newest, and returns the older ones in order, fewer than all only when the recycle ring has
      become full. */
  lemma LatestPolicy(shm: Shm)
    requires ShmOk(shm) && shm.queue != []
    ensures var n := |shm.queue|;
            var t := AfterLatest(shm);
            var out := LatestOutcome(shm);
            && out.Received?
            && out.desc == (if n == 1 then shm.queue[0] else shm.queue[n - 2])
            && t.queue == (if n == 1 then [] else [shm.queue[n - 1]])
            && t.ReadyHead() == shm.ReadyHead()
            && |t.recycled| == |shm.recycled| + out.dropped && shm.recycled <= t.recycled
            && (forall i :: 0 <= i < out.dropped ==>
                  var r := t.recycled[|shm.recycled| + i];
                  r.bufferId == shm.queue[i].bufferId && r.offset == shm.queue[i].offset
                  && r.length == shm.queue[i].length && r.status == 1)
            && (if n == 1 then out.dropped == 0 else out.dropped <= n - 2)
            && (n > 2 && out.dropped < n - 2 ==> |t.recycled| == shm.recCap)
            && t.arena == shm.arena && t.timeline == shm.timeline
  {
    LatestKeepsShm(shm);
    var d := Recyclable(shm);
    forall i | 0 <= i < d
      ensures AfterLatest(shm).recycled[|shm.recycled| + i] == DescsOf(shm, d)[i]
    {
    }
  }

  // ---------------------------------------------------------------- announcing the timeline

  /** A publish leaves a valid snapshot exactly when there was one or an emission was due. */
  lemma PublishAnnouncesIff(c: Channel, lease: Lease, ptsNs: Nanos, due: nat, now: nat)
    requires TimelineOk(c.shm.timeline, c.beacon) && CanPublish(c)
    ensures var t := Channels.PublishLease(c, lease, ptsNs, due, now);
            t.shm.timeline.valid
            <==> (c.shm.timeline.valid || c.beacon.lastGen < c.shm.timeline.gen || due >= c.beacon.periodNs)
  {
  }

  /** The clock of a publish that finds no valid snapshot although the generation is the one last
      announced reads at least one beacon period. Only publishes before the region's first snapshot
      are such. */
  ghost predicate Clocked(s: State, e: Event) {
    (e.PublishLease? && !s.c.shm.timeline.valid && s.c.beacon.lastGen == s.c.shm.timeline.gen) ==>
      e.due >= s.c.beacon.periodNs
  }

  ghost predicate AllClocked(s: State, es: seq<Event>)
    decreases |es|
  {
    es != [] ==> Clocked(s, es[0]) && AllClocked(Next(s, es[0]), es[1..])
  }

  lemma StepAnnounces(s: State, e: Event)
    requires TimelineOk(s.c.shm.timeline, s.c.beacon) && Clocked(s, e)
    requires s.c.shm.queue != [] ==> s.c.shm.timeline.valid
    ensures Next(s, e).c.shm.queue != [] ==> Next(s, e).c.shm.timeline.valid
  {
  }

  /** Across publishes, resets and attaches, a frame is never queued without a valid snapshot of its
      own generation. */
  lemma {:induction false} QueuedFramesAreAnnounced(s: State, es: seq<Event>)
    requires Sound(s) && AllIssued(s, es) && AllClocked(s, es)
    requires s.c.shm.queue != [] ==> s.c.shm.timeline.valid
    ensures var t := Run(s, es);
            t.c.shm.queue != [] ==>
              && t.c.shm.timeline.valid && t.c.shm.timeline.snapshotGen == t.c.shm.timeline.gen
              && forall i :: t.c.shm.readyTail <= i < |t.history| ==> t.history[i].gen == t.c.shm.timeline.gen
    decreases |es|
  {
    if es != [] {
      NextKeepsSound(s, es[0]);
      StepAnnounces(s, es[0]);
      QueuedFramesAreAnnounced(Next(s, es[0]), es[1..]);
    }
  }
}
