/** What the operations do, field by field: descriptors, counters and timestamps as the caller sees them,
    and what repeated receives deliver. */
module Operations {
  import opened Basics
  import opened Heaps
  import opened HeapLemmas
  import opened Timelines
  import opened Channels
  import opened System
  import opened SoundRuns
  import opened Guarantees

  // ---------------------------------------------------------------- the region

  /** Header, ready ring, recycle ring and arena lie behind one another without overlap, each aligned,
      and the arena begins on the first page boundary behind the rings. */
  lemma RegionsAreDisjoint(readyCap: nat, recCap: nat)
    ensures 4096 + 64 * readyCap <= RecycleOffset(readyCap) < 4096 + 64 * readyCap + 64
    ensures RecycleOffset(readyCap) % 64 == 0 && ArenaOffset(readyCap, recCap) % 4096 == 0
    ensures RecycleOffset(readyCap) + 64 * recCap <= ArenaOffset(readyCap, recCap)
    ensures ArenaOffset(readyCap, recCap) < RecycleOffset(readyCap) + 64 * recCap + 4096
  {
  }

  /** A reset region is like a fresh one, but for the bytes in the arena and the timeline: there the
      generation is the next, and the snapshot no longer valid but otherwise as it was. */
  lemma ResetLeavesAFreshRegion(c: Channel)
    ensures var t := Channels.Reset(c);
            var shm, before := t.shm, c.shm;
            && shm.arenaSize == before.arenaSize && shm.readyCap == before.readyCap && shm.recCap == before.recCap
            && shm.readyTail == 0 && shm.queue == [] && shm.recTail == 0 && shm.recycled == []
            && shm.usedBytes == 0 && shm.failures == 0 && shm.arena == before.arena
            && t.heap.free == [Range(0, before.arenaSize)] && t.heap.used == map[] && t.heap.nextId == 1
            && shm.timeline.gen == before.timeline.gen + 1 && !shm.timeline.valid
            && shm.timeline.seqNo == before.timeline.seqNo && shm.timeline.snapshotGen == before.timeline.snapshotGen
            && t.beacon == c.beacon
  {
  }

  /** `as i64`: the low half reads back as it is, the high half as negative. */
  lemma TimestampsReadBack(x: nat)
    requires x < U64_LIMIT
    ensures AsI64(x) == if x < I64_LIMIT then x else x - U64_LIMIT
  {
  }

  // ---------------------------------------------------------------- writer

  /** The descriptor tells where the block is and carries the caller's timestamp twice, no duration and
      no flags. */
  predicate Describes(desc: ReadyDesc, lease: Lease, ptsNs: Nanos) {
    && desc.offset == lease.offset && desc.length == lease.len && desc.bufferId == lease.bufferId
    && desc.ptsNs == ptsNs && desc.dtsNs == ptsNs && desc.durationNs == 0 && desc.flags == 0
  }

  lemma LeaseDescDescribes(c: Channel, lease: Lease, ptsNs: Nanos)
    ensures Describes(LeaseDesc(c, lease, ptsNs), lease, ptsNs)
    ensures LeaseDesc(c, lease, ptsNs).seqNo == c.shm.readyTail + |c.shm.queue| + 1
  {
  }

  /** A publish into a ring with room appends one descriptor and nothing else to the rings, meters the
      used blocks, and leaves heap and arena alone. */
  lemma PublishAppendsOne(c: Channel, lease: Lease, ptsNs: Nanos, due: nat, now: nat)
    requires |c.shm.queue| < c.shm.readyCap
    ensures var shm, t := c.shm, Channels.PublishLease(c, lease, ptsNs, due, now).shm;
            && |t.queue| == |shm.queue| + 1 && t.queue[..|shm.queue|] == shm.queue
            && Describes(t.queue[|shm.queue|], lease, ptsNs)
            && t.queue[|shm.queue|].seqNo == shm.readyTail + |shm.queue| + 1
            && t.readyTail == shm.readyTail && t.recTail == shm.recTail && t.recycled == shm.recycled
            && t.arena == shm.arena && t.failures == shm.failures && t.usedBytes == UsedBytes(c.heap.used)
    ensures Channels.PublishLease(c, lease, ptsNs, due, now).heap == c.heap
  {
    LeaseDescDescribes(c, lease, ptsNs);
  }

  /** A valid snapshot of generation `gen` with these readings, as the consumer would read it. */
  predicate Announces(t: Timeline, gen: nat, now: nat, ptsNs: Nanos, readyHead: nat) {
    var snap := Read(t);
    && snap.valid && snap.gen == gen && snap.snapshotGen == gen && snap.seqNo == t.seqNo
    && snap.sinkMonoNs == now && snap.readyHead == readyHead
    && snap.producerPtsNs == if ptsNs < 0 then 0 else ptsNs
  }

  lemma EmitAnnounces(c: Channel, ptsNs: Nanos, readyHead: nat, now: nat)
    ensures var t := Channels.EmitSnapshot(c, ptsNs, readyHead, now);
            && Announces(t.shm.timeline, c.shm.timeline.gen, now, ptsNs, readyHead)
            && t.shm.timeline.seqNo == c.shm.timeline.seqNo + 1
  {
    TimestampsReadBack(Max(ptsNs, 0));
  }

  /** The snapshot is renewed at a publish exactly when the generation is not the one last announced or
      the beacon period is over; renewed, it carries this frame's timestamp and number. */
  lemma PublishRenewsSnapshotIff(c: Channel, lease: Lease, ptsNs: Nanos, due: nat, now: nat)
    requires |c.shm.queue| < c.shm.readyCap
    ensures var b, t := c.beacon, Channels.PublishLease(c, lease, ptsNs, due, now);
            var before, after := c.shm.timeline, t.shm.timeline;
            && (after.seqNo == before.seqNo + 1
                <==> (before.gen != b.lastGen || due - b.lastEmitNs >= b.periodNs || b.periodNs == 0))
            && (after.seqNo != before.seqNo + 1 ==> after == before && t.beacon == b)
            && (after.seqNo == before.seqNo + 1 ==>
                  && Announces(after, before.gen, now, ptsNs, c.shm.readyTail + |c.shm.queue| + 1)
                  && t.beacon.lastGen == before.gen && t.beacon.lastEmitNs == now && t.beacon.periodNs == b.periodNs)
  {
    var shm := c.shm;
    EmitAnnounces(c, ptsNs, shm.readyTail + |shm.queue| + 1, now);
  }

  /** Freeing a lease releases that id and no other, and meters what is left. */
  lemma FreeReleasesOne(c: Channel, id: nat)
    ensures var t := Channels.FreeLease(c, id);
            && t.heap.used == c.heap.used - {id} && t.heap.nextId == c.heap.nextId
            && t.shm == c.shm.(usedBytes := UsedBytes(t.heap.used)) && t.beacon == c.beacon
  {
  }

  /** Draining takes everything off the recycle ring and releases exactly the ids named there. */
  lemma DrainTakesAll(c: Channel)
    ensures var t := Channels.DrainRecycles(c);
            && t.shm.recycled == [] && t.shm.recTail == c.shm.recTail + |c.shm.recycled|
            && t.shm.queue == c.shm.queue && t.shm.readyTail == c.shm.readyTail && t.shm.arena == c.shm.arena
            && (forall id :: id in t.heap.used <==>
                  id in c.heap.used && forall i :: 0 <= i < |c.shm.recycled| ==> c.shm.recycled[i].bufferId != id)
            && t.shm.usedBytes == UsedBytes(t.heap.used)
  {
    var recycled := c.shm.recycled;
    assert recycled[..|recycled|] == recycled;
    ReleaseAllUsed(c.heap, RecycledIds(recycled));
    forall id
      ensures id in RecycledIds(recycled) <==> exists i :: 0 <= i < |recycled| && recycled[i].bufferId == id
    {
      if i :| 0 <= i < |recycled| && recycled[i].bufferId == id { assert RecycledIds(recycled)[i] == id; }
    }
  }

  /** A request larger than the arena costs everything that was queued or out, and is counted. A smaller
      one that needs a reset is served at the start of the arena. */
  lemma RequestAfterReset(s: State, size: nat, align: nat)
    requires Sound(s) && MustReset(s.c, size, align)
    ensures var t, lease := AfterAllocLease(s.c, size, align), LeaseOf(s.c, size, align);
            && t.shm.queue == [] && t.shm.recycled == [] && t.shm.timeline.gen == s.c.shm.timeline.gen + 1
            && (size > s.c.shm.arenaSize ==> lease == None && t.shm.failures == 1 && t.heap.used == map[])
            && (size <= s.c.shm.arenaSize ==>
                  && lease == Some(Lease(1, 0, size)) && t.shm.failures == 0
                  && t.heap.used == map[1 := Range(0, size)])
  {
    AllocLeaseSucceedsIff(s, size, align);
    var h := Fresh(s.c.shm.arenaSize);
    assert AlignUp(0, Max(align, 1)) == 0;
    if size <= s.c.shm.arenaSize { FitsAt(h, size, align, 0); }
  }

  // ---------------------------------------------------------------- reader

  /** A receive yields nothing exactly when the queue is empty. Otherwise it yields the oldest frame and
      takes it, and nothing else, off the queue. */
  lemma RecvTakesTheOldest(shm: Shm)
    requires ShmOk(shm)
    ensures RecvOutcome(shm) == Nothing <==> |shm.queue| == 0
    ensures |shm.queue| > 0 ==>
              && RecvOutcome(shm).Received? && RecvOutcome(shm).desc == shm.queue[0] && RecvOutcome(shm).dropped == 0
              && AfterRecv(shm) == shm.(queue := shm.queue[1..], readyTail := shm.readyTail + 1)
    ensures |shm.queue| == 0 ==> AfterRecv(shm) == shm
  {
  }

  /** A return into a ring with room appends one entry with what the caller gave, and changes nothing
      else; into a full ring it changes nothing. */
  lemma RecycleAppendsOne(shm: Shm, id: nat, offset: nat, length: nat, status: nat)
    ensures var t := Channels.Recycle(shm, id, offset, length, status);
            && (|shm.recycled| >= shm.recCap ==> t == shm)
            && (|shm.recycled| < shm.recCap ==>
                  && |t.recycled| == |shm.recycled| + 1 && t.recycled[..|shm.recycled|] == shm.recycled
                  && var r := t.recycled[|shm.recycled|];
                     && r.bufferId == id && r.offset == offset && r.length == length && r.status == status
                     && r.seqNo == shm.recTail + |shm.recycled| + 1
                     && t == shm.(recycled := t.recycled))
  {
  }

  /** An attach takes every frame off the queue and nothing else, and opens a generation. */
  lemma AttachSkipsAll(shm: Shm)
    ensures var t := Channels.Attach(shm);
            && t.queue == [] && t.readyTail == shm.readyTail + |shm.queue|
            && t.timeline.gen == shm.timeline.gen + 1 && !t.timeline.valid
            && t == shm.(queue := [], readyTail := t.readyTail,
                         timeline := shm.timeline.(gen := t.timeline.gen, valid := false))
  {
  }

  lemma RecvDelivers(s: State)
    requires Sound(s) && s.c.shm.queue != []
    ensures var t := Next(s, Recv);
            && Sound(t) && t.received == s.received + [s.c.shm.queue[0]] && t.c.shm.queue == s.c.shm.queue[1..]
  {
    RecvTakesTheOldest(s.c.shm);
    RecvKeepsSound(s);
  }

  function Recvs(n: nat): (es: seq<Event>)
    ensures |es| == n && forall i :: 0 <= i < n ==> es[i] == Recv
  {
    seq(n, _ => Recv)
  }

  lemma RecvFirst(s: State, n: nat)
    ensures Run(s, Recvs(n + 1)) == Run(Next(s, Recv), Recvs(n))
  {
    assert Recvs(n + 1)[1..] == Recvs(n);
  }

  /** From `s` to `t` exactly what was queued has been received, in order. */
  ghost predicate AllDelivered(s: State, t: State) {
    Sound(t) && t.received == s.received + s.c.shm.queue && t.c.shm.queue == []
  }

  lemma DeliveredAfterFirst(s: State, u: State, t: State)
    requires s.c.shm.queue != [] && u.received == s.received + [s.c.shm.queue[0]]
    requires u.c.shm.queue == s.c.shm.queue[1..] && AllDelivered(u, t)
    ensures AllDelivered(s, t)
  {
    assert s.c.shm.queue == [s.c.shm.queue[0]] + s.c.shm.queue[1..];
  }

  /** As many receives as frames are queued deliver exactly those frames, in order, and leave none. */
  lemma {:induction false} ReceivingEmptiesTheQueue(s: State, n: nat)
    requires Sound(s) && n == |s.c.shm.queue|
    ensures AllDelivered(s, Run(s, Recvs(n)))
    decreases n
  {
    if n == 0 {
      assert Recvs(0) == [];
    } else {
      RecvDelivers(s);
      RecvFirst(s, n - 1);
      ReceivingEmptiesTheQueue(Next(s, Recv), n - 1);
      DeliveredAfterFirst(s, Next(s, Recv), Run(s, Recvs(n)));
    }
  }

  lemma LatestDelivers(s: State)
    requires Sound(s) && s.c.shm.queue != []
    ensures var queue, t := s.c.shm.queue, Next(s, RecvLatest);
            && Sound(t)
            && (if |queue| == 1 then t.received == s.received + queue && t.c.shm.queue == []
                else t.received == s.received + [queue[|queue| - 2]] && t.c.shm.queue == [queue[|queue| - 1]])
  {
    RecvLatestKeepsSound(s);
    LatestPolicy(s.c.shm);
  }

  /** Two receives of the live policy deliver the two newest frames, in order, and leave none. */
  lemma TwoLatestReceivesEmptyTheQueue(s: State)
    requires Sound(s) && |s.c.shm.queue| >= 2
    ensures var queue := s.c.shm.queue;
            var t := Next(Next(s, RecvLatest), RecvLatest);
            && Sound(t) && t.c.shm.queue == []
            && t.received == (s.received + [queue[|queue| - 2]]) + [queue[|queue| - 1]]
  {
    LatestDelivers(s);
    LatestDelivers(Next(s, RecvLatest));
  }
}
