/** The transport as a value: the shared region seen through its rings, the writer's heap and beacon,
    and what each Writer and Reader operation turns them into. */
module Channels {
  import opened Basics
  import opened Heaps
  import opened Timelines

  newtype Byte = x: int | 0 <= x < 256

  datatype ReadyDesc = ReadyDesc(
    seqNo: nat, offset: nat, length: nat, bufferId: nat,
    ptsNs: Nanos, dtsNs: Nanos, durationNs: Nanos, flags: nat)

  datatype RecycleDesc = RecycleDesc(seqNo: nat, bufferId: nat, status: nat, offset: nat, length: nat)

  datatype Lease = Lease(bufferId: nat, offset: nat, len: nat)

  /** The shared region: `queue` is the ready ring between its counters, `recycled` the recycle ring. */
  datatype Shm = Shm(
    arenaSize: nat, readyCap: nat, recCap: nat,
    readyTail: nat, queue: seq<ReadyDesc>,
    recTail: nat, recycled: seq<RecycleDesc>,
    arena: seq<Byte>,
    usedBytes: nat, failures: nat,
    timeline: Timeline)
  {
    function ReadyHead(): nat { readyTail + |queue| }
    function RecHead(): nat { recTail + |recycled| }
  }

  datatype Channel = Channel(shm: Shm, heap: Heap, beacon: Beacon)

  function QueueIds(queue: seq<ReadyDesc>): (ids: seq<nat>)
    ensures |ids| == |queue|
  {
    seq(|queue|, i requires 0 <= i < |queue| => queue[i].bufferId)
  }

  function RecycledIds(recycled: seq<RecycleDesc>): (ids: seq<nat>)
    ensures |ids| == |recycled|
  {
    seq(|recycled|, i requires 0 <= i < |recycled| => recycled[i].bufferId)
  }

  // ---------------------------------------------------------------- writer

  const HEADER_PAD: nat := 4096
  const DESC_SIZE: nat := 64

  /** The recycle ring lies behind the header and the ready ring. */
  function RecycleOffset(readyCap: nat): nat {
    AlignUp(HEADER_PAD + readyCap * DESC_SIZE, DESC_SIZE)
  }

  /** The arena lies behind both rings, on a page boundary. */
  function ArenaOffset(readyCap: nat, recCap: nat): nat {
    AlignUp(RecycleOffset(readyCap) + recCap * DESC_SIZE, 4096)
  }

  function MappedRegion(arenaSize: nat, readyCap: nat, recCap: nat): Shm {
    Shm(arenaSize, readyCap, recCap, 0, [], 0, [], seq(arenaSize, _ => 0), 0, 0, INITIAL)
  }

  function Created(arenaSize: nat, readyCap: nat, recCap: nat, periodNs: nat): Channel {
    Channel(MappedRegion(arenaSize, readyCap, recCap), Fresh(arenaSize), Beacon(periodNs, 0, 0))
  }

  ghost function Metered(c: Channel): Channel {
    c.(shm := c.shm.(usedBytes := UsedBytes(c.heap.used)))
  }

  /** The oldest `k` queued frames dropped and their blocks released. */
  ghost function DropN(c: Channel, k: nat): Channel
    requires k <= |c.shm.queue|
  {
    if k == 0 then c
    else Metered(c.(
      shm := c.shm.(readyTail := c.shm.readyTail + k, queue := c.shm.queue[k..]),
      heap := ReleaseAll(c.heap, QueueIds(c.shm.queue[..k]))))
  }

  function Reset(c: Channel): Channel {
    c.(shm := c.shm.(readyTail := 0, queue := [], recTail := 0, recycled := [],
                     usedBytes := 0, failures := 0, timeline := NextGeneration(c.shm.timeline)),
       heap := Fresh(c.shm.arenaSize))
  }

  /** How many of the oldest queued frames have to go before the request fits; |queue| + 1 when
      dropping them all is not enough. */
  function DropsNeeded(h: Heap, queue: seq<ReadyDesc>, size: nat, align: nat): (k: nat)
    ensures k <= |queue| + 1
    decreases |queue|
  {
    if Fits(h, size, align) then 0
    else if queue == [] then 1
    else 1 + DropsNeeded(Release(h, queue[0].bufferId), queue[1..], size, align)
  }

  predicate MustReset(c: Channel, size: nat, align: nat) {
    DropsNeeded(c.heap, c.shm.queue, size, align) > |c.shm.queue|
  }

  /** The state in which `alloc_lease` makes its last attempt. */
  ghost function RoomMade(c: Channel, size: nat, align: nat): Channel {
    if MustReset(c, size, align) then Reset(c)
    else DropN(c, DropsNeeded(c.heap, c.shm.queue, size, align))
  }

  ghost function AfterAllocLease(c: Channel, size: nat, align: nat): Channel {
    var r := RoomMade(c, size, align);
    if Fits(r.heap, size, align) then r.(heap := Allocate(r.heap, size, align))
    else r.(shm := r.shm.(failures := r.shm.failures + 1))
  }

  ghost function LeaseOf(c: Channel, size: nat, align: nat): Option<Lease> {
    var r := RoomMade(c, size, align);
    if Fits(r.heap, size, align) then Some(Lease(r.heap.nextId, FitOffset(r.heap, size, align), size)) else None
  }

  ghost function FreeLease(c: Channel, id: nat): Channel {
    Metered(c.(heap := Release(c.heap, id)))
  }

  function LeaseDesc(c: Channel, lease: Lease, ptsNs: Nanos): ReadyDesc {
    ReadyDesc(c.shm.ReadyHead() + 1, lease.offset, lease.len, lease.bufferId, ptsNs, ptsNs, 0, 0)
  }

  function EmitSnapshot(c: Channel, ptsNs: Nanos, readyHead: nat, now: nat): Channel {
    c.(shm := c.shm.(timeline := Emit(c.shm.timeline, ptsNs, readyHead, now)),
       beacon := Emitted(c.shm.timeline, c.beacon, now))
  }

  /** Publishing blocks while the ready ring is full. */
  predicate CanPublish(c: Channel) {
    |c.shm.queue| < c.shm.readyCap
  }

  ghost function Enqueue(c: Channel, lease: Lease, ptsNs: Nanos): Channel {
    Metered(c.(shm := c.shm.(queue := c.shm.queue + [LeaseDesc(c, lease, ptsNs)])))
  }

  /** `due` and `now` are the two clock readings. */
  ghost function PublishLease(c: Channel, lease: Lease, ptsNs: Nanos, due: nat, now: nat): Channel {
    if !CanPublish(c) then c
    else
      var queued := Enqueue(c, lease, ptsNs);
      if EmissionDue(c.shm.timeline, c.beacon, due)
      then EmitSnapshot(queued, ptsNs, c.shm.ReadyHead() + 1, now)
      else queued
  }

  /** The first `k` recycle entries drained and their blocks released. */
  function DrainN(c: Channel, k: nat): Channel
    requires k <= |c.shm.recycled|
  {
    c.(shm := c.shm.(recTail := c.shm.recTail + k, recycled := c.shm.recycled[k..]),
       heap := ReleaseAll(c.heap, RecycledIds(c.shm.recycled[..k])))
  }

  ghost function DrainRecycles(c: Channel): Channel {
    Metered(DrainN(c, |c.shm.recycled|))
  }

  /** Bytes written through a lease's pointer. */
  function Store(shm: Shm, offset: nat, bytes: seq<Byte>): Shm
    requires offset + |bytes| <= |shm.arena|
  {
    shm.(arena := shm.arena[..offset] + bytes + shm.arena[offset + |bytes|..])
  }

  // ---------------------------------------------------------------- reader

  datatype Outcome = Nothing | Received(desc: ReadyDesc, dropped: nat) | OutOfBounds

  predicate InArena(shm: Shm, offset: nat, length: nat) {
    offset + length <= shm.arenaSize
  }

  function Payload(shm: Shm, offset: nat, length: nat): seq<Byte>
    requires offset + length <= |shm.arena|
  {
    shm.arena[offset..offset + length]
  }

  function Consume(shm: Shm, k: nat): Shm
    requires k <= |shm.queue|
  {
    shm.(readyTail := shm.readyTail + k, queue := shm.queue[k..])
  }

  function RecvOutcome(shm: Shm): Outcome {
    if shm.queue == [] then Nothing
    else if InArena(shm, shm.queue[0].offset, shm.queue[0].length) then Received(shm.queue[0], 0)
    else OutOfBounds
  }

  function AfterRecv(shm: Shm): Shm {
    if RecvOutcome(shm).Received? then Consume(shm, 1) else shm
  }

  predicate CanRecycle(shm: Shm) {
    |shm.recycled| < shm.recCap
  }

  function Recycle(shm: Shm, id: nat, offset: nat, length: nat, status: nat): Shm {
    if CanRecycle(shm)
    then shm.(recycled := shm.recycled + [RecycleDesc(shm.RecHead() + 1, id, status, offset, length)])
    else shm
  }

  /** The queue position the live policy picks: the second-newest, or the only entry. */
  function Chosen(shm: Shm): nat
    requires shm.queue != []
  {
    if |shm.queue| == 1 then 0 else |shm.queue| - 2
  }

  /** How many older entries find room in the recycle ring. */
  function Recyclable(shm: Shm): nat
    requires shm.queue != []
  {
    Min(Chosen(shm), Max(shm.recCap - |shm.recycled|, 0))
  }

  /** The first `k` queued entries as they are written to the recycle ring with status 1. */
  function DescsOf(shm: Shm, k: nat): (r: seq<RecycleDesc>)
    requires k <= |shm.queue|
    ensures |r| == k
  {
    seq(k, i requires 0 <= i < k =>
      RecycleDesc(shm.RecHead() + i + 1, shm.queue[i].bufferId, 1, shm.queue[i].offset, shm.queue[i].length))
  }

  function RecycleOldest(shm: Shm, k: nat): Shm
    requires k <= |shm.queue|
  {
    shm.(recycled := shm.recycled + DescsOf(shm, k))
  }

  function LatestOutcome(shm: Shm): Outcome {
    if shm.queue == [] then Nothing
    else
      var desc := shm.queue[Chosen(shm)];
      if InArena(shm, desc.offset, desc.length) then Received(desc, Recyclable(shm)) else OutOfBounds
  }

  function AfterLatest(shm: Shm): Shm {
    if shm.queue == [] then shm
    else
      var older := RecycleOldest(shm, Recyclable(shm));
      if LatestOutcome(shm).Received? then Consume(older, Chosen(shm) + 1) else older
  }

  /** Attach skips the whole backlog and starts a new generation. */
  function Attach(shm: Shm): Shm {
    Consume(shm, |shm.queue|).(timeline := NextGeneration(shm.timeline))
  }
}
