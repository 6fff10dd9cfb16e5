/** The whole transport as a state machine. Each event is one Writer or Reader operation; beside the
    channel the state records, since the last reset, what was published and what became of it, which
    of five places holds each live buffer id, how many allocations were served, and whether they
    were all of positive size. */
module System {
  import opened Basics
  import opened Heaps
  import opened Timelines
  import opened Channels

  datatype Publication = Publication(desc: ReadyDesc, gen: nat, bytes: seq<Byte>)

  datatype Fate = Delivered | Dropped | Recycled | Skipped

  /** Where a live buffer is; `n` is the sequence number of the frame in it. */
  datatype Place =
    | Leased(lease: Lease)
    | Queued(n: nat)
    | Held(n: nat)
    | InRecycle(slot: nat, n: nat)
    | Stranded(n: nat)

  datatype State = State(
    c: Channel,
    issued: set<Lease>,
    history: seq<Publication>,
    fates: seq<Fate>,
    received: seq<ReadyDesc>,
    owner: map<nat, Place>,
    served: nat,
    positive: bool)

  datatype Event =
    | AllocLease(size: nat, align: nat)
    | FreeLease(lease: Lease)
    | Write(lease: Lease, at: nat, bytes: seq<Byte>)
    | PublishLease(lease: Lease, ptsNs: Nanos, due: nat, now: nat)
    | EmitSnapshot(ptsNs: Nanos, now: nat)
    | DrainRecycles
    | Reset
    | Recv
    | RecvLatest
    | Recycle(desc: ReadyDesc)
    | Attach

  function Start(arenaSize: nat, readyCap: nat, recCap: nat, periodNs: nat): State {
    State(Created(arenaSize, readyCap, recCap, periodNs), {}, [], [], [], map[], 0, true)
  }

  // ---------------------------------------------------------------- steps

  function Live(owner: map<nat, Place>, h: Heap): map<nat, Place> {
    map id | id in owner && id in h.used :: owner[id]
  }

  function Repeat(fate: Fate, k: nat): (r: seq<Fate>)
    ensures |r| == k && forall i :: 0 <= i < k ==> r[i] == fate
  {
    seq(k, _ => fate)
  }

  ghost function AfterReset(s: State, c: Channel): State {
    s.(c := c, history := [], fates := [], received := [], owner := map[], served := 0, positive := true)
  }

  ghost function AfterDrops(s: State, k: nat): State
    requires k <= |s.c.shm.queue|
  {
    var c := DropN(s.c, k);
    s.(c := c, fates := s.fates + Repeat(Dropped, k), owner := Live(s.owner, c.heap))
  }

  ghost function WithRoom(s: State, size: nat, align: nat): State {
    if MustReset(s.c, size, align) then AfterReset(s, RoomMade(s.c, size, align))
    else AfterDrops(s, DropsNeeded(s.c.heap, s.c.shm.queue, size, align))
  }

  ghost function NextAllocLease(s: State, size: nat, align: nat): State {
    var r := WithRoom(s, size, align);
    var c := AfterAllocLease(s.c, size, align);
    match LeaseOf(s.c, size, align)
    case None => r.(c := c)
    case Some(lease) =>
      r.(c := c, issued := s.issued + {lease},
         owner := r.owner[lease.bufferId := Leased(lease)],
         served := r.served + 1, positive := r.positive && size > 0)
  }

  ghost function NextFreeLease(s: State, lease: Lease): State {
    var c := Channels.FreeLease(s.c, lease.bufferId);
    s.(c := c, owner := Live(s.owner, c.heap))
  }

  function NextWrite(s: State, lease: Lease, at: nat, bytes: seq<Byte>): State {
    if at + |bytes| <= lease.len && lease.offset + lease.len <= |s.c.shm.arena|
    then s.(c := s.c.(shm := Store(s.c.shm, lease.offset + at, bytes)))
    else s
  }

  ghost predicate CanEnqueue(s: State, lease: Lease) {
    CanPublish(s.c) && lease.offset + lease.len <= |s.c.shm.arena|
  }

  /** The first half of a publish: the frame is queued, the timeline not yet announced. */
  ghost function NextEnqueue(s: State, lease: Lease, ptsNs: Nanos): State
    requires CanEnqueue(s, lease)
  {
    s.(c := Enqueue(s.c, lease, ptsNs),
       history := s.history + [Publication(LeaseDesc(s.c, lease, ptsNs), s.c.shm.timeline.gen,
                                           Payload(s.c.shm, lease.offset, lease.len))],
       owner := s.owner[lease.bufferId := Queued(s.c.shm.ReadyHead() + 1)])
  }

  ghost function NextPublishLease(s: State, lease: Lease, ptsNs: Nanos, due: nat, now: nat): State {
    if CanEnqueue(s, lease)
    then NextEnqueue(s, lease, ptsNs).(c := Channels.PublishLease(s.c, lease, ptsNs, due, now))
    else s
  }

  ghost function NextDrain(s: State): State {
    var c := Channels.DrainRecycles(s.c);
    s.(c := c, owner := Live(s.owner, c.heap))
  }

  function NextRecv(s: State): State {
    var out := RecvOutcome(s.c.shm);
    if out.Received? then
      s.(c := s.c.(shm := AfterRecv(s.c.shm)), fates := s.fates + [Delivered],
         received := s.received + [out.desc], owner := s.owner[out.desc.bufferId := Held(out.desc.seqNo)])
    else s
  }

  /** Where the live policy sends the frame with sequence number `n`. */
  function PlaceAfterLatest(shm: Shm, n: nat): Place
    requires shm.queue != []
  {
    if n <= shm.readyTail then Queued(n)
    else
      var i := n - shm.readyTail - 1;
      if i < Recyclable(shm) then InRecycle(shm.RecHead() + i + 1, n)
      else if i < Chosen(shm) then Stranded(n)
      else if i == Chosen(shm) then Held(n)
      else Queued(n)
  }

  function LatestFates(shm: Shm): (r: seq<Fate>)
    requires shm.queue != []
    ensures |r| == Chosen(shm) + 1
  {
    Repeat(Recycled, Recyclable(shm)) + Repeat(Skipped, Chosen(shm) - Recyclable(shm)) + [Delivered]
  }

  function NextRecvLatest(s: State): State {
    var shm := s.c.shm;
    var out := LatestOutcome(shm);
    if out.Received? then
      s.(c := s.c.(shm := AfterLatest(shm)), fates := s.fates + LatestFates(shm),
         received := s.received + [out.desc],
         owner := map id | id in s.owner ::
           if s.owner[id].Queued? then PlaceAfterLatest(shm, s.owner[id].n) else s.owner[id])
    else s.(c := s.c.(shm := AfterLatest(shm)))
  }

  function NextRecycle(s: State, desc: ReadyDesc): State {
    if CanRecycle(s.c.shm) then
      s.(c := s.c.(shm := Channels.Recycle(s.c.shm, desc.bufferId, desc.offset, desc.length, 0)),
         owner := s.owner[desc.bufferId := InRecycle(s.c.shm.RecHead() + 1, desc.seqNo)])
    else s
  }

  function NextAttach(s: State): State {
    s.(c := s.c.(shm := Channels.Attach(s.c.shm)), fates := s.fates + Repeat(Skipped, |s.c.shm.queue|),
       owner := map id | id in s.owner ::
         if s.owner[id].Queued? then Stranded(s.owner[id].n) else s.owner[id])
  }

  ghost function Next(s: State, e: Event): State {
    match e
    case AllocLease(size, align) => NextAllocLease(s, size, align)
    case FreeLease(lease) => NextFreeLease(s, lease)
    case Write(lease, at, bytes) => NextWrite(s, lease, at, bytes)
    case PublishLease(lease, ptsNs, due, now) => NextPublishLease(s, lease, ptsNs, due, now)
    case EmitSnapshot(ptsNs, now) => s.(c := Channels.EmitSnapshot(s.c, ptsNs, s.c.shm.ReadyHead(), now))
    case DrainRecycles => NextDrain(s)
    case Reset => AfterReset(s, Channels.Reset(s.c))
    case Recv => NextRecv(s)
    case RecvLatest => NextRecvLatest(s)
    case Recycle(desc) => NextRecycle(s, desc)
    case Attach => NextAttach(s)
  }

  ghost function Run(s: State, es: seq<Event>): State
    decreases |es|
  {
    if es == [] then s else Run(Next(s, es[0]), es[1..])
  }

  // ---------------------------------------------------------------- which runs

  /** The only demand of the weaker runs: leases are ones the writer has handed out, at any time.
      Recycled descriptors may be anything at all, also from before a reset. */
  ghost predicate Issued(s: State, e: Event) {
    (e.PublishLease? || e.Write?) ==> e.lease in s.issued
  }

  ghost predicate AllIssued(s: State, es: seq<Event>)
    decreases |es|
  {
    es != [] ==> Issued(s, es[0]) && AllIssued(Next(s, es[0]), es[1..])
  }

  ghost predicate IsLeased(s: State, lease: Lease) {
    lease.bufferId in s.owner && s.owner[lease.bufferId] == Leased(lease)
  }

  ghost predicate IsHeld(s: State, desc: ReadyDesc) {
    && desc.bufferId in s.owner && s.owner[desc.bufferId] == Held(desc.seqNo)
    && 1 <= desc.seqNo <= |s.history| && s.history[desc.seqNo - 1].desc == desc
  }

  /** The next allocation does not reuse the id of a live block. */
  ghost predicate IdIsFresh(s: State, size: nat, align: nat) {
    var h := RoomMade(s.c, size, align).heap;
    h.nextId !in h.used
  }

  /** Handles are used by their holder, once: a lease while it is leased, a received frame while it
      is held. A reset ends every holding. */
  ghost predicate Owned(s: State, e: Event) {
    match e
    case AllocLease(size, align) => IdIsFresh(s, size, align)
    case FreeLease(lease) => IsLeased(s, lease)
    case Write(lease, _, _) => IsLeased(s, lease)
    case PublishLease(lease, _, _, _) => IsLeased(s, lease)
    case Recycle(desc) => IsHeld(s, desc)
    case _ => true
  }

  ghost predicate AllOwned(s: State, es: seq<Event>)
    decreases |es|
  {
    es != [] ==> Owned(s, es[0]) && AllOwned(Next(s, es[0]), es[1..])
  }

  /** The demand between the two: leases are handed out ones and no allocation reuses a live id.
      Returns and frees may still be stale or invented. */
  ghost predicate Orderly(s: State, e: Event) {
    Issued(s, e) && (e.AllocLease? ==> IdIsFresh(s, e.size, e.align))
  }

  ghost predicate AllOrderly(s: State, es: seq<Event>)
    decreases |es|
  {
    es != [] ==> Orderly(s, es[0]) && AllOrderly(Next(s, es[0]), es[1..])
  }

  // ---------------------------------------------------------------- what holds in every run

  ghost predicate ShmOk(shm: Shm) {
    && shm.arenaSize == |shm.arena| > 0 && shm.readyCap > 0 && shm.recCap > 0
    && |shm.queue| <= shm.readyCap && |shm.recycled| <= shm.recCap
    && shm.failures <= 1
    && (forall i :: 0 <= i < |shm.queue| ==> shm.queue[i].seqNo == shm.readyTail + i + 1)
    && (forall i :: 0 <= i < |shm.queue| ==> InArena(shm, shm.queue[i].offset, shm.queue[i].length))
    && (forall i :: 0 <= i < |shm.recycled| ==> shm.recycled[i].seqNo == shm.recTail + i + 1)
  }

  /** The received descriptors, as the history and the fates tell them. */
  function Deliveries(history: seq<Publication>, fates: seq<Fate>): seq<ReadyDesc>
    requires |fates| <= |history|
  {
    if fates == [] then []
    else
      var k := |fates| - 1;
      Deliveries(history, fates[..k]) + if fates[k] == Delivered then [history[k].desc] else []
  }

  /** Everything published since the last reset is accounted for: first what has a fate, in order,
      then the queue. */
  ghost predicate InOrder(s: State) {
    && |s.history| == s.c.shm.ReadyHead() && |s.fates| == s.c.shm.readyTail
    && forall i :: 0 <= i < |s.c.shm.queue| ==> s.history[s.c.shm.readyTail + i].desc == s.c.shm.queue[i]
  }

  ghost predicate HistoryOk(s: State) {
    && InOrder(s)
    && (forall i :: 0 <= i < |s.history| ==>
          && s.history[i].desc.seqNo == i + 1 && s.history[i].gen <= s.c.shm.timeline.gen
          && InArena(s.c.shm, s.history[i].desc.offset, s.history[i].desc.length))
    && (forall i :: s.c.shm.readyTail <= i < |s.history| ==> s.history[i].gen == s.c.shm.timeline.gen)
    && s.received == Deliveries(s.history, s.fates)
  }

  /** The region apart from the snapshot in its header. */
  ghost predicate RegionOk(s: State) {
    && ShmOk(s.c.shm)
    && Bounded(s.c.heap, s.c.shm.arenaSize)
    && (forall lease :: lease in s.issued ==> InArena(s.c.shm, lease.offset, lease.len))
    && HistoryOk(s)
  }

  ghost predicate Sound(s: State) {
    RegionOk(s) && TimelineOk(s.c.shm.timeline, s.c.beacon)
  }

  /** The heap when no allocation reuses a live id: it tiles the arena, counts its ids, is canonical
      when only blocks with bytes were handed out, and never has touching entries when it is empty. */
  ghost predicate TidyHeap(h: Heap, total: nat, served: nat, positive: bool) {
    && Tiled(h, total)
    && (served < U32_LIMIT ==> IdsUpTo(h, served))
    && (positive ==> Canonical(h.free) && UsedPositive(h.used))
    && (h.used == map[] ==> StrictGaps(h.free))
  }

  ghost predicate Tidy(s: State) {
    TidyHeap(s.c.heap, s.c.shm.arenaSize, s.served, s.positive)
  }

  // ---------------------------------------------------------------- what holds in owned runs

  /** Buffer `id` holds frame `n`: the range it owns is the one published, with the bytes of then. */
  ghost predicate HoldsFrame(s: State, id: nat, n: nat) {
    && 1 <= n <= |s.history| && id in s.c.heap.used
    && var p := s.history[n - 1];
       && p.desc.bufferId == id && s.c.heap.used[id] == Range(p.desc.offset, p.desc.length)
       && p.desc.offset + p.desc.length <= |s.c.shm.arena|
       && Payload(s.c.shm, p.desc.offset, p.desc.length) == p.bytes
  }

  ghost predicate PlaceOk(s: State, id: nat, place: Place) {
    var shm := s.c.shm;
    match place
    case Leased(lease) =>
      lease.bufferId == id && lease in s.issued
      && id in s.c.heap.used && s.c.heap.used[id] == Range(lease.offset, lease.len)
    case Queued(n) =>
      HoldsFrame(s, id, n) && shm.readyTail < n <= shm.ReadyHead()
    case Held(n) =>
      HoldsFrame(s, id, n) && n <= |s.fates| && s.fates[n - 1] == Delivered
    case InRecycle(slot, n) =>
      HoldsFrame(s, id, n) && n <= |s.fates| && (s.fates[n - 1] == Delivered || s.fates[n - 1] == Recycled)
      && shm.recTail < slot <= shm.RecHead() && shm.recycled[slot - shm.recTail - 1].bufferId == id
    case Stranded(n) =>
      HoldsFrame(s, id, n) && n <= |s.fates| && s.fates[n - 1] == Skipped
  }

  ghost predicate PlacesTrue(s: State) {
    forall id :: id in s.owner ==> PlaceOk(s, id, s.owner[id])
  }

  ghost predicate QueuePlaced(owner: map<nat, Place>, tail: nat, queue: seq<ReadyDesc>) {
    forall i :: 0 <= i < |queue| ==> queue[i].bufferId in owner && owner[queue[i].bufferId] == Queued(tail + i + 1)
  }

  ghost predicate RecyclePlaced(owner: map<nat, Place>, tail: nat, recycled: seq<RecycleDesc>) {
    forall i :: 0 <= i < |recycled| ==>
      && recycled[i].bufferId in owner
      && owner[recycled[i].bufferId].InRecycle?
      && owner[recycled[i].bufferId].slot == tail + i + 1
  }

  /** The live ids are exactly the ids with a place; the place tells where to find the id, and every
      queue and recycle entry is some id's place. An id has one place, so the places are disjoint. */
  ghost predicate PlacesOk(s: State) {
    && s.owner.Keys == s.c.heap.used.Keys
    && PlacesTrue(s)
    && QueuePlaced(s.owner, s.c.shm.readyTail, s.c.shm.queue)
    && RecyclePlaced(s.owner, s.c.shm.recTail, s.c.shm.recycled)
  }

  ghost predicate NothingLeased(s: State) {
    forall id :: id in s.owner ==> !s.owner[id].Leased?
  }

  ghost predicate Accounted(s: State) {
    && Sound(s)
    && Tidy(s)
    && PlacesOk(s)
    && (NothingLeased(s) ==> s.c.shm.usedBytes == UsedBytes(s.c.heap.used))
  }
}
