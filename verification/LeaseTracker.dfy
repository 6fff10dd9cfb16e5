/** The sink's record of buffers lent to upstream elements: a map from the lent pointer to the lease.
    The object drives a Writer; the state machine below shows that the map agrees with the allocator. */
module LeaseTracker {
  import opened Basics
  import opened Heaps
  import opened HeapLemmas
  import opened Channels
  import opened System
  import opened OwnedRuns
  import opened Guarantees
  import opened Payloads
  import Transport

  type Pending = map<nat, Lease>

  function Tracking(pending: Pending, base: nat, lease: Lease): Pending {
    pending[base + lease.offset := lease]
  }

  /** The lease behind a pointer, when the whole block is being published. */
  function Marked(pending: Pending, ptr: nat, len: nat): Option<Lease> {
    if ptr in pending && pending[ptr].len == len then Some(pending[ptr]) else None
  }

  function AfterMark(pending: Pending, ptr: nat, len: nat): Pending {
    if Marked(pending, ptr, len).Some? then pending - {ptr} else pending
  }

  class AllocTracker {
    const writer: Transport.Writer?
    const arenaBase: nat
    var pendingByPtr: Pending

    constructor (w: Transport.Writer?, base: nat)
      ensures writer == w && arenaBase == base && pendingByPtr == map[]
    {
      writer := w;
      arenaBase := base;
      pendingByPtr := map[];
    }

    /** None when there is no writer or the writer is exhausted. */
    method AllocLeaseForUpstream(size: nat, align: nat) returns (r: Option<Lease>)
      requires writer != null ==> writer.Valid()
      modifies this`pendingByPtr, if writer == null then {} else {writer, writer.allocator, writer.shm}
      ensures writer == null ==> r == None && pendingByPtr == old(pendingByPtr)
      ensures writer != null ==>
                && writer.Valid()
                && writer.View() == AfterAllocLease(old(writer.View()), size % U32_LIMIT, align)
                && r == LeaseOf(old(writer.View()), size % U32_LIMIT, align)
                && pendingByPtr == if r.Some? then Tracking(old(pendingByPtr), arenaBase, r.value)
                                   else old(pendingByPtr)
    {
      if writer == null {
        return None;
      }
      var n := size % U32_LIMIT;
      r := writer.AllocLease(n, align);
      if r.Some? {
        pendingByPtr := pendingByPtr[arenaBase + r.value.offset := r.value];
      }
    }

    method ReleaseUnpublished(ptr: nat)
      requires writer != null ==> writer.Valid()
      modifies this`pendingByPtr, if writer == null then {} else {writer.allocator, writer.shm}
      ensures pendingByPtr == old(pendingByPtr) - {ptr}
      ensures writer != null ==>
                && writer.Valid()
                && writer.View() == if ptr in old(pendingByPtr)
                                    then Channels.FreeLease(old(writer.View()), old(pendingByPtr)[ptr].bufferId)
                                    else old(writer.View())
    {
      if ptr in pendingByPtr {
        var pending := pendingByPtr[ptr];
        pendingByPtr := pendingByPtr - {ptr};
        if writer != null {
          var _ := writer.FreeLease(pending.bufferId);
        }
      }
    }

    method MarkPublished(ptr: nat, len: nat) returns (r: Option<Lease>)
      modifies this`pendingByPtr
      ensures r == Marked(old(pendingByPtr), ptr, len)
      ensures pendingByPtr == AfterMark(old(pendingByPtr), ptr, len)
    {
      if ptr !in pendingByPtr {
        return None;
      }
      var pending := pendingByPtr[ptr];
      pendingByPtr := pendingByPtr - {ptr};
      if pending.len != len {
        pendingByPtr := pendingByPtr[ptr := pending];
        return None;
      }
      return Some(pending);
    }
  }

  // ---------------------------------------------------------------- the tracked system

  datatype Tracked = Tracked(s: State, base: nat, pending: Pending)

  datatype Act =
    | LendUpstream(size: nat, align: nat)
    | Release(ptr: nat)
    | MarkPublished(ptr: nat, len: nat)
    | Other(e: Event)

  /** Lending `n` bytes, the requested size cut to u32. */
  ghost function NextLend(t: Tracked, n: nat, align: nat): Tracked {
    var lease := LeaseOf(t.s.c, n, align);
    Tracked(NextAllocLease(t.s, n, align), t.base,
            if lease.Some? then Tracking(t.pending, t.base, lease.value) else t.pending)
  }

  ghost function NextRelease(t: Tracked, ptr: nat): Tracked {
    if ptr in t.pending then t.(s := NextFreeLease(t.s, t.pending[ptr]), pending := t.pending - {ptr}) else t
  }

  ghost function NextTracked(t: Tracked, a: Act): Tracked {
    match a
    case LendUpstream(size, align) => NextLend(t, size % U32_LIMIT, align)
    case Release(ptr) => NextRelease(t, ptr)
    case MarkPublished(ptr, len) => t.(pending := AfterMark(t.pending, ptr, len))
    case Other(e) => t.(s := Next(t.s, e))
  }

  /** Every entry is a live lease with that id, offset and length, keyed at its address. */
  ghost predicate EntriesOk(pending: Pending, base: nat, s: State) {
    forall p :: p in pending ==> p == base + pending[p].offset && IsLeased(s, pending[p])
  }

  ghost predicate Agrees(t: Tracked) {
    Accounted(t.s) && EntriesOk(t.pending, t.base, t.s)
  }

  /** Lending is possible without a reset and without reusing a live id. */
  ghost predicate CanLend(s: State, n: nat, align: nat) {
    IdIsFresh(s, n, align) && !MustReset(s.c, n, align)
  }

  /** Within a generation, events of other parties follow the handles and leave pending leases alone. */
  ghost predicate Allowed(t: Tracked, a: Act) {
    match a
    case LendUpstream(size, align) =>
      CanLend(t.s, size % U32_LIMIT, align)
    case Release(ptr) => true
    case MarkPublished(ptr, len) => true
    case Other(e) =>
      && Owned(t.s, e) && !Resets(t.s, e)
      && (e.FreeLease? || e.PublishLease? ==> forall p :: p in t.pending ==> t.pending[p] != e.lease)
  }

  ghost function RunTracked(t: Tracked, acts: seq<Act>): Tracked
    decreases |acts|
  {
    if acts == [] then t else RunTracked(NextTracked(t, acts[0]), acts[1..])
  }

  ghost predicate AllAllowed(t: Tracked, acts: seq<Act>)
    decreases |acts|
  {
    acts != [] ==> Allowed(t, acts[0]) && AllAllowed(NextTracked(t, acts[0]), acts[1..])
  }

  lemma LendKeepsEntries(pending: Pending, base: nat, s: State, n: nat, align: nat)
    requires InOrder(s) && PlacesOk(s) && CanLend(s, n, align) && EntriesOk(pending, base, s)
    ensures EntriesOk(pending, base, NextAllocLease(s, n, align))
  {
    forall p | p in pending
      ensures IsLeased(NextAllocLease(s, n, align), pending[p])
    {
      AllocKeepsFrame(s, n, align, pending[p].bufferId);
    }
  }

  lemma TrackingKeepsEntries(pending: Pending, base: nat, s: State, lease: Lease)
    requires EntriesOk(pending, base, s) && IsLeased(s, lease)
    ensures EntriesOk(Tracking(pending, base, lease), base, s)
  {
  }

  lemma LendKeepsAgreement(t: Tracked, n: nat, align: nat)
    requires Agrees(t) && CanLend(t.s, n, align)
    ensures Agrees(NextLend(t, n, align))
  {
    var lease := LeaseOf(t.s.c, n, align);
    var u := NextAllocLease(t.s, n, align);
    AllocLeaseKeepsAccounted(t.s, n, align);
    LendKeepsEntries(t.pending, t.base, t.s, n, align);
    if lease.Some? {
      LeaseIsLeased(t.s, n, align);
      TrackingKeepsEntries(t.pending, t.base, u, lease.value);
    }
  }

  lemma ReleaseKeepsAgreement(t: Tracked, ptr: nat)
    requires Agrees(t)
    ensures Agrees(NextRelease(t, ptr))
    ensures ptr in t.pending ==>
              NextRelease(t, ptr).s.c.heap.used == t.s.c.heap.used - {t.pending[ptr].bufferId}
              && t.pending[ptr].bufferId in t.s.c.heap.used
  {
    if ptr in t.pending {
      FreeLeaseKeepsAccounted(t.s, t.pending[ptr]);
      forall p | p in t.pending && p != ptr
        ensures IsLeased(NextFreeLease(t.s, t.pending[ptr]), t.pending[p])
      {
        FreeKeepsLease(t.s, t.pending[ptr], t.pending[p]);
      }
    }
  }

  lemma LeasedRange(s: State, a: Lease)
    requires PlacesOk(s) && IsLeased(s, a)
    ensures a.bufferId in s.c.heap.used && s.c.heap.used[a.bufferId] == Range(a.offset, a.len)
  {
    assert PlaceOk(s, a.bufferId, s.owner[a.bufferId]);
  }

  /** The drop of a lent memory, late or not, is a no-op exactly when its address has no entry. When it
      has one, that lease is freed, whoever it was lent to. */
  lemma DropIsNoOpIff(t: Tracked, ptr: nat)
    requires Agrees(t)
    ensures NextRelease(t, ptr) == t <==> ptr !in t.pending
    ensures ptr in t.pending ==>
              && ptr == t.base + t.pending[ptr].offset && IsLeased(t.s, t.pending[ptr])
              && t.pending[ptr].bufferId !in NextRelease(t, ptr).s.c.heap.used
  {
    if ptr in t.pending {
      ReleaseKeepsAgreement(t, ptr);
      assert ptr !in NextRelease(t, ptr).pending;
    }
  }

  /** While a published block is live its address is not lent again, so the drop of the published
      memory changes nothing; only an empty lease can break this. */
  lemma PublishedBlockKeepsItsAddress(t: Tracked, id: nat)
    requires Agrees(t) && id in t.s.owner && !t.s.owner[id].Leased?
    ensures id in t.s.c.heap.used
    ensures var r := t.s.c.heap.used[id];
            var ptr := t.base + r.start;
            && (ptr in t.pending ==> r.len == 0 || t.pending[ptr].len == 0)
            && (t.s.positive ==> NextRelease(t, ptr) == t)
  {
    var ptr := t.base + t.s.c.heap.used[id].start;
    if ptr in t.pending { LeasedRange(t.s, t.pending[ptr]); }
  }

  lemma OtherKeepsAgreement(t: Tracked, e: Event)
    requires Agrees(t) && Allowed(t, Other(e))
    ensures Agrees(NextTracked(t, Other(e)))
  {
    NextKeepsAccounted(t.s, e);
    forall p | p in t.pending
      ensures IsLeased(Next(t.s, e), t.pending[p])
    {
      LeaseStays(t.s, e, t.pending[p]);
    }
  }

  /** The map agrees with the allocator after every run within a generation. */
  lemma {:induction false} TrackerAgrees(t: Tracked, acts: seq<Act>)
    requires Agrees(t) && AllAllowed(t, acts)
    ensures Agrees(RunTracked(t, acts))
    decreases |acts|
  {
    if acts != [] {
      match acts[0] {
        case LendUpstream(size, align) => LendKeepsAgreement(t, size % U32_LIMIT, align);
        case Release(ptr) => ReleaseKeepsAgreement(t, ptr);
        case MarkPublished(ptr, len) =>
        case Other(e) => OtherKeepsAgreement(t, e);
      }
      TrackerAgrees(NextTracked(t, acts[0]), acts[1..]);
    }
  }

  // ---------------------------------------------------------------- one address, two leases

  lemma NewIdIsNotLeased(s: State, size: nat, align: nat, prior: Lease)
    requires InOrder(s) && PlacesOk(s) && IdIsFresh(s, size, align) && !MustReset(s.c, size, align)
    requires IsLeased(s, prior)
    requires LeaseOf(s.c, size, align).Some?
    ensures LeaseOf(s.c, size, align).value.bufferId != prior.bufferId
  {
    DropsKeepFrame(s, DropsNeeded(s.c.heap, s.c.shm.queue, size, align), prior.bufferId);
    DropsKeepPlaces(s, DropsNeeded(s.c.heap, s.c.shm.queue, size, align));
  }

  lemma LeasesShareNoByte(s: State, size: nat, align: nat, prior: Lease)
    requires Accounted(s) && IdIsFresh(s, size, align) && !MustReset(s.c, size, align) && IsLeased(s, prior)
    requires LeaseOf(s.c, size, align).Some?
    ensures var lease := LeaseOf(s.c, size, align).value;
            Range(lease.offset, lease.len).Apart(Range(prior.offset, prior.len))
  {
    var lease := LeaseOf(s.c, size, align).value;
    AllocLeaseKeepsAccounted(s, size, align);
    LeaseIsLeased(s, size, align);
    LeaseStays(s, AllocLease(size, align), prior);
    NewIdIsNotLeased(s, size, align, prior);
    LeasedRangesApart(NextAllocLease(s, size, align), lease, prior);
  }

  /** A pending lease starts at `o`; `empty` says whether it has no bytes. */
  ghost predicate StartsAt(t: Tracked, o: nat, empty: bool) {
    exists p :: p in t.pending && t.pending[p].offset == o && (t.pending[p].len == 0 <==> empty)
  }

  /** The free range that first fit takes the block from, once room has been made. */
  ghost function ServingRange(c: Channel, n: nat, align: nat): Range
    requires LeaseOf(c, n, align).Some?
  {
    var h := RoomMade(c, n, align).heap;
    h.free[FirstFit(h.free, n, align)]
  }

  lemma LiveBlockIsNotFree(w: State, r: Range, prior: Lease)
    requires Tiled(w.c.heap, w.c.shm.arenaSize) && PlacesOk(w)
    requires r in w.c.heap.free && IsLeased(w, prior) && prior.len > 0
    ensures !r.Has(prior.offset)
  {
    LeasedRange(w, prior);
    FreeEntryIsApart(w.c.heap, w.c.shm.arenaSize, r);
  }

  /** With room made, a lease with bytes does not begin inside the free range that serves the request. */
  lemma LiveBlockIsNotInFreeRange(s: State, n: nat, align: nat, prior: Lease)
    requires Accounted(s) && CanLend(s, n, align) && LeaseOf(s.c, n, align).Some?
    requires IsLeased(s, prior) && prior.len > 0
    ensures !ServingRange(s.c, n, align).Has(prior.offset)
  {
    var k := DropsNeeded(s.c.heap, s.c.shm.queue, n, align);
    var w := AfterDrops(s, k);
    DropsKeepFrame(s, k, prior.bufferId);
    DropsKeepAccounted(s, k);
    LiveBlockIsNotFree(w, w.c.heap.free[FirstFit(w.c.heap.free, n, align)], prior);
  }

  lemma CollisionIsAtRangeEnd(s: State, n: nat, align: nat, prior: Lease)
    requires Accounted(s) && CanLend(s, n, align) && LeaseOf(s.c, n, align).Some? && IsLeased(s, prior)
    requires prior.len > 0 && prior.offset == LeaseOf(s.c, n, align).value.offset
    ensures n == 0 && prior.offset == ServingRange(s.c, n, align).End()
  {
    LeasesShareNoByte(s, n, align, prior);
    LiveBlockIsNotInFreeRange(s, n, align, prior);
  }

  lemma CollidingLease(s: State, n: nat, align: nat, prior: Lease)
    requires Accounted(s) && CanLend(s, n, align) && LeaseOf(s.c, n, align).Some? && IsLeased(s, prior)
    requires prior.offset == LeaseOf(s.c, n, align).value.offset
    ensures prior.len > 0 ==> n == 0 && prior.offset == ServingRange(s.c, n, align).End()
    ensures s.positive ==> prior.len > 0
  {
    LeasedRange(s, prior);
    if prior.len > 0 { CollisionIsAtRangeEnd(s, n, align, prior); }
  }

  lemma BytesCollideAtRangeEnd(t: Tracked, n: nat, align: nat, at: nat)
    requires Agrees(t) && CanLend(t.s, n, align) && LeaseOf(t.s.c, n, align).Some?
    requires at == LeaseOf(t.s.c, n, align).value.offset && t.base + at in t.pending
    ensures t.pending[t.base + at].len > 0 ==> n == 0 && at == ServingRange(t.s.c, n, align).End()
    ensures t.s.positive ==> t.pending[t.base + at].len > 0
  {
    CollidingLease(t.s, n, align, t.pending[t.base + at]);
  }

  /** Whether a block of `n` bytes at `at`, cut from a free range that ends at `end`, meets a key. */
  ghost predicate Overwrites(t: Tracked, n: nat, at: nat, end: nat) {
    StartsAt(t, at, true) || (n == 0 && at == end && StartsAt(t, at, false))
  }

  lemma KeyedAtAddress(t: Tracked, n: nat, at: nat, end: nat)
    requires forall p :: p in t.pending ==> p == t.base + t.pending[p].offset
    requires t.base + at in t.pending && t.pending[t.base + at].len > 0 ==> n == 0 && at == end
    ensures t.base + at in t.pending <==> Overwrites(t, n, at, end)
  {
  }

  /** Lending overwrites an entry exactly when an empty lease is pending at the address it gets, or when
      it is itself empty, was placed at the very end of its free range, and a lease with bytes begins
      there. */
  lemma LendOverwritesIff(t: Tracked, n: nat, align: nat, at: nat)
    requires Agrees(t) && CanLend(t.s, n, align) && LeaseOf(t.s.c, n, align).Some?
    requires at == LeaseOf(t.s.c, n, align).value.offset
    ensures t.base + at in t.pending <==> Overwrites(t, n, at, ServingRange(t.s.c, n, align).End())
  {
    if t.base + at in t.pending { BytesCollideAtRangeEnd(t, n, align, at); }
    KeyedAtAddress(t, n, at, ServingRange(t.s.c, n, align).End());
  }

  /** With positive sizes every entry survives. */
  lemma PositiveLendsKeepEntries(t: Tracked, n: nat, align: nat, at: nat)
    requires Agrees(t) && CanLend(t.s, n, align) && LeaseOf(t.s.c, n, align).Some?
    requires at == LeaseOf(t.s.c, n, align).value.offset && t.s.positive && n > 0
    ensures t.base + at !in t.pending
  {
    if t.base + at in t.pending { BytesCollideAtRangeEnd(t, n, align, at); }
  }

  lemma LendAtOnce(t: Tracked, n: nat, align: nat, lease: Lease)
    requires Agrees(t) && Fits(t.s.c.heap, n, align) && t.s.c.heap.nextId !in t.s.c.heap.used
    requires lease == Lease(t.s.c.heap.nextId, FitOffset(t.s.c.heap, n, align), n)
    ensures CanLend(t.s, n, align) && LeaseOf(t.s.c, n, align) == Some(lease)
    ensures var u := NextLend(t, n, align);
            && IsLeased(u.s, lease) && u.s.c.heap == Allocate(t.s.c.heap, n, align)
            && u.base == t.base && u.pending == Tracking(t.pending, t.base, lease)
  {
    assert DropsNeeded(t.s.c.heap, t.s.c.shm.queue, n, align) == 0;
    LeaseIsLeased(t.s, n, align);
  }

  lemma EmptyFitsAgain(h: Heap, align: nat)
    requires Canonical(h.free) && Fits(h, 0, align)
    ensures var g := Allocate(h, 0, align);
            Fits(g, 0, align) && FitOffset(g, 0, align) == FitOffset(h, 0, align)
  {
    var i, at := FirstFit(h.free, 0, align), FitOffset(h, 0, align);
    var g := Allocate(h, 0, align);
    assert h.free[i] in h.free;
    assert g.free[..i] == h.free[..i];
    assert FitsIn(g.free[i], 0, align);
    forall j | 0 <= j < i
      ensures !FitsIn(g.free[j], 0, align)
    {
      assert g.free[j] == h.free[j];
    }
    FitsAt(g, 0, align, i);
  }

  lemma LendKeepsLease(t: Tracked, n: nat, align: nat, prior: Lease)
    requires Agrees(t) && CanLend(t.s, n, align) && IsLeased(t.s, prior)
    ensures IsLeased(NextLend(t, n, align).s, prior)
  {
    AllocKeepsFrame(t.s, n, align, prior.bufferId);
  }

  lemma FollowingId(h: Heap, align: nat)
    requires Fits(h, 0, align) && h.nextId < U32_LIMIT - 1
    ensures Allocate(h, 0, align).nextId == h.nextId + 1
    ensures Allocate(h, 0, align).used.Keys == h.used.Keys + {h.nextId}
  {
  }

  lemma SameKeyReplaces(pending: Pending, base: nat, first: Lease, second: Lease)
    requires first.offset == second.offset
    ensures Tracking(Tracking(pending, base, first), base, second) == Tracking(pending, base, second)
  {
  }

  lemma SecondLend(u: Tracked, align: nat, first: Lease, second: Lease)
    requires Agrees(u) && Fits(u.s.c.heap, 0, align) && u.s.c.heap.nextId !in u.s.c.heap.used
    requires second == Lease(u.s.c.heap.nextId, FitOffset(u.s.c.heap, 0, align), 0) && IsLeased(u.s, first)
    ensures NextLend(u, 0, align).pending == Tracking(u.pending, u.base, second)
    ensures IsLeased(NextLend(u, 0, align).s, first)
  {
    LendAtOnce(u, 0, align, second);
    LendKeepsLease(u, 0, align, first);
  }

  lemma FirstEmptyLend(t: Tracked, align: nat, first: Lease)
    requires Agrees(t) && Canonical(t.s.c.heap.free) && Fits(t.s.c.heap, 0, align)
    requires t.s.c.heap.nextId < U32_LIMIT - 1 && t.s.c.heap.nextId !in t.s.c.heap.used
    requires first == Lease(t.s.c.heap.nextId, FitOffset(t.s.c.heap, 0, align), 0)
    ensures CanLend(t.s, 0, align)
    ensures var u := NextLend(t, 0, align);
            var g := u.s.c.heap;
            && u.base == t.base && u.pending == Tracking(t.pending, t.base, first) && IsLeased(u.s, first)
            && Fits(g, 0, align) && FitOffset(g, 0, align) == first.offset && g.nextId == first.bufferId + 1
            && g.used.Keys == t.s.c.heap.used.Keys + {first.bufferId}
  {
    FollowingId(t.s.c.heap, align);
    EmptyFitsAgain(t.s.c.heap, align);
    LendAtOnce(t, 0, align, first);
  }

  /** Two empty lends in a row collide in every state with a canonical heap: the second entry replaces
      the first, whose lease stays out without one. */
  lemma EmptyLeasesCollide(t: Tracked, align: nat, first: Lease, second: Lease)
    requires Agrees(t) && Canonical(t.s.c.heap.free) && Fits(t.s.c.heap, 0, align)
    requires first == Lease(t.s.c.heap.nextId, FitOffset(t.s.c.heap, 0, align), 0)
    requires second == first.(bufferId := first.bufferId + 1) && second.bufferId < U32_LIMIT
    requires first.bufferId !in t.s.c.heap.used && second.bufferId !in t.s.c.heap.used
    ensures var u := NextLend(t, 0, align);
            var v := NextLend(u, 0, align);
            && u.pending == Tracking(t.pending, t.base, first)
            && v.pending == Tracking(t.pending, t.base, second)
            && IsLeased(v.s, first)
  {
    FirstEmptyLend(t, align, first);
    LendKeepsAgreement(t, 0, align);
    SecondLend(NextLend(t, 0, align), align, first, second);
    SameKeyReplaces(t.pending, t.base, first, second);
  }

  lemma ThreeLends(h: Heap)
    requires h == Fresh(256)
    ensures var h1 := Allocate(h, 10, 64);
            var h2 := Allocate(h1, 64, 64);
            && Fits(h, 10, 64) && FitOffset(h, 10, 64) == 0 && h1.nextId == 2 && h1.used.Keys == {1}
            && Fits(h1, 64, 64) && FitOffset(h1, 64, 64) == 64 && h2.nextId == 3 && h2.used.Keys == {1, 2}
            && Fits(h2, 0, 64) && FitOffset(h2, 0, 64) == 64
  {
    FitsAt(h, 10, 64, 0);
    var h1 := Heap([Range(10, 246)], map[1 := Range(0, 10)], 2);
    assert Allocate(h, 10, 64) == h1;
    FitsAt(h1, 64, 64, 0);
    var h2 := Heap([Range(10, 54), Range(128, 128)], map[1 := Range(0, 10), 2 := Range(64, 64)], 3);
    assert Carve(h1.free, 0, 64, 64) == h2.free;
    FitsAt(h2, 0, 64, 0);
  }

  lemma LendThen(t: Tracked, n: nat, align: nat, rest: seq<Act>)
    requires n < U32_LIMIT && CanLend(t.s, n, align)
    ensures RunTracked(t, [LendUpstream(n, align)] + rest) == RunTracked(NextLend(t, n, align), rest)
    ensures AllAllowed(NextLend(t, n, align), rest) ==> AllAllowed(t, [LendUpstream(n, align)] + rest)
  {
    assert n % U32_LIMIT == n;
    assert ([LendUpstream(n, align)] + rest)[1..] == rest;
  }

  /** The run ends with the lease out and these entries. */
  ghost predicate EndsWith(t: Tracked, acts: seq<Act>, out: Lease, pending: Pending) {
    AllAllowed(t, acts) && IsLeased(RunTracked(t, acts).s, out) && RunTracked(t, acts).pending == pending
  }

  const SMALL_LENDS: seq<Act> := [LendUpstream(10, 64)] + ([LendUpstream(64, 64)] + ([LendUpstream(0, 64)] + []))

  lemma ThirdLend(w: Tracked, second: Lease)
    requires Agrees(w) && Fits(w.s.c.heap, 0, 64) && FitOffset(w.s.c.heap, 0, 64) == 64
    requires w.s.c.heap.nextId == 3 && w.s.c.heap.used.Keys == {1, 2} && IsLeased(w.s, second)
    ensures EndsWith(w, [LendUpstream(0, 64)] + [], second, Tracking(w.pending, w.base, Lease(3, 64, 0)))
  {
    LendAtOnce(w, 0, 64, Lease(3, 64, 0));
    LendKeepsLease(w, 0, 64, second);
    LendThen(w, 0, 64, []);
  }

  lemma LastTwoLends(u: Tracked)
    requires Agrees(u) && u.s.c.heap == Allocate(Fresh(256), 10, 64)
    ensures EndsWith(u, [LendUpstream(64, 64)] + ([LendUpstream(0, 64)] + []), Lease(2, 64, 64),
                     Tracking(Tracking(u.pending, u.base, Lease(2, 64, 64)), u.base, Lease(3, 64, 0)))
  {
    ThreeLends(Fresh(256));
    LendAtOnce(u, 64, 64, Lease(2, 64, 64));
    LendKeepsAgreement(u, 64, 64);
    ThirdLend(NextLend(u, 64, 64), Lease(2, 64, 64));
    LendThen(u, 64, 64, [LendUpstream(0, 64)] + []);
  }

  lemma AllThreeLends(t: Tracked)
    requires Agrees(t) && t.s.c.heap == Fresh(256)
    ensures EndsWith(t, SMALL_LENDS, Lease(2, 64, 64),
                     Tracking(Tracking(Tracking(t.pending, t.base, Lease(1, 0, 10)), t.base, Lease(2, 64, 64)),
                              t.base, Lease(3, 64, 0)))
  {
    ThreeLends(Fresh(256));
    LendAtOnce(t, 10, 64, Lease(1, 0, 10));
    LendKeepsAgreement(t, 10, 64);
    LastTwoLends(NextLend(t, 10, 64));
    LendThen(t, 10, 64, [LendUpstream(64, 64)] + ([LendUpstream(0, 64)] + []));
  }

  lemma ThreeTracked(base: nat)
    ensures Tracking(Tracking(Tracking(map[], base, Lease(1, 0, 10)), base, Lease(2, 64, 64)), base, Lease(3, 64, 0))
         == map[base := Lease(1, 0, 10), base + 64 := Lease(3, 64, 0)]
  {
  }

  /** The tracker of a fresh region. */
  ghost predicate IsFresh(t: Tracked, arenaSize: nat) {
    exists readyCap, recCap, periodNs ::
      && readyCap > 0 && recCap > 0 && t == Tracked(Start(arenaSize, readyCap, recCap, periodNs), t.base, map[])
  }

  lemma FreshAgrees(t: Tracked, arenaSize: nat)
    requires arenaSize > 0 && IsFresh(t, arenaSize)
    ensures Agrees(t) && t.s.c.heap == Fresh(arenaSize) && t.pending == map[]
  {
    var readyCap, recCap, periodNs :|
      readyCap > 0 && recCap > 0 && t == Tracked(Start(arenaSize, readyCap, recCap, periodNs), t.base, map[]);
    StartIsAccounted(arenaSize, readyCap, recCap, periodNs);
  }

  lemma FreshIsQuiet(t: Tracked, arenaSize: nat)
    requires arenaSize > 0 && IsFresh(t, arenaSize)
    ensures Quiet(t.s) && t.pending == map[] && t.s.c.shm.arenaSize == arenaSize
  {
    var readyCap, recCap, periodNs :|
      readyCap > 0 && recCap > 0 && t == Tracked(Start(arenaSize, readyCap, recCap, periodNs), t.base, map[]);
    StartIsQuiet(arenaSize, readyCap, recCap, periodNs);
  }

  lemma ThirdTakesSecondKey(t: Tracked)
    requires Agrees(t) && t.s.c.heap == Fresh(256) && t.pending == map[]
    ensures EndsWith(t, SMALL_LENDS, Lease(2, 64, 64),
                     map[t.base := Lease(1, 0, 10), t.base + 64 := Lease(3, 64, 0)])
  {
    ThreeTracked(t.base);
    AllThreeLends(t);
  }

  /** An empty lend can also take the key of a live lease with bytes: in a fresh arena of 256 bytes lend
      10, 64 and 0 bytes, each aligned to 64. The third lands where the second begins, and no entry
      is left for the second. */
  lemma EmptyLendLosesLiveLease(t: Tracked)
    requires IsFresh(t, 256)
    ensures EndsWith(t, SMALL_LENDS, Lease(2, 64, 64),
                     map[t.base := Lease(1, 0, 10), t.base + 64 := Lease(3, 64, 0)])
  {
    FreshAgrees(t, 256);
    ThirdTakesSecondKey(t);
  }

  // ---------------------------------------------------------------- a late drop

  /** `acts` lead from `t` to `u`. */
  ghost predicate Leads(t: Tracked, acts: seq<Act>, u: Tracked) {
    AllAllowed(t, acts) && RunTracked(t, acts) == u
  }

  lemma LeadsOne(t: Tracked, a: Act)
    requires Allowed(t, a)
    ensures Leads(t, [a], NextTracked(t, a))
  {
    assert [a][1..] == [];
    assert AllAllowed(NextTracked(t, a), []);
  }

  lemma {:induction false} LeadsOn(t: Tracked, a: seq<Act>, u: Tracked, b: seq<Act>, v: Tracked)
    requires Leads(t, a, u) && Leads(u, b, v)
    ensures Leads(t, a + b, v)
    decreases |a|
  {
    if a == [] {
      assert a + b == b;
    } else {
      assert (a + b)[1..] == a[1..] + b;
      LeadsOn(NextTracked(t, a[0]), a[1..], u, b, v);
    }
  }

  lemma LendIsAllowed(t: Tracked, n: nat, align: nat)
    requires n < U32_LIMIT && CanLend(t.s, n, align)
    ensures Allowed(t, LendUpstream(n, align)) && NextTracked(t, LendUpstream(n, align)) == NextLend(t, n, align)
  {
    assert n % U32_LIMIT == n;
  }

  lemma QuietNeedsNoDrops(s: State, n: nat, align: nat)
    requires Quiet(s) && n <= s.c.shm.arenaSize
    ensures DropsNeeded(s.c.heap, s.c.shm.queue, n, align) == 0
  {
    QuiescenceReturnsTheArena(s);
    assert AlignUp(0, Max(align, 1)) == 0 && FitsIn(s.c.heap.free[0], n, align);
  }

  lemma QuietLend(t: Tracked, n: nat, align: nat) returns (u: Tracked, lease: Lease)
    requires Quiet(t.s) && t.pending == map[] && n <= t.s.c.shm.arenaSize && n < U32_LIMIT
    ensures Leads(t, [LendUpstream(n, align)], u) && u.base == t.base && u.pending == map[t.base := lease]
    ensures u.s == NextAllocLease(t.s, n, align) && LeaseOf(t.s.c, n, align) == Some(lease) && IsLeased(u.s, lease)
    ensures CanLend(t.s, n, align) && lease == Lease(t.s.c.heap.nextId, 0, n)
  {
    lease := QuietHasRoom(t.s, n, align);
    assert DropsNeeded(t.s.c.heap, t.s.c.shm.queue, n, align) == 0 by { QuietNeedsNoDrops(t.s, n, align); }
    LendIsAllowed(t, n, align);
    LeadsOne(t, LendUpstream(n, align));
    u := NextLend(t, n, align);
  }

  function PublishLent(base: nat, lease: Lease, payload: seq<Byte>): seq<Act> {
    [LendUpstream(|payload|, 1)]
    + ([Other(Write(lease, 0, payload))] + ([MarkPublished(base, |payload|)] + [Other(PublishLease(lease, 0, 0, 0))]))
  }

  lemma LentRunsToPublish(t: Tracked, l: Tracked, lease: Lease, payload: seq<Byte>) returns (u: Tracked)
    requires Leads(t, [LendUpstream(|payload|, 1)], l) && l.base == t.base && l.pending == map[t.base := lease]
    requires IsLeased(l.s, lease) && lease.len == |payload|
    ensures Leads(t, PublishLent(t.base, lease, payload), u) && u.base == t.base && u.pending == map[]
    ensures u.s == NextPublishLease(NextWrite(l.s, lease, 0, payload), lease, 0, 0, 0)
  {
    var n := |payload|;
    var write, publish := Other(Write(lease, 0, payload)), Other(PublishLease(lease, 0, 0, 0));
    var mark := MarkPublished(t.base, n);
    var w := NextTracked(l, write);
    var m := NextTracked(w, mark);
    u := NextTracked(m, publish);
    assert m == w.(pending := map[]);
    LeadsOne(l, write);
    LeadsOne(w, mark);
    LeadsOne(m, publish);
    LeadsOn(w, [mark], m, [publish], u);
    LeadsOn(l, [write], w, [mark] + [publish], u);
    LeadsOn(t, [LendUpstream(n, 1)], l, [write] + ([mark] + [publish]), u);
  }

  lemma PublishedIsAccounted(s: State, payload: seq<Byte>, lease: Lease)
    requires Accounted(s) && IdIsFresh(s, |payload|, 1) && LeaseOf(s.c, |payload|, 1) == Some(lease)
    ensures var p := NextPublishLease(Filled(s, payload, 1), lease, 0, 0, 0);
            Accounted(p) && SameSizes(s, p)
  {
    FilledHoldsPayload(s, payload, 1);
    PublishLeaseKeepsAccounted(Filled(s, payload, 1), lease, 0, 0, 0);
    RunOfPublishEvents(s, payload, 1, 0, 0, 0, lease);
    RunKeepsSizes(s, PublishEvents(s, payload, 1, 0, 0, 0));
  }

  /** Lend, fill, mark published, publish: one frame queued, no entry left. */
  lemma LentIsPublished(t: Tracked, payload: seq<Byte>) returns (u: Tracked, lease: Lease)
    requires Quiet(t.s) && t.pending == map[] && |payload| <= t.s.c.shm.arenaSize && |payload| < U32_LIMIT
    ensures Leads(t, PublishLent(t.base, lease, payload), u)
    ensures PublishedIntoQuiet(t.s, u.s, lease, payload, 0) && lease.offset == 0
    ensures Accounted(u.s) && u.base == t.base && u.pending == map[] && SameSizes(t.s, u.s)
  {
    var l: Tracked;
    l, lease := QuietLend(t, |payload|, 1);
    u := LentRunsToPublish(t, l, lease, payload);
    var same := PublishFromQuiet(t.s, payload, 1, 0, 0, 0);
    PublishedIsAccounted(t.s, payload, lease);
  }

  function ReturnFrame(desc: ReadyDesc): seq<Act> {
    [Other(Recv)] + ([Other(Recycle(desc))] + [Other(DrainRecycles)])
  }

  /** Receive, return, drain: quiet again. */
  lemma FrameIsReturned(u: Tracked, id: nat) returns (v: Tracked)
    requires Accounted(u.s) && |u.s.c.shm.queue| == 1 && u.s.c.shm.recycled == []
    requires u.s.c.shm.queue[0].bufferId == id && u.s.owner.Keys == {id}
    ensures Leads(u, ReturnFrame(u.s.c.shm.queue[0]), v)
    ensures Quiet(v.s) && v.base == u.base && v.pending == u.pending && SameSizes(u.s, v.s)
  {
    var desc := u.s.c.shm.queue[0];
    ReturnOfOnlyFrame(u.s, id);
    RunOfThree(u.s, Recv, Recycle(desc), DrainRecycles);
    OnlyFrameIsHeld(u.s, id);
    RunKeepsSizes(u.s, [Recv, Recycle(desc), DrainRecycles]);
    var q := NextTracked(u, Other(Recv));
    var r := NextTracked(q, Other(Recycle(desc)));
    v := NextTracked(r, Other(DrainRecycles));
    LeadsOne(u, Other(Recv));
    LeadsOne(q, Other(Recycle(desc)));
    LeadsOne(r, Other(DrainRecycles));
    LeadsOn(q, [Other(Recycle(desc))], r, [Other(DrainRecycles)], v);
    LeadsOn(u, [Other(Recv)], q, [Other(Recycle(desc))] + [Other(DrainRecycles)], v);
  }

  /** Lend, publish, have the frame returned: quiet again, with no entry left. */
  lemma LentAndReturned(t: Tracked, payload: seq<Byte>) returns (v: Tracked, lease: Lease, desc: ReadyDesc)
    requires Quiet(t.s) && t.pending == map[] && |payload| <= t.s.c.shm.arenaSize && |payload| < U32_LIMIT
    ensures Leads(t, PublishLent(t.base, lease, payload) + ReturnFrame(desc), v) && lease.offset == 0
    ensures Quiet(v.s) && v.base == t.base && v.pending == map[] && SameSizes(t.s, v.s)
  {
    var p: Tracked;
    p, lease := LentIsPublished(t, payload);
    desc := p.s.c.shm.queue[0];
    v := FrameIsReturned(p, lease.bufferId);
    LeadsOn(t, PublishLent(t.base, lease, payload), p, ReturnFrame(desc), v);
  }

  lemma ReleaseOfEntry(v: Tracked, ptr: nat)
    requires ptr in v.pending
    ensures var id := v.pending[ptr].bufferId;
            && NextRelease(v, ptr).s.c.heap.used == v.s.c.heap.used - {id}
            && (NextRelease(v, ptr).s.c.heap == v.s.c.heap <==> id !in v.s.c.heap.used)
  {
  }

  lemma LentAgainAndDropped(v: Tracked, n: nat, align: nat) returns (u: Tracked, second: Lease)
    requires Quiet(v.s) && v.pending == map[] && n <= v.s.c.shm.arenaSize && n < U32_LIMIT
    ensures Leads(v, [LendUpstream(n, align)], u) && Leads(u, [Release(v.base)], NextRelease(u, v.base))
    ensures IsLeased(u.s, second) && second.len == n && u.pending == map[v.base := second]
    ensures second.bufferId !in NextRelease(u, v.base).s.c.heap.used
  {
    u, second := QuietLend(v, n, align);
    LeadsOne(u, Release(v.base));
    ReleaseOfEntry(u, v.base);
  }

  lemma LeadsThrice(t: Tracked, a: seq<Act>, v: Tracked, b: Act, u: Tracked, c: Act, w: Tracked)
    requires Leads(t, a, v) && Leads(v, [b], u) && Leads(u, [c], w)
    ensures Leads(t, a + [b], u) && Leads(t, (a + [b]) + [c], w)
  {
    LeadsOn(t, a, v, [b], u);
    LeadsOn(t, a + [b], u, [c], w);
  }

  lemma LateDropFromQuiet(t: Tracked, payload: seq<Byte>, n: nat, align: nat)
    returns (acts: seq<Act>, first: Lease, desc: ReadyDesc, u: Tracked, second: Lease)
    requires Quiet(t.s) && t.pending == map[] && |payload| <= t.s.c.shm.arenaSize < U32_LIMIT
    requires n <= t.s.c.shm.arenaSize
    ensures acts == PublishLent(t.base, first, payload) + ReturnFrame(desc) && first.offset == 0
    ensures Leads(t, acts + [LendUpstream(n, align)], u)
    ensures Leads(t, (acts + [LendUpstream(n, align)]) + [Release(t.base)], NextRelease(u, t.base))
    ensures IsLeased(u.s, second) && second.len == n && u.pending == map[t.base := second]
    ensures second.bufferId !in NextRelease(u, t.base).s.c.heap.used
  {
    var v: Tracked;
    v, first, desc := LentAndReturned(t, payload);
    acts := PublishLent(t.base, first, payload) + ReturnFrame(desc);
    u, second := LentAgainAndDropped(v, n, align);
    LeadsThrice(t, acts, v, LendUpstream(n, align), u, Release(t.base), NextRelease(u, t.base));
  }

  /** A late drop that frees another's lease: lend, publish, have the frame returned, lend again, then
      drop the first memory. The second lease is out when the drop comes, and its block is not live
      after it. */
  lemma LateDropRun(t: Tracked, arenaSize: nat, payload: seq<Byte>, n: nat, align: nat)
    returns (acts: seq<Act>, first: Lease, desc: ReadyDesc, u: Tracked, second: Lease)
    requires IsFresh(t, arenaSize) && |payload| <= arenaSize < U32_LIMIT && n <= arenaSize && arenaSize > 0
    ensures acts == PublishLent(t.base, first, payload) + ReturnFrame(desc) && first.offset == 0
    ensures Leads(t, acts + [LendUpstream(n, align)], u)
    ensures Leads(t, (acts + [LendUpstream(n, align)]) + [Release(t.base)], NextRelease(u, t.base))
    ensures IsLeased(u.s, second) && second.len == n && u.pending == map[t.base := second]
    ensures second.bufferId !in NextRelease(u, t.base).s.c.heap.used
  {
    FreshIsQuiet(t, arenaSize);
    acts, first, desc, u, second := LateDropFromQuiet(t, payload, n, align);
  }

  // ---------------------------------------------------------------- past a reset

  /** A reset leaves the entries in the map, and none of them names a lease any more. */
  lemma ResetForgetsLeases(t: Tracked, ptr: nat)
    requires ptr in t.pending
    ensures var r := NextTracked(t, Other(Reset));
            r.pending == t.pending && !IsLeased(r.s, t.pending[ptr]) && NextRelease(r, ptr).s.c.heap == r.s.c.heap
  {
  }

  /** From then to the next reset, dropping an old entry frees exactly the block that its id has been
      given to meanwhile, if that is live; an id above the number of allocations since the reset has
      been given to none. */
  lemma EntriesAfterReset(t: Tracked, es: seq<Event>, v: Tracked, ptr: nat)
    requires Agrees(t) && ptr in t.pending && AllOwned(Next(t.s, Reset), es)
    requires v == t.(s := Run(Next(t.s, Reset), es))
    ensures var id := t.pending[ptr].bufferId;
            && Accounted(v.s) && NextRelease(v, ptr).s.c.heap.used == v.s.c.heap.used - {id}
            && (NextRelease(v, ptr).s.c.heap == v.s.c.heap <==> id !in v.s.c.heap.used)
            && (v.s.served < U32_LIMIT && v.s.served < id ==> id !in v.s.c.heap.used)
  {
    NextKeepsAccounted(t.s, Reset);
    RunKeepsAccounted(Next(t.s, Reset), es);
    ReleaseOfEntry(v, ptr);
    assert TidyHeap(v.s.c.heap, v.s.c.shm.arenaSize, v.s.served, v.s.positive);
  }

  // ---------------------------------------------------------------- handing over

  /** A mark hands a lease over exactly when the address has an entry of exactly that length. Then it is
      that entry, and only its key goes; otherwise the map stays as it is. */
  lemma HandedOverIff(pending: Pending, ptr: nat, len: nat)
    ensures Marked(pending, ptr, len).Some? <==> ptr in pending && pending[ptr].len == len
    ensures Marked(pending, ptr, len).Some? ==>
              && Marked(pending, ptr, len).value == pending[ptr]
              && (forall p :: p in AfterMark(pending, ptr, len) <==> p in pending && p != ptr)
              && (forall p :: p in AfterMark(pending, ptr, len) ==> AfterMark(pending, ptr, len)[p] == pending[p])
    ensures Marked(pending, ptr, len).None? ==> AfterMark(pending, ptr, len) == pending
  {
  }

  lemma {:induction false} AllowedUpTo(t: Tracked, acts: seq<Act>, i: nat)
    requires AllAllowed(t, acts) && i <= |acts|
    ensures AllAllowed(t, acts[..i])
    decreases |acts|
  {
    if i > 0 {
      assert acts[..i][1..] == acts[1..][..i - 1];
      AllowedUpTo(NextTracked(t, acts[0]), acts[1..], i - 1);
    }
  }

  /** What this mark would hand over is a lease that is out, at the address and of the length asked for,
      and no entry for it would remain. */
  ghost predicate HandsOverWell(u: Tracked, ptr: nat, len: nat) {
    var r, rest := Marked(u.pending, ptr, len), AfterMark(u.pending, ptr, len);
    r.Some? ==>
      && r.value.len == len && u.base + r.value.offset == ptr && IsLeased(u.s, r.value)
      && r.value.bufferId in u.s.c.heap.used && u.s.c.heap.used[r.value.bufferId] == Range(r.value.offset, len)
      && forall p :: p in rest ==> rest[p] != r.value
  }

  lemma HandedOverNow(u: Tracked, ptr: nat, len: nat)
    requires PlacesOk(u.s) && EntriesOk(u.pending, u.base, u.s)
    ensures HandsOverWell(u, ptr, len)
  {
    HandedOverIff(u.pending, ptr, len);
    if Marked(u.pending, ptr, len).Some? { LeasedRange(u.s, u.pending[ptr]); }
  }

  /** So it is with every mark of every run within a generation. */
  lemma HandedOverLeaseIsOut(t: Tracked, acts: seq<Act>, i: nat, ptr: nat, len: nat)
    requires Agrees(t) && AllAllowed(t, acts) && i < |acts| && acts[i] == MarkPublished(ptr, len)
    ensures HandsOverWell(RunTracked(t, acts[..i]), ptr, len)
  {
    AllowedUpTo(t, acts, i);
    TrackerAgrees(t, acts[..i]);
    HandedOverNow(RunTracked(t, acts[..i]), ptr, len);
  }

  /** A lend that is served leaves an entry of exactly the length asked for, if that fits u32, at the
      block's address. */
  lemma LendLeavesEntry(t: Tracked, size: nat, align: nat)
    requires size < U32_LIMIT && LeaseOf(t.s.c, size, align).Some?
    ensures var lease := LeaseOf(t.s.c, size, align).value;
            var u := NextTracked(t, LendUpstream(size, align));
            && lease.len == size && t.base + lease.offset in u.pending && u.pending[t.base + lease.offset] == lease
            && (forall p :: p != t.base + lease.offset ==>
                  (p in u.pending <==> p in t.pending) && (p in u.pending ==> u.pending[p] == t.pending[p]))
  {
    assert size % U32_LIMIT == size;
  }
}
