/** The arena allocator as a value: a free list of (start, length) ranges, a map from buffer id to
    the range it owns, and the next id. The functions say what each operation computes. */
module Heaps {
  import opened Basics

  datatype Range = Range(start: nat, len: nat) {
    function End(): nat { start + len }

    predicate Has(b: nat) { start <= b < End() }

    /** The two ranges share no byte. */
    predicate Apart(r: Range) {
      len == 0 || r.len == 0 || End() <= r.start || r.End() <= start
    }
  }

  datatype Allocation = Allocation(bufferId: nat, offset: nat, len: nat)

  datatype Heap = Heap(free: seq<Range>, used: map<nat, Range>, nextId: nat)

  // ---------------------------------------------------------------- operations

  function AlignUp(v: nat, align: nat): (r: nat)
    ensures v <= r < v + Max(align, 1)
    ensures r % Max(align, 1) == 0
  {
    if align <= 1 then v
    else
      var rem := v % align;
      if rem == 0 then v
      else
        RoundUpIsMultiple(v, align);
        v + (align - rem)
  }

  predicate FitsIn(r: Range, size: nat, align: nat) {
    AlignUp(r.start, Max(align, 1)) + size <= r.End()
  }

  /** Index of the first free range that can hold the request, or the length of the list. */
  function FirstFit(free: seq<Range>, size: nat, align: nat): (i: nat)
    ensures i <= |free|
    ensures forall j :: 0 <= j < i ==> !FitsIn(free[j], size, align)
    ensures i < |free| ==> FitsIn(free[i], size, align)
  {
    if free == [] || FitsIn(free[0], size, align) then 0 else 1 + FirstFit(free[1..], size, align)
  }

  function NonEmpty(r: Range): seq<Range> {
    if r.len > 0 then [r] else []
  }

  /** What is left of `r` once [at, at + size) has been cut out of it. */
  function Cut(r: Range, at: nat, size: nat): seq<Range>
    requires r.start <= at && at + size <= r.End()
  {
    NonEmpty(Range(r.start, at - r.start)) + NonEmpty(Range(at + size, r.End() - (at + size)))
  }

  function Carve(free: seq<Range>, i: nat, at: nat, size: nat): seq<Range>
    requires i < |free| && free[i].start <= at && at + size <= free[i].End()
  {
    free[..i] + Cut(free[i], at, size) + free[i + 1..]
  }

  /** u32 ids: `wrapping_add(1).max(1)`. */
  function NextId(id: nat): nat {
    Max((id + 1) % U32_LIMIT, 1)
  }

  function Fresh(total: nat): Heap {
    Heap([Range(0, total)], map[], 1)
  }

  predicate Fits(h: Heap, size: nat, align: nat) {
    FirstFit(h.free, size, align) < |h.free|
  }

  /** Where first fit places the request. */
  function FitOffset(h: Heap, size: nat, align: nat): nat
    requires Fits(h, size, align)
  {
    AlignUp(h.free[FirstFit(h.free, size, align)].start, Max(align, 1))
  }

  function Allocate(h: Heap, size: nat, align: nat): Heap {
    if !Fits(h, size, align) then h
    else
      var at := FitOffset(h, size, align);
      Heap(Carve(h.free, FirstFit(h.free, size, align), at, size),
           h.used[h.nextId := Range(at, size)],
           NextId(h.nextId))
  }

  function Allocated(h: Heap, size: nat, align: nat): Option<Allocation> {
    if Fits(h, size, align) then Some(Allocation(h.nextId, FitOffset(h, size, align), size)) else None
  }

  /** Stable insertion: behind every leading entry whose start is not greater. */
  function InsertByStart(s: seq<Range>, r: Range): seq<Range> {
    if s == [] || r.start < s[0].start then [r] + s
    else [s[0]] + InsertByStart(s[1..], r)
  }

  /** What a stable sort by start returns. */
  function SortByStart(s: seq<Range>): seq<Range> {
    if s == [] then [] else InsertByStart(SortByStart(s[..|s| - 1]), s[|s| - 1])
  }

  function MergeOne(merged: seq<Range>, r: Range): seq<Range> {
    var n := |merged|;
    if n > 0 && r.start <= merged[n - 1].End() then
      merged[n - 1 := Range(merged[n - 1].start, Max(r.End(), merged[n - 1].End()) - merged[n - 1].start)]
    else merged + [r]
  }

  function MergeAll(merged: seq<Range>, s: seq<Range>): seq<Range>
    decreases |s|
  {
    if s == [] then merged else MergeAll(MergeOne(merged, s[0]), s[1..])
  }

  function Coalesce(free: seq<Range>, r: Range): seq<Range> {
    MergeAll([], SortByStart(free + [r]))
  }

  function Release(h: Heap, id: nat): Heap {
    if id in h.used then Heap(Coalesce(h.free, h.used[id]), h.used - {id}, h.nextId) else h
  }

  /** Releases in order; an id that is not live is ignored. */
  function ReleaseAll(h: Heap, ids: seq<nat>): Heap
    decreases |ids|
  {
    if ids == [] then h else ReleaseAll(Release(h, ids[0]), ids[1..])
  }

  function IdSet(ids: seq<nat>): set<nat> {
    set id | id in ids
  }

  ghost function UsedBytes(used: map<nat, Range>): nat {
    if used == map[] then 0
    else
      var id :| id in used;
      used[id].len + UsedBytes(used - {id})
  }

  function FreeBytes(free: seq<Range>): nat {
    if free == [] then 0 else free[0].len + FreeBytes(free[1..])
  }

  // ---------------------------------------------------------------- what a heap should look like

  ghost predicate Covers(free: seq<Range>, b: nat) {
    exists r :: r in free && r.Has(b)
  }

  ghost predicate Taken(used: map<nat, Range>, b: nat) {
    exists id :: id in used && used[id].Has(b)
  }

  ghost predicate Within(free: seq<Range>, total: nat) {
    forall r :: r in free ==> r.End() <= total
  }

  ghost predicate UsedWithin(used: map<nat, Range>, total: nat) {
    forall id :: id in used ==> used[id].End() <= total
  }

  /** Every range the heap mentions lies inside the arena. */
  ghost predicate Bounded(h: Heap, total: nat) {
    Within(h.free, total) && UsedWithin(h.used, total)
  }

  ghost predicate Ordered(free: seq<Range>) {
    forall i, j :: 0 <= i < j < |free| ==> free[i].End() <= free[j].start
  }

  ghost predicate StartSorted(s: seq<Range>) {
    forall i, j :: 0 <= i < j < |s| ==> s[i].start <= s[j].start
  }

  /** Sorted, and no two entries touch. */
  ghost predicate StrictGaps(free: seq<Range>) {
    forall i, j :: 0 <= i < j < |free| ==> free[i].End() < free[j].start
  }

  ghost predicate NoEmpty(free: seq<Range>) {
    forall r :: r in free ==> r.len > 0
  }

  ghost predicate Canonical(free: seq<Range>) {
    StrictGaps(free) && NoEmpty(free)
  }

  ghost predicate UsedApart(used: map<nat, Range>) {
    forall i, j :: i in used && j in used && i != j ==> used[i].Apart(used[j])
  }

  ghost predicate UsedPositive(used: map<nat, Range>) {
    forall id :: id in used ==> used[id].len > 0
  }

  /** Free and used ranges tile [0, total): no overlap, no byte missing. */
  ghost predicate Tiled(h: Heap, total: nat) {
    && Bounded(h, total)
    && Ordered(h.free)
    && UsedApart(h.used)
    && forall b: nat :: b < total ==> (Covers(h.free, b) <==> !Taken(h.used, b))
  }

  ghost predicate Conserved(h: Heap, total: nat) {
    UsedBytes(h.used) + FreeBytes(h.free) == total
  }

  /** After k allocations ids 1..k have been handed out, and k + 1 comes next until u32 runs out. */
  ghost predicate IdsUpTo(h: Heap, k: nat) {
    && (forall id :: id in h.used ==> 1 <= id <= k)
    && h.nextId == if k == U32_LIMIT - 1 then 1 else k + 1
  }

  /** `size` bytes at the aligned offset `o` lie in the arena and touch no used range. */
  ghost predicate Hole(used: map<nat, Range>, total: nat, size: nat, align: nat, o: nat) {
    && o % Max(align, 1) == 0
    && o + size <= total
    && forall id :: id in used ==> used[id].Apart(Range(o, size))
  }
}
