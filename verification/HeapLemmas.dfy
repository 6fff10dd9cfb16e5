/** What first fit and coalescing promise: tiling, conservation, completeness, canonical form. */
module HeapLemmas {
  import opened Basics
  import opened Heaps

  /** No multiple of `align` lies between `v` and what AlignUp returns. */
  lemma AlignUpIsLeast(v: nat, align: nat, m: nat)
    requires align > 0 && v <= m && m % align == 0
    ensures AlignUp(v, align) <= m
  {
    if m < AlignUp(v, align) {
      MultiplesApart(m, AlignUp(v, align), align);
    }
  }

  // ---------------------------------------------------------------- sorting and merging

  lemma {:induction false} InsertFacts(s: seq<Range>, r: Range)
    requires StartSorted(s)
    ensures var t := InsertByStart(s, r);
            && t != [] && t[0] == (if s == [] || r.start < s[0].start then r else s[0])
            && (forall x :: x in t <==> x in s || x == r)
            && StartSorted(t)
            && FreeBytes(t) == FreeBytes(s) + r.len
  {
    if s == [] || r.start < s[0].start {
      assert ([r] + s)[1..] == s;
    } else {
      InsertFacts(s[1..], r);
      var t := InsertByStart(s[1..], r);
      assert ([s[0]] + t)[1..] == t;
      assert s == [s[0]] + s[1..];
    }
  }

  lemma {:induction false} InsertAtEnd(s: seq<Range>, r: Range)
    requires forall x :: x in s ==> x.start <= r.start
    ensures InsertByStart(s, r) == s + [r]
  {
    if s != [] {
      InsertAtEnd(s[1..], r);
      assert s + [r] == [s[0]] + (s[1..] + [r]);
    }
  }

  lemma {:induction false} SortOfSorted(s: seq<Range>)
    requires StartSorted(s)
    ensures SortByStart(s) == s
  {
    if s != [] {
      SortOfSorted(s[..|s| - 1]);
      InsertAtEnd(s[..|s| - 1], s[|s| - 1]);
      assert s == s[..|s| - 1] + [s[|s| - 1]];
    }
  }

  lemma SortAppended(free: seq<Range>, r: Range)
    requires StartSorted(free)
    ensures SortByStart(free + [r]) == InsertByStart(free, r)
  {
    SortOfSorted(free);
    assert (free + [r])[..|free|] == free;
  }

  lemma MergeOneFacts(merged: seq<Range>, r: Range)
    requires StrictGaps(merged)
    requires merged != [] ==> merged[|merged| - 1].start <= r.start
    ensures var m := MergeOne(merged, r);
            && m != [] && StrictGaps(m) && m[|m| - 1].start <= r.start
            && (NoEmpty(merged) && r.len > 0 ==> NoEmpty(m))
  {
    var n := |merged|;
    var m := MergeOne(merged, r);
    if n > 0 && r.start <= merged[n - 1].End() {
      assert m[..n - 1] == merged[..n - 1];
      assert merged[n - 1] in merged;
      assert forall x :: x in m ==> x in merged[..n - 1] || x == m[n - 1];
      assert forall x :: x in merged[..n - 1] ==> x in merged;
    }
  }

  lemma CoversLast(s: seq<Range>, b: nat)
    requires s != []
    ensures Covers(s, b) <==> Covers(s[..|s| - 1], b) || s[|s| - 1].Has(b)
  {
    assert s == s[..|s| - 1] + [s[|s| - 1]];
  }

  lemma MergeOneCovers(merged: seq<Range>, r: Range, b: nat)
    requires merged != [] ==> merged[|merged| - 1].start <= r.start
    ensures Covers(MergeOne(merged, r), b) <==> Covers(merged, b) || r.Has(b)
  {
    var n := |merged|;
    var m := MergeOne(merged, r);
    if n > 0 && r.start <= merged[n - 1].End() {
      CoversLast(m, b);
      CoversLast(merged, b);
      assert m[..n - 1] == merged[..n - 1];
    } else {
      CoversLast(m, b);
      assert m[..n] == merged;
    }
  }

  lemma MergeOneWithin(merged: seq<Range>, r: Range, total: nat)
    requires Within(merged, total) && r.End() <= total
    ensures Within(MergeOne(merged, r), total)
  {
  }

  lemma {:induction false} MergeFacts(merged: seq<Range>, s: seq<Range>)
    requires StrictGaps(merged) && StartSorted(s)
    requires merged != [] && s != [] ==> merged[|merged| - 1].start <= s[0].start
    ensures StrictGaps(MergeAll(merged, s))
    ensures NoEmpty(merged) && NoEmpty(s) ==> NoEmpty(MergeAll(merged, s))
    decreases |s|
  {
    if s != [] {
      MergeOneFacts(merged, s[0]);
      MergeFacts(MergeOne(merged, s[0]), s[1..]);
    }
  }

  lemma {:induction false} MergeCovers(merged: seq<Range>, s: seq<Range>, b: nat)
    requires StrictGaps(merged) && StartSorted(s)
    requires merged != [] && s != [] ==> merged[|merged| - 1].start <= s[0].start
    ensures Covers(MergeAll(merged, s), b) <==> Covers(merged, b) || Covers(s, b)
    decreases |s|
  {
    if s != [] {
      MergeOneFacts(merged, s[0]);
      MergeOneCovers(merged, s[0], b);
      MergeCovers(MergeOne(merged, s[0]), s[1..], b);
      assert s == [s[0]] + s[1..];
    }
  }

  lemma {:induction false} MergeWithin(merged: seq<Range>, s: seq<Range>, total: nat)
    requires Within(merged, total) && Within(s, total)
    ensures Within(MergeAll(merged, s), total)
    decreases |s|
  {
    if s != [] {
      MergeOneWithin(merged, s[0], total);
      MergeWithin(MergeOne(merged, s[0]), s[1..], total);
    }
  }

  /** A list sorted by start whose non-empty entries do not overlap what precedes them. */
  ghost predicate Stacked(s: seq<Range>) {
    forall i, j :: 0 <= i < j < |s| ==> s[i].End() <= s[j].start || s[j].len == 0
  }

  lemma {:induction false} BytesLast(s: seq<Range>)
    requires s != []
    ensures FreeBytes(s) == FreeBytes(s[..|s| - 1]) + s[|s| - 1].len
  {
    if |s| > 1 {
      BytesLast(s[1..]);
      assert s[1..][..|s| - 2] == s[..|s| - 1][1..];
    }
  }

  lemma {:induction false} MergeBytes(merged: seq<Range>, s: seq<Range>)
    requires StartSorted(s) && Stacked(s)
    requires merged != [] ==> forall j :: 0 <= j < |s| ==> merged[|merged| - 1].End() <= s[j].start || s[j].len == 0
    ensures FreeBytes(MergeAll(merged, s)) == FreeBytes(merged) + FreeBytes(s)
    decreases |s|
  {
    if s != [] {
      var n := |merged|;
      var m := MergeOne(merged, s[0]);
      BytesLast(m);
      if n > 0 && s[0].start <= merged[n - 1].End() {
        BytesLast(merged);
        assert m[..n - 1] == merged[..n - 1];
      } else {
        assert m[..n] == merged;
      }
      MergeBytes(m, s[1..]);
    }
  }

  lemma OrderedIsSorted(free: seq<Range>)
    requires Ordered(free)
    ensures StartSorted(free)
  {
    forall i, j | 0 <= i < j < |free|
      ensures free[i].start <= free[j].start
    {
      assert free[i].End() <= free[j].start;
    }
  }

  /** Giving a range back always leaves a list without touching entries, whatever the sizes. */
  lemma CoalesceFacts(free: seq<Range>, r: Range)
    requires Ordered(free)
    ensures StrictGaps(Coalesce(free, r))
    ensures NoEmpty(free) && r.len > 0 ==> NoEmpty(Coalesce(free, r))
  {
    OrderedIsSorted(free);
    SortAppended(free, r);
    InsertFacts(free, r);
    MergeFacts([], InsertByStart(free, r));
  }

  lemma CoalesceCovers(free: seq<Range>, r: Range, b: nat)
    requires Ordered(free)
    ensures Covers(Coalesce(free, r), b) <==> Covers(free, b) || r.Has(b)
  {
    OrderedIsSorted(free);
    SortAppended(free, r);
    InsertFacts(free, r);
    MergeCovers([], InsertByStart(free, r), b);
  }

  lemma {:induction false} InsertMembers(s: seq<Range>, r: Range)
    ensures forall x :: x in InsertByStart(s, r) <==> x in s || x == r
  {
    if s != [] && s[0].start <= r.start {
      InsertMembers(s[1..], r);
      assert s == [s[0]] + s[1..];
    }
  }

  lemma {:induction false} SortMembers(s: seq<Range>)
    ensures forall x :: x in SortByStart(s) <==> x in s
  {
    if s != [] {
      SortMembers(s[..|s| - 1]);
      InsertMembers(SortByStart(s[..|s| - 1]), s[|s| - 1]);
      assert s == s[..|s| - 1] + [s[|s| - 1]];
    }
  }

  lemma CoalesceWithin(free: seq<Range>, r: Range, total: nat)
    requires Within(free, total) && r.End() <= total
    ensures Within(Coalesce(free, r), total)
  {
    SortMembers(free + [r]);
    MergeWithin([], SortByStart(free + [r]), total);
  }

  lemma StackedOnto(r: Range, t: seq<Range>)
    requires Stacked(t) && forall x :: x in t ==> r.End() <= x.start || x.len == 0
    ensures Stacked([r] + t)
  {
  }

  lemma {:induction false} InsertStacked(s: seq<Range>, r: Range)
    requires Ordered(s)
    requires forall x :: x in s ==> x.Apart(r)
    ensures Stacked(InsertByStart(s, r))
  {
    if s == [] {
    } else if r.start < s[0].start {
      forall j | 0 <= j < |s|
        ensures r.End() <= s[j].start || s[j].len == 0
      {
        assert s[j] in s;
      }
    } else {
      var t := InsertByStart(s[1..], r);
      assert forall x :: x in s[1..] ==> x in s;
      InsertStacked(s[1..], r);
      InsertMembers(s[1..], r);
      assert s[0] in s;
      StackedOnto(s[0], t);
    }
  }

  lemma CoalesceBytes(free: seq<Range>, r: Range)
    requires Ordered(free) && forall x :: x in free ==> x.Apart(r)
    ensures FreeBytes(Coalesce(free, r)) == FreeBytes(free) + r.len
  {
    OrderedIsSorted(free);
    SortAppended(free, r);
    InsertFacts(free, r);
    InsertStacked(free, r);
    MergeBytes([], InsertByStart(free, r));
  }

  // ---------------------------------------------------------------- sums over the used map

  lemma {:induction false} UsedBytesSplit(used: map<nat, Range>, id: nat)
    requires id in used
    ensures UsedBytes(used) == used[id].len + UsedBytes(used - {id})
  {
    var k :| k in used && UsedBytes(used) == used[k].len + UsedBytes(used - {k});
    if k != id {
      UsedBytesSplit(used - {k}, id);
      UsedBytesSplit(used - {id}, k);
      assert used - {k} - {id} == used - {id} - {k};
    }
  }

  // ---------------------------------------------------------------- carving a free range

  lemma OrderedConcat(a: seq<Range>, b: seq<Range>)
    requires Ordered(a) && Ordered(b)
    requires forall x, y :: x in a && y in b ==> x.End() <= y.start
    ensures Ordered(a + b)
  {
    forall i, j | 0 <= i < j < |a + b|
      ensures (a + b)[i].End() <= (a + b)[j].start
    {
      if i < |a| <= j { assert a[i] in a && b[j - |a|] in b; }
    }
  }

  lemma StrictGapsConcat(a: seq<Range>, b: seq<Range>)
    requires StrictGaps(a) && StrictGaps(b)
    requires forall x, y :: x in a && y in b ==> x.End() < y.start
    ensures StrictGaps(a + b)
  {
    forall i, j | 0 <= i < j < |a + b|
      ensures (a + b)[i].End() < (a + b)[j].start
    {
      if i < |a| <= j { assert a[i] in a && b[j - |a|] in b; }
    }
  }

  lemma {:induction false} BytesConcat(a: seq<Range>, b: seq<Range>)
    ensures FreeBytes(a + b) == FreeBytes(a) + FreeBytes(b)
  {
    if a == [] {
      assert a + b == b;
    } else {
      BytesConcat(a[1..], b);
      assert (a + b)[1..] == a[1..] + b;
    }
  }

  lemma CarveOrdered(free: seq<Range>, i: nat, at: nat, size: nat)
    requires i < |free| && free[i].start <= at && at + size <= free[i].End()
    requires Ordered(free)
    ensures Ordered(Carve(free, i, at, size))
  {
    OrderedConcat(free[..i], Cut(free[i], at, size));
    OrderedConcat(free[..i] + Cut(free[i], at, size), free[i + 1..]);
  }

  lemma Neighbours(free: seq<Range>, i: nat)
    requires i < |free| && StrictGaps(free)
    ensures StrictGaps(free[..i]) && StrictGaps(free[i + 1..])
    ensures forall x :: x in free[..i] ==> x.End() < free[i].start
    ensures forall x :: x in free[i + 1..] ==> free[i].End() < x.start
    ensures NoEmpty(free) ==> NoEmpty(free[..i]) && NoEmpty(free[i + 1..])
  {
  }

  lemma BytesOfNonEmpty(r: Range)
    ensures FreeBytes(NonEmpty(r)) == r.len
  {
  }

  lemma CutFacts(r: Range, at: nat, size: nat)
    requires r.start <= at && at + size <= r.End()
    ensures forall x :: x in Cut(r, at, size) ==> r.start <= x.start && x.End() <= r.End() && x.len > 0
    ensures FreeBytes(Cut(r, at, size)) + size == r.len
  {
    BytesConcat(NonEmpty(Range(r.start, at - r.start)), NonEmpty(Range(at + size, r.End() - (at + size))));
    BytesOfNonEmpty(Range(r.start, at - r.start));
    BytesOfNonEmpty(Range(at + size, r.End() - (at + size)));
  }

  lemma CarveCanonical(free: seq<Range>, i: nat, at: nat, size: nat)
    requires i < |free| && free[i].start <= at && at + size <= free[i].End()
    requires StrictGaps(free)
    requires size > 0 || free[i].start == at || at == free[i].End()
    ensures StrictGaps(Carve(free, i, at, size))
    ensures NoEmpty(free) ==> NoEmpty(Carve(free, i, at, size))
  {
    var r := free[i];
    Neighbours(free, i);
    CutFacts(r, at, size);
    assert StrictGaps(Cut(r, at, size));
    StrictGapsConcat(free[..i], Cut(r, at, size));
    StrictGapsConcat(free[..i] + Cut(free[i], at, size), free[i + 1..]);
  }

  lemma CoversConcat(a: seq<Range>, c: seq<Range>, b: nat)
    ensures Covers(a + c, b) <==> Covers(a, b) || Covers(c, b)
  {
  }

  lemma CutCovers(r: Range, at: nat, size: nat, b: nat)
    requires r.start <= at && at + size <= r.End()
    ensures Covers(Cut(r, at, size), b) <==> r.Has(b) && !Range(at, size).Has(b)
  {
    var left, right := Range(r.start, at - r.start), Range(at + size, r.End() - (at + size));
    if left.Has(b) { assert left in Cut(r, at, size); }
    if right.Has(b) { assert right in Cut(r, at, size); }
  }

  lemma CoversAround(free: seq<Range>, i: nat, b: nat)
    requires i < |free|
    ensures Covers(free, b) <==> Covers(free[..i], b) || free[i].Has(b) || Covers(free[i + 1..], b)
  {
    assert free == free[..i] + ([free[i]] + free[i + 1..]);
    CoversConcat(free[..i], [free[i]] + free[i + 1..], b);
    CoversConcat([free[i]], free[i + 1..], b);
    assert free[i] in [free[i]];
  }

  lemma OthersMiss(free: seq<Range>, i: nat, b: nat)
    requires Ordered(free) && i < |free| && free[i].Has(b)
    ensures !Covers(free[..i], b) && !Covers(free[i + 1..], b)
  {
    forall x | x in free[..i] || x in free[i + 1..]
      ensures !x.Has(b)
    {
      var k :| 0 <= k < |free| && k != i && free[k] == x;
      assert k < i ==> x.End() <= free[i].start;
      assert i < k ==> free[i].End() <= x.start;
    }
  }

  lemma CarveCovers(free: seq<Range>, i: nat, at: nat, size: nat, b: nat)
    requires i < |free| && free[i].start <= at && at + size <= free[i].End()
    requires Ordered(free)
    ensures Covers(Carve(free, i, at, size), b) <==> Covers(free, b) && !Range(at, size).Has(b)
  {
    var r := free[i];
    CutCovers(r, at, size, b);
    CoversConcat(free[..i], Cut(r, at, size), b);
    CoversConcat(free[..i] + Cut(r, at, size), free[i + 1..], b);
    CoversAround(free, i, b);
    if r.Has(b) { OthersMiss(free, i, b); }
  }

  lemma BytesAround(free: seq<Range>, i: nat)
    requires i < |free|
    ensures FreeBytes(free) == FreeBytes(free[..i]) + free[i].len + FreeBytes(free[i + 1..])
  {
    assert free == free[..i] + free[i..];
    BytesConcat(free[..i], free[i..]);
    assert free[i..][1..] == free[i + 1..];
  }

  lemma CarveBytes(free: seq<Range>, i: nat, at: nat, size: nat)
    requires i < |free| && free[i].start <= at && at + size <= free[i].End()
    ensures FreeBytes(Carve(free, i, at, size)) + size == FreeBytes(free)
  {
    var r := free[i];
    CutFacts(r, at, size);
    BytesConcat(free[..i], Cut(r, at, size));
    BytesConcat(free[..i] + Cut(r, at, size), free[i + 1..]);
    BytesAround(free, i);
  }

  // ---------------------------------------------------------------- what every operation keeps

  /** The block handed out is free: it lies in one free range, inside the arena, apart from every used range. */
  lemma PlaceIsHole(h: Heap, total: nat, size: nat, align: nat)
    requires Tiled(h, total) && Fits(h, size, align)
    ensures Hole(h.used, total, size, align, FitOffset(h, size, align))
  {
    var i, at := FirstFit(h.free, size, align), FitOffset(h, size, align);
    assert h.free[i] in h.free;
    forall id | id in h.used
      ensures h.used[id].Apart(Range(at, size))
    {
      var u := h.used[id];
      if !u.Apart(Range(at, size)) {
        var b := Max(u.start, at);
        assert u.Has(b) && h.free[i].Has(b);
        assert Covers(h.free, b) && Taken(h.used, b);
      }
    }
  }

  lemma FreshBounded(total: nat)
    ensures Bounded(Fresh(total), total)
  {
  }

  lemma LeaseInArena(h: Heap, total: nat, size: nat, align: nat)
    requires Bounded(h, total) && Fits(h, size, align)
    ensures FitOffset(h, size, align) + size <= total
  {
    assert h.free[FirstFit(h.free, size, align)] in h.free;
  }

  lemma TakenAfterInsert(used: map<nat, Range>, id: nat, r: Range, b: nat)
    requires id !in used
    ensures Taken(used[id := r], b) <==> Taken(used, b) || r.Has(b)
  {
    var u := used[id := r];
    if Taken(used, b) {
      var k :| k in used && used[k].Has(b);
      assert u[k].Has(b);
    }
    if r.Has(b) { assert u[id].Has(b); }
  }

  /** Bounds need no freshness of ids and no tiling: they survive any sequence of operations. */
  lemma OperationsKeepBounds(h: Heap, total: nat, size: nat, align: nat, id: nat)
    requires Bounded(h, total)
    ensures Bounded(Allocate(h, size, align), total)
    ensures Bounded(Release(h, id), total)
  {
    if Fits(h, size, align) {
      var i, at := FirstFit(h.free, size, align), FitOffset(h, size, align);
      assert h.free[i] in h.free;
      var c := Carve(h.free, i, at, size);
      forall x | x in c
        ensures x.End() <= total
      {
        if x in h.free[..i] || x in h.free[i + 1..] { assert x in h.free; }
      }
    }
    if id in h.used { CoalesceWithin(h.free, h.used[id], total); }
  }

  lemma AllocateKeepsTiling(h: Heap, total: nat, size: nat, align: nat)
    requires Tiled(h, total)
    requires h.nextId !in h.used
    ensures Tiled(Allocate(h, size, align), total)
  {
    if Fits(h, size, align) {
      var i, at := FirstFit(h.free, size, align), FitOffset(h, size, align);
      var g := Allocate(h, size, align);
      PlaceIsHole(h, total, size, align);
      CarveOrdered(h.free, i, at, size);
      OperationsKeepBounds(h, total, size, align, 0);
      forall b: nat | b < total
        ensures Covers(g.free, b) <==> !Taken(g.used, b)
      {
        CarveCovers(h.free, i, at, size, b);
        TakenAfterInsert(h.used, h.nextId, Range(at, size), b);
      }
    }
  }

  lemma TakenAfterRemove(used: map<nat, Range>, id: nat, b: nat)
    requires id in used && UsedApart(used)
    ensures Taken(used - {id}, b) <==> Taken(used, b) && !used[id].Has(b)
  {
    var u := used - {id};
    if Taken(used, b) && !used[id].Has(b) {
      var k :| k in used && used[k].Has(b);
      assert u[k].Has(b);
    }
    if Taken(u, b) {
      var k :| k in u && u[k].Has(b);
      assert used[k].Apart(used[id]);
    }
  }

  lemma ReleaseKeepsTiling(h: Heap, total: nat, id: nat)
    requires Tiled(h, total)
    ensures Tiled(Release(h, id), total)
    ensures id in h.used ==> StrictGaps(Release(h, id).free)
  {
    if id in h.used {
      var r, g := h.used[id], Release(h, id);
      CoalesceFacts(h.free, r);
      CoalesceWithin(h.free, r, total);
      forall b: nat | b < total
        ensures Covers(g.free, b) <==> !Taken(g.used, b)
      {
        CoalesceCovers(h.free, r, b);
        TakenAfterRemove(h.used, id, b);
        if r.Has(b) { assert Taken(h.used, b); }
      }
    }
  }

  /** Bytes are conserved: what an operation moves between the free list and the used map adds up. */
  lemma AllocateConserves(h: Heap, total: nat, size: nat, align: nat)
    requires Conserved(h, total) && h.nextId !in h.used
    ensures Conserved(Allocate(h, size, align), total)
  {
    if Fits(h, size, align) {
      var i, at := FirstFit(h.free, size, align), FitOffset(h, size, align);
      CarveBytes(h.free, i, at, size);
      UsedBytesSplit(h.used[h.nextId := Range(at, size)], h.nextId);
      assert h.used[h.nextId := Range(at, size)] - {h.nextId} == h.used;
    }
  }

  lemma ReleaseConserves(h: Heap, total: nat, id: nat)
    requires Tiled(h, total) && Conserved(h, total)
    ensures Conserved(Release(h, id), total)
  {
    if id in h.used {
      var r := h.used[id];
      forall x | x in h.free
        ensures x.Apart(r)
      {
        if !x.Apart(r) {
          var b := Max(x.start, r.start);
          assert Covers(h.free, b) && Taken(h.used, b);
        }
      }
      CoalesceBytes(h.free, r);
      UsedBytesSplit(h.used, id);
    }
  }

  // ---------------------------------------------------------------- the exact edges of the invariants

  /** Tiling survives an allocation exactly when the id counter has not come round to an id that
      still owns bytes: the insert would otherwise forget that block. */
  lemma AllocateTilesIff(h: Heap, total: nat, size: nat, align: nat)
    requires Tiled(h, total)
    ensures Tiled(Allocate(h, size, align), total)
       <==> !Fits(h, size, align) || h.nextId !in h.used || h.used[h.nextId].len == 0
  {
    var id := h.nextId;
    if Fits(h, size, align) && id in h.used {
      var g := Allocate(h, size, align);
      if h.used[id].len == 0 {
        var h0 := h.(used := h.used - {id});
        forall b: nat | b < total
          ensures Covers(h0.free, b) <==> !Taken(h0.used, b)
        {
          TakenAfterRemove(h.used, id, b);
        }
        AllocateKeepsTiling(h0, total, size, align);
        assert h0.used[id := Range(FitOffset(h, size, align), size)] == g.used;
      } else {
        var b := h.used[id].start;
        var i, at := FirstFit(h.free, size, align), FitOffset(h, size, align);
        PlaceIsHole(h, total, size, align);
        assert h.used[id].Has(b) && Taken(h.used, b);
        CarveCovers(h.free, i, at, size, b);
        forall k | k in g.used
          ensures !g.used[k].Has(b)
        {
          if k != id { assert h.used[k].Apart(h.used[id]); }
        }
        assert !Covers(g.free, b) && !Taken(g.used, b);
      }
    } else if Fits(h, size, align) {
      AllocateKeepsTiling(h, total, size, align);
    }
  }

  /** The canonical form survives an allocation exactly when the allocation does not cut a free
      range in two at an empty block. Every positive size passes. */
  lemma AllocateCanonicalIff(h: Heap, size: nat, align: nat)
    requires Canonical(h.free)
    ensures Canonical(Allocate(h, size, align).free)
       <==> (Fits(h, size, align) && size == 0 ==>
               var r := h.free[FirstFit(h.free, size, align)];
               var at := FitOffset(h, size, align);
               at == r.start || at == r.End())
  {
    if Fits(h, size, align) {
      var i, at := FirstFit(h.free, size, align), FitOffset(h, size, align);
      var r := h.free[i];
      if size > 0 || at == r.start || at == r.End() {
        CarveCanonical(h.free, i, at, size);
      } else {
        var c := Carve(h.free, i, at, size);
        assert c[i] == Range(r.start, at - r.start) && c[i + 1] == Range(at, r.End() - at);
      }
    }
  }

  lemma NoRoomForSixty()
    ensures var h := Heap([Range(10, 54), Range(64, 36)], map[1 := Range(0, 10), 2 := Range(64, 0)], 3);
            Hole(h.used, 100, 60, 1, 10) && !Fits(h, 60, 1)
  {
    var free := [Range(10, 54), Range(64, 36)];
    assert !FitsIn(free[0], 60, 1) && !FitsIn(free[1], 60, 1);
  }

  lemma FitsAt(h: Heap, size: nat, align: nat, i: nat)
    requires i < |h.free| && FitsIn(h.free[i], size, align)
    requires forall j :: 0 <= j < i ==> !FitsIn(h.free[j], size, align)
    ensures FirstFit(h.free, size, align) == i
  {
  }

  lemma EmptyBlockHeap()
    ensures Allocate(Fresh(100), 10, 1) == Heap([Range(10, 90)], map[1 := Range(0, 10)], 2)
    ensures Allocate(Allocate(Fresh(100), 10, 1), 0, 64)
         == Heap([Range(10, 54), Range(64, 36)], map[1 := Range(0, 10), 2 := Range(64, 0)], 3)
  {
    FitsAt(Fresh(100), 10, 1, 0);
    var h1 := Heap([Range(10, 90)], map[1 := Range(0, 10)], 2);
    assert Allocate(Fresh(100), 10, 1) == h1;
    FitsAt(h1, 0, 64, 0);
    assert Carve(h1.free, 0, 64, 0) == [Range(10, 54), Range(64, 36)];
  }

  lemma FreshIsTiled(total: nat)
    ensures Tiled(Fresh(total), total) && Conserved(Fresh(total), total)
    ensures total > 0 ==> Canonical(Fresh(total).free)
  {
    var f := Fresh(total);
    forall b: nat | b < total
      ensures Covers(f.free, b)
    {
      assert f.free[0].Has(b);
    }
    BytesLast(f.free);
  }

  /** A zero-length request can leave two touching entries, and then 90 consecutive free bytes
      do not serve a request for 60. AllocateCompleteIff gives the whole family. */
  lemma EmptyBlockBreaksCompleteness()
    ensures var h := Allocate(Allocate(Fresh(100), 10, 1), 0, 64);
            Tiled(h, 100) && Hole(h.used, 100, 60, 1, 10) && Allocated(h, 60, 1).None?
  {
    EmptyBlockHeap();
    var h := Allocate(Allocate(Fresh(100), 10, 1), 0, 64);
    assert Tiled(h, 100) by {
      FreshIsTiled(100);
      AllocateKeepsTiling(Fresh(100), 100, 10, 1);
      AllocateKeepsTiling(Allocate(Fresh(100), 10, 1), 100, 0, 64);
    }
    NoRoomForSixty();
  }

  // ---------------------------------------------------------------- completeness and canonical form

  lemma EndIsNotCovered(free: seq<Range>, i: nat)
    requires StrictGaps(free) && i < |free|
    ensures !Covers(free, free[i].End())
  {
    forall x | x in free
      ensures !x.Has(free[i].End())
    {
      var k :| 0 <= k < |free| && free[k] == x;
      assert k < i ==> x.End() < free[i].start;
      assert i < k ==> free[i].End() < x.start;
    }
  }

  lemma FreeByte(h: Heap, total: nat, o: nat, size: nat, b: nat)
    requires Tiled(h, total) && o + size <= total && o <= b < o + size
    requires forall id :: id in h.used ==> h.used[id].Apart(Range(o, size))
    ensures Covers(h.free, b)
  {
    forall id | id in h.used
      ensures !h.used[id].Has(b)
    {
      assert h.used[id].Apart(Range(o, size));
    }
  }

  /** Without touching entries, a run of free bytes lies inside one entry. */
  lemma FreeRunInOneEntry(h: Heap, total: nat, o: nat, size: nat) returns (i: nat)
    requires Tiled(h, total) && StrictGaps(h.free)
    requires size > 0 && o + size <= total
    requires forall id :: id in h.used ==> h.used[id].Apart(Range(o, size))
    ensures i < |h.free| && h.free[i].start <= o && o + size <= h.free[i].End()
  {
    FreeByte(h, total, o, size, o);
    var r :| r in h.free && r.Has(o);
    i :| 0 <= i < |h.free| && h.free[i] == r;
    EndIsNotCovered(h.free, i);
    if r.End() < o + size { FreeByte(h, total, o, size, r.End()); }
  }

  /** First fit is complete and lowest-first: it fails only when no aligned hole exists anywhere in
      the arena, and otherwise returns the lowest one. */
  lemma AllocateLowest(h: Heap, total: nat, size: nat, align: nat)
    requires Tiled(h, total) && StrictGaps(h.free) && size > 0
    ensures Fits(h, size, align) <==> exists o :: Hole(h.used, total, size, align, o)
    ensures Fits(h, size, align) ==>
              && Hole(h.used, total, size, align, FitOffset(h, size, align))
              && forall o :: Hole(h.used, total, size, align, o) ==> FitOffset(h, size, align) <= o
  {
    var i := FirstFit(h.free, size, align);
    if Fits(h, size, align) { PlaceIsHole(h, total, size, align); }
    forall o | Hole(h.used, total, size, align, o)
      ensures Fits(h, size, align) && FitOffset(h, size, align) <= o
    {
      var k := FreeRunInOneEntry(h, total, o, size);
      AlignUpIsLeast(h.free[k].start, Max(align, 1), o);
      assert FitsIn(h.free[k], size, align);
      if i < k { assert h.free[i].End() < h.free[k].start; }
    }
  }

  /** The request is served exactly when an aligned hole exists, and then from the lowest one. */
  ghost predicate ServesLowest(h: Heap, total: nat, size: nat, align: nat) {
    && (Fits(h, size, align) <==> exists o :: Hole(h.used, total, size, align, o))
    && (Fits(h, size, align) ==>
          && Hole(h.used, total, size, align, FitOffset(h, size, align))
          && forall o :: Hole(h.used, total, size, align, o) ==> FitOffset(h, size, align) <= o)
  }

  ghost predicate Complete(h: Heap, total: nat) {
    forall size: nat, align: nat :: size > 0 ==> ServesLowest(h, total, size, align)
  }

  /** The allocation cuts a free range in two at an empty block. */
  predicate CutsAtEmptyBlock(h: Heap, size: nat, align: nat) {
    Fits(h, size, align) && size == 0
    && var r := h.free[FirstFit(h.free, size, align)];
       FitOffset(h, size, align) != r.start && FitOffset(h, size, align) != r.End()
  }

  lemma StartIsMultiple(x: nat)
    ensures x % Max(x, 1) == 0
  {
  }

  lemma FreeEntryIsApart(h: Heap, total: nat, r: Range)
    requires Tiled(h, total) && r in h.free
    ensures forall id :: id in h.used ==> h.used[id].Apart(r)
  {
    forall id | id in h.used
      ensures h.used[id].Apart(r)
    {
      if !h.used[id].Apart(r) {
        var b := Max(h.used[id].start, r.start);
        assert Covers(h.free, b) && Taken(h.used, b);
      }
    }
  }

  lemma EntriesAfterCut(h: Heap, align: nat, k: nat)
    requires StrictGaps(h.free) && CutsAtEmptyBlock(h, 0, align) && k < |Allocate(h, 0, align).free|
    ensures var i, at := FirstFit(h.free, 0, align), FitOffset(h, 0, align);
            var r, e := h.free[i], Allocate(h, 0, align).free[k];
            && (k < i ==> e == h.free[k])
            && (k == i ==> e == Range(r.start, at - r.start))
            && (k == i + 1 ==> e == Range(at, r.End() - at))
            && (k > i + 1 ==> e.start > r.End())
  {
    var i := FirstFit(h.free, 0, align);
    if k > i + 1 { assert Allocate(h, 0, align).free[k] == h.free[k - 1]; }
  }

  /** An entry before the cut one starts above zero, or it would have held the empty block, and ends
      before the first positive multiple of the cut entry's start. */
  lemma NoEarlierEntryServes(h: Heap, align: nat, k: nat)
    requires StrictGaps(h.free) && CutsAtEmptyBlock(h, 0, align) && k < FirstFit(h.free, 0, align)
    ensures var r := h.free[FirstFit(h.free, 0, align)];
            !FitsIn(h.free[k], r.len, r.start)
  {
    var r, e := h.free[FirstFit(h.free, 0, align)], h.free[k];
    assert !FitsIn(e, 0, align) && e.End() < r.start;
    assert AlignUp(0, Max(align, 1)) == 0;
    var place := AlignUp(e.start, Max(r.start, 1));
    assert place > 0;
    MultiplesApart(0, place, r.start);
  }

  /** The request that the cut takes away: the whole of the range that was cut, at its start. */
  lemma CutEntryIsNotServed(h: Heap, total: nat, align: nat)
    requires Tiled(h, total) && Canonical(h.free) && CutsAtEmptyBlock(h, 0, align)
    ensures var r := h.free[FirstFit(h.free, 0, align)];
            !ServesLowest(Allocate(h, 0, align), total, r.len, r.start)
  {
    var i, at := FirstFit(h.free, 0, align), FitOffset(h, 0, align);
    var r, g := h.free[i], Allocate(h, 0, align);
    assert r in h.free;
    FreeEntryIsApart(h, total, r);
    StartIsMultiple(r.start);
    assert Hole(g.used, total, r.len, r.start, r.start);
    var k := FirstFit(g.free, r.len, r.start);
    if k < |g.free| {
      EntriesAfterCut(h, align, k);
      if k < i { NoEarlierEntryServes(h, align, k); }
    }
  }

  /** First fit stays complete and lowest-first for every later request exactly when the allocation
      does not cut a free range at an empty block. */
  lemma AllocateCompleteIff(h: Heap, total: nat, size: nat, align: nat)
    requires Tiled(h, total) && Canonical(h.free) && h.nextId !in h.used
    ensures Complete(Allocate(h, size, align), total) <==> !CutsAtEmptyBlock(h, size, align)
  {
    var g := Allocate(h, size, align);
    if CutsAtEmptyBlock(h, size, align) {
      var r := h.free[FirstFit(h.free, 0, align)];
      CutEntryIsNotServed(h, total, align);
      assert r in h.free && !ServesLowest(g, total, r.len, r.start);
    } else {
      AllocateKeepsTiling(h, total, size, align);
      AllocateCanonicalIff(h, size, align);
      forall n: nat, a: nat | n > 0
        ensures ServesLowest(g, total, n, a)
      {
        AllocateLowest(g, total, n, a);
      }
    }
  }

  lemma CanonicalTail(f: seq<Range>)
    requires f != [] && Canonical(f)
    ensures Canonical(f[1..])
  {
    forall i, j | 0 <= i < j < |f[1..]|
      ensures f[1..][i].End() < f[1..][j].start
    {
      assert f[i + 1].End() < f[j + 1].start;
    }
  }

  lemma TailCovers(f: seq<Range>, b: nat)
    requires f != [] && Canonical(f)
    ensures Covers(f[1..], b) <==> Covers(f, b) && !f[0].Has(b)
  {
    assert f == [f[0]] + f[1..];
    if Covers(f[1..], b) {
      var x :| x in f[1..] && x.Has(b);
      var i :| 1 <= i < |f| && f[i] == x;
      assert f[0].End() < f[i].start;
      assert x in f;
    }
    if Covers(f, b) && !f[0].Has(b) {
      var x :| x in f && x.Has(b);
      assert x in f[1..];
    }
  }

  lemma HeadCovers(f: seq<Range>, b: nat)
    requires f != []
    ensures f[0].Has(b) ==> Covers(f, b)
  {
    assert f[0] in f;
  }

  /** The first entry of one list starts no later and ends no earlier than that of the other. */
  lemma HeadWithin(f: seq<Range>, g: seq<Range>)
    requires Canonical(f) && Canonical(g) && f != [] && g != []
    requires forall b: nat :: Covers(f, b) <==> Covers(g, b)
    ensures f[0].start <= g[0].start
    ensures f[0].start == g[0].start ==> f[0].End() >= g[0].End()
  {
    assert g[0] in g && g[0].Has(g[0].start);
    assert Covers(g, g[0].start);
    var x :| x in f && x.Has(g[0].start);
    var i :| 0 <= i < |f| && f[i] == x;
    if i > 0 { assert f[0].End() < f[i].start; }
    EndIsNotCovered(f, 0);
    HeadCovers(g, f[0].End());
  }

  /** The canonical form is unique: two canonical lists over the same bytes are the same list. */
  lemma {:induction false} CanonicalUnique(f: seq<Range>, g: seq<Range>)
    requires Canonical(f) && Canonical(g)
    requires forall b: nat :: Covers(f, b) <==> Covers(g, b)
    ensures f == g
    decreases |f|
  {
    if f == [] {
      if g != [] { HeadCovers(g, g[0].start); }
    } else {
      HeadCovers(f, f[0].start);
      assert g != [];
      HeadWithin(f, g);
      HeadWithin(g, f);
      forall b: nat
        ensures Covers(f[1..], b) <==> Covers(g[1..], b)
      {
        TailCovers(f, b);
        TailCovers(g, b);
      }
      CanonicalTail(f);
      CanonicalTail(g);
      CanonicalUnique(f[1..], g[1..]);
      assert f == [f[0]] + f[1..] && g == [g[0]] + g[1..];
    }
  }

  /** Heaps that hold the same bytes have the same free list, however they got there. */
  lemma SameBytesSameFreeList(h: Heap, g: Heap, total: nat)
    requires Tiled(h, total) && Tiled(g, total) && Canonical(h.free) && Canonical(g.free)
    requires forall b: nat :: b < total ==> (Taken(h.used, b) <==> Taken(g.used, b))
    ensures h.free == g.free
  {
    forall b: nat
      ensures Covers(h.free, b) <==> Covers(g.free, b)
    {
      if b >= total {
        assert forall x :: x in h.free ==> !x.Has(b);
        assert forall x :: x in g.free ==> !x.Has(b);
      }
    }
    CanonicalUnique(h.free, g.free);
  }

  lemma HasMember(s: seq<Range>)
    requires s != []
    ensures exists x :: x in s
  {
    assert s[0] in s;
  }

  /** An empty heap without touching entries is the fresh one: the arena has come back whole. */
  lemma EmptyHeapIsWhole(h: Heap, total: nat)
    requires Tiled(h, total) && StrictGaps(h.free) && h.used == map[] && total > 0
    ensures h.free == [Range(0, total)]
    ensures UsedBytes(h.used) == 0
  {
    var i := FreeRunInOneEntry(h, total, 0, total);
    assert h.free[i] in h.free;
    Neighbours(h.free, i);
    var before, after := h.free[..i], h.free[i + 1..];
    assert h.free == before + [h.free[i]] + after;
    forall x | x in h.free
      ensures x !in before && x !in after
    {
      assert x.End() <= total;
    }
    if before != [] { HasMember(before); }
    if after != [] { HasMember(after); }
  }

  // ---------------------------------------------------------------- releasing many blocks

  lemma {:induction false} ReleaseAllAppend(h: Heap, ids: seq<nat>, id: nat)
    ensures ReleaseAll(h, ids + [id]) == Release(ReleaseAll(h, ids), id)
    decreases |ids|
  {
    if ids == [] {
      assert ids + [id] == [id] && [id][1..] == [];
    } else {
      assert (ids + [id])[1..] == ids[1..] + [id];
      ReleaseAllAppend(Release(h, ids[0]), ids[1..], id);
    }
  }

  /** Releasing removes exactly the listed ids from the used map and hands out no id. */
  lemma {:induction false} ReleaseAllUsed(h: Heap, ids: seq<nat>)
    ensures ReleaseAll(h, ids).used == h.used - IdSet(ids)
    ensures ReleaseAll(h, ids).nextId == h.nextId
    decreases |ids|
  {
    if ids != [] {
      ReleaseAllUsed(Release(h, ids[0]), ids[1..]);
      assert ids == [ids[0]] + ids[1..];
      assert IdSet(ids) == {ids[0]} + IdSet(ids[1..]);
    }
  }

  lemma {:induction false} ReleaseAllKeeps(h: Heap, total: nat, ids: seq<nat>)
    requires Tiled(h, total)
    ensures Tiled(ReleaseAll(h, ids), total)
    ensures ReleaseAll(h, ids) == h || StrictGaps(ReleaseAll(h, ids).free)
    ensures Canonical(h.free) && UsedPositive(h.used) ==>
              Canonical(ReleaseAll(h, ids).free) && UsedPositive(ReleaseAll(h, ids).used)
    decreases |ids|
  {
    if ids != [] {
      ReleaseKeepsTiling(h, total, ids[0]);
      if ids[0] in h.used { CoalesceFacts(h.free, h.used[ids[0]]); }
      ReleaseAllKeeps(Release(h, ids[0]), total, ids[1..]);
    }
  }

  lemma {:induction false} ReleaseAllBounded(h: Heap, total: nat, ids: seq<nat>)
    requires Bounded(h, total)
    ensures Bounded(ReleaseAll(h, ids), total)
    decreases |ids|
  {
    if ids != [] {
      OperationsKeepBounds(h, total, 0, 1, ids[0]);
      ReleaseAllBounded(Release(h, ids[0]), total, ids[1..]);
    }
  }
}
