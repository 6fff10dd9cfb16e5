/** The allocator as the program has it: an object whose free list, used map and id counter are
    updated in place, each method proved against the functions on heap values. */
module Allocator {
  import opened Basics
  import opened Heaps
  import opened HeapLemmas

  /** Removing entry `i` and inserting what is left of it, right part first, is Carve. */
  lemma RemoveAndInsert(free: seq<Range>, i: nat, at: nat, size: nat)
    requires i < |free| && free[i].start <= at && at + size <= free[i].End()
    ensures var left := Range(free[i].start, at - free[i].start);
            var right := Range(at + size, free[i].End() - (at + size));
            var removed := free[..i] + free[i + 1..];
            var withRight := if right.len > 0 then removed[..i] + [right] + removed[i..] else removed;
            var withBoth := if left.len > 0 then withRight[..i] + [left] + withRight[i..] else withRight;
            withBoth == Carve(free, i, at, size)
  {
    var removed := free[..i] + free[i + 1..];
    assert removed[..i] == free[..i] && removed[i..] == free[i + 1..];
    var right := NonEmpty(Range(at + size, free[i].End() - (at + size)));
    var withRight := free[..i] + right + free[i + 1..];
    assert withRight[..i] == free[..i] && withRight[i..] == right + free[i + 1..];
  }

  class FreeListAllocator {
    var free: seq<Range>
    var used: map<nat, Range>
    var nextId: nat

    ghost function View(): Heap
      reads this
    {
      Heap(free, used, nextId)
    }

    constructor (total: nat)
      ensures View() == Fresh(total)
    {
      free := [Range(0, total)];
      used := map[];
      nextId := 1;
    }

    method Alloc(size: nat, requested: nat) returns (r: Option<Allocation>)
      modifies this
      ensures View() == Allocate(old(View()), size, requested)
      ensures r == Allocated(old(View()), size, requested)
    {
      var align := Max(requested, 1);
      var idx := 0;
      while idx < |free|
        invariant idx <= |free|
        invariant View() == old(View())
        invariant forall j :: 0 <= j < idx ==> !FitsIn(free[j], size, requested)
      {
        var start, end := free[idx].start, free[idx].End();
        var alignedStart := AlignUp(start, align);
        if alignedStart + size <= end {
          FitsAt(View(), size, requested, idx);
          CutFrom(idx, alignedStart, size);
          var bufferId := nextId;
          nextId := NextId(nextId);
          used := used[bufferId := Range(alignedStart, size)];
          return Some(Allocation(bufferId, alignedStart, size));
        }
        idx := idx + 1;
      }
      return None;
    }

    /** Replaces entry `idx` by what is left of it on either side of the block. */
    method CutFrom(idx: nat, alignedStart: nat, size: nat)
      requires idx < |free| && free[idx].start <= alignedStart && alignedStart + size <= free[idx].End()
      modifies `free
      ensures free == Carve(old(free), idx, alignedStart, size)
    {
      var start, end := free[idx].start, free[idx].End();
      var leftLen := alignedStart - start;
      var rightStart := alignedStart + size;
      var rightLen := end - rightStart;
      RemoveAndInsert(free, idx, alignedStart, size);
      free := free[..idx] + free[idx + 1..];
      if rightLen > 0 {
        free := free[..idx] + [Range(rightStart, rightLen)] + free[idx..];
      }
      if leftLen > 0 {
        free := free[..idx] + [Range(start, leftLen)] + free[idx..];
      }
    }

    method FreeById(id: nat) returns (freed: bool)
      modifies this
      ensures View() == Release(old(View()), id)
      ensures freed <==> id in old(used)
    {
      if id in used {
        var r := used[id];
        used := used - {id};
        InsertAndCoalesce(r.start, r.len);
        return true;
      }
      return false;
    }

    method UsedBytes() returns (bytes: nat)
      ensures bytes == Heaps.UsedBytes(used)
    {
      bytes := 0;
      var rest := used;
      while rest != map[]
        invariant bytes + Heaps.UsedBytes(rest) == Heaps.UsedBytes(used)
        decreases |rest|
      {
        var id :| id in rest;
        UsedBytesSplit(rest, id);
        assert |rest - {id}| < |rest| by { assert (rest - {id}).Keys == rest.Keys - {id}; }
        bytes := bytes + rest[id].len;
        rest := rest - {id};
      }
    }

    method InsertAndCoalesce(start: nat, len: nat)
      modifies `free
      ensures free == Coalesce(old(free), Range(start, len))
    {
      free := free + [Range(start, len)];
      var sorted := SortByStart(free);
      var merged: seq<Range> := [];
      for i := 0 to |sorted|
        invariant MergeAll(merged, sorted[i..]) == MergeAll([], sorted)
      {
        var s, l := sorted[i].start, sorted[i].len;
        assert sorted[i..][1..] == sorted[i + 1..];
        if merged != [] {
          var last := merged[|merged| - 1];
          var lastEnd := last.start + last.len;
          if s <= lastEnd {
            var end := Max(s + l, lastEnd);
            merged := merged[|merged| - 1 := Range(last.start, end - last.start)];
            continue;
          }
        }
        merged := merged + [Range(s, l)];
      }
      free := merged;
    }
  }

  // ---------------------------------------------------------------- histories

  datatype Op = AllocOp(size: nat, align: nat) | FreeOp(id: nat)

  function Apply(h: Heap, op: Op): Heap {
    match op
    case AllocOp(size, align) => Allocate(h, size, align)
    case FreeOp(id) => Release(h, id)
  }

  function History(total: nat, ops: seq<Op>): Heap {
    if ops == [] then Fresh(total) else Apply(History(total, ops[..|ops| - 1]), ops[|ops| - 1])
  }

  /** How many of the allocations in the history succeeded. */
  function Served(total: nat, ops: seq<Op>): nat {
    if ops == [] then 0
    else
      var before, op := ops[..|ops| - 1], ops[|ops| - 1];
      Served(total, before)
      + if op.AllocOp? && Fits(History(total, before), op.size, op.align) then 1 else 0
  }

  lemma AllocTiles(h: Heap, total: nat, size: nat, align: nat, k: nat)
    requires Tiled(h, total) && Conserved(h, total) && IdsUpTo(h, k) && k + 1 < U32_LIMIT
    requires Fits(h, size, align)
    ensures Tiled(Allocate(h, size, align), total) && Conserved(Allocate(h, size, align), total)
    ensures IdsUpTo(Allocate(h, size, align), k + 1)
  {
    assert h.nextId !in h.used;
    AllocateKeepsTiling(h, total, size, align);
    AllocateConserves(h, total, size, align);
  }

  lemma StepTiles(h: Heap, total: nat, op: Op, k: nat)
    requires Tiled(h, total) && Conserved(h, total) && IdsUpTo(h, k)
    requires op.AllocOp? && Fits(h, op.size, op.align) ==> k + 1 < U32_LIMIT
    ensures Tiled(Apply(h, op), total) && Conserved(Apply(h, op), total)
    ensures IdsUpTo(Apply(h, op), if op.AllocOp? && Fits(h, op.size, op.align) then k + 1 else k)
  {
    match op {
      case AllocOp(size, align) =>
        if Fits(h, size, align) { AllocTiles(h, total, size, align, k); }
      case FreeOp(id) =>
        ReleaseKeepsTiling(h, total, id);
        ReleaseConserves(h, total, id);
    }
  }

  /** In every history of fewer than 2^32 successful allocations of any size, free and used ranges
      tile the arena and account for every byte, and each of these allocations gets a fresh id. */
  lemma {:induction false} HistoryTiles(total: nat, ops: seq<Op>)
    requires Served(total, ops) < U32_LIMIT
    ensures Tiled(History(total, ops), total) && Conserved(History(total, ops), total)
    ensures IdsUpTo(History(total, ops), Served(total, ops))
  {
    if ops == [] {
      FreshIsTiled(total);
    } else {
      var before, op := ops[..|ops| - 1], ops[|ops| - 1];
      HistoryTiles(total, before);
      StepTiles(History(total, before), total, op, Served(total, before));
    }
  }

  /** With positive sizes the free list is canonical after every history. */
  lemma {:induction false} HistoryCanonical(total: nat, ops: seq<Op>)
    requires total > 0 && Served(total, ops) < U32_LIMIT
    requires forall op :: op in ops && op.AllocOp? ==> op.size > 0
    ensures Canonical(History(total, ops).free) && UsedPositive(History(total, ops).used)
  {
    if ops == [] {
      FreshIsTiled(total);
    } else {
      var before, op := ops[..|ops| - 1], ops[|ops| - 1];
      assert op in ops;
      assert forall x :: x in before ==> x in ops;
      HistoryCanonical(total, before);
      HistoryTiles(total, before);
      var h := History(total, before);
      match op {
        case AllocOp(size, align) => AllocateCanonicalIff(h, size, align);
        case FreeOp(id) => if id in h.used { CoalesceFacts(h.free, h.used[id]); }
      }
    }
  }

  /** A heap becomes empty only through a release, and every release merges what touches. */
  lemma {:induction false} EmptyHistoryHasGaps(total: nat, ops: seq<Op>)
    requires Served(total, ops) < U32_LIMIT && History(total, ops).used == map[]
    ensures StrictGaps(History(total, ops).free)
  {
    if ops != [] {
      var before, op := ops[..|ops| - 1], ops[|ops| - 1];
      var h := History(total, before);
      HistoryTiles(total, before);
      if op.FreeOp? && op.id in h.used {
        ReleaseKeepsTiling(h, total, op.id);
      } else {
        assert op.AllocOp? && Fits(h, op.size, op.align) ==> h.nextId in Apply(h, op).used;
        EmptyHistoryHasGaps(total, before);
      }
    }
  }

  /** A history that ends with no block live has the arena whole, whatever the sizes involved. */
  lemma {:induction false} EmptiedHistoryIsWhole(total: nat, ops: seq<Op>)
    requires total > 0 && Served(total, ops) < U32_LIMIT && History(total, ops).used == map[]
    ensures History(total, ops).free == [Range(0, total)]
  {
    HistoryTiles(total, ops);
    EmptyHistoryHasGaps(total, ops);
    EmptyHeapIsWhole(History(total, ops), total);
  }

  /** The free list remembers nothing but the used ranges: two histories of positive sizes that end
      with the same used map end with the same free list. */
  lemma HistoryIsForgotten(total: nat, a: seq<Op>, b: seq<Op>)
    requires total > 0 && Served(total, a) < U32_LIMIT && Served(total, b) < U32_LIMIT
    requires forall op :: (op in a || op in b) && op.AllocOp? ==> op.size > 0
    ensures History(total, a).used == History(total, b).used ==> History(total, a).free == History(total, b).free
  {
    HistoryTiles(total, a);
    HistoryTiles(total, b);
    HistoryCanonical(total, a);
    HistoryCanonical(total, b);
    if History(total, a).used == History(total, b).used {
      SameBytesSameFreeList(History(total, a), History(total, b), total);
    }
  }

  // ---------------------------------------------------------------- when ids come round

  /** One byte that stays, then `n` times one byte that comes and goes. */
  function Cycles(n: nat): (ops: seq<Op>)
    ensures forall op :: op in ops && op.AllocOp? ==> op.size > 0
  {
    if n == 0 then [AllocOp(1, 1)] else Cycles(n - 1) + [AllocOp(1, 1)] + [FreeOp(n + 1)]
  }

  lemma HistoryThen(total: nat, ops: seq<Op>, op: Op)
    ensures History(total, ops + [op]) == Apply(History(total, ops), op)
    ensures Served(total, ops + [op])
         == Served(total, ops) + if op.AllocOp? && Fits(History(total, ops), op.size, op.align) then 1 else 0
  {
    assert (ops + [op])[..|ops|] == ops;
  }

  lemma OneByteStays(total: nat)
    requires total >= 2
    ensures History(total, Cycles(0)) == Heap([Range(1, total - 1)], map[1 := Range(0, 1)], 2)
    ensures Served(total, Cycles(0)) == 1
  {
    HistoryThen(total, [], AllocOp(1, 1));
    assert [] + [AllocOp(1, 1)] == Cycles(0);
    FitsAt(Fresh(total), 1, 1, 0);
  }

  lemma OneByteComesAndGoes(h: Heap, total: nat, n: nat)
    requires total >= 2 && h.free == [Range(1, total - 1)] && h.used == map[1 := Range(0, 1)] && h.nextId == n + 1 > 1
    ensures var g := Apply(Apply(h, AllocOp(1, 1)), FreeOp(n + 1));
            Fits(h, 1, 1) && g.used == h.used && g.nextId == NextId(n + 1)
  {
    FitsAt(h, 1, 1, 0);
  }

  lemma SameFreeAsBefore(total: nat, a: seq<Op>, b: seq<Op>)
    requires total > 0 && Served(total, a) < U32_LIMIT && Served(total, b) < U32_LIMIT
    requires forall op :: op in a && op.AllocOp? ==> op.size > 0
    requires forall op :: op in b && op.AllocOp? ==> op.size > 0
    requires History(total, a).used == History(total, b).used
    ensures History(total, a).free == History(total, b).free
  {
    HistoryIsForgotten(total, a, b);
  }

  /** After `n` cycles: one free range behind the byte, and the next id. */
  predicate CycledTo(total: nat, ops: seq<Op>, n: nat)
    requires total >= 2
  {
    && History(total, ops) == Heap([Range(1, total - 1)], map[1 := Range(0, 1)], NextId(n + 1))
    && Served(total, ops) == n + 1
  }

  lemma TwoOps(total: nat, before: seq<Op>, a: Op, b: Op)
    requires b.FreeOp?
    ensures History(total, before + [a] + [b]) == Apply(Apply(History(total, before), a), b)
    ensures Served(total, before + [a] + [b])
         == Served(total, before) + if a.AllocOp? && Fits(History(total, before), a.size, a.align) then 1 else 0
  {
    HistoryThen(total, before, a);
    HistoryThen(total, before + [a], b);
  }

  lemma NextIdBelowWrap(n: nat)
    requires n + 1 < U32_LIMIT
    ensures NextId(n) == n + 1
  {
  }

  lemma UsedAfterCycle(total: nat, before: seq<Op>, n: nat)
    requires total >= 2 && 1 <= n && n + 1 < U32_LIMIT && CycledTo(total, before, n - 1)
    ensures var ops := before + [AllocOp(1, 1)] + [FreeOp(n + 1)];
            && History(total, ops).used == map[1 := Range(0, 1)] && History(total, ops).nextId == NextId(n + 1)
            && Served(total, ops) == n + 1
  {
    TwoOps(total, before, AllocOp(1, 1), FreeOp(n + 1));
    NextIdBelowWrap(n);
    OneByteComesAndGoes(History(total, before), total, n);
  }

  lemma OneMoreCycle(total: nat, before: seq<Op>, ops: seq<Op>, n: nat)
    requires total >= 2 && 1 <= n && n + 1 < U32_LIMIT && CycledTo(total, before, n - 1)
    requires ops == before + [AllocOp(1, 1)] + [FreeOp(n + 1)]
    requires forall op :: op in before && op.AllocOp? ==> op.size > 0
    requires forall op :: op in ops && op.AllocOp? ==> op.size > 0
    ensures CycledTo(total, ops, n)
  {
    UsedAfterCycle(total, before, n);
    SameFreeAsBefore(total, ops, before);
  }

  /** The cycles leave no trace but the id counter. */
  lemma {:induction false} CyclesKeepHeap(total: nat, n: nat)
    requires total >= 2 && n + 1 < U32_LIMIT
    ensures CycledTo(total, Cycles(n), n)
  {
    if n == 0 {
      OneByteStays(total);
    } else {
      CyclesKeepHeap(total, n - 1);
      OneMoreCycle(total, Cycles(n - 1), Cycles(n), n);
    }
  }

  const LAST_CYCLE: nat := U32_LIMIT - 2

  /** After 2^32 - 1 allocations the counter is back at the id of the byte that stayed. One more
      allocation takes that id, and the byte is neither free nor anyone's. */
  lemma IdWrapLosesBlock(total: nat)
    requires total >= 2
    ensures var ops := Cycles(LAST_CYCLE);
            && Served(total, ops) == U32_LIMIT - 1 && Tiled(History(total, ops), total)
            && !Tiled(History(total, ops + [AllocOp(1, 1)]), total)
  {
    var ops := Cycles(LAST_CYCLE);
    CyclesKeepHeap(total, LAST_CYCLE);
    HistoryTiles(total, ops);
    HistoryThen(total, ops, AllocOp(1, 1));
    FitsAt(History(total, ops), 1, 1, 0);
    AllocateTilesIff(History(total, ops), total, 1, 1);
  }
}
