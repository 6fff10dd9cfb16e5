/** Bounded rings addressed by counters that only grow: entry `i` lives in slot `i % capacity`. */
module Rings {
  import opened Basics

  /** u64 `wrapping_sub`. */
  function WrappingSub(a: nat, b: nat): nat {
    (a - b) % U64_LIMIT
  }

  lemma WrappingSubIsExact(a: nat, b: nat)
    requires b <= a < b + U64_LIMIT
    ensures WrappingSub(a, b) == a - b
  {
  }

  function Slot(counter: nat, cap: nat): (s: nat)
    requires cap > 0
    ensures s < cap
  {
    counter % cap
  }

  /** The `n` entries from counter value `tail` on. */
  function Window<T>(slots: seq<T>, tail: nat, n: nat): (w: seq<T>)
    requires |slots| > 0
    ensures |w| == n
    ensures forall i :: 0 <= i < n ==> w[i] == slots[Slot(tail + i, |slots|)]
  {
    seq(n, i requires 0 <= i < n => slots[Slot(tail + i, |slots|)])
  }

  /** Counters less than one capacity apart address different slots. */
  lemma SlotsDiffer(a: nat, b: nat, cap: nat)
    requires cap > 0 && a < b < a + cap
    ensures Slot(a, cap) != Slot(b, cap)
  {
    if a % cap == b % cap {
      var qa, qb := a / cap, b / cap;
      assert b - a == cap * (qb - qa);
      if qb - qa >= 1 { MulAtLeast(cap, qb - qa); } else { MulNotPositive(cap, qb - qa); }
    }
  }

  /** Storing behind a window that is not full appends to it. */
  lemma PushWindow<T>(slots: seq<T>, tail: nat, n: nat, x: T)
    requires n < |slots|
    ensures Window(slots[Slot(tail + n, |slots|) := x], tail, n + 1) == Window(slots, tail, n) + [x]
  {
    var pushed := slots[Slot(tail + n, |slots|) := x];
    var w := Window(pushed, tail, n + 1);
    forall i | 0 <= i < n
      ensures w[i] == Window(slots, tail, n)[i]
    {
      SlotsDiffer(tail + i, tail + n, |slots|);
    }
  }

  /** Advancing the tail drops from the front. */
  lemma PopWindow<T>(slots: seq<T>, tail: nat, n: nat, k: nat)
    requires |slots| > 0 && k <= n
    ensures Window(slots, tail + k, n - k) == Window(slots, tail, n)[k..]
  {
    var w, rest := Window(slots, tail, n), Window(slots, tail + k, n - k);
    forall i | 0 <= i < n - k
      ensures rest[i] == w[k..][i]
    {
      assert w[k + i] == slots[Slot(tail + (k + i), |slots|)];
    }
  }
}
