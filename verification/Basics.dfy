/** Values and arithmetic shared by every module of the model. */
module Basics {
  datatype Option<+T> = None | Some(value: T) {
    function GetOr(default: T): T {
      if Some? then value else default
    }
  }

  const U32_LIMIT: nat := 0x1_0000_0000
  const U64_LIMIT: nat := 0x1_0000_0000_0000_0000

  function Max(a: int, b: int): int {
    if a < b then b else a
  }

  function Min(a: int, b: int): int {
    if a < b then a else b
  }

  function Abs(a: int): nat {
    if a < 0 then -a else a
  }

  lemma MulAtLeast(n: nat, m: nat)
    requires m >= 1
    ensures n * m >= n
  {
    assert n * m == n + n * (m - 1);
  }

  lemma MultipleMod(q: nat, n: nat)
    requires n > 0
    ensures (n * q) % n == 0
  {
    var k, r := (n * q) / n, (n * q) % n;
    assert n * q == n * k + r;
    assert n * (q - k) == r;
    if q > k { MulAtLeast(n, q - k); }
    if q < k { MulAtLeast(n, k - q); }
  }

  lemma RoundUpIsMultiple(v: nat, align: nat)
    requires align > 1 && v % align != 0
    ensures (v + (align - v % align)) % align == 0
  {
    var q := v / align;
    assert v + (align - v % align) == align * (q + 1);
    MultipleMod(q + 1, align);
  }

  lemma MulNotPositive(n: nat, m: int)
    requires m <= 0
    ensures n * m <= 0
  {
  }

  lemma MultiplesApart(a: nat, b: nat, n: nat)
    requires n > 0 && a % n == 0 && b % n == 0 && a < b
    ensures b - a >= n
  {
    var qa, qb := a / n, b / n;
    assert a == n * qa && b == n * qb;
    assert b - a == n * (qb - qa);
    if qb <= qa { MulNotPositive(n, qb - qa); }
    MulAtLeast(n, qb - qa);
  }
}
