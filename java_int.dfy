/**
 * Java `int` arithmetic and the rounded square root used by room distances, on
 * unbounded integers.
 */
module JavaInt {

  const Two32: int := 0x1_0000_0000

  /** Java's 32-bit `int`. */
  newtype Int32 = x: int | -0x8000_0000 <= x < 0x8000_0000

  /** Two's-complement wrap-around of an exact result into `int`. */
  function Wrap32(v: int): (w: Int32)
    ensures (w as int - v) % Two32 == 0
  {
    ((v + 0x8000_0000) % Two32 - 0x8000_0000) as Int32
  }

  /** Java's `a - b` on `int`. */
  function Sub32(a: Int32, b: Int32): (d: Int32)
    ensures -0x8000_0000 <= a as int - b as int < 0x8000_0000 ==> d as int == a as int - b as int
    ensures (d as int - (a as int - b as int)) % Two32 == 0
  {
    Wrap32(a as int - b as int)
  }

  /** Swapping the operands negates the difference modulo 2^32, so the square is the same. */
  lemma SquareSub32Symmetric(a: Int32, b: Int32)
    ensures Sub32(a, b) as int * Sub32(a, b) as int == Sub32(b, a) as int * Sub32(b, a) as int
  {
    var d, e := Sub32(a, b) as int, Sub32(b, a) as int;
    var v := a as int - b as int;
    if v > 0x8000_0000 {
      assert d == v - Two32 && e == Two32 - v;
    } else if v == 0x8000_0000 || v == -0x8000_0000 {
      assert d == -0x8000_0000 && e == -0x8000_0000;
    } else if v < -0x8000_0000 {
      assert d == v + Two32 && e == -v - Two32;
    } else {
      assert d == v && e == -v;
    }
  }

  /** `k` is the integer nearest to the square root of `n`:
      `k - 1/2 <= sqrt(n) < k + 1/2`, written without fractions. */
  ghost predicate RoundsSqrt(n: nat, k: nat)
  {
    n <= k * k + k && (k == 0 || k * k - k < n)
  }

  /** The integer square root, rounded down. */
  function FloorSqrt(n: nat): (s: nat)
    ensures s * s <= n < (s + 1) * (s + 1)
    decreases n
  {
    if n < 4 then (if n == 0 then 0 else 1)
    else
      var h := FloorSqrt(n / 4);
      FloorSqrtStep(n, h);
      var s := 2 * h;
      if (s + 1) * (s + 1) <= n then s + 1 else s
  }

  /** Doubling the root of `n / 4` gives the root of `n` or one less. */
  lemma FloorSqrtStep(n: nat, h: nat)
    requires h * h <= n / 4 < (h + 1) * (h + 1)
    ensures (2 * h) * (2 * h) <= n < (2 * h + 2) * (2 * h + 2)
  {
    var q := n / 4;
    var lo, hi := h * h, (h + 1) * (h + 1);
    assert (2 * h) * (2 * h) == 4 * lo;
    assert (2 * h + 2) * (2 * h + 2) == 4 * hi;
    assert 4 * q <= n < 4 * q + 4;
    assert q + 1 <= hi;
  }

  /** `Math.round(Math.sqrt(n))`, computed exactly on integers. */
  function RoundSqrt(n: nat): (k: nat)
    ensures RoundsSqrt(n, k)
  {
    var s := FloorSqrt(n);
    if n > s * s + s then s + 1 else s
  }

  /** The nearest integer is unique: no square root lies half-way between two integers. */
  lemma RoundsSqrtUnique(n: nat, k1: nat, k2: nat)
    requires RoundsSqrt(n, k1) && RoundsSqrt(n, k2)
    ensures k1 == k2
  {
    if k1 < k2 {
      MonotoneBelow(k1, k2);
    } else if k2 < k1 {
      MonotoneBelow(k2, k1);
    }
  }

  lemma MonotoneBelow(a: nat, b: nat)
    requires a < b
    ensures a * a + a <= b * b - b
  {
    assert b * b - b == b * (b - 1);
    assert a * a + a == a * (a + 1);
    assert a + 1 <= b && a <= b - 1;
    MulMonotone(a, a + 1, b - 1, b);
  }

  lemma MulMonotone(a: nat, b: nat, c: nat, d: nat)
    requires a <= c && b <= d
    ensures a * b <= c * d
  {
    assert a * b <= c * b;
    assert c * b <= c * d;
  }

  /** The rounded square root of a perfect square is its root. */
  lemma RoundSqrtOfSquare(d: int)
    ensures RoundSqrt(d * d) == if d < 0 then -d else d
  {
    var k: nat := if d < 0 then -d else d;
    assert k * k == d * d;
    assert RoundsSqrt(d * d, k);
    RoundsSqrtUnique(d * d, k, RoundSqrt(d * d));
  }
}
