/** Small numeric helpers shared by the world-generation model: the integer and
    real clamps of the engine's math helper, linear interpolation, Java's
    rounding and truncating casts, integer powers and finite sums. */
module Numeric {

  /** Clamp of a real into [lo, hi]: below lo gives lo, otherwise min(v, hi). */
  function Clamp(v: real, lo: real, hi: real): (r: real)
    requires lo <= hi
    ensures lo <= r <= hi
    ensures lo <= v <= hi ==> r == v
    ensures v <= lo ==> r == lo
    ensures v >= hi ==> r == hi
  {
    if v < lo then lo else if v > hi then hi else v
  }

  /** The int overload of the clamp: the real clamp of a whole number is whole. */
  function ClampInt(v: int, lo: int, hi: int): (r: int)
    requires lo <= hi
    ensures lo <= r <= hi
    ensures lo <= v <= hi ==> r == v
    ensures v <= lo ==> r == lo
    ensures v >= hi ==> r == hi
  {
    Clamp(v as real, lo as real, hi as real).Floor
  }

  function MinReal(a: real, b: real): real { if a <= b then a else b }
  function MaxReal(a: real, b: real): real { if a >= b then a else b }

  function Abs(v: int): nat { if v < 0 then -v else v }
  function Max(a: int, b: int): int { if a >= b then a else b }
  function Min(a: int, b: int): int { if a <= b then a else b }

  /** Real product as a named function: noise coordinates are scaled through
      it so that the solver matches scaled sample points term by term. */
  function Mul(a: real, b: real): real { a * b }

  /** Linear interpolation from start (delta = 0) to end (delta = 1). */
  function Lerp(delta: real, start: real, end: real): real
  {
    start + Mul(delta, end - start)
  }

  /** An interpolation with delta in [0, 1] stays between its ends. */
  lemma LerpBetween(delta: real, start: real, end: real)
    requires 0.0 <= delta <= 1.0
    ensures MinReal(start, end) <= Lerp(delta, start, end) <= MaxReal(start, end)
  {
    ScaledStep(delta, end - start);
    StepBetween(start, end, Mul(delta, end - start));
  }

  /** A step of a fraction of the way from start towards end, whichever way
      that is. */
  lemma ScaledStep(t: real, w: real)
    requires 0.0 <= t <= 1.0
    ensures w >= 0.0 ==> 0.0 <= Mul(t, w) <= w
    ensures w < 0.0 ==> w <= Mul(t, w) <= 0.0
  {
    if w >= 0.0 {
      ScaleBetween(t, w);
    } else {
      ScaleBetween(t, -w);
      Negate(t, w);
    }
  }

  lemma StepBetween(start: real, end: real, step: real)
    requires end - start >= 0.0 ==> 0.0 <= step <= end - start
    requires end - start < 0.0 ==> end - start <= step <= 0.0
    ensures MinReal(start, end) <= start + step <= MaxReal(start, end)
  {
  }

  lemma Negate(a: real, b: real)
    ensures a * -b == -(a * b)
  {
  }

  lemma ScaleBetween(t: real, w: real)
    requires 0.0 <= t <= 1.0 && w >= 0.0
    ensures 0.0 <= t * w <= w
  {
    assert w - t * w == (1.0 - t) * w;
  }

  lemma MulNonNegative(x: real, y: real)
    requires x >= 0.0 && y >= 0.0
    ensures x * y >= 0.0
  {
  }

  /** x y <= x for x >= 0 and y <= 1. */
  lemma MulAtMostOne(x: real, y: real)
    requires x >= 0.0 && y <= 1.0
    ensures x * y <= x
  {
    MulAtMost(x, y, 1.0);
    assert x * 1.0 == x;
  }

  /** x y <= x z for x >= 0 and y <= z. */
  lemma MulAtMost(x: real, y: real, z: real)
    requires x >= 0.0 && y <= z
    ensures x * y <= x * z
  {
    MulNonNegative(x, z - y);
    assert x * z - x * y == x * (z - y);
  }

  /** A factor in [-1, 1] times a non-negative amplitude a lies in [-a, a]. */
  lemma UnitTimes(n: real, a: real)
    requires -1.0 <= n <= 1.0 && a >= 0.0
    ensures -a <= n * a <= a
  {
    MulNonNegative(1.0 - n, a);
    MulNonNegative(1.0 + n, a);
    assert (1.0 - n) * a == a - n * a;
    assert (1.0 + n) * a == a + n * a;
  }

  /** Java's rounding of a double: floor(v + 1/2), so halves round up. */
  function Round(v: real): (r: int)
    ensures v - 1.0 / 2.0 < r as real <= v + 1.0 / 2.0
  {
    (v + 1.0 / 2.0).Floor
  }

  /** Rounding a value between two integers stays between them. */
  lemma RoundBetween(v: real, lo: int, hi: int)
    requires lo as real <= v <= hi as real
    ensures lo <= Round(v) <= hi
  {
  }

  /** Java's (int) cast of a double: truncation toward zero. */
  function Trunc(v: real): (r: int)
    ensures v >= 0.0 ==> 0 <= r && r as real <= v < r as real + 1.0
    ensures v < 0.0 ==> r <= 0 && r as real - 1.0 < v <= r as real
  {
    if v >= 0.0 then v.Floor else -((-v).Floor)
  }

  /** x raised to a natural power. */
  function Pow(x: real, n: nat): real
  {
    if n == 0 then 1.0 else x * Pow(x, n - 1)
  }

  lemma {:induction false} PowPositive(x: real, n: nat)
    requires x > 0.0
    ensures Pow(x, n) > 0.0
  {
    if n > 0 {
      PowPositive(x, n - 1);
    }
  }

  /** Powers of positive bases are strictly increasing in the base. */
  lemma {:induction false} PowStrictlyIncreasing(a: real, b: real, n: nat)
    requires 0.0 < a < b
    requires n >= 1
    ensures Pow(a, n) < Pow(b, n)
  {
    if n > 1 {
      PowStrictlyIncreasing(a, b, n - 1);
      PowPositive(a, n - 1);
      MulStrictlyIncreasing(a, b, Pow(a, n - 1), Pow(b, n - 1));
    }
  }

  /** Multiplication distributes over addition (named for nonlinear steps). */
  lemma Distribute(c: real, a: real, b: real)
    ensures c * a + c * b == c * (a + b)
  {
  }

  lemma MulStrictlyIncreasing(x: real, y: real, z: real, w: real)
    requires 0.0 < x < y && 0.0 < z < w
    ensures x * z < y * w
  {
    assert x * z < y * z;
    assert y * z < y * w;
  }

  /** Sum of a sequence of reals, added left to right. */
  function Sum(s: seq<real>): real
  {
    if |s| == 0 then 0.0 else Sum(s[..|s| - 1]) + s[|s| - 1]
  }

  lemma SumFour(a: real, b: real, c: real, d: real)
    ensures Sum([a, b, c, d]) == a + b + c + d
  {
    assert [a, b, c, d][..3] == [a, b, c];
    assert [a, b, c][..2] == [a, b];
    assert [a, b][..1] == [a];
    assert [a][..0] == [];
    assert Sum([a]) == a;
    assert Sum([a, b]) == a + b;
    assert Sum([a, b, c]) == a + b + c;
  }

  lemma SumSix(a: real, b: real, c: real, d: real, e: real, f: real)
    ensures Sum([a, b, c, d, e, f]) == a + b + c + d + e + f
  {
    assert [a, b, c, d, e, f][..5] == [a, b, c, d, e];
    assert [a, b, c, d, e][..4] == [a, b, c, d];
    SumFour(a, b, c, d);
  }

  /** Two's-complement wrap of an unbounded integer into Java's 32-bit int. */
  function Wrap32(v: int): (r: int)
    ensures -0x8000_0000 <= r < 0x8000_0000
    ensures -0x8000_0000 <= v < 0x8000_0000 ==> r == v
  {
    (v + 0x8000_0000) % 0x1_0000_0000 - 0x8000_0000
  }
}
