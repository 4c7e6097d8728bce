/**
 Truncation toward zero, the rounding that Python's `int()` applies to a float.

 Dafny's `Floor`, and its integer `/` for a positive divisor, both round toward
 negative infinity; the two rules agree on non-negative values and differ by one
 on negative values that are not whole numbers.
 */
module Truncation {

  /** `int(x)` for a number `x`: the whole part of `x`, rounded toward zero. */
  function Trunc(x: real): (r: int)
    ensures 0.0 <= x ==> r as real <= x < r as real + 1.0
    ensures x < 0.0 ==> r as real - 1.0 < x <= r as real
  {
    if x >= 0.0 then x.Floor else -((-x).Floor)
  }

  /** Integer division rounding toward zero: the quotient that `int(a / b)`
      yields when the division is exact in floating point. */
  function TruncDiv(a: int, b: int): (q: int)
    requires b > 0
    ensures 0 <= a ==> q * b <= a < q * b + b
    ensures a < 0 ==> q * b - b < a <= q * b
  {
    if a >= 0 then a / b else -((-a) / b)
  }

  /** Truncation toward zero never decreases when its argument grows. */
  lemma TruncMonotone(x: real, y: real)
    requires x <= y
    ensures Trunc(x) <= Trunc(y)
  {
  }

  /** Comparing two products with the same positive factor compares the other factors. */
  lemma CancelPositive(u: real, v: real, b: real)
    requires b > 0.0
    ensures u * b <= v * b <==> u <= v
  {
  }

  /** The floor of an exact real quotient is Euclidean integer division. */
  lemma FloorOfQuotient(a: int, b: int)
    requires b > 0
    ensures (a as real / b as real).Floor == a / b
  {
    var q := a / b;
    var r := a % b;
    assert a == q * b + r;
    assert a as real / b as real == q as real + r as real / b as real;
    assert 0.0 <= r as real / b as real < 1.0;
  }

  /** Truncating the exact real quotient agrees with truncating integer division. */
  lemma TruncOfQuotient(a: int, b: int)
    requires b > 0
    ensures Trunc(a as real / b as real) == TruncDiv(a, b)
  {
    if a >= 0 {
      FloorOfQuotient(a, b);
    } else {
      assert -(a as real / b as real) == (-a) as real / b as real;
      FloorOfQuotient(-a, b);
    }
  }

  /** Truncating `s - m / b` for a non-negative result: the whole part of the
      quotient comes off, and one more unless the division is exact. */
  lemma TruncOfDifference(s: int, m: int, b: int)
    requires b > 0
    requires 0 <= m
    requires 0.0 <= s as real - m as real / b as real
    ensures Trunc(s as real - m as real / b as real) == s - m / b - (if m % b == 0 then 0 else 1)
  {
    var q := m / b;
    var r := m % b;
    assert m == q * b + r;
    var f := r as real / b as real;
    assert m as real / b as real == q as real + f;
    var w := s as real - m as real / b as real;
    assert w == (s - q) as real - f;
    if r == 0 {
      assert f == 0.0;
      assert w.Floor == s - q;
    } else {
      assert f * b as real == r as real;
      CancelPositive(f, 0.0, b as real);
      CancelPositive(1.0, f, b as real);
      assert 0.0 < f < 1.0;
      assert (s - q - 1) as real < w < (s - q) as real;
      assert w.Floor == s - q - 1;
    }
  }

  /** Multiplying by a non-negative factor preserves order. */
  lemma ProductMonotone(a: int, b: int, c: int)
    requires a <= b
    requires 0 <= c
    ensures a * c <= b * c
  {
  }

  /** Truncating division by a positive divisor never decreases when the
      dividend grows. */
  lemma TruncDivMonotone(a1: int, a2: int, b: int)
    requires a1 <= a2
    requires b > 0
    ensures TruncDiv(a1, b) <= TruncDiv(a2, b)
  {
    var q1 := TruncDiv(a1, b);
    var q2 := TruncDiv(a2, b);
    if q1 > q2 {
      ProductMonotone(q2 + 1, q1, b);
      assert (q2 + 1) * b == q2 * b + b;
      if a1 < 0 <= a2 {
        if q1 >= 1 {
          ProductMonotone(1, q1, b);
        }
        if q2 <= -1 {
          ProductMonotone(q2, -1, b);
        }
      }
    }
  }
}
