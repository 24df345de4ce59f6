/** ECMAScript number operations that differ from Dafny's on reals and integers. */
module JsNumbers {

  /** Rounding toward zero, as every integer conversion and `%` in ECMAScript does. */
  function Trunc(x: real): (t: int)
    ensures x >= 0.0 ==> t == x.Floor
    ensures x >= 0.0 ==> 0.0 <= t as real <= x
    ensures x < 0.0 ==> x <= t as real <= 0.0
    ensures t as real - 1.0 < x < t as real + 1.0
  {
    if x >= 0.0 then x.Floor else -((-x).Floor)
  }

  lemma TruncMonotone(x: real, y: real)
    requires x <= y
    ensures Trunc(x) <= Trunc(y)
  {
    if x < 0.0 && y < 0.0 {
      assert (-y).Floor <= (-x).Floor;
    }
  }

  /** The truncated quotient times the divisor lies within one divisor of the dividend,
      on the dividend's side of zero. */
  lemma TruncQuotientBounds(x: real, d: real)
    requires d > 0.0
    ensures x >= 0.0 ==> Trunc(x / d) as real * d <= x < Trunc(x / d) as real * d + d
    ensures x < 0.0 ==> Trunc(x / d) as real * d - d < x <= Trunc(x / d) as real * d
  {
    var y := x / d;
    var q := Trunc(y) as real;
    assert y * d == x;
    if x >= 0.0 {
      var below, above := y - q, q + 1.0 - y;
      assert below >= 0.0 && above > 0.0;
      assert below * d >= 0.0 && above * d > 0.0;
      assert x - q * d == below * d;
      assert q * d + d - x == above * d;
      assert q * d <= x < q * d + d;
    } else {
      var below, above := y - (q - 1.0), q - y;
      assert below > 0.0 && above >= 0.0;
      assert below * d > 0.0 && above * d >= 0.0;
      assert x - (q * d - d) == below * d;
      assert q * d - x == above * d;
      assert q * d - d < x <= q * d;
    }
  }

  /** The `%` operator on numbers: the remainder takes the sign of the dividend. */
  function Remainder(x: real, d: real): (r: real)
    requires d > 0.0
    ensures x >= 0.0 ==> 0.0 <= r < d
    ensures x < 0.0 ==> -d < r <= 0.0
    ensures x - r == Trunc(x / d) as real * d
  {
    TruncQuotientBounds(x, d);
    x - d * Trunc(x / d) as real
  }

  /** The remainder is the only value on the dividend's side of zero, within one divisor
      of it, that differs from the dividend by a whole multiple of the divisor. */
  lemma RemainderUnique(x: real, d: real, q: int, r: real)
    requires d > 0.0 && x - r == q as real * d
    requires x >= 0.0 ==> 0.0 <= r < d
    requires x < 0.0 ==> -d < r <= 0.0
    ensures r == Remainder(x, d)
  {
    var q0, r0 := Trunc(x / d), Remainder(x, d);
    var k := q - q0;
    assert r0 - r == k as real * d by {
      assert q as real * d - q0 as real * d == (q - q0) as real * d;
    }
    SmallMultipleIsZero(k, d, r0 - r);
  }

  /** A whole multiple of a positive divisor that lies strictly within one divisor of zero
      is the zero multiple. */
  lemma SmallMultipleIsZero(k: int, d: real, m: real)
    requires d > 0.0 && m == k as real * d && -d < m < d
    ensures k == 0
  {
    MultipleBounds(k, d);
  }

  /** A non-zero whole multiple of a positive divisor is at least the divisor away from zero. */
  lemma MultipleBounds(k: int, d: real)
    requires d > 0.0
    ensures k >= 1 ==> k as real * d >= d
    ensures k <= -1 ==> k as real * d <= -d
  {
    if k >= 1 {
      assert k as real * d - d == (k - 1) as real * d;
    } else if k <= -1 {
      assert k as real * d + d == (k + 1) as real * d;
    }
  }
}
