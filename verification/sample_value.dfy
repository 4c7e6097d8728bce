/**
 The `SampleValue` conversions of main.py: a native fixed-point sensor reading
 becomes a relative coordinate, an "abs-relative" coordinate in [0, 1], and an
 integer pixel coordinate on a canvas of a given size.

 Floating-point values are modelled as `real`. Every divisor involved (2048 and
 2) is a power of two and the offset is 0.5, so for native values of realistic
 magnitude the floating-point results are exact and `real` is faithful.
 */
module SampleValue {
  import opened Truncation

  /** Full-scale native reading. */
  const MaxSampleValue: int := 2048

  /** `toRelative`: the native value as a fraction of full scale. No clamping. */
  function ToRelative(n: int): (r: real)
    ensures r * MaxSampleValue as real == n as real
    ensures 0 <= n <= MaxSampleValue ==> 0.0 <= r <= 1.0
    ensures -MaxSampleValue <= n <= MaxSampleValue ==> -1.0 <= r <= 1.0
  {
    n as real / MaxSampleValue as real
  }

  /** The `/ 2 + 0.5` remap from relative space into [0, 1], shared by sample
      placement and by the fitted circle's centre. */
  function AbsRelative(c: real): (r: real)
    ensures 2.0 * r - 1.0 == c
    ensures 0.0 <= r <= 1.0 <==> -1.0 <= c <= 1.0
    ensures c == -1.0 ==> r == 0.0
    ensures c == 0.0 ==> r == 0.5
    ensures c == 1.0 ==> r == 1.0
  {
    c / 2.0 + 0.5
  }

  /** `toAbsRelative`: the remap applied to this sample's relative value. */
  function ToAbsRelative(n: int): (r: real)
    ensures r * (2 * MaxSampleValue) as real == (n + MaxSampleValue) as real
    ensures -MaxSampleValue <= n <= MaxSampleValue ==> 0.0 <= r <= 1.0
  {
    var rel := ToRelative(n);
    var r := AbsRelative(rel);
    assert (2 * MaxSampleValue) as real == 4096.0 && MaxSampleValue as real == 2048.0;
    assert rel * 2048.0 == n as real;
    assert r * 4096.0 == (2.0 * r) * 2048.0 == (rel + 1.0) * 2048.0;
    r
  }

  /** `int(v * size)`: a value of [0, 1] scaled to a canvas of `size` pixels
      and truncated toward zero. */
  function ScaleToPixel(v: real, size: int): (p: int)
    ensures 0.0 <= v && 0 <= size ==> 0 <= p
    ensures 0.0 <= v <= 1.0 && 0 <= size ==> p <= size
  {
    assert 0.0 <= v <= 1.0 && 0 <= size ==> v * size as real <= size as real;
    Trunc(v * size as real)
  }

  /** `toPixel`: the abs-relative value scaled by `size` and truncated toward
      zero. In range it stays on the canvas; full scale hits its edges. */
  function ToPixel(n: int, size: int): (p: int)
    ensures -MaxSampleValue <= n <= MaxSampleValue && 0 <= size ==> 0 <= p <= size
    ensures n == MaxSampleValue ==> p == size
    ensures n == -MaxSampleValue ==> p == 0
  {
    assert ToAbsRelative(MaxSampleValue) == 1.0;
    assert ToAbsRelative(-MaxSampleValue) == 0.0;
    ScaleToPixel(ToAbsRelative(n), size)
  }

  /** Scaling by a non-negative factor preserves order. */
  lemma ScaleMonotone(u: real, v: real, s: real)
    requires u <= v
    requires 0.0 <= s
    ensures u * s <= v * s
  {
  }

  /** Scaling to a non-negative size and truncating preserves order. */
  lemma ScaleToPixelMonotone(v1: real, v2: real, size: int)
    requires v1 <= v2
    requires 0 <= size
    ensures ScaleToPixel(v1, size) <= ScaleToPixel(v2, size)
  {
    ScaleMonotone(v1, v2, size as real);
    TruncMonotone(v1 * size as real, v2 * size as real);
  }

  /** The pixel coordinate is the integer quotient `(n + 2048) * size / 4096`
      rounded toward zero: an all-integer reference for `toPixel`. */
  lemma ToPixelIsIntegerQuotient(n: int, size: int)
    ensures ToPixel(n, size) == TruncDiv((n + MaxSampleValue) * size, 2 * MaxSampleValue)
  {
    var m := (n + MaxSampleValue) * size;
    ScaledAsQuotient(n, size);
    TruncOfQuotient(m, 2 * MaxSampleValue);
    assert ToPixel(n, size) == Trunc(m as real / (2 * MaxSampleValue) as real);
  }

  /** The scaled abs-relative value is the exact quotient of two integers. */
  lemma ScaledAsQuotient(n: int, size: int)
    ensures ToAbsRelative(n) * size as real
         == ((n + MaxSampleValue) * size) as real / (2 * MaxSampleValue) as real
  {
  }

  /** For a fixed non-negative canvas size, a larger native value never lands
      on a smaller pixel. */
  lemma ToPixelMonotone(n1: int, n2: int, size: int)
    requires n1 <= n2
    requires 0 <= size
    ensures ToPixel(n1, size) <= ToPixel(n2, size)
  {
    ToPixelIsIntegerQuotient(n1, size);
    ToPixelIsIntegerQuotient(n2, size);
    ProductMonotone(n1 + MaxSampleValue, n2 + MaxSampleValue, size);
    TruncDivMonotone((n1 + MaxSampleValue) * size, (n2 + MaxSampleValue) * size, 2 * MaxSampleValue);
  }
}
