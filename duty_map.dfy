/**
 * The speed-to-duty mapping of lib/dcMotor.py: a linear map followed by
 * `trunc(v + 0.5)`. Arithmetic is exact (real numbers), not floating point.
 */
module DutyMap {

  /** Rounding toward zero, as Python's `math.trunc` does. */
  function Trunc(x: real): (r: int)
    ensures 0.0 <= x ==> r as real <= x < r as real + 1.0
    ensures x < 0.0 ==> r as real - 1.0 < x <= r as real
  {
    if x >= 0.0 then x.Floor else -((-x).Floor)
  }

  /**
   * Maps `x` from the range inMin..inMax onto outMin..outMax with slope
   * m = (outMax - outMin) / (inMax - inMin) and intercept q = outMax - m * inMax,
   * then truncates `m * x + q + 0.5`. The source divides by `inMax - inMin`
   * without a guard, so equal input bounds are a caller error. The result is
   * `trunc(v + 0.5)` of the value v the line through (inMin, outMin) and
   * (inMax, outMax) takes at x.
   */
  function Map(x: int, inMin: int, inMax: int, outMin: int, outMax: int): (r: int)
    requires inMin != inMax
    ensures r == Trunc(Line(x, inMin, inMax, outMin, outMax) + 0.5)
  {
    var m := Slope(inMin, inMax, outMin, outMax);
    var q := outMax as real - m * inMax as real;
    assert m * x as real + q == outMin as real + m * (x - inMin) as real by {
      assert m * (inMax - inMin) as real == (outMax - outMin) as real;
      calc {
        m * x as real + q;
        outMax as real - m * (inMax - inMin) as real + m * (x - inMin) as real;
        outMin as real + m * (x - inMin) as real;
      }
    }
    Trunc(m * x as real + q + 0.5)
  }

  /** The slope of the map: the output span over the input span. */
  function Slope(inMin: int, inMax: int, outMin: int, outMax: int): (m: real)
    requires inMin != inMax
  {
    (outMax - outMin) as real / (inMax - inMin) as real
  }

  /** The line through (inMin, outMin) with the map's slope, in point-slope form. */
  function Line(x: int, inMin: int, inMax: int, outMin: int, outMax: int): (v: real)
    requires inMin != inMax
  {
    outMin as real + Slope(inMin, inMax, outMin, outMax) * (x - inMin) as real
  }

  /** With non-decreasing output bounds the slope is not negative. */
  lemma SlopeNonNegative(inMin: int, inMax: int, outMin: int, outMax: int)
    requires inMin < inMax && outMin <= outMax
    ensures 0.0 <= Slope(inMin, inMax, outMin, outMax)
  {
  }

  /** Truncation never decreases when its argument grows. */
  lemma TruncMonotone(x: real, y: real)
    requires x <= y
    ensures Trunc(x) <= Trunc(y)
  {
    if x < 0.0 && 0.0 <= y {
    } else if x < 0.0 {
      assert (-y).Floor <= (-x).Floor;
    }
  }

  /** For a non-negative integer n, `trunc(n + 0.5)` is n itself. */
  lemma TruncHalfAbove(n: int)
    requires 0 <= n
    ensures Trunc(n as real + 0.5) == n
  {
  }

  /** The lower end of the input range maps exactly onto a non-negative outMin. */
  lemma MapAtInMin(inMin: int, inMax: int, outMin: int, outMax: int)
    requires inMin != inMax && 0 <= outMin
    ensures Map(inMin, inMin, inMax, outMin, outMax) == outMin
  {
    TruncHalfAbove(outMin);
  }

  /** The upper end of the input range maps exactly onto a non-negative outMax. */
  lemma MapAtInMax(inMin: int, inMax: int, outMin: int, outMax: int)
    requires inMin != inMax && 0 <= outMax
    ensures Map(inMax, inMin, inMax, outMin, outMax) == outMax
  {
    var m := Slope(inMin, inMax, outMin, outMax);
    assert m * (inMax - inMin) as real == (outMax - outMin) as real;
    TruncHalfAbove(outMax);
  }

  /** With increasing input bounds and non-decreasing output bounds the map is monotone. */
  lemma MapMonotone(x: int, y: int, inMin: int, inMax: int, outMin: int, outMax: int)
    requires inMin < inMax && outMin <= outMax && x <= y
    ensures Map(x, inMin, inMax, outMin, outMax) <= Map(y, inMin, inMax, outMin, outMax)
  {
    LineMonotone(x, y, inMin, inMax, outMin, outMax);
    TruncMonotone(Line(x, inMin, inMax, outMin, outMax) + 0.5, Line(y, inMin, inMax, outMin, outMax) + 0.5);
  }

  /** The line rises with x when the output bounds do not decrease. */
  lemma LineMonotone(x: int, y: int, inMin: int, inMax: int, outMin: int, outMax: int)
    requires inMin < inMax && outMin <= outMax && x <= y
    ensures Line(x, inMin, inMax, outMin, outMax) <= Line(y, inMin, inMax, outMin, outMax)
  {
    SlopeNonNegative(inMin, inMax, outMin, outMax);
    ScaleMonotone(Slope(inMin, inMax, outMin, outMax), (x - inMin) as real, (y - inMin) as real);
  }

  /** Multiplying by a non-negative factor keeps the order. */
  lemma ScaleMonotone(m: real, a: real, b: real)
    requires 0.0 <= m && a <= b
    ensures m * a <= m * b
  {
    assert m * b - m * a == m * (b - a);
    assert 0.0 <= m * (b - a);
  }

  /** An input inside its range lands inside a non-negative output range. */
  lemma MapWithinRange(x: int, inMin: int, inMax: int, outMin: int, outMax: int)
    requires inMin < inMax && 0 <= outMin <= outMax && inMin <= x <= inMax
    ensures outMin <= Map(x, inMin, inMax, outMin, outMax) <= outMax
  {
    MapMonotone(inMin, x, inMin, inMax, outMin, outMax);
    MapMonotone(x, inMax, inMin, inMax, outMin, outMax);
    MapAtInMin(inMin, inMax, outMin, outMax);
    MapAtInMax(inMin, inMax, outMin, outMax);
  }

  /**
   * The closed integer form of the only mapping the motor uses,
   * map(speed, 0, 100, 0, 1023): (1023 * speed + 50) / 100, truncated toward zero.
   */
  function PercentToDuty(speed: int): (duty: int)
  {
    var n := 1023 * speed + 50;
    if n >= 0 then n / 100 else -((-n) / 100)
  }

  /** map(speed, 0, 100, 0, 1023) agrees with the integer formula on every speed. */
  lemma MapPercentFormula(speed: int)
    ensures Map(speed, 0, 100, 0, 1023) == PercentToDuty(speed)
  {
    var m := Slope(0, 100, 0, 1023);
    assert m == 10.23;
    var n := 1023 * speed + 50;
    var v := m * speed as real + (1023.0 - m * 100.0) + 0.5;
    assert v == n as real / 100.0;
    if n >= 0 {
      var k := n / 100;
      assert k as real <= v < k as real + 1.0 by {
        assert k * 100 <= n < k * 100 + 100;
      }
    } else {
      var k := (-n) / 100;
      assert k as real <= -v < k as real + 1.0 by {
        assert k * 100 <= -n < k * 100 + 100;
      }
    }
  }

  /**
   * The reference values: 0 % gives duty 0, 100 % gives 1023, 50 % gives 512
   * (half rounded up), and every speed in 0..100 stays within the 10-bit range and
   * maps monotonically.
   */
  lemma PercentMapProperties(speed: int, other: int)
    ensures Map(0, 0, 100, 0, 1023) == 0
    ensures Map(100, 0, 100, 0, 1023) == 1023
    ensures Map(50, 0, 100, 0, 1023) == 512
    ensures 0 <= speed <= 100 ==> 0 <= Map(speed, 0, 100, 0, 1023) <= 1023
    ensures speed <= other ==> Map(speed, 0, 100, 0, 1023) <= Map(other, 0, 100, 0, 1023)
  {
    MapPercentFormula(0);
    MapPercentFormula(100);
    MapPercentFormula(50);
    MapPercentFormula(speed);
    MapPercentFormula(other);
    if speed <= other {
      MapMonotone(speed, other, 0, 100, 0, 1023);
    }
  }

  /**
   * Out-of-range speeds are passed through unclamped: 101 % gives duty 1033,
   * above the 10-bit maximum, and -1 % gives -9.
   */
  lemma PercentMapUnclamped()
    ensures Map(101, 0, 100, 0, 1023) == 1033
    ensures Map(-1, 0, 100, 0, 1023) == -9
  {
    MapPercentFormula(101);
    MapPercentFormula(-1);
  }

  /**
   * `trunc(v + 0.5)` rounds half up only for v >= -0.5: with a negative lower
   * output bound the lower endpoint is not reproduced.
   */
  lemma NegativeEndpointNotExact()
    ensures Map(0, 0, 100, -3, 0) == -2
  {
  }
}
