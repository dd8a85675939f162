/** The gripper's width and position, one byte of resolution (zero_franky/robotiq.py). */
module Gripper {
  import opened Wrappers

  // --- Rounding ----------------------------------------------------------------------------------------------

  /** Python's `round`: to the nearest integer, and to the even one of two. */
  function RoundHalfEven(x: real): int {
    var below := x.Floor;
    var rest := x - below as real;
    if rest < 0.5 then below
    else if rest > 0.5 then below + 1
    else if below % 2 == 0 then below
    else below + 1
  }

  /** Main result: rounding gives the one integer nearer than a half, or at a half and even. */
  lemma RoundIff(x: real, n: int)
    ensures n == RoundHalfEven(x) <==>
          -0.5 < x - n as real < 0.5 || ((x - n as real == 0.5 || x - n as real == -0.5) && n % 2 == 0)
  {
    var below := x.Floor;
    if n < below {
      assert n as real <= below as real - 1.0;
    } else if n > below + 1 {
      assert n as real >= below as real + 2.0;
    }
  }

  lemma FloorBelow(n: int, y: real)
    requires n as real <= y
    ensures n <= y.Floor
  {
  }

  lemma RoundMonotone(x: real, y: real)
    requires x <= y
    ensures RoundHalfEven(x) <= RoundHalfEven(y)
  {
    FloorBelow(x.Floor, y);
    if x.Floor < y.Floor {
      assert RoundHalfEven(x) <= x.Floor + 1;
    }
  }

  lemma RoundOfInteger(n: int)
    ensures RoundHalfEven(n as real) == n
  {
  }

  // --- Conversions ---------------------------------------------------------------------------------------------

  function ClampByte(value: real): Result<int> {
    var n := RoundHalfEven(value);
    if 0 <= n <= 255 then Success(n) else Failure(ValueError)
  }

  function Clamp(width: real, max: real): real {
    var low := if width > 0.0 then width else 0.0;
    if low < max then low else max
  }

  function Times(x: real, y: real): real {
    x * y
  }

  function Scaled(width: real, max: real): real
    requires max > 0.0
  {
    (1.0 - Clamp(width, max) / max) * 255.0
  }

  function WidthToPosition(width: real, max: real): Result<int> {
    if max <= 0.0 then Failure(ValueError) else Success(RoundHalfEven(Scaled(width, max)))
  }

  function PositionToWidth(position: real, max: real): Result<real> {
    var p :- ClampByte(position);
    Success(Times(1.0 - p as real / 255.0, max))
  }

  // --- Properties ------------------------------------------------------------------------------------------------

  /** Main result: a byte is refused exactly when it rounds out of range, 255.5 upwards but not -0.5. */
  lemma ByteAcceptedIff(value: real)
    ensures ClampByte(value).Success? <==> -0.5 <= value < 255.5
    ensures ClampByte(value).Success? ==> -0.5 <= value - ClampByte(value).value as real <= 0.5
  {
    var n := RoundHalfEven(value);
    RoundIff(value, n);
    if n <= -1 {
      assert n as real <= -1.0;
    } else if n >= 256 {
      assert n as real >= 256.0;
    } else {
      assert 0.0 <= n as real <= 255.0;
    }
  }

  /**
   Main result: a position is read as the byte it rounds to, so exactly those from -0.5 up to 255.5 have a width, and
   the widths fall evenly from the maximum at 0 to nothing at 255.
   */
  lemma WidthOfPosition(position: real, max: real)
    ensures PositionToWidth(position, max).Success? <==> -0.5 <= position < 255.5
    ensures
      PositionToWidth(position, max).Success? ==>
        var p := RoundHalfEven(position);
        && 0 <= p <= 255 && -0.5 <= position - p as real <= 0.5
        && PositionToWidth(position, max) == Success(Times(1.0 - p as real / 255.0, max))
  {
    ByteAcceptedIff(position);
  }

  lemma Ratio(t: real, max: real)
    requires max > 0.0
    ensures Times(t, max) / max == t
  {
  }

  /** The fraction of the width that is open. */
  lemma Fraction(width: real, max: real)
    requires max > 0.0
    ensures var t := Clamp(width, max) / max; 0.0 <= t <= 1.0 && Times(t, max) == Clamp(width, max)
  {
    var t := Clamp(width, max) / max;
    assert t * max == Clamp(width, max);
    SignOfProduct(t, max);
    SignOfProduct(1.0 - t, max);
    assert (1.0 - t) * max == max - t * max;
  }

  lemma SignOfProduct(x: real, y: real)
    requires y > 0.0
    ensures x * y < 0.0 <==> x < 0.0
  {
    if x >= 0.0 {
      assert x * y >= 0.0;
    }
  }

  /**
   Main result: for a positive maximum every width has a position in one byte, closed at 255 and open at 0.
   */
  lemma PositionIsAByte(width: real, max: real)
    ensures WidthToPosition(width, max).Success? <==> max > 0.0
    ensures
      max > 0.0 ==>
        var p := WidthToPosition(width, max).value;
        0 <= p <= 255 && (width <= 0.0 ==> p == 255) && (width >= max ==> p == 0)
  {
    if max > 0.0 {
      Fraction(width, max);
      RoundMonotone(0.0, Scaled(width, max));
      RoundMonotone(Scaled(width, max), 255.0);
      RoundOfInteger(0);
      RoundOfInteger(255);
      if width >= max {
        Ratio(1.0, max);
      }
    }
  }

  lemma DivideMonotone(a: real, b: real, max: real)
    requires a <= b && max > 0.0
    ensures a / max <= b / max
  {
    var step := b / max - a / max;
    assert step * max == b - a;
    SignOfProduct(step, max);
  }

  /** Main result: a wider opening never has a higher position. */
  lemma PositionIsAntitone(narrow: real, wide: real, max: real)
    requires narrow <= wide && max > 0.0
    ensures WidthToPosition(wide, max).value <= WidthToPosition(narrow, max).value
  {
    DivideMonotone(Clamp(narrow, max), Clamp(wide, max), max);
    RoundMonotone(Scaled(wide, max), Scaled(narrow, max));
  }

  /** Main result: a position turned into a width and back is the same position. */
  lemma PositionRoundTrip(position: int, max: real)
    requires 0 <= position <= 255 && max > 0.0
    ensures PositionToWidth(position as real, max).Success?
    ensures WidthToPosition(PositionToWidth(position as real, max).value, max) == Success(position)
  {
    RoundOfInteger(position);
    var open := 1.0 - position as real / 255.0;
    Within(open, max);
    Ratio(open, max);
    hide Times, RoundHalfEven;
    assert ClampByte(position as real) == Success(position);
    assert (1.0 - open) * 255.0 == position as real;
  }

  lemma Within(t: real, max: real)
    requires 0.0 <= t <= 1.0 && max > 0.0
    ensures 0.0 <= Times(t, max) <= max
  {
    SignOfProduct(t, max);
    SignOfProduct(1.0 - t, max);
    assert (1.0 - t) * max == max - t * max;
  }

  /** Main result: a width turned into a position and back is off by at most a 510th of the maximum width. */
  lemma WidthRoundTrip(width: real, max: real)
    requires max > 0.0
    ensures
      var p := WidthToPosition(width, max).value;
      && PositionToWidth(p as real, max).Success?
      && -max / 510.0 <= PositionToWidth(p as real, max).value - Clamp(width, max) <= max / 510.0
  {
    PositionIsAByte(width, max);
    Fraction(width, max);
    var p := WidthToPosition(width, max).value;
    RoundOfInteger(p);
    RoundIff(Scaled(width, max), p);
    hide Times, RoundHalfEven;
    var t := Clamp(width, max) / max;
    OffBy(1.0 - p as real / 255.0, t, max);
  }

  lemma OffBy(x: real, t: real, max: real)
    requires -1.0 / 510.0 <= x - t <= 1.0 / 510.0 && max > 0.0
    ensures -max / 510.0 <= Times(x, max) - Times(t, max) <= max / 510.0
  {
    var off := x - t;
    assert off * max == x * max - t * max;
    Within((off + 1.0 / 510.0) * 255.0, max);
    assert (off + 1.0 / 510.0) * 255.0 * max == 255.0 * (off * max) + max / 2.0;
  }

  /** The bound is attained, half a step from fully closed. */
  lemma BoundIsAttained(max: real)
    requires max > 0.0
    ensures
      var width := max / 510.0;
      && WidthToPosition(width, max) == Success(254)
      && PositionToWidth(254.0, max) == Success(width + max / 510.0)
  {
    var width := max / 510.0;
    assert width / max == 1.0 / 510.0;
    assert Scaled(width, max) == 254.5;
    RoundOfInteger(254);
  }
}
