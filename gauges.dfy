/**
  The arithmetic behind the gauges' values and colours
  (Sources/Gauges.swift): `clamp`, the integer and floating `remap`, the
  index-clamping `stop`, the fps colour, and the thermal-state tables.
  The SwiftUI views themselves are not part of the model.
 */
module Gauges {
  import opened Report

  datatype Colour = Blue | Green | Yellow | Orange | Pink

  /** The palette of the CPU, RAM and FPS gauges. */
  const Palette: seq<Colour> := [Blue, Green, Yellow, Orange, Pink]
  /** The palette of the thermal gauge. */
  const ThermalPalette: seq<Colour> := [Blue, Green, Orange, Pink]

  /** `reversed()` */
  function Reversed<T>(s: seq<T>): (r: seq<T>)
    ensures |r| == |s|
    ensures forall i :: 0 <= i < |s| ==> r[i] == s[|s| - 1 - i]
  {
    if s == [] then [] else Reversed(s[1..]) + [s[0]]
  }

  /** Swift's `ClosedRange<Int>`, which cannot be formed with `lowerBound > upperBound`. */
  datatype Bounds = Bounds(lowerBound: int, upperBound: int)
  type ClosedRange = b: Bounds | b.lowerBound <= b.upperBound witness Bounds(0, 0)

  /** `ClosedRange<Float>` */
  datatype RealBounds = RealBounds(lowerBound: real, upperBound: real)
  type RealRange = b: RealBounds | b.lowerBound <= b.upperBound witness RealBounds(0.0, 0.0)

  /** `clamp(value:cap:)`, which is `min(value, cap)`. */
  function Clamp(value: int, cap: int): (r: int)
    ensures r <= cap && r <= value
    ensures r == value || r == cap
  {
    if value <= cap then value else cap
  }

  /** Swift's `Int` division, which rounds toward zero (Dafny's `/` is Euclidean). */
  function TruncDiv(a: int, b: int): int
    requires b != 0
  {
    if a >= 0 then (if b > 0 then a / b else -(a / -b))
    else (if b > 0 then -((-a) / b) else (-a) / (-b))
  }

  /**
    Truncating division leaves a remainder `a - q * b` that is smaller than
    `b` in magnitude and has the sign of the dividend.
   */
  lemma TruncDivRemainder(a: int, b: int)
    requires b != 0
    ensures var r := a - TruncDiv(a, b) * b;
      (a >= 0 ==> 0 <= r < (if b > 0 then b else -b)) &&
      (a < 0 ==> -(if b > 0 then b else -b) < r <= 0)
  {
    if a >= 0 && b < 0 {
      assert TruncDiv(a, b) * b == (a / -b) * -b;
    } else if a < 0 && b > 0 {
      assert TruncDiv(a, b) * b == -(((-a) / b) * b);
    } else if a < 0 && b < 0 {
      assert TruncDiv(a, b) * b == -(((-a) / (-b)) * -b);
    }
  }

  /** On operands of the same sign as in every use here, Swift's and Dafny's division agree. */
  lemma TruncDivNonNegative(a: int, b: int)
    requires a >= 0 && b > 0
    ensures TruncDiv(a, b) == a / b
  {
  }

  lemma MulNonNegative(a: int, b: int)
    requires a >= 0 && b >= 0
    ensures a * b >= 0
  {
  }

  /** A multiple `d * k` of a positive `d` that lies in `(-d, d)` is `0`, and one above `-d` has `k >= 0`. */
  lemma MultipleInWindow(d: int, k: int)
    requires d > 0 && d * k > -d
    ensures k >= 0
    ensures d * k < d ==> k == 0
  {
    if k < 0 {
      MulNonNegative(d, -k - 1);
    } else if k > 0 {
      MulNonNegative(d, k - 1);
    }
  }

  /** Euclidean division by a positive number is monotone in the dividend. */
  lemma DivMonotone(x: int, y: int, d: int)
    requires 0 <= x <= y && d > 0
    ensures x / d <= y / d
  {
    var qx, qy := x / d, y / d;
    var rx, ry := x % d, y % d;
    assert x == d * qx + rx && 0 <= rx < d;
    assert y == d * qy + ry && 0 <= ry < d;
    assert d * (qy - qx) == (y - x) - (ry - rx);
    MultipleInWindow(d, qy - qx);
  }

  /** Dividing a multiple of `d` by `d` gives the factor back. */
  lemma DivExact(w: int, d: int)
    requires d > 0
    ensures d * w / d == w
  {
    var q, r := d * w / d, d * w % d;
    assert d * w == d * q + r && 0 <= r < d;
    assert d * (w - q) == r;
    MultipleInWindow(d, w - q);
  }

  /** Truncating division by a positive number is monotone in the dividend. */
  lemma TruncDivMonotone(x: int, y: int, d: int)
    requires x <= y && d > 0
    ensures TruncDiv(x, d) <= TruncDiv(y, d)
  {
    if x >= 0 {
      DivMonotone(x, y, d);
      assert TruncDiv(x, d) == x / d && TruncDiv(y, d) == y / d;
    } else if y < 0 {
      DivMonotone(-y, -x, d);
      assert TruncDiv(x, d) == -((-x) / d) && TruncDiv(y, d) == -((-y) / d);
    } else {
      DivMonotone(0, -x, d);
      DivMonotone(0, y, d);
      assert 0 / d == 0;
      assert TruncDiv(x, d) == -((-x) / d) && TruncDiv(y, d) == y / d;
    }
  }

  /** Multiplying by `w` and then dividing by `d` gives at most `w` for a factor `a <= d`, and exactly `w` for `a == d`. */
  lemma ScaledQuotient(a: int, w: int, d: int)
    requires 0 <= a <= d && d > 0 && w >= 0
    ensures 0 <= TruncDiv(a * w, d) <= w
    ensures a == d ==> TruncDiv(a * w, d) == w
  {
    MulNonNegative(a, w);
    MulNonNegative(d - a, w);
    assert d * w - a * w == (d - a) * w;
    TruncDivNonNegative(a * w, d);
    TruncDivNonNegative(d * w, d);
    DivMonotone(a * w, d * w, d);
    DivExact(w, d);
  }

  /** The linear `remap` the code evidently means: the second factor is the width of `destination`. */
  function Remap(value: int, source: ClosedRange, destination: ClosedRange): (r: int)
    requires source.upperBound != source.lowerBound
    ensures value == source.lowerBound ==> r == destination.lowerBound
    ensures value == source.upperBound ==> r == destination.upperBound
    ensures source.lowerBound <= value <= source.upperBound ==>
      destination.lowerBound <= r <= destination.upperBound
  {
    var d := source.upperBound - source.lowerBound;
    var w := destination.upperBound - destination.lowerBound;
    var q := TruncDiv((value - source.lowerBound) * w, d);
    if source.lowerBound <= value <= source.upperBound then
      ScaledQuotient(value - source.lowerBound, w, d);
      destination.lowerBound + q
    else
      destination.lowerBound + q
  }

  /**
    The integer `remap(value:from:to:)` as written: its second factor is
    `destination.upperBound - source.lowerBound`.  It divides by the width
    of `source`, which traps when that width is 0.  Where the two lower
    bounds coincide, as at every call site (both are 0), it is the linear
    `Remap`.
   */
  function RemapAsWritten(value: int, source: ClosedRange, destination: ClosedRange): (r: int)
    requires source.upperBound != source.lowerBound
    ensures value == source.lowerBound ==> r == destination.lowerBound
    ensures source.lowerBound == destination.lowerBound ==> r == Remap(value, source, destination)
  {
    destination.lowerBound
      + TruncDiv((value - source.lowerBound) * (destination.upperBound - source.lowerBound),
                 source.upperBound - source.lowerBound)
  }

  /** With `source = 1...3` and `destination = 0...4` the upper bound 3 lands on 3, not on 4. */
  lemma RemapAsWrittenMissesUpperBound()
    ensures RemapAsWritten(3, Bounds(1, 3), Bounds(0, 4)) == 3
    ensures Remap(3, Bounds(1, 3), Bounds(0, 4)) == 4
  {
  }

  /** Multiplying by a non-negative factor keeps the order. */
  lemma MulMonotone(a: int, b: int, w: int)
    requires a <= b && w >= 0
    ensures a * w <= b * w
  {
    MulNonNegative(b - a, w);
    assert (b - a) * w == b * w - a * w;
  }

  /**
    With source `10...20` and destination `0...4` the remap as written runs
    backwards: 10 goes to 0 but 20 goes to -6, and 0 goes to 6.
   */
  lemma RemapAsWrittenNotMonotone()
    ensures RemapAsWritten(10, Bounds(10, 20), Bounds(0, 4)) == 0
    ensures RemapAsWritten(20, Bounds(10, 20), Bounds(0, 4)) == -6
    ensures RemapAsWritten(0, Bounds(10, 20), Bounds(0, 4)) == 6
  {
  }

  /** The linear `Remap` is monotone in its value. */
  lemma RemapMonotone(x: int, y: int, source: ClosedRange, destination: ClosedRange)
    requires source.upperBound != source.lowerBound && x <= y
    ensures Remap(x, source, destination) <= Remap(y, source, destination)
  {
    var w := destination.upperBound - destination.lowerBound;
    var d := source.upperBound - source.lowerBound;
    var a, b := x - source.lowerBound, y - source.lowerBound;
    MulMonotone(a, b, w);
    TruncDivMonotone(a * w, b * w, d);
    assert Remap(x, source, destination) == destination.lowerBound + TruncDiv(a * w, d);
    assert Remap(y, source, destination) == destination.lowerBound + TruncDiv(b * w, d);
  }

  /**
    The index that the integer `stop(for:in:from:)` picks among `count`
    items: the `remap` as written onto `0...count-1`, then clamped into
    range whatever `remap` yields.  With a lower bound of 0, as at every
    call site, that remap is the linear one.
   */
  function StopIndex(value: int, bounds: ClosedRange, count: nat): (i: int)
    requires count > 0 && bounds.upperBound != bounds.lowerBound
    ensures 0 <= i < count
    ensures bounds.lowerBound == 0 && 0 <= value <= bounds.upperBound ==>
      i == Remap(value, bounds, Bounds(0, count - 1))
  {
    var stop := RemapAsWritten(value, bounds, Bounds(0, count - 1));
    var low := if stop < 0 then 0 else stop;
    if low < count - 1 then low else count - 1
  }

  /** The integer `stop(for:in:from:)`: always one of `items`. */
  function Stop<T>(value: int, bounds: ClosedRange, items: seq<T>): (r: T)
    requires |items| > 0 && bounds.upperBound != bounds.lowerBound
    ensures r in items
  {
    items[StopIndex(value, bounds, |items|)]
  }

  /** With a lower bound of 0, a larger value never picks an earlier item. */
  lemma StopIndexMonotone(x: int, y: int, bounds: ClosedRange, count: nat)
    requires count > 0 && bounds.upperBound != bounds.lowerBound && bounds.lowerBound == 0 && x <= y
    ensures StopIndex(x, bounds, count) <= StopIndex(y, bounds, count)
  {
    RemapMonotone(x, y, bounds, Bounds(0, count - 1));
  }

  /**
    With any other lower bound the source's `stop` is not monotone: on
    `10...20` with five items, 0 picks the last item and 10 the first.
   */
  lemma StopIndexAsWrittenNotMonotone()
    ensures StopIndex(0, Bounds(10, 20), 5) == 4
    ensures StopIndex(10, Bounds(10, 20), 5) == 0
  {
    RemapAsWrittenNotMonotone();
  }

  /**
    The fps gauge with bounds `0...maxFps`, which needs `maxFps > 0`: with
    `maxFps == 0` the division in `remap` traps.  It shows
    `Clamp(fps, maxFps)` and colours it from the reversed palette.
   */
  function FpsColour(fps: int, maxFps: int): (r: Colour)
    requires maxFps > 0
    ensures r in Palette
  {
    Stop(Clamp(fps, maxFps), Bounds(0, maxFps), Reversed(Palette))
  }

  /**
    The fps colour runs from pink at no frames to blue at (or above) the
    display's maximum, and more frames never give a colour further from blue.
   */
  lemma FpsColourRange(fps: int, other: int, maxFps: int)
    requires maxFps > 0
    ensures fps >= maxFps ==> FpsColour(fps, maxFps) == Blue
    ensures fps <= 0 ==> FpsColour(fps, maxFps) == Pink
    ensures fps <= other ==>
      StopIndex(Clamp(fps, maxFps), Bounds(0, maxFps), 5) <= StopIndex(Clamp(other, maxFps), Bounds(0, maxFps), 5)
  {
    ReversedPalette();
    var b := Bounds(0, maxFps);
    if fps >= maxFps {
      assert Clamp(fps, maxFps) == maxFps;
      assert StopIndex(maxFps, b, 5) == 4;
    }
    if fps <= 0 {
      assert Clamp(fps, maxFps) == fps;
      RemapMonotone(fps, 0, b, Bounds(0, 4));
      assert StopIndex(fps, b, 5) == 0;
    }
    if fps <= other {
      StopIndexMonotone(Clamp(fps, maxFps), Clamp(other, maxFps), b, 5);
    }
  }

  /** The fps gauge's palette runs from pink to blue. */
  lemma ReversedPalette()
    ensures Reversed(Palette) == [Pink, Orange, Yellow, Green, Blue]
  {
    var r := Reversed(Palette);
    assert r[0] == Pink && r[1] == Orange && r[2] == Yellow && r[3] == Green && r[4] == Blue;
  }

  /** `ThermalState.float`: the thermal gauge's value. */
  function ThermalFloat(s: ThermalState): (r: real)
    ensures r < 0.0 <==> s == Unknown
    ensures s != Unknown ==> 0.0 <= r <= 3.0
  {
    match s
    case Nominal => 0.0
    case Fair => 1.0
    case Serious => 2.0
    case Critical => 3.0
    case Unknown => -1.0
  }

  /** The thermal gauge's bounds, `nominal.float ... critical.float`. */
  const ThermalBounds: RealRange := RealBounds(ThermalFloat(Nominal), ThermalFloat(Critical))

  /** The known states step through the gauge from 0 to 3; only `unknown` lies below it. */
  lemma ThermalFloatInBounds(s: ThermalState, t: ThermalState)
    ensures ThermalFloat(s) <= ThermalBounds.upperBound
    ensures ThermalFloat(s) < ThermalBounds.lowerBound <==> s == Unknown
    ensures s != Unknown && t != Unknown && ThermalFloat(s) == ThermalFloat(t) ==> s == t
  {
  }

  /** `ThermalState.symbol`: the SF Symbol shown beside the thermal gauge. */
  function Symbol(s: ThermalState): (r: string)
    ensures |r| > 0
  {
    match s
    case Nominal => "thermometer.snowflake"
    case Fair => "thermometer.low"
    case Serious => "thermometer.medium"
    case Critical => "thermometer.high"
    case Unknown => "questionmark"
  }

  /** Every thermal state has its own symbol. */
  lemma SymbolInjective(s: ThermalState, t: ThermalState)
    ensures Symbol(s) == Symbol(t) ==> s == t
  {
  }

  /** `Int(_:)` of a floating value, which rounds toward zero. */
  function TruncToInt(r: real): (i: int)
    ensures r >= 0.0 ==> i as real <= r < i as real + 1.0
    ensures r < 0.0 ==> i as real - 1.0 < r <= i as real
  {
    if r >= 0.0 then r.Floor else -((-r).Floor)
  }

  /** The linear floating `remap` the code evidently means, over exact reals. */
  function RemapReal(value: real, source: RealRange, destination: RealRange): (r: real)
    requires source.upperBound != source.lowerBound
    ensures value == source.lowerBound ==> r == destination.lowerBound
    ensures value == source.upperBound ==> r == destination.upperBound
    ensures source.lowerBound <= value <= source.upperBound ==>
      destination.lowerBound <= r <= destination.upperBound
  {
    var a, w, d := value - source.lowerBound, destination.upperBound - destination.lowerBound,
                   source.upperBound - source.lowerBound;
    if source.lowerBound <= value <= source.upperBound then
      RealScaled(a, w, d);
      destination.lowerBound + a * w / d
    else
      destination.lowerBound + a * w / d
  }

  /** A fraction `a / d` in `[0, 1]` of a non-negative width `w` lies in `[0, w]`. */
  lemma RealScaled(a: real, w: real, d: real)
    requires 0.0 <= a <= d && d > 0.0 && w >= 0.0
    ensures 0.0 <= a * w / d <= w
  {
    assert a * w <= d * w;
    assert a * w / d <= d * w / d;
  }

  /**
    The floating `remap(value:from:to:)` as written, over exact reals, with
    the same second factor as the integer one; on equal lower bounds it is
    the linear `RemapReal`.
   */
  function RemapRealAsWritten(value: real, source: RealRange, destination: RealRange): (r: real)
    requires source.upperBound != source.lowerBound
    ensures source.lowerBound == destination.lowerBound ==> r == RemapReal(value, source, destination)
  {
    destination.lowerBound
      + (value - source.lowerBound) * (destination.upperBound - source.lowerBound)
        / (source.upperBound - source.lowerBound)
  }

  /** With `source = 1...3` and `destination = 0...4` the upper bound 3 lands on 3, not on 4. */
  lemma RemapRealAsWrittenMissesUpperBound()
    ensures RemapRealAsWritten(3.0, RealBounds(1.0, 3.0), RealBounds(0.0, 4.0)) == 3.0
    ensures RemapReal(3.0, RealBounds(1.0, 3.0), RealBounds(0.0, 4.0)) == 4.0
  {
  }

  /** The floating `stop(for:in:from:)` index: the `remap` as written, round toward zero, clamp. */
  function StopRealIndex(value: real, bounds: RealRange, count: nat): (i: int)
    requires count > 0 && bounds.upperBound != bounds.lowerBound
    ensures 0 <= i < count
  {
    var stop := TruncToInt(RemapRealAsWritten(value, bounds, RealBounds(0.0, (count - 1) as real)));
    var low := if stop < 0 then 0 else stop;
    if low < count - 1 then low else count - 1
  }

  /** The colour of the thermal gauge. */
  function ThermalColour(s: ThermalState): (r: Colour)
    ensures r in ThermalPalette
  {
    var i := StopRealIndex(ThermalFloat(s), ThermalBounds, |ThermalPalette|);
    ThermalPalette[i]
  }

  /** Each known state gets its own colour; `unknown` maps to -1, which is clamped onto blue. */
  lemma ThermalColourTable(s: ThermalState)
    ensures ThermalColour(s) == match s
      case Nominal => Blue
      case Fair => Green
      case Serious => Orange
      case Critical => Pink
      case Unknown => Blue
  {
    var k := match s
      case Nominal => 0
      case Fair => 1
      case Serious => 2
      case Critical => 3
      case Unknown => -1;
    ThermalIndex(s, k);
  }

  /** A thermal value `k` that is a whole number is remapped onto itself and picks index `max(k, 0)`. */
  lemma ThermalIndex(s: ThermalState, k: int)
    requires ThermalFloat(s) == k as real && k <= 3
    ensures StopRealIndex(ThermalFloat(s), ThermalBounds, 4) == if k < 0 then 0 else k
  {
    ThermalRemapIdentity(k as real);
    TruncWhole(k);
  }

  lemma ThermalRemapIdentity(x: real)
    ensures RemapRealAsWritten(x, ThermalBounds, RealBounds(0.0, 3.0)) == x
  {
  }

  lemma TruncWhole(k: int)
    ensures TruncToInt(k as real) == k
  {
  }
}
