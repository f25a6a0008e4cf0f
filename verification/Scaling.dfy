/** Rounding scales: the arithmetic under the panel geometry, the pen and touch axes and the
    backlight.  The sources divide non-negative 64-bit products, where truncation is the floor. */
module Scaling {
  const MAX_I32 := 0x7FFF_FFFF
  const MIN_I32 := -0x8000_0000

  type I32 = n: int | MIN_I32 <= n <= MAX_I32

  /** Integer division truncates towards zero. */
  function Quotient(a: int, b: int): int
    requires b > 0
  {
    if a >= 0 then a / b else -(-a / b)
  }

  /** A narrowing cast keeps the low 32 bits. */
  function Wrapped(n: int): I32 {
    (n - MIN_I32) % 0x1_0000_0000 + MIN_I32
  }

  function Clamp(n: int, low: int, high: int): int
    requires low <= high
  {
    if n < low then low else if n > high then high else n
  }

  function ScaleRound(value: I32, source: I32, target: I32): I32
    requires source > 0
  {
    Wrapped(Quotient(value * target + source / 2, source))
  }

  function ScaleFloor(value: I32, source: I32, target: I32): I32
    requires source > 0
  {
    Wrapped(Quotient(value * target, source))
  }

  function ScaleCeil(value: I32, source: I32, target: I32): I32
    requires source > 0
  {
    Wrapped(Quotient(value * target + source - 1, source))
  }

  // ----- Division -----

  /** `q` is the floor of n / d, said without dividing. */
  predicate Floors(q: int, n: int, d: int) {
    q * d <= n < q * d + d
  }

  lemma {:induction false} ProductGap(k: int, q: int, d: int)
    requires d > 0 && k > q
    ensures k * d >= q * d + d
    decreases k - q
  {
    assert k * d == (k - 1) * d + d;
    if k > q + 1 {
      ProductGap(k - 1, q, d);
    }
  }

  lemma Smaller(a: int, b: int, d: int)
    requires d > 0 && a * d < b * d
    ensures a < b
  {
    if a > b {
      ProductGap(a, b, d);
    }
  }

  lemma FloorsInOrder(n: int, m: int, d: int, q: int, k: int)
    requires d > 0 && n <= m && Floors(q, n, d) && Floors(k, m, d)
    ensures q <= k
  {
    if q > k {
      ProductGap(q, k, d);
    }
  }

  lemma OneFloor(n: int, d: int, q: int, k: int)
    requires d > 0 && Floors(q, n, d) && Floors(k, n, d)
    ensures q == k
  {
    FloorsInOrder(n, n, d, q, k);
    FloorsInOrder(n, n, d, k, q);
  }

  lemma DivisionFloors(n: int, d: int)
    requires d > 0
    ensures Floors(n / d, n, d)
  {
  }

  lemma Products(a: int, b: int, c: int)
    requires 0 <= a <= b && 0 <= c
    ensures 0 <= a * c <= b * c
  {
  }

  /** A quotient that fits in 32 bits is not wrapped. */
  lemma Unwrapped(n: int, d: int, top: I32)
    requires d > 0 && 0 <= top && 0 <= n < top * d + d
    ensures Floors(Wrapped(Quotient(n, d)), n, d) && 0 <= Wrapped(Quotient(n, d)) <= top
  {
    DivisionFloors(n, d);
    var q := n / d;
    assert Floors(0, 0, d) && Floors(top, top * d + d - 1, d);
    FloorsInOrder(0, n, d, 0, q);
    FloorsInOrder(n, top * d + d - 1, d, q, top);
  }

  lemma FloorInRange(v: I32, s: I32, t: I32)
    requires 0 < s && 0 <= v * t <= t * s && 0 <= t
    ensures Floors(ScaleFloor(v, s, t), v * t, s) && 0 <= ScaleFloor(v, s, t) <= t
  {
    Unwrapped(v * t, s, t);
  }

  lemma RoundInRange(v: I32, s: I32, t: I32)
    requires 0 < s && 0 <= v * t <= t * s && 0 <= t
    ensures Floors(ScaleRound(v, s, t), v * t + s / 2, s) && 0 <= ScaleRound(v, s, t) <= t
  {
    Unwrapped(v * t + s / 2, s, t);
  }

  lemma CeilInRange(v: I32, s: I32, t: I32)
    requires 0 < s && 0 <= v * t <= t * s && 0 <= t
    ensures Floors(ScaleCeil(v, s, t), v * t + s - 1, s) && 0 <= ScaleCeil(v, s, t) <= t
  {
    Unwrapped(v * t + s - 1, s, t);
  }

  lemma FloorRoundCeil(n: int, d: int, a: int, b: int, c: int)
    requires 0 < d && Floors(a, n, d) && Floors(b, n + d / 2, d) && Floors(c, n + d - 1, d)
    ensures a <= b <= c
  {
    FloorsInOrder(n, n + d / 2, d, a, b);
    FloorsInOrder(n + d / 2, n + d - 1, d, b, c);
  }

  /** In range nothing wraps: each scale rounds value * target / source and stays in the target. */
  lemma InRange(v: I32, s: I32, t: I32)
    requires 0 <= v <= s && 0 < s && 0 <= t
    ensures Floors(ScaleFloor(v, s, t), v * t, s)
    ensures Floors(ScaleRound(v, s, t), v * t + s / 2, s)
    ensures Floors(ScaleCeil(v, s, t), v * t + s - 1, s)
    ensures 0 <= ScaleFloor(v, s, t) <= ScaleRound(v, s, t) <= ScaleCeil(v, s, t) <= t
  {
    Products(v, s, t);
    assert 0 <= v * t <= t * s;
    FloorInRange(v, s, t);
    RoundInRange(v, s, t);
    CeilInRange(v, s, t);
    FloorRoundCeil(v * t, s, ScaleFloor(v, s, t), ScaleRound(v, s, t), ScaleCeil(v, s, t));
  }

  // ----- Round trips -----

  /** Rounding up to a finer scale and back. */
  lemma RoundedBack(v: int, s: int, t: int, q: int, w: int)
    requires 0 <= v <= s && 0 < s <= t
    requires Floors(q, v * t + s / 2, s) && Floors(w, q * s + t / 2, t)
    ensures w == v
  {
    if s == t {
      OneFloor(v * t + s / 2, s, q, v);
    } else {
      assert s / 2 + t / 2 < t && s - s / 2 - 1 <= t / 2;
    }
    OneFloor(q * s + t / 2, t, w, v);
  }

  /** Scaling up and back down again is the identity. */
  lemma RoundTrip(v: I32, s: I32, t: I32)
    requires 0 <= v <= s && 0 < s <= t
    ensures 0 <= ScaleRound(v, s, t) <= t && ScaleRound(ScaleRound(v, s, t), t, s) == v
  {
    InRange(v, s, t);
    var q := ScaleRound(v, s, t);
    InRange(q, t, s);
    RoundedBack(v, s, t, q, ScaleRound(q, t, s));
  }

  /** Scaling never reverses an order. */
  lemma Monotone(v: I32, w: I32, s: I32, t: I32)
    requires 0 <= v <= w <= s && 0 < s && 0 <= t
    ensures ScaleRound(v, s, t) <= ScaleRound(w, s, t) && ScaleFloor(v, s, t) <= ScaleFloor(w, s, t)
  {
    InRange(v, s, t);
    InRange(w, s, t);
    Products(v, w, t);
    FloorsInOrder(v * t, w * t, s, ScaleFloor(v, s, t), ScaleFloor(w, s, t));
    FloorsInOrder(v * t + s / 2, w * t + s / 2, s, ScaleRound(v, s, t), ScaleRound(w, s, t));
  }

  lemma LastFloors(s: int, t: int, q: int)
    requires 0 < s && Floors(q, s * t + s / 2, s)
    ensures q == t
  {
    assert Floors(t, s * t + s / 2, s) by {
      assert t * s == s * t;
    }
    OneFloor(s * t + s / 2, s, q, t);
  }

  lemma Endpoints(s: I32, t: I32)
    requires 0 < s && 0 <= t
    ensures ScaleRound(0, s, t) == 0 && ScaleRound(s, s, t) == t
  {
    FirstIsKept(s, t);
    InRange(s, s, t);
    LastFloors(s, t, ScaleRound(s, s, t));
  }

  lemma FirstIsKept(s: I32, t: I32)
    requires 0 < s && 0 <= t
    ensures ScaleRound(0, s, t) == 0
  {
    InRange(0, s, t);
    OneFloor(s / 2, s, ScaleRound(0, s, t), 0);
  }

  /** Where every value returns, the scale is strictly increasing, so it climbs at least one a step. */
  lemma {:induction false} ReturningClimbs(v: I32, s: I32, t: I32)
    requires 0 <= v <= s && 0 < s && 0 < t
    requires forall w: I32 :: 0 <= w <= v ==> ScaleRound(ScaleRound(w, s, t), t, s) == w
    ensures ScaleRound(v, s, t) >= v
    decreases v
  {
    if v > 0 {
      ReturningClimbs(v - 1, s, t);
      Monotone(v - 1, v, s, t);
      assert ScaleRound(ScaleRound(v - 1, s, t), t, s) == v - 1;
    } else {
      InRange(v, s, t);
    }
  }

  /** Every value survives the round trip exactly when the target is at least as fine as the source. */
  lemma RoundTripExactly(s: I32, t: I32)
    requires 0 < s && 0 < t
    ensures (forall v: I32 :: 0 <= v <= s ==> ScaleRound(ScaleRound(v, s, t), t, s) == v) <==> s <= t
  {
    if s <= t {
      forall v: I32 | 0 <= v <= s
        ensures ScaleRound(ScaleRound(v, s, t), t, s) == v
      {
        RoundTrip(v, s, t);
      }
    } else if forall v: I32 :: 0 <= v <= s ==> ScaleRound(ScaleRound(v, s, t), t, s) == v {
      ReturningClimbs(s, s, t);
      Endpoints(s, t);
    }
  }

  // ----- Backlight -----

  type Percent = n: int | 0 <= n <= 255

  type U32 = n: int | 0 <= n <= 0xFFFF_FFFF

  function NativeFromPercent(percent: Percent, max: U32): U32 {
    if percent == 0 || max == 0 then 0 else Clamp((percent * max + 50) / 100, 1, max)
  }

  function PercentFromNative(brightness: U32, max: U32): Percent {
    if max == 0 then 0
    else
      var dimmed := if brightness > max then max else brightness;
      var percent := Wide(dimmed, max);
      if percent > 100 then 100 else percent
  }

  function Wide(n: U32, max: U32): (r: nat)
    requires 0 < max
  {
    (n * 100 + max / 2) / max
  }

  lemma BacklightRoundTrip(percent: Percent, max: U32)
    requires percent <= 100 <= max
    ensures PercentFromNative(NativeFromPercent(percent, max), max) == percent
  {
    var q := (percent * max + 50) / 100;
    DivisionFloors(percent * max + 50, 100);
    Products(percent, 100, max);
    if percent > 0 {
      Products(1, percent, max);
      assert 1 <= q <= max;
    }
    DivisionFloors(q * 100 + max / 2, max);
    RoundedBack(percent, 100, max, q, (q * 100 + max / 2) / max);
  }

  /** A panel with fewer than a hundred levels cannot keep every percentage: some two of them share
      a level. */
  lemma {:induction false} SharedLevel(max: U32, top: Percent)
    requires top <= 100
    requires forall p: Percent :: p <= top ==> PercentFromNative(NativeFromPercent(p, max), max) == p
    ensures NativeFromPercent(top, max) >= top
    decreases top
  {
    if top > 0 {
      SharedLevel(max, top - 1);
      assert NativeFromPercent(top - 1, max) != NativeFromPercent(top, max) by {
        assert PercentFromNative(NativeFromPercent(top - 1, max), max) == top - 1;
      }
      Products(top - 1, top, max);
      assert (top - 1) * max + 50 <= top * max + 50;
    }
  }

  lemma BacklightExactly(max: U32)
    ensures (forall p: Percent :: p <= 100 ==> PercentFromNative(NativeFromPercent(p, max), max) == p) <==> max >= 100
  {
    if max >= 100 {
      forall p: Percent | p <= 100
        ensures PercentFromNative(NativeFromPercent(p, max), max) == p
      {
        BacklightRoundTrip(p, max);
      }
    } else if forall p: Percent :: p <= 100 ==> PercentFromNative(NativeFromPercent(p, max), max) == p {
      SharedLevel(max, 100);
    }
  }

  /** No percentage but zero turns the panel off, a hundred is its highest level, and more percent is
      never darker. */
  lemma BacklightInRange(percent: Percent, more: Percent, max: U32)
    requires percent <= more
    ensures NativeFromPercent(0, max) == 0
    ensures percent > 0 && max > 0 ==> 1 <= NativeFromPercent(percent, max) <= max
    ensures percent >= 100 ==> NativeFromPercent(percent, max) == max
    ensures NativeFromPercent(percent, max) <= NativeFromPercent(more, max)
  {
    Products(percent, more, max);
    if percent >= 100 {
      Products(100, percent, max);
    }
  }

  /** The percentage read back never exceeds a hundred, is a hundred at the highest level and above, is
      zero at level zero, and grows with the level. */
  lemma PercentInRange(level: U32, more: U32, max: U32)
    requires level <= more
    ensures PercentFromNative(level, max) <= PercentFromNative(more, max) <= 100
    ensures max > 0 && level >= max ==> PercentFromNative(level, max) == 100
    ensures PercentFromNative(0, max) == 0
  {
    if max > 0 {
      WideInOrder(if level > max then max else level, if more > max then max else more, max);
      WideEnds(max);
    }
  }

  lemma WideInOrder(a: U32, b: U32, max: U32)
    requires 0 < max && a <= b
    ensures Wide(a, max) <= Wide(b, max)
  {
    DivisionFloors(a * 100 + max / 2, max);
    DivisionFloors(b * 100 + max / 2, max);
    FloorsInOrder(a * 100 + max / 2, b * 100 + max / 2, max, Wide(a, max), Wide(b, max));
  }

  lemma WideEnds(max: U32)
    requires 0 < max
    ensures Wide(0, max) == 0 && Wide(max, max) == 100
  {
    DivisionFloors(max / 2, max);
    OneFloor(max / 2, max, Wide(0, max), 0);
    DivisionFloors(max * 100 + max / 2, max);
    OneFloor(max * 100 + max / 2, max, Wide(max, max), 100);
  }

  // ----- Pen and touch axes -----

  datatype AxisRange = AxisRange(minimum: I32, maximum: I32)

  /** The length of the range fits in 32 bits. */
  predicate Spans(a: AxisRange) {
    a.maximum - a.minimum <= MAX_I32
  }

  /** Division by a number of either sign, towards zero. */
  function Truncated(n: int, d: int): int
    requires d != 0
  {
    if d > 0 then Quotient(n, d) else -Quotient(n, -d)
  }

  /** The subtractions are unchecked, so the length of a longer range is negative. */
  function AxisScale(a: AxisRange, value: I32, extent: I32): I32 {
    if extent <= 1 || a.maximum <= a.minimum then 0
    else
      var source := Wrapped(a.maximum - a.minimum);
      var reading := Wrapped(Clamp(value, a.minimum, a.maximum) - a.minimum);
      Wrapped(Truncated(reading * (extent - 1) + Truncated(source, 2), source))
  }

  lemma IsKept(n: I32)
    requires 0 < n
    ensures Wrapped(n) == n && Truncated(n, 2) == n / 2
  {
  }

  lemma AxisScales(a: AxisRange, value: I32, extent: I32)
    requires Spans(a) && 1 < extent && a.minimum < a.maximum
    ensures AxisScale(a, value, extent) ==
            ScaleRound(Clamp(value, a.minimum, a.maximum) - a.minimum, a.maximum - a.minimum, extent - 1)
  {
    var source, reading := a.maximum - a.minimum, Clamp(value, a.minimum, a.maximum) - a.minimum;
    IsKept(source);
    if reading > 0 {
      IsKept(reading);
    }
    assert AxisScale(a, value, extent) == Wrapped(Truncated(reading * (extent - 1) + source / 2, source));
  }

  lemma ReadingsInOrder(x: I32, y: I32, s: I32, t: I32)
    requires 0 <= x <= y <= s && 0 < s && 0 < t
    ensures 0 <= ScaleRound(x, s, t) <= ScaleRound(y, s, t) <= t
    ensures ScaleRound(0, s, t) == 0 && ScaleRound(s, s, t) == t
  {
    Monotone(x, y, s, t);
    InRange(x, s, t);
    InRange(y, s, t);
    Endpoints(s, t);
  }

  /** Readings map into the extent in order, and the ends of the range hit its ends. */
  lemma AxisIsMonotone(a: AxisRange, v: I32, w: I32, extent: I32)
    requires Spans(a) && v <= w && extent > 0
    ensures 0 <= AxisScale(a, v, extent) <= AxisScale(a, w, extent) < extent
    ensures a.minimum < a.maximum ==>
              AxisScale(a, a.minimum, extent) == 0 && AxisScale(a, a.maximum, extent) == extent - 1
  {
    if extent > 1 && a.maximum > a.minimum {
      AxisScales(a, v, extent);
      AxisScales(a, w, extent);
      AxisScales(a, a.minimum, extent);
      AxisScales(a, a.maximum, extent);
      ReadingsInOrder(Clamp(v, a.minimum, a.maximum) - a.minimum, Clamp(w, a.minimum, a.maximum) - a.minimum,
                      a.maximum - a.minimum, extent - 1);
    }
  }

  lemma LongWraps(n: int)
    requires MAX_I32 < n < 0x1_0000_0000
    ensures Wrapped(n) == n - 0x1_0000_0000 && Truncated(Wrapped(n), 2) == -((0x1_0000_0000 - n) / 2)
  {
  }

  lemma NegativeQuotient(n: int, d: int, q: int)
    requires 0 < d && 0 <= n && 0 < q <= -MIN_I32 && Floors(q, n, d)
    ensures Wrapped(Truncated(n, -d)) == -q
  {
    DivisionFloors(n, d);
    OneFloor(n, d, q, n / d);
  }

  /** A reading a little way into a range that is too long. */
  lemma ReadsNegative(a: AxisRange, reading: I32, extent: I32, q: int)
    requires !Spans(a) && 1 < extent && 0 < reading
    requires var d := 0x1_0000_0000 - (a.maximum - a.minimum);
             && 0 < q <= -MIN_I32 && d / 2 <= reading * (extent - 1)
             && Floors(q, reading * (extent - 1) - d / 2, d)
    ensures reading + a.minimum <= a.maximum && AxisScale(a, reading + a.minimum, extent) == -q
  {
    var d := 0x1_0000_0000 - (a.maximum - a.minimum);
    LongWraps(a.maximum - a.minimum);
    IsKept(reading);
    NegativeQuotient(reading * (extent - 1) - d / 2, d, q);
    assert AxisScale(a, reading + a.minimum, extent) == Wrapped(Truncated(reading * (extent - 1) + -(d / 2), -d));
  }

  /** On a range that is too long some reading is off the screen, on the wrong side of it. */
  lemma LongRangeLeaves(a: AxisRange, extent: I32) returns (value: I32)
    requires !Spans(a) && 2 < extent
    ensures AxisScale(a, value, extent) < 0
  {
    var d, e := 0x1_0000_0000 - (a.maximum - a.minimum), extent - 1;
    var reading := (d + d / 2 + e - 1) / e;
    DivisionFloors(d + d / 2 + e - 1, e);
    FirstBeyond(reading, d, e);
    var q := (reading * e - d / 2) / d;
    DivisionFloors(reading * e - d / 2, d);
    QuotientIsSmall(reading * e - d / 2, d, e, q);
    ReadsNegative(a, reading, extent, q);
    value := reading + a.minimum;
  }

  lemma FirstBeyond(reading: int, d: int, e: int)
    requires 0 < d <= -MIN_I32 && 2 <= e <= MAX_I32 && Floors(reading, d + d / 2 + e - 1, e)
    ensures 0 < reading <= MAX_I32 && d + d / 2 <= reading * e < d + d / 2 + e
  {
    Smaller(0, reading, e);
    assert reading * e < (MAX_I32 + 1) * e;
    Smaller(reading, MAX_I32 + 1, e);
  }

  lemma QuotientIsSmall(n: int, d: int, e: int, q: int)
    requires 0 < d && e <= MAX_I32 && d <= n < d + e && Floors(q, n, d)
    ensures 0 < q <= -MIN_I32
  {
    Smaller(0, q, d);
    assert q * d < (1 - MIN_I32) * d;
    Smaller(q, 1 - MIN_I32, d);
  }

  /** Every reading is on the screen if and only if the length of the range fits in 32 bits. */
  lemma AxisStaysExactly(a: AxisRange, extent: I32)
    requires 2 < extent
    ensures (forall v: I32 :: 0 <= AxisScale(a, v, extent) < extent) <==> Spans(a)
  {
    if Spans(a) {
      forall v: I32
        ensures 0 <= AxisScale(a, v, extent) < extent
      {
        AxisIsMonotone(a, v, v, extent);
      }
    } else {
      var value := LongRangeLeaves(a, extent);
    }
  }

  lemma ReadingOf(pixel: I32, s: I32, t: I32) returns (reading: I32)
    requires 0 <= pixel <= t && 0 < t <= s
    ensures 0 <= reading <= s && ScaleRound(reading, s, t) == pixel
  {
    RoundTrip(pixel, t, s);
    reading := ScaleRound(pixel, t, s);
  }

  /** A sensor at least as fine as the screen reaches every pixel. */
  lemma AxisReachesEveryPixel(a: AxisRange, extent: I32, pixel: I32) returns (value: I32)
    requires Spans(a) && 1 < extent && extent - 1 <= a.maximum - a.minimum && 0 <= pixel < extent
    ensures a.minimum <= value <= a.maximum && AxisScale(a, value, extent) == pixel
  {
    var reading := ReadingOf(pixel, a.maximum - a.minimum, extent - 1);
    value := a.minimum + reading;
    AxisScales(a, value, extent);
  }
}
