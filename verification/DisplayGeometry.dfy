/** Rectangles, and the mapping between an application's logical canvas and the physical panel. */
module DisplayGeometry {
  import opened Scaling

  datatype Rect = Rect(x: I32, y: I32, width: I32, height: I32) {
    predicate Empty() {
      width <= 0 || height <= 0
    }

    function Right(): I32 {
      Saturated(x + width)
    }

    function Bottom(): I32 {
      Saturated(y + height)
    }

    predicate Contains(px: int, py: int) {
      x <= px < Right() && y <= py < Bottom()
    }

    function Clip(w: I32, h: I32): Rect
      requires 0 <= w && 0 <= h
    {
      var x0, y0 := Clamp(x, 0, w), Clamp(y, 0, h);
      var x1, y1 := Clamp(Right(), 0, w), Clamp(Bottom(), 0, h);
      Rect(x0, y0, if x1 > x0 then x1 - x0 else 0, if y1 > y0 then y1 - y0 else 0)
    }

    /** The subtractions are unchecked. */
    function Union(other: Rect): Rect {
      if Empty() then other
      else if other.Empty() then this
      else
        var x0, y0 := Min(x, other.x), Min(y, other.y);
        var x1, y1 := Max(Right(), other.Right()), Max(Bottom(), other.Bottom());
        Between(x0, y0, x1, y1)
    }
  }

  function Saturated(n: int): I32 {
    Clamp(n, MIN_I32, MAX_I32)
  }

  function Min(a: I32, b: I32): I32 {
    if a < b then a else b
  }

  function Max(a: I32, b: I32): I32 {
    if a < b then b else a
  }

  // ----- Clipping and union -----

  /** Clipping is exactly intersection with the canvas. */
  lemma ClipIntersects(r: Rect, w: I32, h: I32, px: int, py: int)
    requires 0 <= w && 0 <= h
    ensures r.Clip(w, h).Contains(px, py) <==> r.Contains(px, py) && 0 <= px < w && 0 <= py < h
    ensures var c := r.Clip(w, h); 0 <= c.x && 0 <= c.y && c.x + c.width <= w && c.y + c.height <= h
  {
  }

  predicate Covers(big: Rect, small: Rect) {
    big.x <= small.x && big.y <= small.y && small.Right() <= big.Right() && small.Bottom() <= big.Bottom()
  }

  /** A bounding box with an edge of one of the two on each of its sides. */
  predicate Bounds(u: Rect, a: Rect, b: Rect) {
    && Covers(u, a) && Covers(u, b)
    && u.x in {a.x, b.x} && u.y in {a.y, b.y}
    && u.Right() in {a.Right(), b.Right()} && u.Bottom() in {a.Bottom(), b.Bottom()}
  }

  /** The union of two rectangles is their bounding box exactly when the box's own width and height
      fit in 32 bits; a wider one wraps to a negative size, and both damages are lost.  An empty box
      is otherwise left only of rectangles that start at the last coordinate and so hold no pixel. */
  lemma UnionBoundsExactly(a: Rect, b: Rect)
    requires !a.Empty() && !b.Empty()
    ensures var wide := Max(a.Right(), b.Right()) - Min(a.x, b.x) > MAX_I32;
            var tall := Max(a.Bottom(), b.Bottom()) - Min(a.y, b.y) > MAX_I32;
            && (Bounds(a.Union(b), a, b) <==> !wide && !tall)
            && (a.Union(b).Empty() <==> wide || tall || a.x == b.x == MAX_I32 || a.y == b.y == MAX_I32)
  {
  }

  // ----- The mapping -----

  datatype Geometry = Geometry(logicalWidth: I32, logicalHeight: I32, physicalWidth: I32, physicalHeight: I32) {
    /** What the constructor accepts. */
    predicate Valid() {
      0 < logicalWidth && 0 < logicalHeight && 0 < physicalWidth && 0 < physicalHeight
    }

    /** What the display host asks of its panel. */
    predicate Fits() {
      logicalWidth <= physicalWidth && logicalHeight <= physicalHeight
    }

    function ToPhysical(x: I32, y: I32): (I32, I32)
      requires Valid()
    {
      (Along(x, logicalWidth, physicalWidth), Along(y, logicalHeight, physicalHeight))
    }

    function ToLogical(x: I32, y: I32): (I32, I32)
      requires Valid()
    {
      (Along(x, physicalWidth, logicalWidth), Along(y, physicalHeight, logicalHeight))
    }

    function ToPhysicalRect(rect: Rect): Rect
      requires Valid()
    {
      var r := rect.Clip(logicalWidth, logicalHeight);
      if r.Empty() then r
      else
        var x0, y0 := ScaleFloor(r.x, logicalWidth, physicalWidth), ScaleFloor(r.y, logicalHeight, physicalHeight);
        var x1 := ScaleCeil(r.Right(), logicalWidth, physicalWidth);
        var y1 := ScaleCeil(r.Bottom(), logicalHeight, physicalHeight);
        Between(x0, y0, x1, y1).Clip(physicalWidth, physicalHeight)
    }
  }

  function Between(x0: I32, y0: I32, x1: I32, y1: I32): Rect {
    Rect(x0, y0, Wrapped(x1 - x0), Wrapped(y1 - y0))
  }

  /** One axis of a point mapping. */
  function Along(v: I32, source: I32, target: I32): I32
    requires 0 < source && 0 < target
  {
    Clamp(ScaleRound(v, source, target), 0, target - 1)
  }

  /** Along a finer axis the last value stays inside, so nothing is clamped and everything returns. */
  lemma AlongRoundTrip(v: I32, s: I32, t: I32)
    requires 0 <= v < s <= t
    ensures Along(v, s, t) == ScaleRound(v, s, t) && Along(Along(v, s, t), t, s) == v
  {
    InRange(v, s, t);
    RoundTrip(v, s, t);
    var q := ScaleRound(v, s, t);
    assert v * t + s / 2 < s * t by {
      ProductGap(s, v, t);
    }
    assert s * t == t * s;
    Smaller(q, t, s);
  }

  predicate Returns(s: I32, t: I32)
    requires 0 < s && 0 < t
  {
    forall v: I32 :: 0 <= v < s ==> Along(Along(v, s, t), t, s) == v
  }

  /** Every logical point survives the trip to the panel and back if and only if the panel is at
      least as fine as the canvas. */
  lemma PointsReturnExactly(g: Geometry)
    requires g.Valid()
    ensures (forall x: I32, y: I32 :: 0 <= x < g.logicalWidth && 0 <= y < g.logicalHeight ==>
               (var p := g.ToPhysical(x, y); g.ToLogical(p.0, p.1)) == (x, y))
            <==> g.Fits()
  {
    AxisReturnsExactly(g.logicalWidth, g.physicalWidth);
    AxisReturnsExactly(g.logicalHeight, g.physicalHeight);
    if forall x: I32, y: I32 :: 0 <= x < g.logicalWidth && 0 <= y < g.logicalHeight ==>
         (var p := g.ToPhysical(x, y); g.ToLogical(p.0, p.1)) == (x, y) {
      forall v: I32 | 0 <= v < g.logicalWidth
        ensures Along(Along(v, g.logicalWidth, g.physicalWidth), g.physicalWidth, g.logicalWidth) == v
      {
        var p := g.ToPhysical(v, 0);
        assert g.ToLogical(p.0, p.1) == (v, 0);
      }
      forall v: I32 | 0 <= v < g.logicalHeight
        ensures Along(Along(v, g.logicalHeight, g.physicalHeight), g.physicalHeight, g.logicalHeight) == v
      {
        var p := g.ToPhysical(0, v);
        assert g.ToLogical(p.0, p.1) == (0, v);
      }
    }
  }

  lemma AxisReturnsExactly(s: I32, t: I32)
    requires 0 < s && 0 < t
    ensures Returns(s, t) <==> s <= t
  {
    if s <= t {
      forall v: I32 | 0 <= v < s
        ensures Along(Along(v, s, t), t, s) == v
      {
        AlongRoundTrip(v, s, t);
      }
    } else if Returns(s, t) {
      AlongClimbs(s - 1, s, t);
    }
  }

  lemma {:induction false} AlongClimbs(v: I32, s: I32, t: I32)
    requires 0 <= v < s && 0 < t && Returns(s, t)
    ensures Along(v, s, t) >= v
    decreases v
  {
    if v > 0 {
      AlongClimbs(v - 1, s, t);
      Monotone(v - 1, v, s, t);
      assert Along(Along(v - 1, s, t), t, s) == v - 1 && Along(Along(v, s, t), t, s) == v;
    }
  }

  // ----- Damage -----

  lemma FloorsAreTight(a: int, b: int, x0: int, x1: int, s: int, t: int)
    requires 0 <= x0 < x1 && 0 < s && 0 < t && Floors(a, x0 * t, s) && Floors(b, x1 * t + s - 1, s)
    ensures a < b && b * s - s < x1 * t <= b * s
  {
    ProductGap(x1, x0, t);
    Smaller(a, b, s);
  }

  /** Along one axis, the physical span of a logical one holds its image [x0 * t / s, x1 * t / s]
      and is the smallest that does. */
  lemma SpanIsTight(x0: I32, x1: I32, s: I32, t: I32)
    requires 0 <= x0 < x1 <= s && 0 < t
    ensures 0 <= ScaleFloor(x0, s, t) < ScaleCeil(x1, s, t) <= t
    ensures var a := ScaleFloor(x0, s, t); a * s <= x0 * t < a * s + s
    ensures var b := ScaleCeil(x1, s, t); b * s - s < x1 * t <= b * s
  {
    InRange(x0, s, t);
    InRange(x1, s, t);
    FloorsAreTight(ScaleFloor(x0, s, t), ScaleCeil(x1, s, t), x0, x1, s, t);
  }

  lemma RoundingIsInside(a: int, b: int, x0: int, x1: int, v: int, q: int, s: int, t: int)
    requires 0 <= x0 <= v < x1 && 0 < s <= t && Floors(a, x0 * t, s) && x1 * t <= b * s
    requires Floors(q, v * t + s / 2, s)
    ensures a <= q < b
  {
    Products(x0, v, t);
    FloorsInOrder(x0 * t, v * t + s / 2, s, a, q);
    ProductGap(x1, v, t);
    Smaller(q, b, s);
  }

  /** The point a damaged logical value maps to lies in the span. */
  lemma SpanHoldsPoints(x0: I32, x1: I32, v: I32, s: I32, t: I32)
    requires 0 <= x0 <= v < x1 <= s <= t
    ensures ScaleFloor(x0, s, t) <= Along(v, s, t) < ScaleCeil(x1, s, t)
  {
    SpanIsTight(x0, x1, s, t);
    AlongRoundTrip(v, s, t);
    InRange(v, s, t);
    RoundingIsInside(ScaleFloor(x0, s, t), ScaleCeil(x1, s, t), x0, x1, v, Along(v, s, t), s, t);
  }

  /** The panel's pixels are drawn by looking up the logical value each one samples. */
  predicate SpanHoldsSamples(x0: I32, x1: I32, s: I32, t: I32)
    requires 0 < s && 0 < t
  {
    forall p: I32 :: 0 <= p < t && x0 <= Along(p, t, s) < x1 ==> ScaleFloor(x0, s, t) <= p < ScaleCeil(x1, s, t)
  }

  /** Whether the pixel just before the span still samples its first value. */
  predicate Spills(x0: I32, s: I32, t: I32)
    requires 0 < s
  {
    x0 != 0 && (x0 * t) % s + s <= t / 2
  }

  lemma RoundsBeyond(b: int, x1: int, p: int, r: int, s: int, t: int)
    requires 0 < s && 0 < t && 0 <= b <= p && x1 * t <= b * s && Floors(r, p * s + t / 2, t)
    ensures x1 <= r
  {
    Products(b, p, s);
    FloorsInOrder(x1 * t, p * s + t / 2, t, x1, r);
  }

  lemma WholeSpanEnds(b: int, s: int, t: int)
    requires 0 < s && s * t <= b * s
    ensures t <= b
  {
    if b < t {
      ProductGap(t, b, s);
    }
  }

  lemma NothingAfter(x0: I32, x1: I32, p: I32, s: I32, t: I32)
    requires 0 <= x0 < x1 <= s && 0 <= p < t
    ensures ScaleCeil(x1, s, t) <= p ==> Along(p, t, s) >= x1
  {
    var b := ScaleCeil(x1, s, t);
    SpanIsTight(x0, x1, s, t);
    InRange(p, t, s);
    if b <= p {
      RoundsBeyond(b, x1, p, ScaleRound(p, t, s), s, t);
      if x1 == s {
        WholeSpanEnds(b, s, t);
      }
    }
  }

  /** `r` is what the pixel before the span samples. */
  lemma LastBefore(a: int, x0: int, r: int, s: int, t: int)
    requires 0 < s && 0 < t && Floors(a, x0 * t, s) && Floors(r, (a - 1) * s + t / 2, t)
    ensures r <= x0
    ensures r == x0 <==> x0 * t - a * s + s <= t / 2
  {
    assert (a - 1) * s == a * s - s;
    if r > x0 {
      ProductGap(r, x0, t);
    }
    if x0 * t - a * s + s <= t / 2 {
      OneFloor((a - 1) * s + t / 2, t, r, x0);
    }
  }

  lemma SamplesBefore(a: int, x0: I32, p: I32, s: I32, t: I32)
    requires 0 <= x0 < s && 0 < t && a == ScaleFloor(x0, s, t) && 0 <= p < a
    ensures a - 1 < t && Along(p, t, s) <= Along(a - 1, t, s) <= x0
    ensures Along(a - 1, t, s) == x0 <==> x0 * t - a * s + s <= t / 2
  {
    InRange(x0, s, t);
    InRange(p, t, s);
    InRange(a - 1, t, s);
    Monotone(p, a - 1, t, s);
    LastBefore(a, x0, ScaleRound(a - 1, t, s), s, t);
  }

  /** Repainting the span redraws every pixel that samples a damaged value, except the one pixel
      before it exactly when that one spills. */
  lemma SpanHoldsSamplesExactly(x0: I32, x1: I32, s: I32, t: I32)
    requires 0 <= x0 < x1 <= s && 0 < t
    ensures SpanHoldsSamples(x0, x1, s, t) <==> !Spills(x0, s, t)
  {
    var a := ScaleFloor(x0, s, t);
    SpanIsTight(x0, x1, s, t);
    forall p: I32 | ScaleCeil(x1, s, t) <= p < t
      ensures Along(p, t, s) >= x1
    {
      NothingAfter(x0, x1, p, s, t);
    }
    Remainder(a, x0, s, t);
    forall p: I32 | 0 <= p < a
      ensures Along(p, t, s) <= Along(a - 1, t, s) <= x0 && (Along(a - 1, t, s) == x0 <==> Spills(x0, s, t))
    {
      SamplesBefore(a, x0, p, s, t);
    }
    if 0 < a && Spills(x0, s, t) {
      assert Along(a - 1, t, s) == x0;
    }
  }

  lemma RemainderIs(n: int, d: int, a: int)
    requires 0 < d && Floors(a, n, d)
    ensures n % d == n - a * d
  {
    DivisionFloors(n, d);
    OneFloor(n, d, a, n / d);
  }

  lemma Remainder(a: int, x0: I32, s: I32, t: I32)
    requires 0 <= x0 < s && 0 < t && a == ScaleFloor(x0, s, t)
    ensures (x0 * t) % s == x0 * t - a * s
    ensures a == 0 ==> !Spills(x0, s, t)
    ensures x0 == 0 ==> a == 0
  {
    InRange(x0, s, t);
    RemainderIs(x0 * t, s, a);
    FirstSpansFirst(a, x0, s, t);
  }

  lemma FirstSpansFirst(a: int, x0: int, s: int, t: int)
    requires 0 <= x0 && 0 < s && 0 < t && Floors(a, x0 * t, s)
    ensures x0 == 0 ==> a == 0
    ensures x0 > 0 ==> x0 * t >= t
  {
    if x0 > 0 {
      Products(1, x0, t);
    } else {
      OneFloor(0, s, a, 0);
    }
  }

  /** A panel less than twice as fine as the canvas never spills. */
  lemma NoSpill(x0: I32, s: I32, t: I32)
    requires 0 <= x0 < s && 0 < t < 2 * s
    ensures !Spills(x0, s, t)
  {
  }

  // ----- Both axes -----

  /** Redrawing a rectangle updates every panel pixel that shows damaged canvas. */
  predicate Redraws(g: Geometry, physical: Rect, damage: Rect)
    requires g.Valid()
  {
    forall px: I32, py: I32 ::
      0 <= px < g.physicalWidth && 0 <= py < g.physicalHeight &&
      damage.Contains(g.ToLogical(px, py).0, g.ToLogical(px, py).1)
      ==> physical.Contains(px, py)
  }

  lemma BetweenIsKept(x0: I32, y0: I32, x1: I32, y1: I32, w: I32, h: I32)
    requires 0 <= x0 < x1 <= w && 0 <= y0 < y1 <= h
    ensures Between(x0, y0, x1, y1).Clip(w, h) == Rect(x0, y0, x1 - x0, y1 - y0)
  {
  }

  /** The mapped rectangle stays on the panel, and per axis it is the span of the clipped damage. */
  lemma MappedIsSpans(g: Geometry, damage: Rect)
    requires g.Valid() && !damage.Clip(g.logicalWidth, g.logicalHeight).Empty()
    ensures var c, m := damage.Clip(g.logicalWidth, g.logicalHeight), g.ToPhysicalRect(damage);
            && 0 <= c.x < c.Right() <= g.logicalWidth && 0 <= c.y < c.Bottom() <= g.logicalHeight
            && m.x == ScaleFloor(c.x, g.logicalWidth, g.physicalWidth)
            && m.Right() == ScaleCeil(c.Right(), g.logicalWidth, g.physicalWidth)
            && m.y == ScaleFloor(c.y, g.logicalHeight, g.physicalHeight)
            && m.Bottom() == ScaleCeil(c.Bottom(), g.logicalHeight, g.physicalHeight)
            && 0 <= m.x < m.Right() <= g.physicalWidth && 0 <= m.y < m.Bottom() <= g.physicalHeight
  {
    var c := damage.Clip(g.logicalWidth, g.logicalHeight);
    ClipIntersects(damage, g.logicalWidth, g.logicalHeight, 0, 0);
    SpanIsTight(c.x, c.Right(), g.logicalWidth, g.physicalWidth);
    SpanIsTight(c.y, c.Bottom(), g.logicalHeight, g.physicalHeight);
    BetweenIsKept(ScaleFloor(c.x, g.logicalWidth, g.physicalWidth), ScaleFloor(c.y, g.logicalHeight, g.physicalHeight),
                  ScaleCeil(c.Right(), g.logicalWidth, g.physicalWidth),
                  ScaleCeil(c.Bottom(), g.logicalHeight, g.physicalHeight),
                  g.physicalWidth, g.physicalHeight);
  }

  /** Damage is redrawn completely if and only if neither leading edge spills; the rounding of the
      edges alone, which the mapping is documented to rely on, is not enough. */
  lemma RedrawnExactly(g: Geometry, damage: Rect)
    requires g.Valid() && g.Fits() && !damage.Clip(g.logicalWidth, g.logicalHeight).Empty()
    ensures var c := damage.Clip(g.logicalWidth, g.logicalHeight);
            Redraws(g, g.ToPhysicalRect(damage), damage) <==>
              !Spills(c.x, g.logicalWidth, g.physicalWidth) && !Spills(c.y, g.logicalHeight, g.physicalHeight)
  {
    var c, m := damage.Clip(g.logicalWidth, g.logicalHeight), g.ToPhysicalRect(damage);
    MappedIsSpans(g, damage);
    SpanHoldsSamplesExactly(c.x, c.Right(), g.logicalWidth, g.physicalWidth);
    SpanHoldsSamplesExactly(c.y, c.Bottom(), g.logicalHeight, g.physicalHeight);
    SamplesClipped(g, damage);
    AlongRoundTrip(c.x, g.logicalWidth, g.physicalWidth);
    AlongRoundTrip(c.y, g.logicalHeight, g.physicalHeight);
    var fx, fy := Along(c.x, g.logicalWidth, g.physicalWidth), Along(c.y, g.logicalHeight, g.physicalHeight);
    if Redraws(g, m, damage) {
      forall p: I32 | 0 <= p < g.physicalWidth && c.x <= Along(p, g.physicalWidth, g.logicalWidth) < c.Right()
        ensures m.x <= p < m.Right()
      {
        assert g.ToLogical(p, fy).1 == c.y;
      }
      forall p: I32 | 0 <= p < g.physicalHeight && c.y <= Along(p, g.physicalHeight, g.logicalHeight) < c.Bottom()
        ensures m.y <= p < m.Bottom()
      {
        assert g.ToLogical(fx, p).0 == c.x;
      }
    }
  }

  /** It does fail on a panel twice as fine: damage from the sixth column on leaves one pixel that
      shows that column unpainted. */
  lemma SpillExample()
    ensures var g, damage := Geometry(10, 10, 20, 20), Rect(5, 0, 5, 10);
            !Redraws(g, g.ToPhysicalRect(damage), damage)
  {
    var g, damage := Geometry(10, 10, 20, 20), Rect(5, 0, 5, 10);
    assert damage.Clip(10, 10) == damage;
    assert Spills(5, 10, 20);
    RedrawnExactly(g, damage);
  }

  /** Every pixel samples inside the canvas, so only the clipped damage matters. */
  lemma SamplesClipped(g: Geometry, damage: Rect)
    requires g.Valid()
    ensures forall px: I32, py: I32 ::
              var l := g.ToLogical(px, py);
              damage.Contains(l.0, l.1) <==> damage.Clip(g.logicalWidth, g.logicalHeight).Contains(l.0, l.1)
  {
    forall px: I32, py: I32
      ensures var l := g.ToLogical(px, py);
              damage.Contains(l.0, l.1) <==> damage.Clip(g.logicalWidth, g.logicalHeight).Contains(l.0, l.1)
    {
      var l := g.ToLogical(px, py);
      ClipIntersects(damage, g.logicalWidth, g.logicalHeight, l.0, l.1);
    }
  }

  /** On a panel that fits, the point of every damaged logical pixel is redrawn, always. */
  lemma MappedHoldsPoints(g: Geometry, damage: Rect, x: I32, y: I32)
    requires g.Valid() && g.Fits() && damage.Clip(g.logicalWidth, g.logicalHeight).Contains(x, y)
    ensures var p := g.ToPhysical(x, y); g.ToPhysicalRect(damage).Contains(p.0, p.1)
  {
    var c, m := damage.Clip(g.logicalWidth, g.logicalHeight), g.ToPhysicalRect(damage);
    MappedIsSpans(g, damage);
    SpanHoldsPoints(c.x, c.Right(), x, g.logicalWidth, g.physicalWidth);
    SpanHoldsPoints(c.y, c.Bottom(), y, g.logicalHeight, g.physicalHeight);
  }
}
