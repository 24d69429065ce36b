/**
 * The segment and curve geometry behind the diagram checks
 * (scripts/diagram_geometry.py), over the reals.
 */
module Geometry {
  import opened Facts

  datatype Point = Point(x: real, y: real)
  datatype Segment = Segment(a: Point, b: Point)
  datatype Box = Box(x0: real, y0: real, x1: real, y1: real)

  function MinOf(a: real, b: real): real { if b < a then b else a }

  function MaxOf(a: real, b: real): real { if a < b then b else a }

  // ── Liang-Barsky ──────────────────────────────────────────────────

  predicate Inside(box: Box, p: Point) { box.x0 <= p.x <= box.x1 && box.y0 <= p.y <= box.y1 }

  // The point a share t of the way along the segment.
  function At(s: Segment, t: real): Point {
    Point(s.a.x + (s.b.x - s.a.x) * t, s.a.y + (s.b.y - s.a.y) * t)
  }

  ghost predicate Crosses(box: Box, s: Segment) {
    exists t: real :: 0.0 <= t <= 1.0 && Inside(box, At(s, t))
  }

  // One side of the box bounds t by p * t <= q.
  datatype Side = Side(p: real, q: real)

  function Sides(box: Box, s: Segment): seq<Side> {
    var dx, dy := s.b.x - s.a.x, s.b.y - s.a.y;
    [Side(-dx, s.a.x - box.x0), Side(dx, box.x1 - s.a.x), Side(-dy, s.a.y - box.y0), Side(dy, box.y1 - s.a.y)]
  }

  predicate Allows(side: Side, t: real) { side.p * t <= side.q }

  predicate AllAllow(sides: seq<Side>, t: real) { forall i | 0 <= i < |sides| :: Allows(sides[i], t) }

  lemma InsideIsAllowed(box: Box, s: Segment, t: real)
    ensures Inside(box, At(s, t)) <==> AllAllow(Sides(box, s), t)
  {
    var sides := Sides(box, s);
    assert (-(s.b.x - s.a.x)) * t == -((s.b.x - s.a.x) * t);
    assert (-(s.b.y - s.a.y)) * t == -((s.b.y - s.a.y) * t);
    assert Allows(sides[0], t) <==> box.x0 <= At(s, t).x;
    assert Allows(sides[1], t) <==> At(s, t).x <= box.x1;
    assert Allows(sides[2], t) <==> box.y0 <= At(s, t).y;
    assert Allows(sides[3], t) <==> At(s, t).y <= box.y1;
  }

  lemma Scaled(p: real, u: real, t: real)
    requires p > 0.0
    ensures p * t <= u * p <==> t <= u
  {
    if t <= u {
      assert p * (u - t) >= 0.0;
    } else {
      assert p * (t - u) > 0.0;
    }
  }

  // A side that the segment is not parallel to cuts t from below or above.
  lemma Cut(side: Side, t: real)
    requires side.p != 0.0
    ensures Allows(side, t) <==> if side.p < 0.0 then side.q / side.p <= t else t <= side.q / side.p
  {
    var u := side.q / side.p;
    assert u * side.p == side.q;
    if side.p > 0.0 {
      Scaled(side.p, u, t);
    } else {
      Scaled(-side.p, t, u);
      assert (-side.p) * u == -(u * side.p) && t * (-side.p) == -(side.p * t);
    }
  }

  // The shares allowed by some sides are those from t0 to t1.
  ghost predicate Window(sides: seq<Side>, t0: real, t1: real) {
    forall t: real :: Settled(sides, t0, t1, t)
  }

  ghost predicate Settled(sides: seq<Side>, t0: real, t1: real, t: real) {
    0.0 <= t <= 1.0 && AllAllow(sides, t) <==> t0 <= t <= t1
  }

  lemma OneMore(sides: seq<Side>, side: Side, t: real)
    ensures AllAllow(sides + [side], t) <==> AllAllow(sides, t) && Allows(side, t)
  {
    var all := sides + [side];
    assert all[|sides|] == side && forall i | 0 <= i < |sides| :: all[i] == sides[i];
  }

  lemma NoSides(none: seq<Side>)
    requires none == []
    ensures Window(none, 0.0, 1.0)
  {
    assert forall t: real :: Settled(none, 0.0, 1.0, t);
  }

  // One more side leaves no share, the same shares, or shares cut at q / p.
  lemma Narrow(sides: seq<Side>, side: Side, t0: real, t1: real)
    requires Window(sides, t0, t1)
    ensures side.p == 0.0 && side.q < 0.0 ==> Window(sides + [side], 1.0, 0.0)
    ensures side.p == 0.0 && side.q >= 0.0 ==> Window(sides + [side], t0, t1)
    ensures side.p < 0.0 ==> Window(sides + [side], MaxOf(t0, side.q / side.p), t1)
    ensures side.p > 0.0 ==> Window(sides + [side], t0, MinOf(t1, side.q / side.p))
  {
    var both := sides + [side];
    var from, upTo := t0, t1;
    if side.p == 0.0 {
      if side.q < 0.0 {
        from, upTo := 1.0, 0.0;
      }
    } else if side.p < 0.0 {
      from := MaxOf(t0, side.q / side.p);
    } else {
      upTo := MinOf(t1, side.q / side.p);
    }
    forall t: real ensures Settled(both, from, upTo, t) {
      assert Settled(sides, t0, t1, t);
      OneMore(sides, side, t);
      if side.p == 0.0 {
        assert Allows(side, t) <==> 0.0 <= side.q;
      } else {
        Cut(side, t);
      }
    }
    assert Window(both, from, upTo);
  }

  lemma AllowsPrefix(sides: seq<Side>, n: nat, t: real)
    requires n <= |sides| && AllAllow(sides, t)
    ensures AllAllow(sides[..n], t)
  {
  }

  // Once no share is left, no further side brings one back.
  lemma EmptyWindow(sides: seq<Side>, n: nat, t0: real, t1: real)
    requires n <= |sides| && Window(sides[..n], t0, t1) && t0 > t1
    ensures forall t: real :: 0.0 <= t <= 1.0 ==> !AllAllow(sides, t)
  {
    forall t: real | 0.0 <= t <= 1.0 ensures !AllAllow(sides, t) {
      assert Settled(sides[..n], t0, t1, t);
      if AllAllow(sides, t) {
        AllowsPrefix(sides, n, t);
      }
    }
  }

  // Does the segment cross the closed box? For every box and segment, a point
  // or a line parallel to a side among them.
  method Hits(box: Box, s: Segment) returns (hit: bool)
    ensures hit <==> Crosses(box, s)
  {
    forall t: real ensures Inside(box, At(s, t)) <==> AllAllow(Sides(box, s), t) {
      InsideIsAllowed(box, s, t);
    }
    hide Inside, At, AllAllow;
    var sides := Sides(box, s);
    hide Sides;
    var t0, t1 := 0.0, 1.0;
    var i := 0;
    assert Window(sides[..0], t0, t1) by {
      NoSides(sides[..0]);
    }
    while i < |sides|
      invariant 0 <= i <= |sides|
      invariant Window(sides[..i], t0, t1) && t0 <= t1
    {
      var side := sides[i];
      assert sides[..i] + [side] == sides[..i + 1];
      Narrow(sides[..i], side, t0, t1);
      hide Window;
      i := i + 1;
      if side.p == 0.0 {
        if side.q < 0.0 {
          EmptyWindow(sides, i, 1.0, 0.0);
          return false;
        }
        continue;
      }
      var t := side.q / side.p;
      if side.p < 0.0 {
        t0 := MaxOf(t0, t);
      } else {
        t1 := MinOf(t1, t);
      }
      if t0 > t1 {
        EmptyWindow(sides, i, t0, t1);
        return false;
      }
    }
    assert sides[..|sides|] == sides;
    assert Settled(sides, t0, t1, t0);
    hit := true;
  }

  // ── Curves ────────────────────────────────────────────────────────

  const CURVE_STEPS: nat := 8

  function Lerp(a: real, b: real, t: real): real { a + (b - a) * t }

  function Between(a: Point, b: Point, t: real): Point { Point(Lerp(a.x, b.x, t), Lerp(a.y, b.y, t)) }

  function Level(pts: seq<Point>, t: real): (level: seq<Point>)
    requires pts != []
    ensures |level| == |pts| - 1
  {
    seq(|pts| - 1, i requires 0 <= i < |pts| - 1 => Between(pts[i], pts[i + 1], t))
  }

  function Casteljau(pts: seq<Point>, t: real): Point
    requires pts != []
    decreases |pts|
  {
    if |pts| == 1 then pts[0] else Casteljau(Level(pts, t), t)
  }

  // Eight points along the curve of these control points.
  method Curve(pts: seq<Point>) returns (out: seq<Point>)
    requires pts != []
    ensures |out| == CURVE_STEPS
    ensures forall i | 0 <= i < CURVE_STEPS :: out[i] == Casteljau(pts, (i + 1) as real / 8.0)
  {
    out := [];
    for i := 1 to CURVE_STEPS + 1
      invariant |out| == i - 1
      invariant forall k | 0 <= k < i - 1 :: out[k] == Casteljau(pts, (k + 1) as real / 8.0)
    {
      var t := i as real / 8.0;
      var level := pts;
      while |level| > 1 // de Casteljau
        invariant level != [] && Casteljau(level, t) == Casteljau(pts, t)
        decreases |level|
      {
        level := seq(|level| - 1, j requires 0 <= j < |level| - 1 => Between(level[j], level[j + 1], t));
      }
      out := out + [level[0]];
    }
  }

  function Bounds(pts: seq<Point>): Box
    requires pts != []
  {
    var p := pts[0];
    if |pts| == 1 then Box(p.x, p.y, p.x, p.y)
    else
      var b := Bounds(pts[1..]);
      Box(MinOf(p.x, b.x0), MinOf(p.y, b.y0), MaxOf(p.x, b.x1), MaxOf(p.y, b.y1))
  }

  // The bounding box holds every point...
  lemma {:induction false} BoundsHold(pts: seq<Point>, p: Point)
    requires p in pts
    ensures Inside(Bounds(pts), p)
    decreases |pts|
  {
    if |pts| > 1 && p in pts[1..] {
      BoundsHold(pts[1..], p);
    } else if |pts| > 1 {
      assert p == pts[0];
    }
  }

  // ...and lies within every box that does.
  lemma {:induction false} BoundsAreTight(pts: seq<Point>, box: Box)
    requires pts != [] && forall i | 0 <= i < |pts| :: Inside(box, pts[i])
    ensures box.x0 <= Bounds(pts).x0 && Bounds(pts).x1 <= box.x1
    ensures box.y0 <= Bounds(pts).y0 && Bounds(pts).y1 <= box.y1
    decreases |pts|
  {
    assert Inside(box, pts[0]);
    if |pts| > 1 {
      BoundsAreTight(pts[1..], box);
    }
  }

  lemma LerpStaysBetween(a: real, b: real, t: real, lo: real, hi: real)
    requires 0.0 <= t <= 1.0 && lo <= a <= hi && lo <= b <= hi
    ensures lo <= Lerp(a, b, t) <= hi
  {
    Product(a - lo, 1.0 - t);
    Product(b - lo, t);
    Product(hi - a, 1.0 - t);
    Product(hi - b, t);
    assert Lerp(a, b, t) - lo == (a - lo) * (1.0 - t) + (b - lo) * t;
    assert hi - Lerp(a, b, t) == (hi - a) * (1.0 - t) + (hi - b) * t;
  }

  lemma {:induction false} CurveStaysInside(pts: seq<Point>, t: real, box: Box)
    requires pts != [] && 0.0 <= t <= 1.0 && forall i | 0 <= i < |pts| :: Inside(box, pts[i])
    ensures Inside(box, Casteljau(pts, t))
    decreases |pts|
  {
    if |pts| > 1 {
      var level := Level(pts, t);
      forall i | 0 <= i < |level| ensures Inside(box, level[i]) {
        var a, b := pts[i], pts[i + 1];
        assert Inside(box, a) && Inside(box, b);
        hide Lerp;
        LerpStaysBetween(a.x, b.x, t, box.x0, box.x1);
        LerpStaysBetween(a.y, b.y, t, box.y0, box.y1);
      }
      CurveStaysInside(level, t, box);
    }
  }

  // Every sample lies in the control points' bounding box.
  lemma SamplesAreBounded(pts: seq<Point>, i: nat)
    requires pts != [] && i < CURVE_STEPS
    ensures Inside(Bounds(pts), Casteljau(pts, (i + 1) as real / 8.0))
  {
    forall k | 0 <= k < |pts| ensures Inside(Bounds(pts), pts[k]) {
      BoundsHold(pts, pts[k]);
    }
    CurveStaysInside(pts, (i + 1) as real / 8.0, Bounds(pts));
  }

  // The last sample is the end point.
  lemma {:induction false} EndsAtTheEnd(pts: seq<Point>)
    requires pts != []
    ensures Casteljau(pts, 1.0) == pts[|pts| - 1]
    decreases |pts|
  {
    if |pts| > 1 {
      EndsAtTheEnd(Level(pts, 1.0));
      assert Lerp(pts[|pts| - 2].x, pts[|pts| - 1].x, 1.0) == pts[|pts| - 1].x;
      assert Lerp(pts[|pts| - 2].y, pts[|pts| - 1].y, 1.0) == pts[|pts| - 1].y;
    }
  }

  lemma Quadratic(a: real, b: real, c: real, t: real)
    ensures Lerp(Lerp(a, b, t), Lerp(b, c, t), t) == a * (1.0 - t) * (1.0 - t) + 2.0 * b * t * (1.0 - t) + c * t * t
  {
  }

  lemma ThreePoints(a: Point, b: Point, c: Point, t: real)
    ensures Casteljau([a, b, c], t) == Between(Between(a, b, t), Between(b, c, t), t)
  {
    var ab, bc := Between(a, b, t), Between(b, c, t);
    var last := Between(ab, bc, t);
    hide Between;
    assert Level([a, b, c], t) == [ab, bc];
    assert Level([ab, bc], t) == [last];
    assert Casteljau([last], t) == last;
    assert Casteljau([ab, bc], t) == last;
  }

  lemma FourPoints(a: Point, b: Point, c: Point, d: Point, t: real)
    ensures var ab, bc, cd := Between(a, b, t), Between(b, c, t), Between(c, d, t);
            Casteljau([a, b, c, d], t) == Between(Between(ab, bc, t), Between(bc, cd, t), t)
  {
    var ab, bc, cd := Between(a, b, t), Between(b, c, t), Between(c, d, t);
    ThreePoints(ab, bc, cd, t);
    hide Between;
    assert Level([a, b, c, d], t) == [ab, bc, cd];
  }

  // The quadratic Bezier curve in Bernstein's form.
  lemma QuadraticBezier(a: Point, b: Point, c: Point, t: real)
    ensures Casteljau([a, b, c], t) ==
            Point(a.x * (1.0 - t) * (1.0 - t) + 2.0 * b.x * t * (1.0 - t) + c.x * t * t,
                  a.y * (1.0 - t) * (1.0 - t) + 2.0 * b.y * t * (1.0 - t) + c.y * t * t)
  {
    ThreePoints(a, b, c, t);
    Quadratic(a.x, b.x, c.x, t);
    Quadratic(a.y, b.y, c.y, t);
  }

  lemma CubicInB(a: real, b: real, c: real, d: real, t: real)
    ensures var u := 1.0 - t;
            Lerp(Lerp(Lerp(a, b, t), Lerp(b, c, t), t), Lerp(Lerp(b, c, t), Lerp(c, d, t), t), t) ==
            a * u * u * u + 3.0 * b * t * u * u + 3.0 * c * t * t * u + d * t * t * t
  {
    Quadratic(a, b, c, t);
    Quadratic(b, c, d, t);
  }

  // And the cubic one.
  lemma CubicBezier(a: Point, b: Point, c: Point, d: Point, t: real)
    ensures var u := 1.0 - t;
            Casteljau([a, b, c, d], t) ==
            Point(a.x * u * u * u + 3.0 * b.x * t * u * u + 3.0 * c.x * t * t * u + d.x * t * t * t,
                  a.y * u * u * u + 3.0 * b.y * t * u * u + 3.0 * c.y * t * t * u + d.y * t * t * t)
  {
    FourPoints(a, b, c, d, t);
    CubicInB(a.x, b.x, c.x, d.x, t);
    CubicInB(a.y, b.y, c.y, d.y, t);
  }
}
