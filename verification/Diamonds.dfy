/**
 * Whether a text fits the diamond of a decision (_inside and _fits in
 * scripts/diagram_geometry.py), over the reals: the ray test finds the
 * diamond, and four corners in it put the whole box in it.
 */
module Diamonds {
  import opened Facts
  import opened Geometry

  // Does a ray from p to the right meet the edge from a to b?
  predicate Meets(p: Point, a: Point, b: Point) {
    (a.y > p.y) != (b.y > p.y) && p.x < (b.x - a.x) * (p.y - a.y) / (b.y - a.y) + a.x
  }

  // The other end of the i-th edge; the last edge leads back to the start.
  function Following(polygon: seq<Point>, i: nat): Point
    requires i < |polygon|
  {
    if i + 1 < |polygon| then polygon[i + 1] else polygon[0]
  }

  // The first n edges are met an odd number of times.
  predicate OddlyMet(p: Point, polygon: seq<Point>, n: nat)
    requires n <= |polygon|
  {
    n > 0 && OddlyMet(p, polygon, n - 1) != Meets(p, polygon[n - 1], Following(polygon, n - 1))
  }

  method IsInside(p: Point, polygon: seq<Point>) returns (inside: bool)
    ensures inside <==> OddlyMet(p, polygon, |polygon|)
  {
    inside := false;
    for i := 0 to |polygon|
      invariant inside <==> OddlyMet(p, polygon, i)
    {
      if Meets(p, polygon[i], Following(polygon, i)) {
        inside := !inside;
      }
    }
  }

  lemma Steps(p: Point, polygon: seq<Point>)
    requires |polygon| == 4
    ensures OddlyMet(p, polygon, 4) <==>
              (((Meets(p, polygon[0], polygon[1]) != Meets(p, polygon[1], polygon[2]))
                != Meets(p, polygon[2], polygon[3])) != Meets(p, polygon[3], polygon[0]))
  {
    hide Meets;
    assert OddlyMet(p, polygon, 1) == Meets(p, polygon[0], polygon[1]);
    assert OddlyMet(p, polygon, 2) == (OddlyMet(p, polygon, 1) != Meets(p, polygon[1], polygon[2]));
    assert OddlyMet(p, polygon, 3) == (OddlyMet(p, polygon, 2) != Meets(p, polygon[2], polygon[3]));
  }

  // ── The diamond ───────────────────────────────────────────────────

  datatype Diamond = Diamond(c: Point, w: real, h: real) {
    function Top(): Point { Point(c.x, c.y - h) }
    function Right(): Point { Point(c.x + w, c.y) }
    function Bottom(): Point { Point(c.x, c.y + h) }
    function Left(): Point { Point(c.x - w, c.y) }

    function Path(): seq<Point> { [Top(), Right(), Bottom(), Left()] }
  }

  function Abs(x: real): real { if x < 0.0 then -x else x }

  // A product as one term.
  function Times(x: real, y: real): real { x * y }

  predicate Within(p: Point, d: Diamond) {
    Times(Abs(p.x - d.c.x), d.h) + Times(Abs(p.y - d.c.y), d.w) <= Times(d.w, d.h)
  }

  predicate StrictlyWithin(p: Point, d: Diamond) {
    Times(Abs(p.x - d.c.x), d.h) + Times(Abs(p.y - d.c.y), d.w) < Times(d.w, d.h)
  }

  // A ray meets an edge it passes if the point is to the left of it there.
  lemma MeetsIff(p: Point, a: Point, b: Point)
    requires a.y < b.y
    ensures Meets(p, a, b) <==>
              a.y <= p.y < b.y && (p.x - a.x) * (b.y - a.y) < (b.x - a.x) * (p.y - a.y)
  {
    var n, m := (b.x - a.x) * (p.y - a.y), b.y - a.y;
    var q := n / m;
    assert q * m == n;
    var e := p.x - a.x;
    if e < q {
      assert (q - e) * m > 0.0;
    } else {
      Product(e - q, m);
    }
    assert (q - e) * m == n - e * m && (e - q) * m == e * m - n;
  }

  // It does not matter which way an edge is drawn.
  lemma MeetsBothWays(p: Point, a: Point, b: Point)
    ensures Meets(p, a, b) <==> Meets(p, b, a)
  {
    if (a.y > p.y) != (b.y > p.y) {
      var s, t := p.y - a.y, b.y - a.y;
      var dx := b.x - a.x;
      var q := dx * s / t;
      var r := (a.x - b.x) * (p.y - b.y) / (a.y - b.y);
      assert q * t == dx * s;
      assert r * (-t) == (-dx) * (s - t);
      assert (-dx) * (s - t) == -(dx * s) + dx * t;
      assert r * (-t) == -(r * t);
      assert (r - q + dx) * t == 0.0;
      assert r == q - dx;
    }
  }

  // How far across and down a point is, in the diamond's own scale.
  function Across(p: Point, d: Diamond): real { Times(p.x - d.c.x, d.h) }
  function Down(p: Point, d: Diamond): real { Times(p.y - d.c.y, d.w) }
  function Full(d: Diamond): real { Times(d.w, d.h) }

  lemma Sign(x: real, m: real)
    requires m > 0.0
    ensures x < 0.0 <==> Times(x, m) < 0.0
    ensures Times(Abs(x), m) == Abs(Times(x, m))
  {
    if x < 0.0 {
      assert (-x) * m > 0.0;
      assert (-x) * m == -(x * m);
    } else {
      Product(x, m);
    }
  }

  lemma Scaled(p: Point, d: Diamond)
    requires d.w > 0.0 && d.h > 0.0
    ensures p.y < d.c.y <==> Down(p, d) < 0.0
    ensures p.y < d.c.y + d.h <==> Down(p, d) < Full(d)
    ensures d.c.y - d.h <= p.y <==> -Full(d) <= Down(p, d)
    ensures Within(p, d) <==> Abs(Across(p, d)) + Abs(Down(p, d)) <= Full(d)
    ensures StrictlyWithin(p, d) <==> Abs(Across(p, d)) + Abs(Down(p, d)) < Full(d)
  {
    hide Times, Abs;
    InScale(p.x - d.c.x, p.y - d.c.y, d.w, d.h);
  }

  lemma InScale(e: real, f: real, w: real, h: real)
    requires w > 0.0 && h > 0.0
    ensures f < 0.0 <==> Times(f, w) < 0.0
    ensures f < h <==> Times(f, w) < Times(w, h)
    ensures -h <= f <==> -Times(w, h) <= Times(f, w)
    ensures Times(Abs(e), h) == Abs(Times(e, h)) && Times(Abs(f), w) == Abs(Times(f, w))
  {
    Sign(f, w);
    Sign(e, h);
    Sign(f - h, w);
    Sign(f + h, w);
    Spread(f, h, w);
    hide Times, Abs;
  }

  lemma Spread(x: real, y: real, m: real)
    ensures Times(x + y, m) == Times(x, m) + Times(m, y)
    ensures Times(x - y, m) == Times(x, m) - Times(m, y)
  {
  }

  // The ray test, edge by edge.
  lemma TopToRight(p: Point, d: Diamond)
    requires d.w > 0.0 && d.h > 0.0
    ensures Meets(p, d.Top(), d.Right()) <==>
              d.c.y - d.h <= p.y < d.c.y && Across(p, d) < Full(d) + Down(p, d)
  {
    MeetsIff(p, d.Top(), d.Right());
    hide Meets;
    assert d.w * (p.y - d.c.y + d.h) == Full(d) + Down(p, d);
  }

  lemma RightToBottom(p: Point, d: Diamond)
    requires d.w > 0.0 && d.h > 0.0
    ensures Meets(p, d.Right(), d.Bottom()) <==>
              d.c.y <= p.y < d.c.y + d.h && Across(p, d) < Full(d) - Down(p, d)
  {
    MeetsIff(p, d.Right(), d.Bottom());
    hide Meets;
    assert (p.x - d.c.x - d.w) * d.h == Across(p, d) - Full(d) && (-d.w) * (p.y - d.c.y) == -Down(p, d);
  }

  lemma BottomToLeft(p: Point, d: Diamond)
    requires d.w > 0.0 && d.h > 0.0
    ensures Meets(p, d.Bottom(), d.Left()) <==>
              d.c.y <= p.y < d.c.y + d.h && Across(p, d) < -(Full(d) - Down(p, d))
  {
    MeetsBothWays(p, d.Bottom(), d.Left());
    MeetsIff(p, d.Left(), d.Bottom());
    hide Meets;
    assert (p.x - d.c.x + d.w) * d.h == Across(p, d) + Full(d);
  }

  lemma LeftToTop(p: Point, d: Diamond)
    requires d.w > 0.0 && d.h > 0.0
    ensures Meets(p, d.Left(), d.Top()) <==>
              d.c.y - d.h <= p.y < d.c.y && Across(p, d) < -(Full(d) + Down(p, d))
  {
    MeetsBothWays(p, d.Left(), d.Top());
    MeetsIff(p, d.Top(), d.Left());
    hide Meets;
    assert (-d.w) * (p.y - d.c.y + d.h) == -(Full(d) + Down(p, d));
  }

  // The ray test on a diamond: the closed diamond holds what it accepts, and it
  // accepts the open one.
  lemma DiamondIsFound(p: Point, d: Diamond)
    requires d.w > 0.0 && d.h > 0.0
    ensures OddlyMet(p, d.Path(), 4) ==> Within(p, d)
    ensures StrictlyWithin(p, d) ==> OddlyMet(p, d.Path(), 4)
  {
    Steps(p, d.Path());
    TopToRight(p, d);
    RightToBottom(p, d);
    BottomToLeft(p, d);
    LeftToTop(p, d);
    Scaled(p, d);
    hide Meets, OddlyMet, Within, StrictlyWithin, Abs, Across, Down, Full;
    Decided(Across(p, d), Down(p, d), Full(d));
  }

  // Left of one edge and not of the other, between top and bottom.
  lemma Decided(across: real, down: real, all: real)
    ensures var met := if down < 0.0 then -all <= down && (across < all + down) != (across < -(all + down))
                       else down < all && (across < all - down) != (across < -(all - down));
            && (met ==> Abs(across) + Abs(down) <= all)
            && (Abs(across) + Abs(down) < all ==> met)
  {
  }

  // A diamond's outline from whichever corner, either way round, left open or
  // closed by its first point again.
  predicate Draws(polygon: seq<Point>, d: Diamond) {
    exists k :: 0 <= k < 4 && DrawsFrom(polygon, Turned(d.Path(), k), Turned(Backwards(d.Path()), k))
  }

  predicate DrawsFrom(polygon: seq<Point>, there: seq<Point>, back: seq<Point>)
    requires there != [] && back != []
  {
    polygon == there || polygon == Closed(there) || polygon == back || polygon == Closed(back)
  }

  // So these are all of them: four corners, two ways, open or closed.
  lemma EveryOutlineDraws(d: Diamond)
    ensures var t, r, b, l := d.Top(), d.Right(), d.Bottom(), d.Left();
            && Draws([t, r, b, l], d) && Draws([r, b, l, t], d) && Draws([b, l, t, r], d) && Draws([l, t, r, b], d)
            && Draws([t, l, b, r], d) && Draws([l, b, r, t], d) && Draws([b, r, t, l], d) && Draws([r, t, l, b], d)
            && Draws([t, r, b, l, t], d) && Draws([r, b, l, t, r], d) && Draws([b, l, t, r, b], d) && Draws([l, t, r, b, l], d)
            && Draws([t, l, b, r, t], d) && Draws([l, b, r, t, l], d) && Draws([b, r, t, l, b], d) && Draws([r, t, l, b, r], d)
  {
    var t, r, b, l := d.Top(), d.Right(), d.Bottom(), d.Left();
    var path, back := [t, r, b, l], [l, b, r, t];
    assert d.Path() == path && Backwards(d.Path()) == back;
    Rotations(t, r, b, l);
    Rotations(l, b, r, t);
    hide Draws, Turned;
    DrawsFour(d, 0, path, back);
    DrawsFour(d, 1, [r, b, l, t], [b, r, t, l]);
    DrawsFour(d, 2, [b, l, t, r], [r, t, l, b]);
    DrawsFour(d, 3, [l, t, r, b], [t, l, b, r]);
  }

  lemma Rotations(p: Point, q: Point, r: Point, s: Point)
    ensures var path := [p, q, r, s];
            && Turned(path, 0) == path && Turned(path, 1) == [q, r, s, p]
            && Turned(path, 2) == [r, s, p, q] && Turned(path, 3) == [s, p, q, r]
  {
  }

  lemma DrawsFour(d: Diamond, k: nat, there: seq<Point>, back: seq<Point>)
    requires k < 4 && |there| == 4 && |back| == 4
    requires Turned(d.Path(), k) == there && Turned(Backwards(d.Path()), k) == back
    ensures Draws(there, d) && Draws(back, d)
    ensures Draws([there[0], there[1], there[2], there[3], there[0]], d)
    ensures Draws([back[0], back[1], back[2], back[3], back[0]], d)
  {
    assert Closed(there) == [there[0], there[1], there[2], there[3], there[0]];
    assert Closed(back) == [back[0], back[1], back[2], back[3], back[0]];
    assert DrawsFrom(there, there, back) && DrawsFrom(back, there, back);
    assert DrawsFrom(Closed(there), there, back) && DrawsFrom(Closed(back), there, back);
  }

  // What the path command Z makes of a path.
  function Closed(path: seq<Point>): seq<Point>
    requires path != []
  {
    path + [path[0]]
  }

  function Turned(path: seq<Point>, k: nat): (turned: seq<Point>)
    requires k < |path|
    ensures |turned| == |path|
  {
    path[k..] + path[..k]
  }

  function Backwards(path: seq<Point>): seq<Point>
    requires |path| == 4
  {
    [path[3], path[2], path[1], path[0]]
  }

  lemma {:induction false} EdgesOfClosed(p: Point, path: seq<Point>, n: nat)
    requires path != [] && n <= |path|
    ensures OddlyMet(p, Closed(path), n) == OddlyMet(p, path, n)
    decreases n
  {
    if n > 0 {
      hide Meets;
      EdgesOfClosed(p, path, n - 1);
      assert Closed(path)[n - 1] == path[n - 1];
      assert Following(Closed(path), n - 1) == Following(path, n - 1);
    }
  }

  // Closing any polygon adds an edge from a point to itself, which no ray meets.
  lemma ClosedIsAlike(p: Point, path: seq<Point>)
    requires path != []
    ensures OddlyMet(p, Closed(path), |Closed(path)|) == OddlyMet(p, path, |path|)
  {
    EdgesOfClosed(p, path, |path|);
    var closed, n := Closed(path), |path|;
    assert closed[n] == path[0] && Following(closed, n) == path[0];
    assert !Meets(p, path[0], path[0]);
    hide Meets, Closed, Following;
    assert OddlyMet(p, closed, n + 1) == (OddlyMet(p, closed, n) != Meets(p, path[0], path[0]));
  }

  lemma TurnedIsAlike(p: Point, path: seq<Point>, k: nat)
    requires |path| == 4 && k < 4
    ensures OddlyMet(p, Turned(path, k), 4) == OddlyMet(p, path, 4)
  {
    Steps(p, path);
    Steps(p, Turned(path, k));
    hide Meets, OddlyMet;
  }

  lemma BackwardsIsAlike(p: Point, path: seq<Point>)
    requires |path| == 4
    ensures OddlyMet(p, Backwards(path), 4) == OddlyMet(p, path, 4)
  {
    Steps(p, path);
    Steps(p, Backwards(path));
    MeetsBothWays(p, path[0], path[1]);
    MeetsBothWays(p, path[1], path[2]);
    MeetsBothWays(p, path[2], path[3]);
    MeetsBothWays(p, path[3], path[0]);
    hide Meets, OddlyMet;
  }

  lemma DrawnIsFound(p: Point, polygon: seq<Point>, d: Diamond)
    requires d.w > 0.0 && d.h > 0.0 && Draws(polygon, d)
    ensures OddlyMet(p, polygon, |polygon|) ==> Within(p, d)
    ensures StrictlyWithin(p, d) ==> OddlyMet(p, polygon, |polygon|)
  {
    var k :| 0 <= k < 4 && DrawsFrom(polygon, Turned(d.Path(), k), Turned(Backwards(d.Path()), k));
    var there, back := Turned(d.Path(), k), Turned(Backwards(d.Path()), k);
    DiamondIsFound(p, d);
    TurnedIsAlike(p, d.Path(), k);
    BackwardsIsAlike(p, d.Path());
    TurnedIsAlike(p, Backwards(d.Path()), k);
    ClosedIsAlike(p, there);
    ClosedIsAlike(p, back);
    hide *;
    assert DrawsFrom(polygon, there, back);
  }

  // A decision as the diagrams have it: four corners and the start again.
  lemma ADrawnDecision()
    ensures Draws([Point(117.0, 168.0), Point(222.0, 208.0), Point(117.0, 248.0), Point(12.0, 208.0), Point(117.0, 168.0)],
                  Diamond(Point(117.0, 208.0), 105.0, 40.0))
  {
    var d := Diamond(Point(117.0, 208.0), 105.0, 40.0);
    var path := [Point(117.0, 168.0), Point(222.0, 208.0), Point(117.0, 248.0), Point(12.0, 208.0)];
    assert d.Path() == path && Turned(d.Path(), 0) == path;
    var closed := [Point(117.0, 168.0), Point(222.0, 208.0), Point(117.0, 248.0), Point(12.0, 208.0), Point(117.0, 168.0)];
    assert Closed(path) == closed;
    assert DrawsFrom(closed, Turned(d.Path(), 0), Turned(Backwards(d.Path()), 0));
  }

  // ── The text's box ────────────────────────────────────────────────

  function Grown(b: Box, dx: real, dy: real): Box { Box(b.x0 - dx, b.y0 - dy, b.x1 + dx, b.y1 + dy) }

  function Corners(b: Box): seq<Point> {
    [Point(b.x0, b.y0), Point(b.x1, b.y0), Point(b.x1, b.y1), Point(b.x0, b.y1)]
  }

  const PAD_X := 6.0
  const PAD_Y := 2.0

  function Near(text: Box): Box { Grown(text, PAD_X / 2.0, PAD_Y) }

  // The text's box with three units more on either side, two above and below.
  lemma NearIs(text: Box, p: Point)
    ensures Inside(Near(text), p) <==> text.x0 - 3.0 <= p.x <= text.x1 + 3.0 && text.y0 - 2.0 <= p.y <= text.y1 + 2.0
  {
  }

  predicate AllInside(points: seq<Point>, polygon: seq<Point>) {
    forall i | 0 <= i < |points| :: OddlyMet(points[i], polygon, |polygon|)
  }

  // _fits, for a decision.
  method FitsDecision(text: Box, polygon: seq<Point>) returns (fits: bool)
    ensures fits <==> AllInside(Corners(Near(text)), polygon)
  {
    fits := true;
    var corners := Corners(Near(text));
    for i := 0 to 4
      invariant fits <==> forall k | 0 <= k < i :: OddlyMet(corners[k], polygon, |polygon|)
    {
      var inside := IsInside(corners[i], polygon);
      if !inside {
        fits := false;
      }
    }
  }

  // The farthest corner in both directions decides for every point of the box.
  lemma FarthestCorner(b: Box, p: Point, d: Diamond) returns (i: nat)
    requires Inside(b, p)
    ensures i < 4
    ensures Abs(p.x - d.c.x) <= Abs(Corners(b)[i].x - d.c.x) && Abs(p.y - d.c.y) <= Abs(Corners(b)[i].y - d.c.y)
  {
    var right, below := p.x >= d.c.x, p.y >= d.c.y;
    i := if right then (if below then 2 else 1) else if below then 3 else 0;
  }

  lemma NearerIsWithin(p: Point, q: Point, d: Diamond)
    requires d.w > 0.0 && d.h > 0.0 && Within(q, d)
    requires Abs(p.x - d.c.x) <= Abs(q.x - d.c.x) && Abs(p.y - d.c.y) <= Abs(q.y - d.c.y)
    ensures Within(p, d)
  {
    var e, f, g, k := Abs(p.x - d.c.x), Abs(p.y - d.c.y), Abs(q.x - d.c.x), Abs(q.y - d.c.y);
    Product(g - e, d.h);
    Product(k - f, d.w);
    assert (g - e) * d.h == g * d.h - e * d.h && (k - f) * d.w == k * d.w - f * d.w;
  }

  // A text that fits lies in its diamond with its padding, all of it...
  lemma FittingTextIsInTheDiamond(text: Box, polygon: seq<Point>, d: Diamond, p: Point)
    requires d.w > 0.0 && d.h > 0.0 && Draws(polygon, d)
    requires AllInside(Corners(Near(text)), polygon) && Inside(Near(text), p)
    ensures Within(p, d)
  {
    var i := FarthestCorner(Near(text), p, d);
    var q := Corners(Near(text))[i];
    DrawnIsFound(q, polygon, d);
    hide OddlyMet, Draws, Corners;
    NearerIsWithin(p, q, d);
  }

  // ...and one that lies strictly inside with its padding fits.
  lemma TextInTheDiamondFits(text: Box, polygon: seq<Point>, d: Diamond)
    requires d.w > 0.0 && d.h > 0.0 && Draws(polygon, d)
    requires Near(text).x0 <= Near(text).x1 && Near(text).y0 <= Near(text).y1
    requires forall p | Inside(Near(text), p) :: StrictlyWithin(p, d)
    ensures AllInside(Corners(Near(text)), polygon)
  {
    forall i | 0 <= i < 4 ensures OddlyMet(Corners(Near(text))[i], polygon, |polygon|) {
      assert Inside(Near(text), Corners(Near(text))[i]);
      DrawnIsFound(Corners(Near(text))[i], polygon, d);
    }
  }
}
