/** Line drawing by integer error accumulation. */
module Bresenham {
  datatype Point = Point(x: int, y: int)

  function Abs(n: int): (r: int)
    ensures r >= 0
  {
    if n < 0 then -n else n
  }

  function Max(a: int, b: int): int { if a > b then a else b }

  /** How far to step along the longer axis. */
  function Reach(p: Point, q: Point): nat { Max(Abs(q.x - p.x), Abs(q.y - p.y)) }

  /** Twice the signed area between a point and the ideal line from `p` to `q`: dividing by the longer
      side gives the distance from the line along the shorter axis. */
  function Cross(p: Point, q: Point, r: Point): int {
    (r.y - p.y) * (q.x - p.x) - (r.x - p.x) * (q.y - p.y)
  }

  /** The coordinate along the longer axis, and the other one. */
  function Major(p: Point, q: Point, r: Point): int { if Abs(q.x - p.x) >= Abs(q.y - p.y) then r.x else r.y }
  function Minor(p: Point, q: Point, r: Point): int { if Abs(q.x - p.x) >= Abs(q.y - p.y) then r.y else r.x }

  /** Not as far as half a pixel beyond the ideal line, seen from `p`: where the line passes exactly
      between two pixels, the one that has moved less along the shorter axis is meant. */
  predicate Short(p: Point, q: Point, r: Point) {
    var far, off := Abs(Major(p, q, r) - Major(p, q, p)), Abs(Minor(p, q, r) - Minor(p, q, p));
    Reach(p, q) == 0 || 2 * (off * Reach(p, q) - far * Abs(Minor(p, q, q) - Minor(p, q, p))) < Reach(p, q)
  }

  /** At most half a pixel from the ideal line, measured along the shorter axis. */
  predicate Near(p: Point, q: Point, r: Point) { 2 * Abs(Cross(p, q, r)) <= Reach(p, q) && Short(p, q, r) }

  /** One step: the longer axis advances by one towards `q`, the other by at most one. */
  predicate Adjacent(p: Point, q: Point, r: Point, s: Point) {
    && Abs(s.x - r.x) <= 1 && Abs(s.y - r.y) <= 1
    && (if Abs(q.x - p.x) >= Abs(q.y - p.y) then s.x - r.x == Sign(p.x, q.x) else s.y - r.y == Sign(p.y, q.y))
  }

  function Sign(a: int, b: int): int { if a < b then 1 else -1 }

  /** What draw_line promises about the pixels it sets, in order. */
  ghost predicate Line(p: Point, q: Point, px: seq<Point>) {
    && |px| == Reach(p, q) + 1 && px[0] == p && px[|px| - 1] == q
    && (forall k :: 0 <= k < |px| ==> Near(p, q, px[k]))
    && (forall k :: 0 < k < |px| ==> Adjacent(p, q, px[k - 1], px[k]))
  }

  /** The state after `n` rounds, `i` steps in x and `j` in y: the error term is within half a pixel. */
  ghost predicate Tracked(dx: int, dy: int, i: int, j: int, n: int, err: int) {
    var d := j * dx - i * dy;
    && err == d + dx - dy && -Max(dx, dy) <= 2 * d <= Max(dx, dy)
    && (dx >= dy && dx > 0 ==> 2 * d < dx) && (dx < dy ==> -dy < 2 * d)
    && 0 <= i <= n && 0 <= j <= n && (if dx >= dy then i == n else j == n)
  }

  /** The step the two comparisons choose keeps the error within half a pixel. */
  lemma StepTracked(dx: int, dy: int, i: int, j: int, n: int, err: int)
    requires dx >= 0 && dy >= 0 && Tracked(dx, dy, i, j, n, err) && n < Max(dx, dy)
    ensures var a, b := 2 * err > -dy, 2 * err < dx;
      && (if dx >= dy then a else b)
      && Tracked(dx, dy, if a then i + 1 else i, if b then j + 1 else j, n + 1,
                 err - (if a then dy else 0) + (if b then dx else 0))
  {
    assert (i + 1) * dy == i * dy + dy && (j + 1) * dx == j * dx + dx;
    if dx == dy {
      assert j * dx - i * dy == (j - i) * dx;
      Small(dx, j - i);
    }
  }

  lemma Multiple(m: int, k: int)
    requires m > 0
    ensures k >= 1 ==> k * m >= m
    ensures k <= -1 ==> k * m <= -m
  {
  }

  lemma Small(m: int, k: int)
    requires m > 0 && -m <= 2 * (k * m) <= m
    ensures k == 0
  {
    Multiple(m, k);
  }

  /** The steps are exhausted exactly at the far end. */
  lemma EndsThere(dx: int, dy: int, i: int, j: int, n: int, err: int)
    requires dx >= 0 && dy >= 0 && Tracked(dx, dy, i, j, n, err) && n <= Max(dx, dy)
    ensures i == dx && j == dy <==> n == Max(dx, dy)
  {
    if n == Max(dx, dy) > 0 {
      if dx >= dy {
        assert j * dx - dx * dy == (j - dy) * dx;
        Small(dx, j - dy);
      } else {
        assert dy * dx - i * dy == (dx - i) * dy;
        Small(dy, dx - i);
      }
    }
  }

  /** The area does not depend on the quadrant. */
  lemma Quadrant(u: int, v: int, i: int, j: int, sx: int, sy: int)
    requires (sx == 1 || sx == -1) && (sy == 1 || sy == -1)
    ensures Abs((sy * j) * (sx * u) - (sx * i) * (sy * v)) == Abs(j * u - i * v)
  {
    if sx == sy {
      assert (sy * j) * (sx * u) == j * u && (sx * i) * (sy * v) == i * v;
    } else {
      assert (sy * j) * (sx * u) == -(j * u) && (sx * i) * (sy * v) == -(i * v);
    }
  }

  /** The area at the point reached after `i` and `j` steps. */
  lemma AreaOf(p: Point, q: Point, i: int, j: int)
    ensures Abs(Cross(p, q, Point(Along(p.x, q.x, i), Along(p.y, q.y, j))))
      == Abs(j * Abs(q.x - p.x) - i * Abs(q.y - p.y))
  {
    var dx, dy, sx, sy := Abs(q.x - p.x), Abs(q.y - p.y), Sign(p.x, q.x), Sign(p.y, q.y);
    Quadrant(dx, dy, i, j, sx, sy);
    assert q.x - p.x == sx * dx && q.y - p.y == sy * dy;
  }

  /** The point reached after `i` and `j` steps is near the line. */
  lemma TrackedNear(p: Point, q: Point, i: int, j: int, n: int, err: int)
    requires Tracked(Abs(q.x - p.x), Abs(q.y - p.y), i, j, n, err)
    ensures Near(p, q, Point(Along(p.x, q.x, i), Along(p.y, q.y, j)))
  {
    AreaOf(p, q, i, j);
    TrackedShort(p, q, i, j, n, err);
    hide Short, Cross;
  }

  lemma TrackedShort(p: Point, q: Point, i: int, j: int, n: int, err: int)
    requires Tracked(Abs(q.x - p.x), Abs(q.y - p.y), i, j, n, err)
    ensures Short(p, q, Point(Along(p.x, q.x, i), Along(p.y, q.y, j)))
  {
    assert Abs(Along(p.x, q.x, i) - p.x) == i && Abs(Along(p.y, q.y, j) - p.y) == j;
  }

  lemma Offset(a: int, b: int, i: int)
    ensures Along(a, b, i) == b <==> i == Abs(b - a)
    ensures Along(a, b, i + 1) == Along(a, b, i) + Sign(a, b)
  {
  }

  lemma Stepped(p: Point, q: Point, x: int, y: int, a: bool, b: bool)
    requires if Abs(q.x - p.x) >= Abs(q.y - p.y) then a else b
    ensures Adjacent(p, q, Point(x, y), Point(if a then x + Sign(p.x, q.x) else x, if b then y + Sign(p.y, q.y) else y))
  {
  }

  /** Coordinate `a` moved `i` steps towards `b`. */
  function Along(a: int, b: int, i: int): int { a + Sign(a, b) * i }

  /** The loop state: `px` drawn so far and (x, y) the next pixel. */
  ghost predicate Drawing(p: Point, q: Point, px: seq<Point>, x: int, y: int, i: int, j: int, err: int) {
    && Tracked(Abs(q.x - p.x), Abs(q.y - p.y), i, j, |px|, err) && |px| <= Reach(p, q)
    && x == Along(p.x, q.x, i) && y == Along(p.y, q.y, j)
    && Trail(p, q, px + [Point(x, y)])
  }

  /** Pixels from `p` on, each next to the one before, all but the last known to be near the line. */
  ghost predicate Trail(p: Point, q: Point, px: seq<Point>) {
    && px != [] && px[0] == p && (forall k :: 0 <= k < |px| - 1 ==> Near(p, q, px[k]))
    && (forall k :: 0 < k < |px| ==> Adjacent(p, q, px[k - 1], px[k]))
  }

  lemma TrailOn(p: Point, q: Point, px: seq<Point>, r: Point)
    requires Trail(p, q, px) && Near(p, q, px[|px| - 1]) && Adjacent(p, q, px[|px| - 1], r)
    ensures Trail(p, q, px + [r])
  {
    hide Near, Adjacent;
  }

  lemma DrawingStart(p: Point, q: Point)
    ensures Drawing(p, q, [], p.x, p.y, 0, 0, Abs(q.x - p.x) - Abs(q.y - p.y))
  {
  }

  lemma DrawingStep(p: Point, q: Point, px: seq<Point>, x: int, y: int, i: int, j: int, err: int, a: bool, b: bool)
    requires Drawing(p, q, px, x, y, i, j, err) && !(x == q.x && y == q.y)
    requires a == (2 * err > -Abs(q.y - p.y)) && b == (2 * err < Abs(q.x - p.x))
    ensures |px| < Reach(p, q)
    ensures Drawing(p, q, px + [Point(x, y)], if a then x + Sign(p.x, q.x) else x, if b then y + Sign(p.y, q.y) else y,
                    if a then i + 1 else i, if b then j + 1 else j,
                    err - (if a then Abs(q.y - p.y) else 0) + (if b then Abs(q.x - p.x) else 0))
  {
    hide Near, Adjacent, Tracked, Trail, Abs, Sign, Along;
    var dx, dy := Abs(q.x - p.x), Abs(q.y - p.y);
    TrackedNear(p, q, i, j, |px|, err);
    EndsThere(dx, dy, i, j, |px|, err);
    Offset(p.x, q.x, i);
    Offset(p.y, q.y, j);
    StepTracked(dx, dy, i, j, |px|, err);
    Stepped(p, q, x, y, a, b);
    TrailOn(p, q, px + [Point(x, y)], Point(if a then x + Sign(p.x, q.x) else x, if b then y + Sign(p.y, q.y) else y));
  }

  lemma DrawingEnd(p: Point, q: Point, px: seq<Point>, i: int, j: int, err: int)
    requires Drawing(p, q, px, q.x, q.y, i, j, err)
    ensures Line(p, q, px + [q])
  {
    TrackedNear(p, q, i, j, |px|, err);
    EndsThere(Abs(q.x - p.x), Abs(q.y - p.y), i, j, |px|, err);
    Offset(p.x, q.x, i);
    Offset(p.y, q.y, j);
    assert (px + [q])[|px|] == q;
    hide Near, Adjacent, Tracked;
  }

  /** draw_line, with the pixels it draws collected in order. */
  method DrawLine(p: Point, q: Point) returns (px: seq<Point>)
    ensures Line(p, q, px)
  {
    hide Drawing, Line;
    var dx: int, dy: int := Abs(q.x - p.x), Abs(q.y - p.y);
    var sx, sy := if p.x < q.x then 1 else -1, if p.y < q.y then 1 else -1;
    var err := dx - dy;
    var x, y := p.x, p.y;
    px := [];
    ghost var i, j := 0, 0;
    DrawingStart(p, q);
    while true
      invariant Drawing(p, q, px, x, y, i, j, err)
      decreases Reach(p, q) - |px|
    {
      ghost var before := px;
      px := px + [Point(x, y)];
      if x == q.x && y == q.y {
        DrawingEnd(p, q, before, i, j, err);
        break;
      }
      var e2 := 2 * err;
      DrawingStep(p, q, before, x, y, i, j, err, e2 > -dy, e2 < dx);
      if e2 > -dy {
        err := err - dy;
        x, i := x + sx, i + 1;
      }
      if e2 < dx {
        err := err + dx;
        y, j := y + sy, j + 1;
      }
    }
  }

  // ----- the line is determined

  /** Pixel `k` has moved `k` steps along the longer axis. */
  lemma {:induction false} MajorAt(p: Point, q: Point, px: seq<Point>, k: nat)
    requires Line(p, q, px) && k < |px|
    ensures Major(p, q, px[k]) == Along(Major(p, q, p), Major(p, q, q), k)
  {
    if k > 0 {
      MajorAt(p, q, px, k - 1);
      assert Adjacent(p, q, px[k - 1], px[k]);
      hide Line;
    }
  }

  /** And along the shorter one it has moved as far as the ideal line, rounded to the nearest pixel,
      with halves rounded down. */
  ghost predicate Rounded(long: int, short: int, k: int, j: int) { -long <= 2 * (j * long - k * short) < long }

  lemma NearRounded(p: Point, q: Point, r: Point, k: nat) returns (j: int)
    requires Near(p, q, r) && Reach(p, q) > 0 && Major(p, q, r) == Along(Major(p, q, p), Major(p, q, q), k)
    ensures Minor(p, q, r) == Along(Minor(p, q, p), Minor(p, q, q), j)
    ensures Rounded(Reach(p, q), Abs(Minor(p, q, q) - Minor(p, q, p)), k, j)
  {
    hide Cross, Sign, Along;
    var across, up := Steps(p.x, q.x, r.x), Steps(p.y, q.y, r.y);
    StepsBack(p.x, q.x, r.x, k);
    StepsBack(p.y, q.y, r.y, k);
    AreaOf(p, q, across, up);
    j := if Abs(q.x - p.x) >= Abs(q.y - p.y) then up else across;
    NotBackwards(Reach(p, q), Abs(Minor(p, q, q) - Minor(p, q, p)), k, j);
  }

  /** How many steps from `a` towards `b` lead to `x`. */
  function Steps(a: int, b: int, x: int): int { Sign(a, b) * (x - a) }

  lemma StepsBack(a: int, b: int, x: int, k: int)
    ensures Along(a, b, Steps(a, b, x)) == x && (x == Along(a, b, k) ==> Steps(a, b, x) == k)
    ensures Abs(x - a) == Abs(Steps(a, b, x))
  {
  }

  lemma NotBackwards(long: int, short: int, k: nat, j: int)
    requires 0 <= short && 0 < long && 2 * Abs(j * long - k * short) <= long
    ensures j >= 0
  {
    Multiple(long, j);
    assert k * short >= 0;
  }

  lemma OneRounding(long: int, short: int, k: int, i: int, j: int)
    requires long > 0 && Rounded(long, short, k, i) && Rounded(long, short, k, j)
    ensures i == j
  {
    assert (i - j) * long == i * long - j * long;
    Multiple(long, i - j);
  }

  /** The line between two points is determined: draw_line has no choice. */
  lemma LineDetermined(p: Point, q: Point, a: seq<Point>, b: seq<Point>)
    requires Line(p, q, a) && Line(p, q, b)
    ensures a == b
  {
    forall k | 0 <= k < |a| ensures a[k] == b[k] {
      SamePixel(p, q, a, b, k);
    }
  }

  lemma SamePixel(p: Point, q: Point, a: seq<Point>, b: seq<Point>, k: nat)
    requires Line(p, q, a) && Line(p, q, b) && k < |a|
    ensures a[k] == b[k]
  {
    assert Near(p, q, a[k]) && Near(p, q, b[k]);
    MajorAt(p, q, a, k);
    MajorAt(p, q, b, k);
    if Reach(p, q) > 0 {
      hide Line, Near, Rounded;
      var i := NearRounded(p, q, a[k], k);
      var j := NearRounded(p, q, b[k], k);
      OneRounding(Reach(p, q), Abs(Minor(p, q, q) - Minor(p, q, p)), k, i, j);
    }
  }
}
