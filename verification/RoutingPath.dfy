/** Rounding the corners of a route, and why the drawn path still clears every node. */
module RoutingPath {

  import opened RoutingGeometry
  import opened RoutingGrid
  import opened RoutingSimplify

  /** The drawing commands M, L and Q of an SVG path. */
  datatype Command = MoveTo(to: Point) | LineTo(to: Point) | CurveTo(control: Point, to: Point)

  const MAX_RADIUS := 28.0
  const MARGIN := 3.0

  /** The point at distance `radius` from `b` in the direction of `a`, per axis. */
  function Toward(b: Point, a: Point, radius: real): Point {
    Point(if a.x > b.x then b.x + radius else if a.x < b.x then b.x - radius else b.x,
          if a.y > b.y then b.y + radius else if a.y < b.y then b.y - radius else b.y)
  }

  /** The square spanned by the two ends of a rounding meets an obstacle grown by the margin. */
  predicate CollidesWith(before: Point, after: Point, o: Obstacle) {
    && Max(before.x, after.x) > o.x - MARGIN && Min(before.x, after.x) < o.x + o.width + MARGIN
    && Max(before.y, after.y) > o.y - MARGIN && Min(before.y, after.y) < o.y + o.height + MARGIN
  }

  predicate Collides(before: Point, after: Point, obstacles: seq<Obstacle>) {
    exists i :: 0 <= i < |obstacles| && CollidesWith(before, after, obstacles[i])
  }

  function FirstRadius(a: Point, b: Point, c: Point): real {
    Min(MAX_RADIUS, Min(Distance(a, b) / 2.0, Distance(b, c) / 2.0))
  }

  /** Halved until the corner square is free or the radius is below one. */
  function Shrunk(a: Point, b: Point, c: Point, obstacles: seq<Obstacle>, radius: real): (r: real)
    requires radius >= 0.0
    ensures 0.0 <= r <= radius && (radius > 0.0 ==> r > 0.0)
    ensures !Collides(Toward(b, a, r), Toward(b, c, r), obstacles) || r < 1.0
    decreases if radius < 1.0 then 0 else radius.Floor
  {
    if !Collides(Toward(b, a, radius), Toward(b, c, radius), obstacles) || radius < 1.0 then radius
    else
      HalvingShrinks(radius);
      Shrunk(a, b, c, obstacles, radius / 2.0)
  }

  lemma HalvingShrinks(radius: real)
    requires radius >= 1.0
    ensures (if radius / 2.0 < 1.0 then 0 else (radius / 2.0).Floor) < radius.Floor
  {
    assert radius.Floor >= 1;
  }

  function Radius(points: seq<Point>, obstacles: seq<Obstacle>, i: int): real
    requires 0 < i < |points| - 1
  {
    Shrunk(points[i - 1], points[i], points[i + 1], obstacles, FirstRadius(points[i - 1], points[i], points[i + 1]))
  }

  function Before(points: seq<Point>, obstacles: seq<Obstacle>, i: int): Point
    requires 0 < i < |points| - 1
  {
    Toward(points[i], points[i - 1], Radius(points, obstacles, i))
  }

  function After(points: seq<Point>, obstacles: seq<Obstacle>, i: int): Point
    requires 0 < i < |points| - 1
  {
    Toward(points[i], points[i + 1], Radius(points, obstacles, i))
  }

  /** The commands up to and including corner `k`. */
  function Corners(points: seq<Point>, obstacles: seq<Obstacle>, k: nat): seq<Command>
    requires |points| > 0 && (k == 0 || k < |points| - 1)
  {
    if k == 0 then [MoveTo(points[0])]
    else Corners(points, obstacles, k - 1)
         + [LineTo(Before(points, obstacles, k)), CurveTo(points[k], After(points, obstacles, k))]
  }

  function CornerCount(points: seq<Point>): nat { if |points| < 2 then 0 else |points| - 2 }

  function Rounded(points: seq<Point>, obstacles: seq<Obstacle>): seq<Command>
    requires |points| > 0
  {
    Corners(points, obstacles, CornerCount(points)) + [LineTo(Last(points))]
  }

  method RoundedPath(points: seq<Point>, obstacles: seq<Obstacle>) returns (path: seq<Command>)
    requires |points| > 0
    ensures path == Rounded(points, obstacles)
  {
    path := [MoveTo(points[0])];
    var i := 1;
    while i < |points| - 1
      invariant 1 <= i <= CornerCount(points) + 1
      invariant path == Corners(points, obstacles, i - 1)
    {
      var a, b, c := points[i - 1], points[i], points[i + 1];
      var radius := Min(MAX_RADIUS, Min(Distance(a, b) / 2.0, Distance(b, c) / 2.0));
      var before, after := b, b;
      while true
        invariant radius >= 0.0
        invariant Shrunk(a, b, c, obstacles, radius) == Radius(points, obstacles, i)
        decreases if radius < 1.0 then 0 else radius.Floor
      {
        before, after := Toward(b, a, radius), Toward(b, c, radius);
        if !Collides(before, after, obstacles) || radius < 1.0 { break; }
        HalvingShrinks(radius);
        radius := radius / 2.0;
      }
      path := path + [LineTo(before), CurveTo(b, after)];
      i := i + 1;
    }
    path := path + [LineTo(Last(points))];
  }

  // What is drawn

  function Scaled(d: real, t: real): real { t * d }

  function Between(a: real, b: real, t: real): real { a + Scaled(b - a, t) }

  /** One coordinate of a quadratic curve, by de Casteljau's construction. */
  function Mean(a: real, b: real, c: real, t: real): real {
    Between(Between(a, b, t), Between(b, c, t), t)
  }

  /** A point of the quadratic curve from `a` by the control point `b` to `c`. */
  function Bezier(a: Point, b: Point, c: Point, t: real): Point {
    Point(Mean(a.x, b.x, c.x, t), Mean(a.y, b.y, c.y, t))
  }

  ghost predicate OnCurve(a: Point, b: Point, c: Point, q: Point) {
    exists t :: 0.0 <= t <= 1.0 && q == Bezier(a, b, c, t)
  }

  ghost predicate OnPiece(pen: Point, command: Command, q: Point) {
    match command
    case MoveTo(p) => q == p
    case LineTo(p) => OnSegment(pen, p, q)
    case CurveTo(c, p) => OnCurve(pen, c, p, q)
  }

  /** `q` is drawn by one of the commands, each starting where the one before it ended. */
  ghost predicate Drawn(path: seq<Command>, q: Point) {
    exists i :: 0 < i < |path| && OnPiece(path[i - 1].to, path[i], q)
  }

  /** `q` lies strictly inside the obstacle grown by the margin. */
  predicate Touches(o: Obstacle, q: Point) {
    o.x - MARGIN < q.x < o.x + o.width + MARGIN && o.y - MARGIN < q.y < o.y + o.height + MARGIN
  }

  ghost predicate Free(obstacles: seq<Obstacle>, q: Point) {
    forall i :: 0 <= i < |obstacles| ==> !Touches(obstacles[i], q)
  }

  /** The whole polyline keeps the clearance to every obstacle. */
  ghost predicate KeepsClearance(points: seq<Point>, obstacles: seq<Obstacle>) {
    forall q, i :: OnPath(points, q) && 0 <= i < |obstacles| ==> !Inside(Inflate(obstacles[i]), q)
  }

  lemma Shrinking(d: real, t: real)
    requires 0.0 <= t <= 1.0
    ensures d >= 0.0 ==> 0.0 <= Scaled(d, t) <= d
    ensures d <= 0.0 ==> d <= Scaled(d, t) <= 0.0
  {
    assert t * d + (1.0 - t) * d == d;
  }

  lemma BetweenIsBounded(a: real, b: real, t: real, low: real, high: real)
    requires low <= a <= high && low <= b <= high && 0.0 <= t <= 1.0
    ensures low <= Between(a, b, t) <= high
  {
    hide Scaled;
    Shrinking(b - a, t);
  }

  lemma MeanIsBounded(a: real, b: real, c: real, t: real, low: real, high: real)
    requires low <= a <= high && low <= b <= high && low <= c <= high && 0.0 <= t <= 1.0
    ensures low <= Mean(a, b, c, t) <= high
  {
    BetweenIsBounded(a, b, t, low, high);
    BetweenIsBounded(b, c, t, low, high);
    BetweenIsBounded(Between(a, b, t), Between(b, c, t), t, low, high);
  }

  /** A curve whose control point lies in the square of its ends stays in that square. */
  lemma CurveStaysInSquare(a: Point, b: Point, c: Point, q: Point)
    requires OnSegment(a, c, b) && OnCurve(a, b, c, q)
    ensures OnSegment(a, c, q)
  {
    hide Mean;
    var t :| 0.0 <= t <= 1.0 && q == Bezier(a, b, c, t);
    MeanIsBounded(a.x, b.x, c.x, t, Min(a.x, c.x), Max(a.x, c.x));
    MeanIsBounded(a.y, b.y, c.y, t, Min(a.y, c.y), Max(a.y, c.y));
  }

  lemma CornerOfSquare(a: Point, b: Point, c: Point, radius: real)
    requires Aligned(a, b) && Aligned(b, c) && a != b && b != c && !Collinear(a, b, c) && radius >= 0.0
    ensures OnSegment(Toward(b, a, radius), Toward(b, c, radius), b)
  {
  }

  lemma SquareIsFree(before: Point, after: Point, obstacles: seq<Obstacle>, q: Point)
    requires !Collides(before, after, obstacles) && OnSegment(before, after, q)
    ensures Free(obstacles, q)
  {
    forall i | 0 <= i < |obstacles| ensures !Touches(obstacles[i], q) {
      assert !CollidesWith(before, after, obstacles[i]);
    }
  }

  /**
   A corner that keeps the clearance never ends with a colliding square: below radius one the
   square is too small to reach from outside the clearance to inside the margin.
   */
  lemma CornerIsFree(a: Point, b: Point, c: Point, obstacles: seq<Obstacle>, radius: real)
    requires Aligned(a, b) && Aligned(b, c) && radius >= 0.0
    requires forall i :: 0 <= i < |obstacles| ==> !Inside(Inflate(obstacles[i]), b)
    ensures var r := Shrunk(a, b, c, obstacles, radius);
            !Collides(Toward(b, a, r), Toward(b, c, r), obstacles)
  {
  }

  /** The rounding of a leg's two corners together uses no more than the leg. */
  lemma RoundingsFit(points: seq<Point>, obstacles: seq<Obstacle>, i: int)
    requires AlignedPath(points) && 0 < i < |points| - 1
    ensures 0.0 < Radius(points, obstacles, i) <= MAX_RADIUS
    ensures Radius(points, obstacles, i) <= Distance(points[i - 1], points[i]) / 2.0
    ensures Radius(points, obstacles, i) <= Distance(points[i], points[i + 1]) / 2.0
    ensures OnSegment(points[i - 1], points[i], Before(points, obstacles, i))
    ensures OnSegment(points[i], points[i + 1], After(points, obstacles, i))
  {
    assert Aligned(points[i - 1], points[i]) && points[i - 1] != points[i];
    assert Aligned(points[i], points[i + 1]) && points[i] != points[i + 1];
  }

  lemma SubsegmentOfLeg(a: Point, b: Point, p: Point, r: Point, q: Point)
    requires OnSegment(a, b, p) && OnSegment(a, b, r) && OnSegment(p, r, q)
    ensures OnSegment(a, b, q)
  {
  }

  /** What the rounding needs to know of a route. */
  ghost predicate ClearRoute(points: seq<Point>, obstacles: seq<Obstacle>) {
    |points| > 0 && AlignedPath(points) && TurnsEverywhere(points) && KeepsClearance(points, obstacles)
  }

  lemma LegIsFree(points: seq<Point>, obstacles: seq<Obstacle>, i: int, q: Point)
    requires KeepsClearance(points, obstacles) && 0 < i < |points| && OnSegment(points[i - 1], points[i], q)
    ensures Free(obstacles, q)
  {
    assert OnLeg(points, i, q);
    assert OnPath(points, q);
    forall j | 0 <= j < |obstacles| ensures !Touches(obstacles[j], q) {
      assert !Inside(Inflate(obstacles[j]), q);
    }
  }

  /** The curve of one corner stays clear of every node. */
  lemma CurveIsFree(points: seq<Point>, obstacles: seq<Obstacle>, i: int, q: Point)
    requires ClearRoute(points, obstacles) && 0 < i < |points| - 1
    requires OnCurve(Before(points, obstacles, i), points[i], After(points, obstacles, i), q)
    ensures Free(obstacles, q)
  {
    hide Bezier, Toward, Collides, Shrunk, OnCurve, KeepsClearance;
    var a, b, c := points[i - 1], points[i], points[i + 1];
    assert Aligned(a, b) && a != b && Aligned(b, c) && b != c && !Collinear(a, b, c);
    PointKeepsClearance(points, obstacles, i);
    CornerIsFree(a, b, c, obstacles, FirstRadius(a, b, c));
    CornerOfSquare(a, b, c, Radius(points, obstacles, i));
    CurveStaysInSquare(Before(points, obstacles, i), b, After(points, obstacles, i), q);
    SquareIsFree(Before(points, obstacles, i), After(points, obstacles, i), obstacles, q);
  }

  lemma PointKeepsClearance(points: seq<Point>, obstacles: seq<Obstacle>, i: int)
    requires KeepsClearance(points, obstacles) && 0 < i < |points|
    ensures forall j :: 0 <= j < |obstacles| ==> !Inside(Inflate(obstacles[j]), points[i])
  {
    assert OnLeg(points, i, points[i]);
    assert OnPath(points, points[i]);
  }

  /** Where the pen is after corner `k`. */
  function PenAfter(points: seq<Point>, obstacles: seq<Obstacle>, k: nat): Point
    requires |points| > 0 && (k == 0 || k < |points| - 1)
  {
    if k == 0 then points[0] else After(points, obstacles, k)
  }

  lemma PenIsOnLeg(points: seq<Point>, obstacles: seq<Obstacle>, k: nat)
    requires AlignedPath(points) && |points| > 1 && k < |points| - 1
    ensures Last(Corners(points, obstacles, k)).to == PenAfter(points, obstacles, k)
    ensures OnSegment(points[k], points[k + 1], PenAfter(points, obstacles, k))
  {
    if k > 0 { RoundingsFit(points, obstacles, k); }
  }

  lemma {:induction false} CornersAreFree(points: seq<Point>, obstacles: seq<Obstacle>, k: nat, i: int, q: Point)
    requires ClearRoute(points, obstacles) && (k == 0 || k < |points| - 1)
    requires var path := Corners(points, obstacles, k);
             0 < i < |path| && OnPiece(path[i - 1].to, path[i], q)
    ensures Free(obstacles, q)
  {
    hide KeepsClearance, Free, OnCurve, Radius, OnSegment;
    if k > 0 {
      var earlier := Corners(points, obstacles, k - 1);
      PenIsOnLeg(points, obstacles, k - 1);
      if i < |earlier| {
        CornersAreFree(points, obstacles, k - 1, i, q);
      } else if i == |earlier| {
        RoundingsFit(points, obstacles, k);
        SubsegmentOfLeg(points[k - 1], points[k], PenAfter(points, obstacles, k - 1), Before(points, obstacles, k), q);
        LegIsFree(points, obstacles, k, q);
      } else {
        CurveIsFree(points, obstacles, k, q);
      }
    }
  }

  /**
   If the route keeps the clearance, then every point of the drawn path, straight pieces and curves
   alike, stays outside every node, by the margin.
   */
  lemma DrawnPathIsFree(points: seq<Point>, obstacles: seq<Obstacle>, q: Point)
    requires ClearRoute(points, obstacles) && Drawn(Rounded(points, obstacles), q)
    ensures Free(obstacles, q)
  {
    hide Free, OnCurve, Radius;
    var n, path := CornerCount(points), Rounded(points, obstacles);
    var i :| 0 < i < |path| && OnPiece(path[i - 1].to, path[i], q);
    if i < |path| - 1 {
      CornersAreFree(points, obstacles, n, i, q);
    } else if |points| > 1 {
      PenIsOnLeg(points, obstacles, n);
      EndOfLeg(points[|points| - 2], Last(points));
      SubsegmentOfLeg(points[|points| - 2], Last(points), PenAfter(points, obstacles, n), Last(points), q);
      LegIsFree(points, obstacles, |points| - 1, q);
    } else {
      SinglePointIsFree(points, obstacles, q);
    }
  }

  lemma EndOfLeg(a: Point, b: Point)
    ensures OnSegment(a, b, b)
  {
  }

  lemma SinglePointIsFree(points: seq<Point>, obstacles: seq<Obstacle>, q: Point)
    requires |points| == 1 && KeepsClearance(points, obstacles) && OnSegment(points[0], points[0], q)
    ensures Free(obstacles, q)
  {
    assert q == points[0] && OnPath(points, q);
    forall j | 0 <= j < |obstacles| ensures !Touches(obstacles[j], q) {
      assert !Inside(Inflate(obstacles[j]), q);
    }
  }

  lemma {:induction false} CornersInBounds(points: seq<Point>, obstacles: seq<Obstacle>, low: Point, high: Point, k: nat, i: int, q: Point)
    requires |points| > 0 && AlignedPath(points) && TurnsEverywhere(points) && (k == 0 || k < |points| - 1)
    requires forall j :: 0 <= j < |points| ==> OnSegment(low, high, points[j])
    requires var path := Corners(points, obstacles, k);
             0 < i < |path| && OnPiece(path[i - 1].to, path[i], q)
    ensures OnSegment(low, high, q)
  {
    hide OnCurve, Radius, OnSegment, Toward, Collinear;
    if k > 0 {
      var earlier := Corners(points, obstacles, k - 1);
      var pen, before, after := PenAfter(points, obstacles, k - 1), Before(points, obstacles, k), After(points, obstacles, k);
      PenIsOnLeg(points, obstacles, k - 1);
      RoundingsFit(points, obstacles, k);
      SubsegmentOfLeg(low, high, points[k - 1], points[k], pen);
      SubsegmentOfLeg(low, high, points[k - 1], points[k], before);
      SubsegmentOfLeg(low, high, points[k], points[k + 1], after);
      if i < |earlier| {
        CornersInBounds(points, obstacles, low, high, k - 1, i, q);
      } else if i == |earlier| {
        SubsegmentOfLeg(low, high, pen, before, q);
      } else {
        CornerTurns(points, k);
        CornerOfSquare(points[k - 1], points[k], points[k + 1], Radius(points, obstacles, k));
        CurveStaysInSquare(before, points[k], after, q);
        SubsegmentOfLeg(low, high, before, after, q);
      }
    }
  }

  lemma CornerTurns(points: seq<Point>, i: int)
    requires AlignedPath(points) && TurnsEverywhere(points) && 0 < i < |points| - 1
    ensures var a, b, c := points[i - 1], points[i], points[i + 1];
            Aligned(a, b) && Aligned(b, c) && a != b && b != c && !Collinear(a, b, c)
  {
  }

  /** The drawn path never leaves the rectangle that holds the corners of the route. */
  lemma DrawnPathInBounds(points: seq<Point>, obstacles: seq<Obstacle>, low: Point, high: Point, q: Point)
    requires |points| > 0 && AlignedPath(points) && TurnsEverywhere(points)
    requires forall j :: 0 <= j < |points| ==> OnSegment(low, high, points[j])
    requires Drawn(Rounded(points, obstacles), q)
    ensures OnSegment(low, high, q)
  {
    hide OnCurve, Radius, OnSegment;
    var n, path := CornerCount(points), Rounded(points, obstacles);
    var i :| 0 < i < |path| && OnPiece(path[i - 1].to, path[i], q);
    if i < |path| - 1 {
      CornersInBounds(points, obstacles, low, high, n, i, q);
    } else if |points| > 1 {
      PenIsOnLeg(points, obstacles, n);
      SubsegmentOfLeg(low, high, points[n], points[n + 1], PenAfter(points, obstacles, n));
      SubsegmentOfLeg(low, high, PenAfter(points, obstacles, n), Last(points), q);
    } else {
      SubsegmentOfLeg(low, high, points[0], points[0], q);
    }
  }
}
