/** What the drawn path shows of a route: all of it, but for a curve at every corner, and how large the curves are. */
module RoutingDrawing {

  import opened RoutingGeometry
  import opened RoutingGrid
  import opened RoutingSimplify
  import opened RoutingPath

  // The size of a corner

  /** `q` comes within three of the obstacle. */
  predicate Near(o: Obstacle, q: Point) {
    o.x - 3.0 < q.x < o.x + o.width + 3.0 && o.y - 3.0 < q.y < o.y + o.height + 3.0
  }

  /** Some point of the square comes within three of an obstacle. */
  ghost predicate SquareIsNear(p: Point, r: Point, obstacles: seq<Obstacle>) {
    exists i, q :: 0 <= i < |obstacles| && OnSegment(p, r, q) && Near(obstacles[i], q)
  }

  ghost predicate ProperObstacles(obstacles: seq<Obstacle>) {
    forall i :: 0 <= i < |obstacles| ==> obstacles[i].width >= 0.0 && obstacles[i].height >= 0.0
  }

  /** The code's test holds exactly when some point of the square is too near. */
  lemma CollidingIsNear(p: Point, r: Point, obstacles: seq<Obstacle>)
    requires ProperObstacles(obstacles)
    ensures Collides(p, r, obstacles) <==> SquareIsNear(p, r, obstacles)
  {
    if Collides(p, r, obstacles) {
      var i :| 0 <= i < |obstacles| && CollidesWith(p, r, obstacles[i]);
      var o := obstacles[i];
      var lowX, highX := Max(Min(p.x, r.x), o.x - 3.0), Min(Max(p.x, r.x), o.x + o.width + 3.0);
      var lowY, highY := Max(Min(p.y, r.y), o.y - 3.0), Min(Max(p.y, r.y), o.y + o.height + 3.0);
      var q := Point((lowX + highX) / 2.0, (lowY + highY) / 2.0);
      assert OnSegment(p, r, q) && Near(o, q);
    }
    if SquareIsNear(p, r, obstacles) {
      var i, q :| 0 <= i < |obstacles| && OnSegment(p, r, q) && Near(obstacles[i], q);
      assert CollidesWith(p, r, obstacles[i]);
    }
  }

  /** The largest radius that is tried: 28, or half of the shorter leg. */
  ghost predicate IsLargest(a: Point, b: Point, c: Point, radius: real) {
    && radius <= 28.0 && radius <= Distance(a, b) / 2.0 && radius <= Distance(b, c) / 2.0
    && (radius == 28.0 || radius == Distance(a, b) / 2.0 || radius == Distance(b, c) / 2.0)
  }

  function Halved(radius: real, n: nat): real
    decreases n
  {
    if n == 0 then radius else Halved(radius / 2.0, n - 1)
  }

  /** The point of the leg from `b` to `a` at distance `radius` from `b`. */
  ghost predicate AtDistance(b: Point, a: Point, radius: real, q: Point) { OnSegment(b, a, q) && Distance(b, q) == radius }

  /** A corner is rounded with this radius if its square is not near an obstacle, or if it is below one. */
  ghost predicate Suits(a: Point, b: Point, c: Point, obstacles: seq<Obstacle>, radius: real) {
    radius < 1.0 || exists p, r :: AtDistance(b, a, radius, p) && AtDistance(b, c, radius, r) && !SquareIsNear(p, r, obstacles)
  }

  /** The first of the largest radius and its halvings that suits. */
  ghost predicate IsCornerRadius(a: Point, b: Point, c: Point, obstacles: seq<Obstacle>, radius: real) {
    exists largest, n: nat ::
      && IsLargest(a, b, c, largest) && radius == Halved(largest, n)
      && Suits(a, b, c, obstacles, radius)
      && forall m: nat :: m < n ==> !Suits(a, b, c, obstacles, Halved(largest, m))
  }

  lemma TowardIsAtDistance(b: Point, a: Point, radius: real, q: Point)
    requires Aligned(a, b) && a != b && 0.0 <= radius <= Distance(a, b)
    ensures AtDistance(b, a, radius, q) <==> q == Toward(b, a, radius)
  {
  }

  lemma SuitsMeansTest(a: Point, b: Point, c: Point, obstacles: seq<Obstacle>, radius: real)
    requires ProperObstacles(obstacles) && Aligned(a, b) && Aligned(b, c) && a != b && b != c
    requires 0.0 <= radius <= Distance(a, b) && radius <= Distance(b, c)
    ensures Suits(a, b, c, obstacles, radius) <==> !Collides(Toward(b, a, radius), Toward(b, c, radius), obstacles) || radius < 1.0
  {
    hide Collides, SquareIsNear, Toward, Aligned, Distance, AtDistance;
    var p, r := Toward(b, a, radius), Toward(b, c, radius);
    CollidingIsNear(p, r, obstacles);
    AlignedBothWays(b, c);
    TowardIsAtDistance(b, a, radius, p);
    TowardIsAtDistance(b, c, radius, r);
    if Suits(a, b, c, obstacles, radius) && !(radius < 1.0) {
      var u, v :| AtDistance(b, a, radius, u) && AtDistance(b, c, radius, v) && !SquareIsNear(u, v, obstacles);
      TowardIsAtDistance(b, a, radius, u);
      TowardIsAtDistance(b, c, radius, v);
    }
  }

  lemma AlignedBothWays(b: Point, c: Point)
    ensures Aligned(b, c) == Aligned(c, b) && Distance(b, c) == Distance(c, b)
  {
  }

  /** Halving stops at the first radius that suits. */
  lemma {:induction false} ShrunkIsFirst(a: Point, b: Point, c: Point, obstacles: seq<Obstacle>, radius: real) returns (n: nat)
    requires ProperObstacles(obstacles) && Aligned(a, b) && Aligned(b, c) && a != b && b != c
    requires 0.0 <= radius <= Distance(a, b) && radius <= Distance(b, c)
    ensures Shrunk(a, b, c, obstacles, radius) == Halved(radius, n)
    ensures Suits(a, b, c, obstacles, Halved(radius, n))
    ensures forall m: nat :: m < n ==> !Suits(a, b, c, obstacles, Halved(radius, m))
    decreases if radius < 1.0 then 0 else radius.Floor
  {
    hide Suits, Collides, Toward, Aligned, Distance;
    SuitsMeansTest(a, b, c, obstacles, radius);
    if Suits(a, b, c, obstacles, radius) {
      n := 0;
    } else {
      HalvingShrinks(radius);
      var k := ShrunkIsFirst(a, b, c, obstacles, radius / 2.0);
      n := k + 1;
      forall m: nat | m < n ensures !Suits(a, b, c, obstacles, Halved(radius, m)) {
        if m > 0 { assert Halved(radius, m) == Halved(radius / 2.0, m - 1); }
      }
    }
  }

  lemma RadiusIsCornerRadius(points: seq<Point>, obstacles: seq<Obstacle>, k: int)
    requires ProperObstacles(obstacles) && AlignedPath(points) && 0 < k < |points| - 1
    ensures IsCornerRadius(points[k - 1], points[k], points[k + 1], obstacles, Radius(points, obstacles, k))
  {
    hide Suits, Shrunk, Aligned;
    var a, b, c := points[k - 1], points[k], points[k + 1];
    assert Aligned(a, b) && a != b && Aligned(b, c) && b != c;
    var largest := FirstRadius(a, b, c);
    assert IsLargest(a, b, c, largest);
    var n := ShrunkIsFirst(a, b, c, obstacles, largest);
  }

  // The commands

  lemma {:induction false} CornersAt(points: seq<Point>, obstacles: seq<Obstacle>, k: nat, j: nat)
    requires |points| > 0 && (k == 0 || k < |points| - 1) && 0 < j <= k
    ensures |Corners(points, obstacles, k)| == 2 * k + 1
    ensures Corners(points, obstacles, k)[2 * j - 1] == LineTo(Before(points, obstacles, j))
    ensures Corners(points, obstacles, k)[2 * j] == CurveTo(points[j], After(points, obstacles, j))
  {
    hide Before, After;
    CornersStart(points, obstacles, k - 1);
    if j < k { CornersAt(points, obstacles, k - 1, j); }
  }

  lemma {:induction false} CornersStart(points: seq<Point>, obstacles: seq<Obstacle>, k: nat)
    requires |points| > 0 && (k == 0 || k < |points| - 1)
    ensures |Corners(points, obstacles, k)| == 2 * k + 1 && Corners(points, obstacles, k)[0] == MoveTo(points[0])
  {
    hide Before, After;
    if k > 0 { CornersStart(points, obstacles, k - 1); }
  }

  /** Corner `k` is drawn by a line up to it and a curve around it, both ends at the same distance on the two legs. */
  ghost predicate CornerDrawn(points: seq<Point>, obstacles: seq<Obstacle>, path: seq<Command>, k: int)
    requires 0 < k < |points| - 1 && |path| == 2 * |points| - 2
  {
    && path[2 * k - 1].LineTo? && path[2 * k].CurveTo? && path[2 * k].control == points[k]
    && var radius := Distance(points[k], path[2 * k].to);
       && IsCornerRadius(points[k - 1], points[k], points[k + 1], obstacles, radius)
       && AtDistance(points[k], points[k - 1], radius, path[2 * k - 1].to)
       && AtDistance(points[k], points[k + 1], radius, path[2 * k].to)
  }

  /** The path of a route starts at its start, lifts the pen nowhere, rounds every corner and ends at its end. */
  lemma RouteIsDrawn(points: seq<Point>, obstacles: seq<Obstacle>)
    requires ProperObstacles(obstacles) && |points| > 1 && AlignedPath(points)
    ensures var path := Rounded(points, obstacles);
            && |path| == 2 * |points| - 2 && path[0] == MoveTo(points[0]) && Last(path) == LineTo(Last(points))
            && (forall i :: 0 < i < |path| ==> !path[i].MoveTo?)
            && forall k :: 0 < k < |points| - 1 ==> CornerDrawn(points, obstacles, path, k)
  {
    hide Corners, AlignedPath, CornerDrawn, Before, After;
    var n, path := CornerCount(points), Rounded(points, obstacles);
    CornersStart(points, obstacles, n);
    forall k | 0 < k < |points| - 1 ensures CornerDrawn(points, obstacles, path, k) {
      CornersAt(points, obstacles, n, k);
      OneCornerDrawn(points, obstacles, path, k);
    }
    forall i | 0 < i < |path| ensures !path[i].MoveTo? {
      if i < |path| - 1 { CornersAt(points, obstacles, n, (i + 1) / 2); }
    }
  }

  lemma ItsDistance(b: Point, a: Point, radius: real, q: Point)
    ensures AtDistance(b, a, radius, q) ==> Distance(b, q) == radius
  {
  }

  lemma OneCornerDrawn(points: seq<Point>, obstacles: seq<Obstacle>, path: seq<Command>, k: int)
    requires ProperObstacles(obstacles) && AlignedPath(points) && 0 < k < |points| - 1 && |path| == 2 * |points| - 2
    requires path[2 * k - 1] == LineTo(Before(points, obstacles, k))
    requires path[2 * k] == CurveTo(points[k], After(points, obstacles, k))
    ensures CornerDrawn(points, obstacles, path, k)
  {
    hide Toward, IsCornerRadius, Shrunk, Distance, AtDistance, Radius;
    RadiusIsCornerRadius(points, obstacles, k);
    RoundingsFit(points, obstacles, k);
    var a, b, c, r := points[k - 1], points[k], points[k + 1], Radius(points, obstacles, k);
    assert Aligned(a, b) && a != b && Aligned(b, c) && b != c;
    AlignedBothWays(b, c);
    TowardIsAtDistance(b, a, r, Before(points, obstacles, k));
    TowardIsAtDistance(b, c, r, After(points, obstacles, k));
    ItsDistance(b, c, r, path[2 * k].to);
  }

  // What is drawn of the route

  /** A leg that is used up from both ends leaves its middle. */
  lemma LegInThree(a: Point, b: Point, p: Point, r: Point, q: Point)
    requires Aligned(a, b) && OnSegment(a, b, p) && OnSegment(a, b, r) && OnSegment(a, b, q)
    ensures OnSegment(a, p, q) || OnSegment(p, r, q) || OnSegment(r, b, q)
  {
  }

  lemma InsideSquare(p: Point, r: Point, b: Point, q: Point)
    requires OnSegment(p, r, b)
    ensures OnSegment(b, r, q) ==> OnSegment(p, r, q)
    ensures OnSegment(p, b, q) ==> OnSegment(p, r, q)
  {
  }

  lemma CornerInSquare(points: seq<Point>, obstacles: seq<Obstacle>, k: int)
    requires AlignedPath(points) && TurnsEverywhere(points) && 0 < k < |points| - 1
    ensures OnSegment(Before(points, obstacles, k), After(points, obstacles, k), points[k])
  {
    hide Collinear, Toward, OnSegment, Radius;
    CornerTurns(points, k);
    RoundingsFit(points, obstacles, k);
    CornerOfSquare(points[k - 1], points[k], points[k + 1], Radius(points, obstacles, k));
  }

  /** Every point of the route that is in no corner's square is drawn. */
  lemma RouteIsCovered(points: seq<Point>, obstacles: seq<Obstacle>, q: Point)
    requires ProperObstacles(obstacles) && |points| > 1 && AlignedPath(points) && TurnsEverywhere(points) && OnPath(points, q)
    requires var path := Rounded(points, obstacles);
             |path| == 2 * |points| - 2 && forall k :: 0 < k < |points| - 1 ==> !OnSegment(path[2 * k - 1].to, path[2 * k].to, q)
    ensures Drawn(Rounded(points, obstacles), q)
  {
    hide Corners, AlignedPath, TurnsEverywhere, OnSegment, Before, After, OnCurve;
    var n, path := CornerCount(points), Rounded(points, obstacles);
    var i :| 0 < i < |points| && OnLeg(points, i, q);
    CornersStart(points, obstacles, n);
    var pen := PenAfter(points, obstacles, i - 1);
    PenIsOnLeg(points, obstacles, i - 1);
    if i > 1 {
      CornersAt(points, obstacles, n, i - 1);
      CornerInSquare(points, obstacles, i - 1);
      InsideSquare(path[2 * (i - 1) - 1].to, path[2 * (i - 1)].to, points[i - 1], q);
    }
    assert path[2 * i - 2].to == pen;
    var stop := path[2 * i - 1].to;
    if i < |points| - 1 {
      CornersAt(points, obstacles, n, i);
      CornerInSquare(points, obstacles, i);
      RoundingsFit(points, obstacles, i);
      InsideSquare(path[2 * i - 1].to, path[2 * i].to, points[i], q);
    } else {
      EndOfLeg(points[i - 1], points[i]);
    }
    LegIsAligned(points, i);
    LegInThree(points[i - 1], points[i], pen, stop, q);
    NoLeg(points[i - 1], q);
    NoLeg(points[i], q);
    OnlyPoint(pen, stop, points[i - 1], points[i], q);
    assert OnPiece(path[2 * i - 2].to, path[2 * i - 1], q);
  }

  lemma LegIsAligned(points: seq<Point>, i: int)
    requires AlignedPath(points) && 0 < i < |points|
    ensures Aligned(points[i - 1], points[i])
  {
  }

  lemma NoLeg(a: Point, q: Point)
    ensures OnSegment(a, a, q) ==> q == a
  {
  }

  lemma OnlyPoint(pen: Point, stop: Point, a: Point, b: Point, q: Point)
    ensures pen == a == q ==> OnSegment(pen, stop, q)
    ensures stop == b == q ==> OnSegment(pen, stop, q)
  {
  }

  /** Where the route stays eight clear of every obstacle, nothing that is drawn comes within three of one. */
  lemma DrawnStaysClear(points: seq<Point>, obstacles: seq<Obstacle>, q: Point, i: int)
    requires |points| > 0 && AlignedPath(points) && TurnsEverywhere(points) && 0 <= i < |obstacles|
    requires forall p, j :: OnPath(points, p) && 0 <= j < |obstacles| ==>
               var o := obstacles[j]; !(o.x - 8.0 < p.x < o.x + o.width + 8.0 && o.y - 8.0 < p.y < o.y + o.height + 8.0)
    requires Drawn(Rounded(points, obstacles), q)
    ensures !Near(obstacles[i], q)
  {
    hide OnPath, Drawn, Rounded, TurnsEverywhere, AlignedPath;
    forall p, j | OnPath(points, p) && 0 <= j < |obstacles| ensures !Inside(Inflate(obstacles[j]), p) {}
    assert KeepsClearance(points, obstacles);
    DrawnPathIsFree(points, obstacles, q);
    assert !Touches(obstacles[i], q);
  }
}
