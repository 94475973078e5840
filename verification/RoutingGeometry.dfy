/**
 Points, obstacles and the costs of moving between neighbouring grid points.
 Coordinates are real numbers: rounding is not part of this model.
 */
module RoutingGeometry {

  datatype Point = Point(x: real, y: real)
  datatype Obstacle = Obstacle(x: real, y: real, width: real, height: real)
  /** An obstacle inflated by the clearance. */
  datatype Box = Box(x: real, y: real, right: real, bottom: real)
  /** A leg of a previously routed edge. */
  datatype Segment = Segment(a: Point, b: Point)

  const CLEARANCE := 8.0
  const BEND_COST := 70.0

  function Abs(r: real): real { if r < 0.0 then -r else r }
  function Min(a: real, b: real): real { if a < b then a else b }
  function Max(a: real, b: real): real { if a < b then b else a }

  function Distance(a: Point, b: Point): real {
    Abs(a.x - b.x) + Abs(a.y - b.y)
  }

  function Inflate(o: Obstacle): Box {
    Box(o.x - CLEARANCE, o.y - CLEARANCE, o.x + o.width + CLEARANCE, o.y + o.height + CLEARANCE)
  }

  /** The four directions: right, down, left, up. */
  function Dx(direction: int): int { if direction == 0 then 1 else if direction == 2 then -1 else 0 }
  function Dy(direction: int): int { if direction == 1 then 1 else if direction == 3 then -1 else 0 }
  function Opposite(direction: int): int { (direction + 2) % 4 }

  predicate Aligned(a: Point, b: Point) { a.x == b.x || a.y == b.y }

  /** `q` lies on the axis-parallel segment from `a` to `b`. */
  predicate OnSegment(a: Point, b: Point, q: Point) {
    && Min(a.x, b.x) <= q.x <= Max(a.x, b.x)
    && Min(a.y, b.y) <= q.y <= Max(a.y, b.y)
  }

  /** `q` lies strictly inside `box`. */
  predicate Inside(box: Box, q: Point) {
    box.x < q.x < box.right && box.y < q.y < box.bottom
  }

  predicate BlockedBy(a: Point, b: Point, box: Box) {
    if a.y == b.y
    then a.y > box.y && a.y < box.bottom && Max(a.x, b.x) > box.x && Min(a.x, b.x) < box.right
    else a.x > box.x && a.x < box.right && Max(a.y, b.y) > box.y && Min(a.y, b.y) < box.bottom
  }

  predicate Blocked(a: Point, b: Point, boxes: seq<Box>) {
    exists i :: 0 <= i < |boxes| && BlockedBy(a, b, boxes[i])
  }

  /**
   For boxes with a nonempty interior and an axis-parallel leg of positive length, the code's test
   says exactly whether some point of the leg lies strictly inside the box.
   */
  lemma BlockedMeansEntering(a: Point, b: Point, box: Box)
    requires Aligned(a, b) && a != b
    requires box.x < box.right && box.y < box.bottom
    ensures BlockedBy(a, b, box) <==> exists q :: OnSegment(a, b, q) && Inside(box, q)
  {
    if BlockedBy(a, b, box) {
      var lowX, highX := Max(Min(a.x, b.x), box.x), Min(Max(a.x, b.x), box.right);
      var lowY, highY := Max(Min(a.y, b.y), box.y), Min(Max(a.y, b.y), box.bottom);
      var q := if a.y == b.y then Point((lowX + highX) / 2.0, a.y) else Point(a.x, (lowY + highY) / 2.0);
      assert OnSegment(a, b, q) && Inside(box, q);
    }
  }

  /** Whatever the box, a leg that the code lets through has no point strictly inside it. */
  lemma UnblockedStaysOut(a: Point, b: Point, box: Box, q: Point)
    requires Aligned(a, b) && !BlockedBy(a, b, box) && OnSegment(a, b, q)
    ensures !Inside(box, q)
  {
  }

  /** How far two intervals overlap; negative when they are apart. */
  function Overlap(a: real, b: real, c: real, d: real): real {
    Min(Max(a, b), Max(c, d)) - Max(Min(a, b), Min(c, d))
  }

  predicate StrictlyBetween(v: real, a: real, b: real) { Min(a, b) < v < Max(a, b) }

  /** The leg `h1`-`h2` and the leg `v1`-`v2` cross in the interior of both. */
  predicate Crosses(h1: Point, h2: Point, v1: Point, v2: Point) {
    StrictlyBetween(v1.x, h1.x, h2.x) && StrictlyBetween(h1.y, v1.y, v2.y)
  }

  /** Four per unit of overlap with a parallel leg closer than 12, a hundred per proper crossing. */
  function Conflict(a: Point, b: Point, s: Segment): (cost: real)
    ensures cost >= 0.0
  {
    var horizontal, otherHorizontal := a.y == b.y, s.a.y == s.b.y;
    if horizontal && otherHorizontal then
      if Abs(a.y - s.a.y) < 12.0 then Max(0.0, Overlap(a.x, b.x, s.a.x, s.b.x)) * 4.0 else 0.0
    else if !horizontal && !otherHorizontal then
      if Abs(a.x - s.a.x) < 12.0 then Max(0.0, Overlap(a.y, b.y, s.a.y, s.b.y)) * 4.0 else 0.0
    else if horizontal then
      if Crosses(a, b, s.a, s.b) then 100.0 else 0.0
    else
      if Crosses(s.a, s.b, a, b) then 100.0 else 0.0
  }

  function ConflictSum(a: Point, b: Point, segments: seq<Segment>): (cost: real)
    ensures cost >= 0.0
  {
    if segments == [] then 0.0
    else ConflictSum(a, b, segments[..|segments| - 1]) + Conflict(a, b, segments[|segments| - 1])
  }

  /** A leg conflicts equally in both directions of travel. */
  lemma {:induction false} ConflictIsUndirected(a: Point, b: Point, segments: seq<Segment>)
    requires Aligned(a, b)
    ensures ConflictSum(a, b, segments) == ConflictSum(b, a, segments)
  {
    if segments != [] {
      ConflictIsUndirected(a, b, segments[..|segments| - 1]);
    }
  }

  /** `x` lies on both of two intervals, whichever way round their ends are given. */
  predicate OnBoth(a: real, b: real, c: real, d: real, x: real) {
    Min(a, b) <= x <= Max(a, b) && Min(c, d) <= x <= Max(c, d)
  }

  /** Parallel legs less than twelve apart cost four for every unit that they run side by side. */
  lemma ParallelConflict(a: Point, b: Point, s: Segment, low: real, high: real)
    requires low <= high
    ensures a.y == b.y && s.a.y == s.b.y && (forall x :: OnBoth(a.x, b.x, s.a.x, s.b.x, x) <==> low <= x <= high) ==>
              Conflict(a, b, s) == if -12.0 < a.y - s.a.y < 12.0 then 4.0 * (high - low) else 0.0
    ensures a.y != b.y && s.a.y != s.b.y && (forall y :: OnBoth(a.y, b.y, s.a.y, s.b.y, y) <==> low <= y <= high) ==>
              Conflict(a, b, s) == if -12.0 < a.x - s.a.x < 12.0 then 4.0 * (high - low) else 0.0
  {
    if a.y == b.y && s.a.y == s.b.y && forall x :: OnBoth(a.x, b.x, s.a.x, s.b.x, x) <==> low <= x <= high {
      CommonPart(a.x, b.x, s.a.x, s.b.x, low, high);
    }
    if a.y != b.y && s.a.y != s.b.y && forall y :: OnBoth(a.y, b.y, s.a.y, s.b.y, y) <==> low <= y <= high {
      CommonPart(a.y, b.y, s.a.y, s.b.y, low, high);
    }
  }

  lemma CommonPart(a: real, b: real, c: real, d: real, low: real, high: real)
    requires low <= high && forall x :: OnBoth(a, b, c, d, x) <==> low <= x <= high
    ensures Overlap(a, b, c, d) == high - low
  {
    assert OnBoth(a, b, c, d, low) && OnBoth(a, b, c, d, high);
    assert OnBoth(a, b, c, d, Max(Min(a, b), Min(c, d))) && OnBoth(a, b, c, d, Min(Max(a, b), Max(c, d)));
  }

  /** Parallel legs that are nowhere side by side cost nothing. */
  lemma ApartConflict(a: Point, b: Point, s: Segment)
    requires (a.y == b.y) == (s.a.y == s.b.y)
    requires if a.y == b.y then forall x :: !OnBoth(a.x, b.x, s.a.x, s.b.x, x) else forall y :: !OnBoth(a.y, b.y, s.a.y, s.b.y, y)
    ensures Conflict(a, b, s) == 0.0
  {
    if a.y == b.y {
      assert !OnBoth(a.x, b.x, s.a.x, s.b.x, Max(Min(a.x, b.x), Min(s.a.x, s.b.x)));
    } else {
      assert !OnBoth(a.y, b.y, s.a.y, s.b.y, Max(Min(a.y, b.y), Min(s.a.y, s.b.y)));
    }
  }

  /** `q` lies on the leg, but is neither of its ends. */
  predicate InsideLeg(a: Point, b: Point, q: Point) { OnSegment(a, b, q) && q != a && q != b }

  /** Perpendicular legs cost a hundred if and only if they cross in the interior of both. */
  lemma CrossingConflict(a: Point, b: Point, s: Segment)
    requires Aligned(a, b) && Aligned(s.a, s.b) && (a.y == b.y) != (s.a.y == s.b.y)
    ensures Conflict(a, b, s) == 100.0 || Conflict(a, b, s) == 0.0
    ensures Conflict(a, b, s) == 100.0 <==> exists q :: InsideLeg(a, b, q) && InsideLeg(s.a, s.b, q)
  {
    var q := if a.y == b.y then Point(s.a.x, a.y) else Point(a.x, s.a.y);
    assert forall p :: OnSegment(a, b, p) && OnSegment(s.a, s.b, p) ==> p == q;
    if Conflict(a, b, s) == 100.0 { assert InsideLeg(a, b, q) && InsideLeg(s.a, s.b, q); }
  }

  method ConflictCost(a: Point, b: Point, segments: seq<Segment>) returns (cost: real)
    ensures cost == ConflictSum(a, b, segments)
  {
    cost := 0.0;
    for i := 0 to |segments|
      invariant cost == ConflictSum(a, b, segments[..i])
    {
      var c, d := segments[i].a, segments[i].b;
      var horizontal, otherHorizontal := a.y == b.y, c.y == d.y;
      if horizontal == otherHorizontal {
        var fixedA, fixedC := if horizontal then a.y else a.x, if horizontal then c.y else c.x;
        if Abs(fixedA - fixedC) < 12.0 {
          var a1, b1 := if horizontal then a.x else a.y, if horizontal then b.x else b.y;
          var c1, d1 := if horizontal then c.x else c.y, if horizontal then d.x else d.y;
          cost := cost + Max(0.0, Min(Max(a1, b1), Max(c1, d1)) - Max(Min(a1, b1), Min(c1, d1))) * 4.0;
        }
      } else {
        var h1, h2, v1, v2 := a, b, c, d;
        if !horizontal { h1, h2, v1, v2 := c, d, a, b; }
        if v1.x > Min(h1.x, h2.x) && v1.x < Max(h1.x, h2.x) && h1.y > Min(v1.y, v2.y) && h1.y < Max(v1.y, v2.y) {
          cost := cost + 100.0;
        }
      }
      assert segments[..i + 1][..i] == segments[..i];
    }
    assert segments[..|segments|] == segments;
  }
}
