/** The whole router: grid, search, reconstruction, simplification and drawing. */
module RoutingRoute {

  import opened Wrappers
  import opened RoutingGeometry
  import opened RoutingGrid
  import opened RoutingSearch
  import opened RoutingSimplify
  import opened RoutingPath
  import opened RoutingConflicts

  datatype Side = Left | Right

  datatype Route = Route(points: seq<Point>, unroutable: bool, path: seq<Command>,
                         minX: real, maxX: real, minY: real, maxY: real)

  // The grid lines

  function Least(values: seq<real>): (r: real)
    requires values != []
    ensures r in values && forall v :: v in values ==> r <= v
  {
    if |values| == 1 then values[0]
    else
      var rest := Least(values[..|values| - 1]);
      assert values == values[..|values| - 1] + [Last(values)];
      Min(rest, Last(values))
  }

  function Greatest(values: seq<real>): (r: real)
    requires values != []
    ensures r in values && forall v :: v in values ==> v <= r
  {
    if |values| == 1 then values[0]
    else
      var rest := Greatest(values[..|values| - 1]);
      assert values == values[..|values| - 1] + [Last(values)];
      Max(rest, Last(values))
  }

  /** Inserts `v` in its place unless it is there already. */
  function Insert(sorted: seq<real>, v: real): (r: seq<real>)
    requires Increasing(sorted)
    ensures Increasing(r)
    ensures forall u :: u in r <==> u == v || u in sorted
  {
    if sorted == [] then [v]
    else if v < sorted[0] then [v] + sorted
    else if v == sorted[0] then sorted
    else
      var rest := Insert(sorted[1..], v);
      assert forall u :: u in rest ==> u == v || u in sorted[1..];
      assert sorted == [sorted[0]] + sorted[1..];
      PrependKeepsOrder(sorted[0], rest);
      [sorted[0]] + rest
  }

  lemma PrependKeepsOrder(v: real, sorted: seq<real>)
    requires Increasing(sorted) && forall u :: u in sorted ==> v < u
    ensures Increasing([v] + sorted)
  {
    assert forall i :: 0 <= i < |sorted| ==> sorted[i] in sorted;
  }

  /** The distinct values in increasing order. */
  function SortedDistinct(values: seq<real>): (r: seq<real>)
    ensures Increasing(r)
    ensures forall u :: u in r <==> u in values
  {
    if values == [] then [] else Insert(SortedDistinct(values[1..]), values[0])
  }

  function EdgesX(boxes: seq<Box>): seq<real> {
    if boxes == [] then [] else [boxes[0].x, boxes[0].right] + EdgesX(boxes[1..])
  }

  function EdgesY(boxes: seq<Box>): seq<real> {
    if boxes == [] then [] else [boxes[0].y, boxes[0].bottom] + EdgesY(boxes[1..])
  }

  /** Two extra lines beside every earlier leg that is perpendicular to the axis. */
  function TracksX(segments: seq<Segment>): seq<real> {
    if segments == [] then []
    else (if segments[0].a.x == segments[0].b.x then [segments[0].a.x - 16.0, segments[0].a.x + 16.0] else [])
         + TracksX(segments[1..])
  }

  function TracksY(segments: seq<Segment>): seq<real> {
    if segments == [] then []
    else (if segments[0].a.y == segments[0].b.y then [segments[0].a.y - 16.0, segments[0].a.y + 16.0] else [])
         + TracksY(segments[1..])
  }

  function LinesX(start: Point, end: Point, sourceDirection: int, targetDirection: int,
                  boxes: seq<Box>, segments: seq<Segment>): seq<real> {
    var values := [start.x, end.x, (start.x + end.x) / 2.0] + EdgesX(boxes)
                  + [start.x + Dx(sourceDirection) as real * 28.0, end.x - Dx(targetDirection) as real * 28.0];
    SortedDistinct(values + [Least(values) - 28.0, Greatest(values) + 28.0] + TracksX(segments))
  }

  function LinesY(start: Point, end: Point, boxes: seq<Box>, segments: seq<Segment>): seq<real> {
    var values := [start.y, end.y, (start.y + end.y) / 2.0] + EdgesY(boxes);
    SortedDistinct(values + [Least(values) - 28.0, Greatest(values) + 28.0] + TracksY(segments))
  }

  function Boxes(obstacles: seq<Obstacle>): (boxes: seq<Box>)
    ensures |boxes| == |obstacles| && forall i :: 0 <= i < |boxes| ==> boxes[i] == Inflate(obstacles[i])
  {
    seq(|obstacles|, i requires 0 <= i < |obstacles| => Inflate(obstacles[i]))
  }

  function SourceDirection(side: Side): int { if side == Right then 0 else 2 }
  function TargetDirection(side: Side): int { if side == Left then 0 else 2 }

  function GridFor(start: Point, end: Point, sourceSide: Side, targetSide: Side,
                   obstacles: seq<Obstacle>, segments: seq<Segment>): (g: Grid)
    ensures ValidGrid(g)
  {
    var boxes, s, t := Boxes(obstacles), SourceDirection(sourceSide), TargetDirection(targetSide);
    Grid(LinesX(start, end, s, t, boxes, segments), LinesY(start, end, boxes, segments), start, end, s, t, boxes, segments)
  }

  /** Half way between the ends, and 28 units outside each port, there is always a grid line. */
  lemma GuideLines(start: Point, end: Point, s: int, t: int, boxes: seq<Box>, segments: seq<Segment>)
    ensures var xs := LinesX(start, end, s, t, boxes, segments);
            && (start.x + end.x) / 2.0 in xs && start.x + Dx(s) as real * 28.0 in xs && end.x - Dx(t) as real * 28.0 in xs
  {
    hide SortedDistinct, TracksX, EdgesX, Least, Greatest, Dx;
    var out, back := start.x + Dx(s) as real * 28.0, end.x - Dx(t) as real * 28.0;
    var values := [start.x, end.x, (start.x + end.x) / 2.0] + EdgesX(boxes) + [out, back];
    AmongLines([start.x, end.x, (start.x + end.x) / 2.0], EdgesX(boxes), [out, back],
               [Least(values) - 28.0, Greatest(values) + 28.0], TracksX(segments));
  }

  lemma AmongLines(a: seq<real>, b: seq<real>, c: seq<real>, d: seq<real>, e: seq<real>)
    ensures forall v :: v in a || v in c ==> v in a + b + c + d + e
  {
  }

  // What an admissible walk looks like in the plane

  /** The leg from `a` to `b` goes in `direction`. */
  predicate Heads(a: Point, b: Point, direction: int) {
    && (direction == 0 ==> a.y == b.y && a.x < b.x)
    && (direction == 1 ==> a.x == b.x && a.y < b.y)
    && (direction == 2 ==> a.y == b.y && b.x < a.x)
    && (direction == 3 ==> a.x == b.x && b.y < a.y)
  }

  lemma StepHeads(g: Grid, w: seq<Node>, i: nat)
    requires ValidGrid(g) && IsWalk(g, w) && 0 < i < |w|
    ensures InRange(g, w[i - 1]) && InRange(g, w[i]) && 0 <= w[i].direction < 4
    ensures Heads(At(g, w[i - 1]), At(g, w[i]), w[i].direction)
    ensures i + 1 < |w| ==> 0 <= w[i + 1].direction < 4 && w[i + 1].direction != Opposite(w[i].direction)
    ensures i == 1 ==> w[i].direction == g.sourceDirection
    ensures !Blocked(At(g, w[i - 1]), At(g, w[i]), g.boxes)
  {
    hide Blocked, NodeOf, Key, KeyCount;
    assert Follows(g, w[i - 1], w[i]);
    if i + 1 < |w| { assert Follows(g, w[i], w[i + 1]); }
  }

  lemma HeadingLegs(a: Point, b: Point, c: Point, d: int, e: int)
    requires Heads(a, b, d) && Heads(b, c, e) && 0 <= d < 4 && 0 <= e < 4 && e != Opposite(d)
    ensures Aligned(a, b) && a != b && Onward(a, b, c)
  {
  }

  /** The polyline of a walk has no zero-length leg and never turns back. */
  lemma WalkIsClean(g: Grid, w: seq<Node>)
    requires ValidGrid(g) && IsWalk(g, w)
    ensures forall i :: 0 <= i < |w| ==> InRange(g, w[i])
    ensures CleanPath(PointsOf(g, w))
  {
    hide NodeOf, Key, KeyCount, IsWalk, CanStep;
    WalkInRange(g, w);
    var points := PointsOf(g, w);
    forall i | 0 < i < |points| ensures Aligned(points[i - 1], points[i]) && points[i - 1] != points[i] {
      StepHeads(g, w, i);
    }
    forall i | 0 < i < |points| - 1 ensures Onward(points[i - 1], points[i], points[i + 1]) {
      StepHeads(g, w, i);
      StepHeads(g, w, i + 1);
      HeadingLegs(points[i - 1], points[i], points[i + 1], w[i].direction, w[i + 1].direction);
    }
  }

  /** No point of a walk's polyline is strictly inside an inflated obstacle, unless the walk is the start alone. */
  lemma WalkIsClear(g: Grid, w: seq<Node>, q: Point, i: nat)
    requires ValidGrid(g) && IsWalk(g, w) && |w| > 1 && i < |g.boxes|
    requires (forall j :: 0 <= j < |w| ==> InRange(g, w[j])) && OnPath(PointsOf(g, w), q)
    ensures !Inside(g.boxes[i], q)
  {
    WalkIsClean(g, w);
    var points := PointsOf(g, w);
    var j :| 0 < j < |points| && OnLeg(points, j, q);
    StepHeads(g, w, j);
    assert Aligned(points[j - 1], points[j]);
    assert !BlockedBy(points[j - 1], points[j], g.boxes[i]);
    UnblockedStaysOut(points[j - 1], points[j], g.boxes[i], q);
  }

  // What the simplified route owes to the walk

  lemma PointsOfPrefix(g: Grid, w: seq<Node>)
    requires ValidGrid(g) && IsWalk(g, w) && |w| > 1
    ensures IsWalk(g, w[..|w| - 1])
    ensures forall i :: 0 <= i < |w| ==> InRange(g, w[i])
    ensures PointsOf(g, w) == PointsOf(g, w[..|w| - 1]) + [At(g, Last(w))]
    ensures PointsOf(g, w)[..|w| - 1] == PointsOf(g, w[..|w| - 1])
  {
    hide NodeOf, Key, KeyCount, CanStep;
    WalkInRange(g, w);
    var before := w[..|w| - 1];
    forall i | 0 < i < |before| ensures Follows(g, before[i - 1], before[i]) {
      assert Follows(g, w[i - 1], w[i]);
    }
    assert PointsOf(g, w) == PointsOf(g, before) + [At(g, Last(w))];
  }

  /** The straight length of the drawn route is the length the search paid for. */
  lemma {:induction false} LengthOfWalk(g: Grid, w: seq<Node>)
    requires ValidGrid(g) && IsWalk(g, w)
    ensures forall i :: 0 <= i < |w| ==> InRange(g, w[i])
    ensures PathLength(PointsOf(g, w)) == Length(g, w)
    decreases |w|
  {
    WalkInRange(g, w);
    if |w| > 1 {
      PointsOfPrefix(g, w);
      LengthOfWalk(g, w[..|w| - 1]);
    }
  }

  /** Two consecutive legs are in line exactly when the walk keeps its direction. */
  lemma InLineIffSameDirection(g: Grid, w: seq<Node>, z: Point)
    requires ValidGrid(g) && IsWalk(g, w) && |w| > 2
    requires forall i :: 0 <= i < |w| ==> InRange(g, w[i])
    requires var a, b := At(g, w[|w| - 3]), At(g, w[|w| - 2]); Aligned(z, b) && OnSegment(z, b, a)
    ensures Collinear(z, At(g, w[|w| - 2]), At(g, Last(w))) <==> w[|w| - 2].direction == Last(w).direction
  {
    hide NodeOf, Key, KeyCount, IsWalk, CanStep, Heads, Collinear, OnSegment, Blocked;
    StepHeads(g, w, |w| - 2);
    StepHeads(g, w, |w| - 1);
    InLine(z, At(g, w[|w| - 3]), At(g, w[|w| - 2]), At(g, Last(w)), w[|w| - 2].direction, Last(w).direction);
  }

  lemma InLine(z: Point, a: Point, b: Point, c: Point, d: int, e: int)
    requires Heads(a, b, d) && Heads(b, c, e) && 0 <= d < 4 && 0 <= e < 4 && e != Opposite(d)
    requires Aligned(z, b) && OnSegment(z, b, a)
    ensures Collinear(z, b, c) <==> d == e
  {
  }

  /** Every bend of the walk, and nothing else, is a corner of the simplified route. */
  lemma {:induction false} CornersAreBends(g: Grid, w: seq<Node>)
    requires ValidGrid(g) && IsWalk(g, w) && |w| > 1
    ensures forall i :: 0 <= i < |w| ==> InRange(g, w[i])
    ensures |Simplified(PointsOf(g, w))| == Bends(w) + 2
    decreases |w|
  {
    hide NodeOf, Key, KeyCount, CanStep, OnPath, PathLength, Straighten, Add, Collinear, Onward, SamePoints, CleanPath;
    PointsOfPrefix(g, w);
    WalkIsClean(g, w);
    var before, points := w[..|w| - 1], PointsOf(g, w);
    WalkIsClean(g, before);
    SimplifiedRepresents(PointsOf(g, before));
    var route, p := Simplified(PointsOf(g, before)), At(g, Last(w));
    LastLeg(points);
    if |w| == 2 {
      FirstStepIsStraight(g, w);
      AddedToOne(route, p);
    } else {
      CornersAreBends(g, before);
      InLineIffSameDirection(g, w, route[|route| - 2]);
      OnwardFromRoute(points, route);
      AddedCorner(route, p);
    }
  }

  lemma FirstStepIsStraight(g: Grid, w: seq<Node>)
    requires ValidGrid(g) && IsWalk(g, w) && |w| == 2
    ensures Bends(w) == 0
  {
    assert Follows(g, w[0], w[1]);
  }

  // The result

  /** The first leg goes in `direction`. */
  predicate Leaves(points: seq<Point>, direction: int)
    requires |points| > 1
  {
    && points[0].y == points[1].y
    && (direction == 0 ==> points[0].x < points[1].x)
    && (direction == 2 ==> points[1].x < points[0].x)
  }

  /** The last leg goes in `direction`. */
  predicate Arrives(points: seq<Point>, direction: int)
    requires |points| > 1
  {
    var a, b := points[|points| - 2], Last(points);
    && a.y == b.y
    && (direction == 0 ==> a.x < b.x)
    && (direction == 2 ==> b.x < a.x)
  }

  /** What the drawing board relies on for a route that was found. */
  ghost predicate Sound(g: Grid, obstacles: seq<Obstacle>, points: seq<Point>) {
    && |points| > 0 && points[0] == g.from && Last(points) == g.to
    && AlignedPath(points) && TurnsEverywhere(points)
    && (|points| > 1 ==>
          && Leaves(points, g.sourceDirection) && Arrives(points, g.targetDirection)
          && KeepsClearance(points, obstacles)
          && forall q :: Drawn(Rounded(points, obstacles), q) ==> Free(obstacles, q))
  }

  /** The simplified polyline of any admissible walk to the goal is a sound route. */
  lemma WalkGivesSoundRoute(g: Grid, obstacles: seq<Obstacle>, w: seq<Node>)
    requires ValidGrid(g) && ReachesGoal(g, w) && g.boxes == Boxes(obstacles)
    requires g.sourceDirection in {0, 2} && g.targetDirection in {0, 2}
    ensures forall i :: 0 <= i < |w| ==> InRange(g, w[i])
    ensures Sound(g, obstacles, Simplified(PointsOf(g, w)))
  {
    hide NodeOf, Key, KeyCount, CanStep, OnPath, PathLength, Straighten, Add, Collinear, Onward, Drawn, Free, Inside, Simplified, OnSegment;
    WalkIsClean(g, w);
    var points := PointsOf(g, w);
    var route := Simplified(points);
    SimplifiedRepresents(points);
    if |route| > 1 {
      forall q, i | OnPath(route, q) && 0 <= i < |obstacles| ensures !Inside(Inflate(obstacles[i]), q) {
        assert OnPath(points, q);
        WalkIsClear(g, w, q, i);
      }
      forall q | Drawn(Rounded(route, obstacles), q) ensures Free(obstacles, q) {
        DrawnPathIsFree(route, obstacles, q);
      }
      WalkEnds(g, w);
    }
  }

  lemma WalkEnds(g: Grid, w: seq<Node>)
    requires ValidGrid(g) && ReachesGoal(g, w) && |w| > 1
    requires g.sourceDirection in {0, 2} && g.targetDirection in {0, 2}
    requires forall i :: 0 <= i < |w| ==> InRange(g, w[i])
    requires var r := Simplified(PointsOf(g, w)); |r| > 1 && AlignedPath(r) && SameHeading(PointsOf(g, w), r)
    requires Last(Simplified(PointsOf(g, w))) == Last(PointsOf(g, w))
    requires Simplified(PointsOf(g, w))[0] == PointsOf(g, w)[0]
    ensures Leaves(Simplified(PointsOf(g, w)), g.sourceDirection)
    ensures Arrives(Simplified(PointsOf(g, w)), g.targetDirection)
  {
    hide NodeOf, Key, KeyCount, OnPath, PathLength, Simplified, Blocked, IsWalk, CanStep, Collinear;
    WalkIsClean(g, w);
    FirstLegKept(PointsOf(g, w));
    StepHeads(g, w, 1);
    StepHeads(g, w, |w| - 1);
  }

  /** The conflicts the search pays for are those of the polyline, grid step by grid step. */
  lemma {:induction false} ConflictsOfWalk(g: Grid, w: seq<Node>)
    requires ValidGrid(g) && IsWalk(g, w)
    ensures forall i :: 0 <= i < |w| ==> InRange(g, w[i])
    ensures PathConflicts(PointsOf(g, w), g.segments) == Conflicts(g, w)
    decreases |w|
  {
    WalkInRange(g, w);
    if |w| > 1 {
      PointsOfPrefix(g, w);
      ConflictsOfWalk(g, w[..|w| - 1]);
    }
  }

  /** What the drawn polyline costs: its length, its corners, and the conflicts of its legs. */
  ghost function DrawnCost(route: seq<Point>, segments: seq<Segment>): real
    requires |route| >= 2
  {
    PathLength(route) + (|route| - 2) as real * BEND_COST + PathConflicts(route, segments)
  }

  /** The search minimises the cost of the drawn route less the crossings at grid points of straight runs, which are free. */
  lemma CostOfRoute(g: Grid, w: seq<Node>)
    requires ValidGrid(g) && IsWalk(g, w) && |w| > 1
    ensures forall i :: 0 <= i < |w| ==> InRange(g, w[i])
    ensures var points := PointsOf(g, w); var route := Simplified(points);
            && |route| >= 2
            && DrawnCost(route, g.segments) == WalkCost(g, w) + FreeCrossings(points, g.segments) as real * CROSSING_COST
            && (DrawnCost(route, g.segments) == WalkCost(g, w) <==>
                  forall i, k :: 0 < i < |points| - 1 && Collinear(points[i - 1], points[i], points[i + 1]) && 0 <= k < |g.segments| ==>
                    !CrossesAt(points[i - 1], points[i], g.segments[k]))
  {
    hide NodeOf, Key, KeyCount, CanStep, OnPath, PathLength, Straighten, Add, Collinear, Onward, Simplified, PathConflicts, FreeCrossings, CrossesAt;
    WalkIsClean(g, w);
    SimplifiedRepresents(PointsOf(g, w));
    LengthOfWalk(g, w);
    CornersAreBends(g, w);
    ConflictsOfWalk(g, w);
    DrawnConflicts(PointsOf(g, w), g.segments);
    NoFreeCrossings(PointsOf(g, w), g.segments);
    CostIsLengthBendsAndConflicts(g, w);
  }

  /** A cheapest walk's drawn route is dearer than any other's by no more than its own free crossings; without any it is cheapest. */
  lemma CheapestWhenDrawn(g: Grid, w: seq<Node>, v: seq<Node>)
    requires ValidGrid(g) && Cheapest(g, w) && ReachesGoal(g, v) && |w| > 1 && |v| > 1
    ensures forall i :: 0 <= i < |w| ==> InRange(g, w[i])
    ensures forall i :: 0 <= i < |v| ==> InRange(g, v[i])
    ensures var r, other := Simplified(PointsOf(g, w)), Simplified(PointsOf(g, v));
            && |r| >= 2 && |other| >= 2
            && DrawnCost(r, g.segments) <=
                 DrawnCost(other, g.segments) + FreeCrossings(PointsOf(g, w), g.segments) as real * CROSSING_COST
  {
    hide NodeOf, Key, KeyCount, CanStep, IsWalk, WalkCost, DrawnCost, FreeCrossings, Simplified;
    CostOfRoute(g, w);
    CostOfRoute(g, v);
  }

  /** The earlier leg `s` runs across an inner grid line and properly through a grid point on it. */
  ghost predicate MeetsGridPoint(g: Grid, s: Segment) {
    || (s.a.y != s.b.y && exists i, j :: 0 < i < |g.xs| - 1 && 0 <= j < |g.ys| && s.a.x == g.xs[i] && StrictlyBetween(g.ys[j], s.a.y, s.b.y))
    || (s.a.y == s.b.y && exists i, j :: 0 <= i < |g.xs| && 0 < j < |g.ys| - 1 && s.a.y == g.ys[j] && StrictlyBetween(g.xs[i], s.a.x, s.b.x))
  }

  ghost predicate MeetsNoGridPoint(g: Grid) {
    forall k :: 0 <= k < |g.segments| ==> !MeetsGridPoint(g, g.segments[k])
  }

  /** In particular when no earlier vertical leg lies on a vertical grid line and no horizontal one on a horizontal one. */
  lemma OffTheLinesMeetsNone(g: Grid)
    requires forall k :: 0 <= k < |g.segments| ==>
               var s := g.segments[k]; if s.a.y == s.b.y then s.a.y !in g.ys else s.a.x !in g.xs
    ensures MeetsNoGridPoint(g)
  {
  }

  lemma InnerValue(values: seq<real>, i: int, j: int, k: int)
    requires Increasing(values) && 0 <= i < |values| && 0 <= j < |values| && 0 <= k < |values|
    requires (values[i] < values[j]) == (values[j] < values[k]) && values[i] != values[j] && values[j] != values[k]
    ensures 0 < j < |values| - 1
  {
  }

  lemma CrossingIsMet(g: Grid, a: Node, b: Node, c: Node, s: Segment)
    requires ValidGrid(g) && InRange(g, a) && InRange(g, b) && InRange(g, c)
    requires Collinear(At(g, a), At(g, b), At(g, c)) && Onward(At(g, a), At(g, b), At(g, c))
    requires Aligned(At(g, a), At(g, b)) && At(g, a) != At(g, b) && Aligned(At(g, b), At(g, c)) && At(g, b) != At(g, c)
    requires CrossesAt(At(g, a), At(g, b), s)
    ensures MeetsGridPoint(g, s)
  {
    if At(g, a).y == At(g, b).y {
      InnerValue(g.xs, a.x, b.x, c.x);
    } else {
      InnerValue(g.ys, a.y, b.y, c.y);
    }
  }

  /** Where no earlier leg meets a grid point, every walk costs exactly what its drawn route costs. */
  lemma CostAsDrawn(g: Grid, w: seq<Node>)
    requires ValidGrid(g) && IsWalk(g, w) && |w| > 1 && MeetsNoGridPoint(g)
    ensures forall i :: 0 <= i < |w| ==> InRange(g, w[i])
    ensures var route := Simplified(PointsOf(g, w)); |route| >= 2 && DrawnCost(route, g.segments) == WalkCost(g, w)
  {
    hide NodeOf, Key, KeyCount, CanStep, IsWalk, WalkCost, DrawnCost, FreeCrossings, Simplified, CrossesAt, Collinear, MeetsGridPoint, Onward;
    CostOfRoute(g, w);
    WalkIsClean(g, w);
    var points := PointsOf(g, w);
    forall i, k | 0 < i < |points| - 1 && Collinear(points[i - 1], points[i], points[i + 1]) && 0 <= k < |g.segments|
      ensures !CrossesAt(points[i - 1], points[i], g.segments[k])
    {
      if CrossesAt(points[i - 1], points[i], g.segments[k]) {
        CrossingIsMet(g, w[i - 1], w[i], w[i + 1], g.segments[k]);
      }
    }
  }

  /** No admissible walk is drawn cheaper than `route`. */
  ghost predicate CheapestDrawn(g: Grid, route: seq<Point>)
    requires ValidGrid(g)
  {
    |route| >= 2 &&
    forall v ::
      ReachesGoal(g, v) && (forall i :: 0 <= i < |v| ==> InRange(g, v[i])) && |Simplified(PointsOf(g, v))| >= 2 ==>
        DrawnCost(route, g.segments) <= DrawnCost(Simplified(PointsOf(g, v)), g.segments)
  }

  /** There, a cheapest walk is drawn at the least cost of all. */
  lemma CheapestIsCheapestDrawn(g: Grid, w: seq<Node>)
    requires ValidGrid(g) && Cheapest(g, w) && |w| > 1 && MeetsNoGridPoint(g)
    ensures forall i :: 0 <= i < |w| ==> InRange(g, w[i])
    ensures CheapestDrawn(g, Simplified(PointsOf(g, w)))
  {
    hide NodeOf, Key, KeyCount, CanStep, IsWalk, WalkCost, DrawnCost, Simplified, MeetsNoGridPoint, InRange, PointsOf;
    CostAsDrawn(g, w);
    forall v | ReachesGoal(g, v) && (forall i :: 0 <= i < |v| ==> InRange(g, v[i])) && |Simplified(PointsOf(g, v))| >= 2
      ensures DrawnCost(Simplified(PointsOf(g, w)), g.segments) <= DrawnCost(Simplified(PointsOf(g, v)), g.segments)
    {
      if |v| <= 1 { ShortWalk(g, v); }
      CostAsDrawn(g, v);
    }
  }

  lemma FoundIsCheapestDrawn(g: Grid, w: seq<Node>)
    requires ValidGrid(g) && Cheapest(g, w) && MeetsNoGridPoint(g)
    requires forall i :: 0 <= i < |w| ==> InRange(g, w[i])
    ensures |Simplified(PointsOf(g, w))| >= 2 ==> CheapestDrawn(g, Simplified(PointsOf(g, w)))
  {
    hide Simplified, Cheapest, PointsOf, MeetsNoGridPoint, CheapestDrawn;
    if |w| > 1 { CheapestIsCheapestDrawn(g, w); } else { ShortWalk(g, w); }
  }

  lemma ShortWalk(g: Grid, v: seq<Node>)
    requires |v| <= 1 && (forall i :: 0 <= i < |v| ==> InRange(g, v[i]))
    ensures |Simplified(PointsOf(g, v))| <= 1
  {
    assert PointsOf(g, v) == if v == [] then [] else [At(g, v[0])];
  }

  function Xs(points: seq<Point>): (r: seq<real>)
    ensures |r| == |points|
  {
    seq(|points|, i requires 0 <= i < |points| => points[i].x)
  }

  function Ys(points: seq<Point>): (r: seq<real>)
    ensures |r| == |points|
  {
    seq(|points|, i requires 0 <= i < |points| => points[i].y)
  }

  method EdgeRoute(start: Point, end: Point, sourceSide: Side, targetSide: Side,
                   obstacles: seq<Obstacle>, segments: seq<Segment>) returns (route: Route)
    // no route is reported exactly when no admissible walk exists
    ensures var g := GridFor(start, end, sourceSide, targetSide, obstacles, segments);
            route.unroutable <==> forall w :: !ReachesGoal(g, w)
    // otherwise the route is the polyline of a walk that no admissible walk beats
    ensures var g := GridFor(start, end, sourceSide, targetSide, obstacles, segments);
            !route.unroutable ==>
              exists w ::
                && Cheapest(g, w)
                && (forall i :: 0 <= i < |w| ==> InRange(g, w[i]))
                && route.points == Simplified(PointsOf(g, w))
    ensures var g := GridFor(start, end, sourceSide, targetSide, obstacles, segments);
            !route.unroutable ==> Sound(g, obstacles, route.points)
    // and where no earlier leg meets a grid point, no admissible walk is drawn cheaper
    ensures var g := GridFor(start, end, sourceSide, targetSide, obstacles, segments);
            !route.unroutable && |route.points| >= 2 && MeetsNoGridPoint(g) ==> CheapestDrawn(g, route.points)
    ensures route.unroutable ==> route.points == Simplified([start, start, Point(start.x, end.y), end, end])
    ensures |route.points| > 0 && route.points[0] == start && Last(route.points) == end
    ensures AlignedPath(route.points) && TurnsEverywhere(route.points)
    ensures route.path == Rounded(route.points, obstacles)
    // the reported bounds are those of the corners, and nothing is drawn outside them
    ensures route.minX in Xs(route.points) && route.maxX in Xs(route.points)
    ensures route.minY in Ys(route.points) && route.maxY in Ys(route.points)
    ensures forall q :: Drawn(route.path, q) ==> route.minX <= q.x <= route.maxX && route.minY <= q.y <= route.maxY
  {
    hide ValidGrid, IsWalk, WalkCost, OnPath, Simplified, Rounded, Sound, IsGoal, GridFor, InRange, AlignedPath, TurnsEverywhere,
         CheapestDrawn, MeetsNoGridPoint;
    var g := GridOf(start, end, sourceSide, targetSide, obstacles, segments);
    var search := new Search(g);
    var found := search.Run();
    var points := [start, Point(start.x, end.y), end];
    if found.Some? {
      points := search.Rebuild(found.value);
      ghost var w := search.walks[found.value.key];
      FoundRoute(start, end, obstacles, g, w);
      if MeetsNoGridPoint(g) { FoundIsCheapestDrawn(g, w); }
    } else {
      FallbackIsClean(start, end);
      assert [start] + points + [end] == [start, start, Point(start.x, end.y), end, end];
    }
    var simplified := Simplify([start] + points + [end]);
    var path := RoundedPath(simplified, obstacles);
    route := Route(simplified, found.None?, path, Least(Xs(simplified)), Greatest(Xs(simplified)),
                   Least(Ys(simplified)), Greatest(Ys(simplified)));
    BoundsHold(simplified, obstacles);
  }

  lemma BoundsHold(points: seq<Point>, obstacles: seq<Obstacle>)
    requires |points| > 0 && AlignedPath(points) && TurnsEverywhere(points)
    ensures forall q :: Drawn(Rounded(points, obstacles), q) ==>
              && Least(Xs(points)) <= q.x <= Greatest(Xs(points))
              && Least(Ys(points)) <= q.y <= Greatest(Ys(points))
  {
    hide Drawn, Rounded;
    var low, high := Point(Least(Xs(points)), Least(Ys(points))), Point(Greatest(Xs(points)), Greatest(Ys(points)));
    forall i | 0 <= i < |points| ensures OnSegment(low, high, points[i]) {
      assert Xs(points)[i] in Xs(points) && Ys(points)[i] in Ys(points);
    }
    forall q | Drawn(Rounded(points, obstacles), q) ensures low.x <= q.x <= high.x && low.y <= q.y <= high.y {
      DrawnPathInBounds(points, obstacles, low, high, q);
    }
  }

  /** The grid, with the facts about it that the router uses. */
  method GridOf(start: Point, end: Point, sourceSide: Side, targetSide: Side,
                obstacles: seq<Obstacle>, segments: seq<Segment>) returns (g: Grid)
    ensures g == GridFor(start, end, sourceSide, targetSide, obstacles, segments) && ValidGrid(g)
    ensures g.from == start && g.to == end && g.boxes == Boxes(obstacles)
    ensures g.sourceDirection in {0, 2} && g.targetDirection in {0, 2}
  {
    g := GridFor(start, end, sourceSide, targetSide, obstacles, segments);
  }

  lemma FoundRoute(start: Point, end: Point, obstacles: seq<Obstacle>, g: Grid, w: seq<Node>)
    requires ValidGrid(g) && g.from == start && g.to == end && g.boxes == Boxes(obstacles)
    requires g.sourceDirection in {0, 2} && g.targetDirection in {0, 2}
    requires ReachesGoal(g, w)
    ensures forall i :: 0 <= i < |w| ==> InRange(g, w[i])
    ensures Simplified([start] + PointsOf(g, w) + [end]) == Simplified(PointsOf(g, w))
    ensures var r := Simplified(PointsOf(g, w));
            && Sound(g, obstacles, r) && |r| > 0 && r[0] == start && Last(r) == end && AlignedPath(r) && TurnsEverywhere(r)
  {
    hide OnPath, Simplified, Drawn, Free;
    WalkGivesSoundRoute(g, obstacles, w);
    var points := PointsOf(g, w);
    SimplifiedIgnoresRepeats(points);
    SimplifiedIgnoresRepeats([start] + points);
  }
}
