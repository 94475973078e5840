/**
 Crossing an earlier edge on a grid line costs nothing, and a board of four tasks where this happens: every
 cheapest walk runs straight across an earlier edge and is charged for its length alone.
 */
module RoutingFreeCrossing {

  import opened RoutingGeometry
  import opened RoutingGrid
  import opened RoutingSearch
  import opened RoutingSimplify
  import opened RoutingConflicts
  import opened RoutingRoute

  lemma NothingBetween(values: seq<real>, i: int, v: real)
    requires Increasing(values) && 0 <= i < |values| - 1 && v in values
    ensures v <= values[i] || values[i + 1] <= v
  {
    var k :| 0 <= k < |values| && values[k] == v;
  }

  /** A step is never charged for crossing an earlier perpendicular leg that lies on a grid line. */
  lemma CrossingOnGridLineIsFree(g: Grid, n: Node, direction: int, s: Segment)
    requires ValidGrid(g) && InRange(g, n) && CanStep(g, n, direction)
    requires if direction % 2 == 0 then s.a.y != s.b.y && s.a.x in g.xs else s.a.y == s.b.y && s.a.y in g.ys
    ensures Conflict(At(g, n), At(g, Move(n, direction)), s) == 0.0
  {
    hide Blocked, IndexOf, Key, NodeOf, KeyCount;
    var m := Move(n, direction);
    if direction == 0 { NothingBetween(g.xs, n.x, s.a.x); }
    else if direction == 1 { NothingBetween(g.ys, n.y, s.a.y); }
    else if direction == 2 { NothingBetween(g.xs, m.x, s.a.x); }
    else { NothingBetween(g.ys, m.y, s.a.y); }
  }

  // A corridor: nothing is in the way of the straight line, and nothing there costs anything

  predicate OpenStep(g: Grid, i: int) {
    && 0 <= i < |g.xs| - 1
    && var a, b := Point(g.xs[i], g.from.y), Point(g.xs[i + 1], g.from.y);
       !Blocked(a, b, g.boxes) && ConflictSum(a, b, g.segments) == 0.0
  }

  function First(g: Grid): int requires ValidGrid(g) { IndexOf(g.xs, g.from.x) }
  function Final(g: Grid): int requires ValidGrid(g) { IndexOf(g.xs, g.to.x) }
  function Row(g: Grid): int requires ValidGrid(g) { IndexOf(g.ys, g.from.y) }

  ghost predicate Corridor(g: Grid) {
    && ValidGrid(g) && g.sourceDirection == 0 && g.targetDirection == 0
    && g.from.y == g.to.y && g.from.x < g.to.x
    && forall i :: First(g) <= i < Final(g) ==> OpenStep(g, i)
  }

  /** The first `m` nodes of the straight walk. */
  function Straight(g: Grid, m: nat): (w: seq<Node>)
    requires ValidGrid(g)
    ensures |w| == m
  {
    seq(m, i => Node(First(g) + i, Row(g), 0))
  }

  function Way(g: Grid): int requires ValidGrid(g) { Final(g) - First(g) + 1 }

  lemma StepIsFree(g: Grid, i: int)
    requires Corridor(g) && First(g) <= i < Final(g)
    ensures var n := Node(i, Row(g), 0);
            InRange(g, n) && CanStep(g, n, 0) && StepCost(g, n, 0) == g.xs[i + 1] - g.xs[i]
  {
    hide Key, NodeOf, KeyCount, Blocked, ConflictSum, IndexOf, Increasing, IsGoal;
    assert OpenStep(g, i);
    InOrder(g, i);
    RowIsThere(g);
    LegLength(Point(g.xs[i], g.from.y), Point(g.xs[i + 1], g.from.y));
    hide Distance;
  }

  lemma RowIsThere(g: Grid)
    requires ValidGrid(g)
    ensures 0 <= Row(g) < |g.ys| && g.ys[Row(g)] == g.from.y && 0 <= First(g) < |g.xs| && g.xs[First(g)] == g.from.x
  {
  }

  lemma LegLength(a: Point, b: Point)
    requires a.y == b.y && a.x < b.x
    ensures Distance(a, b) == b.x - a.x
  {
  }

  lemma {:induction false} StraightWalk(g: Grid, m: nat)
    requires Corridor(g) && 0 < m <= Way(g)
    ensures IsWalk(g, Straight(g, m)) && WalkCost(g, Straight(g, m)) == g.xs[First(g) + m - 1] - g.from.x
  {
    hide Key, NodeOf, KeyCount, CanStep, StepCost, IndexOf;
    if m == 1 {
      assert Straight(g, 1) == [Initial(g)];
    } else {
      StraightWalk(g, m - 1);
      StepIsFree(g, First(g) + m - 2);
      ExtendWalk(g, Straight(g, m - 1), 0);
      assert Straight(g, m) == Straight(g, m - 1) + [Move(Last(Straight(g, m - 1)), 0)];
    }
  }

  lemma EndsInOrder(g: Grid)
    requires ValidGrid(g) && g.from.x < g.to.x
    ensures First(g) < Final(g)
  {
  }

  /** Through a corridor the straight walk reaches the goal and is a cheapest one. */
  lemma StraightIsCheapest(g: Grid)
    requires Corridor(g)
    ensures First(g) < Final(g)
    ensures Cheapest(g, Straight(g, Way(g))) && WalkCost(g, Straight(g, Way(g))) == Distance(g.from, g.to)
  {
    hide Key, NodeOf, KeyCount, IsWalk, WalkCost, IndexOf;
    EndsInOrder(g);
    StraightWalk(g, Way(g));
    forall v | ReachesGoal(g, v) ensures WalkCost(g, Straight(g, Way(g))) <= WalkCost(g, v) { EstimateIsAdmissible(g, v); }
  }

  lemma {:induction false} LengthAtLeastDistance(g: Grid, w: seq<Node>)
    requires ValidGrid(g) && IsWalk(g, w)
    ensures forall i :: 0 <= i < |w| ==> InRange(g, w[i])
    ensures Length(g, w) >= Distance(g.from, At(g, Last(w))) && Conflicts(g, w) >= 0.0
    decreases |w|
  {
    hide Key, NodeOf, KeyCount, CanStep, IndexOf, ConflictSum;
    WalkInRange(g, w);
    if |w| > 1 {
      PointsOfPrefix(g, w);
      LengthAtLeastDistance(g, w[..|w| - 1]);
    }
  }

  lemma {:induction false} NoBendsMeansStraight(g: Grid, w: seq<Node>)
    requires Corridor(g) && IsWalk(g, w) && Bends(w) == 0
    ensures w == Straight(g, |w|)
    decreases |w|
  {
    hide Key, NodeOf, KeyCount, CanStep, IndexOf, OpenStep;
    if |w| > 1 {
      PointsOfPrefix(g, w);
      NoBendsMeansStraight(g, w[..|w| - 1]);
      assert Follows(g, w[|w| - 2], Last(w));
      assert w == w[..|w| - 1] + [Last(w)];
    } else {
      assert w == [Initial(g)];
    }
  }

  lemma StraightToGoal(g: Grid, m: nat)
    requires Corridor(g) && m > 0 && ReachesGoal(g, Straight(g, m))
    ensures m == Way(g)
  {
    hide Key, NodeOf, KeyCount, IsWalk;
  }

  /** A walk to the goal that costs no more than the straight line is made without a bend. */
  lemma CheapMeansNoBends(g: Grid, w: seq<Node>)
    requires ValidGrid(g) && ReachesGoal(g, w) && WalkCost(g, w) <= Distance(g.from, g.to)
    ensures Bends(w) == 0
  {
    hide Key, NodeOf, KeyCount, IsWalk, WalkCost, IndexOf, Bends, Length, Conflicts, Distance;
    CostIsLengthBendsAndConflicts(g, w);
    LengthAtLeastDistance(g, w);
  }

  /** It is the only cheapest walk. */
  lemma OnlyStraightIsCheapest(g: Grid, w: seq<Node>)
    requires Corridor(g) && Cheapest(g, w)
    ensures w == Straight(g, Way(g)) && Bends(w) == 0 && |w| > 1 && WalkCost(g, w) == Distance(g.from, g.to)
  {
    hide Key, NodeOf, KeyCount, WalkCost, IndexOf, Straight, Bends, OpenStep, First, Final;
    StraightIsCheapest(g);
    CheapMeansNoBends(g, w);
    NoBendsMeansStraight(g, w);
    StraightToGoal(g, |w|);
  }

  // The board

  /** Two tasks on the left, at heights 0 and 200, and two on the right, at heights 200 and 400. */
  const TASKS := [Obstacle(0.0, 0.0, 190.0, 70.0), Obstacle(0.0, 200.0, 190.0, 70.0),
                  Obstacle(400.0, 200.0, 190.0, 70.0), Obstacle(400.0, 400.0, 190.0, 70.0)]

  /** The ports of the two middle tasks, eleven units away from their sides. */
  const FROM := Point(201.0, 235.0)
  const TO := Point(389.0, 235.0)

  /** The grid lines between the ports where an edge from the top left to the bottom right task can turn. */
  predicate Turn(x: real) { x == 229.0 || x == 295.0 || x == 361.0 }

  /** That edge, drawn before. */
  function Earlier(x: real): seq<Segment> {
    [Segment(Point(201.0, 35.0), Point(x, 35.0)), Segment(Point(x, 35.0), Point(x, 435.0)), Segment(Point(x, 435.0), Point(389.0, 435.0))]
  }

  function Board(x: real): (g: Grid)
    ensures ValidGrid(g)
  {
    GridFor(FROM, TO, Right, Left, TASKS, Earlier(x))
  }

  lemma BoardFacts(x: real)
    ensures var g := Board(x);
            && g.from == FROM && g.to == TO && g.sourceDirection == 0 && g.targetDirection == 0 && g.segments == Earlier(x)
  {
    hide LinesX, LinesY, Boxes, Earlier;
  }

  lemma BoardBoxes(x: real)
    ensures |Board(x).boxes| == |TASKS| && forall k :: 0 <= k < |TASKS| ==> Board(x).boxes[k] == Inflate(TASKS[k])
  {
    hide LinesX, LinesY, Earlier;
  }

  lemma TurnIsGridLine(x: real)
    requires Turn(x)
    ensures x in Board(x).xs
  {
    hide LinesX, LinesY, Boxes, Earlier;
    GuideLines(FROM, TO, 0, 0, Boxes(TASKS), Earlier(x));
  }

  lemma NothingBlocks(x: real, a: Point, b: Point)
    requires 201.0 <= a.x < b.x <= 389.0 && a.y == b.y == 235.0
    ensures !Blocked(a, b, Board(x).boxes)
  {
    BoardBoxes(x);
    hide Board;
    forall k | 0 <= k < |TASKS| ensures !BlockedBy(a, b, Inflate(TASKS[k])) {}
  }

  lemma NothingConflicts(x: real, a: Point, b: Point)
    requires a.y == b.y == 235.0 && a.x < b.x && (x <= a.x || b.x <= x)
    ensures ConflictSum(a, b, Earlier(x)) == 0.0
  {
    ThreeConflicts(a, b, Earlier(x));
  }

  lemma ThreeConflicts(a: Point, b: Point, segments: seq<Segment>)
    requires |segments| == 3
    ensures ConflictSum(a, b, segments) == Conflict(a, b, segments[0]) + Conflict(a, b, segments[1]) + Conflict(a, b, segments[2])
  {
    hide Conflict;
    var one, two := segments[..1], segments[..2];
    assert one[..0] == [] && two[..1] == one && segments[..|segments| - 1] == two;
    assert ConflictSum(a, b, []) == 0.0;
    assert ConflictSum(a, b, one) == Conflict(a, b, segments[0]);
    assert ConflictSum(a, b, two) == Conflict(a, b, segments[0]) + Conflict(a, b, segments[1]);
  }

  lemma InOrder(g: Grid, i: int)
    requires ValidGrid(g) && First(g) <= i < Final(g)
    ensures 0 <= i < |g.xs| - 1 && g.from.x <= g.xs[i] < g.xs[i + 1] <= g.to.x
  {
    hide IndexOf;
  }

  lemma BoardStepIsOpen(x: real, i: int)
    requires Turn(x) && First(Board(x)) <= i < Final(Board(x))
    ensures OpenStep(Board(x), i)
  {
    hide Board, Earlier, Blocked, ConflictSum, IndexOf, Turn, First, Final, Increasing;
    var g := Board(x);
    BoardFacts(x);
    TurnIsGridLine(x);
    InOrder(g, i);
    NothingBetween(g.xs, i, x);
    var a, b := Point(g.xs[i], 235.0), Point(g.xs[i + 1], 235.0);
    NothingBlocks(x, a, b);
    NothingConflicts(x, a, b);
  }

  lemma BoardIsCorridor(x: real)
    requires Turn(x)
    ensures Corridor(Board(x))
  {
    hide Board, Earlier, OpenStep, IndexOf, Turn, First, Final;
    BoardFacts(x);
    var g := Board(x);
    forall i | First(g) <= i < Final(g) ensures OpenStep(g, i) { BoardStepIsOpen(x, i); }
  }

  lemma CostAcross(x: real)
    requires Turn(x)
    ensures DrawnCost([FROM, TO], Earlier(x)) == Distance(FROM, TO) + CROSSING_COST
  {
    hide ConflictSum, DrawnCost;
    var e := Earlier(x);
    ThreeConflicts(FROM, TO, e);
    TwoPoints(FROM, TO, e);
  }

  lemma TwoPoints(a: Point, b: Point, segments: seq<Segment>)
    ensures DrawnCost([a, b], segments) == Distance(a, b) + ConflictSum(a, b, segments)
  {
    assert [a, b][..1] == [a];
    assert PathConflicts([a], segments) == 0.0 && PathLength([a]) == 0.0;
  }

  /**
   Wherever the earlier edge turns, every cheapest walk between the two middle tasks costs its length, and is
   drawn straight across the earlier edge, so that the drawn route costs exactly a crossing more.
   */
  lemma CheapestWalkCrossesFree(x: real, w: seq<Node>)
    requires Turn(x) && Cheapest(Board(x), w)
    ensures WalkCost(Board(x), w) == Distance(FROM, TO)
    ensures forall i :: 0 <= i < |w| ==> InRange(Board(x), w[i])
    ensures var route := Simplified(PointsOf(Board(x), w));
            route == [FROM, TO] && DrawnCost(route, Earlier(x)) == WalkCost(Board(x), w) + CROSSING_COST
  {
    BoardFacts(x);
    BoardIsCorridor(x);
    CostAcross(x);
    hide Board, DrawnCost, Simplified, Straight, Corridor, Earlier, Cheapest, InRange, PointsOf, Distance;
    OnlyStraightIsCheapest(Board(x), w);
    DrawnStraight(Board(x), w);
  }

  lemma DrawnStraight(g: Grid, w: seq<Node>)
    requires ValidGrid(g) && Cheapest(g, w) && Bends(w) == 0 && |w| > 1
    ensures forall i :: 0 <= i < |w| ==> InRange(g, w[i])
    ensures Simplified(PointsOf(g, w)) == [g.from, g.to]
  {
    hide NodeOf, Key, KeyCount, Bends, Simplified;
    CornersAreBends(g, w);
    SimplifiedKeepsEnds(PointsOf(g, w));
    WalkStarts(g, w);
  }

  lemma WalkStarts(g: Grid, w: seq<Node>)
    requires ValidGrid(g) && ReachesGoal(g, w)
    requires forall i :: 0 <= i < |w| ==> InRange(g, w[i])
    ensures |w| > 0 && PointsOf(g, w)[0] == g.from && Last(PointsOf(g, w)) == g.to
  {
  }

  lemma BoardHasRoute(x: real)
    requires Turn(x)
    ensures exists w :: ReachesGoal(Board(x), w)
  {
    hide Board;
    BoardIsCorridor(x);
    StraightIsCheapest(Board(x));
  }

  /** So is the route that the router returns. */
  method RouteAcrossEarlier(x: real) returns (route: Route)
    requires Turn(x)
    ensures !route.unroutable && route.points == [FROM, TO]
    ensures DrawnCost(route.points, Earlier(x)) == Distance(FROM, TO) + CROSSING_COST
  {
    route := EdgeRoute(FROM, TO, Right, Left, TASKS, Earlier(x));
    hide ReachesGoal, Cheapest, Simplified, GridFor, DrawnCost, Earlier;
    assert Board(x) == GridFor(FROM, TO, Right, Left, TASKS, Earlier(x));
    hide Board;
    BoardHasRoute(x);
    ghost var w :| Cheapest(Board(x), w) && (forall i :: 0 <= i < |w| ==> InRange(Board(x), w[i])) && route.points == Simplified(PointsOf(Board(x), w));
    CheapestWalkCrossesFree(x, w);
    CostAcross(x);
  }
}
