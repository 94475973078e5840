/**
 Which lines the router's grid has, in the terms of the board: ends, ports, obstacles and earlier legs. They
 always leave a ring around everything that nothing blocks, so that an edge whose ports can be left is routable.
 */
module RoutingLines {

  import opened RoutingGeometry
  import opened RoutingGrid
  import opened RoutingSearch
  import opened RoutingSimplify
  import opened RoutingConflicts
  import opened RoutingRoute

  /** Where an edge has left its port. */
  function Outside(x: real, side: Side): real { if side == Right then x + 28.0 else x - 28.0 }

  /** What the columns are made for: the ends, the middle, the ports, and the sides of the obstacles grown by eight. */
  ghost predicate BaseX(start: Point, end: Point, sourceSide: Side, targetSide: Side, obstacles: seq<Obstacle>, v: real) {
    || v == start.x || v == end.x || v == (start.x + end.x) / 2.0
    || v == Outside(start.x, sourceSide) || v == Outside(end.x, targetSide)
    || exists i :: 0 <= i < |obstacles| && (v == obstacles[i].x - 8.0 || v == obstacles[i].x + obstacles[i].width + 8.0)
  }

  ghost predicate BaseY(start: Point, end: Point, obstacles: seq<Obstacle>, v: real) {
    || v == start.y || v == end.y || v == (start.y + end.y) / 2.0
    || exists i :: 0 <= i < |obstacles| && (v == obstacles[i].y - 8.0 || v == obstacles[i].y + obstacles[i].height + 8.0)
  }

  /** `v` lies 28 beyond all values for which `base` holds, on the side where they end with `least` or `greatest`. */
  ghost predicate Beyond(base: real -> bool, v: real) {
    || (base(v + 28.0) && forall u :: base(u) ==> v + 28.0 <= u)
    || (base(v - 28.0) && forall u :: base(u) ==> u <= v - 28.0)
  }

  /** Sixteen to either side of an earlier leg that runs along the lines. */
  ghost predicate TrackX(segments: seq<Segment>, v: real) {
    exists k :: 0 <= k < |segments| && segments[k].a.x == segments[k].b.x && (v == segments[k].a.x - 16.0 || v == segments[k].a.x + 16.0)
  }

  ghost predicate TrackY(segments: seq<Segment>, v: real) {
    exists k :: 0 <= k < |segments| && segments[k].a.y == segments[k].b.y && (v == segments[k].a.y - 16.0 || v == segments[k].a.y + 16.0)
  }

  lemma {:induction false} EdgesXAre(boxes: seq<Box>, v: real)
    ensures v in EdgesX(boxes) <==> exists i :: 0 <= i < |boxes| && (v == boxes[i].x || v == boxes[i].right)
  {
    if boxes != [] {
      EdgesXAre(boxes[1..], v);
      assert forall i :: 0 < i < |boxes| ==> boxes[i] == boxes[1..][i - 1];
    }
  }

  lemma {:induction false} EdgesYAre(boxes: seq<Box>, v: real)
    ensures v in EdgesY(boxes) <==> exists i :: 0 <= i < |boxes| && (v == boxes[i].y || v == boxes[i].bottom)
  {
    if boxes != [] {
      EdgesYAre(boxes[1..], v);
      assert forall i :: 0 < i < |boxes| ==> boxes[i] == boxes[1..][i - 1];
    }
  }

  lemma {:induction false} TracksXAre(segments: seq<Segment>, v: real)
    ensures v in TracksX(segments) <==> TrackX(segments, v)
  {
    if segments != [] {
      TracksXAre(segments[1..], v);
      assert forall k :: 0 < k < |segments| ==> segments[k] == segments[1..][k - 1];
    }
  }

  lemma {:induction false} TracksYAre(segments: seq<Segment>, v: real)
    ensures v in TracksY(segments) <==> TrackY(segments, v)
  {
    if segments != [] {
      TracksYAre(segments[1..], v);
      assert forall k :: 0 < k < |segments| ==> segments[k] == segments[1..][k - 1];
    }
  }

  /** A list of values with 28 beyond its least and its greatest, and more. */
  lemma LinesOf(values: seq<real>, tracks: seq<real>, base: real -> bool, v: real)
    requires values != [] && forall u :: u in values <==> base(u)
    ensures v in SortedDistinct(values + [Least(values) - 28.0, Greatest(values) + 28.0] + tracks) <==>
              base(v) || Beyond(base, v) || v in tracks
  {
    hide SortedDistinct, Least, Greatest;
    var low, high := Least(values) - 28.0, Greatest(values) + 28.0;
    assert v in SortedDistinct(values + [low, high] + tracks) <==> v in values || v == low || v == high || v in tracks;
    assert base(low + 28.0) && base(high - 28.0);
    if Beyond(base, v) {
      if base(v + 28.0) && forall u :: base(u) ==> v + 28.0 <= u {
        assert v + 28.0 == low + 28.0;
      } else {
        assert v - 28.0 == high - 28.0;
      }
    }
  }

  /** What an edge is routed between: its ends and sides, the obstacles, and the legs of the edges drawn before. */
  datatype Board = Board(start: Point, end: Point, sourceSide: Side, targetSide: Side, obstacles: seq<Obstacle>, segments: seq<Segment>)

  ghost function Columns(b: Board): real -> bool {
    (v: real) => BaseX(b.start, b.end, b.sourceSide, b.targetSide, b.obstacles, v)
  }

  ghost function Rows(b: Board): real -> bool {
    (v: real) => BaseY(b.start, b.end, b.obstacles, v)
  }

  function GridOn(b: Board): (g: Grid)
    ensures ValidGrid(g)
  {
    GridFor(b.start, b.end, b.sourceSide, b.targetSide, b.obstacles, b.segments)
  }

  lemma EdgesOfObstacles(obstacles: seq<Obstacle>, v: real)
    ensures v in EdgesX(Boxes(obstacles)) <==>
              exists i :: 0 <= i < |obstacles| && (v == obstacles[i].x - 8.0 || v == obstacles[i].x + obstacles[i].width + 8.0)
    ensures v in EdgesY(Boxes(obstacles)) <==>
              exists i :: 0 <= i < |obstacles| && (v == obstacles[i].y - 8.0 || v == obstacles[i].y + obstacles[i].height + 8.0)
  {
    var boxes := Boxes(obstacles);
    hide Boxes;
    EdgesXAre(boxes, v);
    EdgesYAre(boxes, v);
    forall i | 0 <= i < |obstacles|
      ensures boxes[i] == Box(obstacles[i].x - 8.0, obstacles[i].y - 8.0,
                              obstacles[i].x + obstacles[i].width + 8.0, obstacles[i].y + obstacles[i].height + 8.0)
    {
      assert boxes[i] == Inflate(obstacles[i]);
    }
  }

  function ColumnValues(b: Board): seq<real> {
    [b.start.x, b.end.x, (b.start.x + b.end.x) / 2.0] + EdgesX(Boxes(b.obstacles))
    + [b.start.x + Dx(SourceDirection(b.sourceSide)) as real * 28.0, b.end.x - Dx(TargetDirection(b.targetSide)) as real * 28.0]
  }

  function RowValues(b: Board): seq<real> {
    [b.start.y, b.end.y, (b.start.y + b.end.y) / 2.0] + EdgesY(Boxes(b.obstacles))
  }

  lemma PortsAre(b: Board)
    ensures b.start.x + Dx(SourceDirection(b.sourceSide)) as real * 28.0 == Outside(b.start.x, b.sourceSide)
    ensures b.end.x - Dx(TargetDirection(b.targetSide)) as real * 28.0 == Outside(b.end.x, b.targetSide)
  {
  }

  lemma ValuesAre(b: Board, v: real)
    ensures v in ColumnValues(b) <==> Columns(b)(v)
    ensures v in RowValues(b) <==> Rows(b)(v)
  {
    EdgesOfObstacles(b.obstacles, v);
    PortsAre(b);
    hide EdgesX, EdgesY, Boxes, Outside, SourceDirection, TargetDirection, Dx;
  }

  lemma ColumnLines(b: Board)
    ensures var c := ColumnValues(b);
            c != [] && GridOn(b).xs == SortedDistinct(c + [Least(c) - 28.0, Greatest(c) + 28.0] + TracksX(b.segments))
  {
    hide SortedDistinct, Least, Greatest, EdgesX, LinesX, LinesY, TracksX, Boxes, Dx, SourceDirection, TargetDirection;
    LinesXAre(b.start, b.end, SourceDirection(b.sourceSide), TargetDirection(b.targetSide), Boxes(b.obstacles), b.segments);
  }

  lemma LinesXAre(start: Point, end: Point, s: int, t: int, boxes: seq<Box>, segments: seq<Segment>)
    ensures var c := [start.x, end.x, (start.x + end.x) / 2.0] + EdgesX(boxes) + [start.x + Dx(s) as real * 28.0, end.x - Dx(t) as real * 28.0];
            LinesX(start, end, s, t, boxes, segments) == SortedDistinct(c + [Least(c) - 28.0, Greatest(c) + 28.0] + TracksX(segments))
  {
    hide SortedDistinct, Least, Greatest, EdgesX, TracksX, Dx;
  }

  lemma RowLines(b: Board)
    ensures var r := RowValues(b);
            r != [] && GridOn(b).ys == SortedDistinct(r + [Least(r) - 28.0, Greatest(r) + 28.0] + TracksY(b.segments))
  {
    hide SortedDistinct, Least, Greatest, EdgesY, LinesX, TracksY, Boxes, Dx;
  }

  /** The columns of the grid are exactly the base values, the lines beyond them on either side, and the tracks. */
  lemma ColumnsAre(b: Board, v: real)
    ensures v in GridOn(b).xs <==> Columns(b)(v) || Beyond(Columns(b), v) || TrackX(b.segments, v)
  {
    ColumnLines(b);
    hide GridOn, TracksX, SortedDistinct, TrackX, Beyond, Columns, ColumnValues;
    forall u ensures u in ColumnValues(b) <==> Columns(b)(u) { ValuesAre(b, u); }
    LinesOf(ColumnValues(b), TracksX(b.segments), Columns(b), v);
    TracksXAre(b.segments, v);
  }

  /** The rows likewise, without ports. */
  lemma RowsAre(b: Board, v: real)
    ensures v in GridOn(b).ys <==> Rows(b)(v) || Beyond(Rows(b), v) || TrackY(b.segments, v)
  {
    RowLines(b);
    hide GridOn, TracksY, SortedDistinct, TrackY, Beyond, Rows, RowValues;
    forall u ensures u in RowValues(b) <==> Rows(b)(u) { ValuesAre(b, u); }
    LinesOf(RowValues(b), TracksY(b.segments), Rows(b), v);
    TracksYAre(b.segments, v);
  }

  lemma GridFacts(b: Board)
    ensures var g := GridOn(b);
            && g.from == b.start && g.to == b.end && g.boxes == Boxes(b.obstacles) && g.segments == b.segments
            && g.sourceDirection == (if b.sourceSide == Right then 0 else 2)
            && g.targetDirection == (if b.targetSide == Left then 0 else 2)
  {
  }

  /** Nothing blocks a leg along a row beyond everything. */
  lemma OuterRowIsOpen(b: Board, y: real, p: Point, q: Point)
    requires Beyond(Rows(b), y) && p.y == y && q.y == y
    ensures !Blocked(p, q, Boxes(b.obstacles))
  {
    forall i | 0 <= i < |b.obstacles| ensures !BlockedBy(p, q, Boxes(b.obstacles)[i]) {
      var o := b.obstacles[i];
      assert Boxes(b.obstacles)[i] == Inflate(o);
      assert Rows(b)(o.y - 8.0) && Rows(b)(o.y + o.height + 8.0);
    }
  }

  // Walking straight on

  function Ahead(n: Node, direction: int, k: nat): Node {
    Node(if direction == 0 then n.x + k else if direction == 2 then n.x - k else n.x,
         if direction == 1 then n.y + k else if direction == 3 then n.y - k else n.y, direction)
  }

  lemma SubLegIsClear(a: Point, b: Point, p: Point, q: Point, boxes: seq<Box>)
    requires !Blocked(a, b, boxes) && OnSegment(a, b, p) && OnSegment(a, b, q) && a != b && p != q && Aligned(a, b)
    ensures !Blocked(p, q, boxes)
  {
    forall i | 0 <= i < |boxes| ensures !BlockedBy(p, q, boxes[i]) { assert !BlockedBy(a, b, boxes[i]); }
  }

  /** Every node on the way is on the grid, and the end is entered only in its direction. */
  ghost predicate CanPass(g: Grid, n: Node, direction: int, k: nat) {
    forall j :: 0 < j <= k ==>
      && InRange(g, Ahead(n, direction, j))
      && (At(g, Ahead(n, direction, j)) == g.to ==> direction == g.targetDirection)
  }

  lemma AheadIsOnLeg(g: Grid, n: Node, direction: int, j: nat, k: nat)
    requires ValidGrid(g) && InRange(g, n) && 0 <= direction < 4 && j <= k && InRange(g, Ahead(n, direction, k))
    ensures InRange(g, Ahead(n, direction, j)) && Aligned(At(g, n), At(g, Ahead(n, direction, k)))
    ensures OnSegment(At(g, n), At(g, Ahead(n, direction, k)), At(g, Ahead(n, direction, j)))
    ensures 0 < k ==> At(g, n) != At(g, Ahead(n, direction, k))
  {
  }

  /** The leg without its last step is clear, and so is the last step. */
  lemma LegPieces(g: Grid, n: Node, direction: int, k: nat)
    requires ValidGrid(g) && InRange(g, n) && 0 <= direction < 4 && 0 < k && InRange(g, Ahead(n, direction, k))
    requires !Blocked(At(g, n), At(g, Ahead(n, direction, k)), g.boxes)
    ensures InRange(g, Ahead(n, direction, k - 1))
    ensures 1 < k ==> !Blocked(At(g, n), At(g, Ahead(n, direction, k - 1)), g.boxes)
    ensures !Blocked(At(g, Ahead(n, direction, k - 1)), At(g, Ahead(n, direction, k)), g.boxes)
  {
    hide Blocked, ValidGrid, Aligned, OnSegment;
    var a, b := At(g, n), At(g, Ahead(n, direction, k));
    AheadIsOnLeg(g, n, direction, 0, k);
    AheadIsOnLeg(g, n, direction, k - 1, k);
    AheadIsOnLeg(g, n, direction, k, k);
    var before := Ahead(n, direction, k - 1);
    assert Ahead(before, direction, 1) == Ahead(n, direction, k);
    AheadIsOnLeg(g, before, direction, 1, 1);
    SubLegIsClear(a, b, At(g, before), b, g.boxes);
    if k > 1 {
      AheadIsOnLeg(g, n, direction, k - 1, k - 1);
      SubLegIsClear(a, b, a, At(g, before), g.boxes);
    }
  }

  /** A walk can be continued straight on as long as the whole leg is clear. */
  lemma {:induction false} StraightOn(g: Grid, w: seq<Node>, direction: int, k: nat) returns (v: seq<Node>)
    requires ValidGrid(g) && IsWalk(g, w) && |w| > 0 && InRange(g, Last(w)) && 0 <= direction < 4
    requires direction != Opposite(Last(w).direction) && (Last(w) == Initial(g) ==> direction == g.sourceDirection)
    requires CanPass(g, Last(w), direction, k)
    requires 0 < k ==> !Blocked(At(g, Last(w)), At(g, Ahead(Last(w), direction, k)), g.boxes)
    ensures IsWalk(g, v) && |v| > 0 && Last(v) == if k == 0 then Last(w) else Ahead(Last(w), direction, k)
  {
    hide IsWalk, Key, NodeOf, KeyCount, Blocked, IndexOf, WalkCost, StepCost, At, ValidGrid;
    var n := Last(w);
    if k == 0 {
      v := w;
    } else {
      LegPieces(g, n, direction, k);
      v := StraightOn(g, w, direction, k - 1);
      InitialDirection(g);
      OneStep(g, Last(v), direction);
      ExtendWalk(g, v, direction);
      v := v + [Move(Last(v), direction)];
    }
  }

  lemma OneStep(g: Grid, n: Node, direction: int)
    ensures 0 <= direction < 4 ==> Move(n, direction) == Ahead(n, direction, 1)
    ensures n.direction == direction && 0 <= direction < 4 ==> Ahead(n, direction, 0) == n && direction != Opposite(direction)
  {
  }

  lemma InitialDirection(g: Grid)
    requires ValidGrid(g)
    ensures Initial(g).direction == g.sourceDirection
  {
  }

  // Walking from point to point

  function DirectionTo(a: Point, p: Point): int {
    if a.x < p.x then 0 else if a.y < p.y then 1 else if p.x < a.x then 2 else 3
  }

  /** `w` ends at the point `p`, having come in `direction`. */
  ghost predicate EndsAt(g: Grid, w: seq<Node>, p: Point, direction: int)
    requires ValidGrid(g)
  {
    IsWalk(g, w) && |w| > 0 && InRange(g, Last(w)) && At(g, Last(w)) == p && Last(w).direction == direction
  }

  ghost predicate OnGrid(g: Grid, p: Point) { p.x in g.xs && p.y in g.ys }

  /** How many grid steps lie between two points on a line. */
  function Steps(g: Grid, n: Node, p: Point): nat
    requires ValidGrid(g) && InRange(g, n) && OnGrid(g, p)
  {
    var dx, dy := IndexOf(g.xs, p.x) - n.x, IndexOf(g.ys, p.y) - n.y;
    (if dx < 0 then -dx else dx) + (if dy < 0 then -dy else dy)
  }

  lemma AheadIsThere(g: Grid, n: Node, p: Point)
    requires ValidGrid(g) && InRange(g, n) && OnGrid(g, p) && Aligned(At(g, n), p) && At(g, n) != p
    ensures var d, k := DirectionTo(At(g, n), p), Steps(g, n, p);
            0 < k && InRange(g, Ahead(n, d, k)) && At(g, Ahead(n, d, k)) == p
  {
  }

  /** From the end of a walk a clear leg can be walked that does not turn back and meets the goal in its direction only. */
  lemma WalkTo(g: Grid, w: seq<Node>, a: Point, p: Point, came: int) returns (v: seq<Node>)
    requires ValidGrid(g) && EndsAt(g, w, a, came) && OnGrid(g, p) && Aligned(a, p) && a != p
    requires DirectionTo(a, p) != Opposite(came)
    requires a == g.from && came == g.sourceDirection ==> DirectionTo(a, p) == g.sourceDirection
    requires OnSegment(a, p, g.to) && g.to != a ==> DirectionTo(a, p) == g.targetDirection
    requires !Blocked(a, p, g.boxes)
    ensures EndsAt(g, v, p, DirectionTo(a, p))
  {
    hide Blocked, IsWalk, Key, NodeOf, KeyCount, IndexOf, Opposite, OnSegment, Aligned;
    var n, d := Last(w), DirectionTo(a, p);
    AheadIsThere(g, n, p);
    var k := Steps(g, n, p);
    hide Steps, DirectionTo;
    DirectionIsOne(a, p);
    forall j | 0 < j <= k
      ensures InRange(g, Ahead(n, d, j)) && (At(g, Ahead(n, d, j)) == g.to ==> d == g.targetDirection)
    {
      AheadIsOnLeg(g, n, d, j, k);
      AheadIsOnLeg(g, n, d, j, j);
    }
    v := StraightOn(g, w, d, k);
  }

  lemma DirectionIsOne(a: Point, p: Point)
    ensures 0 <= DirectionTo(a, p) < 4
  {
  }

  // Around everything

  /** An edge can go out of its port, along a row beyond everything, and back into the other port, if those legs are clear. */
  lemma RoutableAround(b: Board, y: real) returns (w: seq<Node>)
    requires Beyond(Rows(b), y)
    requires var sx, tx, boxes := Outside(b.start.x, b.sourceSide), Outside(b.end.x, b.targetSide), Boxes(b.obstacles);
             && sx != tx
             && !Blocked(b.start, Point(sx, b.start.y), boxes) && !Blocked(Point(sx, b.start.y), Point(sx, y), boxes)
             && !Blocked(Point(tx, y), Point(tx, b.end.y), boxes) && !Blocked(Point(tx, b.end.y), b.end, boxes)
             && !OnSegment(b.start, Point(sx, b.start.y), b.end) && !OnSegment(Point(sx, b.start.y), Point(sx, y), b.end)
    ensures ReachesGoal(GridOn(b), w)
  {
    var g := GridOn(b);
    var sx, tx := Outside(b.start.x, b.sourceSide), Outside(b.end.x, b.targetSide);
    GridFacts(b);
    ColumnsAre(b, sx);
    ColumnsAre(b, tx);
    RowsAre(b, y);
    OuterRowIsOpen(b, y, Point(sx, y), Point(tx, y));
    OuterRowIsApart(b, y);
    hide GridOn, Blocked, Beyond, TrackX, TrackY, Boxes, Rows, ReachesGoal;
    w := Around(g, sx, tx, y);
  }

  /** Out of the start to column `sx`, along it to row `y`, along that to column `tx`, and back to the end. */
  lemma Around(g: Grid, sx: real, tx: real, y: real) returns (w: seq<Node>)
    requires ValidGrid(g) && sx in g.xs && tx in g.xs && y in g.ys && sx != tx
    requires if g.sourceDirection == 0 then g.from.x < sx else g.sourceDirection == 2 && sx < g.from.x
    requires if g.targetDirection == 0 then tx < g.to.x else g.targetDirection == 2 && g.to.x < tx
    requires (y < g.from.y && y < g.to.y) || (g.from.y < y && g.to.y < y)
    requires !Blocked(g.from, Point(sx, g.from.y), g.boxes) && !Blocked(Point(sx, g.from.y), Point(sx, y), g.boxes)
    requires !Blocked(Point(sx, y), Point(tx, y), g.boxes)
    requires !Blocked(Point(tx, y), Point(tx, g.to.y), g.boxes) && !Blocked(Point(tx, g.to.y), g.to, g.boxes)
    requires !OnSegment(g.from, Point(sx, g.from.y), g.to) && !OnSegment(Point(sx, g.from.y), Point(sx, y), g.to)
    ensures ReachesGoal(g, w)
  {
    hide Blocked, EndsAt;
    var p1, p2, p3, p4 := Point(sx, g.from.y), Point(sx, y), Point(tx, y), Point(tx, g.to.y);
    var d1, d2, d3, d4 := DirectionTo(g.from, p1), DirectionTo(p1, p2), DirectionTo(p2, p3), DirectionTo(p3, p4);
    w := StartWalk(g);
    w := WalkTo(g, w, g.from, p1, g.sourceDirection);
    w := WalkTo(g, w, p1, p2, d1);
    w := WalkTo(g, w, p2, p3, d2);
    w := WalkTo(g, w, p3, p4, d3);
    w := WalkTo(g, w, p4, g.to, d4);
    GoalIsReached(g, w, DirectionTo(p4, g.to));
  }

  lemma GoalIsReached(g: Grid, w: seq<Node>, direction: int)
    requires ValidGrid(g) && EndsAt(g, w, g.to, direction) && direction == g.targetDirection
    ensures ReachesGoal(g, w)
  {
  }

  lemma StartWalk(g: Grid) returns (w: seq<Node>)
    requires ValidGrid(g)
    ensures EndsAt(g, w, g.from, g.sourceDirection)
  {
    w := [Initial(g)];
  }

  lemma OuterRowIsApart(b: Board, y: real)
    requires Beyond(Rows(b), y)
    ensures (y < b.start.y && y < b.end.y) || (b.start.y < y && b.end.y < y)
  {
    assert Rows(b)(b.start.y) && Rows(b)(b.end.y);
  }

  /** Three tasks in a row; the edge from the first to the third goes round the second, along the row above. */
  const ROW := Board(Point(241.0, 75.0), Point(509.0, 75.0), Right, Left,
                     [Obstacle(40.0, 40.0, 190.0, 70.0), Obstacle(280.0, 40.0, 190.0, 70.0), Obstacle(520.0, 40.0, 190.0, 70.0)], [])

  lemma RowIsRoutable()
    ensures exists w :: ReachesGoal(GridOn(ROW), w)
  {
    RowAbove();
    RowLegsAreClear();
    hide GridOn, ReachesGoal, Blocked, Boxes, Rows, Beyond;
    var w := RoutableAround(ROW, 4.0);
  }

  lemma RowAbove()
    ensures Beyond(Rows(ROW), 4.0)
  {
    assert ROW.obstacles[0].y - 8.0 == 32.0 && Rows(ROW)(32.0);
  }

  lemma RowLegsAreClear()
    ensures Outside(ROW.start.x, ROW.sourceSide) == 269.0 && Outside(ROW.end.x, ROW.targetSide) == 481.0
    ensures !Blocked(ROW.start, Point(269.0, 75.0), Boxes(ROW.obstacles)) && !Blocked(Point(269.0, 75.0), Point(269.0, 4.0), Boxes(ROW.obstacles))
    ensures !Blocked(Point(481.0, 4.0), Point(481.0, 75.0), Boxes(ROW.obstacles)) && !Blocked(Point(481.0, 75.0), ROW.end, Boxes(ROW.obstacles))
  {
    forall i | 0 <= i < 3
      ensures var box := Boxes(ROW.obstacles)[i];
              && !BlockedBy(ROW.start, Point(269.0, 75.0), box) && !BlockedBy(Point(269.0, 75.0), Point(269.0, 4.0), box)
              && !BlockedBy(Point(481.0, 4.0), Point(481.0, 75.0), box) && !BlockedBy(Point(481.0, 75.0), ROW.end, box)
    {
      assert Boxes(ROW.obstacles)[i] == Inflate(ROW.obstacles[i]);
    }
  }

  /** So the router finds a route for it, and a sound one. */
  method RouteInRow() returns (route: Route)
    ensures !route.unroutable && Sound(GridOn(ROW), ROW.obstacles, route.points)
  {
    RowIsRoutable();
    hide ReachesGoal, Sound, Boxes, Rows, Beyond;
    route := EdgeRoute(ROW.start, ROW.end, ROW.sourceSide, ROW.targetSide, ROW.obstacles, ROW.segments);
  }
}
