/**
 The visibility grid of the edge router, the walks it admits, and what a walk costs.
 This is the specification that the search is proved against.
 */
module RoutingGrid {

  import opened RoutingGeometry

  datatype Grid = Grid(xs: seq<real>, ys: seq<real>, from: Point, to: Point,
                       sourceDirection: int, targetDirection: int,
                       boxes: seq<Box>, segments: seq<Segment>)

  /** A grid position together with the direction in which it was entered. */
  datatype Node = Node(x: int, y: int, direction: int)

  ghost predicate Increasing(values: seq<real>) {
    forall i, j :: 0 <= i < j < |values| ==> values[i] < values[j]
  }

  ghost predicate ValidGrid(g: Grid) {
    && Increasing(g.xs) && Increasing(g.ys)
    && g.from.x in g.xs && g.from.y in g.ys
    && g.to.x in g.xs && g.to.y in g.ys
    && 0 <= g.sourceDirection < 4 && 0 <= g.targetDirection < 4
  }

  predicate InRange(g: Grid, n: Node) {
    0 <= n.x < |g.xs| && 0 <= n.y < |g.ys| && 0 <= n.direction < 4
  }

  function At(g: Grid, n: Node): Point
    requires InRange(g, n)
  {
    Point(g.xs[n.x], g.ys[n.y])
  }

  function IndexOf(values: seq<real>, v: real): (i: int)
    requires v in values
    ensures 0 <= i < |values| && values[i] == v
  {
    if values[0] == v then 0 else 1 + IndexOf(values[1..], v)
  }

  function Initial(g: Grid): (n: Node)
    requires ValidGrid(g)
    ensures InRange(g, n) && At(g, n) == g.from
  {
    Node(IndexOf(g.xs, g.from.x), IndexOf(g.ys, g.from.y), g.sourceDirection)
  }

  function Move(n: Node, direction: int): Node {
    Node(n.x + Dx(direction), n.y + Dy(direction), direction)
  }

  predicate IsGoal(g: Grid, n: Node)
    requires InRange(g, n)
  {
    At(g, n) == g.to && n.direction == g.targetDirection
  }

  /**
   A walk may continue from `n` in `direction`: it does not turn back, it leaves the start along the
   source side, it stays on the grid, its leg is not blocked, and it enters the end only in the
   target direction.
   */
  predicate CanStep(g: Grid, n: Node, direction: int)
    requires ValidGrid(g) && InRange(g, n)
  {
    && 0 <= direction < 4
    && direction != Opposite(n.direction)
    && (n == Initial(g) ==> direction == g.sourceDirection)
    && InRange(g, Move(n, direction))
    && !Blocked(At(g, n), At(g, Move(n, direction)), g.boxes)
    && (At(g, Move(n, direction)) == g.to ==> direction == g.targetDirection)
  }

  function BendCost(n: Node, direction: int): real { if direction == n.direction then 0.0 else BEND_COST }

  function StepCost(g: Grid, n: Node, direction: int): real
    requires ValidGrid(g) && InRange(g, n) && CanStep(g, n, direction)
  {
    var a, b := At(g, n), At(g, Move(n, direction));
    Distance(a, b) + BendCost(n, direction) + ConflictSum(a, b, g.segments)
  }

  ghost predicate Follows(g: Grid, a: Node, b: Node)
    requires ValidGrid(g)
  {
    InRange(g, a) && CanStep(g, a, b.direction) && b == Move(a, b.direction)
  }

  /** An admissible walk: it starts at the start node and every further node is a permitted step. */
  ghost predicate IsWalk(g: Grid, w: seq<Node>)
    requires ValidGrid(g)
  {
    && |w| > 0
    && w[0] == Initial(g)
    && forall i :: 0 < i < |w| ==> Follows(g, w[i - 1], w[i])
  }

  function Last<T>(w: seq<T>): T
    requires |w| > 0
  {
    w[|w| - 1]
  }

  ghost predicate ReachesGoal(g: Grid, w: seq<Node>)
    requires ValidGrid(g)
  {
    IsWalk(g, w) && InRange(g, Last(w)) && IsGoal(g, Last(w))
  }

  ghost function WalkCost(g: Grid, w: seq<Node>): real
    requires ValidGrid(g) && IsWalk(g, w)
    decreases |w|
  {
    if |w| == 1 then 0.0
    else WalkCost(g, w[..|w| - 1]) + StepCost(g, w[|w| - 2], Last(w).direction)
  }

  /** The three ingredients of a walk's cost, each over the whole walk. */
  ghost function Length(g: Grid, w: seq<Node>): real
    requires forall i :: 0 <= i < |w| ==> InRange(g, w[i])
  {
    if |w| <= 1 then 0.0
    else Length(g, w[..|w| - 1]) + Distance(At(g, w[|w| - 2]), At(g, Last(w)))
  }

  ghost function Bends(w: seq<Node>): nat {
    if |w| <= 1 then 0
    else Bends(w[..|w| - 1]) + if w[|w| - 2].direction == Last(w).direction then 0 else 1
  }

  ghost function Conflicts(g: Grid, w: seq<Node>): real
    requires forall i :: 0 <= i < |w| ==> InRange(g, w[i])
  {
    if |w| <= 1 then 0.0
    else Conflicts(g, w[..|w| - 1]) + ConflictSum(At(g, w[|w| - 2]), At(g, Last(w)), g.segments)
  }

  lemma WalkInRange(g: Grid, w: seq<Node>)
    requires ValidGrid(g) && IsWalk(g, w)
    ensures forall i :: 0 <= i < |w| ==> InRange(g, w[i])
  {
    forall i | 0 < i < |w| ensures InRange(g, w[i]) {
      assert Follows(g, w[i - 1], w[i]);
    }
  }

  lemma {:induction false} CostIsLengthBendsAndConflicts(g: Grid, w: seq<Node>)
    requires ValidGrid(g) && IsWalk(g, w)
    ensures forall i :: 0 <= i < |w| ==> InRange(g, w[i])
    ensures WalkCost(g, w) == Length(g, w) + Bends(w) as real * 70.0 + Conflicts(g, w)
    decreases |w|
  {
    WalkInRange(g, w);
    if |w| > 1 {
      CostIsLengthBendsAndConflicts(g, w[..|w| - 1]);
      assert Follows(g, w[|w| - 2], Last(w));
    }
  }

  lemma ExtendWalk(g: Grid, w: seq<Node>, direction: int)
    requires ValidGrid(g) && IsWalk(g, w) && InRange(g, Last(w)) && CanStep(g, Last(w), direction)
    ensures var v := w + [Move(Last(w), direction)];
            IsWalk(g, v) && WalkCost(g, v) == WalkCost(g, w) + StepCost(g, Last(w), direction)
  {
    var v := w + [Move(Last(w), direction)];
    assert v[..|v| - 1] == w;
    forall i | 0 < i < |v| ensures Follows(g, v[i - 1], v[i]) {
      if i < |w| { assert Follows(g, w[i - 1], w[i]); }
    }
  }

  // The straight-line estimate

  function ToGo(g: Grid, n: Node): real
    requires InRange(g, n)
  {
    Distance(At(g, n), g.to)
  }

  /** Every step costs something, and at least what it gains on the estimate. */
  lemma EstimateIsConsistent(g: Grid, n: Node, direction: int)
    requires ValidGrid(g) && InRange(g, n) && CanStep(g, n, direction)
    ensures StepCost(g, n, direction) > 0.0
    ensures ToGo(g, n) <= StepCost(g, n, direction) + ToGo(g, Move(n, direction))
  {
  }

  lemma {:induction false} WalkCostIsNonnegative(g: Grid, w: seq<Node>)
    requires ValidGrid(g) && IsWalk(g, w)
    ensures WalkCost(g, w) >= 0.0
    decreases |w|
  {
    if |w| > 1 {
      WalkCostIsNonnegative(g, w[..|w| - 1]);
      assert Follows(g, w[|w| - 2], Last(w));
      EstimateIsConsistent(g, w[|w| - 2], Last(w).direction);
    }
  }

  /** No walk costs less than what it gains on the estimate. */
  lemma {:induction false} EstimateIsAdmissible(g: Grid, w: seq<Node>)
    requires ValidGrid(g) && IsWalk(g, w) && InRange(g, Last(w))
    ensures ToGo(g, Initial(g)) <= WalkCost(g, w) + ToGo(g, Last(w))
    decreases |w|
  {
    hide StepCost, ToGo, CanStep, InRange;
    if |w| > 1 {
      var before := w[..|w| - 1];
      assert Follows(g, w[|w| - 2], Last(w));
      EstimateIsAdmissible(g, before);
      EstimateIsConsistent(g, Last(before), Last(w).direction);
    }
  }

  // Numbering the nodes

  function Key(g: Grid, n: Node): (k: int)
    requires InRange(g, n)
    ensures NodeOf(g, k) == n && 0 <= k < KeyCount(g)
  {
    KeyIsReversible(g, n);
    (n.y * |g.xs| + n.x) * 4 + n.direction
  }

  function NodeOf(g: Grid, k: int): Node
    requires |g.xs| > 0
  {
    Node(k / 4 % |g.xs|, k / 4 / |g.xs|, k % 4)
  }

  function KeyCount(g: Grid): nat { |g.ys| * |g.xs| * 4 }

  lemma KeyIsReversible(g: Grid, n: Node)
    requires InRange(g, n)
    ensures var k := (n.y * |g.xs| + n.x) * 4 + n.direction;
            NodeOf(g, k) == n && 0 <= k < KeyCount(g)
  {
    var cell := n.y * |g.xs| + n.x;
    DivMod(cell, 4, n.direction);
    DivMod(n.y, |g.xs|, n.x);
    CellInGrid(n.x, n.y, |g.xs|, |g.ys|);
  }

  lemma CellInGrid(x: int, y: int, width: int, height: int)
    requires 0 <= x < width && 0 <= y < height
    ensures 0 <= y * width + x < height * width
  {
    Distribute(height, y + 1, width);
    Distribute(y + 1, 1, width);
    assert (height - (y + 1)) * width >= 0;
  }

  lemma DivMod(q: int, d: int, r: int)
    requires 0 <= r < d
    ensures (q * d + r) / d == q && (q * d + r) % d == r
  {
    var quotient, remainder := (q * d + r) / d, (q * d + r) % d;
    assert quotient * d + remainder == q * d + r;
    Distribute(quotient, q, d);
    SmallMultiple(quotient - q, d);
  }

  lemma Distribute(a: int, b: int, d: int)
    ensures (a - b) * d == a * d - b * d
  {
  }

  lemma SmallMultiple(a: int, d: int)
    requires -d < a * d < d
    ensures a == 0
  {
  }

  /** Distinct positions of the grid are distinct points, so the goal is a single node. */
  lemma GoalIsUnique(g: Grid, a: Node, b: Node)
    requires ValidGrid(g) && InRange(g, a) && InRange(g, b) && IsGoal(g, a) && IsGoal(g, b)
    ensures a == b
  {
  }
}
