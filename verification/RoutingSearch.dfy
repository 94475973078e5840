/** The search itself: best-first expansion with lazy deletion of outdated queue entries. */
module RoutingSearch {

  import opened Wrappers
  import opened RoutingGeometry
  import opened RoutingGrid
  import opened RoutingQueue
  import opened RoutingSearchInvariant

  /** The points of a walk, in order. */
  function PointsOf(g: Grid, w: seq<Node>): (points: seq<Point>)
    requires forall i :: 0 <= i < |w| ==> InRange(g, w[i])
    ensures |points| == |w|
  {
    seq(|w|, i requires 0 <= i < |w| => At(g, w[i]))
  }

  /** No admissible walk to the goal costs less than `w`. */
  ghost predicate Cheapest(g: Grid, w: seq<Node>)
    requires ValidGrid(g)
  {
    ReachesGoal(g, w) && forall v :: ReachesGoal(g, v) ==> WalkCost(g, w) <= WalkCost(g, v)
  }

  class Search {
    const g: Grid
    const queue: Queue
    var costs: map<int, real>
    var parents: map<int, int>
    var states: map<int, State>
    ghost var closed: set<int>
    ghost var walks: map<int, seq<Node>>
    ghost var last: real

    ghost function Snap(): Book
      reads this, queue
    {
      Book(costs, parents, states, multiset(queue.items), closed, walks, last)
    }

    ghost predicate Valid(current: int, upto: int)
      reads this, queue
    {
      ValidGrid(g) && IsHeap(queue.items) && Inv(g, Snap(), current, upto)
    }

    constructor (grid: Grid)
      requires ValidGrid(grid)
      ensures g == grid && Valid(NOBODY, 4) && fresh(queue)
    {
      g := grid;
      queue := new Queue();
      new;
      var initial := Start(g);
      queue.Push(initial);
      costs, parents, states := map[initial.key := 0.0], map[], map[initial.key := initial];
      closed, walks, last := {}, map[initial.key := [Initial(g)]], initial.score;
      OpeningOk(g);
      assert Snap() == Opening(g);
    }

    /** The neighbour in one direction, if the code's guards let the search go there. */
    method Neighbour(current: State, direction: int) returns (next: Option<Node>)
      requires ValidGrid(g) && InRange(g, Position(current)) && current.key == Key(g, Position(current))
      requires 0 <= direction < 4
      ensures next == if CanStep(g, Position(current), direction) then Some(Move(Position(current), direction)) else None
      ensures next.Some? ==> InRange(g, next.value)
    {
      hide Blocked, NodeOf, Key, KeyCount, IndexOf, ToGo;
      KeyIdentifies(g, Position(current), Initial(g));
      if direction == (current.direction + 2) % 4 || (current.key == Start(g).key && direction != g.sourceDirection) { return None; }
      var x, y := current.x + Dx(direction), current.y + Dy(direction);
      if x < 0 || y < 0 || x >= |g.xs| || y >= |g.ys| { return None; }
      var a, b := Point(g.xs[current.x], g.ys[current.y]), Point(g.xs[x], g.ys[y]);
      if Blocked(a, b, g.boxes) { return None; }
      if b == g.to && direction != g.targetDirection { return None; }
      return Some(Node(x, y, direction));
    }

    /** What the code charges for going from `a` to `b`. */
    method Charge(current: State, next: Node) returns (cost: real)
      requires ValidGrid(g) && InRange(g, Position(current))
      requires CanStep(g, Position(current), next.direction) && next == Move(Position(current), next.direction)
      ensures cost == current.cost + StepCost(g, Position(current), next.direction)
    {
      hide Blocked, ConflictSum;
      var a, b := At(g, Position(current)), At(g, next);
      var conflict := ConflictCost(a, b, g.segments);
      var atEnd := b == g.to;
      cost := current.cost + Distance(a, b) + (if next.direction == current.direction then 0.0 else BEND_COST)
              + (if atEnd && next.direction != g.targetDirection then BEND_COST else 0.0) + conflict;
    }

    /** Considers the neighbour of `current` in one direction. */
    method Relax(current: State, direction: int)
      requires 0 <= direction < 4 && current.key != NOBODY
      requires Valid(current.key, direction)
      requires current.key in states && states[current.key] == current && OkState(g, Snap(), current.key)
      modifies this, queue
      ensures Valid(current.key, direction + 1)
      ensures closed == old(closed) && last == old(last)
      ensures current.key in states && states[current.key] == current && OkState(g, Snap(), current.key)
    {
      hide Inv, IsHeap, OkState, CanStep, StepCost, InRange, IsWalk, ValidGrid;
      ghost var b := Snap();
      StateIsInRange(g, b, current.key);
      var neighbour := Neighbour(current, direction);
      if neighbour == None {
        NoStep(g, b, current.key, direction);
        return;
      }
      var next := neighbour.value;
      var cost := Charge(current, next);
      var id := Key(g, next);
      if id in costs && cost >= costs[id] {
        NoImprovement(g, b, current.key, direction);
        return;
      }
      ImprovedIsOpen(g, b, current.key, direction, cost);
      Improve(g, b, current.key, direction, cost);
      Record(current, StateAt(g, next, cost));
      ExpandedIsKnown(g, Snap(), current.key, direction + 1);
    }

    /** Stores an improved state, links it to its parent and queues it. */
    method Record(current: State, next: State)
      requires IsHeap(queue.items) && current.key in walks
      modifies this, queue
      ensures IsHeap(queue.items)
      ensures Snap() == Book(old(costs)[next.key := next.cost], old(parents)[next.key := current.key],
                             old(states)[next.key := next], multiset(old(queue.items)) + multiset{next}, old(closed),
                             old(walks)[next.key := old(walks)[current.key] + [Position(next)]], old(last))
    {
      hide IsHeap;
      costs, parents, states := costs[next.key := next.cost], parents[next.key := current.key], states[next.key := next];
      walks := walks[next.key := walks[current.key] + [Position(next)]];
      queue.Push(next);
    }

    /** Closes `current`, which has just left the queue, and considers its four neighbours. */
    method Expand(current: State, ghost before: Book)
      requires ValidGrid(g) && IsHeap(queue.items) && Inv(g, before, NOBODY, 4)
      requires IsLeast(before.queued, current) && current.key in before.costs && current.cost == before.costs[current.key]
      requires InRange(g, Position(current)) && !IsGoal(g, Position(current))
      requires Snap() == Dropped(before, current)
      modifies this, queue
      ensures Valid(NOBODY, 4)
      ensures current.key !in before.closed && closed == before.closed + {current.key} && closed <= AllKeys(g)
      ensures last == current.score && before.last <= last
    {
      hide Inv, IsHeap, OkState, IsGoal, InRange, ValidGrid, StatesOk, ParentsOk, QueueOk, ClosedOk, EdgesOk, KeyCount;
      UnfoldInv(g, before, NOBODY, 4);
      CurrentIsOpen(g, before, current);
      CloseCurrent(g, before, current);
      ClosedKeysAreKeys(g, before);
      closed, last := closed + {current.key}, current.score;
      assert Snap() == Closed(before, current);
      ExpandedIsKnown(g, Snap(), current.key, 0);
      var direction := 0;
      while direction < 4
        invariant 0 <= direction <= 4 && Valid(current.key, direction)
        invariant closed == before.closed + {current.key} && last == current.score
        invariant current.key in states && states[current.key] == current && OkState(g, Snap(), current.key)
      {
        Relax(current, direction);
        direction := direction + 1;
      }
      FullyExpanded(g, Snap(), current.key);
    }

    ghost predicate Chained()
      reads this, queue
    {
      ValidGrid(g) && StatesOk(g, Snap()) && ParentsOk(g, Snap())
    }

    /**
     Runs until the goal is the least current entry or the queue is empty. Every key is expanded at
     most once and scores are expanded in order, which is why this terminates.
     */
    method Run() returns (found: Option<State>)
      requires Valid(NOBODY, 4)
      modifies this, queue
      ensures Chained()
      ensures found == None ==> forall w :: !ReachesGoal(g, w)
      ensures found.Some? ==>
                && found.value.key in states && states[found.value.key] == found.value
                && Cheapest(g, walks[found.value.key])
                && WalkCost(g, walks[found.value.key]) == found.value.cost
    {
      hide Inv, IsHeap, StatesOk, ParentsOk, QueueOk, ClosedOk, EdgesOk, NodeOf, Key, KeyCount, IndexOf, ToGo, ReachesGoal;
      hide ValidGrid, OkState;
      while |queue.items| > 0
        invariant Valid(NOBODY, 4)
        decreases AllKeys(g) - closed, |queue.items|
      {
        ghost var before := Snap();
        var popped := queue.Pop();
        var current := popped.value;
        assert Snap() == Dropped(before, current);
        assert IsLeast(before.queued, current);
        UnfoldInv(g, before, NOBODY, 4);
        QueuedIsDear(before, current);
        ChainsIgnoreQueue(g, before, current);
        if current.cost != costs[current.key] {
          DropOutdated(g, before, current);
          continue;
        }
        CurrentIsOpen(g, before, current);
        StateIsInRange(g, before, current.key);
        var a := At(g, Position(current));
        if a.x == g.to.x && a.y == g.to.y && current.direction == g.targetDirection {
          FoundIsCheapest(g, before, current);
          return Some(current);
        }
        Expand(current, before);
        ClosedKeysAreKeys(g, before);
      }
      UnfoldInv(g, Snap(), NOBODY, 4);
      NothingReachesGoal(g, Snap());
      return None;
    }

    /** Follows the parents from the state that was found back to the start. */
    method Rebuild(found: State) returns (points: seq<Point>)
      requires Chained() && found.key in states && states[found.key] == found
      ensures IsWalk(g, walks[found.key])
      ensures forall i :: 0 <= i < |walks[found.key]| ==> InRange(g, walks[found.key][i])
      ensures points == PointsOf(g, walks[found.key])
    {
      hide StatesOk, ParentsOk, OkState, IsWalk, InRange, ValidGrid, NodeOf, Key, KeyCount;
      ParentOfKnown(g, Snap(), found.key);
      KnownWalk(g, Snap(), found.key);
      ghost var w := walks[found.key];
      points := [];
      var state := Some(found);
      while state.Some?
        invariant state.Some? ==>
            && state.value.key in states && state.value.key in walks && states[state.value.key] == state.value
            && |points| + |walks[state.value.key]| == |w|
            && |points| < |w|
            && walks[state.value.key] == w[..|w| - |points|]
        invariant state.None? ==> |points| == |w|
        invariant |points| <= |w|
        invariant forall i :: 0 <= i < |points| ==> points[i] == At(g, w[|w| - 1 - i])
        decreases |w| - |points|, state
      {
        var k := state.value.key;
        ParentOfKnown(g, Snap(), k);
        assert w[|w| - 1 - |points|] == Last(walks[k]) == Position(state.value);
        points := points + [At(g, Position(state.value))];
        state := if k in parents then Some(states[parents[k]]) else None;
      }
      points := Reverse(points);
    }
  }

  function Reverse<T>(s: seq<T>): (r: seq<T>)
    ensures |r| == |s| && forall i :: 0 <= i < |s| ==> r[i] == s[|s| - 1 - i]
  {
    if s == [] then [] else [Last(s)] + Reverse(s[..|s| - 1])
  }

  lemma FoundIsCheapest(g: Grid, b: Book, e: State)
    requires ValidGrid(g) && Inv(g, b, NOBODY, 4)
    requires IsLeast(b.queued, e) && e.key in b.states && e == b.states[e.key] && OkState(g, b, e.key)
    requires IsGoal(g, Position(e))
    ensures e.key in b.walks && Cheapest(g, b.walks[e.key]) && WalkCost(g, b.walks[e.key]) == e.cost
  {
    forall w | ReachesGoal(g, w) ensures e.cost <= WalkCost(g, w) {
      GoalIsOptimal(g, b, e, w);
    }
  }

  lemma NothingReachesGoal(g: Grid, b: Book)
    requires ValidGrid(g) && Inv(g, b, NOBODY, 4) && b.queued == multiset{}
    ensures forall w :: !ReachesGoal(g, w)
  {
    forall w ensures !ReachesGoal(g, w) {
      if IsWalk(g, w) { EmptyQueueMeansNoWalk(g, b, w); }
    }
  }
}
