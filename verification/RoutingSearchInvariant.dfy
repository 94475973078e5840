/**
 What the search's maps and queue say at every moment, and why each move of the search keeps it.
 `closed`, `walks` and `last` are ghost: the expanded keys, the walk each known state stands for,
 and the score most recently expanded.
 */
module RoutingSearchInvariant {

  import opened RoutingGeometry
  import opened RoutingGrid
  import opened RoutingQueue

  datatype Book = Book(costs: map<int, real>, parents: map<int, int>, states: map<int, State>,
                       queued: multiset<State>, closed: set<int>, walks: map<int, seq<Node>>, last: real)

  function Position(s: State): Node { Node(s.x, s.y, s.direction) }

  function StateAt(g: Grid, n: Node, cost: real): State
    requires InRange(g, n)
  {
    State(Key(g, n), n.x, n.y, n.direction, cost, cost + ToGo(g, n))
  }

  /** A known key carries its exact cost, score, and a walk of that cost that ends there. */
  ghost predicate OkState(g: Grid, b: Book, k: int)
    requires ValidGrid(g)
  {
    && k in b.states && k in b.costs && k in b.walks
    && InRange(g, Position(b.states[k]))
    && b.states[k] == StateAt(g, Position(b.states[k]), b.costs[k])
    && b.states[k].key == k
    && IsWalk(g, b.walks[k])
    && Last(b.walks[k]) == Position(b.states[k])
    && WalkCost(g, b.walks[k]) == b.costs[k]
  }

  /** A parent is expanded, and the child's walk is the parent's walk with one more node. */
  ghost predicate OkParent(b: Book, k: int) {
    && k in b.parents && k in b.walks && k in b.states
    && b.parents[k] in b.closed && b.parents[k] in b.walks
    && b.walks[k] == b.walks[b.parents[k]] + [Position(b.states[k])]
  }

  /** A queue entry is either the current state of its key or an outdated, dearer one. */
  ghost predicate OkEntry(b: Book, e: State) {
    && e.key in b.costs && e.key in b.states
    && b.costs[e.key] <= e.cost
    && (e.cost == b.costs[e.key] ==> e == b.states[e.key])
    && b.last <= e.score
  }

  /** The current state of a key is queued exactly once until the key is expanded. */
  ghost predicate OkCount(b: Book, k: int) {
    k in b.states && b.queued[b.states[k]] == if k in b.closed then 0 else 1
  }

  ghost predicate OkClosed(g: Grid, b: Book, k: int)
    requires ValidGrid(g)
  {
    && k in b.states && b.states[k].score <= b.last
    && InRange(g, Position(b.states[k])) && !IsGoal(g, Position(b.states[k]))
    && 0 <= k < KeyCount(g)
  }

  /** The step from the expanded key `k` in direction `d` has been taken into account. */
  ghost predicate OkEdge(g: Grid, b: Book, k: int, d: int)
    requires ValidGrid(g)
  {
    OkState(g, b, k) && CanStep(g, Position(b.states[k]), d) ==>
      var n := Position(b.states[k]);
      && Key(g, Move(n, d)) in b.costs
      && b.costs[Key(g, Move(n, d))] <= b.costs[k] + StepCost(g, n, d)
  }

  function Start(g: Grid): State
    requires ValidGrid(g)
  {
    StateAt(g, Initial(g), 0.0)
  }

  ghost predicate StatesOk(g: Grid, b: Book)
    requires ValidGrid(g)
  {
    && b.costs.Keys == b.states.Keys == b.walks.Keys
    && Start(g).key in b.states && b.walks[Start(g).key] == [Initial(g)]
    && forall k :: k in b.states ==> OkState(g, b, k)
  }

  ghost predicate ParentsOk(g: Grid, b: Book)
    requires ValidGrid(g)
  {
    && b.parents.Keys == b.states.Keys - {Start(g).key}
    && forall k :: k in b.parents ==> OkParent(b, k)
  }

  ghost predicate QueueOk(b: Book) {
    && (forall e :: e in b.queued ==> OkEntry(b, e))
    && (forall k :: k in b.states ==> OkCount(b, k))
  }

  ghost predicate ClosedOk(g: Grid, b: Book)
    requires ValidGrid(g)
  {
    forall k :: k in b.closed ==> OkClosed(g, b, k)
  }

  /** Expanded keys have all their steps accounted for; `current` only those below `upto`. */
  ghost predicate EdgesOk(g: Grid, b: Book, current: int, upto: int)
    requires ValidGrid(g)
  {
    forall k, d :: k in b.closed && 0 <= d < 4 && (k == current ==> d < upto) ==> OkEdge(g, b, k, d)
  }

  const NOBODY := -1

  ghost predicate Inv(g: Grid, b: Book, current: int, upto: int)
    requires ValidGrid(g)
  {
    && StatesOk(g, b) && ParentsOk(g, b) && QueueOk(b) && ClosedOk(g, b) && EdgesOk(g, b, current, upto)
    && (current == NOBODY || (current in b.closed && current in b.states && b.states[current].score == b.last))
  }

  function Opening(g: Grid): Book
    requires ValidGrid(g)
  {
    var s := Start(g);
    Book(map[s.key := 0.0], map[], map[s.key := s], multiset{s}, {}, map[s.key := [Initial(g)]], s.score)
  }

  lemma OpeningOk(g: Grid)
    requires ValidGrid(g)
    ensures Inv(g, Opening(g), NOBODY, 4)
  {
  }

  lemma StateIsInRange(g: Grid, b: Book, k: int)
    requires ValidGrid(g) && OkState(g, b, k)
    ensures InRange(g, Position(b.states[k])) && k == Key(g, Position(b.states[k]))
    ensures k in b.costs && b.costs[k] == b.states[k].cost && k in b.walks
  {
  }

  lemma KeyIdentifies(g: Grid, a: Node, b: Node)
    requires InRange(g, a) && InRange(g, b)
    ensures Key(g, a) == Key(g, b) <==> a == b
  {
  }

  lemma ExpandedIsKnown(g: Grid, b: Book, current: int, upto: int)
    requires ValidGrid(g) && Inv(g, b, current, upto) && current != NOBODY
    ensures current in b.closed && OkState(g, b, current)
  {
  }

  ghost function AllKeys(g: Grid): set<int> { Below(KeyCount(g)) }

  ghost function Below(n: nat): (keys: set<int>)
    ensures forall k :: k in keys <==> 0 <= k < n
  {
    if n == 0 then {} else Below(n - 1) + {n - 1}
  }

  lemma ClosedKeysAreKeys(g: Grid, b: Book)
    requires ValidGrid(g) && ClosedOk(g, b)
    ensures b.closed <= AllKeys(g)
  {
    assert forall k :: k in b.closed ==> OkClosed(g, b, k);
  }

  lemma UnfoldInv(g: Grid, b: Book, current: int, upto: int)
    requires ValidGrid(g) && Inv(g, b, current, upto)
    ensures StatesOk(g, b) && ParentsOk(g, b) && QueueOk(b) && ClosedOk(g, b) && EdgesOk(g, b, current, upto)
  {
  }

  /** The maps alone, whatever the queue holds, describe walks linked by their parents. */
  lemma ChainsIgnoreQueue(g: Grid, b: Book, e: State)
    requires ValidGrid(g) && StatesOk(g, b) && ParentsOk(g, b)
    ensures StatesOk(g, Dropped(b, e)) && ParentsOk(g, Dropped(b, e))
  {
    var after := Dropped(b, e);
    forall k | k in after.states ensures OkState(g, after, k) { assert OkState(g, b, k); }
    forall k | k in after.parents ensures OkParent(after, k) { assert OkParent(b, k); }
  }

  // Taking an entry from the queue

  predicate IsLeast(queued: multiset<State>, e: State) {
    e in queued && forall f :: f in queued ==> e.score <= f.score
  }

  function Dropped(b: Book, e: State): Book { b.(queued := b.queued - multiset{e}) }

  function Closed(b: Book, e: State): Book {
    Dropped(b, e).(closed := b.closed + {e.key}, last := e.score)
  }

  /** An entry whose cost is no longer the cost of its key can be thrown away. */
  lemma DropOutdated(g: Grid, b: Book, e: State)
    requires ValidGrid(g) && Inv(g, b, NOBODY, 4)
    requires e in b.queued && e.key in b.costs && e.cost != b.costs[e.key]
    ensures Inv(g, Dropped(b, e), NOBODY, 4)
  {
    var after := Dropped(b, e);
    forall k | k in after.states ensures OkCount(after, k) {
      assert OkCount(b, k) && OkState(g, b, k);
    }
    forall f | f in after.queued ensures OkEntry(after, f) { assert OkEntry(b, f); }
    forall k | k in after.states ensures OkState(g, after, k) { assert OkState(g, b, k); }
    forall k | k in after.parents ensures OkParent(after, k) { assert OkParent(b, k); }
    forall k | k in after.closed ensures OkClosed(g, after, k) { assert OkClosed(g, b, k); }
    forall k, d | k in after.closed && 0 <= d < 4 ensures OkEdge(g, after, k, d) {
      assert OkEdge(g, b, k, d) && OkState(g, b, k);
    }
  }

  /** A current entry of least score belongs to a key that has not been expanded before. */
  lemma CurrentIsOpen(g: Grid, b: Book, e: State)
    requires ValidGrid(g) && StatesOk(g, b) && QueueOk(b)
    requires e in b.queued && e.key in b.costs && e.cost == b.costs[e.key]
    ensures e.key in b.states && e == b.states[e.key] && OkState(g, b, e.key)
    ensures e.key !in b.closed && b.last <= e.score && 0 <= e.key < KeyCount(g)
  {
    assert OkEntry(b, e) && OkCount(b, e.key) && OkState(g, b, e.key);
  }

  lemma CloseCurrent(g: Grid, b: Book, e: State)
    requires ValidGrid(g) && Inv(g, b, NOBODY, 4)
    requires IsLeast(b.queued, e) && e.key in b.costs && e.cost == b.costs[e.key]
    requires InRange(g, Position(e)) && !IsGoal(g, Position(e))
    ensures Inv(g, Closed(b, e), e.key, 0)
  {
    CurrentIsOpen(g, b, e);
    var after := Closed(b, e);
    CloseQueue(g, b, e);
    forall k | k in after.states ensures OkState(g, after, k) { assert OkState(g, b, k); }
    forall k | k in after.parents ensures OkParent(after, k) { assert OkParent(b, k); }
    forall k | k in after.closed ensures OkClosed(g, after, k) {
      if k != e.key { assert OkClosed(g, b, k); }
    }
    CloseEdges(g, b, e);
  }

  lemma CloseQueue(g: Grid, b: Book, e: State)
    requires ValidGrid(g) && StatesOk(g, b) && QueueOk(b)
    requires IsLeast(b.queued, e) && e.key in b.states && e == b.states[e.key] && e.key !in b.closed
    ensures QueueOk(Closed(b, e))
  {
    var after := Closed(b, e);
    forall k | k in after.states ensures OkCount(after, k) {
      assert OkCount(b, k) && OkState(g, b, k);
    }
    forall f | f in after.queued ensures OkEntry(after, f) { assert OkEntry(b, f); }
  }

  lemma CloseEdges(g: Grid, b: Book, e: State)
    requires ValidGrid(g) && StatesOk(g, b) && ClosedOk(g, b) && EdgesOk(g, b, NOBODY, 4)
    ensures EdgesOk(g, Closed(b, e), e.key, 0)
  {
    var after := Closed(b, e);
    forall k, d | k in after.closed && 0 <= d < 4 && k != e.key ensures OkEdge(g, after, k, d) {
      assert OkClosed(g, b, k) && OkState(g, b, k) && OkEdge(g, b, k, d);
    }
  }

  // Considering one direction of the expanded state

  lemma NoStep(g: Grid, b: Book, current: int, d: int)
    requires ValidGrid(g) && Inv(g, b, current, d) && current != NOBODY && 0 <= d < 4
    requires OkState(g, b, current) && !CanStep(g, Position(b.states[current]), d)
    ensures Inv(g, b, current, d + 1)
  {
    assert OkEdge(g, b, current, d);
  }

  lemma NoImprovement(g: Grid, b: Book, current: int, d: int)
    requires ValidGrid(g) && Inv(g, b, current, d) && current != NOBODY && 0 <= d < 4
    requires OkState(g, b, current) && CanStep(g, Position(b.states[current]), d)
    requires var n := Position(b.states[current]);
             && Key(g, Move(n, d)) in b.costs
             && b.costs[Key(g, Move(n, d))] <= b.costs[current] + StepCost(g, n, d)
    ensures Inv(g, b, current, d + 1)
  {
    assert OkEdge(g, b, current, d);
  }

  function Improved(g: Grid, b: Book, current: int, m: Node, cost: real): Book
    requires InRange(g, m) && current in b.walks
  {
    var next := StateAt(g, m, cost);
    Book(b.costs[next.key := cost], b.parents[next.key := current], b.states[next.key := next],
         b.queued + multiset{next}, b.closed, b.walks[next.key := b.walks[current] + [m]], b.last)
  }

  lemma ClosedScoresLittle(g: Grid, b: Book, m: Node)
    requires ValidGrid(g) && StatesOk(g, b) && ClosedOk(g, b) && InRange(g, m)
    ensures Key(g, m) in b.closed ==> Key(g, m) in b.costs && b.costs[Key(g, m)] + ToGo(g, m) <= b.last
  {
    var k := Key(g, m);
    assert k in b.closed ==> OkClosed(g, b, k) && OkState(g, b, k);
  }

  lemma QueuedIsDear(b: Book, e: State)
    requires QueueOk(b)
    ensures e in b.queued ==> e.key in b.costs && b.costs[e.key] <= e.cost
  {
    assert e in b.queued ==> OkEntry(b, e);
  }

  /** An expanded key is never improved: the estimate is consistent and scores come out in order. */
  lemma ImprovedIsOpen(g: Grid, b: Book, current: int, d: int, cost: real)
    requires ValidGrid(g) && Inv(g, b, current, d) && current != NOBODY && 0 <= d < 4
    requires OkState(g, b, current) && CanStep(g, Position(b.states[current]), d)
    requires var n := Position(b.states[current]);
             && cost == b.costs[current] + StepCost(g, n, d)
             && (Key(g, Move(n, d)) in b.costs ==> cost < b.costs[Key(g, Move(n, d))])
    ensures var n := Position(b.states[current]);
            && Key(g, Move(n, d)) !in b.closed
            && Key(g, Move(n, d)) != Start(g).key
            && StateAt(g, Move(n, d), cost) !in b.queued
            && b.last <= StateAt(g, Move(n, d), cost).score
  {
    var n := Position(b.states[current]);
    var next := StateAt(g, Move(n, d), cost);
    EstimateIsConsistent(g, n, d);
    WalkCostIsNonnegative(g, b.walks[current]);
    ClosedScoresLittle(g, b, Move(n, d));
    QueuedIsDear(b, next);
    assert OkState(g, b, Start(g).key);
  }

  lemma Improve(g: Grid, b: Book, current: int, d: int, cost: real)
    requires ValidGrid(g) && Inv(g, b, current, d) && current != NOBODY && 0 <= d < 4
    requires OkState(g, b, current) && CanStep(g, Position(b.states[current]), d)
    requires var n := Position(b.states[current]);
             && cost == b.costs[current] + StepCost(g, n, d)
             && (Key(g, Move(n, d)) in b.costs ==> cost < b.costs[Key(g, Move(n, d))])
    ensures Inv(g, Improved(g, b, current, Move(Position(b.states[current]), d), cost), current, d + 1)
  {
    var n := Position(b.states[current]);
    var m := Move(n, d);
    var next := StateAt(g, m, cost);
    var after := Improved(g, b, current, m, cost);
    ImprovedIsOpen(g, b, current, d, cost);
    ImproveStates(g, b, current, d, cost);
    ImproveQueue(g, b, current, d, cost);
    ImproveParents(g, b, current, m, cost);
    ImproveEdges(g, b, current, d, cost);
  }

  lemma ImproveParents(g: Grid, b: Book, current: int, m: Node, cost: real)
    requires ValidGrid(g) && StatesOk(g, b) && ParentsOk(g, b) && ClosedOk(g, b)
    requires InRange(g, m) && current in b.walks && current in b.closed
    requires Key(g, m) !in b.closed && Key(g, m) != Start(g).key
    ensures ParentsOk(g, Improved(g, b, current, m, cost))
    ensures ClosedOk(g, Improved(g, b, current, m, cost))
  {
    var after := Improved(g, b, current, m, cost);
    forall k | k in after.parents ensures OkParent(after, k) {
      if k != Key(g, m) { assert OkParent(b, k); }
    }
    forall k | k in after.closed ensures OkClosed(g, after, k) { assert OkClosed(g, b, k); }
  }

  lemma ImproveEdges(g: Grid, b: Book, current: int, d: int, cost: real)
    requires ValidGrid(g) && StatesOk(g, b) && ClosedOk(g, b) && EdgesOk(g, b, current, d) && 0 <= d < 4
    requires OkState(g, b, current) && CanStep(g, Position(b.states[current]), d)
    requires var m := Move(Position(b.states[current]), d);
             && cost == b.costs[current] + StepCost(g, Position(b.states[current]), d)
             && (Key(g, m) in b.costs ==> cost < b.costs[Key(g, m)])
             && Key(g, m) !in b.closed
    ensures EdgesOk(g, Improved(g, b, current, Move(Position(b.states[current]), d), cost), current, d + 1)
  {
    hide IsWalk, WalkCost, NodeOf, KeyCount, Distance, ConflictSum, Blocked, IndexOf;
    var m := Move(Position(b.states[current]), d);
    var after := Improved(g, b, current, m, cost);
    forall k, e | k in after.closed && 0 <= e < 4 && (k == current ==> e < d + 1) ensures OkEdge(g, after, k, e) {
      assert OkClosed(g, b, k) && OkState(g, b, k);
      if !(k == current && e == d) { assert OkEdge(g, b, k, e); }
    }
  }

  lemma ImproveStates(g: Grid, b: Book, current: int, d: int, cost: real)
    requires ValidGrid(g) && StatesOk(g, b) && 0 <= d < 4
    requires OkState(g, b, current) && CanStep(g, Position(b.states[current]), d)
    requires cost == b.costs[current] + StepCost(g, Position(b.states[current]), d)
    requires Key(g, Move(Position(b.states[current]), d)) != Start(g).key
    ensures StatesOk(g, Improved(g, b, current, Move(Position(b.states[current]), d), cost))
  {
    var m := Move(Position(b.states[current]), d);
    var after := Improved(g, b, current, m, cost);
    ExtendWalk(g, b.walks[current], d);
    forall k | k in after.states ensures OkState(g, after, k) {
      if k != Key(g, m) { assert OkState(g, b, k); }
    }
  }

  lemma ImproveQueue(g: Grid, b: Book, current: int, d: int, cost: real)
    requires ValidGrid(g) && StatesOk(g, b) && QueueOk(b) && 0 <= d < 4
    requires OkState(g, b, current) && CanStep(g, Position(b.states[current]), d)
    requires var next := StateAt(g, Move(Position(b.states[current]), d), cost);
             && (next.key in b.costs ==> cost < b.costs[next.key])
             && next.key !in b.closed && next !in b.queued && b.last <= next.score
    ensures QueueOk(Improved(g, b, current, Move(Position(b.states[current]), d), cost))
  {
    var m := Move(Position(b.states[current]), d);
    var next := StateAt(g, m, cost);
    var after := Improved(g, b, current, m, cost);
    forall e | e in after.queued ensures OkEntry(after, e) {
      if e != next { assert OkEntry(b, e); }
    }
    forall k | k in after.states ensures OkCount(after, k) {
      if k != next.key { assert OkCount(b, k) && OkState(g, b, k); }
    }
  }

  /** The walk of a known key is the walk of its parent with one node more; only the start has no parent. */
  lemma ParentOfKnown(g: Grid, b: Book, k: int)
    requires ValidGrid(g) && StatesOk(g, b) && ParentsOk(g, b) && k in b.states
    ensures OkState(g, b, k)
    ensures k in b.parents ==>
              && b.parents[k] in b.states && b.parents[k] in b.walks
              && b.states[b.parents[k]].key == b.parents[k] && |b.walks[b.parents[k]]| > 0
              && b.walks[k] == b.walks[b.parents[k]] + [Position(b.states[k])]
    ensures k !in b.parents ==> b.walks[k] == [Position(b.states[k])]
  {
    assert OkState(g, b, k) && (k in b.parents ==> OkParent(b, k) && OkState(g, b, b.parents[k]));
  }

  /** Following parents, the cost strictly decreases, by the cost of the step between. */
  lemma ParentIsCheaper(g: Grid, b: Book, k: int)
    requires ValidGrid(g) && StatesOk(g, b) && ParentsOk(g, b) && k in b.parents
    ensures b.parents[k] in b.states && b.parents[k] in b.costs && k in b.costs && k in b.states
    ensures var n := Position(b.states[b.parents[k]]); var d := b.states[k].direction;
            InRange(g, n) && CanStep(g, n, d) && b.costs[k] == b.costs[b.parents[k]] + StepCost(g, n, d)
    ensures b.costs[b.parents[k]] < b.costs[k]
  {
    hide NodeOf, Key, KeyCount, CanStep, StepCost;
    assert OkParent(b, k) && OkState(g, b, k) && OkState(g, b, b.parents[k]);
    var v, w := b.walks[b.parents[k]], b.walks[k];
    assert w[..|w| - 1] == v;
    assert Follows(g, w[|w| - 2], w[|w| - 1]);
    EstimateIsConsistent(g, Last(v), Last(w).direction);
  }

  lemma KnownWalk(g: Grid, b: Book, k: int)
    requires ValidGrid(g) && OkState(g, b, k)
    ensures k in b.walks && IsWalk(g, b.walks[k]) && |b.walks[k]| > 0
    ensures forall i :: 0 <= i < |b.walks[k]| ==> InRange(g, b.walks[k][i])
  {
    WalkInRange(g, b.walks[k]);
  }

  lemma FullyExpanded(g: Grid, b: Book, current: int)
    requires ValidGrid(g) && Inv(g, b, current, 4)
    ensures Inv(g, b, NOBODY, 4)
  {
  }

  // What the search has proved when it stops

  /**
   However a walk goes, it has either only been met by expanded states that cost no more, or its cost
   plus the estimate is no better than the best score still in the queue.
   */
  ghost predicate Accounted(g: Grid, b: Book, best: real, w: seq<Node>)
    requires ValidGrid(g) && IsWalk(g, w)
  {
    && InRange(g, Last(w))
    && var k := Key(g, Last(w));
       || (k in b.closed && k in b.costs && b.costs[k] <= WalkCost(g, w))
       || best <= WalkCost(g, w) + ToGo(g, Last(w))
  }

  ghost predicate Bound(b: Book, best: real) {
    forall e :: e in b.queued ==> best <= e.score
  }

  lemma OpenKeyIsBounded(g: Grid, b: Book, best: real, n: Node)
    requires ValidGrid(g) && Inv(g, b, NOBODY, 4) && Bound(b, best)
    requires InRange(g, n) && Key(g, n) in b.costs && Key(g, n) !in b.closed
    ensures best <= b.costs[Key(g, n)] + ToGo(g, n)
  {
    var k := Key(g, n);
    assert OkState(g, b, k) && OkCount(b, k);
    assert b.states[k] in b.queued;
  }

  lemma {:induction false} WalkIsAccounted(g: Grid, b: Book, best: real, w: seq<Node>)
    requires ValidGrid(g) && Inv(g, b, NOBODY, 4) && Bound(b, best) && IsWalk(g, w)
    ensures Accounted(g, b, best, w)
    decreases |w|
  {
    WalkInRange(g, w);
    var k := Key(g, Last(w));
    if |w| == 1 {
      assert OkState(g, b, k);
      if k !in b.closed { OpenKeyIsBounded(g, b, best, Last(w)); }
    } else {
      var before, n := w[..|w| - 1], w[|w| - 2];
      assert Follows(g, n, Last(w));
      var d := Last(w).direction;
      WalkIsAccounted(g, b, best, before);
      EstimateIsConsistent(g, n, d);
      if Key(g, n) in b.closed && b.costs[Key(g, n)] <= WalkCost(g, before) {
        assert OkClosed(g, b, Key(g, n)) && OkState(g, b, Key(g, n)) && OkEdge(g, b, Key(g, n), d);
        if k !in b.closed { OpenKeyIsBounded(g, b, best, Last(w)); }
      }
    }
  }

  /** When the goal is the least current entry, no admissible walk to the goal is cheaper. */
  lemma GoalIsOptimal(g: Grid, b: Book, e: State, w: seq<Node>)
    requires ValidGrid(g) && Inv(g, b, NOBODY, 4)
    requires IsLeast(b.queued, e) && e.key in b.states && e == b.states[e.key] && OkState(g, b, e.key)
    requires IsGoal(g, Position(e)) && ReachesGoal(g, w)
    ensures e.cost <= WalkCost(g, w)
  {
    WalkIsAccounted(g, b, e.score, w);
    GoalIsUnique(g, Position(e), Last(w));
    CurrentIsOpen(g, b, e);
  }

  /** When the queue has run dry, no admissible walk reaches the goal. */
  lemma EmptyQueueMeansNoWalk(g: Grid, b: Book, w: seq<Node>)
    requires ValidGrid(g) && Inv(g, b, NOBODY, 4) && b.queued == multiset{} && IsWalk(g, w)
    ensures !ReachesGoal(g, w)
  {
    WalkInRange(g, w);
    var best := WalkCost(g, w) + ToGo(g, Last(w)) + 1.0;
    WalkIsAccounted(g, b, best, w);
    var k := Key(g, Last(w));
    assert OkClosed(g, b, k) && OkState(g, b, k);
  }
}
