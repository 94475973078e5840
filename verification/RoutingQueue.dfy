/**
 The binary heap that drives the edge router's search: an array of search
 states ordered by `score`, with hole-based sifting in both directions.
 */
module RoutingQueue {

  import opened Wrappers

  /** One entry of the search queue: a grid position reached in some direction. */
  datatype State = State(key: int, x: int, y: int, direction: int, cost: real, score: real)

  function Parent(j: int): (p: int)
    requires 0 < j
    ensures 0 <= p < j
    ensures j == 2 * p + 1 || j == 2 * p + 2
  {
    (j - 1) / 2
  }

  ghost predicate Ordered(items: seq<State>, i: nat, j: nat)
    requires i < |items| && j < |items|
  {
    items[i].score <= items[j].score
  }

  /** Every entry scores at least as much as its parent. */
  ghost predicate IsHeap(items: seq<State>) {
    forall j :: 0 < j < |items| ==> Ordered(items, Parent(j), j)
  }

  /** The heap order, except that the entry at `hole` may be smaller than its ancestors. */
  ghost predicate HeapAboveHole(items: seq<State>, hole: nat)
    requires hole < |items|
  {
    && (forall j :: 0 < j < |items| && j != hole ==> Ordered(items, Parent(j), j))
    && (forall j :: 0 < hole < j < |items| && Parent(j) == hole ==> Ordered(items, Parent(hole), j))
  }

  /** The heap order, except that the entry at `hole` may be larger than its descendants. */
  ghost predicate HeapBelowHole(items: seq<State>, hole: nat)
    requires hole < |items|
  {
    && (forall j :: 0 < j < |items| && Parent(j) != hole ==> Ordered(items, Parent(j), j))
    && (forall j :: 0 < hole < j < |items| && Parent(j) == hole ==> Ordered(items, Parent(hole), j))
  }

  lemma {:induction false} RootIsLeast(items: seq<State>, j: nat)
    requires IsHeap(items) && j < |items|
    ensures items[0].score <= items[j].score
    decreases j
  {
    if j > 0 {
      RootIsLeast(items, Parent(j));
      assert Ordered(items, Parent(j), j);
    }
  }

  /** Moving entry `j` into the hole and the hole to `j` is a swap. */
  lemma MoveHole(items: seq<State>, item: State, i: nat, j: nat)
    requires i < |items| && j < |items| && i != j
    ensures multiset(items[i := item]) == multiset(items[i := items[j]][j := item])
  {
    var a := items[i := item];
    assert items[i := items[j]][j := item] == a[i := a[j]][j := a[i]];
  }

  lemma HoleUp(items: seq<State>, item: State, i: nat)
    requires 0 < i < |items|
    requires HeapAboveHole(items[i := item], i)
    requires items[Parent(i)].score > item.score
    ensures HeapAboveHole(items[i := items[Parent(i)]][Parent(i) := item], Parent(i))
  {
    var before, p := items[i := item], Parent(i);
    var after := items[i := items[p]][p := item];
    forall j | 0 < j < |items| && j != p ensures Ordered(after, Parent(j), j) {
      assert j != i ==> Ordered(before, Parent(j), j);
      assert j != i && Parent(j) == i ==> Ordered(before, p, j);
    }
    forall j | 0 < p < j < |items| && Parent(j) == p ensures Ordered(after, Parent(p), j) {
      assert Ordered(before, Parent(p), p);
      assert j != i ==> Ordered(before, Parent(j), j);
    }
  }

  ghost predicate LeastChild(items: seq<State>, i: nat, child: nat) {
    && i < child < |items|
    && Parent(child) == i
    && forall j :: 0 < j < |items| && Parent(j) == i ==> Ordered(items, child, j)
  }

  lemma EitherChild(items: seq<State>, i: nat, child: nat)
    requires i * 2 + 1 < |items|
    requires child == if i * 2 + 2 < |items| && items[i * 2 + 2].score < items[i * 2 + 1].score then i * 2 + 2 else i * 2 + 1
    ensures LeastChild(items, i, child)
  {
  }

  lemma NoChildren(items: seq<State>, item: State, i: nat)
    requires i < |items| <= i * 2 + 1
    requires HeapBelowHole(items[i := item], i)
    ensures IsHeap(items[i := item])
  {
  }

  lemma HoleDown(items: seq<State>, item: State, i: nat, child: nat)
    requires LeastChild(items, i, child)
    requires HeapBelowHole(items[i := item], i)
    requires item.score > items[child].score
    ensures HeapBelowHole(items[i := items[child]][child := item], child)
  {
    var before, after := items[i := item], items[i := items[child]][child := item];
    forall j | 0 < j < |items| && Parent(j) != child ensures Ordered(after, Parent(j), j) {
      if Parent(j) == i {
        assert Ordered(items, child, j);
      } else {
        assert Ordered(before, Parent(j), j);
        assert 0 < j == i ==> Ordered(before, Parent(i), child);
      }
    }
    forall j | child < j < |items| && Parent(j) == child ensures Ordered(after, Parent(child), j) {
      assert Ordered(before, Parent(j), j);
    }
  }

  /** `item` may settle in the hole once the hole's least child does not score less. */
  lemma LastFits(items: seq<State>, item: State, i: nat, child: nat)
    requires LeastChild(items, i, child)
    requires HeapBelowHole(items[i := item], i)
    requires item.score <= items[child].score
    ensures IsHeap(items[i := item])
  {
    forall j | 0 < j < |items| && Parent(j) == i ensures Ordered(items[i := item], i, j) {
      assert Ordered(items, child, j);
    }
  }

  lemma RootIsBelowAll(items: seq<State>)
    requires IsHeap(items)
    ensures forall e :: e in items ==> items[0].score <= e.score
  {
    forall e | e in items ensures items[0].score <= e.score {
      var j :| 0 <= j < |items| && items[j] == e;
      RootIsLeast(items, j);
    }
  }

  /** Taking the root out and the last entry off leaves a heap with a hole at its root. */
  lemma ReplaceRoot(items: seq<State>)
    requires IsHeap(items) && |items| > 0
    ensures var rest, last := items[..|items| - 1], items[|items| - 1];
            if rest == [] then items == [items[0]]
            else HeapBelowHole(rest[0 := last], 0)
                 && multiset(items) == multiset(rest[0 := last]) + multiset{items[0]}
  {
    var rest, last := items[..|items| - 1], items[|items| - 1];
    assert items == rest + [last];
    if rest != [] {
      assert rest == [items[0]] + rest[1..];
      assert rest[0 := last] == [last] + rest[1..];
      forall j | 0 < j < |rest| && Parent(j) != 0 ensures Ordered(rest[0 := last], Parent(j), j) {
        assert Ordered(items, Parent(j), j);
      }
    }
  }

  class Queue {
    var items: seq<State>

    constructor ()
      ensures items == []
    {
      items := [];
    }

    method Push(item: State)
      requires IsHeap(items)
      modifies this
      ensures IsHeap(items)
      ensures multiset(items) == multiset(old(items)) + multiset{item}
      ensures |items| == |old(items)| + 1
    {
      var i := |items|;
      items := items + [item];
      assert items[i := item] == items;
      while i > 0
        invariant 0 <= i < |items| == |old(items)| + 1
        invariant HeapAboveHole(items[i := item], i)
        invariant multiset(items[i := item]) == multiset(old(items)) + multiset{item}
      {
        var parent := Parent(i);
        if items[parent].score <= item.score { break; }
        MoveHole(items, item, i, parent);
        HoleUp(items, item, i);
        items := items[i := items[parent]];
        i := parent;
      }
      items := items[i := item];
      assert forall j :: 0 < j < |items| && j != i ==> Ordered(items, Parent(j), j);
    }

    /** Removes and returns an entry of least score; an empty queue is left as it is. */
    method Pop() returns (first: Option<State>)
      requires IsHeap(items)
      modifies this
      ensures IsHeap(items)
      ensures old(items) == [] ==> first == None && items == []
      ensures old(items) != [] ==>
                && first.Some?
                && first.value in old(items)
                && multiset(old(items)) == multiset(items) + multiset{first.value}
                && |items| == |old(items)| - 1
                && forall e :: e in old(items) ==> first.value.score <= e.score
    {
      if items == [] { return None; }
      first := Some(items[0]);
      var last := items[|items| - 1];
      items := items[..|items| - 1];
      RootIsBelowAll(old(items));
      ReplaceRoot(old(items));
      if |items| > 0 {
        FillHole(last);
      }
    }

    /** Sifts `last` down from the root, whose entry has been taken. */
    method FillHole(last: State)
      requires |items| > 0 && HeapBelowHole(items[0 := last], 0)
      modifies this
      ensures IsHeap(items) && multiset(items) == multiset(old(items)[0 := last])
      ensures |items| == |old(items)|
    {
      hide *;
      var i := 0;
      while i * 2 + 1 < |items|
        invariant 0 <= i < |items| == |old(items)|
        invariant HeapBelowHole(items[i := last], i)
        invariant multiset(items[i := last]) == multiset(old(items)[0 := last])
      {
        var child := i * 2 + 1;
        if child + 1 < |items| && items[child + 1].score < items[child].score { child := child + 1; }
        EitherChild(items, i, child);
        if last.score <= items[child].score {
          LastFits(items, last, i, child);
          break;
        }
        MoveHole(items, last, i, child);
        HoleDown(items, last, i, child);
        items := items[i := items[child]];
        i := child;
      }
      if i * 2 + 1 >= |items| { NoChildren(items, last, i); }
      items := items[i := last];
    }
  }
}
