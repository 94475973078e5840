/**
 The workflow graph editor: in-place edits of tasks, edges, layout and entry that keep the special
 coordinator task `run-workflows` in step with the tasks that may create sub-flows.
 */
module WorkflowEditor {

  import opened Wrappers

  const RUN_WORKFLOWS := "run-workflows"

  datatype Task = Task(id: string, name: string, kind: string, creator: bool)
  datatype Edge = Edge(id: string, source: string, target: string, sourcePort: string, targetPort: string)
  datatype Position = Position(x: int, y: int)
  datatype Graph = Graph(tasks: seq<Task>, edges: seq<Edge>, layout: map<string, Position>, entry: string)

  const COORDINATOR := Task(RUN_WORKFLOWS, "Run workflows", RUN_WORKFLOWS, false)

  function LayoutFor(index: nat): Position { Position(40 + index % 4 * 240, 40 + index / 4 * 150) }

  function Filter<T(!new)>(s: seq<T>, p: T -> bool): (r: seq<T>)
    ensures forall x :: x in r <==> x in s && p(x)
    ensures |r| <= |s|
  {
    if s == [] then []
    else
      var rest := Filter(s[1..], p);
      assert s == [s[0]] + s[1..];
      if p(s[0]) then [s[0]] + rest else rest
  }

  lemma FilterCons<T(!new)>(x: T, s: seq<T>, p: T -> bool)
    ensures Filter([x] + s, p) == (if p(x) then [x] else []) + Filter(s, p)
  {
    assert ([x] + s)[1..] == s;
  }

  lemma {:induction false} FilterConcat<T(!new)>(a: seq<T>, b: seq<T>, p: T -> bool)
    ensures Filter(a + b, p) == Filter(a, p) + Filter(b, p)
  {
    if a == [] {
      assert a + b == b && Filter(a, p) == [];
    } else {
      hide Filter;
      FilterConcat(a[1..], b, p);
      FilterCons(a[0], a[1..], p);
      FilterCons(a[0], a[1..] + b, p);
      assert a == [a[0]] + a[1..];
      Associative([a[0]], a[1..], b);
      Associative(if p(a[0]) then [a[0]] else [], Filter(a[1..], p), Filter(b, p));
    }
  }

  lemma Associative<T>(a: seq<T>, b: seq<T>, c: seq<T>)
    ensures (a + b) + c == a + (b + c)
  {
  }

  lemma {:induction false} FilterKeepsAll<T(!new)>(s: seq<T>, p: T -> bool)
    requires forall x :: x in s ==> p(x)
    ensures Filter(s, p) == s
  {
    if s != [] { FilterKeepsAll(s[1..], p); }
  }

  lemma {:induction false} FilterAgrees<T(!new)>(s: seq<T>, p: T -> bool, q: T -> bool)
    requires forall x :: x in s ==> p(x) == q(x)
    ensures Filter(s, p) == Filter(s, q)
  {
    if s != [] { FilterAgrees(s[1..], p, q); }
  }

  lemma {:induction false} FilterTwice<T(!new)>(s: seq<T>, p: T -> bool, q: T -> bool, r: T -> bool)
    requires forall x :: x in s ==> r(x) == (p(x) && q(x))
    ensures Filter(Filter(s, p), q) == Filter(s, r)
  {
    if s != [] {
      FilterTwice(s[1..], p, q, r);
      FilterCons(s[0], Filter(s[1..], p), q);
    }
  }

  lemma FilterOfFilter<T(!new)>(s: seq<T>, p: T -> bool, q: T -> bool) returns (r: T -> bool)
    ensures Filter(Filter(s, p), q) == Filter(s, r)
  {
    r := x => p(x) && q(x);
    FilterTwice(s, p, q, r);
  }

  /** A filter of `s` is determined by which elements of `s` it keeps. */
  lemma FilterByMembers<T(!new)>(s: seq<T>, p: T -> bool, q: T -> bool)
    requires forall x :: x in s ==> (x in Filter(s, p) <==> q(x))
    ensures Filter(s, p) == Filter(s, q)
  {
    FilterAgrees(s, p, q);
  }

  ghost predicate Distinct(tasks: seq<Task>) {
    forall i, j :: 0 <= i < j < |tasks| ==> tasks[i].id != tasks[j].id
  }

  /** `some` and `find`, as the handlers use them. */
  predicate HasTask(tasks: seq<Task>, id: string) { exists t :: t in tasks && t.id == id }
  predicate HasCreator(tasks: seq<Task>) { exists t :: t in tasks && t.creator }
  predicate IsCreator(tasks: seq<Task>, id: string) { exists t :: t in tasks && t.id == id && t.creator }
  predicate Ordinary(t: Task) { t.kind != RUN_WORKFLOWS }

  function FirstOrdinary(tasks: seq<Task>): string {
    if tasks == [] then "" else if Ordinary(tasks[0]) then tasks[0].id else FirstOrdinary(tasks[1..])
  }

  // The five facts

  ghost predicate TasksOk(tasks: seq<Task>) {
    && Distinct(tasks)
    && forall t :: t in tasks ==> t.id != "" && (t.kind == RUN_WORKFLOWS <==> t.id == RUN_WORKFLOWS)
                                  && (t.creator ==> t.id != RUN_WORKFLOWS)
  }

  ghost predicate CoordinatorOk(tasks: seq<Task>) { HasTask(tasks, RUN_WORKFLOWS) <==> HasCreator(tasks) }

  ghost predicate EdgeOk(tasks: seq<Task>, e: Edge) {
    e.source != e.target && HasTask(tasks, e.source) && HasTask(tasks, e.target)
  }

  ghost predicate EdgesOk(g: Graph) { forall e :: e in g.edges ==> EdgeOk(g.tasks, e) }

  ghost predicate CoordinatorEdgesOk(g: Graph) {
    forall e :: e in g.edges && e.target == RUN_WORKFLOWS ==> IsCreator(g.tasks, e.source)
  }

  ghost predicate LayoutOk(g: Graph) { forall id :: id in g.layout <==> HasTask(g.tasks, id) }

  ghost predicate EntryOk(g: Graph) {
    if g.entry == "" then forall t :: t in g.tasks ==> !Ordinary(t)
    else exists t :: t in g.tasks && Ordinary(t) && t.id == g.entry
  }

  ghost predicate Valid(g: Graph) {
    TasksOk(g.tasks) && CoordinatorOk(g.tasks) && EdgesOk(g) && CoordinatorEdgesOk(g) && LayoutOk(g) && EntryOk(g)
  }

  // The edits

  function WithoutTask(tasks: seq<Task>, id: string): seq<Task> { Filter(tasks, (t: Task) => t.id != id) }

  /** Edges into the coordinator stay only if they start at a creator. */
  function CreatorEdges(tasks: seq<Task>, edges: seq<Edge>): seq<Edge> {
    Filter(edges, (e: Edge) => e.target != RUN_WORKFLOWS || IsCreator(tasks, e.source))
  }

  function EdgesNotFrom(edges: seq<Edge>, id: string): seq<Edge> { Filter(edges, (e: Edge) => e.source != id) }

  function EdgesWithoutTask(edges: seq<Edge>, id: string): seq<Edge> {
    Filter(edges, (e: Edge) => e.source != id && e.target != id)
  }

  function Synced(g: Graph): Graph {
    var creators := HasCreator(g.tasks);
    var added :=
      if creators && !HasTask(g.tasks, RUN_WORKFLOWS)
      then g.(tasks := g.tasks + [COORDINATOR], layout := g.layout[RUN_WORKFLOWS := LayoutFor(|g.tasks|)])
      else g;
    var trimmed :=
      if creators then added
      else added.(tasks := WithoutTask(added.tasks, RUN_WORKFLOWS), layout := added.layout - {RUN_WORKFLOWS});
    var kept := trimmed.(edges := CreatorEdges(trimmed.tasks, trimmed.edges));
    if creators then kept else kept.(edges := EdgesNotFrom(kept.edges, RUN_WORKFLOWS))
  }

  function Connected(g: Graph, edgeId: string, source: string, sourceSide: string, target: string, targetSide: string): Graph {
    if source == target || (target == RUN_WORKFLOWS && !IsCreator(g.tasks, source)) then g
    else g.(edges := g.edges + [Edge(edgeId, source, target, sourceSide, targetSide)])
  }

  function IndexOfTask(tasks: seq<Task>, id: string): (i: int)
    ensures -1 <= i < |tasks|
    ensures i >= 0 ==> tasks[i].id == id
    ensures i == -1 <==> !HasTask(tasks, id)
  {
    if tasks == [] then -1
    else
      assert tasks == [tasks[0]] + tasks[1..];
      if tasks[0].id == id then 0
      else
        var rest := IndexOfTask(tasks[1..], id);
        if rest < 0 then -1 else rest + 1
  }

  function Without<T>(s: seq<T>, i: nat): seq<T>
    requires i < |s|
  {
    s[..i] + s[i + 1..]
  }

  function Inserted<T>(s: seq<T>, at: nat, x: T): seq<T>
    requires at <= |s|
  {
    s[..at] + [x] + s[at..]
  }

  function Moved(g: Graph, source: string, target: string, after: bool): Graph {
    var i := IndexOfTask(g.tasks, source);
    if source == target || i < 0 || !HasTask(g.tasks, target) then g
    else
      var rest := Without(g.tasks, i);
      var j := IndexOfTask(rest, target);
      if j < 0 then g else g.(tasks := Inserted(rest, j + if after then 1 else 0, g.tasks[i]))
  }

  function Added(g: Graph, id: string): Graph {
    var task := Task(id, "New Task", "", false);
    g.(tasks := [task] + g.tasks, layout := g.layout[id := LayoutFor(|g.tasks|)], entry := if g.entry == "" then id else g.entry)
  }

  function Deleted(g: Graph, id: string): Graph {
    var synced := Synced(g.(tasks := WithoutTask(g.tasks, id), edges := EdgesWithoutTask(g.edges, id), layout := g.layout - {id}));
    if synced.entry == id then synced.(entry := FirstOrdinary(synced.tasks)) else synced
  }

  function WithCreator(tasks: seq<Task>, id: string, creator: bool): (r: seq<Task>)
    ensures |r| == |tasks|
    ensures forall i :: 0 <= i < |tasks| ==> r[i] == if tasks[i].id == id then tasks[i].(creator := creator) else tasks[i]
  {
    seq(|tasks|, i requires 0 <= i < |tasks| => if tasks[i].id == id then tasks[i].(creator := creator) else tasks[i])
  }

  predicate HasEdge(edges: seq<Edge>, source: string, target: string) {
    exists e :: e in edges && e.source == source && e.target == target
  }

  function CreatorSet(g: Graph, id: string, creator: bool, edgeId: string): Graph {
    var synced := Synced(g.(tasks := WithCreator(g.tasks, id, creator)));
    if creator && !HasEdge(synced.edges, id, RUN_WORKFLOWS)
    then synced.(edges := synced.edges + [Edge(edgeId, id, RUN_WORKFLOWS, "right", "left")])
    else synced
  }

  function EdgeDeleted(g: Graph, edgeId: string): Graph { g.(edges := Filter(g.edges, (e: Edge) => e.id != edgeId)) }

  // Each edit keeps the five facts

  /** What holds in the middle of a handler, before the coordinator is brought back in step. */
  ghost predicate NearlyValid(g: Graph) { TasksOk(g.tasks) && EdgesOk(g) && LayoutOk(g) }

  lemma {:induction false} FilterDistinct(tasks: seq<Task>, p: Task -> bool)
    requires Distinct(tasks)
    ensures Distinct(Filter(tasks, p))
  {
    if tasks != [] {
      FilterDistinct(tasks[1..], p);
      var rest := Filter(tasks[1..], p);
      forall j | 0 <= j < |rest| ensures rest[j].id != tasks[0].id {
        assert rest[j] in rest;
        var k :| 0 <= k < |tasks[1..]| && tasks[1..][k] == rest[j];
        assert tasks[0].id != tasks[k + 1].id;
      }
    }
  }

  lemma SyncedTasks(g: Graph)
    requires TasksOk(g.tasks)
    ensures var s := Synced(g);
            && s.tasks == (if HasCreator(g.tasks) then (if HasTask(g.tasks, RUN_WORKFLOWS) then g.tasks else g.tasks + [COORDINATOR])
                           else WithoutTask(g.tasks, RUN_WORKFLOWS))
            && s.layout == (if HasCreator(g.tasks) then (if HasTask(g.tasks, RUN_WORKFLOWS) then g.layout
                                                         else g.layout[RUN_WORKFLOWS := LayoutFor(|g.tasks|)])
                            else g.layout - {RUN_WORKFLOWS})
            && s.entry == g.entry
            && forall e :: e in s.edges <==>
                 && e in g.edges && (e.target == RUN_WORKFLOWS ==> IsCreator(s.tasks, e.source))
                 && (!HasCreator(g.tasks) ==> e.source != RUN_WORKFLOWS)
  {
  }

  lemma SyncedTasksOk(g: Graph)
    requires TasksOk(g.tasks)
    ensures var tasks := Synced(g).tasks;
            && TasksOk(tasks) && CoordinatorOk(tasks)
            && (forall t :: t in tasks <==> (t in g.tasks && (Ordinary(t) || HasCreator(g.tasks)))
                                            || (t == COORDINATOR && HasCreator(g.tasks) && !HasTask(g.tasks, RUN_WORKFLOWS)))
  {
    hide Synced;
    SyncedTasks(g);
    hide TasksOk, HasTask, HasCreator;
    CoordinatorAdded(g.tasks);
    CoordinatorRemoved(g.tasks);
    CoordinatorNeedsCreator(g.tasks);
  }

  lemma CoordinatorAdded(tasks: seq<Task>)
    requires TasksOk(tasks)
    ensures var more := tasks + [COORDINATOR];
            HasCreator(tasks) && !HasTask(tasks, RUN_WORKFLOWS) ==>
              TasksOk(more) && CoordinatorOk(more) && forall t :: t in more <==> t in tasks || t == COORDINATOR
  {
    if HasCreator(tasks) && !HasTask(tasks, RUN_WORKFLOWS) {
      var more := tasks + [COORDINATOR];
      var c :| c in tasks && c.creator;
      assert c in more && COORDINATOR in more;
      forall i, j | 0 <= i < j < |more| ensures more[i].id != more[j].id {
        assert more[i] in tasks;
      }
    }
  }

  lemma CoordinatorRemoved(tasks: seq<Task>)
    requires TasksOk(tasks)
    ensures var less := WithoutTask(tasks, RUN_WORKFLOWS);
            !HasCreator(tasks) ==>
              TasksOk(less) && CoordinatorOk(less) && forall t :: t in less <==> t in tasks && Ordinary(t)
  {
    FilterDistinct(tasks, (t: Task) => t.id != RUN_WORKFLOWS);
  }

  lemma CoordinatorNeedsCreator(tasks: seq<Task>)
    ensures HasCreator(tasks) && HasTask(tasks, RUN_WORKFLOWS) ==> CoordinatorOk(tasks)
  {
  }

  /** Bringing the coordinator back in step restores everything that an edit of the tasks may have broken. */
  lemma SyncRestores(g: Graph)
    requires NearlyValid(g)
    ensures var s := Synced(g);
            && TasksOk(s.tasks) && CoordinatorOk(s.tasks) && EdgesOk(s) && CoordinatorEdgesOk(s) && LayoutOk(s)
    ensures Synced(g).entry == g.entry
    ensures forall t :: Ordinary(t) ==> (t in Synced(g).tasks <==> t in g.tasks)
  {
    hide Synced, Distinct;
    SyncedTasks(g);
    SyncedTasksOk(g);
    var s := Synced(g);
    forall e | e in s.edges ensures EdgeOk(s.tasks, e) {
      assert EdgeOk(g.tasks, e);
      StillThere(g, e.source);
      StillThere(g, e.target);
    }
    forall id ensures id in s.layout <==> HasTask(s.tasks, id) {
      if HasTask(g.tasks, id) { StillThere(g, id); }
      if HasTask(s.tasks, id) { var t :| t in s.tasks && t.id == id; }
    }
  }

  lemma StillThere(g: Graph, id: string)
    requires TasksOk(g.tasks) && HasTask(g.tasks, id)
    ensures id != RUN_WORKFLOWS || HasCreator(g.tasks) ==> HasTask(Synced(g).tasks, id)
  {
    hide Synced;
    SyncedTasksOk(g);
    var t :| t in g.tasks && t.id == id;
    assert id != RUN_WORKFLOWS || HasCreator(g.tasks) ==> t in Synced(g).tasks;
  }

  // Every edit keeps the five facts

  datatype Edit =
    | Connect(edgeId: string, source: string, sourceSide: string, target: string, targetSide: string)
    | Move(task: string, beside: string, after: bool)
    | Add(newId: string)
    | Delete(id: string)
    | SetCreator(id: string, creator: bool, edgeId: string)
    | SetEntry(id: string)
    | DeleteEdge(edgeId: string)

  predicate HasOrdinary(tasks: seq<Task>, id: string) { exists t :: t in tasks && t.id == id && Ordinary(t) }

  /** What the page offers: ports of existing tasks, fields of ordinary tasks, fresh generated ids. */
  ghost predicate Offered(g: Graph, edit: Edit) {
    match edit
    case Connect(_, source, _, target, _) => HasTask(g.tasks, source) && HasTask(g.tasks, target)
    case Move(_, _, _) => true
    case Add(id) => id != "" && id != RUN_WORKFLOWS && !HasTask(g.tasks, id)
    case Delete(id) => HasOrdinary(g.tasks, id)
    case SetCreator(id, _, _) => HasOrdinary(g.tasks, id)
    case SetEntry(id) => HasOrdinary(g.tasks, id)
    case DeleteEdge(_) => true
  }

  function Edited(g: Graph, edit: Edit): Graph {
    match edit
    case Connect(edgeId, source, sourceSide, target, targetSide) => Connected(g, edgeId, source, sourceSide, target, targetSide)
    case Move(id, beside, after) => Moved(g, id, beside, after)
    case Add(id) => Added(g, id)
    case Delete(id) => Deleted(g, id)
    case SetCreator(id, creator, edgeId) => CreatorSet(g, id, creator, edgeId)
    case SetEntry(id) => g.(entry := id)
    case DeleteEdge(edgeId) => EdgeDeleted(g, edgeId)
  }

  lemma ConnectKeepsValid(g: Graph, edgeId: string, source: string, sourceSide: string, target: string, targetSide: string)
    requires Valid(g) && HasTask(g.tasks, source) && HasTask(g.tasks, target)
    ensures Valid(Connected(g, edgeId, source, sourceSide, target, targetSide))
  {
    var after := Connected(g, edgeId, source, sourceSide, target, targetSide);
    forall e | e in after.edges ensures EdgeOk(g.tasks, e) {
      if e in g.edges { assert EdgeOk(g.tasks, e); }
    }
  }

  lemma TakeAndInsert<T>(s: seq<T>, i: nat, at: nat)
    requires i < |s| && at < |s|
    ensures var rest, r := Without(s, i), Inserted(Without(s, i), at, s[i]);
            && |r| == |s| && r[at] == s[i] && Without(r, at) == rest
            && multiset(r) == multiset(s)
            && (at > 0 ==> r[at - 1] == rest[at - 1]) && (at + 1 < |s| ==> r[at + 1] == rest[at])
  {
    var rest := Without(s, i);
    assert s == s[..i] + [s[i]] + s[i + 1..];
    assert rest == rest[..at] + rest[at..];
    var r := Inserted(rest, at, s[i]);
    calc {
      multiset(r);
      multiset(rest[..at]) + multiset{s[i]} + multiset(rest[at..]);
      multiset(rest) + multiset{s[i]};
      multiset(s);
    }
  }

  /** Where `Moved` takes the task from and where it puts it. */
  lemma MovedAs(g: Graph, id: string, beside: string, after: bool) returns (i: nat, at: nat)
    requires id != beside && HasTask(g.tasks, id) && HasTask(g.tasks, beside)
    ensures i < |g.tasks| && at < |g.tasks| && g.tasks[i].id == id
    ensures Moved(g, id, beside, after).tasks == Inserted(Without(g.tasks, i), at, g.tasks[i])
    ensures if after then at > 0 && Without(g.tasks, i)[at - 1].id == beside
            else at < |Without(g.tasks, i)| && Without(g.tasks, i)[at].id == beside
  {
    hide IndexOfTask, Inserted, HasTask;
    i := IndexOfTask(g.tasks, id);
    TargetRemains(g.tasks, i, beside);
    at := IndexOfTask(Without(g.tasks, i), beside) + if after then 1 else 0;
  }

  /** Moving a task is a permutation that puts it beside the target and keeps the order of all others. */
  lemma MovedBeside(g: Graph, id: string, beside: string, after: bool) returns (i: nat, at: nat)
    requires id != beside && HasTask(g.tasks, id) && HasTask(g.tasks, beside)
    ensures var tasks := Moved(g, id, beside, after).tasks;
            && |tasks| == |g.tasks| && multiset(tasks) == multiset(g.tasks)
            && i < |tasks| && at < |tasks| && g.tasks[i] == tasks[at] && tasks[at].id == id
            && Without(g.tasks, i) == Without(tasks, at)
            && (if after then at > 0 && tasks[at - 1].id == beside else at + 1 < |tasks| && tasks[at + 1].id == beside)
  {
    hide Moved, HasTask, Inserted;
    i, at := MovedAs(g, id, beside, after);
    TakeAndInsert(g.tasks, i, at);
  }

  lemma TargetRemains(tasks: seq<Task>, i: nat, beside: string)
    requires i < |tasks| && HasTask(tasks, beside) && tasks[i].id != beside
    ensures HasTask(Without(tasks, i), beside)
  {
    var t :| t in tasks && t.id == beside;
    assert tasks == tasks[..i] + [tasks[i]] + tasks[i + 1..];
    assert t in Without(tasks, i);
  }

  lemma SameTasksSameFacts(g: Graph, tasks: seq<Task>)
    requires Valid(g) && Distinct(tasks) && forall t :: t in tasks <==> t in g.tasks
    ensures Valid(g.(tasks := tasks))
  {
    var after := g.(tasks := tasks);
    forall e | e in after.edges ensures EdgeOk(tasks, e) { assert EdgeOk(g.tasks, e); }
  }

  lemma MoveKeepsValid(g: Graph, id: string, beside: string, after: bool)
    requires Valid(g)
    ensures Valid(Moved(g, id, beside, after))
  {
    hide Moved, Valid, Distinct;
    if id != beside && HasTask(g.tasks, id) && HasTask(g.tasks, beside) {
      var i, j := MovedBeside(g, id, beside, after);
      var tasks := Moved(g, id, beside, after).tasks;
      forall t ensures t in tasks <==> t in g.tasks { assert t in multiset(tasks) <==> t in multiset(g.tasks); }
      ValidIsDistinct(g);
      DistinctWithout(g.tasks, i);
      DistinctAgain(tasks, j);
      SameTasksSameFacts(g, tasks);
    }
    OnlyTasksMove(g, id, beside, after);
  }

  lemma ValidIsDistinct(g: Graph)
    requires Valid(g)
    ensures Distinct(g.tasks)
  {
  }

  lemma OnlyTasksMove(g: Graph, id: string, beside: string, after: bool)
    ensures Moved(g, id, beside, after) == g.(tasks := Moved(g, id, beside, after).tasks)
    ensures id == beside || !HasTask(g.tasks, id) || !HasTask(g.tasks, beside) ==> Moved(g, id, beside, after) == g
  {
  }

  lemma DistinctWithout(tasks: seq<Task>, i: nat)
    requires Distinct(tasks) && i < |tasks|
    ensures Distinct(Without(tasks, i))
    ensures forall k :: 0 <= k < |Without(tasks, i)| ==> Without(tasks, i)[k].id != tasks[i].id
  {
  }

  lemma DistinctAgain(tasks: seq<Task>, j: nat)
    requires j < |tasks| && Distinct(Without(tasks, j))
    requires forall k :: 0 <= k < |Without(tasks, j)| ==> Without(tasks, j)[k].id != tasks[j].id
    ensures Distinct(tasks)
  {
    var rest := Without(tasks, j);
    forall k | 0 <= k < |tasks| && k != j ensures tasks[k] == rest[if k < j then k else k - 1] {}
  }

  lemma AddKeepsValid(g: Graph, id: string)
    requires Valid(g) && id != "" && id != RUN_WORKFLOWS && !HasTask(g.tasks, id)
    ensures Valid(Added(g, id))
  {
    var after := Added(g, id);
    var task := Task(id, "New Task", "", false);
    forall i | 0 <= i < |g.tasks| ensures g.tasks[i].id != id { assert g.tasks[i] in g.tasks; }
    forall t ensures t in after.tasks <==> t == task || t in g.tasks {}
    if HasCreator(g.tasks) { var c :| c in g.tasks && c.creator; assert c in after.tasks; }
    forall e | e in after.edges ensures EdgeOk(after.tasks, e) { assert EdgeOk(g.tasks, e); }
    assert task in after.tasks && Ordinary(task);
  }

  /** The task at `i` is ordinary, and none before it is. */
  ghost predicate IsFirstOrdinary(tasks: seq<Task>, i: int) {
    0 <= i < |tasks| && Ordinary(tasks[i]) && forall j :: 0 <= j < i ==> !Ordinary(tasks[j])
  }

  lemma {:induction false} FirstOrdinaryIsEntry(tasks: seq<Task>)
    requires TasksOk(tasks)
    ensures var id := FirstOrdinary(tasks);
            if id == "" then forall t :: t in tasks ==> !Ordinary(t)
            else HasOrdinary(tasks, id) && exists i :: IsFirstOrdinary(tasks, i) && tasks[i].id == id
  {
    if tasks != [] {
      var rest := tasks[1..];
      assert tasks == [tasks[0]] + rest;
      assert Distinct(rest);
      FirstOrdinaryIsEntry(rest);
      if Ordinary(tasks[0]) {
        assert IsFirstOrdinary(tasks, 0);
      } else {
        forall i | IsFirstOrdinary(rest, i) ensures IsFirstOrdinary(tasks, i + 1) && tasks[i + 1] == rest[i] {
          forall j | 0 <= j < i + 1 ensures !Ordinary(tasks[j]) { if j > 0 { assert tasks[j] == rest[j - 1]; } }
        }
      }
    }
  }

  lemma DeleteKeepsValid(g: Graph, id: string)
    requires Valid(g) && HasOrdinary(g.tasks, id)
    ensures Valid(Deleted(g, id))
  {
    hide Synced, CoordinatorOk, TasksOk, EdgesOk, LayoutOk, CoordinatorEdgesOk, EdgesWithoutTask;
    var cut := g.(tasks := WithoutTask(g.tasks, id), edges := EdgesWithoutTask(g.edges, id), layout := g.layout - {id});
    CutIsNearlyValid(g, id);
    SyncRestores(cut);
    var synced := Synced(cut);
    FirstOrdinaryIsEntry(synced.tasks);
    EntryChangesOnlyEntry(synced, FirstOrdinary(synced.tasks));
    if g.entry != id && g.entry != "" {
      var t :| t in g.tasks && Ordinary(t) && t.id == g.entry;
      assert t in cut.tasks && t in synced.tasks;
    }
  }

  lemma EntryChangesOnlyEntry(g: Graph, entry: string)
    requires EdgesOk(g) && CoordinatorEdgesOk(g) && LayoutOk(g)
    ensures var h := g.(entry := entry); EdgesOk(h) && CoordinatorEdgesOk(h) && LayoutOk(h)
  {
    forall e | e in g.edges ensures EdgeOk(g.tasks, e) {}
  }

  lemma CutIsNearlyValid(g: Graph, id: string)
    requires Valid(g)
    ensures NearlyValid(g.(tasks := WithoutTask(g.tasks, id), edges := EdgesWithoutTask(g.edges, id), layout := g.layout - {id}))
  {
    var cut := g.(tasks := WithoutTask(g.tasks, id), edges := EdgesWithoutTask(g.edges, id), layout := g.layout - {id});
    FilterDistinct(g.tasks, (t: Task) => t.id != id);
    hide Distinct;
    forall e | e in cut.edges ensures EdgeOk(cut.tasks, e) {
      assert EdgeOk(g.tasks, e);
    }
  }

  lemma CreatorKeepsValid(g: Graph, id: string, creator: bool, edgeId: string)
    requires Valid(g) && HasOrdinary(g.tasks, id)
    ensures Valid(CreatorSet(g, id, creator, edgeId))
  {
    hide Synced, TasksOk, Distinct, CoordinatorOk, WithCreator, NearlyValid, HasOrdinary, HasTask;
    var changed := g.(tasks := WithCreator(g.tasks, id, creator));
    CreatorTasksOk(g.tasks, id, creator);
    FlagIsNearlyValid(g, id, creator);
    SyncRestores(changed);
    SyncedEntry(g, changed);
    var synced := Synced(changed);
    if creator && !HasEdge(synced.edges, id, RUN_WORKFLOWS) {
      NewCreatorEdge(g, changed, id, edgeId);
    }
  }

  lemma FlagIsNearlyValid(g: Graph, id: string, creator: bool)
    requires Valid(g) && HasOrdinary(g.tasks, id)
    ensures NearlyValid(g.(tasks := WithCreator(g.tasks, id, creator)))
  {
    hide TasksOk, CoordinatorOk, WithCreator, HasOrdinary, HasTask;
    var changed := g.(tasks := WithCreator(g.tasks, id, creator));
    CreatorTasksOk(g.tasks, id, creator);
    forall e | e in changed.edges ensures EdgeOk(changed.tasks, e) { assert EdgeOk(g.tasks, e); }
  }

  lemma SyncedEntry(g: Graph, changed: Graph)
    requires EntryOk(g) && NearlyValid(changed) && changed.entry == g.entry
    requires forall i :: HasOrdinary(changed.tasks, i) <==> HasOrdinary(g.tasks, i)
    ensures EntryOk(Synced(changed))
  {
    hide Synced, TasksOk, EdgesOk;
    SyncRestores(changed);
    if g.entry == "" {
      forall t | t in Synced(changed).tasks ensures !Ordinary(t) {
        assert Ordinary(t) ==> HasOrdinary(changed.tasks, t.id);
      }
    } else {
      assert HasOrdinary(g.tasks, g.entry);
    }
  }

  lemma NewCreatorEdge(g: Graph, changed: Graph, id: string, edgeId: string)
    requires NearlyValid(changed) && EntryOk(Synced(changed))
    requires IsCreator(changed.tasks, id) && HasOrdinary(changed.tasks, id)
    ensures var synced := Synced(changed);
            Valid(synced.(edges := synced.edges + [Edge(edgeId, id, RUN_WORKFLOWS, "right", "left")]))
  {
    hide Synced, Distinct;
    SyncRestores(changed);
    SyncedTasksOk(changed);
    var synced := Synced(changed);
    var c :| c in changed.tasks && c.id == id && c.creator;
    assert c in synced.tasks;
    var after := synced.(edges := synced.edges + [Edge(edgeId, id, RUN_WORKFLOWS, "right", "left")]);
    forall e | e in after.edges ensures EdgeOk(after.tasks, e) {
      if e in synced.edges { assert EdgeOk(synced.tasks, e); }
    }
  }

  /** Setting the flag changes no id and no kind. */
  lemma CreatorTask(tasks: seq<Task>, id: string, creator: bool, t: Task)
    ensures var r := WithCreator(tasks, id, creator);
            && (t in tasks ==> (if t.id == id then t.(creator := creator) else t) in r)
            && (t in r ==> exists u :: u in tasks && t == if u.id == id then u.(creator := creator) else u)
  {
    var r := WithCreator(tasks, id, creator);
    if t in tasks {
      var i :| 0 <= i < |tasks| && tasks[i] == t;
      assert r[i] in r;
    }
    if t in r {
      var i :| 0 <= i < |r| && r[i] == t;
      assert tasks[i] in tasks;
    }
  }

  lemma CreatorDistinct(tasks: seq<Task>, id: string, creator: bool)
    requires Distinct(tasks)
    ensures Distinct(WithCreator(tasks, id, creator))
  {
  }

  lemma CreatorTasksOk(tasks: seq<Task>, id: string, creator: bool)
    requires TasksOk(tasks) && HasOrdinary(tasks, id)
    ensures var r := WithCreator(tasks, id, creator);
            && TasksOk(r)
            && (forall i :: HasTask(r, i) <==> HasTask(tasks, i))
            && (forall i :: HasOrdinary(r, i) <==> HasOrdinary(tasks, i))
            && (IsCreator(r, id) <==> creator)
  {
    var r := WithCreator(tasks, id, creator);
    CreatorDistinct(tasks, id, creator);
    forall i { CreatorIds(tasks, id, creator, i); }
    hide WithCreator, Distinct, HasTask;
    forall t { CreatorTask(tasks, id, creator, t); }
    var o :| o in tasks && o.id == id && Ordinary(o);
    assert o.(creator := creator) in r;
  }

  lemma CreatorIds(tasks: seq<Task>, id: string, creator: bool, i: string)
    ensures HasTask(WithCreator(tasks, id, creator), i) <==> HasTask(tasks, i)
    ensures HasOrdinary(WithCreator(tasks, id, creator), i) <==> HasOrdinary(tasks, i)
  {
    var r := WithCreator(tasks, id, creator);
    hide WithCreator;
    forall t { CreatorTask(tasks, id, creator, t); }
    if HasTask(tasks, i) {
      var t :| t in tasks && t.id == i;
      assert (if t.id == id then t.(creator := creator) else t) in r;
    }
    if HasOrdinary(tasks, i) {
      var t :| t in tasks && t.id == i && Ordinary(t);
      assert (if t.id == id then t.(creator := creator) else t) in r;
    }
  }

  lemma EdgeDeleteKeepsValid(g: Graph, edgeId: string)
    requires Valid(g)
    ensures Valid(EdgeDeleted(g, edgeId))
  {
    forall e | e in EdgeDeleted(g, edgeId).edges ensures EdgeOk(g.tasks, e) { assert EdgeOk(g.tasks, e); }
  }

  lemma EditKeepsValid(g: Graph, edit: Edit)
    requires Valid(g) && Offered(g, edit)
    ensures Valid(Edited(g, edit))
  {
    hide Valid;
    match edit
    case Connect(edgeId, source, sourceSide, target, targetSide) =>
      ConnectKeepsValid(g, edgeId, source, sourceSide, target, targetSide);
    case Move(id, beside, after) => MoveKeepsValid(g, id, beside, after);
    case Add(id) => AddKeepsValid(g, id);
    case Delete(id) => DeleteKeepsValid(g, id);
    case SetCreator(id, creator, edgeId) => CreatorKeepsValid(g, id, creator, edgeId);
    case SetEntry(id) => EntryKeepsValid(g, id);
    case DeleteEdge(edgeId) => EdgeDeleteKeepsValid(g, edgeId);
  }

  lemma EntryKeepsValid(g: Graph, id: string)
    requires Valid(g) && HasOrdinary(g.tasks, id)
    ensures Valid(g.(entry := id))
  {
    forall e | e in g.edges ensures EdgeOk(g.tasks, e) { assert EdgeOk(g.tasks, e); }
  }

  function AllEdited(g: Graph, edits: seq<Edit>): Graph
    decreases |edits|
  {
    if edits == [] then g else AllEdited(Edited(g, edits[0]), edits[1..])
  }

  ghost predicate AllOffered(g: Graph, edits: seq<Edit>)
    decreases |edits|
  {
    edits == [] || (Offered(g, edits[0]) && AllOffered(Edited(g, edits[0]), edits[1..]))
  }

  /** Every sequence of edits from a valid graph keeps the five facts. */
  lemma {:induction false} EditingKeepsValid(g: Graph, edits: seq<Edit>)
    requires Valid(g) && AllOffered(g, edits)
    ensures Valid(AllEdited(g, edits))
    decreases |edits|
  {
    hide Valid;
    if edits != [] {
      EditKeepsValid(g, edits[0]);
      EditingKeepsValid(Edited(g, edits[0]), edits[1..]);
    }
  }

  lemma BlankIsValid()
    ensures Valid(Graph([], [], map[], ""))
  {
  }

  // What one edit undoes

  lemma {:induction false} WithoutNewTask(tasks: seq<Task>, id: string)
    requires !HasTask(tasks, id)
    ensures WithoutTask(tasks, id) == tasks
  {
    FilterKeepsAll(tasks, (t: Task) => t.id != id);
  }

  lemma EdgesUntouched(g: Graph, id: string)
    requires EdgesOk(g) && !HasTask(g.tasks, id)
    ensures EdgesWithoutTask(g.edges, id) == g.edges && EdgesNotFrom(g.edges, id) == g.edges
  {
    forall e | e in g.edges ensures e.source != id && e.target != id { assert EdgeOk(g.tasks, e); }
    FilterKeepsAll(g.edges, (e: Edge) => e.source != id && e.target != id);
    FilterKeepsAll(g.edges, (e: Edge) => e.source != id);
  }

  /** A valid graph is already in step. */
  lemma SyncedIsFixed(g: Graph)
    requires Valid(g)
    ensures Synced(g) == g
  {
    FilterKeepsAll(g.edges, (e: Edge) => e.target != RUN_WORKFLOWS || IsCreator(g.tasks, e.source));
    if !HasCreator(g.tasks) {
      WithoutNewTask(g.tasks, RUN_WORKFLOWS);
      EdgesUntouched(g, RUN_WORKFLOWS);
      assert g.layout - {RUN_WORKFLOWS} == g.layout;
    }
  }

  /** A new task comes first, with a place of its own; it becomes the start node only of a graph without ordinary tasks. */
  lemma AddPutsFirst(g: Graph, id: string)
    requires Valid(g) && id != "" && id != RUN_WORKFLOWS && !HasTask(g.tasks, id)
    ensures var a := Added(g, id);
            && a.tasks != [] && a.tasks[1..] == g.tasks && a.tasks[0].id == id && Ordinary(a.tasks[0]) && !a.tasks[0].creator
            && a.tasks[0].name == "New Task"
            && a.edges == g.edges && id in a.layout && a.layout - {id} == g.layout
            && (if forall t :: t in g.tasks ==> !Ordinary(t) then a.entry == id else a.entry == g.entry)
  {
    NotInLayout(g, id);
  }

  lemma WithoutFirst(tasks: seq<Task>, t: Task)
    ensures WithoutTask([t] + tasks, t.id) == WithoutTask(tasks, t.id)
  {
    assert ([t] + tasks)[1..] == tasks;
  }

  /** Deleting a task that was just added gives the graph back. */
  lemma DeleteUndoesAdd(g: Graph, id: string)
    requires Valid(g) && id != "" && id != RUN_WORKFLOWS && !HasTask(g.tasks, id)
    ensures Deleted(Added(g, id), id) == g
  {
    hide Synced, WithoutTask, EdgesWithoutTask, EdgesOk, TasksOk, CoordinatorOk, CoordinatorEdgesOk;
    WithoutFirst(g.tasks, Task(id, "New Task", "", false));
    WithoutNewTask(g.tasks, id);
    EdgesUntouched(g, id);
    NotInLayout(g, id);
    var added := Added(g, id);
    assert added.layout - {id} == g.layout;
    SyncIgnoresEntry(g, added.entry);
    SyncedIsFixed(g);
    if g.entry == "" { NoOrdinary(g.tasks); } else { EntryExists(g, id); }
  }

  lemma NotInLayout(g: Graph, id: string)
    requires LayoutOk(g) && !HasTask(g.tasks, id)
    ensures id !in g.layout
  {
  }

  lemma SyncIgnoresEntry(g: Graph, entry: string)
    ensures Synced(g.(entry := entry)) == Synced(g).(entry := entry)
  {
  }

  lemma {:induction false} NoOrdinary(tasks: seq<Task>)
    requires forall t :: t in tasks ==> !Ordinary(t)
    ensures FirstOrdinary(tasks) == ""
  {
    if tasks != [] { NoOrdinary(tasks[1..]); }
  }

  lemma EntryExists(g: Graph, id: string)
    requires EntryOk(g) && g.entry != "" && !HasTask(g.tasks, id)
    ensures g.entry != id
  {
  }

  /** Some other task than `id` allows sub-flows. */
  predicate OtherCreator(tasks: seq<Task>, id: string) { exists t :: t in tasks && t.creator && t.id != id }

  predicate Touches(e: Edge, id: string) { e.source == id || e.target == id }

  /** What an edge needs to outlive the edit: the coordinator stays, or the edge has nothing to do with it. */
  predicate Outlives(tasks: seq<Task>, id: string, e: Edge) {
    OtherCreator(tasks, id) || !Touches(e, RUN_WORKFLOWS)
  }

  lemma CreatorEdgesAre(tasks: seq<Task>, edges: seq<Edge>, p: Edge -> bool)
    requires forall e :: e in edges ==> p(e) == (e.target != RUN_WORKFLOWS || IsCreator(tasks, e.source))
    ensures CreatorEdges(tasks, edges) == Filter(edges, p)
  {
    FilterAgrees(edges, (e: Edge) => e.target != RUN_WORKFLOWS || IsCreator(tasks, e.source), p);
  }

  lemma EdgesNotFromAre(edges: seq<Edge>, id: string, p: Edge -> bool)
    requires forall e :: e in edges ==> p(e) == (e.source != id)
    ensures EdgesNotFrom(edges, id) == Filter(edges, p)
  {
    FilterAgrees(edges, (e: Edge) => e.source != id, p);
  }

  lemma EdgesWithoutTaskAre(edges: seq<Edge>, id: string, p: Edge -> bool)
    requires forall e :: e in edges ==> p(e) == !Touches(e, id)
    ensures EdgesWithoutTask(edges, id) == Filter(edges, p)
  {
    FilterAgrees(edges, (e: Edge) => e.source != id && e.target != id, p);
  }

  lemma WithoutTaskIs(tasks: seq<Task>, id: string, p: Task -> bool)
    requires forall t :: t in tasks ==> p(t) == (t.id != id)
    ensures WithoutTask(tasks, id) == Filter(tasks, p)
  {
    FilterAgrees(tasks, (t: Task) => t.id != id, p);
  }

  /** The parts of a graph that is brought in step, one by one. */
  lemma SyncedParts(g: Graph)
    requires HasCreator(g.tasks) ==> HasTask(g.tasks, RUN_WORKFLOWS)
    ensures var s := Synced(g); var kept := CreatorEdges(s.tasks, g.edges);
            && s.tasks == (if HasCreator(g.tasks) then g.tasks else WithoutTask(g.tasks, RUN_WORKFLOWS))
            && s.edges == (if HasCreator(g.tasks) then kept else EdgesNotFrom(kept, RUN_WORKFLOWS))
            && s.layout == (if HasCreator(g.tasks) then g.layout else g.layout - {RUN_WORKFLOWS})
            && s.entry == g.entry
  {
    hide CreatorEdges, EdgesNotFrom, WithoutTask;
  }

  /** Bringing the coordinator in step only leaves things out, in the order that was there, unless it must be added. */
  lemma SyncedIsFiltered(g: Graph) returns (tasks: Task -> bool, edges: Edge -> bool)
    requires HasCreator(g.tasks) ==> HasTask(g.tasks, RUN_WORKFLOWS)
    ensures Synced(g).tasks == Filter(g.tasks, tasks) && Synced(g).edges == Filter(g.edges, edges)
  {
    SyncedParts(g);
    hide Synced, CreatorEdges, EdgesNotFrom, WithoutTask, Filter, HasTask;
    var left := Synced(g).tasks;
    var into, from := (e: Edge) => e.target != RUN_WORKFLOWS || IsCreator(left, e.source), (e: Edge) => e.source != RUN_WORKFLOWS;
    CreatorEdgesAre(left, g.edges, into);
    if HasCreator(g.tasks) {
      tasks, edges := (t: Task) => true, into;
      FilterKeepsAll(g.tasks, tasks);
    } else {
      tasks := (t: Task) => t.id != RUN_WORKFLOWS;
      edges := FilterOfFilter(g.edges, into, from);
      WithoutTaskIs(g.tasks, RUN_WORKFLOWS, tasks);
      EdgesNotFromAre(Filter(g.edges, into), RUN_WORKFLOWS, from);
    }
  }

  /** What is left when `id` no longer allows sub-flows: the coordinator goes with the last creator. */
  function Leftover(layout: map<string, Position>, tasks: seq<Task>, id: string): map<string, Position> {
    if OtherCreator(tasks, id) then layout else layout - {RUN_WORKFLOWS}
  }

  /** The tasks and edges that a deletion of `id` leaves. */
  function StaysBehind(tasks: seq<Task>, id: string): Task -> bool {
    (t: Task) => t.id != id && (Ordinary(t) || OtherCreator(tasks, id))
  }

  function StaysConnected(tasks: seq<Task>, id: string): Edge -> bool {
    (e: Edge) => !Touches(e, id) && Outlives(tasks, id, e)
  }

  /** The tasks and edges that are left when `id` may no longer create sub-flows. */
  function StillNeeded(tasks: seq<Task>, id: string): Task -> bool {
    (t: Task) => Ordinary(t) || OtherCreator(tasks, id)
  }

  function StillAllowed(tasks: seq<Task>, id: string): Edge -> bool {
    (e: Edge) => !(e.source == id && e.target == RUN_WORKFLOWS) && Outlives(tasks, id, e)
  }

  /**
   Deleting a task takes its edges with it, and the coordinator with its edges when it was the last creator.
   Everything else stays in its order and its place.
   */
  lemma DeleteRemovesOnly(g: Graph, id: string)
    requires Valid(g) && HasOrdinary(g.tasks, id)
    ensures var d := Deleted(g, id);
            && d.tasks == Filter(g.tasks, StaysBehind(g.tasks, id))
            && d.edges == Filter(g.edges, StaysConnected(g.tasks, id))
            && d.layout == Leftover(g.layout - {id}, g.tasks, id)
            && (g.entry != id ==> d.entry == g.entry)
  {
    var cut := g.(tasks := WithoutTask(g.tasks, id), edges := EdgesWithoutTask(g.edges, id), layout := g.layout - {id});
    DeleteMembers(g, id);
    CutIsNearlyValid(g, id);
    CutHasCoordinator(g, id);
    SyncedParts(cut);
    var tasks, edges := SyncedIsFiltered(cut);
    DeletedParts(g, id);
    var stays, apart := (t: Task) => t.id != id, (e: Edge) => !Touches(e, id);
    WithoutTaskIs(g.tasks, id, stays);
    EdgesWithoutTaskAre(g.edges, id, apart);
    var bothTasks := FilterOfFilter(g.tasks, stays, tasks);
    var bothEdges := FilterOfFilter(g.edges, apart, edges);
    hide Synced, Deleted, Filter, Valid, TasksOk, OtherCreator, HasCreator, WithoutTask, EdgesWithoutTask, Touches, Outlives, Ordinary,
         HasOrdinary, HasTask;
    FilterByMembers(g.tasks, bothTasks, StaysBehind(g.tasks, id));
    FilterByMembers(g.edges, bothEdges, StaysConnected(g.tasks, id));
  }

  /** The task at `i` is ordinary and is not `id`, and no task before it is both. */
  ghost predicate IsFirstOther(tasks: seq<Task>, id: string, i: int) {
    && 0 <= i < |tasks| && Ordinary(tasks[i]) && tasks[i].id != id
    && forall j :: 0 <= j < i ==> !(Ordinary(tasks[j]) && tasks[j].id != id)
  }

  lemma {:induction false} FirstOrdinaryLeft(tasks: seq<Task>, id: string, stays: Task -> bool)
    requires forall t :: t in tasks && Ordinary(t) ==> stays(t) == (t.id != id)
    ensures var first := FirstOrdinary(Filter(tasks, stays));
            || (first == "" && forall t :: t in tasks && Ordinary(t) ==> t.id == id)
            || (exists i :: IsFirstOther(tasks, id, i) && first == tasks[i].id)
  {
    hide Ordinary;
    if tasks != [] {
      var rest := tasks[1..];
      FirstOrdinaryLeft(rest, id, stays);
      assert tasks == [tasks[0]] + rest;
      if Ordinary(tasks[0]) && stays(tasks[0]) {
        assert IsFirstOther(tasks, id, 0);
      } else {
        assert FirstOrdinary(Filter(tasks, stays)) == FirstOrdinary(Filter(rest, stays)) by {
          if stays(tasks[0]) { assert Filter(tasks, stays)[1..] == Filter(rest, stays); }
        }
        forall i | IsFirstOther(rest, id, i) ensures IsFirstOther(tasks, id, i + 1) && tasks[i + 1] == rest[i] {
          forall j | 0 <= j < i + 1 ensures !(Ordinary(tasks[j]) && tasks[j].id != id) {
            if j > 0 { assert tasks[j] == rest[j - 1]; }
          }
        }
      }
    }
  }

  /**
   Deleting the start node makes the first remaining ordinary task the start node, or none if there is none left;
   deleting another task leaves the start node alone.
   */
  lemma DeletePassesEntryOn(g: Graph, id: string)
    requires Valid(g) && HasOrdinary(g.tasks, id)
    ensures var d := Deleted(g, id);
            if g.entry != id then d.entry == g.entry
            else if forall t :: t in g.tasks && Ordinary(t) ==> t.id == id then d.entry == ""
            else exists i :: IsFirstOther(g.tasks, id, i) && d.entry == g.tasks[i].id
  {
    DeleteRemovesOnly(g, id);
    hide Synced, Filter, Valid, OtherCreator;
    FirstOrdinaryLeft(g.tasks, id, StaysBehind(g.tasks, id));
    if forall t :: t in g.tasks && Ordinary(t) ==> t.id == id { NotFirstOther(g.tasks, id); }
  }

  lemma NotFirstOther(tasks: seq<Task>, id: string)
    requires forall t :: t in tasks && Ordinary(t) ==> t.id == id
    ensures forall i :: !IsFirstOther(tasks, id, i)
  {
  }

  // Where new tasks are placed

  /** Two tasks, each up to 190 wide and 70 high, do not touch. */
  predicate Apart(p: Position, q: Position) {
    p.x + 190 < q.x || q.x + 190 < p.x || p.y + 70 < q.y || q.y + 70 < p.y
  }

  /** The places are four to a row, from the left at (40, 40), 240 apart and 150 below each other. */
  lemma PlacesAreRows(index: nat)
    ensures LayoutFor(0) == Position(40, 40)
    ensures var p, q := LayoutFor(index), LayoutFor(index + 1);
            q == if p.x < 760 then Position(p.x + 240, p.y) else Position(40, p.y + 150)
  {
    var row, column := index / 4, index % 4;
    assert index == 4 * row + column;
    NextInRow(index, row, column);
  }

  lemma NextInRow(index: nat, row: nat, column: nat)
    requires index == 4 * row + column && column < 4
    ensures (index + 1) % 4 == if column < 3 then column + 1 else 0
    ensures (index + 1) / 4 == if column < 3 then row else row + 1
  {
  }

  lemma PlacesAreApart(i: nat, j: nat)
    requires i != j
    ensures Apart(LayoutFor(i), LayoutFor(j))
  {
    if i / 4 == j / 4 {
      assert i % 4 != j % 4;
    }
  }

  /** The task `id` has the place that the `i`-th task is given. */
  predicate InPlace(g: Graph, id: string, i: nat) { id in g.layout && g.layout[id] == LayoutFor(i) }

  /** It has one of the first places, as many as there are tasks. */
  ghost predicate Placed(g: Graph, id: string) { exists i: nat :: InPlace(g, id, i) && i < |g.tasks| }

  /** Every task has such a place, and no two have the same one. */
  ghost predicate Tidy(g: Graph) {
    && (forall id :: id in g.layout ==> Placed(g, id))
    && forall id, other :: id in g.layout && other in g.layout && id != other ==> g.layout[id] != g.layout[other]
  }

  lemma PlacedApart(g: Graph, id: string, other: string)
    requires Tidy(g) && id in g.layout && other in g.layout && id != other
    ensures Apart(g.layout[id], g.layout[other])
  {
    hide LayoutFor, Apart;
    assert Placed(g, id) && Placed(g, other);
    var i: nat :| InPlace(g, id, i) && i < |g.tasks|;
    var j: nat :| InPlace(g, other, j) && j < |g.tasks|;
    PlacesAreApart(i, j);
  }

  lemma NewPlace(g: Graph, h: Graph, id: string)
    requires Tidy(g) && id !in g.layout && h.layout == g.layout[id := LayoutFor(|g.tasks|)] && |h.tasks| == |g.tasks| + 1
    ensures Tidy(h)
  {
    hide LayoutFor, Apart;
    assert InPlace(h, id, |g.tasks|);
    forall other | other in g.layout ensures Placed(h, other) && g.layout[other] != LayoutFor(|g.tasks|) {
      assert Placed(g, other);
      var i: nat :| InPlace(g, other, i) && i < |g.tasks|;
      assert InPlace(h, other, i);
      PlacesAreApart(i, |g.tasks|);
      SamePlaceTouches(LayoutFor(i));
    }
  }

  lemma SamePlaceTouches(p: Position)
    ensures !Apart(p, p)
  {
  }

  /** Adding a task does not put it onto another. */
  lemma AddKeepsTidy(g: Graph, id: string)
    requires Valid(g) && Tidy(g) && id != "" && id != RUN_WORKFLOWS && !HasTask(g.tasks, id)
    ensures var a := Added(g, id);
            && Tidy(a) && id in a.layout
            && forall other :: other in g.layout ==> other in a.layout && Apart(a.layout[id], a.layout[other])
  {
    NotInLayout(g, id) by { ValidLayout(g); }
    var a := Added(g, id);
    hide Tidy, Apart, LayoutFor, Valid;
    NewPlace(g, a, id);
    forall other | other in g.layout ensures Apart(a.layout[id], a.layout[other]) { PlacedApart(a, id, other); }
  }

  lemma ValidLayout(g: Graph)
    requires Valid(g)
    ensures LayoutOk(g) && CoordinatorOk(g.tasks) && TasksOk(g.tasks)
  {
  }

  /** Allowing sub-flows does not put the coordinator onto another task. */
  lemma AllowKeepsTidy(g: Graph, id: string, edgeId: string)
    requires Valid(g) && Tidy(g) && HasOrdinary(g.tasks, id) && !IsCreator(g.tasks, id)
    ensures Tidy(CreatorSet(g, id, true, edgeId))
  {
    AllowAdds(g, id, edgeId);
    ValidLayout(g);
    hide Apart, LayoutFor, Valid, CreatorSet, TasksOk, WithCreator, Tidy;
    var after := CreatorSet(g, id, true, edgeId);
    if HasCreator(g.tasks) {
      SameLayoutTidy(g, after);
    } else {
      NotInLayout(g, RUN_WORKFLOWS);
      NewPlace(g, after, RUN_WORKFLOWS);
    }
  }

  lemma SameLayoutTidy(g: Graph, h: Graph)
    requires Tidy(g) && h.layout == g.layout && |h.tasks| == |g.tasks|
    ensures Tidy(h)
  {
    forall id | id in h.layout ensures Placed(h, id) {
      assert Placed(g, id);
      var i: nat :| InPlace(g, id, i) && i < |g.tasks|;
      assert InPlace(h, id, i);
    }
  }

  lemma {:induction false} FilterDropsOne(tasks: seq<Task>, id: string, stays: Task -> bool)
    requires Distinct(tasks) && HasTask(tasks, id) && forall t :: t in tasks ==> stays(t) == (t.id != id)
    ensures |Filter(tasks, stays)| == |tasks| - 1
  {
    var rest := tasks[1..];
    assert tasks == [tasks[0]] + rest;
    forall i, j | 0 <= i < j < |rest| ensures rest[i].id != rest[j].id { assert tasks[i + 1].id != tasks[j + 1].id; }
    if tasks[0].id == id {
      forall t | t in rest ensures t.id != id {
        var k :| 0 <= k < |rest| && rest[k] == t;
        assert tasks[0].id != tasks[k + 1].id;
      }
      FilterKeepsAll(rest, stays);
    } else {
      FilterDropsOne(rest, id, stays);
    }
  }

  /**
   After a deletion the next task can land on another: it is given the place of the task that was placed last,
   when any other task that does not allow sub-flows has been deleted.
   */
  lemma AddAfterDeleteOverlaps(g: Graph, id: string, placedLast: string, added: string)
    requires Valid(g) && HasOrdinary(g.tasks, id) && !IsCreator(g.tasks, id)
    requires InPlace(g, placedLast, |g.tasks| - 1) && placedLast != id
    requires added != "" && added != RUN_WORKFLOWS && !HasTask(g.tasks, added)
    ensures var h := Added(Deleted(g, id), added);
            placedLast in h.layout && added in h.layout && placedLast != added && h.layout[placedLast] == h.layout[added]
  {
    ValidLayout(g);
    hide Deleted, Valid, LayoutFor, HasTask, HasOrdinary, IsCreator, Added, TasksOk;
    NotInLayout(g, added);
    DeletedLeaves(g, id, placedLast);
    AddedPlace(Deleted(g, id), added);
  }

  lemma AddedPlace(g: Graph, id: string)
    ensures Added(g, id).layout == g.layout[id := LayoutFor(|g.tasks|)]
  {
  }

  lemma DeletedLeaves(g: Graph, id: string, other: string)
    requires Valid(g) && HasOrdinary(g.tasks, id) && !IsCreator(g.tasks, id) && other in g.layout && other != id
    ensures var d := Deleted(g, id);
            |d.tasks| == |g.tasks| - 1 && other in d.layout && d.layout[other] == g.layout[other]
  {
    ValidLayout(g);
    DeleteRemovesOnly(g, id);
    OthersStay(g.tasks, id);
    OrdinaryIsTask(g.tasks, id);
    LastStays(g, id, other);
    hide Deleted, Valid, Filter, Distinct, HasTask, OtherCreator, HasOrdinary, IsCreator, Leftover;
    FilterDropsOne(g.tasks, id, StaysBehind(g.tasks, id));
  }

  lemma OrdinaryIsTask(tasks: seq<Task>, id: string)
    requires HasOrdinary(tasks, id)
    ensures HasTask(tasks, id)
  {
  }

  /** When a task that is no creator goes, exactly the others stay. */
  lemma OthersStay(tasks: seq<Task>, id: string)
    requires TasksOk(tasks) && CoordinatorOk(tasks) && !IsCreator(tasks, id)
    ensures forall t :: t in tasks ==> StaysBehind(tasks, id)(t) == (t.id != id)
  {
    forall t | t in tasks && !Ordinary(t) ensures OtherCreator(tasks, id) {
      assert HasTask(tasks, RUN_WORKFLOWS);
      var c :| c in tasks && c.creator;
      assert c.id != id;
    }
  }

  lemma LastStays(g: Graph, id: string, other: string)
    requires Valid(g) && !IsCreator(g.tasks, id) && other in g.layout && other != id
    ensures other in Leftover(g.layout - {id}, g.tasks, id) && Leftover(g.layout - {id}, g.tasks, id)[other] == g.layout[other]
  {
    OthersStay(g.tasks, id);
    if other == RUN_WORKFLOWS {
      var t :| t in g.tasks && t.id == RUN_WORKFLOWS;
      assert StaysBehind(g.tasks, id)(t);
    }
  }

  lemma DeletedParts(g: Graph, id: string)
    ensures var d := Deleted(g, id);
            var s := Synced(g.(tasks := WithoutTask(g.tasks, id), edges := EdgesWithoutTask(g.edges, id), layout := g.layout - {id}));
            d.tasks == s.tasks && d.edges == s.edges && d.layout == s.layout
  {
    hide Synced, WithoutTask, EdgesWithoutTask;
  }

  lemma CutHasCoordinator(g: Graph, id: string)
    requires Valid(g) && HasOrdinary(g.tasks, id)
    ensures HasCreator(WithoutTask(g.tasks, id)) <==> OtherCreator(g.tasks, id)
    ensures HasCreator(WithoutTask(g.tasks, id)) ==> HasTask(WithoutTask(g.tasks, id), RUN_WORKFLOWS)
  {
    var left := WithoutTask(g.tasks, id);
    CreatorsAmong(g.tasks, left, id);
    if OtherCreator(g.tasks, id) {
      assert HasTask(g.tasks, RUN_WORKFLOWS);
      var c :| c in g.tasks && c.id == RUN_WORKFLOWS;
      assert c in left;
    }
  }

  lemma DeleteMembers(g: Graph, id: string)
    requires Valid(g) && HasOrdinary(g.tasks, id)
    ensures var d := Deleted(g, id);
            && (forall t :: t in d.tasks <==> t in g.tasks && t.id != id && (Ordinary(t) || OtherCreator(g.tasks, id)))
            && (forall e :: e in d.edges <==> e in g.edges && !Touches(e, id) && Outlives(g.tasks, id, e))
            && (g.entry != id ==> d.entry == g.entry)
  {
    var cut := g.(tasks := WithoutTask(g.tasks, id), edges := EdgesWithoutTask(g.edges, id), layout := g.layout - {id});
    CutIsNearlyValid(g, id);
    SyncedTasks(cut);
    SyncedTasksOk(cut);
    hide Synced, Distinct, WithoutTask;
    forall t ensures t in cut.tasks <==> t in g.tasks && t.id != id { InWithoutTask(g.tasks, id, t); }
    CreatorsAmong(g.tasks, cut.tasks, id);
    SyncedEdges(g, cut, id);
  }

  lemma InWithoutTask(tasks: seq<Task>, id: string, t: Task)
    ensures t in WithoutTask(tasks, id) <==> t in tasks && t.id != id
  {
  }

  lemma SyncedEdges(g: Graph, cut: Graph, id: string)
    requires Valid(g) && TasksOk(cut.tasks) && cut.edges == EdgesWithoutTask(g.edges, id)
    requires forall t :: t in cut.tasks <==> t in g.tasks && t.id != id
    ensures forall e :: e in Synced(cut).edges <==> e in g.edges && !Touches(e, id) && Outlives(g.tasks, id, e)
  {
    SyncedTasks(cut);
    SyncedTasksOk(cut);
    hide Synced, Distinct, CoordinatorOk, LayoutOk, EntryOk;
    var s := Synced(cut);
    forall e | e in g.edges && !Touches(e, id)
      ensures e in s.edges <==> Outlives(g.tasks, id, e)
    {
      CreatorsAmong(g.tasks, cut.tasks, id);
      if e.target == RUN_WORKFLOWS {
        var c :| c in g.tasks && c.id == e.source && c.creator;
        assert c in cut.tasks && c in s.tasks;
      }
    }
  }

  lemma CreatorsAmong(tasks: seq<Task>, left: seq<Task>, id: string)
    requires forall t :: t in left <==> t in tasks && t.id != id
    ensures HasCreator(left) <==> OtherCreator(tasks, id)
  {
  }

  /**
   Disallowing sub-flows clears one flag, and takes away exactly what only that flag justified. Everything else
   stays in its order and its place.
   */
  lemma DisallowRemovesOnly(g: Graph, id: string, edgeId: string)
    requires Valid(g) && HasOrdinary(g.tasks, id)
    ensures var d := CreatorSet(g, id, false, edgeId);
            && d.tasks == Filter(WithCreator(g.tasks, id, false), StillNeeded(g.tasks, id))
            && d.edges == Filter(g.edges, StillAllowed(g.tasks, id))
            && d.layout == Leftover(g.layout, g.tasks, id)
            && d.entry == g.entry
  {
    var off := WithCreator(g.tasks, id, false);
    var changed := g.(tasks := off);
    DisallowMembers(g, id, edgeId);
    CreatorTasksOk(g.tasks, id, false);
    CreatorsLeft(g.tasks, id);
    OtherMeansCoordinator(g, id);
    SyncedParts(changed);
    var tasks, edges := SyncedIsFiltered(changed);
    hide Synced, Filter, Valid, TasksOk, OtherCreator, HasCreator, WithCreator;
    FilterByMembers(off, tasks, StillNeeded(g.tasks, id));
    FilterByMembers(g.edges, edges, StillAllowed(g.tasks, id));
  }

  lemma OtherMeansCoordinator(g: Graph, id: string)
    requires Valid(g)
    ensures OtherCreator(g.tasks, id) ==> HasTask(g.tasks, RUN_WORKFLOWS)
  {
  }

  lemma DisallowMembers(g: Graph, id: string, edgeId: string)
    requires Valid(g) && HasOrdinary(g.tasks, id)
    ensures var d := CreatorSet(g, id, false, edgeId);
            && (forall t :: t in d.tasks <==> t in WithCreator(g.tasks, id, false) && (Ordinary(t) || OtherCreator(g.tasks, id)))
            && (forall e :: e in d.edges <==> e in g.edges && !(e.source == id && e.target == RUN_WORKFLOWS) && Outlives(g.tasks, id, e))
            && d.entry == g.entry
  {
    var off := WithCreator(g.tasks, id, false);
    var changed := g.(tasks := off);
    CreatorTasksOk(g.tasks, id, false);
    SyncedTasks(changed);
    SyncedTasksOk(changed);
    CreatorsLeft(g.tasks, id);
    hide Synced, Distinct, WithCreator, CoordinatorOk, LayoutOk, EntryOk;
    forall e | e in g.edges
      ensures e in Synced(changed).edges <==> !(e.source == id && e.target == RUN_WORKFLOWS) && Outlives(g.tasks, id, e)
    {
      CreatorFlag(g.tasks, id, e.source);
      SameCreators(changed, e.source);
    }
  }

  lemma CreatorsLeft(tasks: seq<Task>, id: string)
    ensures HasCreator(WithCreator(tasks, id, false)) <==> OtherCreator(tasks, id)
  {
    var off := WithCreator(tasks, id, false);
    if HasCreator(off) {
      var i :| 0 <= i < |off| && off[i].creator;
      assert tasks[i] in tasks;
    }
    if OtherCreator(tasks, id) {
      var i :| 0 <= i < |tasks| && tasks[i].creator && tasks[i].id != id;
      assert off[i] in off;
    }
  }

  lemma CreatorFlag(tasks: seq<Task>, id: string, source: string)
    ensures IsCreator(WithCreator(tasks, id, false), source) <==> IsCreator(tasks, source) && source != id
  {
    var off := WithCreator(tasks, id, false);
    if IsCreator(off, source) {
      var i :| 0 <= i < |off| && off[i].id == source && off[i].creator;
      assert tasks[i] in tasks;
    }
    if IsCreator(tasks, source) && source != id {
      var i :| 0 <= i < |tasks| && tasks[i].id == source && tasks[i].creator;
      assert off[i] in off;
    }
  }

  /** Bringing the coordinator in step makes no creator and unmakes none. */
  lemma SameCreators(g: Graph, source: string)
    requires TasksOk(g.tasks)
    ensures IsCreator(Synced(g).tasks, source) <==> IsCreator(g.tasks, source)
  {
    SyncedTasksOk(g);
    hide Synced;
    if IsCreator(g.tasks, source) {
      var c :| c in g.tasks && c.id == source && c.creator;
      assert c in Synced(g).tasks;
    }
  }

  /** Deleting a connection that was just drawn gives the graph back. */
  lemma DeleteUndoesConnect(g: Graph, edgeId: string, source: string, sourceSide: string, target: string, targetSide: string)
    requires forall e :: e in g.edges ==> e.id != edgeId
    ensures EdgeDeleted(Connected(g, edgeId, source, sourceSide, target, targetSide), edgeId) == g
  {
    FilterKeepsAll(g.edges, (e: Edge) => e.id != edgeId);
    FilterConcat(g.edges, [Edge(edgeId, source, target, sourceSide, targetSide)], (e: Edge) => e.id != edgeId);
  }

  /** Disallowing sub-flows right after allowing them removes the coordinator and the edge that came with it. */
  lemma DisallowUndoesAllow(g: Graph, id: string, edgeId: string, otherId: string)
    requires Valid(g) && HasOrdinary(g.tasks, id) && !IsCreator(g.tasks, id)
    ensures CreatorSet(CreatorSet(g, id, true, edgeId), id, false, otherId) == g
  {
    hide Synced;
    var on := CreatorSet(g, id, true, edgeId);
    AllowAdds(g, id, edgeId);
    var off := on.(tasks := WithCreator(on.tasks, id, false));
    DisallowTasks(g, id, off.tasks);
    DisallowRestores(g, id, edgeId, off);
  }

  lemma NoCreatorEdgeYet(g: Graph, id: string)
    requires Valid(g) && !IsCreator(g.tasks, id)
    ensures !HasEdge(g.edges, id, RUN_WORKFLOWS)
  {
  }

  /** What allowing sub-flows adds to a valid graph. */
  lemma AllowAdds(g: Graph, id: string, edgeId: string)
    requires Valid(g) && HasOrdinary(g.tasks, id) && !IsCreator(g.tasks, id)
    ensures var allowed := WithCreator(g.tasks, id, true);
            CreatorSet(g, id, true, edgeId) ==
              Graph(if HasCreator(g.tasks) then allowed else allowed + [COORDINATOR],
                    g.edges + [Edge(edgeId, id, RUN_WORKFLOWS, "right", "left")],
                    if HasCreator(g.tasks) then g.layout else g.layout[RUN_WORKFLOWS := LayoutFor(|g.tasks|)],
                    g.entry)
  {
    hide WithCreator, Distinct;
    var allowed := g.(tasks := WithCreator(g.tasks, id, true));
    CreatorTasksOk(g.tasks, id, true);
    assert HasCreator(allowed.tasks) && (HasTask(allowed.tasks, RUN_WORKFLOWS) <==> HasCreator(g.tasks));
    var tasks := if HasCreator(g.tasks) then allowed.tasks else allowed.tasks + [COORDINATOR];
    forall e | e in g.edges && e.target == RUN_WORKFLOWS ensures IsCreator(tasks, e.source) {
      var c :| c in g.tasks && c.id == e.source && c.creator;
      CreatorTask(g.tasks, id, true, c);
      assert (if c.id == id then c.(creator := true) else c) in tasks;
    }
    FilterKeepsAll(g.edges, (e: Edge) => e.target != RUN_WORKFLOWS || IsCreator(tasks, e.source));
    NoCreatorEdgeYet(g, id);
  }

  lemma DisallowTasks(g: Graph, id: string, off: seq<Task>)
    requires TasksOk(g.tasks) && CoordinatorOk(g.tasks) && HasOrdinary(g.tasks, id) && !IsCreator(g.tasks, id)
    requires var allowed := WithCreator(g.tasks, id, true);
             off == WithCreator(if HasCreator(g.tasks) then allowed else allowed + [COORDINATOR], id, false)
    ensures off == if HasCreator(g.tasks) then g.tasks else g.tasks + [COORDINATOR]
  {
    forall i | 0 <= i < |g.tasks| ensures off[i] == g.tasks[i] {
      assert g.tasks[i] in g.tasks;
    }
  }

  lemma DisallowRestores(g: Graph, id: string, edgeId: string, off: Graph)
    requires Valid(g) && HasOrdinary(g.tasks, id) && !IsCreator(g.tasks, id)
    requires off == Graph(if HasCreator(g.tasks) then g.tasks else g.tasks + [COORDINATOR],
                          g.edges + [Edge(edgeId, id, RUN_WORKFLOWS, "right", "left")],
                          if HasCreator(g.tasks) then g.layout else g.layout[RUN_WORKFLOWS := LayoutFor(|g.tasks|)],
                          g.entry)
    ensures Synced(off) == g
  {
    hide TasksOk, Filter, LayoutOk, EntryOk;
    var pushed := Edge(edgeId, id, RUN_WORKFLOWS, "right", "left");
    DropPushed(g, pushed);
    if HasCreator(g.tasks) {
      assert CreatorEdges(g.tasks, off.edges) == g.edges;
    } else {
      WithoutNewTask(g.tasks, RUN_WORKFLOWS);
      WithoutLast(g.tasks, COORDINATOR);
      EdgesUntouched(g, RUN_WORKFLOWS);
      NotInLayout(g, RUN_WORKFLOWS);
      assert off.layout - {RUN_WORKFLOWS} == g.layout;
      assert !HasCreator(off.tasks);
    }
  }

  lemma WithoutLast(tasks: seq<Task>, t: Task)
    ensures WithoutTask(tasks + [t], t.id) == WithoutTask(tasks, t.id)
  {
    FilterConcat(tasks, [t], (u: Task) => u.id != t.id);
    assert Filter([t], (u: Task) => u.id != t.id) == [];
  }

  lemma DropPushed(g: Graph, pushed: Edge)
    requires CoordinatorEdgesOk(g) && pushed.target == RUN_WORKFLOWS && !IsCreator(g.tasks, pushed.source)
    ensures CreatorEdges(g.tasks, g.edges + [pushed]) == g.edges
  {
    var keep := (e: Edge) => e.target != RUN_WORKFLOWS || IsCreator(g.tasks, e.source);
    FilterKeepsAll(g.edges, keep);
    FilterConcat(g.edges, [pushed], keep);
    assert Filter([pushed], keep) == [];
  }

  /** Allowing sub-flows again puts back the connection to the coordinator if it has been deleted, and changes nothing else. */
  lemma AllowAgain(g: Graph, id: string, edgeId: string)
    requires Valid(g) && IsCreator(g.tasks, id)
    ensures CreatorSet(g, id, true, edgeId) ==
              if exists e :: e in g.edges && e.source == id && e.target == RUN_WORKFLOWS then g
              else g.(edges := g.edges + [Edge(edgeId, id, RUN_WORKFLOWS, "right", "left")])
  {
    var again := WithCreator(g.tasks, id, true);
    forall i | 0 <= i < |g.tasks| ensures again[i] == g.tasks[i] { FlagIsSet(g.tasks, id, i); }
    assert again == g.tasks;
    SyncedIsFixed(g);
  }

  lemma FlagIsSet(tasks: seq<Task>, id: string, i: int)
    requires TasksOk(tasks) && IsCreator(tasks, id) && 0 <= i < |tasks|
    ensures tasks[i].id == id ==> tasks[i].(creator := true) == tasks[i]
  {
    if tasks[i].id == id {
      var c :| c in tasks && c.id == id && c.creator;
      var k :| 0 <= k < |tasks| && tasks[k] == c;
      assert k == i;
    }
  }

  // When the handlers ask

  lemma OnlyCreatorExactly(tasks: seq<Task>, id: string)
    requires TasksOk(tasks)
    ensures OnlyCreator(tasks, id) <==> IsCreator(tasks, id) && !OtherCreator(tasks, id)
  {
    var creators := Filter(tasks, (t: Task) => t.creator);
    FilterDistinct(tasks, (t: Task) => t.creator);
    if |creators| > 1 {
      assert creators[0] in creators && creators[1] in creators && creators[0].id != creators[1].id;
    }
    if IsCreator(tasks, id) {
      var c :| c in tasks && c.id == id && c.creator;
      assert c in creators;
      if OtherCreator(tasks, id) {
        var d :| d in tasks && d.creator && d.id != id;
        assert d in creators;
      }
    }
  }

  /** Deleting a task asks exactly when the coordinator goes with it. */
  lemma DeleteAsksExactly(g: Graph, id: string)
    requires Valid(g) && HasOrdinary(g.tasks, id)
    ensures OnlyCreator(g.tasks, id) <==> HasTask(g.tasks, RUN_WORKFLOWS) && !HasTask(Deleted(g, id).tasks, RUN_WORKFLOWS)
  {
    OnlyCreatorExactly(g.tasks, id);
    DeleteMembers(g, id);
    CoordinatorLeaves(g, id, Deleted(g, id).tasks);
  }

  lemma CoordinatorLeaves(g: Graph, id: string, left: seq<Task>)
    requires Valid(g) && HasOrdinary(g.tasks, id)
    requires forall t :: t in left && !Ordinary(t) <==> t in g.tasks && !Ordinary(t) && OtherCreator(g.tasks, id)
    requires forall t :: t in left && t.id == RUN_WORKFLOWS ==> !Ordinary(t)
    ensures HasTask(g.tasks, RUN_WORKFLOWS) && !HasTask(left, RUN_WORKFLOWS) <==> IsCreator(g.tasks, id) && !OtherCreator(g.tasks, id)
  {
    if HasTask(g.tasks, RUN_WORKFLOWS) {
      var t :| t in g.tasks && t.id == RUN_WORKFLOWS;
      assert !Ordinary(t);
      var c :| c in g.tasks && c.creator;
    }
  }

  /** Disallowing sub-flows asks exactly when the coordinator goes and takes a connection with it. */
  lemma DisallowAsksExactly(g: Graph, id: string, edgeId: string)
    requires Valid(g) && HasOrdinary(g.tasks, id)
    ensures var d := CreatorSet(g, id, false, edgeId);
            OnlyCreator(g.tasks, id) && TouchesCoordinator(g.edges) <==>
              && HasTask(g.tasks, RUN_WORKFLOWS) && !HasTask(d.tasks, RUN_WORKFLOWS)
              && exists e :: e in g.edges && (e.source == RUN_WORKFLOWS || e.target == RUN_WORKFLOWS) && e !in d.edges
  {
    OnlyCreatorExactly(g.tasks, id);
    DisallowMembers(g, id, edgeId);
    hide CreatorSet;
    SpecialStays(g.tasks, id);
    CoordinatorLeaves(g, id, CreatorSet(g, id, false, edgeId).tasks);
    var d := CreatorSet(g, id, false, edgeId);
    if TouchesCoordinator(g.edges) {
      var e :| e in g.edges && (e.source == RUN_WORKFLOWS || e.target == RUN_WORKFLOWS);
      assert e in d.edges ==> Outlives(g.tasks, id, e);
    }
  }

  lemma SpecialStays(tasks: seq<Task>, id: string)
    requires TasksOk(tasks) && HasOrdinary(tasks, id)
    ensures forall t :: !Ordinary(t) ==> (t in WithCreator(tasks, id, false) <==> t in tasks)
    ensures forall t :: t in WithCreator(tasks, id, false) && t.id == RUN_WORKFLOWS ==> !Ordinary(t)
  {
    var off := WithCreator(tasks, id, false);
    forall t | !Ordinary(t) ensures t in off <==> t in tasks {
      if t in tasks {
        var i :| 0 <= i < |tasks| && tasks[i] == t;
        assert off[i] == t;
      }
      if t in off {
        var i :| 0 <= i < |off| && off[i] == t;
        assert tasks[i] in tasks;
      }
    }
    forall t | t in off && t.id == RUN_WORKFLOWS ensures !Ordinary(t) {
      var i :| 0 <= i < |off| && off[i] == t;
      assert tasks[i] in tasks;
    }
  }

  // The editor object

  class Editor {
    var tasks: seq<Task>
    var edges: seq<Edge>
    var layout: map<string, Position>
    var entryTaskId: string
    const readOnly: bool

    ghost function Snap(): Graph
      reads this
    {
      Graph(tasks, edges, layout, entryTaskId)
    }

    ghost predicate Ok()
      reads this
    {
      Valid(Snap())
    }

    /** A blank workflow. */
    constructor (locked: bool)
      ensures Ok() && tasks == [] && readOnly == locked
    {
      tasks, edges, layout, entryTaskId, readOnly := [], [], map[], "", locked;
      new;
      BlankIsValid();
    }

    method SyncCoordinator()
      modifies this
      ensures Snap() == Synced(old(Snap()))
    {
      hide CreatorEdges, EdgesNotFrom;
      var creators := HasCreator(tasks);
      if creators && !HasTask(tasks, RUN_WORKFLOWS) {
        tasks := tasks + [COORDINATOR];
        layout := layout[RUN_WORKFLOWS := LayoutFor(|tasks| - 1)];
      }
      if !creators {
        tasks := WithoutTask(tasks, RUN_WORKFLOWS);
        layout := layout - {RUN_WORKFLOWS};
      }
      edges := CreatorEdges(tasks, edges);
      if !creators {
        edges := EdgesNotFrom(edges, RUN_WORKFLOWS);
      }
    }

    method ConnectTasks(edgeId: string, source: string, sourceSide: string, target: string, targetSide: string)
      requires Ok() && HasTask(tasks, source) && HasTask(tasks, target)
      modifies this
      ensures Ok() && Snap() == Connected(old(Snap()), edgeId, source, sourceSide, target, targetSide)
      ensures tasks == old(tasks) && layout == old(layout) && entryTaskId == old(entryTaskId)
      ensures edges == old(edges) <==> source == target || (target == RUN_WORKFLOWS && !IsCreator(tasks, source))
      ensures edges != old(edges) ==> edges == old(edges) + [Edge(edgeId, source, target, sourceSide, targetSide)]
    {
      hide Valid;
      ConnectKeepsValid(Snap(), edgeId, source, sourceSide, target, targetSide);
      if source == target { return; }
      if target == RUN_WORKFLOWS && !IsCreator(tasks, source) { return; }
      edges := edges + [Edge(edgeId, source, target, sourceSide, targetSide)];
    }

    method MoveTask(sourceId: string, targetId: string, after: bool)
      requires Ok()
      modifies this
      ensures Ok() && Snap() == if readOnly then old(Snap()) else Moved(old(Snap()), sourceId, targetId, after)
    {
      hide Valid, IndexOfTask, HasTask;
      MoveKeepsValid(Snap(), sourceId, targetId, after);
      if readOnly || sourceId == targetId { return; }
      var source := IndexOfTask(tasks, sourceId);
      if source < 0 || !HasTask(tasks, targetId) { return; }
      TargetRemains(tasks, source, targetId);
      var task := tasks[source];
      tasks := tasks[..source] + tasks[source + 1..];
      var target := IndexOfTask(tasks, targetId);
      var at := target + if after then 1 else 0;
      tasks := tasks[..at] + [task] + tasks[at..];
    }

    method AddTask(id: string)
      requires Ok() && id != "" && id != RUN_WORKFLOWS && !HasTask(tasks, id)
      modifies this
      ensures Ok() && Snap() == if readOnly then old(Snap()) else Added(old(Snap()), id)
    {
      hide Valid;
      AddKeepsValid(Snap(), id);
      if readOnly { return; }
      tasks := [Task(id, "New Task", "", false)] + tasks;
      layout := layout[id := LayoutFor(|tasks| - 1)];
      if entryTaskId == "" { entryTaskId := id; }
    }

    /** `confirmed` is the answer to the question asked before the last creator goes. */
    method DeleteTask(id: string, confirmed: bool)
      requires Ok() && HasOrdinary(tasks, id)
      modifies this
      ensures Ok()
      ensures Snap() == if OnlyCreator(old(tasks), id) && !confirmed then old(Snap()) else Deleted(old(Snap()), id)
    {
      hide Valid, Synced;
      DeleteKeepsValid(Snap(), id);
      if OnlyCreator(tasks, id) && !confirmed { return; }
      tasks := WithoutTask(tasks, id);
      edges := EdgesWithoutTask(edges, id);
      layout := layout - {id};
      SyncCoordinator();
      if entryTaskId == id { entryTaskId := FirstOrdinary(tasks); }
    }

    method ToggleCreator(id: string, creator: bool, confirmed: bool, edgeId: string)
      requires Ok() && HasOrdinary(tasks, id)
      modifies this
      ensures Ok()
      ensures Snap() == if OnlyCreator(old(tasks), id) && TouchesCoordinator(old(edges)) && !confirmed then old(Snap())
                        else CreatorSet(old(Snap()), id, creator, edgeId)
    {
      hide Valid, Synced;
      CreatorKeepsValid(Snap(), id, creator, edgeId);
      if OnlyCreator(tasks, id) && TouchesCoordinator(edges) && !confirmed { return; }
      tasks := WithCreator(tasks, id, creator);
      SyncCoordinator();
      if creator && !HasEdge(edges, id, RUN_WORKFLOWS) {
        edges := edges + [Edge(edgeId, id, RUN_WORKFLOWS, "right", "left")];
      }
    }

    method SetEntryTask(id: string)
      requires Ok() && HasOrdinary(tasks, id)
      modifies this
      ensures Ok() && Snap() == old(Snap()).(entry := id)
    {
      EntryKeepsValid(Snap(), id);
      if entryTaskId == id { return; }
      entryTaskId := id;
    }

    method DeleteSelectedEdge(selectedEdgeId: Option<string>)
      requires Ok()
      modifies this
      ensures Ok()
      ensures Snap() == if readOnly || selectedEdgeId == None then old(Snap()) else EdgeDeleted(old(Snap()), selectedEdgeId.value)
    {
      hide Valid;
      if readOnly || selectedEdgeId == None { return; }
      EdgeDeleteKeepsValid(Snap(), selectedEdgeId.value);
      edges := Filter(edges, (e: Edge) => e.id != selectedEdgeId.value);
    }
  }

  /** The handlers ask before the only task that allows sub-flows loses its flag. */
  predicate OnlyCreator(tasks: seq<Task>, id: string) {
    IsCreator(tasks, id) && |Filter(tasks, (t: Task) => t.creator)| == 1
  }

  predicate TouchesCoordinator(edges: seq<Edge>) {
    exists e :: e in edges && (e.source == RUN_WORKFLOWS || e.target == RUN_WORKFLOWS)
  }
}
