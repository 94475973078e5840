/** Dropping repeated points and the middle of three points in a line. */
module RoutingSimplify {

  import opened RoutingGeometry
  import opened RoutingGrid

  predicate Collinear(a: Point, b: Point, c: Point) {
    (a.x == b.x && b.x == c.x) || (a.y == b.y && b.y == c.y)
  }

  /** Drops points from the end as long as the last two are in line with `p`. */
  function Straighten(result: seq<Point>, p: Point): (r: seq<Point>)
    ensures r <= result && (result != [] ==> r != [])
  {
    if |result| > 1 && Collinear(result[|result| - 2], Last(result), p)
    then Straighten(result[..|result| - 1], p)
    else result
  }

  function Add(result: seq<Point>, p: Point): seq<Point> {
    if result != [] && Distance(Last(result), p) == 0.0 then result
    else Straighten(result, p) + [p]
  }

  function Simplified(points: seq<Point>): seq<Point> {
    if points == [] then [] else Add(Simplified(points[..|points| - 1]), Last(points))
  }

  method Simplify(points: seq<Point>) returns (result: seq<Point>)
    ensures result == Simplified(points)
  {
    result := [];
    for i := 0 to |points|
      invariant result == Simplified(points[..i])
    {
      var point := points[i];
      assert points[..i + 1][..i] == points[..i];
      if |result| > 0 && Distance(Last(result), point) == 0.0 { continue; }
      ghost var before := result;
      while |result| > 1
        invariant Straighten(result, point) == Straighten(before, point)
      {
        var a, b := result[|result| - 2], result[|result| - 1];
        if !((a.x == b.x && b.x == point.x) || (a.y == b.y && b.y == point.y)) { break; }
        result := result[..|result| - 1];
      }
      result := result + [point];
    }
    assert points[..|points|] == points;
  }

  // What the result looks like, for every list of points

  ghost predicate TurnsEverywhere(points: seq<Point>) {
    forall i :: 0 < i < |points| - 1 ==> !Collinear(points[i - 1], points[i], points[i + 1])
  }

  lemma {:induction false} StraightenStops(result: seq<Point>, p: Point)
    requires TurnsEverywhere(result)
    ensures TurnsEverywhere(Straighten(result, p))
    ensures TurnsEverywhere(Straighten(result, p) + [p])
  {
    if |result| > 1 && Collinear(result[|result| - 2], Last(result), p) {
      StraightenStops(result[..|result| - 1], p);
    }
  }

  /** Whatever the input, no three consecutive points of the result share a coordinate. */
  lemma {:induction false} SimplifiedTurns(points: seq<Point>)
    ensures TurnsEverywhere(Simplified(points))
  {
    if points != [] {
      SimplifiedTurns(points[..|points| - 1]);
      StraightenStops(Simplified(points[..|points| - 1]), Last(points));
    }
  }

  /** The ends stay where they are. */
  lemma {:induction false} SimplifiedKeepsEnds(points: seq<Point>)
    requires points != []
    ensures Simplified(points) != []
    ensures Simplified(points)[0] == points[0] && Last(Simplified(points)) == Last(points)
  {
    if |points| > 1 {
      SimplifiedKeepsEnds(points[..|points| - 1]);
    } else {
      assert Simplified(points[..0]) == [];
    }
  }

  // What it means for axis-parallel polylines that never turn back

  ghost predicate AlignedPath(points: seq<Point>) {
    forall i :: 0 < i < |points| ==> Aligned(points[i - 1], points[i]) && points[i - 1] != points[i]
  }

  /** Going from `a` by `b` to `c` does not retrace any of the first leg. */
  predicate Onward(a: Point, b: Point, c: Point) {
    && (a.y == b.y == c.y ==> (a.x < b.x) == (b.x < c.x))
    && (a.x == b.x == c.x ==> (a.y < b.y) == (b.y < c.y))
  }

  ghost predicate NeverTurnsBack(points: seq<Point>) {
    forall i :: 0 < i < |points| - 1 ==> Onward(points[i - 1], points[i], points[i + 1])
  }

  /** `q` lies on the polyline; a single point counts as a polyline. */
  ghost predicate OnPath(points: seq<Point>, q: Point) {
    || (|points| == 1 && points[0] == q)
    || exists i :: 0 < i < |points| && OnLeg(points, i, q)
  }

  predicate OnLeg(points: seq<Point>, i: int, q: Point)
    requires 0 < i < |points|
  {
    OnSegment(points[i - 1], points[i], q)
  }

  ghost function PathLength(points: seq<Point>): real {
    if |points| <= 1 then 0.0
    else PathLength(points[..|points| - 1]) + Distance(points[|points| - 2], Last(points))
  }

  ghost predicate CleanPath(points: seq<Point>) { AlignedPath(points) && NeverTurnsBack(points) }

  /** The last leg of the simplified polyline continues into the last leg of the original. */
  ghost predicate SameHeading(points: seq<Point>, route: seq<Point>) {
    |points| > 1 ==>
      && |route| > 1
      && Aligned(route[|route| - 2], Last(route))
      && OnSegment(route[|route| - 2], Last(route), points[|points| - 2])
  }

  ghost predicate SamePoints(p: seq<Point>, r: seq<Point>) {
    forall q :: OnPath(p, q) <==> OnPath(r, q)
  }

  lemma OnPathSnoc(points: seq<Point>, p: Point, q: Point)
    requires |points| > 0
    ensures |points| > 1 ==> (OnPath(points + [p], q) <==> OnPath(points, q) || OnSegment(Last(points), p, q))
    ensures |points| == 1 ==> (OnPath(points + [p], q) <==> OnSegment(Last(points), p, q))
  {
    var longer := points + [p];
    if OnPath(points, q) && |points| > 1 {
      var i :| 0 < i < |points| && OnLeg(points, i, q);
      assert OnLeg(longer, i, q);
    }
    if OnSegment(Last(points), p, q) {
      assert OnLeg(longer, |points|, q);
    }
    if OnPath(longer, q) {
      var i :| 0 < i < |longer| && OnLeg(longer, i, q);
      if i < |points| { assert OnLeg(points, i, q); }
    }
  }

  /** Everything the simplification owes to a polyline that never turns back. */
  ghost predicate Represents(points: seq<Point>, route: seq<Point>) {
    && |points| > 0 && |route| > 0
    && route[0] == points[0] && Last(route) == Last(points)
    && CleanPath(route) && TurnsEverywhere(route) && SameHeading(points, route)
    && (|points| == 1 ==> |route| == 1)
    && PathLength(route) == PathLength(points)
    && SamePoints(points, route)
  }

  lemma CleanPathSnoc(points: seq<Point>, p: Point)
    requires CleanPath(points) && |points| > 0 && Aligned(Last(points), p) && Last(points) != p
    requires |points| > 1 ==> Onward(points[|points| - 2], Last(points), p)
    ensures CleanPath(points + [p])
  {
  }

  lemma TurnsSnoc(points: seq<Point>, p: Point)
    requires TurnsEverywhere(points)
    requires |points| > 1 ==> !Collinear(points[|points| - 2], Last(points), p)
    ensures TurnsEverywhere(points + [p])
  {
  }

  lemma CleanPathPrefix(points: seq<Point>, n: nat)
    requires n <= |points|
    ensures CleanPath(points) ==> CleanPath(points[..n])
    ensures TurnsEverywhere(points) ==> TurnsEverywhere(points[..n])
  {
  }

  lemma LengthSnoc(points: seq<Point>, p: Point)
    requires |points| > 0
    ensures PathLength(points + [p]) == PathLength(points) + Distance(Last(points), p)
  {
    assert (points + [p])[..|points|] == points;
  }

  /** In a clean route at most one point is dropped before `p`. */
  lemma StraightenOnce(route: seq<Point>, p: Point)
    requires CleanPath(route) && TurnsEverywhere(route) && |route| > 1
    requires Aligned(Last(route), p) && Last(route) != p && Onward(route[|route| - 2], Last(route), p)
    ensures Straighten(route, p) ==
              if Collinear(route[|route| - 2], Last(route), p) then route[..|route| - 1] else route
  {
    if Collinear(route[|route| - 2], Last(route), p) {
      var shorter := route[..|route| - 1];
      if |shorter| > 1 {
        var y, z, b := route[|route| - 3], route[|route| - 2], Last(route);
        assert !Collinear(y, z, b) && Aligned(y, z) && Aligned(z, b) && z != b && y != z;
        assert !Collinear(y, z, p);
      }
    }
  }

  lemma SamePointsSnoc(points: seq<Point>, route: seq<Point>, p: Point)
    requires |points| > 0 && |route| > 0 && Last(points) == Last(route) && SamePoints(points, route)
    requires |points| == 1 <==> |route| == 1
    ensures SamePoints(points + [p], route + [p])
  {
    hide OnPath, OnSegment;
    forall q ensures OnPath(route + [p], q) <==> OnPath(points + [p], q) {
      OnPathSnoc(points, p, q);
      OnPathSnoc(route, p, q);
    }
  }

  lemma SamePointsMerge(points: seq<Point>, shorter: seq<Point>, b: Point, p: Point)
    requires |points| > 1 && |shorter| > 0 && Last(points) == b && SamePoints(points, shorter + [b])
    requires Collinear(Last(shorter), b, p) && Onward(Last(shorter), b, p)
    requires Last(shorter) != b && b != p
    ensures SamePoints(points + [p], shorter + [p])
  {
    hide OnPath;
    var z := Last(shorter);
    forall q ensures OnPath(shorter + [p], q) <==> OnPath(points + [p], q) {
      OnPathSnoc(points, p, q);
      OnPathSnoc(shorter, b, q);
      OnPathSnoc(shorter, p, q);
      SegmentsJoin(z, b, p, q);
    }
  }

  lemma SegmentsJoin(z: Point, b: Point, p: Point, q: Point)
    requires Collinear(z, b, p) && Onward(z, b, p) && z != b && b != p
    ensures OnSegment(z, p, q) <==> OnSegment(z, b, q) || OnSegment(b, p, q)
  {
  }

  /** Adding one more clean leg keeps the route a faithful picture of the polyline. */
  lemma AddRepresents(points: seq<Point>, route: seq<Point>, p: Point)
    requires CleanPath(points) && Represents(points, route)
    requires Aligned(Last(points), p) && Last(points) != p
    requires |points| > 1 ==> Onward(points[|points| - 2], Last(points), p)
    ensures Represents(points + [p], Add(route, p))
  {
    hide OnPath, PathLength, SamePoints, Distance, Straighten, Collinear, Onward, CleanPath, TurnsEverywhere, OnSegment;
    LengthSnoc(points, p);
    DistinctFromLast(route, p);
    if |route| > 1 {
      HeadingIsOnward(points, route, p);
      if Collinear(route[|route| - 2], Last(route), p) {
        MergeRepresents(points, route, p);
        return;
      }
      StraightenOnce(route, p);
    } else {
      AddedToOne(route, p);
    }
    CleanPathSnoc(route, p);
    TurnsSnoc(route, p);
    LengthSnoc(route, p);
    HeadingOfNewLeg(points, route, p);
    SamePointsSnoc(points, route, p);
  }

  lemma HeadingOfNewLeg(points: seq<Point>, route: seq<Point>, p: Point)
    requires |points| > 0 && |route| > 0 && Last(points) == Last(route) && Aligned(Last(route), p)
    ensures SameHeading(points + [p], route + [p])
  {
  }

  lemma HeadingIsOnward(points: seq<Point>, route: seq<Point>, p: Point)
    requires |points| > 1 && CleanPath(points) && |route| > 1 && SameHeading(points, route) && Last(route) == Last(points)
    requires Onward(points[|points| - 2], Last(points), p)
    ensures Onward(route[|route| - 2], Last(route), p)
  {
    LastLeg(points);
  }

  /** The case where the new leg prolongs the route's last one. */
  lemma MergeRepresents(points: seq<Point>, route: seq<Point>, p: Point)
    requires CleanPath(points) && Represents(points, route) && |points| > 1 && |route| > 1
    requires Aligned(Last(points), p) && Last(points) != p
    requires Onward(points[|points| - 2], Last(points), p) && Onward(route[|route| - 2], Last(route), p)
    requires Collinear(route[|route| - 2], Last(route), p)
    requires PathLength(points + [p]) == PathLength(points) + Distance(Last(points), p)
    ensures Represents(points + [p], Add(route, p))
  {
    hide OnPath, OnSegment, PathLength, SamePoints, Collinear, Onward, Distance, CleanPath, TurnsEverywhere;
    StraightenOnce(route, p);
    var shorter, z, b := route[..|route| - 1], route[|route| - 2], Last(route);
    assert route == shorter + [b];
    DistinctFromLast(route, p);
    LastLeg(route);
    CleanPathPrefix(route, |route| - 1);
    LengthSnoc(shorter, b);
    LengthSnoc(shorter, p);
    JoinedLegs(z, b, p);
    if |shorter| > 1 {
      LastTurn(route);
      TurnStays(shorter[|shorter| - 2], z, b, p);
    }
    CleanPathSnoc(shorter, p);
    TurnsSnoc(shorter, p);
    HeadingStays(points[|points| - 2], z, b, p);
    SamePointsMerge(points, shorter, b, p);
  }

  lemma AddedToOne(route: seq<Point>, p: Point)
    requires |route| == 1 && route[0] != p
    ensures Add(route, p) == route + [p]
  {
  }

  /** A clean new point makes one more corner unless it prolongs the last leg. */
  lemma AddedCorner(route: seq<Point>, p: Point)
    requires CleanPath(route) && TurnsEverywhere(route) && |route| > 1
    requires Aligned(Last(route), p) && Last(route) != p && Onward(route[|route| - 2], Last(route), p)
    ensures |Add(route, p)| == |route| + if Collinear(route[|route| - 2], Last(route), p) then 0 else 1
  {
    StraightenOnce(route, p);
    DistinctFromLast(route, p);
  }

  lemma DistinctFromLast(route: seq<Point>, p: Point)
    requires |route| > 0 && Last(route) != p
    ensures Distance(Last(route), p) != 0.0
  {
  }

  lemma LastLeg(route: seq<Point>)
    requires CleanPath(route) && |route| > 1
    ensures Aligned(route[|route| - 2], Last(route)) && route[|route| - 2] != Last(route)
  {
  }

  lemma LastTurn(route: seq<Point>)
    requires CleanPath(route) && TurnsEverywhere(route) && |route| > 2
    ensures var y, z, b := route[|route| - 3], route[|route| - 2], Last(route);
            !Collinear(y, z, b) && Onward(y, z, b) && Aligned(y, z) && y != z
  {
  }

  lemma JoinedLegs(z: Point, b: Point, p: Point)
    requires Collinear(z, b, p) && Onward(z, b, p) && z != b && b != p
    ensures Distance(z, p) == Distance(z, b) + Distance(b, p)
    ensures Aligned(z, p) && z != p && Distance(b, p) != 0.0
  {
  }

  lemma TurnStays(y: Point, z: Point, b: Point, p: Point)
    requires !Collinear(y, z, b) && Aligned(y, z) && y != z
    requires Collinear(z, b, p) && Onward(z, b, p) && z != b && b != p
    ensures Onward(y, z, p) && !Collinear(y, z, p)
  {
  }

  lemma HeadingStays(a: Point, z: Point, b: Point, p: Point)
    requires Collinear(z, b, p) && Onward(z, b, p) && z != b && b != p
    ensures Aligned(z, p) && OnSegment(z, p, b)
  {
  }

  /** The simplification of a clean polyline is the same set of points, of the same length, with turns only. */
  lemma {:induction false} SimplifiedRepresents(points: seq<Point>)
    requires CleanPath(points) && |points| > 0
    ensures Represents(points, Simplified(points))
  {
    hide Represents, CleanPath, Onward, Add;
    var before, p := points[..|points| - 1], Last(points);
    if |points| == 1 {
      assert before == [];
      SingleRepresents(p);
      assert points == [p];
    } else {
      CleanPathPrefix(points, |points| - 1);
      SimplifiedRepresents(before);
      LastLegOnward(points);
      AddRepresents(before, Simplified(before), p);
      assert before + [p] == points;
    }
  }

  lemma SingleRepresents(p: Point)
    ensures Add([], p) == [p] && Represents([p], [p])
  {
  }

  lemma LastLegOnward(points: seq<Point>)
    requires CleanPath(points) && |points| > 1
    ensures Aligned(points[|points| - 2], Last(points)) && points[|points| - 2] != Last(points)
    ensures |points| > 2 ==> Onward(points[|points| - 3], points[|points| - 2], Last(points))
  {
    if |points| > 2 { assert Onward(points[|points| - 3], points[|points| - 2], points[|points| - 1]); }
  }

  /** Repeating the first or the last point changes nothing. */
  lemma {:induction false} SimplifiedIgnoresRepeats(points: seq<Point>)
    requires |points| > 0
    ensures Simplified([points[0]] + points) == Simplified(points)
    ensures Simplified(points + [Last(points)]) == Simplified(points)
  {
    SimplifiedKeepsEnds(points);
    assert (points + [Last(points)])[..|points|] == points;
    var twice := [points[0]] + points;
    var before := points[..|points| - 1];
    if |points| == 1 {
      assert twice[..1] == points && before == [] && points[..0] == [];
    } else {
      SimplifiedIgnoresRepeats(before);
      assert twice[..|twice| - 1] == [before[0]] + before;
    }
  }

  /** The first leg of the simplified polyline starts along the first leg of the original. */
  lemma {:induction false} FirstLegKept(points: seq<Point>)
    requires CleanPath(points) && |points| > 1
    ensures var r := Simplified(points);
            |r| > 1 && Aligned(r[0], r[1]) && r[0] != r[1] && OnSegment(r[0], r[1], points[1])
  {
    hide OnPath, PathLength, SamePoints, Straighten, Distance;
    SimplifiedRepresents(points);
    var before, p := points[..|points| - 1], Last(points);
    CleanPathPrefix(points, |points| - 1);
    SimplifiedRepresents(before);
    var route := Simplified(before);
    LastLeg(points);
    DistinctFromLast(route, p);
    if |points| == 2 {
      AddedToOne(route, p);
    } else {
      FirstLegKept(before);
      OnwardFromRoute(points, route);
      StraightenOnce(route, p);
      if |route| == 2 && Collinear(route[0], route[1], p) {
        SegmentsJoin(route[0], route[1], p, points[1]);
      }
    }
  }

  lemma OnwardFromRoute(points: seq<Point>, route: seq<Point>)
    requires |points| > 2 && CleanPath(points) && |route| > 1
    requires Last(route) == points[|points| - 2] && Aligned(route[|route| - 2], Last(route))
    requires OnSegment(route[|route| - 2], Last(route), points[|points| - 3])
    ensures Onward(route[|route| - 2], Last(route), Last(points))
  {
    var a, b, c := points[|points| - 3], points[|points| - 2], points[|points| - 1];
    assert Onward(a, b, c) && Aligned(a, b) && a != b;
  }

  /** The route drawn when no corridor exists: over one corner, which may coincide with an end. */
  lemma FallbackIsClean(start: Point, end: Point)
    ensures var route := Simplified([start, start, Point(start.x, end.y), end, end]);
            && |route| > 0 && route[0] == start && Last(route) == end
            && AlignedPath(route) && TurnsEverywhere(route)
  {
    hide Simplified, Add;
    var corner := Point(start.x, end.y);
    assert [] + [start] == [start] && [start] + [start] == [start, start];
    assert [start, start] + [corner] == [start, start, corner];
    assert [start, start, corner] + [end] == [start, start, corner, end];
    assert [start, start, corner, end] + [end] == [start, start, corner, end, end];
    SimplifiedSnoc([], start);
    SimplifiedSnoc([start], start);
    SimplifiedSnoc([start, start], corner);
    SimplifiedSnoc([start, start, corner], end);
    SimplifiedSnoc([start, start, corner, end], end);
    OverTheCorner(start, corner, end);
  }

  lemma OverTheCorner(start: Point, corner: Point, end: Point)
    requires corner == Point(start.x, end.y)
    ensures Add([], start) == [start] == Add([start], start)
    ensures var three := Add([start], corner);
            var route := Add(Add(three, end), end);
            && |route| > 0 && route[0] == start && Last(route) == end
            && AlignedPath(route) && TurnsEverywhere(route)
  {
    var three := if corner == start then [start] else [start, corner];
    assert Add([start], corner) == three;
    var four := if start == end then [start] else if Aligned(start, end) then [start, end] else [start, corner, end];
    assert Add(three, end) == four;
    assert Add(four, end) == four;
  }

  lemma SimplifiedSnoc(points: seq<Point>, p: Point)
    ensures Simplified([]) == []
    ensures Simplified(points + [p]) == Add(Simplified(points), p)
  {
    assert (points + [p])[..|points|] == points;
  }
}
