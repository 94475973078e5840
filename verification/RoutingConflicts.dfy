/**
 What the drawn route conflicts with, against what the search paid for. The search adds up the conflicts of
 the grid steps; a crossing that falls exactly on a grid point is strict for neither step next to it.
 */
module RoutingConflicts {

  import opened RoutingGeometry
  import opened RoutingGrid
  import opened RoutingSimplify

  const CROSSING_COST := 100.0

  /** The conflicts of a polyline, leg by leg. */
  ghost function PathConflicts(points: seq<Point>, segments: seq<Segment>): real {
    if |points| <= 1 then 0.0
    else PathConflicts(points[..|points| - 1], segments) + ConflictSum(points[|points| - 2], Last(points), segments)
  }

  /** The earlier leg `s` lies across the line from `a` to `b` and properly crosses it exactly at `b`. */
  predicate CrossesAt(a: Point, b: Point, s: Segment) {
    if a.y == b.y
    then s.a.y != s.b.y && s.a.x == b.x && StrictlyBetween(b.y, s.a.y, s.b.y)
    else s.a.y == s.b.y && s.a.y == b.y && StrictlyBetween(b.x, s.a.x, s.b.x)
  }

  function CrossingsAt(a: Point, b: Point, segments: seq<Segment>): nat {
    if segments == [] then 0
    else CrossingsAt(a, b, segments[..|segments| - 1]) + if CrossesAt(a, b, segments[|segments| - 1]) then 1 else 0
  }

  /** The crossings at the inner points of straight runs, where no corner is drawn. */
  ghost function FreeCrossings(points: seq<Point>, segments: seq<Segment>): nat {
    if |points| <= 2 then 0
    else
      var a, b := points[|points| - 3], points[|points| - 2];
      FreeCrossings(points[..|points| - 1], segments) + if Collinear(a, b, Last(points)) then CrossingsAt(a, b, segments) else 0
  }

  // One leg that is split at a grid point

  lemma OverlapSplits(z: real, b: real, p: real, c: real, d: real)
    requires z < b < p || p < b < z
    ensures Max(0.0, Overlap(z, p, c, d)) == Max(0.0, Overlap(z, b, c, d)) + Max(0.0, Overlap(b, p, c, d))
  {
  }

  lemma ConflictSplits(z: Point, b: Point, p: Point, s: Segment)
    requires Collinear(z, b, p) && Onward(z, b, p) && z != b && b != p
    ensures Conflict(z, p, s) == Conflict(z, b, s) + Conflict(b, p, s) + if CrossesAt(z, b, s) then CROSSING_COST else 0.0
  {
    if z.y == b.y && b.y == p.y {
      OverlapSplits(z.x, b.x, p.x, s.a.x, s.b.x);
    } else {
      OverlapSplits(z.y, b.y, p.y, s.a.y, s.b.y);
    }
  }

  lemma {:induction false} SumSplits(z: Point, b: Point, p: Point, segments: seq<Segment>)
    requires Collinear(z, b, p) && Onward(z, b, p) && z != b && b != p
    ensures ConflictSum(z, p, segments) ==
              ConflictSum(z, b, segments) + ConflictSum(b, p, segments) + CrossingsAt(z, b, segments) as real * CROSSING_COST
  {
    hide Conflict, CrossesAt, Collinear, Onward;
    if segments != [] {
      SumSplits(z, b, p, segments[..|segments| - 1]);
      ConflictSplits(z, b, p, segments[|segments| - 1]);
    }
  }

  lemma {:induction false} CrossingsDependOnLine(a: Point, z: Point, b: Point, segments: seq<Segment>)
    requires (a.y == b.y) == (z.y == b.y)
    ensures CrossingsAt(a, b, segments) == CrossingsAt(z, b, segments)
  {
    if segments != [] { CrossingsDependOnLine(a, z, b, segments[..|segments| - 1]); }
  }

  /** The route's last leg and the walk's last leg lie on the same line. */
  lemma SameLine(z: Point, a: Point, b: Point, p: Point)
    requires Aligned(z, b) && OnSegment(z, b, a) && Aligned(a, b) && a != b && Aligned(b, p) && b != p
    ensures Collinear(z, b, p) <==> Collinear(a, b, p)
    ensures (a.y == b.y) == (z.y == b.y)
  {
  }

  lemma ConflictsSnoc(points: seq<Point>, p: Point, segments: seq<Segment>)
    requires |points| > 0
    ensures PathConflicts(points + [p], segments) == PathConflicts(points, segments) + ConflictSum(Last(points), p, segments)
  {
    assert (points + [p])[..|points|] == points;
  }

  lemma FreeCrossingsSnoc(points: seq<Point>, p: Point, segments: seq<Segment>)
    requires |points| > 1
    ensures FreeCrossings(points + [p], segments) ==
              FreeCrossings(points, segments)
              + if Collinear(points[|points| - 2], Last(points), p) then CrossingsAt(points[|points| - 2], Last(points), segments) else 0
  {
    assert (points + [p])[..|points|] == points;
  }

  // The whole route

  ghost predicate Accounts(points: seq<Point>, route: seq<Point>, segments: seq<Segment>) {
    PathConflicts(route, segments) == PathConflicts(points, segments) + FreeCrossings(points, segments) as real * CROSSING_COST
  }

  lemma AddAccounts(points: seq<Point>, route: seq<Point>, p: Point, segments: seq<Segment>)
    requires CleanPath(points) && Represents(points, route) && Accounts(points, route, segments) && |points| > 1
    requires Aligned(Last(points), p) && Last(points) != p && Onward(points[|points| - 2], Last(points), p)
    ensures Accounts(points + [p], Add(route, p), segments)
  {
    hide PathConflicts, FreeCrossings, ConflictSum, CrossingsAt, OnPath, OnSegment, PathLength, Distance, Straighten, Onward, Collinear,
         CleanPath, TurnsEverywhere, SamePoints;
    var z, a, b := route[|route| - 2], points[|points| - 2], Last(points);
    LastLeg(points);
    LastLeg(route);
    HeadingIsOnward(points, route, p);
    StraightenOnce(route, p);
    DistinctFromLast(route, p);
    SameLine(z, a, b, p);
    CrossingsDependOnLine(a, z, b, segments);
    ConflictsSnoc(points, p, segments);
    FreeCrossingsSnoc(points, p, segments);
    if Collinear(z, b, p) {
      var shorter := route[..|route| - 1];
      assert route == shorter + [b];
      ConflictsSnoc(shorter, b, segments);
      ConflictsSnoc(shorter, p, segments);
      SumSplits(z, b, p, segments);
    } else {
      ConflictsSnoc(route, p, segments);
    }
  }

  /**
   The drawn route conflicts with exactly what the walk was charged for, plus one crossing for every earlier
   leg that crosses a straight run properly at one of its grid points.
   */
  lemma {:induction false} DrawnConflicts(points: seq<Point>, segments: seq<Segment>)
    requires CleanPath(points) && |points| > 0
    ensures PathConflicts(Simplified(points), segments) ==
              PathConflicts(points, segments) + FreeCrossings(points, segments) as real * CROSSING_COST
  {
    hide Represents, CleanPath, Onward, Add, ConflictSum, CrossingsAt, Collinear;
    var before, p := points[..|points| - 1], Last(points);
    if |points| == 1 {
      SingleRepresents(p);
      assert before == [] && points == [p];
    } else {
      assert before + [p] == points;
      CleanPathPrefix(points, |points| - 1);
      DrawnConflicts(before, segments);
      LastLegOnward(points);
      SimplifiedRepresents(before);
      if |points| == 2 {
        SingleRepresents(points[0]);
        assert before == [points[0]] && before[..0] == [];
        AddedToOne([points[0]], p);
        ConflictsSnoc([points[0]], p, segments);
      } else {
        AddAccounts(before, Simplified(before), p, segments);
      }
    }
  }

  lemma {:induction false} NoCrossingsAt(a: Point, b: Point, segments: seq<Segment>)
    ensures CrossingsAt(a, b, segments) == 0 <==> forall k :: 0 <= k < |segments| ==> !CrossesAt(a, b, segments[k])
  {
    hide CrossesAt;
    if segments != [] { NoCrossingsAt(a, b, segments[..|segments| - 1]); }
  }

  /** There is none exactly when no straight run has a grid point where an earlier leg properly crosses it. */
  lemma {:induction false} NoFreeCrossings(points: seq<Point>, segments: seq<Segment>)
    ensures FreeCrossings(points, segments) == 0 <==>
              forall i, k :: 0 < i < |points| - 1 && Collinear(points[i - 1], points[i], points[i + 1]) && 0 <= k < |segments| ==>
                !CrossesAt(points[i - 1], points[i], segments[k])
  {
    hide CrossesAt, Collinear, CrossingsAt;
    if |points| > 2 {
      NoFreeCrossings(points[..|points| - 1], segments);
      NoCrossingsAt(points[|points| - 3], points[|points| - 2], segments);
    }
  }
}
