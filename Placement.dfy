/** Placement of the drawing on the cutter bed (gcode_generator.py): the
    cut and score paths are translated as one group so that the bounding box
    of all their points is centred on the bed, and points are checked
    against the bed less a safety margin on every side. Paths are nested as
    `get_paths_by_color` returns them: a list of paths, each a list of
    subpaths, each a list of points. */
module Placement {
  import opened Geometry
  import opened Stitching

  datatype Axis = X | Y

  function Coord(p: Point, axis: Axis): real
  {
    if axis == X then p.x else p.y
  }

  /** Python's `min(pt[k] for pt in pts)`. */
  function MinOf(pts: seq<Point>, axis: Axis): (m: real)
    requires pts != []
    ensures forall i :: 0 <= i < |pts| ==> m <= Coord(pts[i], axis)
    ensures exists i :: 0 <= i < |pts| && Coord(pts[i], axis) == m
  {
    if |pts| == 1 then Coord(pts[0], axis)
    else
      var rest := MinOf(pts[1..], axis);
      assert forall i :: 1 <= i < |pts| ==> pts[i] == pts[1..][i - 1];
      if Coord(pts[0], axis) <= rest then Coord(pts[0], axis) else rest
  }

  /** Python's `max(pt[k] for pt in pts)`. */
  function MaxOf(pts: seq<Point>, axis: Axis): (m: real)
    requires pts != []
    ensures forall i :: 0 <= i < |pts| ==> Coord(pts[i], axis) <= m
    ensures exists i :: 0 <= i < |pts| && Coord(pts[i], axis) == m
  {
    if |pts| == 1 then Coord(pts[0], axis)
    else
      var rest := MaxOf(pts[1..], axis);
      assert forall i :: 1 <= i < |pts| ==> pts[i] == pts[1..][i - 1];
      if Coord(pts[0], axis) >= rest then Coord(pts[0], axis) else rest
  }

  /** A lower bound that is attained is the minimum. */
  lemma MinIsUnique(pts: seq<Point>, axis: Axis, m: real)
    requires pts != []
    requires forall i :: 0 <= i < |pts| ==> m <= Coord(pts[i], axis)
    requires exists i :: 0 <= i < |pts| && Coord(pts[i], axis) == m
    ensures MinOf(pts, axis) == m
  {
    var i :| 0 <= i < |pts| && Coord(pts[i], axis) == m;
    var j :| 0 <= j < |pts| && Coord(pts[j], axis) == MinOf(pts, axis);
    assert MinOf(pts, axis) <= Coord(pts[i], axis);
    assert m <= Coord(pts[j], axis);
  }

  /** An upper bound that is attained is the maximum. */
  lemma MaxIsUnique(pts: seq<Point>, axis: Axis, m: real)
    requires pts != []
    requires forall i :: 0 <= i < |pts| ==> Coord(pts[i], axis) <= m
    requires exists i :: 0 <= i < |pts| && Coord(pts[i], axis) == m
    ensures MaxOf(pts, axis) == m
  {
    var i :| 0 <= i < |pts| && Coord(pts[i], axis) == m;
    var j :| 0 <= j < |pts| && Coord(pts[j], axis) == MaxOf(pts, axis);
    assert Coord(pts[i], axis) <= MaxOf(pts, axis);
    assert Coord(pts[j], axis) <= m;
  }

  /** Every point of a group of paths, in order. */
  function GroupPoints(paths: seq<seq<Subpath>>): seq<Point>
  {
    if paths == [] then [] else Points(paths[0]) + GroupPoints(paths[1..])
  }

  function ShiftPoint(p: Point, d: Point): Point
  {
    Point(p.x + d.x, p.y + d.y)
  }

  function ShiftSubpath(sub: Subpath, d: Point): (r: Subpath)
    ensures |r| == |sub|
  {
    seq(|sub|, k requires 0 <= k < |sub| => ShiftPoint(sub[k], d))
  }

  /** The source's `shift_path`. */
  function ShiftPath(path: seq<Subpath>, d: Point): (r: seq<Subpath>)
    ensures |r| == |path|
  {
    seq(|path|, j requires 0 <= j < |path| => ShiftSubpath(path[j], d))
  }

  function ShiftPaths(paths: seq<seq<Subpath>>, d: Point): (r: seq<seq<Subpath>>)
    ensures |r| == |paths|
  {
    seq(|paths|, i requires 0 <= i < |paths| => ShiftPath(paths[i], d))
  }

  /** The translation that centres the bounding box of `pts` on a bed of
      the given size: the shifted box's two extremes lie symmetrically
      about the bed's centre on each axis. */
  function CenteringOffset(pts: seq<Point>, bedW: real, bedH: real): (d: Point)
    requires pts != []
    ensures (MinOf(pts, X) + d.x) + (MaxOf(pts, X) + d.x) == bedW
    ensures (MinOf(pts, Y) + d.y) + (MaxOf(pts, Y) + d.y) == bedH
  {
    var svgW := MaxOf(pts, X) - MinOf(pts, X);
    var svgH := MaxOf(pts, Y) - MinOf(pts, Y);
    Point((bedW - svgW) / 2.0 - MinOf(pts, X), (bedH - svgH) / 2.0 - MinOf(pts, Y))
  }

  /** `center_paths_on_bed`: both groups are shifted by one offset computed
      from all their points; with no points they are returned as they are.
      The source's `margin` argument is unused there and is not a parameter
      here. */
  function CenterPathsOnBed(cut: seq<seq<Subpath>>, score: seq<seq<Subpath>>, bedW: real, bedH: real)
    : (r: (seq<seq<Subpath>>, seq<seq<Subpath>>))
    ensures |r.0| == |cut| && |r.1| == |score|
  {
    var pts := GroupPoints(cut + score);
    if pts == [] then (cut, score)
    else
      var d := CenteringOffset(pts, bedW, bedH);
      (ShiftPaths(cut, d), ShiftPaths(score, d))
  }

  lemma {:induction false} GroupPointsConcat(a: seq<seq<Subpath>>, b: seq<seq<Subpath>>)
    ensures GroupPoints(a + b) == GroupPoints(a) + GroupPoints(b)
    decreases |a|
  {
    if a == [] {
      assert a + b == b;
    } else {
      assert (a + b)[0] == a[0] && (a + b)[1..] == a[1..] + b;
      GroupPointsConcat(a[1..], b);
    }
  }

  lemma {:induction false} PointsOfShiftedPath(path: seq<Subpath>, d: Point)
    ensures Points(ShiftPath(path, d)) == ShiftSubpath(Points(path), d)
    decreases |path|
  {
    if path != [] {
      PointsOfShiftedPath(path[1..], d);
      assert ShiftPath(path, d)[1..] == ShiftPath(path[1..], d);
      assert Points(path) == path[0] + Points(path[1..]);
    }
  }

  /** Shifting the paths shifts the list of their points. */
  lemma {:induction false} PointsOfShiftedGroup(paths: seq<seq<Subpath>>, d: Point)
    ensures GroupPoints(ShiftPaths(paths, d)) == ShiftSubpath(GroupPoints(paths), d)
    decreases |paths|
  {
    if paths != [] {
      PointsOfShiftedGroup(paths[1..], d);
      PointsOfShiftedPath(paths[0], d);
      assert ShiftPaths(paths, d)[1..] == ShiftPaths(paths[1..], d);
    }
  }

  /** A translation moves the extremes by the offset. */
  lemma ShiftMovesExtremes(pts: seq<Point>, d: Point, axis: Axis)
    requires pts != []
    ensures MinOf(ShiftSubpath(pts, d), axis) == MinOf(pts, axis) + Coord(d, axis)
    ensures MaxOf(ShiftSubpath(pts, d), axis) == MaxOf(pts, axis) + Coord(d, axis)
  {
    var moved := ShiftSubpath(pts, d);
    var i :| 0 <= i < |pts| && Coord(pts[i], axis) == MinOf(pts, axis);
    assert Coord(moved[i], axis) == MinOf(pts, axis) + Coord(d, axis);
    MinIsUnique(moved, axis, MinOf(pts, axis) + Coord(d, axis));
    var j :| 0 <= j < |pts| && Coord(pts[j], axis) == MaxOf(pts, axis);
    assert Coord(moved[j], axis) == MaxOf(pts, axis) + Coord(d, axis);
    MaxIsUnique(moved, axis, MaxOf(pts, axis) + Coord(d, axis));
  }

  /** The offset `center_paths_on_bed` applies: none when there are no
      points. */
  function CenteringShift(cut: seq<seq<Subpath>>, score: seq<seq<Subpath>>, bedW: real, bedH: real): Point
  {
    var pts := GroupPoints(cut + score);
    if pts == [] then Point(0.0, 0.0) else CenteringOffset(pts, bedW, bedH)
  }

  /** Shifting keeps the nesting and every list length, and moves every
      point by the offset. */
  lemma ShiftIsTranslation(paths: seq<seq<Subpath>>, d: Point)
    ensures var r := ShiftPaths(paths, d);
      |r| == |paths| &&
      (forall i :: 0 <= i < |paths| ==> |r[i]| == |paths[i]|) &&
      (forall i, j :: 0 <= i < |paths| && 0 <= j < |paths[i]| ==> |r[i][j]| == |paths[i][j]|) &&
      (forall i, j, k :: 0 <= i < |paths| && 0 <= j < |paths[i]| && 0 <= k < |paths[i][j]| ==>
        r[i][j][k] == ShiftPoint(paths[i][j][k], d))
  {
  }

  /** Centring moves both groups by one and the same offset. */
  lemma CenteringIsTranslation(cut: seq<seq<Subpath>>, score: seq<seq<Subpath>>, bedW: real, bedH: real)
    ensures var d := CenteringShift(cut, score, bedW, bedH);
      CenterPathsOnBed(cut, score, bedW, bedH) == (ShiftPaths(cut, d), ShiftPaths(score, d))
  {
    var d := CenteringShift(cut, score, bedW, bedH);
    if GroupPoints(cut + score) == [] {
      ShiftByZero(cut);
      ShiftByZero(score);
    }
  }

  lemma ShiftByZero(paths: seq<seq<Subpath>>)
    ensures ShiftPaths(paths, Point(0.0, 0.0)) == paths
  {
    var zero := Point(0.0, 0.0);
    forall i | 0 <= i < |paths|
      ensures ShiftPath(paths[i], zero) == paths[i]
    {
      forall j | 0 <= j < |paths[i]|
        ensures ShiftSubpath(paths[i][j], zero) == paths[i][j]
      {
      }
    }
  }

  lemma ShiftSubpathConcat(a: Subpath, b: Subpath, d: Point)
    ensures ShiftSubpath(a + b, d) == ShiftSubpath(a, d) + ShiftSubpath(b, d)
  {
  }

  /** The points of the centred group are those of the original, shifted. */
  lemma PointsOfCentredGroup(cut: seq<seq<Subpath>>, score: seq<seq<Subpath>>, bedW: real, bedH: real)
    requires GroupPoints(cut + score) != []
    ensures var r := CenterPathsOnBed(cut, score, bedW, bedH);
      GroupPoints(r.0 + r.1) == ShiftSubpath(GroupPoints(cut + score), CenteringOffset(GroupPoints(cut + score), bedW, bedH))
  {
    var d := CenteringOffset(GroupPoints(cut + score), bedW, bedH);
    var r := CenterPathsOnBed(cut, score, bedW, bedH);
    assert r == (ShiftPaths(cut, d), ShiftPaths(score, d));
    GroupPointsConcat(cut, score);
    GroupPointsConcat(r.0, r.1);
    PointsOfShiftedGroup(cut, d);
    PointsOfShiftedGroup(score, d);
    ShiftSubpathConcat(GroupPoints(cut), GroupPoints(score), d);
  }

  /** After centring, the bounding box keeps its size and has equal gaps to
      the bed's left and right edges and to its top and bottom edges. */
  lemma CenteredBoundingBox(cut: seq<seq<Subpath>>, score: seq<seq<Subpath>>, bedW: real, bedH: real)
    requires GroupPoints(cut + score) != []
    ensures var pts := GroupPoints(cut + score);
      var r := CenterPathsOnBed(cut, score, bedW, bedH);
      var moved := GroupPoints(r.0 + r.1);
      moved != [] &&
      MinOf(moved, X) == (bedW - (MaxOf(pts, X) - MinOf(pts, X))) / 2.0 &&
      MaxOf(moved, X) == (bedW + (MaxOf(pts, X) - MinOf(pts, X))) / 2.0 &&
      MinOf(moved, Y) == (bedH - (MaxOf(pts, Y) - MinOf(pts, Y))) / 2.0 &&
      MaxOf(moved, Y) == (bedH + (MaxOf(pts, Y) - MinOf(pts, Y))) / 2.0
  {
    var pts := GroupPoints(cut + score);
    var d := CenteringOffset(pts, bedW, bedH);
    PointsOfCentredGroup(cut, score, bedW, bedH);
    ShiftMovesExtremes(pts, d, X);
    ShiftMovesExtremes(pts, d, Y);
  }

  /** Centring twice is centring once. */
  lemma CenteringIsIdempotent(cut: seq<seq<Subpath>>, score: seq<seq<Subpath>>, bedW: real, bedH: real)
    ensures var r := CenterPathsOnBed(cut, score, bedW, bedH);
      CenterPathsOnBed(r.0, r.1, bedW, bedH) == r
  {
    var pts := GroupPoints(cut + score);
    if pts != [] {
      var r := CenterPathsOnBed(cut, score, bedW, bedH);
      CenteredBoundingBox(cut, score, bedW, bedH);
      var moved := GroupPoints(r.0 + r.1);
      assert CenteringOffset(moved, bedW, bedH) == Point(0.0, 0.0);
      ShiftByZero(r.0);
      ShiftByZero(r.1);
    }
  }

  /** The inclusive bed test of one point: within the margin of every edge,
      the edges themselves allowed. */
  predicate InBounds(p: Point, bedW: real, bedH: real, margin: real)
    ensures InBounds(p, bedW, bedH, margin) ==> 2.0 * margin <= bedW && 2.0 * margin <= bedH
  {
    margin <= p.x <= bedW - margin && margin <= p.y <= bedH - margin
  }

  /** `out_of_bounds` over a list of points: true as soon as one point is
      outside the bed less its margin. */
  method OutOfBounds(path: seq<Point>, bedW: real, bedH: real, margin: real) returns (oob: bool)
    ensures oob <==> exists i :: 0 <= i < |path| && !InBounds(path[i], bedW, bedH, margin)
  {
    for i := 0 to |path|
      invariant forall j :: 0 <= j < i ==> InBounds(path[j], bedW, bedH, margin)
    {
      var pt := path[i];
      if !(margin <= pt.x <= bedW - margin && margin <= pt.y <= bedH - margin) {
        return true;
      }
    }
    return false;
  }

  /** The bounding-box fit check: some extreme coordinate lies beyond the
      margin. An empty drawing never fails it. */
  predicate FitFails(pts: seq<Point>, bedW: real, bedH: real, margin: real)
    ensures FitFails(pts, bedW, bedH, margin) ==> pts != []
  {
    pts != [] &&
    (MinOf(pts, X) < margin || MaxOf(pts, X) > bedW - margin ||
     MinOf(pts, Y) < margin || MaxOf(pts, Y) > bedH - margin)
  }

  /** The bounding-box check and the point check agree: the box fails to fit
      exactly when some point is out of bounds. */
  lemma FitFailsIffSomePointOut(pts: seq<Point>, bedW: real, bedH: real, margin: real)
    ensures FitFails(pts, bedW, bedH, margin) <==> exists i :: 0 <= i < |pts| && !InBounds(pts[i], bedW, bedH, margin)
  {
    if pts != [] && FitFails(pts, bedW, bedH, margin) {
      var a :| 0 <= a < |pts| && Coord(pts[a], X) == MinOf(pts, X);
      var b :| 0 <= b < |pts| && Coord(pts[b], X) == MaxOf(pts, X);
      var c :| 0 <= c < |pts| && Coord(pts[c], Y) == MinOf(pts, Y);
      var e :| 0 <= e < |pts| && Coord(pts[e], Y) == MaxOf(pts, Y);
      assert !InBounds(pts[a], bedW, bedH, margin) || !InBounds(pts[b], bedW, bedH, margin)
        || !InBounds(pts[c], bedW, bedH, margin) || !InBounds(pts[e], bedW, bedH, margin);
    }
    if exists i :: 0 <= i < |pts| && !InBounds(pts[i], bedW, bedH, margin) {
      var i :| 0 <= i < |pts| && !InBounds(pts[i], bedW, bedH, margin);
      assert MinOf(pts, X) <= Coord(pts[i], X) <= MaxOf(pts, X);
      assert MinOf(pts, Y) <= Coord(pts[i], Y) <= MaxOf(pts, Y);
    }
  }

  /** A centred drawing fits exactly when its width and height leave the
      margin on both sides. */
  lemma CenteredFitsIffSmallEnough(cut: seq<seq<Subpath>>, score: seq<seq<Subpath>>, bedW: real, bedH: real, margin: real)
    requires GroupPoints(cut + score) != []
    ensures var pts := GroupPoints(cut + score);
      var r := CenterPathsOnBed(cut, score, bedW, bedH);
      !FitFails(GroupPoints(r.0 + r.1), bedW, bedH, margin) <==>
        MaxOf(pts, X) - MinOf(pts, X) <= bedW - 2.0 * margin &&
        MaxOf(pts, Y) - MinOf(pts, Y) <= bedH - 2.0 * margin
  {
    CenteredBoundingBox(cut, score, bedW, bedH);
  }
}
