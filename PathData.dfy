/** The path-command walk of svg_parser.py (`_extract_path_data`): one
    path's absolute command list becomes a list of subpaths (polylines).
    `M` starts a new subpath, line commands append one point, curves append
    their flattening without its first point, arcs append five evenly spaced
    points of the straight segment to their end point, and `Z` closes the
    subpath by repeating its first point (leaving the pen where it was).
    Coordinates are divided by the unit scale. The walk is stated as a fold
    of `Step` over the commands (the specification) and as the loop the
    source runs (`ExtractPathData`). `StepClosed`/`RunClosed` is the same
    walk with the pen returned to the subpath's start on `Z`. */
module PathData {
  import opened Wrappers
  import opened Geometry
  import opened Bezier

  /** One absolute SVG path command with its parameters, in document units. */
  datatype Command =
    | MoveTo(x: real, y: real)
    | LineTo(x: real, y: real)
    | HorizontalTo(x: real)
    | VerticalTo(y: real)
    | CurveTo(x1: real, y1: real, x2: real, y2: real, x: real, y: real)
    | SmoothCurveTo(x2: real, y2: real, x: real, y: real)
    | QuadTo(x1: real, y1: real, x: real, y: real)
    | SmoothQuadTo(x: real, y: real)
    | ArcTo(rx: real, ry: real, rotation: real, largeArc: real, sweep: real, x: real, y: real)
    | ClosePath

  /** The walk's state: finished subpaths, the subpath being built, the pen
      position and the last curve control point (for smooth curves). */
  datatype Extraction = Extraction(subpaths: seq<Subpath>, current: Subpath, last: Point, lastCtrl: Option<Point>)

  /** Default curve-flattening tolerance of the extractor. */
  const DefaultFlatness: real := 0.1

  /** Number of interpolation steps for an arc. */
  const ArcSteps: nat := 5

  const Start: Extraction := Extraction([], [], Point(0.0, 0.0), None)

  /** The control point mirrored through the pen: the pen is the midpoint of
      the previous control point and the new one, so the tangent carries on
      smoothly across the joint. */
  function Reflect(ctrl: Point, last: Point): (r: Point)
    ensures Mid(ctrl, r) == last
  {
    Point(2.0 * last.x - ctrl.x, 2.0 * last.y - ctrl.y)
  }

  /** The first control point of a smooth curve: the reflection of the last
      control point if there is one, otherwise the pen itself. */
  function SmoothControl(st: Extraction): (p1: Point)
    ensures st.lastCtrl.Some? ==> Mid(st.lastCtrl.value, p1) == st.last
    ensures st.lastCtrl.None? ==> p1 == st.last
  {
    if st.lastCtrl.Some? then Reflect(st.lastCtrl.value, st.last) else st.last
  }

  /** The points an arc contributes: `from*(1-t) + to*t` for t = 1/5 .. 5/5. */
  function ArcPoints(from: Point, to: Point): (pts: seq<Point>)
    ensures |pts| == ArcSteps
  {
    seq(ArcSteps, i requires 0 <= i < ArcSteps => Lerp(from, to, (i + 1) as real / ArcSteps as real))
  }

  /** Appends drawn points to the current subpath and moves the pen. */
  function Draw(st: Extraction, pts: seq<Point>, last: Point, lastCtrl: Option<Point>): Extraction
  {
    Extraction(st.subpaths, st.current + pts, last, lastCtrl)
  }

  /** `Z` as the source writes it: the first point is repeated, but the pen
      and the control point stay where they were. */
  function CloseAsWritten(st: Extraction): (r: Extraction)
    ensures r.last == st.last && r.lastCtrl == st.lastCtrl && r.subpaths == st.subpaths
    ensures st.current != [] ==> r.current == st.current + [st.current[0]]
    ensures st.current == [] ==> r == st
  {
    if st.current != [] then st.(current := st.current + [st.current[0]]) else st
  }

  /** `Z` with the pen returned to the subpath's first point, where the
      closing segment ends (and no control point to reflect). */
  function Close(st: Extraction): (r: Extraction)
    ensures st.current != [] ==> r.current == st.current + [st.current[0]] && r.last == st.current[0]
    ensures st.current == [] ==> r == st
  {
    if st.current != [] then Extraction(st.subpaths, st.current + [st.current[0]], st.current[0], None) else st
  }

  /** Whether `flatten` has the shape of the curve flattener: it turns a
      cubic into a polyline of at least two points from p0 to p3. */
  ghost predicate IsFlattener(flatten: Cubic -> seq<Point>)
  {
    forall c :: |flatten(c)| >= 2 && flatten(c)[0] == c.p0 && flatten(c)[|flatten(c)| - 1] == c.p3
  }

  /** The extractor's flattener: `_flatten_cubic_bezier` with the given
      tolerance (quadratics reach it through `Elevate`, as
      `_flatten_quadratic_bezier` does). */
  function Flattener(flatness: real): (flatten: Cubic -> seq<Point>)
    ensures IsFlattener(flatten)
  {
    FlattenCubicIsFlattener(flatness, DepthLimit);
    c => FlattenCubic(c, flatness, DepthLimit)
  }

  lemma FlattenCubicIsFlattener(flatness: real, fuel: nat)
    ensures IsFlattener(c => FlattenCubic(c, flatness, fuel))
  {
  }

  /** One command applied to the state; coordinates are divided by `scale`
      and curves are flattened with `flatten`. */
  function Step(st: Extraction, cmd: Command, scale: real, flatten: Cubic -> seq<Point>): (r: Extraction)
    requires scale != 0.0 && IsFlattener(flatten)
    ensures cmd.MoveTo? ==> r.subpaths == Finish(st) && r.current == [r.last]
    ensures !cmd.MoveTo? ==> r.subpaths == st.subpaths && st.current <= r.current
  {
    match cmd
    case MoveTo(x, y) =>
      var p := Point(x / scale, y / scale);
      Extraction(if st.current != [] then st.subpaths + [st.current] else st.subpaths, [p], p, None)
    case LineTo(x, y) =>
      var p := Point(x / scale, y / scale);
      Draw(st, [p], p, None)
    case HorizontalTo(x) =>
      var p := Point(x / scale, st.last.y);
      Draw(st, [p], p, None)
    case VerticalTo(y) =>
      var p := Point(st.last.x, y / scale);
      Draw(st, [p], p, None)
    case CurveTo(_, _, x2, y2, x, y) =>
      Draw(st, CurvePoints(st, cmd, scale, flatten)[1..], Point(x / scale, y / scale), Some(Point(x2 / scale, y2 / scale)))
    case SmoothCurveTo(x2, y2, x, y) =>
      Draw(st, CurvePoints(st, cmd, scale, flatten)[1..], Point(x / scale, y / scale), Some(Point(x2 / scale, y2 / scale)))
    case QuadTo(x1, y1, x, y) =>
      Draw(st, CurvePoints(st, cmd, scale, flatten)[1..], Point(x / scale, y / scale), Some(Point(x1 / scale, y1 / scale)))
    case SmoothQuadTo(x, y) =>
      Draw(st, CurvePoints(st, cmd, scale, flatten)[1..], Point(x / scale, y / scale), Some(SmoothControl(st)))
    case ArcTo(_, _, _, _, _, x, y) =>
      var p := Point(x / scale, y / scale);
      Draw(st, ArcPoints(st.last, p), p, None)
    case ClosePath =>
      CloseAsWritten(st)
  }

  /** The state after the commands, folded from the left (written from the
      end so that a loop over the commands can name its prefix). */
  function Run(cmds: seq<Command>, scale: real, flatten: Cubic -> seq<Point>): Extraction
    requires scale != 0.0 && IsFlattener(flatten)
    decreases |cmds|
  {
    if cmds == [] then Start
    else Step(Run(cmds[..|cmds| - 1], scale, flatten), cmds[|cmds| - 1], scale, flatten)
  }

  /** The subpaths once the walk is over: the pending subpath, if any, is
      the last one. */
  function Finish(st: Extraction): seq<Subpath>
  {
    if st.current != [] then st.subpaths + [st.current] else st.subpaths
  }

  function Extract(cmds: seq<Command>, scale: real, flatten: Cubic -> seq<Point>): seq<Subpath>
    requires scale != 0.0 && IsFlattener(flatten)
  {
    Finish(Run(cmds, scale, flatten))
  }

  /** Running one more command is one more step. */
  lemma RunStep(cmds: seq<Command>, k: nat, scale: real, flatten: Cubic -> seq<Point>)
    requires scale != 0.0 && IsFlattener(flatten) && k < |cmds|
    ensures Run(cmds[..k + 1], scale, flatten) == Step(Run(cmds[..k], scale, flatten), cmds[k], scale, flatten)
  {
    assert cmds[..k + 1][..k] == cmds[..k];
  }

  /** The body of the source's loop: one command applied to the walk's
      variables (the subpaths so far, the current subpath, the pen and the
      last control point). */
  method ApplyCommand(st: Extraction, cmd: Command, scale: real, flatten: Cubic -> seq<Point>)
    returns (subpaths: seq<Subpath>, current: Subpath, last: Point, lastCtrl: Option<Point>)
    requires scale != 0.0 && IsFlattener(flatten)
    ensures Extraction(subpaths, current, last, lastCtrl) == Step(st, cmd, scale, flatten)
  {
    subpaths, current, last, lastCtrl := st.subpaths, st.current, st.last, st.lastCtrl;
    match cmd
    case MoveTo(x, y) =>
      if current != [] {
        subpaths := subpaths + [current];
      }
      last := Point(x / scale, y / scale);
      current := [last];
      lastCtrl := None;
    case LineTo(x, y) =>
      var pt := Point(x / scale, y / scale);
      current := current + [pt];
      last := pt;
      lastCtrl := None;
    case HorizontalTo(x) =>
      var pt := Point(x / scale, last.y);
      current := current + [pt];
      last := pt;
      lastCtrl := None;
    case VerticalTo(y) =>
      var pt := Point(last.x, y / scale);
      current := current + [pt];
      last := pt;
      lastCtrl := None;
    case CurveTo(x1, y1, x2, y2, x, y) =>
      var p1, p2, p3 := Point(x1 / scale, y1 / scale), Point(x2 / scale, y2 / scale), Point(x / scale, y / scale);
      var pts := flatten(Cubic(last, p1, p2, p3));
      current := current + pts[1..];
      last := p3;
      lastCtrl := Some(p2);
    case SmoothCurveTo(x2, y2, x, y) =>
      var p1 := last;
      if lastCtrl.Some? {
        p1 := Point(2.0 * last.x - lastCtrl.value.x, 2.0 * last.y - lastCtrl.value.y);
      }
      var p2, p3 := Point(x2 / scale, y2 / scale), Point(x / scale, y / scale);
      var pts := flatten(Cubic(last, p1, p2, p3));
      current := current + pts[1..];
      last := p3;
      lastCtrl := Some(p2);
    case QuadTo(x1, y1, x, y) =>
      var p1, p2 := Point(x1 / scale, y1 / scale), Point(x / scale, y / scale);
      var pts := flatten(Elevate(last, p1, p2));
      current := current + pts[1..];
      last := p2;
      lastCtrl := Some(p1);
    case SmoothQuadTo(x, y) =>
      var p1 := last;
      if lastCtrl.Some? {
        p1 := Point(2.0 * last.x - lastCtrl.value.x, 2.0 * last.y - lastCtrl.value.y);
      }
      var p2 := Point(x / scale, y / scale);
      var pts := flatten(Elevate(last, p1, p2));
      current := current + pts[1..];
      last := p2;
      lastCtrl := Some(p1);
    case ArcTo(_, _, _, _, _, x, y) =>
      var end := Point(x / scale, y / scale);
      ghost var before := current;
      for i := 1 to ArcSteps + 1
        invariant current == before + ArcPoints(last, end)[..i - 1]
      {
        var t := i as real / ArcSteps as real;
        current := current + [Lerp(last, end, t)];
      }
      last := end;
      lastCtrl := None;
    case ClosePath =>
      if current != [] {
        current := current + [current[0]];
      }
  }

  /** `_extract_path_data`, as the loop the source runs; `flatten` is the
      curve flattener it calls. */
  method ExtractPathData(cmds: seq<Command>, scale: real, flatten: Cubic -> seq<Point>) returns (subpaths: seq<Subpath>)
    requires scale != 0.0 && IsFlattener(flatten)
    ensures subpaths == Extract(cmds, scale, flatten)
  {
    subpaths := [];
    var current: Subpath := [];
    var last := Point(0.0, 0.0);
    var lastCtrl: Option<Point> := None;
    for k := 0 to |cmds|
      invariant Extraction(subpaths, current, last, lastCtrl) == Run(cmds[..k], scale, flatten)
    {
      RunStep(cmds, k, scale, flatten);
      subpaths, current, last, lastCtrl := ApplyCommand(Extraction(subpaths, current, last, lastCtrl), cmds[k], scale, flatten);
    }
    assert cmds[..|cmds|] == cmds;
    if current != [] {
      subpaths := subpaths + [current];
    }
  }

  /** Consecutive arc parameters i/5 and (i+1)/5 are a fifth of the
      segment apart. */
  lemma LerpFifthGap(a: Point, b: Point, i: nat)
    ensures Lerp(a, b, (i + 1) as real / ArcSteps as real).x - Lerp(a, b, i as real / ArcSteps as real).x == (b.x - a.x) / 5.0
    ensures Lerp(a, b, (i + 1) as real / ArcSteps as real).y - Lerp(a, b, i as real / ArcSteps as real).y == (b.y - a.y) / 5.0
  {
  }

  /** The arc's points are evenly spaced along the straight segment to its
      end point: each one lies a fifth of the way further than the one
      before (the first a fifth of the way from the pen), and the last one
      is the end point itself. */
  lemma ArcPointsEvenlySpaced(from: Point, to: Point)
    ensures var pts := ArcPoints(from, to);
            pts[ArcSteps - 1] == to &&
            forall i :: 0 <= i < ArcSteps ==>
              var prev := if i == 0 then from else pts[i - 1];
              pts[i].x - prev.x == (to.x - from.x) / 5.0 && pts[i].y - prev.y == (to.y - from.y) / 5.0
  {
    var pts := ArcPoints(from, to);
    forall i | 0 <= i < ArcSteps
      ensures var prev := if i == 0 then from else pts[i - 1];
              pts[i].x - prev.x == (to.x - from.x) / 5.0 && pts[i].y - prev.y == (to.y - from.y) / 5.0
    {
      LerpFifthGap(from, to, i);
      assert Lerp(from, to, 0 as real / ArcSteps as real) == from;
    }
    assert pts[ArcSteps - 1] == Lerp(from, to, 1.0);
  }

  /** The scaled points of the move commands, in order. */
  function MovePoints(cmds: seq<Command>, scale: real): seq<Point>
    requires scale != 0.0
    decreases |cmds|
  {
    if cmds == [] then []
    else
      var cmd := cmds[|cmds| - 1];
      MovePoints(cmds[..|cmds| - 1], scale) + if cmd.MoveTo? then [Point(cmd.x / scale, cmd.y / scale)] else []
  }

  /** Every finished subpath is non-empty. */
  lemma {:induction false} FinishedSubpathsNonEmpty(cmds: seq<Command>, scale: real, flatten: Cubic -> seq<Point>)
    requires scale != 0.0 && IsFlattener(flatten)
    ensures forall j :: 0 <= j < |Run(cmds, scale, flatten).subpaths| ==> Run(cmds, scale, flatten).subpaths[j] != []
    decreases |cmds|
  {
    if cmds != [] {
      FinishedSubpathsNonEmpty(cmds[..|cmds| - 1], scale, flatten);
    }
  }

  /** The extractor never emits an empty subpath. */
  lemma ExtractedSubpathsNonEmpty(cmds: seq<Command>, scale: real, flatten: Cubic -> seq<Point>)
    requires scale != 0.0 && IsFlattener(flatten)
    ensures forall j :: 0 <= j < |Extract(cmds, scale, flatten)| ==> |Extract(cmds, scale, flatten)[j]| > 0
  {
    FinishedSubpathsNonEmpty(cmds, scale, flatten);
  }

  /** Whether the walk has one subpath (finished or pending) per move so far,
      each starting at its move's point. */
  predicate TracksMoves(st: Extraction, moves: seq<Point>)
  {
    st.current != [] && |st.subpaths| + 1 == |moves| &&
    (forall j :: 0 <= j < |st.subpaths| ==> st.subpaths[j] != [] && st.subpaths[j][0] == moves[j]) &&
    st.current[0] == moves[|moves| - 1]
  }

  lemma {:induction false} RunTracksMoves(cmds: seq<Command>, scale: real, flatten: Cubic -> seq<Point>)
    requires scale != 0.0 && IsFlattener(flatten)
    requires cmds != [] && cmds[0].MoveTo?
    ensures TracksMoves(Run(cmds, scale, flatten), MovePoints(cmds, scale))
    decreases |cmds|
  {
    var prefix, cmd := cmds[..|cmds| - 1], cmds[|cmds| - 1];
    if prefix == [] {
      assert MovePoints(cmds, scale) == MovePoints(prefix, scale) + [Point(cmds[0].x / scale, cmds[0].y / scale)];
    } else {
      assert prefix[0] == cmds[0];
      RunTracksMoves(prefix, scale, flatten);
      TracksMovesStep(Run(prefix, scale, flatten), MovePoints(prefix, scale), cmd, scale, flatten);
    }
  }

  /** One command keeps the walk tracking the moves, a move adding its own
      point. */
  lemma TracksMovesStep(st: Extraction, moves: seq<Point>, cmd: Command, scale: real, flatten: Cubic -> seq<Point>)
    requires scale != 0.0 && IsFlattener(flatten)
    requires TracksMoves(st, moves)
    ensures TracksMoves(Step(st, cmd, scale, flatten), moves + if cmd.MoveTo? then [Point(cmd.x / scale, cmd.y / scale)] else [])
  {
    if !cmd.MoveTo? {
      assert moves + [] == moves;
    }
  }

  /** For a command list that starts with a move (as every SVG path does),
      the extractor emits exactly one subpath per move command, and subpath j
      starts at the point of the j-th move. */
  lemma SubpathsStartAtMoves(cmds: seq<Command>, scale: real, flatten: Cubic -> seq<Point>)
    requires scale != 0.0 && IsFlattener(flatten)
    requires cmds != [] && cmds[0].MoveTo?
    ensures var subpaths, moves := Extract(cmds, scale, flatten), MovePoints(cmds, scale);
            |subpaths| == |moves| &&
            forall j :: 0 <= j < |subpaths| ==> |subpaths[j]| > 0 && subpaths[j][0] == moves[j]
  {
    RunTracksMoves(cmds, scale, flatten);
  }

  /** Whether the subpath being built ends where the pen is. */
  predicate PenAtEnd(st: Extraction)
  {
    st.current == [] || st.current[|st.current| - 1] == st.last
  }

  /** The walk with the corrected `Z` (`Close`): every other command is
      the source's `Step`. */
  function StepClosed(st: Extraction, cmd: Command, scale: real, flatten: Cubic -> seq<Point>): (r: Extraction)
    requires scale != 0.0 && IsFlattener(flatten)
    ensures !cmd.ClosePath? ==> r == Step(st, cmd, scale, flatten)
    ensures cmd.ClosePath? ==> r.current == CloseAsWritten(st).current && r.subpaths == st.subpaths
  {
    if cmd.ClosePath? then Close(st) else Step(st, cmd, scale, flatten)
  }

  function RunClosed(cmds: seq<Command>, scale: real, flatten: Cubic -> seq<Point>): Extraction
    requires scale != 0.0 && IsFlattener(flatten)
    decreases |cmds|
  {
    if cmds == [] then Start
    else StepClosed(RunClosed(cmds[..|cmds| - 1], scale, flatten), cmds[|cmds| - 1], scale, flatten)
  }

  /** One corrected step, from any state, leaves the subpath being built
      ending at the pen: a move starts it there, every drawing command
      appends points ending at its end point, and `Close` returns the pen to
      the repeated first point. */
  lemma StepKeepsPenAtEnd(st: Extraction, cmd: Command, scale: real, flatten: Cubic -> seq<Point>)
    requires scale != 0.0 && IsFlattener(flatten)
    ensures PenAtEnd(StepClosed(st, cmd, scale, flatten))
  {
    if cmd.ArcTo? {
      ArcPointsEvenlySpaced(st.last, Point(cmd.x / scale, cmd.y / scale));
    }
  }

  /** Throughout the corrected walk, the subpath being built ends at the
      pen position, so the next command's first segment starts where the
      polyline is. As every step re-establishes this on its own, the last
      step decides it. */
  lemma PolylineEndsAtPen(cmds: seq<Command>, scale: real, flatten: Cubic -> seq<Point>)
    requires scale != 0.0 && IsFlattener(flatten)
    ensures PenAtEnd(RunClosed(cmds, scale, flatten))
  {
    if cmds != [] {
      StepKeepsPenAtEnd(RunClosed(cmds[..|cmds| - 1], scale, flatten), cmds[|cmds| - 1], scale, flatten);
    }
  }

  /** With `Z` as the source writes it, the pen stays at the last drawn
      point while the polyline has returned to the first one: after
      `M 0 0  L 10 10  Z` the pen is still at (10, 10), and a following arc
      to (5, 0) is interpolated from there, its first point (9, 8), where
      the SVG path continues from the start point and the corrected `Close`
      gives (1, 0). */
  lemma CloseAsWrittenLeavesPenBehind()
    ensures var flatten := Flattener(DefaultFlatness);
            var drawn := Step(Step(Start, MoveTo(0.0, 0.0), 1.0, flatten), LineTo(10.0, 10.0), 1.0, flatten);
            var asWritten := CloseAsWritten(drawn);
            var corrected := Close(drawn);
            var arc := ArcTo(1.0, 1.0, 0.0, 0.0, 1.0, 5.0, 0.0);
            asWritten.current == [Point(0.0, 0.0), Point(10.0, 10.0), Point(0.0, 0.0)] &&
            !PenAtEnd(asWritten) &&
            Step(asWritten, arc, 1.0, flatten).current[3] == Point(9.0, 8.0) &&
            StepClosed(corrected, arc, 1.0, flatten).current[3] == Point(1.0, 0.0)
  {
    assert ArcPoints(Point(10.0, 10.0), Point(5.0, 0.0))[0] == Point(9.0, 8.0);
    assert ArcPoints(Point(0.0, 0.0), Point(5.0, 0.0))[0] == Point(1.0, 0.0);
  }

  /** The same input through the whole extractor:
      `M 0 0 L 10 10 Z A 1 1 0 0 1 5 0` at scale 1 gives one subpath whose
      arc runs from (10, 10) as the source is written, and from (0, 0), the
      subpath's start, with the corrected close; any flattener will do, as
      no curve is drawn. */
  lemma ExtractAsWrittenLeavesPenBehind(flatten: Cubic -> seq<Point>)
    requires IsFlattener(flatten)
    ensures var cmds := [MoveTo(0.0, 0.0), LineTo(10.0, 10.0), ClosePath, ArcTo(1.0, 1.0, 0.0, 0.0, 1.0, 5.0, 0.0)];
            var closed := [Point(0.0, 0.0), Point(10.0, 10.0), Point(0.0, 0.0)];
            Extract(cmds, 1.0, flatten) ==
              [closed + [Point(9.0, 8.0), Point(8.0, 6.0), Point(7.0, 4.0), Point(6.0, 2.0), Point(5.0, 0.0)]] &&
            Finish(RunClosed(cmds, 1.0, flatten)) ==
              [closed + [Point(1.0, 0.0), Point(2.0, 0.0), Point(3.0, 0.0), Point(4.0, 0.0), Point(5.0, 0.0)]]
  {
    var cmds := [MoveTo(0.0, 0.0), LineTo(10.0, 10.0), ClosePath, ArcTo(1.0, 1.0, 0.0, 0.0, 1.0, 5.0, 0.0)];
    assert cmds[..3] == [MoveTo(0.0, 0.0), LineTo(10.0, 10.0), ClosePath];
    assert cmds[..3][..2] == [MoveTo(0.0, 0.0), LineTo(10.0, 10.0)];
    assert cmds[..3][..2][..1] == [MoveTo(0.0, 0.0)];
    var o, a, e := Point(0.0, 0.0), Point(10.0, 10.0), Point(5.0, 0.0);
    var moved := Extraction([], [o], o, None);
    var drawn := Extraction([], [o, a], a, None);
    var fromPen := [Point(9.0, 8.0), Point(8.0, 6.0), Point(7.0, 4.0), Point(6.0, 2.0), e];
    var fromStart := [Point(1.0, 0.0), Point(2.0, 0.0), Point(3.0, 0.0), Point(4.0, 0.0), e];
    assert ArcPoints(a, e) == fromPen;
    assert ArcPoints(o, e) == fromStart;
    assert Run(cmds[..3][..2][..1], 1.0, flatten) == moved;
    assert Run(cmds[..3][..2], 1.0, flatten) == drawn;
    assert Run(cmds[..3], 1.0, flatten) == Extraction([], [o, a, o], a, None);
    assert Run(cmds, 1.0, flatten) == Extraction([], [o, a, o] + fromPen, e, None);
    assert RunClosed(cmds[..3][..2][..1], 1.0, flatten) == moved;
    assert RunClosed(cmds[..3][..2], 1.0, flatten) == drawn;
    assert RunClosed(cmds[..3], 1.0, flatten) == Extraction([], [o, a, o], o, None);
    assert RunClosed(cmds, 1.0, flatten) == Extraction([], [o, a, o] + fromStart, e, None);
  }

  /** Moves, lines and arcs: the pen moves to the command's scaled end
      point (H keeps the pen's y, V its x); a move files the pending subpath
      and starts a new one at the pen; L, H and V append exactly that one
      point; an arc appends the evenly spaced points from the old pen to its
      end point. None of them leaves a control point to reflect. */
  lemma PointCommandEffects(st: Extraction, cmd: Command, scale: real, flatten: Cubic -> seq<Point>)
    requires scale != 0.0 && IsFlattener(flatten)
    requires cmd.MoveTo? || cmd.LineTo? || cmd.HorizontalTo? || cmd.VerticalTo? || cmd.ArcTo?
    ensures var r := Step(st, cmd, scale, flatten);
      r.lastCtrl.None? &&
      (cmd.MoveTo? || cmd.LineTo? || cmd.ArcTo? ==> r.last == Point(cmd.x / scale, cmd.y / scale)) &&
      (cmd.MoveTo? ==> r.subpaths == Finish(st) && r.current == [r.last]) &&
      (!cmd.MoveTo? ==> r.subpaths == st.subpaths) &&
      (cmd.LineTo? || cmd.HorizontalTo? || cmd.VerticalTo? ==> r.current == st.current + [r.last]) &&
      (cmd.HorizontalTo? ==> r.last == Point(cmd.x / scale, st.last.y)) &&
      (cmd.VerticalTo? ==> r.last == Point(st.last.x, cmd.y / scale)) &&
      (cmd.ArcTo? ==> r.current == st.current + ArcPoints(st.last, r.last) && r.current[|r.current| - 1] == r.last)
  {
    if cmd.ArcTo? {
      ArcPointsEvenlySpaced(st.last, Point(cmd.x / scale, cmd.y / scale));
    }
  }

  /** Curves, from any state: the flattened curve from the pen is appended
      without its first point, the pen moves to the curve's end point, where
      the subpath now ends, and the control point kept for smooth
      continuation is the second control point of a cubic and the control
      point of a quadratic. When the subpath ended at the pen, this splices
      the whole flattened curve on, its first point shared with the
      subpath's end. */
  lemma CurveCommandEffects(st: Extraction, cmd: Command, scale: real, flatten: Cubic -> seq<Point>)
    requires scale != 0.0 && IsFlattener(flatten)
    ensures var r := Step(st, cmd, scale, flatten);
      (cmd.CurveTo? || cmd.SmoothCurveTo? || cmd.QuadTo? || cmd.SmoothQuadTo? ==>
        r.subpaths == st.subpaths && r.last == Point(cmd.x / scale, cmd.y / scale) &&
        r.current != [] && r.current[|r.current| - 1] == r.last)
    ensures var r := Step(st, cmd, scale, flatten);
      (cmd.CurveTo? ==>
        r.current == st.current + CurvePoints(st, cmd, scale, flatten)[1..] &&
        r.lastCtrl == Some(Point(cmd.x2 / scale, cmd.y2 / scale))) &&
      (cmd.SmoothCurveTo? ==>
        r.current == st.current + CurvePoints(st, cmd, scale, flatten)[1..] &&
        r.lastCtrl == Some(Point(cmd.x2 / scale, cmd.y2 / scale))) &&
      (cmd.QuadTo? ==>
        r.current == st.current + CurvePoints(st, cmd, scale, flatten)[1..] &&
        r.lastCtrl == Some(Point(cmd.x1 / scale, cmd.y1 / scale))) &&
      (cmd.SmoothQuadTo? ==>
        r.current == st.current + CurvePoints(st, cmd, scale, flatten)[1..] &&
        r.lastCtrl == Some(SmoothControl(st)))
    ensures var r := Step(st, cmd, scale, flatten);
      (cmd.CurveTo? || cmd.SmoothCurveTo? || cmd.QuadTo? || cmd.SmoothQuadTo?) && st.current != [] && PenAtEnd(st) ==>
        r.current == st.current[..|st.current| - 1] + CurvePoints(st, cmd, scale, flatten)
  {
    if cmd.CurveTo? || cmd.SmoothCurveTo? || cmd.QuadTo? || cmd.SmoothQuadTo? {
      var pts := CurvePoints(st, cmd, scale, flatten);
      assert pts[1..][|pts| - 2] == pts[|pts| - 1];
      if st.current != [] && PenAtEnd(st) {
        SpliceAtPen(st.current, pts);
      }
    }
  }

  /** The flattened polyline of a curve command drawn from the pen: the
      cubic as given, with its first control point reflected for `S`, or
      the quadratic raised to a cubic for `Q` and `T`. */
  function CurvePoints(st: Extraction, cmd: Command, scale: real, flatten: Cubic -> seq<Point>): (pts: seq<Point>)
    requires scale != 0.0 && IsFlattener(flatten)
    requires cmd.CurveTo? || cmd.SmoothCurveTo? || cmd.QuadTo? || cmd.SmoothQuadTo?
    ensures |pts| >= 2 && pts[0] == st.last && pts[|pts| - 1] == Point(cmd.x / scale, cmd.y / scale)
  {
    match cmd
    case CurveTo(x1, y1, x2, y2, x, y) =>
      flatten(Cubic(st.last, Point(x1 / scale, y1 / scale), Point(x2 / scale, y2 / scale), Point(x / scale, y / scale)))
    case SmoothCurveTo(x2, y2, x, y) =>
      flatten(Cubic(st.last, SmoothControl(st), Point(x2 / scale, y2 / scale), Point(x / scale, y / scale)))
    case QuadTo(x1, y1, x, y) =>
      flatten(Elevate(st.last, Point(x1 / scale, y1 / scale), Point(x / scale, y / scale)))
    case SmoothQuadTo(x, y) =>
      flatten(Elevate(st.last, SmoothControl(st), Point(x / scale, y / scale)))
  }

  /** Appending a polyline without its first point to a subpath that ends
      at that point is replacing the subpath's last point by the polyline. */
  lemma SpliceAtPen(current: Subpath, pts: seq<Point>)
    requires current != [] && pts != [] && pts[0] == current[|current| - 1]
    ensures current + pts[1..] == current[..|current| - 1] + pts
  {
    assert current == current[..|current| - 1] + [pts[0]];
    assert pts == [pts[0]] + pts[1..];
  }
}
