/** The curve flattener of svg_parser.py (`_flatten_cubic_bezier` with its
    nested `recursive`, and `_flatten_quadratic_bezier`): recursive de Casteljau
    subdivision at t = 1/2 until both interior control points lie closer than
    `flatness` to the chord. The recursion carries a depth budget (fuel): when
    it runs out, the segment is accepted as it is. The subdivision itself is
    stated for any acceptance test, so that its structural properties are
    proved once, apart from the flatness arithmetic. */
module Bezier {
  import opened Geometry

  datatype Cubic = Cubic(p0: Point, p1: Point, p2: Point, p3: Point)

  /** Python's recursion limit bounds the source's subdivision depth; the
      model gives the flattener the same order of budget. */
  const DepthLimit: nat := 900

  function Mid(a: Point, b: Point): Point
  {
    Point((a.x + b.x) / 2.0, (a.y + b.y) / 2.0)
  }

  function Max(u: real, v: real): real
  {
    if u >= v then u else v
  }

  /** The flatness test: both interior control points are closer than
      `flatness` to the segment p0-p3 (squared distances against `flatness**2`). */
  predicate IsFlat(c: Cubic, flatness: real)
    ensures IsFlat(c, flatness) <==>
      PointLineDist2(c.p1, c.p0, c.p3) < Sq(flatness) && PointLineDist2(c.p2, c.p0, c.p3) < Sq(flatness)
    ensures IsFlat(c, flatness) ==> flatness != 0.0
  {
    Max(PointLineDist2(c.p1, c.p0, c.p3), PointLineDist2(c.p2, c.p0, c.p3)) < Sq(flatness)
  }

  /** De Casteljau subdivision at t = 1/2 into a left and a right half that
      share the point p0123. */
  function Split(c: Cubic): (halves: (Cubic, Cubic))
    ensures halves.0.p0 == c.p0 && halves.1.p3 == c.p3
    ensures halves.0.p3 == halves.1.p0
  {
    var p01 := Mid(c.p0, c.p1);
    var p12 := Mid(c.p1, c.p2);
    var p23 := Mid(c.p2, c.p3);
    var p012 := Mid(p01, p12);
    var p123 := Mid(p12, p23);
    var p0123 := Mid(p012, p123);
    (Cubic(c.p0, p01, p012, p0123), Cubic(p0123, p123, p23, c.p3))
  }

  /** One coordinate of a cubic Bezier curve at parameter t (Bernstein form). */
  function Bernstein(a: real, b: real, c: real, d: real, t: real): real
  {
    var s := 1.0 - t;
    s * s * s * a + 3.0 * s * s * t * b + 3.0 * s * t * t * c + t * t * t * d
  }

  /** The point of the curve at parameter t. */
  function At(c: Cubic, t: real): (p: Point)
    ensures t == 0.0 ==> p == c.p0
    ensures t == 1.0 ==> p == c.p3
  {
    Point(Bernstein(c.p0.x, c.p1.x, c.p2.x, c.p3.x, t), Bernstein(c.p0.y, c.p1.y, c.p2.y, c.p3.y, t))
  }

  /** A cubic traced backwards is the cubic with reversed control points. */
  lemma BernsteinReverse(a: real, b: real, c: real, d: real, t: real)
    ensures Bernstein(a, b, c, d, t) == Bernstein(d, c, b, a, 1.0 - t)
  {
  }

  lemma BernsteinLeftHalf(a: real, b: real, c: real, d: real, u: real)
    ensures Bernstein(a, (a + b) / 2.0, ((a + b) / 2.0 + (b + c) / 2.0) / 2.0,
                      (((a + b) / 2.0 + (b + c) / 2.0) / 2.0 + ((b + c) / 2.0 + (c + d) / 2.0) / 2.0) / 2.0, u)
            == Bernstein(a, b, c, d, u / 2.0)
  {
  }

  lemma BernsteinRightHalf(a: real, b: real, c: real, d: real, u: real)
    ensures Bernstein((((a + b) / 2.0 + (b + c) / 2.0) / 2.0 + ((b + c) / 2.0 + (c + d) / 2.0) / 2.0) / 2.0,
                      ((b + c) / 2.0 + (c + d) / 2.0) / 2.0, (c + d) / 2.0, d, u)
            == Bernstein(a, b, c, d, (1.0 + u) / 2.0)
  {
    var m := (((a + b) / 2.0 + (b + c) / 2.0) / 2.0 + ((b + c) / 2.0 + (c + d) / 2.0) / 2.0) / 2.0;
    assert m == (((d + c) / 2.0 + (c + b) / 2.0) / 2.0 + ((c + b) / 2.0 + (b + a) / 2.0) / 2.0) / 2.0;
    BernsteinReverse(m, ((b + c) / 2.0 + (c + d) / 2.0) / 2.0, (c + d) / 2.0, d, u);
    BernsteinLeftHalf(d, c, b, a, 1.0 - u);
    BernsteinReverse(a, b, c, d, (1.0 + u) / 2.0);
    assert 1.0 - (1.0 + u) / 2.0 == (1.0 - u) / 2.0;
  }

  /** The two halves of a split are exactly the curve on [0, 1/2] and on
      [1/2, 1], each reparametrised to [0, 1]. */
  lemma SplitHalvesTraceCurve(c: Cubic, u: real)
    ensures At(Split(c).0, u) == At(c, u / 2.0)
    ensures At(Split(c).1, u) == At(c, (1.0 + u) / 2.0)
  {
    BernsteinLeftHalf(c.p0.x, c.p1.x, c.p2.x, c.p3.x, u);
    BernsteinLeftHalf(c.p0.y, c.p1.y, c.p2.y, c.p3.y, u);
    BernsteinRightHalf(c.p0.x, c.p1.x, c.p2.x, c.p3.x, u);
    BernsteinRightHalf(c.p0.y, c.p1.y, c.p2.y, c.p3.y, u);
  }

  /** The nested `recursive` of `_flatten_cubic_bezier`: a segment that
      passes the acceptance test (or is reached with no depth left) is emitted
      as its chord; otherwise it is split in half, both halves are flattened,
      and the left polyline's last point (the shared midpoint) is dropped
      before the right one is appended. The result always runs from the
      segment's start point to its end point. */
  function Subdivide(c: Cubic, accept: Cubic -> bool, depth: nat): (r: seq<Point>)
    ensures |r| >= 2
    ensures r[0] == c.p0 && r[|r| - 1] == c.p3
    decreases depth
  {
    if depth == 0 || accept(c) then [c.p0, c.p3]
    else
      var halves := Split(c);
      var left := Subdivide(halves.0, accept, depth - 1);
      var right := Subdivide(halves.1, accept, depth - 1);
      left[..|left| - 1] + right
  }

  /** `_flatten_cubic_bezier`: subdivision with the flatness test. */
  function FlattenCubic(c: Cubic, flatness: real, fuel: nat): (r: seq<Point>)
    ensures |r| >= 2
    ensures r[0] == c.p0 && r[|r| - 1] == c.p3
  {
    Subdivide(c, h => IsFlat(h, flatness), fuel)
  }

  /** One step of `Subdivide` on a segment that is split. */
  lemma SubdivideOfHalves(c: Cubic, accept: Cubic -> bool, depth: nat)
    requires depth > 0 && !accept(c)
    ensures var left := Subdivide(Split(c).0, accept, depth - 1);
            Subdivide(c, accept, depth) == left[..|left| - 1] + Subdivide(Split(c).1, accept, depth - 1)
  {
  }

  /** The sub-curves the subdivision accepted, in order along the curve; each
      one starts where the previous one ends. */
  function Pieces(c: Cubic, accept: Cubic -> bool, depth: nat): (ps: seq<Cubic>)
    ensures |ps| >= 1
    ensures ps[0].p0 == c.p0 && ps[|ps| - 1].p3 == c.p3
    ensures forall i :: 0 <= i < |ps| - 1 ==> ps[i].p3 == ps[i + 1].p0
    decreases depth
  {
    if depth == 0 || accept(c) then [c]
    else
      var halves := Split(c);
      Pieces(halves.0, accept, depth - 1) + Pieces(halves.1, accept, depth - 1)
  }

  /** Whether the subdivision runs out of depth on a segment that still fails
      the test (the only way a piece that fails the test is emitted). */
  predicate ExhaustsDepth(c: Cubic, accept: Cubic -> bool, depth: nat)
    decreases depth
  {
    !accept(c) &&
    (depth == 0 ||
     ExhaustsDepth(Split(c).0, accept, depth - 1) ||
     ExhaustsDepth(Split(c).1, accept, depth - 1))
  }

  /** Whether polyline r is the chain of chords of the pieces ps. */
  predicate ChordsOf(r: seq<Point>, ps: seq<Cubic>)
  {
    |r| == |ps| + 1 &&
    forall i :: 0 <= i < |ps| ==> r[i] == ps[i].p0 && r[i + 1] == ps[i].p3
  }

  /** Joining two chord chains at their shared point (dropping the left
      chain's last point) gives the chord chain of the joined pieces. */
  lemma ChordsOfConcatenation(left: seq<Point>, right: seq<Point>, lp: seq<Cubic>, rp: seq<Cubic>)
    requires ChordsOf(left, lp) && ChordsOf(right, rp) && |lp| >= 1 && |rp| >= 1
    requires lp[|lp| - 1].p3 == rp[0].p0
    ensures ChordsOf(left[..|left| - 1] + right, lp + rp)
  {
    var r := left[..|left| - 1] + right;
    var ps := lp + rp;
    forall i | 0 <= i < |ps|
      ensures r[i] == ps[i].p0 && r[i + 1] == ps[i].p3
    {
      if i < |lp| {
        assert r[i] == left[i];
        if i + 1 < |lp| {
          assert r[i + 1] == left[i + 1];
        } else {
          assert r[i + 1] == right[0];
        }
      } else {
        assert r[i] == right[i - |lp|];
        assert r[i + 1] == right[i + 1 - |lp|];
      }
    }
  }

  /** The flattened polyline is exactly the chain of chords of the accepted
      pieces: point i and point i+1 are the end points of piece i, so the
      shared midpoint of every split appears exactly once. */
  lemma {:induction false} SubdivideIsChordsOfPieces(c: Cubic, accept: Cubic -> bool, depth: nat)
    ensures ChordsOf(Subdivide(c, accept, depth), Pieces(c, accept, depth))
    decreases depth
  {
    if depth == 0 || accept(c) {
    } else {
      var halves := Split(c);
      SubdivideIsChordsOfPieces(halves.0, accept, depth - 1);
      SubdivideIsChordsOfPieces(halves.1, accept, depth - 1);
      ChordsOfConcatenation(Subdivide(halves.0, accept, depth - 1), Subdivide(halves.1, accept, depth - 1),
                            Pieces(halves.0, accept, depth - 1), Pieces(halves.1, accept, depth - 1));
    }
  }

  /** Unless the depth runs out, every accepted piece passes the test. */
  lemma {:induction false} PiecesPassTest(c: Cubic, accept: Cubic -> bool, depth: nat)
    requires !ExhaustsDepth(c, accept, depth)
    ensures forall i :: 0 <= i < |Pieces(c, accept, depth)| ==> accept(Pieces(c, accept, depth)[i])
    decreases depth
  {
    if depth == 0 || accept(c) {
    } else {
      var halves := Split(c);
      PiecesPassTest(halves.0, accept, depth - 1);
      PiecesPassTest(halves.1, accept, depth - 1);
    }
  }

  /** A depth the subdivision never exhausts gives the same polyline as any
      larger depth: the bound changes nothing about such curves. */
  lemma {:induction false} LargerDepthSameResult(c: Cubic, accept: Cubic -> bool, depth: nat, more: nat)
    requires !ExhaustsDepth(c, accept, depth) && depth <= more
    ensures Subdivide(c, accept, more) == Subdivide(c, accept, depth)
    decreases depth
  {
    if !accept(c) {
      LargerDepthSameResult(Split(c).0, accept, depth - 1, more - 1);
      LargerDepthSameResult(Split(c).1, accept, depth - 1, more - 1);
      SubdivideOfHalves(c, accept, depth);
      SubdivideOfHalves(c, accept, more);
    }
  }

  /** The flattening of a curve is a chain of chords, each the chord of a
      sub-curve whose interior control points lie closer than `flatness` to
      it, unless the depth budget ran out first. */
  lemma FlattenCubicIsFlatChords(c: Cubic, flatness: real, fuel: nat)
    ensures var ps := Pieces(c, h => IsFlat(h, flatness), fuel);
            ChordsOf(FlattenCubic(c, flatness, fuel), ps) &&
            (!ExhaustsDepth(c, h => IsFlat(h, flatness), fuel) ==> forall i :: 0 <= i < |ps| ==> IsFlat(ps[i], flatness))
  {
    var accept := h => IsFlat(h, flatness);
    SubdivideIsChordsOfPieces(c, accept, fuel);
    if !ExhaustsDepth(c, accept, fuel) {
      PiecesPassTest(c, accept, fuel);
    }
  }

  /** A curve whose interior control points both lie closer than the
      flatness to its chord flattens to the chord alone. */
  lemma FlatCurveIsChord(c: Cubic, flatness: real, fuel: nat)
    requires PointLineDist2(c.p1, c.p0, c.p3) < Sq(flatness) && PointLineDist2(c.p2, c.p0, c.p3) < Sq(flatness)
    ensures FlattenCubic(c, flatness, fuel) == [c.p0, c.p3]
  {
  }

  /** A curve whose four control points coincide flattens to two identical
      points (for any non-zero flatness). */
  lemma FlattenDegenerate(p: Point, flatness: real, fuel: nat)
    requires flatness != 0.0
    ensures FlattenCubic(Cubic(p, p, p, p), flatness, fuel) == [p, p]
  {
    Dist2ZeroIffEqual(p, p);
    SqPositive(flatness);
    assert IsFlat(Cubic(p, p, p, p), flatness);
  }

  /** The shape of a subdivision: which segments were accepted as chords
      and which were split in half. */
  datatype Shape = Chord | Halves(left: Shape, right: Shape)

  /** The shape of the recursion `Subdivide` performs. */
  function ShapeOf(c: Cubic, accept: Cubic -> bool, depth: nat): Shape
    decreases depth
  {
    if depth == 0 || accept(c) then Chord
    else Halves(ShapeOf(Split(c).0, accept, depth - 1), ShapeOf(Split(c).1, accept, depth - 1))
  }

  /** The vertices a subdivision of the given shape produces from curve c. */
  function ShapePoints(s: Shape, c: Cubic): (r: seq<Point>)
    ensures |r| >= 2
  {
    match s
    case Chord => [c.p0, c.p3]
    case Halves(l, rt) =>
      var a := ShapePoints(l, Split(c).0);
      a[..|a| - 1] + ShapePoints(rt, Split(c).1)
  }

  /** The curve parameters of those vertices, when the curve being
      subdivided is the stretch [lo, hi] of a larger one: each split halves
      the parameter interval. */
  function Params(s: Shape, lo: real, hi: real): (ts: seq<real>)
    ensures |ts| >= 2 && ts[0] == lo && ts[|ts| - 1] == hi
  {
    match s
    case Chord => [lo, hi]
    case Halves(l, r) =>
      var m := (lo + hi) / 2.0;
      var a := Params(l, lo, m);
      a[..|a| - 1] + Params(r, m, hi)
  }

  /** `Subdivide` emits exactly the vertices of its shape. */
  lemma {:induction false} SubdivideIsPoints(c: Cubic, accept: Cubic -> bool, depth: nat)
    ensures Subdivide(c, accept, depth) == ShapePoints(ShapeOf(c, accept, depth), c)
    decreases depth
  {
    if !(depth == 0 || accept(c)) {
      SubdivideIsPoints(Split(c).0, accept, depth - 1);
      SubdivideIsPoints(Split(c).1, accept, depth - 1);
      SubdivideOfHalves(c, accept, depth);
      assert ShapeOf(c, accept, depth) == Halves(ShapeOf(Split(c).0, accept, depth - 1), ShapeOf(Split(c).1, accept, depth - 1));
    }
  }

  /** The curve parameters of the vertices of `Subdivide(c, accept, depth)`
      when c is the stretch [lo, hi] of a larger curve. */
  function VertexParams(c: Cubic, accept: Cubic -> bool, depth: nat, lo: real, hi: real): (ts: seq<real>)
    ensures |ts| == |Subdivide(c, accept, depth)|
    ensures ts[0] == lo && ts[|ts| - 1] == hi
  {
    SubdivideIsPoints(c, accept, depth);
    ParamsMatchPoints(ShapeOf(c, accept, depth), c, lo, hi);
    Params(ShapeOf(c, accept, depth), lo, hi)
  }

  lemma {:induction false} ParamsMatchPoints(s: Shape, c: Cubic, lo: real, hi: real)
    ensures |Params(s, lo, hi)| == |ShapePoints(s, c)|
  {
    match s
    case Chord =>
    case Halves(l, r) =>
      ParamsMatchPoints(l, Split(c).0, lo, (lo + hi) / 2.0);
      ParamsMatchPoints(r, Split(c).1, (lo + hi) / 2.0, hi);
  }

  /** Each parameter is below the next. */
  predicate Increasing(ts: seq<real>)
    decreases |ts|
  {
    |ts| <= 1 || (ts[0] < ts[1] && Increasing(ts[1..]))
  }

  /** In an increasing sequence every parameter is below every later one. */
  lemma {:induction false} IncreasingPairwise(ts: seq<real>)
    requires Increasing(ts)
    ensures forall i, j :: 0 <= i < j < |ts| ==> ts[i] < ts[j]
    decreases |ts|
  {
    if |ts| > 1 {
      IncreasingPairwise(ts[1..]);
      forall i, j | 0 <= i < j < |ts|
        ensures ts[i] < ts[j]
      {
        assert ts[j] == ts[1..][j - 1];
        if i > 0 {
          assert ts[i] == ts[1..][i - 1];
        } else if j > 1 {
          assert ts[1] == ts[1..][0];
        }
      }
    }
  }

  lemma {:induction false} IncreasingConcatenation(left: seq<real>, right: seq<real>, r: seq<real>)
    requires |left| >= 2 && |right| >= 1 && left[|left| - 1] == right[0]
    requires Increasing(left) && Increasing(right)
    requires r == left[..|left| - 1] + right
    ensures Increasing(r)
    decreases |left|
  {
    if |left| == 2 {
      assert r == [left[0]] + right && r[1..] == right;
    } else {
      IncreasingConcatenation(left[1..], right, r[1..]);
      assert r[0] == left[0] && r[1] == left[1];
    }
  }

  /** Halving [lo, hi] with lo < hi, however often, gives strictly
      increasing parameters. */
  lemma {:induction false} ParamsIncrease(s: Shape, lo: real, hi: real)
    requires lo < hi
    ensures Increasing(Params(s, lo, hi))
  {
    match s
    case Chord =>
      assert Params(s, lo, hi)[1..] == [hi];
    case Halves(l, r) =>
      var m := (lo + hi) / 2.0;
      ParamsIncrease(l, lo, m);
      ParamsIncrease(r, m, hi);
      IncreasingConcatenation(Params(l, lo, m), Params(r, m, hi), Params(s, lo, hi));
  }

  /** Whether each vertex of r is the point at its parameter in ts of curve
      c, under the evaluation `at`. */
  predicate OnCurve(at: (Cubic, real) -> Point, r: seq<Point>, ts: seq<real>, c: Cubic)
    decreases |r|
  {
    |r| == |ts| && (r == [] || (r[0] == at(c, ts[0]) && OnCurve(at, r[1..], ts[1..], c)))
  }

  lemma {:induction false} OnCurveIndex(at: (Cubic, real) -> Point, r: seq<Point>, ts: seq<real>, c: Cubic)
    requires OnCurve(at, r, ts, c)
    ensures |r| == |ts| && forall i :: 0 <= i < |r| ==> r[i] == at(c, ts[i])
    decreases |r|
  {
    if r != [] {
      OnCurveIndex(at, r[1..], ts[1..], c);
      forall i | 1 <= i < |r|
        ensures r[i] == at(c, ts[i])
      {
        assert r[i] == r[1..][i - 1] && ts[i] == ts[1..][i - 1];
      }
    }
  }

  lemma {:induction false} OnCurveConcatenation(at: (Cubic, real) -> Point, left: seq<Point>, lt: seq<real>,
                                                right: seq<Point>, rt: seq<real>, c: Cubic, r: seq<Point>, ts: seq<real>)
    requires OnCurve(at, left, lt, c) && OnCurve(at, right, rt, c) && |left| >= 1
    requires r == left[..|left| - 1] + right && ts == lt[..|lt| - 1] + rt
    ensures OnCurve(at, r, ts, c)
    decreases |left|
  {
    if |left| == 1 {
      assert r == right && ts == rt;
    } else {
      OnCurveConcatenation(at, left[1..], lt[1..], right, rt, c, r[1..], ts[1..]);
      assert r[0] == left[0] && ts[0] == lt[0];
    }
  }

  /** Whether every chord of a subdivision of h with the given shape starts
      and ends on c at its parameters, h being the stretch [lo, hi] of c. */
  predicate OnShape(at: (Cubic, real) -> Point, s: Shape, h: Cubic, c: Cubic, lo: real, hi: real)
  {
    match s
    case Chord => h.p0 == at(c, lo) && h.p3 == at(c, hi)
    case Halves(l, r) =>
      OnShape(at, l, Split(h).0, c, lo, (lo + hi) / 2.0) && OnShape(at, r, Split(h).1, c, (lo + hi) / 2.0, hi)
  }

  lemma {:induction false} OnShapeIsOnCurve(at: (Cubic, real) -> Point, s: Shape, h: Cubic, c: Cubic, lo: real, hi: real)
    requires OnShape(at, s, h, c, lo, hi)
    ensures OnCurve(at, ShapePoints(s, h), Params(s, lo, hi), c)
  {
    match s
    case Chord =>
      var r, ts := ShapePoints(s, h), Params(s, lo, hi);
      assert r[1..] == [h.p3] && ts[1..] == [hi];
      assert r[1..][1..] == [] && ts[1..][1..] == [];
    case Halves(l, rt) =>
      var m := (lo + hi) / 2.0;
      OnShapeIsOnCurve(at, l, Split(h).0, c, lo, m);
      OnShapeIsOnCurve(at, rt, Split(h).1, c, m, hi);
      OnCurveConcatenation(at, ShapePoints(l, Split(h).0), Params(l, lo, m), ShapePoints(rt, Split(h).1), Params(rt, m, hi), c,
                           ShapePoints(s, h), Params(s, lo, hi));
  }

  /** The laws of curve evaluation the vertex argument relies on: a curve
      starts at p0 and ends at p3, and the halves of a split trace the curve
      on [0, 1/2] and [1/2, 1]. */
  ghost predicate EvaluationLaws(at: (Cubic, real) -> Point)
  {
    (forall h :: at(h, 0.0) == h.p0) &&
    (forall h :: at(h, 1.0) == h.p3) &&
    (forall h, u :: at(Split(h).0, u) == at(h, u / 2.0)) &&
    (forall h, u :: at(Split(h).1, u) == at(h, (1.0 + u) / 2.0))
  }

  /** Whether sub-curve h is the stretch [lo, hi] of curve c. */
  ghost predicate Stretch(at: (Cubic, real) -> Point, h: Cubic, c: Cubic, lo: real, hi: real)
  {
    forall u :: at(h, u) == at(c, lo + Mul(hi - lo, u))
  }

  lemma HalfParameters(lo: real, hi: real, u: real)
    ensures lo + Mul(hi - lo, u / 2.0) == lo + Mul((lo + hi) / 2.0 - lo, u)
    ensures lo + Mul(hi - lo, (1.0 + u) / 2.0) == (lo + hi) / 2.0 + Mul(hi - (lo + hi) / 2.0, u)
  {
  }

  /** The halves of a stretch [lo, hi] are the stretches [lo, m] and [m, hi]. */
  lemma SplitStretchLeft(at: (Cubic, real) -> Point, h: Cubic, c: Cubic, lo: real, hi: real)
    requires EvaluationLaws(at) && Stretch(at, h, c, lo, hi)
    ensures Stretch(at, Split(h).0, c, lo, (lo + hi) / 2.0)
  {
    forall u
      ensures at(Split(h).0, u) == at(c, lo + Mul((lo + hi) / 2.0 - lo, u))
    {
      HalfParameters(lo, hi, u);
      assert at(h, u / 2.0) == at(c, lo + Mul(hi - lo, u / 2.0));
    }
  }

  lemma SplitStretchRight(at: (Cubic, real) -> Point, h: Cubic, c: Cubic, lo: real, hi: real)
    requires EvaluationLaws(at) && Stretch(at, h, c, lo, hi)
    ensures Stretch(at, Split(h).1, c, (lo + hi) / 2.0, hi)
  {
    forall u
      ensures at(Split(h).1, u) == at(c, (lo + hi) / 2.0 + Mul(hi - (lo + hi) / 2.0, u))
    {
      HalfParameters(lo, hi, u);
      assert at(h, (1.0 + u) / 2.0) == at(c, lo + Mul(hi - lo, (1.0 + u) / 2.0));
    }
  }

  lemma StretchEnds(at: (Cubic, real) -> Point, h: Cubic, c: Cubic, lo: real, hi: real)
    requires EvaluationLaws(at) && Stretch(at, h, c, lo, hi)
    ensures h.p0 == at(c, lo) && h.p3 == at(c, hi)
  {
    assert at(h, 0.0) == at(c, lo + Mul(hi - lo, 0.0));
    assert at(h, 1.0) == at(c, lo + Mul(hi - lo, 1.0));
  }

  /** If sub-curve h is the stretch [lo, hi] of curve c, then however h is
      subdivided, every chord starts and ends on c at its parameters. */
  lemma {:induction false} VerticesOnStretch(at: (Cubic, real) -> Point, s: Shape, h: Cubic, c: Cubic, lo: real, hi: real)
    requires EvaluationLaws(at) && Stretch(at, h, c, lo, hi)
    ensures OnShape(at, s, h, c, lo, hi)
  {
    match s
    case Chord =>
      StretchEnds(at, h, c, lo, hi);
    case Halves(l, r) =>
      SplitStretchLeft(at, h, c, lo, hi);
      SplitStretchRight(at, h, c, lo, hi);
      VerticesOnStretch(at, l, Split(h).0, c, lo, (lo + hi) / 2.0);
      VerticesOnStretch(at, r, Split(h).1, c, (lo + hi) / 2.0, hi);
  }

  /** Bernstein evaluation obeys the evaluation laws. */
  lemma AtObeysLaws()
    ensures EvaluationLaws((h, u) => At(h, u))
  {
    forall h: Cubic, u: real
      ensures At(Split(h).0, u) == At(h, u / 2.0) && At(Split(h).1, u) == At(h, (1.0 + u) / 2.0)
    {
      SplitHalvesTraceCurve(h, u);
    }
  }

  /** A whole curve is the stretch [0, 1] of itself. */
  lemma WholeStretch(at: (Cubic, real) -> Point, c: Cubic)
    ensures Stretch(at, c, c, 0.0, 1.0)
  {
    forall u
      ensures at(c, u) == at(c, 0.0 + Mul(1.0 - 0.0, u))
    {
      assert 0.0 + Mul(1.0 - 0.0, u) == u;
    }
  }

  /** Under any evaluation obeying the laws, the subdivision's vertices lie
      on the curve at strictly increasing parameters from 0 to 1. */
  lemma VerticesOnCurve(at: (Cubic, real) -> Point, c: Cubic, accept: Cubic -> bool, depth: nat)
    requires EvaluationLaws(at)
    ensures var r, ts := Subdivide(c, accept, depth), VertexParams(c, accept, depth, 0.0, 1.0);
            |ts| == |r| && Increasing(ts) && forall i :: 0 <= i < |r| ==> r[i] == at(c, ts[i])
  {
    var s := ShapeOf(c, accept, depth);
    WholeStretch(at, c);
    VerticesOnStretch(at, s, c, c, 0.0, 1.0);
    OnShapeIsOnCurve(at, s, c, c, 0.0, 1.0);
    SubdivideIsPoints(c, accept, depth);
    OnCurveIndex(at, ShapePoints(s, c), Params(s, 0.0, 1.0), c);
    ParamsIncrease(s, 0.0, 1.0);
  }

  /** Every vertex of the flattened polyline lies on the curve, and the
      vertices follow the curve in order: their parameters climb strictly
      from 0 (the start point) to 1 (the end point). */
  lemma FlattenedVerticesLieOnCurve(c: Cubic, flatness: real, fuel: nat)
    ensures var r, ts := FlattenCubic(c, flatness, fuel), VertexParams(c, h => IsFlat(h, flatness), fuel, 0.0, 1.0);
            |ts| == |r| && ts[0] == 0.0 && ts[|ts| - 1] == 1.0 &&
            (forall i, j :: 0 <= i < j < |ts| ==> ts[i] < ts[j]) &&
            forall i :: 0 <= i < |r| ==> r[i] == At(c, ts[i])
  {
    var accept := h => IsFlat(h, flatness);
    AtObeysLaws();
    VerticesOnCurve((h, u) => At(h, u), c, accept, fuel);
    IncreasingPairwise(VertexParams(c, accept, fuel, 0.0, 1.0));
  }

  /** The cubic with the same shape as the quadratic q0, q1, q2:
      c1 = q0 + 2/3 (q1 - q0), c2 = q2 + 2/3 (q1 - q2). */
  function Elevate(q0: Point, q1: Point, q2: Point): (c: Cubic)
    ensures c.p0 == q0 && c.p3 == q2
  {
    Cubic(q0,
          Point(q0.x + 2.0 / 3.0 * (q1.x - q0.x), q0.y + 2.0 / 3.0 * (q1.y - q0.y)),
          Point(q2.x + 2.0 / 3.0 * (q1.x - q2.x), q2.y + 2.0 / 3.0 * (q1.y - q2.y)),
          q2)
  }

  /** One coordinate of a quadratic Bezier curve at parameter t. */
  function QuadBernstein(a: real, b: real, c: real, t: real): real
  {
    var s := 1.0 - t;
    s * s * a + 2.0 * s * t * b + t * t * c
  }

  /** The point of the quadratic q0, q1, q2 at parameter t. */
  function QuadAt(q0: Point, q1: Point, q2: Point, t: real): Point
  {
    Point(QuadBernstein(q0.x, q1.x, q2.x, t), QuadBernstein(q0.y, q1.y, q2.y, t))
  }

  lemma ElevateBernstein(a: real, b: real, c: real, t: real)
    ensures Bernstein(a, a + 2.0 / 3.0 * (b - a), c + 2.0 / 3.0 * (b - c), c, t) == QuadBernstein(a, b, c, t)
  {
  }

  /** Degree elevation is exact: the cubic traces the quadratic point for
      point, at every parameter. */
  lemma ElevateIsExact(q0: Point, q1: Point, q2: Point, t: real)
    ensures At(Elevate(q0, q1, q2), t) == QuadAt(q0, q1, q2, t)
  {
    ElevateBernstein(q0.x, q1.x, q2.x, t);
    ElevateBernstein(q0.y, q1.y, q2.y, t);
  }

  /** `_flatten_quadratic_bezier`: the elevated cubic, flattened. */
  function FlattenQuadratic(q0: Point, q1: Point, q2: Point, flatness: real, fuel: nat): (r: seq<Point>)
    ensures |r| >= 2 && r[0] == q0 && r[|r| - 1] == q2
  {
    FlattenCubic(Elevate(q0, q1, q2), flatness, fuel)
  }

  /** Every vertex of a flattened quadratic lies on the quadratic, at
      strictly increasing parameters from 0 to 1. */
  lemma FlattenedQuadraticLiesOnCurve(q0: Point, q1: Point, q2: Point, flatness: real, fuel: nat)
    ensures var r, ts := FlattenQuadratic(q0, q1, q2, flatness, fuel),
                         VertexParams(Elevate(q0, q1, q2), h => IsFlat(h, flatness), fuel, 0.0, 1.0);
            |ts| == |r| && ts[0] == 0.0 && ts[|ts| - 1] == 1.0 &&
            (forall i, j :: 0 <= i < j < |ts| ==> ts[i] < ts[j]) &&
            forall i :: 0 <= i < |r| ==> r[i] == QuadAt(q0, q1, q2, ts[i])
  {
    var c := Elevate(q0, q1, q2);
    FlattenedVerticesLieOnCurve(c, flatness, fuel);
    var ts := VertexParams(c, h => IsFlat(h, flatness), fuel, 0.0, 1.0);
    forall i | 0 <= i < |ts|
      ensures At(c, ts[i]) == QuadAt(q0, q1, q2, ts[i])
    {
      ElevateIsExact(q0, q1, q2, ts[i]);
    }
  }
}
