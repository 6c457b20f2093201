/** Optional values, used for the parser's "no previous control point" and
    the stitcher's "no candidate seen yet". */
module Wrappers {
  datatype Option<+T> = None | Some(value: T)
}

/** Points, subpaths and the squared-distance helpers of the curve flattener
    (svg_parser.py, `dist2` and `point_line_dist2`). Coordinates are reals;
    floating-point rounding is not modelled. */
module Geometry {

  datatype Point = Point(x: real, y: real)

  /** One continuous pen-down stroke: a list of points. */
  type Subpath = seq<Point>

  /** A product kept behind a function, so that the solver reasons about
      squares through the sign lemmas below instead of nonlinear search. */
  function Mul(u: real, v: real): real
  {
    u * v
  }

  lemma MulPositive(u: real, v: real)
    requires u > 0.0 && v > 0.0
    ensures Mul(u, v) > 0.0
  {
  }

  lemma MulNegate(u: real, v: real)
    ensures Mul(u, v) == Mul(-u, -v)
  {
  }

  /** Python's `v**2`. */
  function Sq(v: real): real
  {
    Mul(v, v)
  }

  lemma SqNonNegative(v: real)
    ensures Sq(v) >= 0.0
  {
    if v > 0.0 {
      MulPositive(v, v);
    } else if v < 0.0 {
      MulNegate(v, v);
      MulPositive(-v, -v);
    }
  }

  lemma SqPositive(v: real)
    requires v != 0.0
    ensures Sq(v) > 0.0
  {
    if v > 0.0 {
      MulPositive(v, v);
    } else {
      MulNegate(v, v);
      MulPositive(-v, -v);
    }
  }

  /** Squared Euclidean distance. */
  function Dist2(a: Point, b: Point): (d: real)
    ensures d >= 0.0
  {
    SqNonNegative(a.x - b.x);
    SqNonNegative(a.y - b.y);
    Sq(a.x - b.x) + Sq(a.y - b.y)
  }

  /** The squared distance is zero exactly between equal points. */
  lemma Dist2ZeroIffEqual(a: Point, b: Point)
    ensures Dist2(a, b) == 0.0 <==> a == b
  {
    if a != b {
      Dist2Positive(a, b);
    }
  }

  lemma Dist2Positive(a: Point, b: Point)
    requires a != b
    ensures Dist2(a, b) > 0.0
  {
    SqNonNegative(a.x - b.x);
    SqNonNegative(a.y - b.y);
    if a.x != b.x {
      SqPositive(a.x - b.x);
    } else {
      SqPositive(a.y - b.y);
    }
  }

  /** The point `a*(1-t) + b*t` on the line through a and b. */
  function Lerp(a: Point, b: Point, t: real): Point
  {
    Point(a.x * (1.0 - t) + b.x * t, a.y * (1.0 - t) + b.y * t)
  }

  /** Python's `max(0, min(1, t))`. */
  function Clamp01(t: real): (r: real)
    ensures 0.0 <= r <= 1.0
    ensures 0.0 <= t <= 1.0 ==> r == t
    ensures t < 0.0 ==> r == 0.0
    ensures t > 1.0 ==> r == 1.0
  {
    if t < 0.0 then 0.0 else if t > 1.0 then 1.0 else t
  }

  /** The dot product of p - a with b - a. */
  function Dot(p: Point, a: Point, b: Point): real
  {
    (p.x - a.x) * (b.x - a.x) + (p.y - a.y) * (b.y - a.y)
  }

  /** Squared distance from p to the segment a-b: the projection parameter is
      clamped to [0, 1], and a degenerate segment is the point a. */
  function PointLineDist2(p: Point, a: Point, b: Point): (d: real)
    ensures d >= 0.0
  {
    if a == b then Dist2(p, a)
    else
      Dist2Positive(b, a);
      var t := Clamp01(Dot(p, a, b) / Dist2(b, a));
      Dist2(p, Along(a, b, t))
  }

  /** The point `a + s*(b - a)` of the segment a-b, as the flattener's
      projection writes it. */
  function Along(a: Point, b: Point, s: real): Point
  {
    Point(a.x + s * (b.x - a.x), a.y + s * (b.y - a.y))
  }

  /** The squared distance to a point of the line, as a function of its
      parameter s, is a quadratic in s: the gap between two parameters
      factors through the line's squared length and the dot product. */
  lemma AlongGap(p: Point, a: Point, b: Point, s: real, t: real)
    ensures Dist2(p, Along(a, b, s)) - Dist2(p, Along(a, b, t)) == Mul(s - t, Dist2(b, a) * (s + t) - 2.0 * Dot(p, a, b))
  {
    var wx, wy, ux, uy := p.x - a.x, p.y - a.y, b.x - a.x, b.y - a.y;
    assert Along(a, b, s) == Point(p.x - (wx - s * ux), p.y - (wy - s * uy));
    assert Along(a, b, t) == Point(p.x - (wx - t * ux), p.y - (wy - t * uy));
    GapIdentity(wx, wy, ux, uy, s, t);
  }

  /** `AlongGap` on the coordinates of p - a and b - a. */
  lemma GapIdentity(wx: real, wy: real, ux: real, uy: real, s: real, t: real)
    ensures (Sq(wx - s * ux) + Sq(wy - s * uy)) - (Sq(wx - t * ux) + Sq(wy - t * uy))
              == (s - t) * ((Sq(ux) + Sq(uy)) * (s + t) - 2.0 * (wx * ux + wy * uy))
  {
    CoordinateGap(wx, ux, s, t);
    CoordinateGap(wy, uy, s, t);
    var gx, gy := ux * ux * (s + t) - 2.0 * (wx * ux), uy * uy * (s + t) - 2.0 * (wy * uy);
    assert (Sq(ux) + Sq(uy)) * (s + t) - 2.0 * (wx * ux + wy * uy) == gx + gy;
    assert (s - t) * gx + (s - t) * gy == (s - t) * (gx + gy);
  }

  /** One coordinate of `AlongGap`. */
  lemma CoordinateGap(w: real, u: real, s: real, t: real)
    ensures Sq(w - s * u) - Sq(w - t * u) == (s - t) * (u * u * (s + t) - 2.0 * (w * u))
  {
  }

  /** With t the clamped minimiser k/L of that quadratic, the gap to any
      parameter s in [0, 1] is never negative. */
  lemma ClampedGapNonNegative(L: real, k: real, s: real, t: real)
    requires L > 0.0 && 0.0 <= s <= 1.0 && t == Clamp01(k / L)
    ensures Mul(s - t, L * (s + t) - 2.0 * k) >= 0.0
  {
    if k / L < 0.0 {
      assert k < 0.0;
      MulNonNegative(s, L * s - 2.0 * k);
    } else if k / L > 1.0 {
      assert k > L;
      MulNonNegative(1.0 - s, 2.0 * k - L * (s + 1.0));
    } else {
      assert L * t == k;
      assert L * (s + t) - 2.0 * k == L * (s - t);
      SqNonNegative(s - t);
      MulNonNegative(L, (s - t) * (s - t));
      assert (s - t) * (L * (s - t)) == L * ((s - t) * (s - t));
    }
  }

  /** The product of two non-negative reals is non-negative. */
  lemma MulNonNegative(u: real, v: real)
    requires u >= 0.0 && v >= 0.0
    ensures u * v >= 0.0
  {
    if u > 0.0 && v > 0.0 {
      MulPositive(u, v);
    }
  }

  /** `point_line_dist2` is the squared distance from p to the nearest point
      of the segment a-b: no point of the segment (in particular neither
      end) is nearer, and a degenerate segment is the point a. */
  lemma PointLineDist2IsNearest(p: Point, a: Point, b: Point, s: real)
    requires 0.0 <= s <= 1.0
    ensures PointLineDist2(p, a, b) <= Dist2(p, Along(a, b, s))
    ensures PointLineDist2(p, a, b) <= Dist2(p, a) && PointLineDist2(p, a, b) <= Dist2(p, b)
    ensures a == b ==> PointLineDist2(p, a, b) == Dist2(p, a)
  {
    assert Along(a, b, 0.0) == a;
    assert Along(a, b, 1.0) == b;
    if a != b {
      var t := ClampedParameter(p, a, b);
      NearestOnProperSegment(p, a, b, s, t);
      NearestOnProperSegment(p, a, b, 0.0, t);
      NearestOnProperSegment(p, a, b, 1.0, t);
    }
  }

  /** For a proper segment, the clamped projection parameter t gives a
      point at least as near to p as the point at any s in [0, 1]. */
  lemma NearestOnProperSegment(p: Point, a: Point, b: Point, s: real, t: real)
    requires a != b && 0.0 <= s <= 1.0
    requires Dist2(b, a) > 0.0 && t == Clamp01(Dot(p, a, b) / Dist2(b, a))
    ensures Dist2(p, Along(a, b, t)) <= Dist2(p, Along(a, b, s))
  {
    AlongGap(p, a, b, s, t);
    ClampedGapNonNegative(Dist2(b, a), Dot(p, a, b), s, t);
  }

  /** The parameter of the projection, as the body of `PointLineDist2`
      computes it for a proper segment. */
  lemma ClampedParameter(p: Point, a: Point, b: Point) returns (t: real)
    requires a != b
    ensures Dist2(b, a) > 0.0 && t == Clamp01(Dot(p, a, b) / Dist2(b, a))
    ensures PointLineDist2(p, a, b) == Dist2(p, Along(a, b, t))
  {
    Dist2Positive(b, a);
    t := Clamp01(Dot(p, a, b) / Dist2(b, a));
  }
}
