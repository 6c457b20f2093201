/** `SVGParser.get_paths_by_color` of svg_parser.py: the selected elements
    are walked in order; each path element with a cut or score stroke has
    its subpaths extracted and gathered by role; each role's subpaths are
    sorted by their first point and stitched into toolpaths. */
module SvgParser {
  import opened Wrappers
  import opened Geometry
  import opened Ordering
  import opened Bezier
  import opened PathData
  import opened Roles
  import opened Stitching

  /** A selected element: a path with its stroke and its drawing commands in
      absolute coordinates, or any other kind of element. */
  datatype Element =
    | PathElement(stroke: Stroke, commands: seq<Command>)
    | OtherElement

  /** The role an element contributes to, if any. */
  function ElementRole(e: Element): Option<Role>
  {
    if e.PathElement? then RoleOf(e.stroke) else None
  }

  /** The subpaths one element contributes to `role`. */
  function Contribution(e: Element, role: Role, scale: real, flatten: Cubic -> seq<Point>): seq<Subpath>
    requires scale != 0.0 && IsFlattener(flatten)
  {
    if ElementRole(e) == Some(role) then Extract(e.commands, scale, flatten) else []
  }

  /** All subpaths gathered for `role`, element by element, in order. */
  function Gathered(elements: seq<Element>, role: Role, scale: real, flatten: Cubic -> seq<Point>): seq<Subpath>
    requires scale != 0.0 && IsFlattener(flatten)
  {
    if elements == [] then []
    else
      Gathered(elements[..|elements| - 1], role, scale, flatten)
        + Contribution(elements[|elements| - 1], role, scale, flatten)
  }

  /** Sort key of a subpath: its first point, and (0, 0) for an empty one. */
  function FirstPointKey(sub: Subpath): (k: Key)
    ensures sub != [] ==> k == Key(sub[0].x, sub[0].y)
  {
    if sub != [] then Key(sub[0].x, sub[0].y) else Key(0.0, 0.0)
  }

  lemma {:induction false} GatheredNonEmpty(elements: seq<Element>, role: Role, scale: real, flatten: Cubic -> seq<Point>)
    requires scale != 0.0 && IsFlattener(flatten)
    ensures AllNonEmpty(Gathered(elements, role, scale, flatten))
    decreases |elements|
  {
    if elements != [] {
      GatheredNonEmpty(elements[..|elements| - 1], role, scale, flatten);
      var e := elements[|elements| - 1];
      if e.PathElement? {
        ExtractedSubpathsNonEmpty(e.commands, scale, flatten);
      }
    }
  }

  /** The subpaths of one role, sorted by first point and stitched. */
  function StitchedRole(elements: seq<Element>, role: Role, scale: real, flatten: Cubic -> seq<Point>): seq<Subpath>
    requires scale != 0.0 && IsFlattener(flatten)
  {
    var gathered := Gathered(elements, role, scale, flatten);
    GatheredNonEmpty(elements, role, scale, flatten);
    SortKeepsNonEmpty(gathered, FirstPointKey);
    Stitch(SortBy(gathered, FirstPointKey), DefaultTolerance)
  }

  /** What `get_paths_by_color` returns: the cut paths and the score paths,
      each list wrapped in a one-element list. */
  function PathsByColor(elements: seq<Element>, scale: real): (r: (seq<seq<Subpath>>, seq<seq<Subpath>>))
    requires scale != 0.0
    ensures |r.0| == 1 && |r.1| == 1 && AllNonEmpty(r.0[0]) && AllNonEmpty(r.1[0])
  {
    var flatten := Flattener(DefaultFlatness);
    ([StitchedRole(elements, Cut, scale, flatten)], [StitchedRole(elements, Score, scale, flatten)])
  }

  /** `get_paths_by_color`, walking the elements as the source does. `scale`
      is the document's size of one millimetre in user units. */
  method GetPathsByColor(elements: seq<Element>, scale: real) returns (black: seq<seq<Subpath>>, red: seq<seq<Subpath>>)
    requires scale != 0.0
    ensures (black, red) == PathsByColor(elements, scale)
  {
    var flatten := Flattener(DefaultFlatness);
    var allBlack: seq<Subpath> := [];
    var allRed: seq<Subpath> := [];
    for i := 0 to |elements|
      invariant allBlack == Gathered(elements[..i], Cut, scale, flatten)
      invariant allRed == Gathered(elements[..i], Score, scale, flatten)
    {
      assert elements[..i + 1][..i] == elements[..i];
      var element := elements[i];
      if element.PathElement? {
        var color := StrokeColor(element.stroke);
        if color.Some? {
          var role := Classify(color.value);
          if role == Cut {
            var pathData := ExtractPathData(element.commands, scale, flatten);
            if pathData != [] {
              allBlack := allBlack + pathData;
            }
          } else if role == Score {
            var pathData := ExtractPathData(element.commands, scale, flatten);
            if pathData != [] {
              allRed := allRed + pathData;
            }
          }
        }
      }
    }
    assert elements[..|elements|] == elements;
    GatheredNonEmpty(elements, Cut, scale, flatten);
    GatheredNonEmpty(elements, Score, scale, flatten);
    var sortedBlack := SortBy(allBlack, FirstPointKey);
    var sortedRed := SortBy(allRed, FirstPointKey);
    SortKeepsNonEmpty(allBlack, FirstPointKey);
    SortKeepsNonEmpty(allRed, FirstPointKey);
    var stitchedBlack := SmartStitch(sortedBlack, DefaultTolerance);
    var stitchedRed := SmartStitch(sortedRed, DefaultTolerance);
    return [stitchedBlack], [stitchedRed];
  }

  /** One more element adds its contribution at the end. */
  lemma GatheredSnoc(elements: seq<Element>, e: Element, whole: seq<Element>, role: Role, scale: real, flatten: Cubic -> seq<Point>)
    requires scale != 0.0 && IsFlattener(flatten)
    requires whole == elements + [e]
    ensures Gathered(whole, role, scale, flatten) == Gathered(elements, role, scale, flatten) + Contribution(e, role, scale, flatten)
  {
    assert whole[..|whole| - 1] == elements;
  }

  lemma SplitLast<T>(a: seq<T>, b: seq<T>)
    requires b != []
    ensures a + b == (a + b[..|b| - 1]) + [b[|b| - 1]]
    ensures b == b[..|b| - 1] + [b[|b| - 1]]
  {
  }

  lemma Regroup<T>(whole: seq<T>, front: seq<T>, back: seq<T>, x: seq<T>, y: seq<T>, z: seq<T>)
    requires whole == front + z && back == y + z && front == x + y
    ensures whole == x + back
  {
  }

  /** Gathering works element by element: the subpaths of a concatenation
      of selections are those of each, in order. */
  lemma {:induction false} GatheredConcat(a: seq<Element>, b: seq<Element>, role: Role, scale: real, flatten: Cubic -> seq<Point>)
    requires scale != 0.0 && IsFlattener(flatten)
    ensures Gathered(a + b, role, scale, flatten) == Gathered(a, role, scale, flatten) + Gathered(b, role, scale, flatten)
    decreases |b|
  {
    if b == [] {
      assert a + b == a;
    } else {
      var init, e := b[..|b| - 1], b[|b| - 1];
      SplitLast(a, b);
      GatheredSnoc(a + init, e, a + b, role, scale, flatten);
      GatheredSnoc(init, e, b, role, scale, flatten);
      GatheredConcat(a, init, role, scale, flatten);
      Regroup(Gathered(a + b, role, scale, flatten), Gathered(a + init, role, scale, flatten), Gathered(b, role, scale, flatten),
              Gathered(a, role, scale, flatten), Gathered(init, role, scale, flatten), Contribution(e, role, scale, flatten));
    }
  }

  /** Elements without the role (other elements, paths with no stroke, paths
      of another colour) contribute nothing to it. */
  lemma {:induction false} UnrelatedElementsContributeNothing(elements: seq<Element>, role: Role, scale: real, flatten: Cubic -> seq<Point>)
    requires scale != 0.0 && IsFlattener(flatten)
    requires forall i :: 0 <= i < |elements| ==> ElementRole(elements[i]) != Some(role)
    ensures Gathered(elements, role, scale, flatten) == []
    decreases |elements|
  {
    if elements != [] {
      UnrelatedElementsContributeNothing(elements[..|elements| - 1], role, scale, flatten);
    }
  }

  /** A path whose role is `role` contributes all of its extracted subpaths,
      after those of the elements before it. */
  lemma PathContributes(elements: seq<Element>, e: Element, role: Role, scale: real, flatten: Cubic -> seq<Point>)
    requires scale != 0.0 && IsFlattener(flatten)
    requires e.PathElement? && RoleOf(e.stroke) == Some(role)
    ensures Gathered(elements + [e], role, scale, flatten) == Gathered(elements, role, scale, flatten) + Extract(e.commands, scale, flatten)
  {
    GatheredSnoc(elements, e, elements + [e], role, scale, flatten);
  }

  /** Each returned list holds paths only, and every point on them was drawn
      by a path of that colour; no more points are lost than one per
      subpath merged away. */
  lemma StitchedRoleConservesPoints(elements: seq<Element>, role: Role, scale: real, flatten: Cubic -> seq<Point>)
    requires scale != 0.0 && IsFlattener(flatten)
    ensures var gathered := Gathered(elements, role, scale, flatten);
      var out := StitchedRole(elements, role, scale, flatten);
      AllNonEmpty(out) && |out| <= |gathered| && (gathered != [] ==> |out| >= 1) &&
      multiset(Points(out)) <= multiset(Points(gathered)) &&
      |Points(out)| + (|gathered| - |out|) >= |Points(gathered)|
  {
    var gathered := Gathered(elements, role, scale, flatten);
    GatheredNonEmpty(elements, role, scale, flatten);
    SortKeepsNonEmpty(gathered, FirstPointKey);
    var sorted := SortBy(gathered, FirstPointKey);
    StitchConservesPoints(sorted, DefaultTolerance);
    PointsPermutation(sorted, gathered);
  }

  /** A selection with nothing to cut or score (no paths, strokeless
      paths, paths of other colours) yields one empty list for each colour. */
  lemma NothingSelected(elements: seq<Element>, scale: real)
    requires scale != 0.0
    requires forall i :: 0 <= i < |elements| ==> ElementRole(elements[i]) != Some(Cut) && ElementRole(elements[i]) != Some(Score)
    ensures PathsByColor(elements, scale) == ([[]], [[]])
  {
    var flatten := Flattener(DefaultFlatness);
    UnrelatedElementsContributeNothing(elements, Cut, scale, flatten);
    UnrelatedElementsContributeNothing(elements, Score, scale, flatten);
  }
}
