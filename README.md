# JD CNC G-code Generator: verified model of the SVG-to-toolpath core

This project models, in Dafny, how the generator turns a selection of SVG
paths into toolpaths for a drag-knife or CNC cutter. It also proves
properties of that model. The modelled parts are:

- **Colour roles** (`Roles`, `SvgParser`). A path's stroke decides its role:
  - near-black strokes are cut;
  - strong red strokes are scored;
  - a missing stroke counts as black;
  - an empty stroke or `none` is skipped.
- **Path extraction** (`PathData`). An absolute command list becomes
  polylines ("subpaths"):
  - `M` starts a subpath.
  - `L`, `H` and `V` append one point.
  - `C`, `S`, `Q` and `T` append the flattened curve, without its first
    point.
  - `A` appends five evenly spaced points of the straight segment to its end
    point.
  - `Z` repeats the subpath's first point and leaves the pen where it was.
  - Coordinates are divided by the document's millimetre scale.
- **Curve flattening** (`Bezier`). A cubic is split at t = 1/2 by de
  Casteljau until both interior control points are within the flatness of
  the chord. A quadratic is degree-elevated to a cubic first.
- **Stitching** (`Stitching`, `Ordering`). Each colour's subpaths are sorted
  by first point, then chained greedily:
  - The longest subpath not yet used seeds each chain.
  - The chain then absorbs the subpath whose endpoint is nearest its end,
    reversed if needed, while that distance is below 0.3.
  - A joined subpath whose first point duplicates the chain's end loses it.
- **Placement** (`Placement`). The cut and score paths are translated as one
  group, so that their bounding box is centred on the bed. Points are checked
  against the bed less a safety margin, with inclusive bounds. The bounding
  box of all points is checked the same way.

The source does some of this as loops that change state. Those parts are
methods proved equal to a functional specification:
- `PathData.ExtractPathData` against the fold `PathData.Extract`;
- `Stitching.SmartStitch` against `Stitching.Stitch`, through
  `Stitching.StitchLoop` (against `Stitching.StitchPool`) and
  `Stitching.ExtendChain` (against `Stitching.GrowChain`);
- `Stitching.NearestEndpoint` against `Stitching.Nearest`;
- `SvgParser.GetPathsByColor` against `SvgParser.PathsByColor`;
- `Placement.OutOfBounds` against `Placement.InBounds`.

The lemmas state what the source promises about those specifications.

Coordinates are real numbers. Python's `math.hypot(dx, dy) < tol` is
modelled as `tol > 0 && dx² + dy² < tol²` (`Stitching.Within`). Comparisons
between two distances are made on their squares, which order them the same
way.

## Model

| member | source | states |
|---|---|---|
| `Geometry.Dist2` | svg_parser.py:88-89 | the squared distance is never negative |
| `Geometry.Dist2ZeroIffEqual` | svg_parser.py:88-89 | the squared distance is zero exactly between equal points |
| `Geometry.Dist2Positive` | svg_parser.py:88-89 | distinct points are at a positive squared distance |
| `Geometry.Clamp01` | svg_parser.py:95 | the clamped parameter lies in [0, 1]: 0 for a negative input, 1 for one above 1, the input itself otherwise |
| `Geometry.PointLineDist2` | svg_parser.py:91-97 | the squared distance from a point to the clamped segment is never negative; its meaning is `PointLineDist2IsNearest` |
| `Geometry.PointLineDist2IsNearest` | svg_parser.py:91-97 | the result is the squared distance to the nearest point of segment a-b: no point a + s(b - a) with s in [0, 1] is nearer, neither end in particular, and a degenerate segment gives the distance to a |
| `Geometry.AlongGap` | svg_parser.py:94-97 | the squared distance to the point at parameter s is a quadratic in s whose gap between two parameters factors as (s - t)(L(s + t) - 2k), with L the squared length and k the dot product of the projection |
| `Geometry.ClampedGapNonNegative` | svg_parser.py:94-96 | with t the projection parameter k/L clamped to [0, 1], that gap is never negative for s in [0, 1] |
| `Bezier.Split` | svg_parser.py:105-110 | the two halves run from p0 to p0123 and from p0123 to p3, sharing the midpoint |
| `Bezier.At` | svg_parser.py:99-115 | the reference Bernstein form of the curve: B(0) = p0 and B(1) = p3 |
| `Bezier.IsFlat` | svg_parser.py:100-103 | `max(d1, d2) < flatness**2` holds exactly when both interior control points are within the squared flatness of the chord, and never for flatness 0 |
| `Bezier.SplitHalvesTraceCurve` | svg_parser.py:105-112 | the left half at u is the curve at u/2; the right half at u is the curve at (1+u)/2 |
| `Bezier.Subdivide` | svg_parser.py:99-113 | the subdivision has at least two points, from p0 to p3 |
| `Bezier.FlattenCubic` | svg_parser.py:86-115 | the flattened cubic has at least two points and runs from p0 to p3 |
| `Bezier.Pieces` | svg_parser.py:111-113 | the accepted sub-curves cover the curve in order, each starting where the previous ends |
| `Bezier.SubdivideIsChordsOfPieces` | svg_parser.py:111-113 | the polyline is exactly the chords of the accepted sub-curves, so each shared midpoint appears once |
| `Bezier.PiecesPassTest` | svg_parser.py:100-103 | within the depth budget, every accepted sub-curve passes the flatness test |
| `Bezier.LargerDepthSameResult` | svg_parser.py:99-113 | once the budget suffices, a larger budget gives the same polyline |
| `Bezier.FlattenCubicIsFlatChords` | svg_parser.py:99-115 | each segment of the flattened cubic is the chord of a sub-curve that is flat, within the budget |
| `Bezier.FlatCurveIsChord` | svg_parser.py:100-103 | if both interior control points are within the flatness of the chord, the result is exactly [p0, p3] |
| `Bezier.FlattenDegenerate` | svg_parser.py:91-103 | a curve with four equal control points flattens to two copies of that point |
| `Bezier.SubdivideIsPoints` | svg_parser.py:99-113 | the subdivision's polyline is the vertex list of its recursion tree: two end points per accepted segment, each shared midpoint once |
| `Bezier.VertexParams` | svg_parser.py:105-113 | one curve parameter per vertex of the subdivision, the first lo and the last hi |
| `Bezier.ParamsIncrease` | svg_parser.py:105-113 | halving the parameter interval at every split makes the vertex parameters strictly increasing |
| `Bezier.IncreasingPairwise` | svg_parser.py:105-113 | parameters that increase step by step are ordered pairwise: an earlier vertex has a smaller parameter |
| `Bezier.OnShapeIsOnCurve` | svg_parser.py:105-113 | when every accepted segment's end points are on the curve at their interval's ends, every vertex is on the curve at its parameter |
| `Bezier.VerticesOnCurve` | svg_parser.py:99-113 | for any evaluation with the halving laws, every vertex lies on the curve at its parameter, parameters strictly increasing |
| `Bezier.VerticesOnStretch` | svg_parser.py:99-113 | subdividing a curve that is the stretch [lo, hi] of another puts each accepted segment's ends on that curve at the ends of its parameter interval |
| `Bezier.FlattenedVerticesLieOnCurve` | svg_parser.py:86-115 | every vertex of the flattened cubic lies on the curve, at parameters increasing from 0 to 1 |
| `Bezier.Elevate` | svg_parser.py:118-119 | the elevated cubic starts at q0 and ends at q2 |
| `Bezier.ElevateIsExact` | svg_parser.py:117-120 | the elevated cubic (2/3 control points) traces the quadratic exactly |
| `Bezier.FlattenQuadratic` | svg_parser.py:117-120 | the flattened quadratic has at least two points, from q0 to q2 |
| `Bezier.FlattenedQuadraticLiesOnCurve` | svg_parser.py:117-120 | every vertex of the flattened quadratic lies on the quadratic, at increasing parameters from 0 to 1 |
| `PathData.Reflect` | svg_parser.py:178-181 | the pen is the midpoint of the previous control point and its reflection |
| `PathData.SmoothControl` | svg_parser.py:178-183 | with a previous control point, S and T reflect it through the pen; without one, the first control point is the pen itself |
| `PathData.ArcPoints` | svg_parser.py:218-223 | an arc contributes exactly five points |
| `PathData.ArcPointsEvenlySpaced` | svg_parser.py:214-224 | the five arc points advance in equal steps of a fifth of the displacement and end at the arc's end point |
| `PathData.CloseAsWritten` | svg_parser.py:226-228 | `Z` as written appends the current subpath's first point (nothing when it is empty) and changes neither the finished subpaths, the pen nor the control point |
| `PathData.Close` | svg_parser.py:226-228 | corrected `Z`: the first point is repeated and the pen returns to it; an empty subpath is left as it is |
| `PathData.Flattener` | svg_parser.py:170 | the extractor's flattener yields at least two points from p0 to p3 for every cubic |
| `PathData.Step` | svg_parser.py:136-228 | one command of the walk, `Z` as written: `M` files the pending subpath and starts a new one at the pen; any other command keeps the finished subpaths and only extends the current one |
| `PathData.Run` | svg_parser.py:134-228 | the walk's state after the commands, `Step` folded from the start state; its contents are stated by `RunTracksMoves` and `FinishedSubpathsNonEmpty` |
| `PathData.Extract` | svg_parser.py:134-232 | the walk's subpaths with the pending one filed at the end; its contents are stated by `ExtractedSubpathsNonEmpty` and `SubpathsStartAtMoves` |
| `PathData.ApplyCommand` | svg_parser.py:136-228 | the loop body for one command, `Z` included as written, leaves the walk's variables exactly as `Step` describes |
| `PathData.ExtractPathData` | svg_parser.py:122-232 | the loop over the commands returns exactly the fold of `Step` over them, closing subpaths as the source does |
| `PathData.FinishedSubpathsNonEmpty` | svg_parser.py:137-139 | no finished subpath is empty |
| `PathData.ExtractedSubpathsNonEmpty` | svg_parser.py:230-232 | extraction never returns an empty subpath |
| `PathData.RunTracksMoves` | svg_parser.py:137-143 | from a leading `M` on, there is one subpath per move, each starting at its move's point |
| `PathData.TracksMovesStep` | svg_parser.py:137-143 | one command keeps one subpath per move, each starting at its move's point; an `M` adds its own point to the moves |
| `PathData.SubpathsStartAtMoves` | svg_parser.py:137-143 | for commands starting with `M`, there are as many subpaths as moves, and subpath j starts at move j |
| `PathData.StepKeepsPenAtEnd` | svg_parser.py:136-228 | with the corrected close, every command, from any state, leaves the current subpath ending at the pen |
| `PathData.StepClosed` | svg_parser.py:226-228 | the corrected walk: `Z` by `Close` (same subpath contents as the source's `Z`), every other command exactly the source's `Step` |
| `PathData.RunClosed` | svg_parser.py:134-228 | the corrected walk folded over the commands; `PolylineEndsAtPen` states its invariant |
| `PathData.PolylineEndsAtPen` | svg_parser.py:136-228 | after every prefix of the corrected walk, the current subpath ends where the pen is (each step re-establishes it on its own) |
| `PathData.CloseAsWrittenLeavesPenBehind` | svg_parser.py:214-228 | after `M 0 0 L 10 10 Z` as written, the pen is not at the subpath's end, and an arc to (5, 0) starts with (9, 8), interpolated from (10, 10); the corrected close gives (1, 0) |
| `PathData.ExtractAsWrittenLeavesPenBehind` | svg_parser.py:214-232 | for any flattener, the extractor maps `M 0 0 L 10 10 Z A 1 1 0 0 1 5 0` to one subpath whose arc points (9, 8) … (5, 0) run from (10, 10), where the corrected walk gives (1, 0) … (5, 0) from the subpath's start |
| `PathData.PointCommandEffects` | svg_parser.py:137-225 | M, L and A move the pen to (x/scale, y/scale), H to (x/scale, pen's y), V to (pen's x, y/scale); M files the pending subpath and starts a new one at the pen; L/H/V append exactly the new pen; A appends the evenly spaced points from the old pen to its end; all clear the control point |
| `PathData.CurveCommandEffects` | svg_parser.py:162-213 | from any state, C/S/Q/T append the flattened curve from the pen without its first point, keep the finished subpaths, move the pen to the scaled end point, where the subpath then ends; C/S keep the second control point, Q the quadratic one and T the reflected one; when the subpath ended at the pen, the whole flattened curve is spliced on |
| `PathData.CurvePoints` | svg_parser.py:162-213 | the flattened curve of C/S/Q/T drawn from the pen (S reflecting the last control point, Q/T raised to a cubic): at least two points, from the pen to the scaled end point |
| `Ordering.SortBy` | svg_parser.py:78-79 | sorting returns a permutation of its input |
| `Ordering.Insert` | svg_parser.py:78-79 | inserting one element adds exactly it: one longer, the multiset grown by that element (order and stability by `InsertKeepsSorted` and `InsertIsStable`) |
| `Ordering.SortByIsSorted` | svg_parser.py:78-79 | the sorted list is ordered by key (tuples compared lexicographically) |
| `Ordering.SortByIsStable` | svg_parser.py:23 | elements with equal keys keep their original order |
| `Stitching.Reverse` | svg_parser.py:47-48 | `list(reversed(s))`: element i is the input's element i places from its end, so it is a permutation that starts at the old end and ends at the old start |
| `Stitching.Oriented` | svg_parser.py:47-48 | the subpath as appended is the subpath itself for a start match and its full reversal for an end match, so it starts at the endpoint the scan chose |
| `Stitching.Within` | svg_parser.py:44 | the tolerance test, `tol > 0 and d2 < tol**2`, whose meaning as `hypot < tol` is `WithinIsHypotBelow` |
| `Stitching.WithinIsHypotBelow` | svg_parser.py:34-35 | for the non-negative square root h of d2, `Within(d2, tol)` holds exactly when h < tol, which is `math.hypot(dx, dy) < tol` |
| `Stitching.Consider` | svg_parser.py:33-43 | one scan round yields a candidate, either this subpath or the previous best |
| `Stitching.BestAmong` | svg_parser.py:33-43 | the scan finds a candidate exactly when the pool is non-empty, with an index in the pool |
| `Stitching.Nearest` | svg_parser.py:30-43 | the scan over the whole pool finds a candidate exactly when the pool is non-empty, with an index in the pool |
| `Stitching.BestAmongIsNearest` | svg_parser.py:33-43 | the scan's candidate is an endpoint at minimal distance, the lowest index among ties, start before end |
| `Stitching.NearestIsUnique` | svg_parser.py:36-43 | only one candidate meets that description, so it determines the scan's result |
| `Stitching.Join` | svg_parser.py:49-53 | the chain is kept as a prefix, followed by next without its first point exactly when that point lies within 1e-6 of the chain's end, else by all of next |
| `Stitching.Remove` | svg_parser.py:46 | `pop(i)`: the elements before i stay in place, those after move down by one, and exactly the element at i leaves the multiset |
| `Stitching.GrowChain` | svg_parser.py:27-55 | growing keeps the seed as the chain's prefix and never enlarges the pool |
| `Stitching.StitchPool` | svg_parser.py:24-56 | the chains of a sorted pool: no empty path, no more paths than subpaths, and none exactly for an empty pool |
| `Stitching.LengthKey` | svg_parser.py:23 | the sort key `-len(s)`, ordering longest first as `LengthKeyLongestFirst` states |
| `Stitching.LengthKeyLongestFirst` | svg_parser.py:23 | one key is at most another exactly when its subpath is at least as long |
| `Stitching.Stitch` | svg_parser.py:13-57 | `smart_stitch_subpaths`: no empty path, no more paths than inputs, and an empty result exactly for empty input |
| `Stitching.NearestEndpoint` | svg_parser.py:30-43 | the scan loop computes the nearest-endpoint candidate |
| `Stitching.ExtendChain` | svg_parser.py:27-55 | the inner loop leaves the chain and the pool exactly as `GrowChain` specifies |
| `Stitching.StitchLoop` | svg_parser.py:24-56 | the outer loop over the sorted pool returns exactly `StitchPool` of it |
| `Stitching.SmartStitch` | svg_parser.py:13-57 | sorting and then the nested loops return exactly the specified stitching |
| `Stitching.PointsPermutation` | svg_parser.py:23 | reordering subpaths keeps their multiset of points |
| `Stitching.GrowChainAccounts` | svg_parser.py:45-53 | growing a chain loses no points except at most one duplicate per absorbed subpath |
| `Stitching.ChainIsMaximal` | svg_parser.py:44-55 | when a chain is finished, no endpoint left in the pool is within tolerance of its end |
| `Stitching.AbsorbedJoinsWithin` | svg_parser.py:44-53 | a chain absorbs a subpath only when the chosen endpoint is strictly within tolerance of the chain's end at that moment, piece after piece |
| `Stitching.UsageJoinsWithin` | svg_parser.py:24-55 | for every path built from a pool, each piece after the seed was joined strictly within tolerance of the path's end at that moment |
| `Stitching.StitchJoinsWithin` | svg_parser.py:13-57 | every stitched path is its seed with pieces joined on one at a time, each only when its chosen endpoint was strictly within tolerance of the path's end |
| `Stitching.StitchConservesPoints` | svg_parser.py:13-57 | output points are a sub-multiset of input points, at most one lost per merge; no more paths than inputs, at least one for non-empty input |
| `Stitching.PathStartsAtSeed` | svg_parser.py:25-26 | each path begins at its seed's first point |
| `Stitching.NextSeedApart` | svg_parser.py:45-55 | the next seed's start is out of tolerance of the finished chain's end |
| `Stitching.ConsecutivePathsApart` | svg_parser.py:24-56 | each path starts out of tolerance of the previous path's end |
| `Stitching.StitchedPathsApart` | svg_parser.py:13-57 | the same, for the stitched output |
| `Stitching.FirstPathIsLongest` | svg_parser.py:22-26 | the first path is at least as long as every input subpath |
| `Stitching.RemoveKeepsSorted` | svg_parser.py:46 | `pop(i)` keeps a sorted list sorted |
| `Stitching.GrowChainLeftSorted` | svg_parser.py:27-53 | growing a chain leaves the unused list in its sorted order |
| `Stitching.UsageSeedsLongest` | svg_parser.py:23-25 | for a pool sorted longest first, each chain's seed is at least as long as every piece of its own path and of every later path, which are the subpaths left when it is taken |
| `Stitching.EverySeedIsLongest` | svg_parser.py:23-25 | every stitched path is seeded with a longest subpath among those not yet used |
| `Stitching.NoToleranceNoGrowth` | svg_parser.py:45 | with tolerance zero or below, nothing is ever joined |
| `Stitching.NoToleranceOnlySorts` | svg_parser.py:23 | with tolerance zero or below, the output is the input sorted longest first |
| `Stitching.SingleSubpath` | svg_parser.py:24-57 | a single subpath comes back unchanged |
| `Stitching.TouchingEndIsJoinedReversed` | svg_parser.py:40-51 | a subpath whose end meets the chain's end is reversed and joined, sharing one point |
| `Stitching.OutOfReachStaysSeparate` | svg_parser.py:45-55 | two subpaths out of each other's reach stay separate, the longer first |
| `Stitching.GrowChainIsJoinOfAbsorbed` | svg_parser.py:45-53 | a chain is its seed with each absorbed subpath joined on in order and orientation |
| `Stitching.AbsorbedAndLeftArePool` | svg_parser.py:46 | the absorbed subpaths and those left form exactly the starting pool |
| `Stitching.UsageCoversPool` | svg_parser.py:24-46 | every pool subpath is used by exactly one path |
| `Stitching.UsageBuildsPaths` | svg_parser.py:24-56 | each path is its unreversed seed with its absorbed subpaths joined on |
| `Stitching.StitchUsesEachInputOnce` | svg_parser.py:13-57 | every input subpath is used once, in original or fully reversed order, and the pieces build the output paths |
| `Roles.StrokeColor` | svg_parser.py:62-65 | a missing stroke reads as black (0, 0, 0); an empty or `none` stroke has no colour |
| `Roles.Classify` | svg_parser.py:68-73 | cut exactly when all channels are below 20; score exactly when r > 200, g < 50 and b < 50 |
| `SvgParser.FirstPointKey` | svg_parser.py:78-79 | a non-empty subpath is keyed by its first point's (x, y) |
| `SvgParser.GatheredNonEmpty` | svg_parser.py:59-75 | every gathered subpath is non-empty |
| `SvgParser.PathsByColor` | svg_parser.py:9-84 | the result is one cut list and one score list, each wrapped once, holding no empty path |
| `SvgParser.GetPathsByColor` | svg_parser.py:9-84 | the element loop, sort and stitch return exactly the specified cut and score lists |
| `SvgParser.GatheredConcat` | svg_parser.py:59-75 | gathering works element by element, in selection order |
| `SvgParser.UnrelatedElementsContributeNothing` | svg_parser.py:60-66 | non-path elements, paths without stroke and paths of other roles contribute nothing |
| `SvgParser.PathContributes` | svg_parser.py:68-76 | a path of the role contributes all its extracted subpaths, after the earlier ones |
| `SvgParser.StitchedRoleConservesPoints` | svg_parser.py:78-84 | each colour's toolpaths hold only points drawn in that colour, at most one lost per merge |
| `SvgParser.NothingSelected` | svg_parser.py:59-84 | when no element is a path stroked black or red (other elements, strokeless paths, other colours), both results are one empty list |
| `Placement.MinOf` | gcode_generator.py:1105-1108 | the minimum is a lower bound of the coordinates and is attained |
| `Placement.MaxOf` | gcode_generator.py:1105-1108 | the maximum is an upper bound of the coordinates and is attained |
| `Placement.ShiftPath` | gcode_generator.py:1114-1115 | shifting a path keeps its number of subpaths |
| `Placement.CenterPathsOnBed` | gcode_generator.py:1099-1118 | centring keeps the number of cut and score paths |
| `Placement.CenteringOffset` | gcode_generator.py:1105-1111 | the offset puts the shifted bounding box symmetrically about the bed's centre: min + offset and max + offset sum to the bed size on each axis |
| `Placement.PointsOfShiftedGroup` | gcode_generator.py:1114-1117 | the points of the shifted paths are the shifted points |
| `Placement.ShiftMovesExtremes` | gcode_generator.py:1105-1113 | a translation moves each extreme by the offset |
| `Placement.ShiftIsTranslation` | gcode_generator.py:1114-1117 | shifting keeps the number of paths, of subpaths in each path and of points in each subpath (empty ones included), and moves each point by the offset |
| `Placement.CenteringIsTranslation` | gcode_generator.py:1101-1118 | both groups move by one and the same offset, the one that centres their common bounding box |
| `Placement.PointsOfCentredGroup` | gcode_generator.py:1102-1117 | the centred group's points are the original points shifted by the centring offset |
| `Placement.CenteredBoundingBox` | gcode_generator.py:1105-1113 | after centring, min = (bed - w)/2 and max = (bed + w)/2 on each axis |
| `Placement.CenteringIsIdempotent` | gcode_generator.py:1099-1118 | centring an already centred group changes nothing |
| `Placement.OutOfBounds` | gcode_generator.py:1077-1082 | true exactly when some point lies outside the bed less its margin (inclusive) |
| `Placement.InBounds` | gcode_generator.py:1080 | the inclusive test of one point; a point can pass only when the margin fits twice into the bed on each axis |
| `Placement.FitFails` | gcode_generator.py:1087-1093 | the bounding-box test, guarded by `if all_points`: it never fails for an empty drawing |
| `Placement.FitFailsIffSomePointOut` | gcode_generator.py:1087-1094 | the bounding-box fit test fails exactly when some point is out of bounds |
| `Placement.CenteredFitsIffSmallEnough` | gcode_generator.py:1093 | a centred drawing fits exactly when its width and height leave the margin on both sides |

## Left out

- SVG document access is not part of this model: the selection, the style
  parsing, `composed_transform`, `to_absolute()` and `to_arrays()`. A path
  element is given as its stroke and an absolute, transformed command list.
- Colour strings are not parsed here. `inkex.Color` is an SVG library call,
  so a declared stroke carries the RGB triple the library reads from it.
  Alpha channels are not modelled.
- `unittouu('1mm')` is a document query. The scale is a parameter, required
  to be non-zero, as any real document's millimetre size is.
- Floating-point rounding is not modelled: coordinates are reals, and
  `hypot` comparisons are squared comparisons.
- Bezier.FlattenCubic: the source recurses without a bound, and on a curve
  that never becomes flat it would stop with Python's recursion-limit error.
  The model gives the recursion a depth budget (`DepthLimit`, 900) and
  accepts the chord once the budget is spent. The lemmas say what holds
  within the budget.
- PathData.Step and PathData.ExtractPathData take the curve flattener as a
  parameter that meets `IsFlattener`. `PathData.Flattener` supplies the
  modelled flattener, and `SvgParser.GetPathsByColor` uses it.
- Arcs are the straight segment to their end point, as in the source. The
  radii, rotation and flags are read but unused.
- Stitching.StitchConservesPoints: the point count is stated as a bound, at
  most one point lost per merged subpath. It is not the exact number of
  near-duplicate joins.
- `SvgParser.GetPathsByColor` and the stitcher require non-empty subpaths.
  In the source, an empty subpath alongside others reaches `sub[0]` in the
  scan and fails with an index error; a lone empty subpath comes back as it
  is. Extraction never produces one (`PathData.ExtractedSubpathsNonEmpty`).
- The bounds test and the fit test are modelled on a flat list of points.
  In gcode_generator.py:1077-1094 they iterate one nesting level above the
  points, and that caller is not modelled. The same caller passes two
  arguments that `get_paths_by_color` does not accept.
- The `margin` argument of `center_paths_on_bed` is unused in the source, so
  `Placement.CenterPathsOnBed` has no such parameter.
- The G-code generation, the GTK dialog, the preview, the background thread
  and config_manager.py are not part of this model.

## Findings

| source | as written | input that shows it | evidently intended | confidence | as-written member | corrected member |
|---|---|---|---|---|---|---|
| svg_parser.py:226-228 | `Z` appends the subpath's first point but leaves the pen (`last`) and the last control point unchanged | `M 0 0 L 10 10 Z A 1 1 0 0 1 5 0`: the arc's points (9, 8) … (5, 0) are interpolated from the pre-close point (10, 10) | after `Z` the pen is at the subpath's first point, as the drawn polyline is, so the arc adds (1, 0) … (5, 0) | medium, not executed | `PathData.ExtractAsWrittenLeavesPenBehind` | `PathData.PolylineEndsAtPen` |

The extraction model (`PathData.Step`, `PathData.Run`, `PathData.Extract`,
`PathData.ExtractPathData`) and everything built on it (`SvgParser`) close
subpaths as the code is written (`PathData.CloseAsWritten`), so they describe
what the program does. The corrected walk (`PathData.StepClosed`,
`PathData.RunClosed`) closes with `PathData.Close`; with it, the current
subpath always ends at the pen (`PathData.PolylineEndsAtPen`).
