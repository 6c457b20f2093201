/** `smart_stitch_subpaths` of svg_parser.py: greedy chaining of subpaths
    into as few toolpaths as possible. The pool is sorted longest first; each
    chain starts from the first subpath left in the pool and repeatedly
    absorbs the pool subpath with an endpoint nearest to the chain's end,
    reversed when its end point was the nearer one, as long as that distance
    is below the tolerance. A joined subpath whose first point lies within
    1e-6 of the chain's end loses that duplicate point.

    `math.hypot(dx, dy) < tol` is modelled on squared distances: it holds
    exactly when tol > 0 and dx^2 + dy^2 < tol^2 (`Within`); comparisons of
    two hypot values compare the squared distances, which orders them the
    same way. */
module Stitching {
  import opened Wrappers
  import opened Geometry
  import opened Ordering

  /** Default joining tolerance, in working-area units. */
  const DefaultTolerance: real := 0.3

  /** Distance below which a joined subpath's first point is a duplicate. */
  const Eps: real := 0.000001

  /** Whether a distance with square d2 is below `tol`. */
  predicate Within(d2: real, tol: real)
  {
    tol > 0.0 && d2 < Sq(tol)
  }

  /** `Within` is `hypot < tol`: for the non-negative h whose square is d2
      (the hypot of the two coordinate differences), it holds exactly when
      h is below the tolerance. */
  lemma WithinIsHypotBelow(d2: real, tol: real, h: real)
    requires h >= 0.0 && Sq(h) == d2
    ensures Within(d2, tol) <==> h < tol
  {
    if h < tol {
      SqStrictlyIncreasing(h, tol);
    } else if tol > 0.0 {
      if h > tol {
        SqStrictlyIncreasing(tol, h);
      }
    }
  }

  lemma SqStrictlyIncreasing(u: real, v: real)
    requires 0.0 <= u < v
    ensures Sq(u) < Sq(v)
  {
    MulPositive(v - u, v + u);
    assert Mul(v - u, v + u) == Sq(v) - Sq(u);
  }

  function Last(s: Subpath): Point
    requires s != []
  {
    s[|s| - 1]
  }

  /** Python's `list(reversed(s))`. */
  function Reverse(s: Subpath): (r: Subpath)
    ensures |r| == |s| && multiset(r) == multiset(s)
    ensures forall i :: 0 <= i < |s| ==> r[i] == s[|s| - 1 - i]
    ensures s != [] ==> r[0] == Last(s) && Last(r) == s[0]
  {
    if s == [] then []
    else
      assert s == [s[0]] + s[1..];
      Reverse(s[1..]) + [s[0]]
  }

  predicate AllNonEmpty(subs: seq<Subpath>)
  {
    forall i :: 0 <= i < |subs| ==> subs[i] != []
  }

  /** All points of a list of subpaths, in order. */
  function Points(subs: seq<Subpath>): seq<Point>
  {
    if subs == [] then [] else subs[0] + Points(subs[1..])
  }

  /** The best candidate seen so far in the scan: pool index, squared
      distance, and whether the subpath's end point (not its start) is the
      near one. */
  datatype Candidate = Candidate(index: nat, dist: real, reversed: bool)

  /** The endpoint of `sub` that a candidate refers to. */
  function Endpoint(sub: Subpath, reversed: bool): Point
    requires sub != []
  {
    if reversed then Last(sub) else sub[0]
  }

  /** The subpath as it is appended: reversed when its end point was the
      near one, so that it then starts there. */
  function Oriented(sub: Subpath, reversed: bool): (r: Subpath)
    requires sub != []
    ensures !reversed ==> r == sub
    ensures reversed ==> r == Reverse(sub)
    ensures |r| == |sub| && multiset(r) == multiset(sub)
    ensures r != [] && r[0] == Endpoint(sub, reversed)
  {
    if reversed then Reverse(sub) else sub
  }

  /** One round of the scan: the start point replaces the best candidate if
      there is none or it is strictly nearer; then the end point replaces
      the (updated) best if it is strictly nearer still. */
  function Consider(best: Option<Candidate>, idx: nat, sub: Subpath, p: Point): (r: Option<Candidate>)
    requires sub != []
    ensures r.Some?
    ensures r.value.index == idx || (best.Some? && r.value == best.value)
  {
    var dStart := Dist2(sub[0], p);
    var dEnd := Dist2(Last(sub), p);
    var afterStart := if best.None? || dStart < best.value.dist then Candidate(idx, dStart, false) else best.value;
    if dEnd < afterStart.dist then Some(Candidate(idx, dEnd, true)) else Some(afterStart)
  }

  /** The scan over the first n pool subpaths. */
  function BestAmong(pool: seq<Subpath>, p: Point, n: nat): (r: Option<Candidate>)
    requires n <= |pool| && AllNonEmpty(pool)
    ensures n == 0 <==> r.None?
    ensures r.Some? ==> r.value.index < n
  {
    if n == 0 then None else Consider(BestAmong(pool, p, n - 1), n - 1, pool[n - 1], p)
  }

  /** The scan over the whole pool, from point p (the chain's end). */
  function Nearest(pool: seq<Subpath>, p: Point): (r: Option<Candidate>)
    requires AllNonEmpty(pool)
    ensures r.None? <==> pool == []
    ensures r.Some? ==> r.value.index < |pool|
  {
    BestAmong(pool, p, |pool|)
  }

  /** What the scan over the first n subpaths finds, stated independently:
      an endpoint at minimal distance from p; among those, the one of the
      lowest index, and at that index the start point before the end. */
  predicate IsNearestAmong(c: Candidate, pool: seq<Subpath>, p: Point, n: nat)
    requires n <= |pool| && AllNonEmpty(pool)
  {
    c.index < n &&
    c.dist == Dist2(Endpoint(pool[c.index], c.reversed), p) &&
    (forall j :: 0 <= j < n ==> c.dist <= Dist2(pool[j][0], p) && c.dist <= Dist2(Last(pool[j]), p)) &&
    (forall j :: 0 <= j < c.index ==> c.dist < Dist2(pool[j][0], p) && c.dist < Dist2(Last(pool[j]), p)) &&
    (c.reversed ==> c.dist < Dist2(pool[c.index][0], p))
  }

  /** The scan finds the nearest endpoint as characterised above. */
  lemma {:induction false} BestAmongIsNearest(pool: seq<Subpath>, p: Point, n: nat)
    requires n <= |pool| && AllNonEmpty(pool)
    ensures n > 0 ==> IsNearestAmong(BestAmong(pool, p, n).value, pool, p, n)
  {
    if n > 1 {
      BestAmongIsNearest(pool, p, n - 1);
    }
  }

  /** The characterisation admits one candidate only, so it describes the
      scan's result completely. */
  lemma NearestIsUnique(c: Candidate, d: Candidate, pool: seq<Subpath>, p: Point, n: nat)
    requires n <= |pool| && AllNonEmpty(pool)
    requires IsNearestAmong(c, pool, p, n) && IsNearestAmong(d, pool, p, n)
    ensures c == d
  {
  }

  /** Appends the next subpath to the chain, dropping its first point if it
      duplicates the chain's end. */
  function Join(chain: Subpath, next: Subpath): (r: Subpath)
    requires chain != [] && next != []
    ensures chain <= r && (|next| > 1 ==> Last(r) == Last(next))
    ensures r[|chain|..] == if Within(Dist2(next[0], Last(chain)), Eps) then next[1..] else next
    ensures |r| == |chain| + |next| - 1 || |r| == |chain| + |next|
    ensures multiset(r) <= multiset(chain) + multiset(next)
  {
    if Within(Dist2(next[0], Last(chain)), Eps) then
      assert next == [next[0]] + next[1..];
      assert multiset(next) == multiset{next[0]} + multiset(next[1..]);
      chain + next[1..]
    else chain + next
  }

  /** The pool without its element i (Python's `pop(i)`). */
  function Remove(s: seq<Subpath>, i: nat): (r: seq<Subpath>)
    requires i < |s|
    ensures |r| == |s| - 1
    ensures forall j :: 0 <= j < i ==> r[j] == s[j]
    ensures forall j :: i <= j < |r| ==> r[j] == s[j + 1]
    ensures multiset(r) + multiset{s[i]} == multiset(s)
    ensures AllNonEmpty(s) ==> AllNonEmpty(r)
  {
    assert s == s[..i] + [s[i]] + s[i + 1..];
    s[..i] + s[i + 1..]
  }

  /** Grows one chain: while the pool is not empty and its nearest endpoint
      is within tolerance, that subpath leaves the pool and is joined on.
      Returns the finished chain and the remaining pool. */
  function GrowChain(chain: Subpath, pool: seq<Subpath>, tol: real): (res: (Subpath, seq<Subpath>))
    requires chain != [] && AllNonEmpty(pool)
    ensures res.0 != [] && AllNonEmpty(res.1)
    ensures chain <= res.0 && |res.1| <= |pool|
    decreases |pool|
  {
    if pool == [] then (chain, pool)
    else
      var best := Nearest(pool, Last(chain)).value;
      if Within(best.dist, tol) then
        GrowChain(Join(chain, Oriented(pool[best.index], best.reversed)), Remove(pool, best.index), tol)
      else (chain, pool)
  }

  /** Chains built from a pool: the first subpath left seeds a chain, which
      is grown to its end; then the next one. */
  function StitchPool(pool: seq<Subpath>, tol: real): (r: seq<Subpath>)
    requires AllNonEmpty(pool)
    ensures AllNonEmpty(r) && |r| <= |pool| && (r == [] <==> pool == [])
    decreases |pool|
  {
    if pool == [] then []
    else
      var grown := GrowChain(pool[0], pool[1..], tol);
      [grown.0] + StitchPool(grown.1, tol)
  }

  /** Sort key for `-len(s)`: longest first. */
  function LengthKey(s: Subpath): Key
  {
    Key(-(|s| as real), 0.0)
  }

  /** Sorting by `LengthKey` puts longer subpaths first: one key is at most
      another exactly when its subpath is at least as long. */
  lemma LengthKeyLongestFirst(a: Subpath, b: Subpath)
    ensures KeyLe(LengthKey(a), LengthKey(b)) <==> |a| >= |b|
  {
  }

  lemma SortKeepsNonEmpty(subpaths: seq<Subpath>, key: Subpath -> Key)
    requires AllNonEmpty(subpaths)
    ensures AllNonEmpty(SortBy(subpaths, key))
  {
    var sorted := SortBy(subpaths, key);
    forall i | 0 <= i < |sorted|
      ensures sorted[i] != []
    {
      assert sorted[i] in multiset(subpaths);
    }
  }

  /** `smart_stitch_subpaths` as a function of its input. */
  function Stitch(subpaths: seq<Subpath>, tol: real): (r: seq<Subpath>)
    requires AllNonEmpty(subpaths)
    ensures AllNonEmpty(r) && |r| <= |subpaths| && (r == [] <==> subpaths == [])
  {
    if subpaths == [] then []
    else
      SortKeepsNonEmpty(subpaths, LengthKey);
      StitchPool(SortBy(subpaths, LengthKey), tol)
  }

  /** The scan of the source's inner loop over the pool: for each subpath,
      its start and then its end point are compared against the best so
      far. */
  method NearestEndpoint(unused: seq<Subpath>, lastPt: Point) returns (best: Option<Candidate>)
    requires AllNonEmpty(unused)
    ensures best == Nearest(unused, lastPt)
  {
    best := None;
    for idx := 0 to |unused|
      invariant best == BestAmong(unused, lastPt, idx)
    {
      var sub := unused[idx];
      var dStart := Dist2(sub[0], lastPt);
      var dEnd := Dist2(sub[|sub| - 1], lastPt);
      if best.None? || dStart < best.value.dist {
        best := Some(Candidate(idx, dStart, false));
      }
      if dEnd < best.value.dist {
        best := Some(Candidate(idx, dEnd, true));
      }
    }
  }

  /** The source's inner `while unused` loop: the chain absorbs the nearest
      pool subpath, oriented and de-duplicated, until the pool is empty or
      its nearest endpoint is out of tolerance. */
  method ExtendChain(chain0: Subpath, pool: seq<Subpath>, tol: real) returns (chain: Subpath, unused: seq<Subpath>)
    requires chain0 != [] && AllNonEmpty(pool)
    ensures (chain, unused) == GrowChain(chain0, pool, tol)
  {
    chain, unused := chain0, pool;
    while unused != []
      invariant chain != [] && AllNonEmpty(unused)
      invariant GrowChain(chain, unused, tol) == GrowChain(chain0, pool, tol)
      decreases |unused|
    {
      var best := NearestEndpoint(unused, chain[|chain| - 1]);
      if best.Some? && Within(best.value.dist, tol) {
        var next := unused[best.value.index];
        ghost var before := unused;
        unused := unused[..best.value.index] + unused[best.value.index + 1..];
        assert unused == Remove(before, best.value.index);
        if best.value.reversed {
          next := Reverse(next);
        }
        assert next == Oriented(before[best.value.index], best.value.reversed);
        if Within(Dist2(next[0], chain[|chain| - 1]), Eps) {
          chain := chain + next[1..];
        } else {
          chain := chain + next;
        }
      } else {
        return;
      }
    }
  }

  /** The source's outer `while unused` loop: the first subpath left seeds a
      chain, which is extended to its end and filed. */
  method StitchLoop(pool: seq<Subpath>, tol: real) returns (stitched: seq<Subpath>)
    requires AllNonEmpty(pool)
    ensures stitched == StitchPool(pool, tol)
  {
    var unused := pool;
    stitched := [];
    while unused != []
      invariant AllNonEmpty(unused)
      invariant stitched + StitchPool(unused, tol) == StitchPool(pool, tol)
      decreases |unused|
    {
      ghost var before := unused;
      var chain := unused[0];
      chain, unused := ExtendChain(chain, unused[1..], tol);
      StitchPoolStep(before, tol);
      assert (stitched + [chain]) + StitchPool(unused, tol) == stitched + ([chain] + StitchPool(unused, tol));
      stitched := stitched + [chain];
    }
  }

  /** One round of the outer loop: the first subpath's chain, then the
      chains of what it leaves. */
  lemma StitchPoolStep(pool: seq<Subpath>, tol: real)
    requires AllNonEmpty(pool) && pool != []
    ensures var grown := GrowChain(pool[0], pool[1..], tol);
      StitchPool(pool, tol) == [grown.0] + StitchPool(grown.1, tol)
  {
  }

  /** `smart_stitch_subpaths`, as the source runs it: the pool sorted
      longest first, then the loops. Every subpath must be non-empty: the
      source indexes `sub[0]` and `stitched_path[-1]`, which fail on an
      empty one among others. */
  method SmartStitch(subpaths: seq<Subpath>, tol: real) returns (stitched: seq<Subpath>)
    requires AllNonEmpty(subpaths)
    ensures stitched == Stitch(subpaths, tol)
  {
    if subpaths == [] {
      return [];
    }
    var unused := SortBy(subpaths, LengthKey);
    SortKeepsNonEmpty(subpaths, LengthKey);
    stitched := StitchLoop(unused, tol);
  }

  lemma {:induction false} PointsConcat(a: seq<Subpath>, b: seq<Subpath>)
    ensures Points(a + b) == Points(a) + Points(b)
    decreases |a|
  {
    if a == [] {
      assert a + b == b;
    } else {
      assert (a + b)[0] == a[0] && (a + b)[1..] == a[1..] + b;
      PointsConcat(a[1..], b);
    }
  }

  lemma PointsRemove(s: seq<Subpath>, i: nat)
    requires i < |s|
    ensures multiset(Points(s)) == multiset(s[i]) + multiset(Points(Remove(s, i)))
    ensures |Points(s)| == |s[i]| + |Points(Remove(s, i))|
  {
    assert s == s[..i] + ([s[i]] + s[i + 1..]);
    PointsConcat(s[..i], [s[i]] + s[i + 1..]);
    PointsConcat([s[i]], s[i + 1..]);
    PointsConcat(s[..i], s[i + 1..]);
    assert Points([s[i]]) == s[i] + Points([]);
  }

  /** Reordering the subpaths reorders their points. */
  lemma {:induction false} PointsPermutation(a: seq<Subpath>, b: seq<Subpath>)
    requires multiset(a) == multiset(b)
    ensures multiset(Points(a)) == multiset(Points(b)) && |Points(a)| == |Points(b)|
    decreases |a|
  {
    if a == [] {
      assert |b| == |multiset(b)| == 0;
    } else {
      assert a[0] in multiset(b);
      var k :| 0 <= k < |b| && b[k] == a[0];
      assert b == b[..k] + [b[k]] + b[k + 1..];
      assert a == [a[0]] + a[1..];
      assert multiset(b) == multiset(b[..k]) + multiset{b[k]} + multiset(b[k + 1..]);
      assert multiset(a) == multiset{a[0]} + multiset(a[1..]);
      assert multiset(Remove(b, k)) == multiset(b[..k]) + multiset(b[k + 1..]);
      assert multiset(Remove(b, k)) == multiset(b) - multiset{b[k]};
      assert multiset(a[1..]) == multiset(a) - multiset{a[0]};
      PointsPermutation(a[1..], Remove(b, k));
      PointsRemove(b, k);
    }
  }

  /** Growing a chain loses no point other than dropped duplicates, one per
      subpath absorbed at most. */
  lemma {:induction false} GrowChainAccounts(chain: Subpath, pool: seq<Subpath>, tol: real)
    requires chain != [] && AllNonEmpty(pool)
    ensures var res := GrowChain(chain, pool, tol);
      multiset(res.0) + multiset(Points(res.1)) <= multiset(chain) + multiset(Points(pool)) &&
      |res.0| + |Points(res.1)| + (|pool| - |res.1|) >= |chain| + |Points(pool)|
    decreases |pool|
  {
    if pool != [] {
      var best := Nearest(pool, Last(chain)).value;
      if Within(best.dist, tol) {
        var next := Oriented(pool[best.index], best.reversed);
        GrowChainAccounts(Join(chain, next), Remove(pool, best.index), tol);
        PointsRemove(pool, best.index);
      }
    }
  }

  /** A finished chain cannot be extended: no endpoint of a subpath left in
      the pool is within tolerance of the chain's end. */
  lemma {:induction false} ChainIsMaximal(chain: Subpath, pool: seq<Subpath>, tol: real)
    requires chain != [] && AllNonEmpty(pool)
    ensures var res := GrowChain(chain, pool, tol);
      forall j :: 0 <= j < |res.1| ==>
        !Within(Dist2(res.1[j][0], Last(res.0)), tol) && !Within(Dist2(Last(res.1[j]), Last(res.0)), tol)
    decreases |pool|
  {
    if pool != [] {
      var best := Nearest(pool, Last(chain)).value;
      if Within(best.dist, tol) {
        var joined := Join(chain, Oriented(pool[best.index], best.reversed));
        assert GrowChain(chain, pool, tol) == GrowChain(joined, Remove(pool, best.index), tol);
        ChainIsMaximal(joined, Remove(pool, best.index), tol);
      } else {
        BestAmongIsNearest(pool, Last(chain), |pool|);
      }
    }
  }

  lemma {:induction false} StitchPoolAccounts(pool: seq<Subpath>, tol: real)
    requires AllNonEmpty(pool)
    ensures var out := StitchPool(pool, tol);
      AllNonEmpty(out) && |out| <= |pool| && (pool != [] ==> |out| >= 1) &&
      multiset(Points(out)) <= multiset(Points(pool)) &&
      |Points(out)| + (|pool| - |out|) >= |Points(pool)|
    decreases |pool|
  {
    if pool != [] {
      var grown := GrowChain(pool[0], pool[1..], tol);
      StitchPoolAccounts(grown.1, tol);
      GrowChainAccounts(pool[0], pool[1..], tol);
      PointsConcat([grown.0], StitchPool(grown.1, tol));
      assert Points([grown.0]) == grown.0 + Points([]);
    }
  }

  /** Stitching keeps every drawn point except dropped duplicates: the
      output's points are a sub-multiset of the input's, and at most one
      point is lost per subpath merged away. The output is never longer than
      the input, and non-empty input yields at least one path. */
  lemma StitchConservesPoints(subpaths: seq<Subpath>, tol: real)
    requires AllNonEmpty(subpaths)
    ensures var out := Stitch(subpaths, tol);
      AllNonEmpty(out) && |out| <= |subpaths| && (subpaths != [] ==> |out| >= 1) &&
      multiset(Points(out)) <= multiset(Points(subpaths)) &&
      |Points(out)| + (|subpaths| - |out|) >= |Points(subpaths)|
  {
    if subpaths != [] {
      SortKeepsNonEmpty(subpaths, LengthKey);
      StitchPoolAccounts(SortBy(subpaths, LengthKey), tol);
      PointsPermutation(SortBy(subpaths, LengthKey), subpaths);
    }
  }

  /** Each path begins where its seed subpath began. */
  lemma PathStartsAtSeed(pool: seq<Subpath>, tol: real)
    requires AllNonEmpty(pool) && pool != []
    ensures StitchPool(pool, tol) != [] && StitchPool(pool, tol)[0] != []
    ensures StitchPool(pool, tol)[0][0] == pool[0][0]
  {
    var grown := GrowChain(pool[0], pool[1..], tol);
    assert StitchPool(pool, tol)[0] == grown.0;
  }

  /** The subpath seeding the next path lies out of tolerance of the
      finished chain's end. */
  lemma NextSeedApart(chain: Subpath, pool: seq<Subpath>, tol: real)
    requires chain != [] && AllNonEmpty(pool)
    ensures var res := GrowChain(chain, pool, tol);
      res.1 != [] ==> !Within(Dist2(res.1[0][0], Last(res.0)), tol)
  {
    ChainIsMaximal(chain, pool, tol);
  }

  /** A new toolpath starts only where the previous one could not reach:
      each path's first point is out of tolerance of the previous path's
      end. */
  lemma {:induction false} ConsecutivePathsApart(pool: seq<Subpath>, tol: real)
    requires AllNonEmpty(pool)
    ensures AllNonEmpty(StitchPool(pool, tol))
    ensures forall k :: 0 <= k < |StitchPool(pool, tol)| - 1 ==>
      !Within(Dist2(StitchPool(pool, tol)[k + 1][0], Last(StitchPool(pool, tol)[k])), tol)
    decreases |pool|
  {
    StitchPoolAccounts(pool, tol);
    if pool != [] {
      var grown := GrowChain(pool[0], pool[1..], tol);
      var out := StitchPool(pool, tol);
      var rest := StitchPool(grown.1, tol);
      assert out == [grown.0] + rest;
      ConsecutivePathsApart(grown.1, tol);
      forall k | 0 <= k < |out| - 1
        ensures !Within(Dist2(out[k + 1][0], Last(out[k])), tol)
      {
        if k == 0 {
          PathStartsAtSeed(grown.1, tol);
          NextSeedApart(pool[0], pool[1..], tol);
          assert out[1][0] == grown.1[0][0];
        } else {
          assert out[k] == rest[k - 1] && out[k + 1] == rest[k];
        }
      }
    }
  }

  /** The stitched paths, in order, with the same property. */
  lemma StitchedPathsApart(subpaths: seq<Subpath>, tol: real)
    requires AllNonEmpty(subpaths)
    ensures var out := Stitch(subpaths, tol);
      AllNonEmpty(out) &&
      forall k :: 0 <= k < |out| - 1 ==> !Within(Dist2(out[k + 1][0], Last(out[k])), tol)
  {
    if subpaths != [] {
      SortKeepsNonEmpty(subpaths, LengthKey);
      ConsecutivePathsApart(SortBy(subpaths, LengthKey), tol);
    }
  }

  /** The first toolpath grows from a longest subpath, so it is at least as
      long as any input subpath. */
  lemma FirstPathIsLongest(subpaths: seq<Subpath>, tol: real)
    requires AllNonEmpty(subpaths) && subpaths != []
    ensures var out := Stitch(subpaths, tol);
      out != [] && forall j :: 0 <= j < |subpaths| ==> |out[0]| >= |subpaths[j]|
  {
    var sorted := SortBy(subpaths, LengthKey);
    SortKeepsNonEmpty(subpaths, LengthKey);
    SortByIsSorted(subpaths, LengthKey);
    var out := Stitch(subpaths, tol);
    assert sorted[0] <= out[0];
    forall j | 0 <= j < |subpaths|
      ensures |out[0]| >= |subpaths[j]|
    {
      assert subpaths[j] in multiset(sorted);
      var i :| 0 <= i < |sorted| && sorted[i] == subpaths[j];
      if i > 0 {
        assert KeyLe(LengthKey(sorted[0]), LengthKey(sorted[i]));
      }
    }
  }

  lemma {:induction false} NoToleranceNoGrowth(chain: Subpath, pool: seq<Subpath>, tol: real)
    requires chain != [] && AllNonEmpty(pool) && tol <= 0.0
    ensures GrowChain(chain, pool, tol) == (chain, pool)
  {
  }

  lemma {:induction false} NoTolerancePoolUnchanged(pool: seq<Subpath>, tol: real)
    requires AllNonEmpty(pool) && tol <= 0.0
    ensures StitchPool(pool, tol) == pool
    decreases |pool|
  {
    if pool != [] {
      NoToleranceNoGrowth(pool[0], pool[1..], tol);
      NoTolerancePoolUnchanged(pool[1..], tol);
    }
  }

  /** With a tolerance of zero or below nothing is joined: the output is the
      input sorted longest first. */
  lemma NoToleranceOnlySorts(subpaths: seq<Subpath>, tol: real)
    requires AllNonEmpty(subpaths) && tol <= 0.0
    ensures Stitch(subpaths, tol) == SortBy(subpaths, LengthKey)
  {
    if subpaths != [] {
      SortKeepsNonEmpty(subpaths, LengthKey);
      NoTolerancePoolUnchanged(SortBy(subpaths, LengthKey), tol);
    }
  }

  /** A single subpath comes back unchanged. */
  lemma SingleSubpath(s: Subpath, tol: real)
    requires s != []
    ensures Stitch([s], tol) == [s]
  {
    assert SortBy([s], LengthKey) == [s];
    assert [s][1..] == [];
    assert StitchPool([s], tol) == [GrowChain(s, [], tol).0] + StitchPool([], tol);
  }

  /** A subpath whose end point is the chain's end (and whose start is
      not) is reversed and joined on, and the shared point appears once. */
  lemma TouchingEndIsJoinedReversed(a: Subpath, b: Subpath, tol: real)
    requires a != [] && b != [] && tol > 0.0
    requires Last(b) == Last(a) && b[0] != Last(a)
    ensures GrowChain(a, [b], tol) == (a + Reverse(b)[1..], [])
  {
    Dist2Positive(b[0], Last(a));
    Dist2ZeroIffEqual(Last(b), Last(a));
    assert Nearest([b], Last(a)) == Some(Candidate(0, 0.0, true));
    SqPositive(tol);
    SqPositive(Eps);
    Dist2ZeroIffEqual(Reverse(b)[0], Last(a));
    assert Join(a, Oriented(b, true)) == a + Reverse(b)[1..];
    assert Remove([b], 0) == [];
    assert GrowChain(a + Reverse(b)[1..], [], tol) == (a + Reverse(b)[1..], []);
  }

  /** Two subpaths out of each other's reach stay separate paths, the
      longer one first. */
  lemma OutOfReachStaysSeparate(a: Subpath, b: Subpath, tol: real)
    requires a != [] && b != [] && |a| >= |b|
    requires !Within(Dist2(b[0], Last(a)), tol) && !Within(Dist2(Last(b), Last(a)), tol)
    ensures Stitch([a, b], tol) == [a, b]
  {
    assert SortBy([b], LengthKey) == [b];
    assert SortBy([a, b], LengthKey) == [a, b];
    var best := Nearest([b], Last(a)).value;
    assert best.dist == Dist2(b[0], Last(a)) || best.dist == Dist2(Last(b), Last(a));
    assert GrowChain(a, [b], tol) == (a, [b]);
    assert [a, b][1..] == [b] && [b][1..] == [];
    assert GrowChain(b, [], tol) == (b, []);
    assert StitchPool([b], tol) == [b] + StitchPool([], tol);
  }

  /** A subpath taken from the pool and whether it was reversed. */
  type Piece = (Subpath, bool)

  predicate PiecesNonEmpty(ps: seq<Piece>)
  {
    forall i :: 0 <= i < |ps| ==> ps[i].0 != []
  }

  /** The subpaths a chain absorbs while it grows, in the order joined, as
      they were in the pool, each with its orientation. */
  function Absorbed(chain: Subpath, pool: seq<Subpath>, tol: real): (ps: seq<Piece>)
    requires chain != [] && AllNonEmpty(pool)
    ensures PiecesNonEmpty(ps)
    decreases |pool|
  {
    if pool == [] then []
    else
      var best := Nearest(pool, Last(chain)).value;
      if Within(best.dist, tol) then
        [(pool[best.index], best.reversed)]
          + Absorbed(Join(chain, Oriented(pool[best.index], best.reversed)), Remove(pool, best.index), tol)
      else []
  }

  /** The chain obtained by joining the pieces on, one after the other. */
  function JoinAll(chain: Subpath, ps: seq<Piece>): (r: Subpath)
    requires chain != [] && PiecesNonEmpty(ps)
    ensures chain <= r
    decreases |ps|
  {
    if ps == [] then chain else JoinAll(Join(chain, Oriented(ps[0].0, ps[0].1)), ps[1..])
  }

  function Originals(ps: seq<Piece>): (subs: seq<Subpath>)
    ensures |subs| == |ps|
  {
    seq(|ps|, i requires 0 <= i < |ps| => ps[i].0)
  }

  /** A chain is its seed with each absorbed subpath joined on, in order and
      in its chosen orientation. */
  lemma {:induction false} GrowChainIsJoinOfAbsorbed(chain: Subpath, pool: seq<Subpath>, tol: real)
    requires chain != [] && AllNonEmpty(pool)
    ensures GrowChain(chain, pool, tol).0 == JoinAll(chain, Absorbed(chain, pool, tol))
    decreases |pool|
  {
    if pool != [] {
      var best := Nearest(pool, Last(chain)).value;
      if Within(best.dist, tol) {
        var i := best.index;
        var joined := Join(chain, Oriented(pool[i], best.reversed));
        var rest := Absorbed(joined, Remove(pool, i), tol);
        var ps := Absorbed(chain, pool, tol);
        assert ps == [(pool[i], best.reversed)] + rest;
        assert ps[1..] == rest;
        assert GrowChain(chain, pool, tol) == GrowChain(joined, Remove(pool, i), tol);
        assert JoinAll(chain, ps) == JoinAll(joined, rest);
        GrowChainIsJoinOfAbsorbed(joined, Remove(pool, i), tol);
      }
    }
  }

  lemma RemoveSplitsMultiset(pool: seq<Subpath>, i: nat)
    requires i < |pool|
    ensures multiset(pool) == multiset{pool[i]} + multiset(Remove(pool, i))
  {
    assert pool == pool[..i] + [pool[i]] + pool[i + 1..];
  }

  /** One absorption: the nearest subpath i is within tolerance, so it
      heads the absorbed list and growth carries on from the joined chain. */
  lemma AbsorbStep(chain: Subpath, pool: seq<Subpath>, tol: real, i: nat, reversed: bool, joined: Subpath)
    requires chain != [] && AllNonEmpty(pool) && pool != []
    requires Nearest(pool, Last(chain)).value.index == i && Nearest(pool, Last(chain)).value.reversed == reversed
    requires Within(Nearest(pool, Last(chain)).value.dist, tol)
    requires joined == Join(chain, Oriented(pool[i], reversed))
    ensures Absorbed(chain, pool, tol) == [(pool[i], reversed)] + Absorbed(joined, Remove(pool, i), tol)
    ensures GrowChain(chain, pool, tol) == GrowChain(joined, Remove(pool, i), tol)
  {
  }

  lemma OriginalsCons(p: Piece, rest: seq<Piece>)
    ensures Originals([p] + rest) == [p.0] + Originals(rest)
  {
    assert forall k :: 1 <= k < |rest| + 1 ==> ([p] + rest)[k] == rest[k - 1];
  }

  /** The subpaths a chain absorbs and those left in the pool are exactly
      the pool it started from. */
  lemma {:induction false} AbsorbedAndLeftArePool(chain: Subpath, pool: seq<Subpath>, tol: real)
    requires chain != [] && AllNonEmpty(pool)
    ensures multiset(Originals(Absorbed(chain, pool, tol))) + multiset(GrowChain(chain, pool, tol).1) == multiset(pool)
    decreases |pool|
  {
    if pool != [] {
      var best := Nearest(pool, Last(chain)).value;
      if Within(best.dist, tol) {
        var i := best.index;
        var joined := Join(chain, Oriented(pool[i], best.reversed));
        AbsorbStep(chain, pool, tol, i, best.reversed, joined);
        OriginalsCons((pool[i], best.reversed), Absorbed(joined, Remove(pool, i), tol));
        AbsorbedAndLeftArePool(joined, Remove(pool, i), tol);
        RemoveSplitsMultiset(pool, i);
      }
    }
  }

  /** For each path built from a pool, the pieces it is made of: its seed
      (never reversed) followed by the subpaths it absorbed. */
  function Usage(pool: seq<Subpath>, tol: real): (u: seq<seq<Piece>>)
    requires AllNonEmpty(pool)
    ensures forall k :: 0 <= k < |u| ==> u[k] != [] && PiecesNonEmpty(u[k])
    decreases |pool|
  {
    if pool == [] then []
    else
      var grown := GrowChain(pool[0], pool[1..], tol);
      var absorbed := Absorbed(pool[0], pool[1..], tol);
      PiecesNonEmptyCons((pool[0], false), absorbed);
      var head := [(pool[0], false)] + absorbed;
      UsageCons(head, Usage(grown.1, tol));
      [head] + Usage(grown.1, tol)
  }

  lemma PiecesNonEmptyCons(p: Piece, ps: seq<Piece>)
    requires p.0 != [] && PiecesNonEmpty(ps)
    ensures PiecesNonEmpty([p] + ps)
  {
    assert forall i :: 0 < i <= |ps| ==> ([p] + ps)[i] == ps[i - 1];
  }

  lemma UsageCons(head: seq<Piece>, rest: seq<seq<Piece>>)
    requires head != [] && PiecesNonEmpty(head)
    requires forall k :: 0 <= k < |rest| ==> rest[k] != [] && PiecesNonEmpty(rest[k])
    ensures forall k :: 0 <= k < |[head] + rest| ==> ([head] + rest)[k] != [] && PiecesNonEmpty(([head] + rest)[k])
  {
    assert forall k :: 0 < k <= |rest| ==> ([head] + rest)[k] == rest[k - 1];
  }

  /** The input subpaths used by all paths, path by path. */
  function AllOriginals(u: seq<seq<Piece>>): seq<Subpath>
  {
    if u == [] then [] else Originals(u[0]) + AllOriginals(u[1..])
  }

  lemma AllOriginalsCons(head: seq<Piece>, rest: seq<seq<Piece>>)
    ensures AllOriginals([head] + rest) == Originals(head) + AllOriginals(rest)
  {
    assert ([head] + rest)[1..] == rest;
  }

  lemma MultisetRegroup<T>(all: seq<T>, first: T, absorbed: seq<T>, later: seq<T>, left: seq<T>, pool: seq<T>)
    requires pool != [] && first == pool[0] && all == ([first] + absorbed) + later
    requires multiset(later) == multiset(left) && multiset(absorbed) + multiset(left) == multiset(pool[1..])
    ensures multiset(all) == multiset(pool)
  {
    assert pool == [pool[0]] + pool[1..];
  }

  /** Building paths from a pool uses each pool subpath exactly once. */
  lemma {:induction false} UsageCoversPool(pool: seq<Subpath>, tol: real)
    requires AllNonEmpty(pool)
    ensures multiset(AllOriginals(Usage(pool, tol))) == multiset(pool)
    decreases |pool|
  {
    if pool != [] {
      var grown := GrowChain(pool[0], pool[1..], tol);
      var ps := Absorbed(pool[0], pool[1..], tol);
      assert Usage(pool, tol) == [[(pool[0], false)] + ps] + Usage(grown.1, tol);
      AllOriginalsCons([(pool[0], false)] + ps, Usage(grown.1, tol));
      OriginalsCons((pool[0], false), ps);
      UsageCoversPool(grown.1, tol);
      AbsorbedAndLeftArePool(pool[0], pool[1..], tol);
      MultisetRegroup(AllOriginals(Usage(pool, tol)), pool[0], Originals(ps), AllOriginals(Usage(grown.1, tol)), grown.1, pool);
    }
  }

  /** Each path of out is the first piece of its usage, unreversed, with
      the other pieces joined on. */
  predicate BuiltFrom(u: seq<seq<Piece>>, out: seq<Subpath>)
    requires forall k :: 0 <= k < |u| ==> u[k] != [] && PiecesNonEmpty(u[k])
  {
    |u| == |out| && forall k :: 0 <= k < |u| ==> JoinedFrom(out[k], u[k])
  }

  /** path is the first of the pieces ps, unreversed, with the rest joined on. */
  predicate JoinedFrom(path: Subpath, ps: seq<Piece>)
    requires ps != [] && PiecesNonEmpty(ps)
  {
    assert ps[0].0 != [] && PiecesNonEmpty(ps[1..]) by {
      assert forall i :: 0 <= i < |ps| - 1 ==> ps[1..][i] == ps[i + 1];
    }
    !ps[0].1 && path == JoinAll(ps[0].0, ps[1..])
  }

  lemma BuiltFromCons(head: seq<Piece>, u: seq<seq<Piece>>, path: Subpath, out: seq<Subpath>)
    requires head != [] && PiecesNonEmpty(head)
    requires forall k :: 0 <= k < |u| ==> u[k] != [] && PiecesNonEmpty(u[k])
    requires JoinedFrom(path, head)
    requires BuiltFrom(u, out)
    ensures BuiltFrom([head] + u, [path] + out)
  {
    var u': seq<seq<Piece>>, out': seq<Subpath> := [head] + u, [path] + out;
    forall k | 0 <= k < |u'|
      ensures JoinedFrom(out'[k], u'[k])
    {
      if k > 0 {
        assert u'[k] == u[k - 1] && out'[k] == out[k - 1];
      }
    }
  }

  /** Each path built from a pool is its first piece, unreversed, with the
      others joined on. */
  lemma {:induction false} UsageBuildsPaths(pool: seq<Subpath>, tol: real)
    requires AllNonEmpty(pool)
    ensures BuiltFrom(Usage(pool, tol), StitchPool(pool, tol))
    decreases |pool|
  {
    if pool != [] {
      var grown := GrowChain(pool[0], pool[1..], tol);
      var ps := Absorbed(pool[0], pool[1..], tol);
      var head := [(pool[0], false)] + ps;
      assert Usage(pool, tol) == [head] + Usage(grown.1, tol);
      assert StitchPool(pool, tol) == [grown.0] + StitchPool(grown.1, tol);
      UsageBuildsPaths(grown.1, tol);
      GrowChainIsJoinOfAbsorbed(pool[0], pool[1..], tol);
      assert head[1..] == ps;
      BuiltFromCons(head, Usage(grown.1, tol), grown.0, StitchPool(grown.1, tol));
    }
  }

  /** The pieces of each stitched path. */
  function StitchUsage(subpaths: seq<Subpath>, tol: real): (u: seq<seq<Piece>>)
    requires AllNonEmpty(subpaths)
    ensures forall k :: 0 <= k < |u| ==> u[k] != [] && PiecesNonEmpty(u[k])
  {
    if subpaths == [] then []
    else
      SortKeepsNonEmpty(subpaths, LengthKey);
      Usage(SortBy(subpaths, LengthKey), tol)
  }

  /** Every input subpath is used exactly once, and each stitched path is
      its first piece followed by the others, each joined on in original or
      fully reversed order. */
  lemma StitchUsesEachInputOnce(subpaths: seq<Subpath>, tol: real)
    requires AllNonEmpty(subpaths)
    ensures var u, out := StitchUsage(subpaths, tol), Stitch(subpaths, tol);
      |u| == |out| &&
      multiset(AllOriginals(u)) == multiset(subpaths) &&
      forall k :: 0 <= k < |u| ==> !u[k][0].1 && out[k] == JoinAll(u[k][0].0, u[k][1..])
  {
    if subpaths != [] {
      SortKeepsNonEmpty(subpaths, LengthKey);
      UsageCoversPool(SortBy(subpaths, LengthKey), tol);
      UsageBuildsPaths(SortBy(subpaths, LengthKey), tol);
      assert BuiltFrom(StitchUsage(subpaths, tol), Stitch(subpaths, tol));
    }
  }

  /** Taking one subpath out of a sorted pool leaves it sorted. */
  lemma RemoveKeepsSorted(s: seq<Subpath>, i: nat, key: Subpath -> Key)
    requires i < |s| && SortedBy(s, key)
    ensures SortedBy(Remove(s, i), key)
  {
    var r := Remove(s, i);
    forall a, b | 0 <= a < b < |r|
      ensures KeyLe(key(r[a]), key(r[b]))
    {
      var a', b' := if a < i then a else a + 1, if b < i then b else b + 1;
      assert r[a] == s[a'] && r[b] == s[b'] && a' < b';
    }
  }

  /** Growing a chain leaves a sorted pool sorted: the subpaths it does not
      absorb keep their order. */
  lemma {:induction false} GrowChainLeftSorted(chain: Subpath, pool: seq<Subpath>, tol: real, key: Subpath -> Key)
    requires chain != [] && AllNonEmpty(pool) && SortedBy(pool, key)
    ensures SortedBy(GrowChain(chain, pool, tol).1, key)
    decreases |pool|
  {
    if pool != [] {
      var best := Nearest(pool, Last(chain)).value;
      if Within(best.dist, tol) {
        RemoveKeepsSorted(pool, best.index, key);
        GrowChainLeftSorted(Join(chain, Oriented(pool[best.index], best.reversed)), Remove(pool, best.index), tol, key);
      }
    }
  }

  /** The head of a pool sorted longest first is at least as long as every
      subpath in it. */
  lemma SortedHeadIsLongest(pool: seq<Subpath>, x: Subpath)
    requires pool != [] && SortedBy(pool, LengthKey) && x in pool
    ensures |pool[0]| >= |x|
  {
    var j :| 0 <= j < |pool| && pool[j] == x;
    if j > 0 {
      LengthKeyLongestFirst(pool[0], pool[j]);
    }
  }

  lemma {:induction false} InAllOriginals(u: seq<seq<Piece>>, k: nat, i: nat)
    requires k < |u| && i < |u[k]|
    ensures u[k][i].0 in AllOriginals(u)
    decreases |u|
  {
    AllOriginalsCons(u[0], u[1..]);
    assert u == [u[0]] + u[1..];
    if k == 0 {
      assert Originals(u[0])[i] == u[0][i].0;
    } else {
      assert u[1..][k - 1] == u[k];
      InAllOriginals(u[1..], k - 1, i);
    }
  }

  /** Every piece of every path built from a pool is a subpath of that pool. */
  lemma UsageDrawsFromPool(pool: seq<Subpath>, tol: real, k: nat, i: nat)
    requires AllNonEmpty(pool)
    requires k < |Usage(pool, tol)| && i < |Usage(pool, tol)[k]|
    ensures Usage(pool, tol)[k][i].0 in pool
  {
    var u := Usage(pool, tol);
    InAllOriginals(u, k, i);
    UsageCoversPool(pool, tol);
    assert u[k][i].0 in multiset(AllOriginals(u));
  }

  /** No piece of the paths u is longer than seed. */
  predicate NoneLonger(seed: Subpath, u: seq<seq<Piece>>)
  {
    forall k, i :: 0 <= k < |u| && 0 <= i < |u[k]| ==> |seed| >= |u[k][i].0|
  }

  /** Each path's first piece is at least as long as every piece of that
      path and of the paths after it. */
  predicate SeedsLongest(u: seq<seq<Piece>>)
  {
    forall k :: 0 <= k < |u| && u[k] != [] ==> NoneLonger(u[k][0].0, u[k..])
  }

  lemma SeedsLongestCons(head: seq<Piece>, rest: seq<seq<Piece>>)
    requires head != [] && NoneLonger(head[0].0, [head] + rest) && SeedsLongest(rest)
    ensures SeedsLongest([head] + rest)
  {
    var u: seq<seq<Piece>> := [head] + rest;
    forall k | 0 < k < |u| && u[k] != []
      ensures NoneLonger(u[k][0].0, u[k..])
    {
      assert u[k..] == rest[k - 1..];
    }
    assert u[0..] == u;
  }

  /** The head of a sorted pool is no shorter than any piece of the paths
      built from the pool. */
  lemma UsageHeadIsLongest(pool: seq<Subpath>, tol: real)
    requires AllNonEmpty(pool) && pool != [] && SortedBy(pool, LengthKey)
    ensures NoneLonger(pool[0], Usage(pool, tol))
  {
    var u: seq<seq<Piece>> := Usage(pool, tol);
    forall k, i | 0 <= k < |u| && 0 <= i < |u[k]|
      ensures |pool[0]| >= |u[k][i].0|
    {
      UsageDrawsFromPool(pool, tol, k, i);
      SortedHeadIsLongest(pool, u[k][i].0);
    }
  }

  lemma SortedTail<T>(s: seq<T>, key: T -> Key)
    requires s != [] && SortedBy(s, key)
    ensures SortedBy(s[1..], key)
  {
    forall a, b | 0 <= a < b < |s| - 1
      ensures KeyLe(key(s[1..][a]), key(s[1..][b]))
    {
      assert s[1..][a] == s[a + 1] && s[1..][b] == s[b + 1];
    }
  }

  /** For a pool sorted longest first, each chain's seed is at least as long
      as every subpath still in the pool when it is taken: every piece of
      its own path and of all later paths. */
  lemma {:induction false} UsageSeedsLongest(pool: seq<Subpath>, tol: real)
    requires AllNonEmpty(pool) && SortedBy(pool, LengthKey)
    ensures SeedsLongest(Usage(pool, tol))
    decreases |pool|
  {
    if pool != [] {
      var grown := GrowChain(pool[0], pool[1..], tol);
      var head := [(pool[0], false)] + Absorbed(pool[0], pool[1..], tol);
      assert Usage(pool, tol) == [head] + Usage(grown.1, tol);
      SortedTail(pool, LengthKey);
      GrowChainLeftSorted(pool[0], pool[1..], tol, LengthKey);
      UsageSeedsLongest(grown.1, tol);
      UsageHeadIsLongest(pool, tol);
      SeedsLongestCons(head, Usage(grown.1, tol));
    }
  }

  /** Every stitched path is seeded with a longest subpath among those not
      yet used: its first piece is at least as long as every piece of its
      own path and of every later path. */
  lemma EverySeedIsLongest(subpaths: seq<Subpath>, tol: real)
    requires AllNonEmpty(subpaths)
    ensures var u := StitchUsage(subpaths, tol);
      forall k, k', i :: 0 <= k <= k' < |u| && 0 <= i < |u[k']| ==> |u[k][0].0| >= |u[k'][i].0|
  {
    if subpaths != [] {
      SortKeepsNonEmpty(subpaths, LengthKey);
      SortByIsSorted(subpaths, LengthKey);
      UsageSeedsLongest(SortBy(subpaths, LengthKey), tol);
    }
    var u: seq<seq<Piece>> := StitchUsage(subpaths, tol);
    assert SeedsLongest(u);
    forall k, k', i | 0 <= k <= k' < |u| && 0 <= i < |u[k']|
      ensures |u[k][0].0| >= |u[k'][i].0|
    {
      assert NoneLonger(u[k][0].0, u[k..]);
      assert u[k..][k' - k] == u[k'];
    }
  }

  /** Each piece, taken in turn, had its chosen endpoint strictly within
      tolerance of the end of the chain built so far when it was joined. */
  predicate JoinsWithin(chain: Subpath, ps: seq<Piece>, tol: real)
    requires chain != [] && PiecesNonEmpty(ps)
    decreases |ps|
  {
    ps == [] ||
    (Within(Dist2(Endpoint(ps[0].0, ps[0].1), Last(chain)), tol) &&
     JoinsWithin(Join(chain, Oriented(ps[0].0, ps[0].1)), ps[1..], tol))
  }

  /** A chain absorbs a subpath only when the subpath's nearer endpoint is
      strictly within tolerance of the chain's current end. */
  lemma {:induction false} AbsorbedJoinsWithin(chain: Subpath, pool: seq<Subpath>, tol: real)
    requires chain != [] && AllNonEmpty(pool)
    ensures JoinsWithin(chain, Absorbed(chain, pool, tol), tol)
    decreases |pool|
  {
    if pool != [] {
      var best := Nearest(pool, Last(chain)).value;
      if Within(best.dist, tol) {
        var i := best.index;
        var joined := Join(chain, Oriented(pool[i], best.reversed));
        BestAmongIsNearest(pool, Last(chain), |pool|);
        AbsorbStep(chain, pool, tol, i, best.reversed, joined);
        AbsorbedJoinsWithin(joined, Remove(pool, i), tol);
        var ps := Absorbed(chain, pool, tol);
        assert ps[1..] == Absorbed(joined, Remove(pool, i), tol);
      }
    }
  }

  /** Every path's pieces after its seed were joined within tolerance. */
  predicate AllJoinWithin(u: seq<seq<Piece>>, tol: real)
    requires forall k :: 0 <= k < |u| ==> u[k] != [] && PiecesNonEmpty(u[k])
  {
    forall k :: 0 <= k < |u| ==> JoinedWithin(u[k], tol)
  }

  predicate JoinedWithin(ps: seq<Piece>, tol: real)
    requires ps != [] && PiecesNonEmpty(ps)
  {
    assert ps[0].0 != [] && PiecesNonEmpty(ps[1..]) by {
      assert forall i :: 0 <= i < |ps| - 1 ==> ps[1..][i] == ps[i + 1];
    }
    JoinsWithin(ps[0].0, ps[1..], tol)
  }

  lemma {:induction false} UsageJoinsWithin(pool: seq<Subpath>, tol: real)
    requires AllNonEmpty(pool)
    ensures AllJoinWithin(Usage(pool, tol), tol)
    decreases |pool|
  {
    if pool != [] {
      var grown := GrowChain(pool[0], pool[1..], tol);
      var head := [(pool[0], false)] + Absorbed(pool[0], pool[1..], tol);
      var rest: seq<seq<Piece>> := Usage(grown.1, tol);
      var u: seq<seq<Piece>> := [head] + rest;
      assert Usage(pool, tol) == u;
      AbsorbedJoinsWithin(pool[0], pool[1..], tol);
      assert head[1..] == Absorbed(pool[0], pool[1..], tol);
      UsageJoinsWithin(grown.1, tol);
      forall k | 0 <= k < |u|
        ensures JoinedWithin(u[k], tol)
      {
        if k > 0 {
          assert u[k] == rest[k - 1];
        }
      }
    }
  }

  /** Every stitched path is its seed with pieces joined on one at a time,
      each only when its nearer endpoint was strictly within tolerance of
      the path's end at that moment. */
  lemma StitchJoinsWithin(subpaths: seq<Subpath>, tol: real)
    requires AllNonEmpty(subpaths)
    ensures var u := StitchUsage(subpaths, tol);
      forall k :: 0 <= k < |u| ==> JoinsWithin(u[k][0].0, u[k][1..], tol)
  {
    if subpaths != [] {
      SortKeepsNonEmpty(subpaths, LengthKey);
      UsageJoinsWithin(SortBy(subpaths, LengthKey), tol);
    }
    var u: seq<seq<Piece>> := StitchUsage(subpaths, tol);
    assert AllJoinWithin(u, tol);
    forall k | 0 <= k < |u|
      ensures JoinsWithin(u[k][0].0, u[k][1..], tol)
    {
      assert JoinedWithin(u[k], tol);
    }
  }
}
