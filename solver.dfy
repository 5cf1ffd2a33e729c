/** The intersection search of `findPathDataIntersections`: for two sampled
    segments, every pair of sample pieces is intersected as straight lines;
    a hit is looked up in the call-wide table `xy` of keys already found, its
    curve parameters are interpolated from the samples and kept when both lie
    in [0, 1]. The segment-pair driver walks both paths in order and tags each
    record with the segment indices and control points. */
module Solver {
  import opened Geometry
  import opened Sampler

  /** What the search is given besides the paths: `stopAtFirst`, the line
      intersector `intersectLines` and the key a hit is recorded under
      (`x.toFixed(1) + '_' + y.toFixed(1)`). */
  datatype Env = Env(stopAtFirst: bool,
                     isect: (Point, Point, Point, Point) -> Option<Point>,
                     key: Point -> string)

  function Min2(a: real, b: real): real { if a <= b then a else b }
  function Max2(a: real, b: real): real { if a >= b then a else b }
  function Abs(a: real): real { if a < 0.0 then -a else a }

  /** The early return of `intersectLines`: the boxes of the two pieces are
      apart on one axis. */
  predicate PiecesApart(p1: Point, p2: Point, p3: Point, p4: Point) {
    || Max2(p1.x, p2.x) < Min2(p3.x, p4.x)
    || Min2(p1.x, p2.x) > Max2(p3.x, p4.x)
    || Max2(p1.y, p2.y) < Min2(p3.y, p4.y)
    || Min2(p1.y, p2.y) > Max2(p3.y, p4.y)
  }

  /** The denominator of the line-line intersection formula. */
  function Denominator(p1: Point, p2: Point, p3: Point, p4: Point): real {
    (p1.x - p2.x) * (p3.y - p4.y) - (p1.y - p2.y) * (p3.x - p4.x)
  }

  /** What is assumed of `intersectLines` (its rounding and on-line tolerance
      are not modelled): no point when the pieces' boxes are apart, nor when
      the lines are parallel. */
  ghost predicate IntersectContract(isect: (Point, Point, Point, Point) -> Option<Point>) {
    forall p1, p2, p3, p4 ::
      (PiecesApart(p1, p2, p3, p4) || Denominator(p1, p2, p3, p4) == 0.0) ==> isect(p1, p2, p3, p4).None?
  }

  function DotPoint(d: Dot): Point { Point(d.x, d.y) }

  /** The curve parameter of hit `p` on the piece from sample `a` to sample
      `b`: interpolated along `y` when the piece is less than 0.01 wide, else
      along `x`. A zero difference along that axis gives an infinite or NaN
      parameter in the source, which the range test rejects: `None` here. */
  function MapT(a: Dot, b: Dot, p: Point): (r: Option<real>)
    ensures p == DotPoint(a) && r.Some? ==> r.value == a.t
    ensures p == DotPoint(b) && r.Some? ==> r.value == b.t
  {
    var useY := Abs(b.x - a.x) < 0.01;
    var num := if useY then p.y - a.y else p.x - a.x;
    var den := if useY then b.y - a.y else b.x - a.x;
    if den == 0.0 then None else Some(a.t + Abs(num / den) * (b.t - a.t))
  }

  predicate InUnit(t: Option<real>) {
    t.Some? && 0.0 <= t.value <= 1.0
  }

  /** One result of `findCommandIntersections`. */
  datatype Hit = Hit(x: real, y: real, t1: real, t2: real)

  function KeyOf(h: Hit, env: Env): string {
    env.key(Point(h.x, h.y))
  }

  /** The state of the search: the key table `xy`, the hits so far and the
      `quit` flag. */
  datatype Search = Search(xy: set<string>, hits: seq<Hit>, quit: bool)

  /** The work on one pair of pieces `a -> a1` and `b -> b1`. A hit sets
      `quit` under `stopAtFirst` (the test `intersections` is an array and so
      always true); a hit whose key is in the table is skipped; otherwise the
      key is stored and the hit kept when both parameters lie in [0, 1]. */
  function PairStep(a: Dot, a1: Dot, b: Dot, b1: Dot, st: Search, env: Env): (r: Search)
    ensures st.xy <= r.xy && st.hits <= r.hits && |r.hits| <= |st.hits| + 1
  {
    var hit := env.isect(DotPoint(a), DotPoint(a1), DotPoint(b), DotPoint(b1));
    if hit.None? then st
    else
      var p := hit.value;
      var quit := st.quit || env.stopAtFirst;
      var k := env.key(p);
      if k in st.xy then Search(st.xy, st.hits, quit)
      else
        var t1, t2 := MapT(a, a1, p), MapT(b, b1, p);
        var hits := if InUnit(t1) && InUnit(t2) then st.hits + [Hit(p.x, p.y, t1.value, t2.value)] else st.hits;
        Search(st.xy + {k}, hits, quit)
  }

  /** The key table is written before the range test: after any hit its key
      is in the table, even when the hit is dropped for a parameter outside
      [0, 1], and a hit whose key is already there changes neither the table
      nor the hits. */
  lemma KeyStoredBeforeRangeTest(a: Dot, a1: Dot, b: Dot, b1: Dot, st: Search, env: Env)
    ensures var hit := env.isect(DotPoint(a), DotPoint(a1), DotPoint(b), DotPoint(b1));
      var r := PairStep(a, a1, b, b1, st, env);
      && (hit.Some? ==> env.key(hit.value) in r.xy && r.quit == (st.quit || env.stopAtFirst))
      && (hit.Some? && env.key(hit.value) in st.xy ==> r.xy == st.xy && r.hits == st.hits)
      && (hit.Some? && env.key(hit.value) !in st.xy ==>
            r.xy == st.xy + {env.key(hit.value)}
            && (!InUnit(MapT(a, a1, hit.value)) ==> r.hits == st.hits))
      && (hit.None? ==> r == st)
  {
  }

  /** The nested loops of `findCommandIntersections` from piece pair `(i, j)`
      on: row by row, stopping as soon as `quit` is set. */
  function Scan(d1: seq<Dot>, d2: seq<Dot>, i: nat, j: nat, st: Search, env: Env): Search
    requires 1 <= |d1| && 1 <= |d2| && i < |d1| && j < |d2|
    decreases |d1| - i, |d2| - j
  {
    if st.quit || i == |d1| - 1 then st
    else if j == |d2| - 1 then Scan(d1, d2, i + 1, 0, st, env)
    else Scan(d1, d2, i, j + 1, PairStep(d1[i], d1[i + 1], d2[j], d2[j + 1], st, env), env)
  }

  /** `findCommandIntersections`: the hits between two sampled segments and
      the key table afterwards. */
  function CommandIntersections(d1: seq<Dot>, d2: seq<Dot>, xy: set<string>, env: Env): Search
    requires 1 <= |d1| && 1 <= |d2|
  {
    Scan(d1, d2, 0, 0, Search(xy, [], false), env)
  }

  lemma ScanAdvance(d1: seq<Dot>, d2: seq<Dot>, i: nat, j: nat, st: Search, env: Env)
    requires 1 <= |d1| && 1 <= |d2| && i < |d1| - 1 && j < |d2| - 1 && !st.quit
    ensures Scan(d1, d2, i, j, st, env) ==
      Scan(d1, d2, i, j + 1, PairStep(d1[i], d1[i + 1], d2[j], d2[j + 1], st, env), env)
  {
  }

  /** `findCommandIntersections` as the source runs it. */
  method FindCommandIntersections(dots1: seq<Dot>, splits1: nat, dots2: seq<Dot>, splits2: nat,
                                  xy: set<string>, env: Env)
    returns (intersections: seq<Hit>, xyOut: set<string>)
    requires |dots1| == splits1 + 1 && |dots2| == splits2 + 1
    ensures intersections == CommandIntersections(dots1, dots2, xy, env).hits
    ensures xyOut == CommandIntersections(dots1, dots2, xy, env).xy
  {
    ghost var goal := CommandIntersections(dots1, dots2, xy, env);
    intersections, xyOut := [], xy;
    var quit := false;
    var i := 0;
    while i < splits1 && !quit
      invariant 0 <= i <= splits1
      invariant Scan(dots1, dots2, i, 0, Search(xyOut, intersections, quit), env) == goal
    {
      var j := 0;
      while j < splits2 && !quit
        invariant 0 <= j <= splits2
        invariant Scan(dots1, dots2, i, j, Search(xyOut, intersections, quit), env) == goal
      {
        var l1, l1_1, l2, l2_1 := dots1[i], dots1[i + 1], dots2[j], dots2[j + 1];
        ScanAdvance(dots1, dots2, i, j, Search(xyOut, intersections, quit), env);
        ghost var next := PairStep(l1, l1_1, l2, l2_1, Search(xyOut, intersections, quit), env);
        var intersection := env.isect(DotPoint(l1), DotPoint(l1_1), DotPoint(l2), DotPoint(l2_1));
        if intersection.Some? {
          var p := intersection.value;
          if env.stopAtFirst {
            quit := true;
          }
          var k := env.key(p);
          if k !in xyOut {
            xyOut := xyOut + {k};
            var t1, t2 := MapT(l1, l1_1, p), MapT(l2, l2_1, p);
            if InUnit(t1) && InUnit(t2) {
              intersections := intersections + [Hit(p.x, p.y, t1.value, t2.value)];
            }
          }
        }
        assert Search(xyOut, intersections, quit) == next;
        j := j + 1;
      }
      i := i + 1;
    }
  }

  // ---------------------------------------------------- properties of a scan

  /** Hits found after the table held `xy0`, now holding `xy`: both parameters
      in [0, 1], each key stored in `xy` but not in `xy0`, no key twice. */
  predicate HitsOk(hits: seq<Hit>, xy0: set<string>, xy: set<string>, env: Env) {
    && xy0 <= xy
    && (forall k :: 0 <= k < |hits| ==> 0.0 <= hits[k].t1 <= 1.0 && 0.0 <= hits[k].t2 <= 1.0)
    && (forall k :: 0 <= k < |hits| ==> KeyOf(hits[k], env) in xy && KeyOf(hits[k], env) !in xy0)
    && (forall k, l :: 0 <= k < l < |hits| ==> KeyOf(hits[k], env) != KeyOf(hits[l], env))
  }

  /** Under `stopAtFirst` there is at most one hit, and none before `quit`. */
  predicate StopOk(st: Search, env: Env) {
    env.stopAtFirst ==> |st.hits| <= 1 && (!st.quit ==> st.hits == [])
  }

  lemma {:induction false} PairStepKeeps(a: Dot, a1: Dot, b: Dot, b1: Dot, st: Search, env: Env, xy0: set<string>)
    requires !st.quit && HitsOk(st.hits, xy0, st.xy, env) && StopOk(st, env)
    ensures var r := PairStep(a, a1, b, b1, st, env);
      HitsOk(r.hits, xy0, r.xy, env) && StopOk(r, env) && st.hits <= r.hits
  {
    var hit := env.isect(DotPoint(a), DotPoint(a1), DotPoint(b), DotPoint(b1));
    if hit.Some? && env.key(hit.value) !in st.xy {
      var r := PairStep(a, a1, b, b1, st, env);
      var p := hit.value;
      var k := env.key(p);
      var t1, t2 := MapT(a, a1, p), MapT(b, b1, p);
      if InUnit(t1) && InUnit(t2) {
        var h := Hit(p.x, p.y, t1.value, t2.value);
        assert r.hits == st.hits + [h];
        assert KeyOf(h, env) == k;
        assert forall m :: 0 <= m < |st.hits| ==> r.hits[m] == st.hits[m];
      }
    }
  }

  lemma {:induction false} ScanKeeps(d1: seq<Dot>, d2: seq<Dot>, i: nat, j: nat, st: Search, env: Env,
                                     xy0: set<string>)
    requires 1 <= |d1| && 1 <= |d2| && i < |d1| && j < |d2|
    requires HitsOk(st.hits, xy0, st.xy, env) && StopOk(st, env)
    ensures var r := Scan(d1, d2, i, j, st, env);
      HitsOk(r.hits, xy0, r.xy, env) && StopOk(r, env)
    decreases |d1| - i, |d2| - j
  {
    if st.quit || i == |d1| - 1 {
    } else if j == |d2| - 1 {
      ScanKeeps(d1, d2, i + 1, 0, st, env, xy0);
    } else {
      var next := PairStep(d1[i], d1[i + 1], d2[j], d2[j + 1], st, env);
      PairStepKeeps(d1[i], d1[i + 1], d2[j], d2[j + 1], st, env, xy0);
      ScanKeeps(d1, d2, i, j + 1, next, env, xy0);
    }
  }

  /** The hits of `findCommandIntersections` have both parameters in [0, 1];
      each key was not in the table before the call and is in it after, so a
      key stored earlier (even by a hit rejected on range) blocks every later
      hit on it; no key occurs twice; the table only grows; and under
      `stopAtFirst` there is at most one hit. */
  lemma CommandIntersectionsSpec(d1: seq<Dot>, d2: seq<Dot>, xy: set<string>, env: Env)
    requires 1 <= |d1| && 1 <= |d2|
    ensures var r := CommandIntersections(d1, d2, xy, env);
      && xy <= r.xy
      && (forall k :: 0 <= k < |r.hits| ==> 0.0 <= r.hits[k].t1 <= 1.0 && 0.0 <= r.hits[k].t2 <= 1.0)
      && (forall k :: 0 <= k < |r.hits| ==> KeyOf(r.hits[k], env) in r.xy && KeyOf(r.hits[k], env) !in xy)
      && (forall k, l :: 0 <= k < l < |r.hits| ==> KeyOf(r.hits[k], env) != KeyOf(r.hits[l], env))
      && (env.stopAtFirst ==> |r.hits| <= 1)
  {
    ScanKeeps(d1, d2, 0, 0, Search(xy, [], false), env, xy);
  }

  /** A hit found on pieces `i` of `d1` and `j` of `d2`: the intersector's point,
      with the parameters interpolated on those pieces. */
  predicate HitOn(h: Hit, d1: seq<Dot>, d2: seq<Dot>, i: nat, j: nat, env: Env)
    requires i + 1 < |d1| && j + 1 < |d2|
  {
    var p := Point(h.x, h.y);
    && env.isect(DotPoint(d1[i]), DotPoint(d1[i + 1]), DotPoint(d2[j]), DotPoint(d2[j + 1])) == Some(p)
    && MapT(d1[i], d1[i + 1], p) == Some(h.t1)
    && MapT(d2[j], d2[j + 1], p) == Some(h.t2)
  }

  ghost predicate HitOnSome(h: Hit, d1: seq<Dot>, d2: seq<Dot>, env: Env) {
    exists i: nat, j: nat :: i + 1 < |d1| && j + 1 < |d2| && HitOn(h, d1, d2, i, j, env)
  }

  ghost predicate FromPieces(hits: seq<Hit>, d1: seq<Dot>, d2: seq<Dot>, env: Env) {
    forall k :: 0 <= k < |hits| ==> HitOnSome(hits[k], d1, d2, env)
  }

  lemma FromPiecesAppend(hits: seq<Hit>, h: Hit, d1: seq<Dot>, d2: seq<Dot>, i: nat, j: nat, env: Env)
    requires FromPieces(hits, d1, d2, env)
    requires i + 1 < |d1| && j + 1 < |d2| && HitOn(h, d1, d2, i, j, env)
    ensures FromPieces(hits + [h], d1, d2, env)
  {
    var all := hits + [h];
    forall k | 0 <= k < |all|
      ensures HitOnSome(all[k], d1, d2, env)
    {
      if k < |hits| {
        assert all[k] == hits[k];
      } else {
        assert all[k] == h;
      }
    }
  }

  lemma {:induction false} ScanFromPieces(d1: seq<Dot>, d2: seq<Dot>, i: nat, j: nat, st: Search, env: Env)
    requires 1 <= |d1| && 1 <= |d2| && i < |d1| && j < |d2|
    requires FromPieces(st.hits, d1, d2, env)
    ensures FromPieces(Scan(d1, d2, i, j, st, env).hits, d1, d2, env)
    decreases |d1| - i, |d2| - j
  {
    if st.quit || i == |d1| - 1 {
    } else if j == |d2| - 1 {
      ScanFromPieces(d1, d2, i + 1, 0, st, env);
    } else {
      var next := PairStep(d1[i], d1[i + 1], d2[j], d2[j + 1], st, env);
      if |next.hits| != |st.hits| {
        var h := next.hits[|st.hits|];
        assert HitOn(h, d1, d2, i, j, env);
        assert next.hits == st.hits + [h];
        FromPiecesAppend(st.hits, h, d1, d2, i, j, env);
      } else {
        assert next.hits == st.hits;
      }
      ScanFromPieces(d1, d2, i, j + 1, next, env);
    }
  }

  /** Every hit is the point the intersector returned for some pair of pieces,
      with its parameters interpolated on those pieces. */
  lemma CommandIntersectionsFromPieces(d1: seq<Dot>, d2: seq<Dot>, xy: set<string>, env: Env)
    requires 1 <= |d1| && 1 <= |d2|
    ensures FromPieces(CommandIntersections(d1, d2, xy, env).hits, d1, d2, env)
  {
    ScanFromPieces(d1, d2, 0, 0, Search(xy, [], false), env);
  }

  /** Pieces whose ends lie in boxes that do not overlap give no hit. */
  lemma ApartPiecesNoHit(a: Dot, a1: Dot, b: Dot, b1: Dot, b1x: Box, b2x: Box, env: Env)
    requires IntersectContract(env.isect)
    requires ValidBox(b1x) && ValidBox(b2x) && !IsBBoxIntersect(b1x, b2x)
    requires Inside(DotPoint(a), b1x) && Inside(DotPoint(a1), b1x) && Inside(DotPoint(b), b2x) && Inside(DotPoint(b1), b2x)
    ensures env.isect(DotPoint(a), DotPoint(a1), DotPoint(b), DotPoint(b1)).None?
  {
    assert PiecesApart(DotPoint(a), DotPoint(a1), DotPoint(b), DotPoint(b1));
  }

  predicate DotsIn(d: seq<Dot>, b: Box) {
    forall k :: 0 <= k < |d| ==> Inside(DotPoint(d[k]), b)
  }

  lemma {:induction false} ScanApart(d1: seq<Dot>, d2: seq<Dot>, i: nat, j: nat, st: Search, env: Env,
                                     b1: Box, b2: Box)
    requires 1 <= |d1| && 1 <= |d2| && i < |d1| && j < |d2|
    requires IntersectContract(env.isect)
    requires ValidBox(b1) && ValidBox(b2) && !IsBBoxIntersect(b1, b2)
    requires DotsIn(d1, b1) && DotsIn(d2, b2)
    ensures Scan(d1, d2, i, j, st, env) == st
    decreases |d1| - i, |d2| - j
  {
    if st.quit || i == |d1| - 1 {
    } else if j == |d2| - 1 {
      ScanApart(d1, d2, i + 1, 0, st, env, b1, b2);
    } else {
      ApartPiecesNoHit(d1[i], d1[i + 1], d2[j], d2[j + 1], b1, b2, env);
      ScanApart(d1, d2, i, j + 1, st, env, b1, b2);
    }
  }

  /** When the samples of the two segments lie in boxes that do not overlap,
      the search finds nothing and leaves the table as it was: skipping such
      a pair loses no hit. */
  lemma CommandIntersectionsApart(d1: seq<Dot>, d2: seq<Dot>, xy: set<string>, env: Env, b1: Box, b2: Box)
    requires 1 <= |d1| && 1 <= |d2|
    requires IntersectContract(env.isect)
    requires ValidBox(b1) && ValidBox(b2) && !IsBBoxIntersect(b1, b2)
    requires DotsIn(d1, b1) && DotsIn(d2, b2)
    ensures CommandIntersections(d1, d2, xy, env) == Search(xy, [], false)
  {
    ScanApart(d1, d2, 0, 0, Search(xy, [], false), env, b1, b2);
  }

  // ------------------------------------------- completeness of the search

  /** The raw hit of piece pair `(i, j)`, before any key or range test. */
  function PieceHit(d1: seq<Dot>, d2: seq<Dot>, i: nat, j: nat, env: Env): Option<Point>
    requires i + 1 < |d1| && j + 1 < |d2|
  {
    env.isect(DotPoint(d1[i]), DotPoint(d1[i + 1]), DotPoint(d2[j]), DotPoint(d2[j + 1]))
  }

  /** Pair `(i, j)` comes strictly before pair `(k, l)` in row-major order. */
  predicate PairBefore(i: nat, j: nat, k: nat, l: nat) {
    i < k || (i == k && j < l)
  }

  /** No piece pair from `(i0, j0)` up to, but not including, `(k, l)` has a
      raw hit whose key is `key`. */
  predicate NoKeyBetween(d1: seq<Dot>, d2: seq<Dot>, i0: nat, j0: nat, k: nat, l: nat, key: string, env: Env) {
    forall i: nat, j: nat :: i + 1 < |d1| && j + 1 < |d2| && !PairBefore(i, j, i0, j0) && PairBefore(i, j, k, l) ==>
      PieceHit(d1, d2, i, j, env).None? || env.key(PieceHit(d1, d2, i, j, env).value) != key
  }

  /** The search only adds: the table grows and the hits are extended. */
  lemma {:induction false} ScanGrows(d1: seq<Dot>, d2: seq<Dot>, i: nat, j: nat, st: Search, env: Env)
    requires 1 <= |d1| && 1 <= |d2| && i < |d1| && j < |d2|
    ensures var r := Scan(d1, d2, i, j, st, env);
      st.xy <= r.xy && st.hits <= r.hits
    decreases |d1| - i, |d2| - j
  {
    if st.quit || i == |d1| - 1 {
    } else if j == |d2| - 1 {
      ScanGrows(d1, d2, i + 1, 0, st, env);
    } else {
      var next := PairStep(d1[i], d1[i + 1], d2[j], d2[j + 1], st, env);
      assert st.xy <= next.xy && st.hits <= next.hits;
      ScanGrows(d1, d2, i, j + 1, next, env);
    }
  }

  /** Without `stopAtFirst` the search misses nothing: the key of every raw
      hit at or after `(i, j)` ends in the table, and a hit whose key is new
      (not in the table and not met at an earlier pair) with both parameters
      in [0, 1] ends in the hits. */
  lemma {:induction false} ScanFinds(d1: seq<Dot>, d2: seq<Dot>, i: nat, j: nat, st: Search, env: Env,
                                     k: nat, l: nat, p: Point)
    requires 1 <= |d1| && 1 <= |d2| && i < |d1| && j < |d2|
    requires !env.stopAtFirst && !st.quit
    requires k + 1 < |d1| && l + 1 < |d2| && !PairBefore(k, l, i, j)
    requires PieceHit(d1, d2, k, l, env) == Some(p)
    ensures var r := Scan(d1, d2, i, j, st, env);
      var t1, t2 := MapT(d1[k], d1[k + 1], p), MapT(d2[l], d2[l + 1], p);
      && env.key(p) in r.xy
      && (env.key(p) !in st.xy && NoKeyBetween(d1, d2, i, j, k, l, env.key(p), env) && InUnit(t1) && InUnit(t2)
          ==> Hit(p.x, p.y, t1.value, t2.value) in r.hits)
    decreases |d1| - i, |d2| - j
  {
    if j == |d2| - 1 {
      ScanFinds(d1, d2, i + 1, 0, st, env, k, l, p);
    } else {
      var next := PairStep(d1[i], d1[i + 1], d2[j], d2[j + 1], st, env);
      assert !next.quit;
      if k == i && l == j {
        ScanGrows(d1, d2, i, j + 1, next, env);
        var r := Scan(d1, d2, i, j + 1, next, env);
        var t1, t2 := MapT(d1[k], d1[k + 1], p), MapT(d2[l], d2[l + 1], p);
        assert env.key(p) in next.xy;
        if env.key(p) !in st.xy && InUnit(t1) && InUnit(t2) {
          var h := Hit(p.x, p.y, t1.value, t2.value);
          assert next.hits == st.hits + [h];
          assert r.hits[|st.hits|] == h;
        }
      } else {
        if env.key(p) !in st.xy && NoKeyBetween(d1, d2, i, j, k, l, env.key(p), env) {
          assert PieceHit(d1, d2, i, j, env).None? || env.key(PieceHit(d1, d2, i, j, env).value) != env.key(p);
        }
        ScanFinds(d1, d2, i, j + 1, next, env, k, l, p);
      }
    }
  }

  /** A key that no piece pair at or after `(i, j)` hits on stays out of the
      table. */
  lemma {:induction false} ScanKeepsAbsent(d1: seq<Dot>, d2: seq<Dot>, i: nat, j: nat, st: Search, env: Env,
                                           key: string)
    requires 1 <= |d1| && 1 <= |d2| && i < |d1| && j < |d2|
    requires key !in st.xy && NoKeyBetween(d1, d2, i, j, |d1|, 0, key, env)
    ensures key !in Scan(d1, d2, i, j, st, env).xy
    decreases |d1| - i, |d2| - j
  {
    if st.quit || i == |d1| - 1 {
    } else if j == |d2| - 1 {
      ScanKeepsAbsent(d1, d2, i + 1, 0, st, env, key);
    } else {
      var next := PairStep(d1[i], d1[i + 1], d2[j], d2[j + 1], st, env);
      assert PieceHit(d1, d2, i, j, env).None? || env.key(PieceHit(d1, d2, i, j, env).value) != key;
      ScanKeepsAbsent(d1, d2, i, j + 1, next, env, key);
    }
  }

  /** Completeness of `findCommandIntersections` without `stopAtFirst`: every
      raw hit's key is in the table afterwards, even one dropped for its range
      or its key; a hit with both parameters in [0, 1], whose key was not in
      the table and is met at no earlier piece pair, is returned; and a key no
      piece pair hits on is not added. */
  lemma CommandIntersectionsFinds(d1: seq<Dot>, d2: seq<Dot>, xy: set<string>, env: Env, k: nat, l: nat, p: Point)
    requires !env.stopAtFirst
    requires k + 1 < |d1| && l + 1 < |d2| && PieceHit(d1, d2, k, l, env) == Some(p)
    ensures var r := CommandIntersections(d1, d2, xy, env);
      var t1, t2 := MapT(d1[k], d1[k + 1], p), MapT(d2[l], d2[l + 1], p);
      && env.key(p) in r.xy
      && (env.key(p) !in xy && NoKeyBetween(d1, d2, 0, 0, k, l, env.key(p), env) && InUnit(t1) && InUnit(t2)
          ==> Hit(p.x, p.y, t1.value, t2.value) in r.hits)
  {
    ScanFinds(d1, d2, 0, 0, Search(xy, [], false), env, k, l, p);
  }

  lemma CommandIntersectionsKeepsAbsent(d1: seq<Dot>, d2: seq<Dot>, xy: set<string>, env: Env, key: string)
    requires 1 <= |d1| && 1 <= |d2|
    requires key !in xy && NoKeyBetween(d1, d2, 0, 0, |d1|, 0, key, env)
    ensures key !in CommandIntersections(d1, d2, xy, env).xy
  {
    ScanKeepsAbsent(d1, d2, 0, 0, Search(xy, [], false), env, key);
  }

  // ------------------------------------------------------------ the driver

  /** A result record: the hit, tagged with the indices of the two commands
      and their control points. */
  datatype Record = Record(x: real, y: real, t1: real, t2: real,
                           segment1: nat, segment2: nat, cpts1: seq<Point>, cpts2: seq<Point>)

  function RecordKey(r: Record, env: Env): string {
    env.key(Point(r.x, r.y))
  }

  /** The hits of segment pair `(i, j)` with their tags. */
  function Annotate(hits: seq<Hit>, i: nat, j: nat, cpts1: seq<Point>, cpts2: seq<Point>): seq<Record> {
    seq(|hits|, k requires 0 <= k < |hits| =>
      Record(hits[k].x, hits[k].y, hits[k].t1, hits[k].t2, i, j, cpts1, cpts2))
  }

  /** The tagging loop of the driver, which writes the four tags onto each
      record of the segment pair. */
  method AnnotateHits(hits: seq<Hit>, i: nat, j: nat, cpts1: seq<Point>, cpts2: seq<Point>)
    returns (records: seq<Record>)
    ensures records == Annotate(hits, i, j, cpts1, cpts2)
  {
    records := [];
    var k := 0;
    while k < |hits|
      invariant 0 <= k <= |hits|
      invariant records == Annotate(hits[..k], i, j, cpts1, cpts2)
    {
      records := records + [Record(hits[k].x, hits[k].y, hits[k].t1, hits[k].t2, i, j, cpts1, cpts2)];
      k := k + 1;
    }
    assert hits[..k] == hits;
  }

  /** Every segment record holds `splits + 1` samples. */
  predicate Sampled(info: seq<SegInfo>) {
    forall k :: 0 <= k < |info| ==> info[k].Seg? ==> |info[k].dots| == info[k].splits + 1
  }

  /** The state of the driver: the call-wide key table, the records so far and
      the outer `quit` flag. */
  datatype Drive = Drive(xy: set<string>, res: seq<Record>, quit: bool)

  /** The work on segment pair `(i, j)`: a moveto on the second side or boxes
      that do not overlap (a NaN box of an undefined segment overlaps nothing)
      are skipped; otherwise the hits of the pair are tagged and appended, and
      under `stopAtFirst` a non-empty result sets `quit`. */
  function SegPair(info1: seq<SegInfo>, info2: seq<SegInfo>, i: nat, j: nat, st: Drive, env: Env): Drive
    requires Sampled(info1) && Sampled(info2) && i < |info1| && j < |info2|
  {
    var s1, s2 := info1[i], info2[j];
    if !s2.HasCpts() || !IsBBoxIntersect(s1.SegBox(), s2.SegBox()) then st
    else
      var r := CommandIntersections(s1.dots, s2.dots, st.xy, env);
      Drive(r.xy, st.res + Annotate(r.hits, i, j, s1.cpts, s2.cpts),
            st.quit || (env.stopAtFirst && |r.hits| > 0))
  }

  /** The two loops of the driver from segment pair `(i, j)` on: a moveto on
      the first side skips its row; the walk stops as soon as `quit` is set. */
  function Walk(info1: seq<SegInfo>, info2: seq<SegInfo>, i: nat, j: nat, st: Drive, env: Env): Drive
    requires Sampled(info1) && Sampled(info2) && i <= |info1| && j <= |info2|
    decreases |info1| - i, |info2| - j
  {
    if st.quit || i == |info1| then st
    else if !info1[i].HasCpts() || j == |info2| then Walk(info1, info2, i + 1, 0, st, env)
    else Walk(info1, info2, i, j + 1, SegPair(info1, info2, i, j, st, env), env)
  }

  /** Path data as the driver accepts it: ready commands, led by a moveto. */
  predicate PathOk(pd: seq<Command>) {
    AllReady(pd) && (|pd| > 0 ==> pd[0].ty == 'M')
  }

  lemma BoxedPathNotEmpty(pd: seq<Command>)
    requires AllReady(pd) && PathDataBBox(pd).Box?
    ensures |pd| >= 2
  {
  }

  lemma PathInfoSampled(pd: seq<Command>, length: seq<Point> -> real, sampleDist: real)
    requires PathReady(pd) && sampleDist > 0.0
    ensures Sampled(PathInfo(pd, length, sampleDist))
  {
    var info := PathInfo(pd, length, sampleDist);
    forall k | 0 <= k < |info| && info[k].Seg?
      ensures |info[k].dots| == info[k].splits + 1
    {
      assert CommandReady(pd[k]);
      InfoSeg(pd[k], PrevValues(pd, k), MoveStart(pd, k), length, sampleDist);
    }
  }

  /** `findPathDataIntersections`: nothing when the whole-path boxes do not
      overlap, else the records of the walk over all segment pairs. */
  function PathIntersections(pd1: seq<Command>, pd2: seq<Command>, env: Env,
                             length: seq<Point> -> real, sampleDist: real): seq<Record>
    requires PathOk(pd1) && PathOk(pd2) && sampleDist > 0.0
  {
    if !IsBBoxIntersect(PathDataBBox(pd1), PathDataBBox(pd2)) then []
    else
      BoxedPathNotEmpty(pd1);
      BoxedPathNotEmpty(pd2);
      PathInfoSampled(pd1, length, sampleDist);
      PathInfoSampled(pd2, length, sampleDist);
      Walk(PathInfo(pd1, length, sampleDist), PathInfo(pd2, length, sampleDist), 0, 0,
           Drive({}, [], false), env).res
  }

  lemma WalkSkipRow(info1: seq<SegInfo>, info2: seq<SegInfo>, i: nat, j: nat, st: Drive, env: Env)
    requires Sampled(info1) && Sampled(info2) && i < |info1| && j <= |info2| && !st.quit
    requires !info1[i].HasCpts() || j == |info2|
    ensures Walk(info1, info2, i, j, st, env) == Walk(info1, info2, i + 1, 0, st, env)
  {
  }

  lemma WalkAdvance(info1: seq<SegInfo>, info2: seq<SegInfo>, i: nat, j: nat, st: Drive, env: Env)
    requires Sampled(info1) && Sampled(info2) && i < |info1| && j < |info2| && !st.quit
    requires info1[i].HasCpts()
    ensures Walk(info1, info2, i, j, st, env) ==
      Walk(info1, info2, i, j + 1, SegPair(info1, info2, i, j, st, env), env)
  {
  }

  /** The body of the inner loop of the driver on segment pair `(i, j)`. */
  method VisitPair(info1: seq<SegInfo>, info2: seq<SegInfo>, i: nat, j: nat,
                   xy: set<string>, res: seq<Record>, quit: bool, env: Env)
    returns (xy': set<string>, res': seq<Record>, quit': bool)
    requires Sampled(info1) && Sampled(info2) && i < |info1| && j < |info2|
    ensures Drive(xy', res', quit') == SegPair(info1, info2, i, j, Drive(xy, res, quit), env)
  {
    xy', res', quit' := xy, res, quit;
    var data1, data2 := info1[i], info2[j];
    if !data2.HasCpts() {
      return;
    }
    if IsBBoxIntersect(data1.SegBox(), data2.SegBox()) {
      var intersections, xyOut := FindCommandIntersections(data1.dots, data1.splits, data2.dots, data2.splits, xy, env);
      xy' := xyOut;
      if env.stopAtFirst && |intersections| > 0 {
        quit' := true;
      }
      var records := AnnotateHits(intersections, i, j, data1.cpts, data2.cpts);
      res' := res + records;
    }
  }

  /** The two loops of the driver over the segment records, with the key
      table `xy` shared by every segment pair and the outer `quit` flag. */
  method WalkPaths(info1: seq<SegInfo>, info2: seq<SegInfo>, env: Env) returns (res: seq<Record>)
    requires Sampled(info1) && Sampled(info2)
    ensures res == Walk(info1, info2, 0, 0, Drive({}, [], false), env).res
  {
    ghost var goal := Walk(info1, info2, 0, 0, Drive({}, [], false), env);
    var xy: set<string> := {};
    res := [];
    var quit := false;
    var i := 0;
    while i < |info1| && !quit
      invariant 0 <= i <= |info1|
      invariant Walk(info1, info2, i, 0, Drive(xy, res, quit), env) == goal
    {
      var data1 := info1[i];
      if !data1.HasCpts() {
        WalkSkipRow(info1, info2, i, 0, Drive(xy, res, quit), env);
        i := i + 1;
        continue;
      }
      var j := 0;
      while j < |info2| && !quit
        invariant 0 <= j <= |info2|
        invariant Walk(info1, info2, i, j, Drive(xy, res, quit), env) == goal
      {
        WalkAdvance(info1, info2, i, j, Drive(xy, res, quit), env);
        xy, res, quit := VisitPair(info1, info2, i, j, xy, res, quit, env);
        j := j + 1;
      }
      if !quit {
        WalkSkipRow(info1, info2, i, j, Drive(xy, res, quit), env);
      }
      i := i + 1;
    }
  }

  /** `findPathDataIntersections` as the source runs it: the whole-path box
      test, the two `getPathInfo` passes and the walk over the segment pairs. */
  method FindPathDataIntersections(pd1: seq<Command>, pd2: seq<Command>, env: Env,
                                   length: seq<Point> -> real, sampleDist: real)
    returns (res: seq<Record>)
    requires PathOk(pd1) && PathOk(pd2) && sampleDist > 0.0
    ensures res == PathIntersections(pd1, pd2, env, length, sampleDist)
  {
    res := [];
    var bb1 := GetPathDataBBox(pd1);
    var bb2 := GetPathDataBBox(pd2);
    if !IsBBoxIntersect(bb1, bb2) {
      return;
    }
    BoxedPathNotEmpty(pd1);
    BoxedPathNotEmpty(pd2);
    var pathInfo1 := GetPathInfo(pd1, length, sampleDist);
    var pathInfo2 := GetPathInfo(pd2, length, sampleDist);
    PathInfoSampled(pd1, length, sampleDist);
    PathInfoSampled(pd2, length, sampleDist);
    res := WalkPaths(pathInfo1, pathInfo2, env);
  }

  // ------------------------------------------------ properties of the driver

  /** Record `a` comes no later than record `b` in `(segment1, segment2)` order. */
  predicate InOrder(a: Record, b: Record) {
    a.segment1 < b.segment1 || (a.segment1 == b.segment1 && a.segment2 <= b.segment2)
  }

  /** Record `r` belongs to a segment pair before `(i, j)`. */
  predicate Before(r: Record, i: nat, j: nat) {
    r.segment1 < i || (r.segment1 == i && r.segment2 < j)
  }

  /** A record tags a hit between two segments with their indices and control
      points, and both its parameters lie in [0, 1]. */
  predicate RecordOk(r: Record, info1: seq<SegInfo>, info2: seq<SegInfo>) {
    && r.segment1 < |info1| && info1[r.segment1].Seg? && r.cpts1 == info1[r.segment1].cpts
    && r.segment2 < |info2| && info2[r.segment2].Seg? && r.cpts2 == info2[r.segment2].cpts
    && 0.0 <= r.t1 <= 1.0 && 0.0 <= r.t2 <= 1.0
  }

  /** What holds of the driver's state: valid records whose keys are in the
      table, pairwise distinct and in segment order; under `stopAtFirst` at
      most one record, and none before `quit`. */
  predicate DriveOk(st: Drive, info1: seq<SegInfo>, info2: seq<SegInfo>, env: Env) {
    && (forall k :: 0 <= k < |st.res| ==> RecordOk(st.res[k], info1, info2) && RecordKey(st.res[k], env) in st.xy)
    && (forall k, l :: 0 <= k < l < |st.res| ==>
          RecordKey(st.res[k], env) != RecordKey(st.res[l], env) && InOrder(st.res[k], st.res[l]))
    && (env.stopAtFirst ==> |st.res| <= 1 && (!st.quit ==> st.res == []))
  }

  predicate DriveAt(st: Drive, info1: seq<SegInfo>, info2: seq<SegInfo>, env: Env, i: nat, j: nat) {
    DriveOk(st, info1, info2, env) && forall k :: 0 <= k < |st.res| ==> Before(st.res[k], i, j)
  }

  /** The tags of a segment pair's records, which keep the hit's point, key
      and parameters. */
  lemma AnnotateSpec(hits: seq<Hit>, i: nat, j: nat, cpts1: seq<Point>, cpts2: seq<Point>, env: Env)
    ensures var recs := Annotate(hits, i, j, cpts1, cpts2);
      && |recs| == |hits|
      && forall k :: 0 <= k < |hits| ==>
           && recs[k].segment1 == i && recs[k].segment2 == j
           && recs[k].cpts1 == cpts1 && recs[k].cpts2 == cpts2
           && recs[k].t1 == hits[k].t1 && recs[k].t2 == hits[k].t2
           && RecordKey(recs[k], env) == KeyOf(hits[k], env)
  {
  }

  lemma {:induction false} SegPairKeeps(info1: seq<SegInfo>, info2: seq<SegInfo>, i: nat, j: nat, st: Drive, env: Env)
    requires Sampled(info1) && Sampled(info2) && i < |info1| && j < |info2| && !st.quit
    requires DriveAt(st, info1, info2, env, i, j)
    ensures DriveAt(SegPair(info1, info2, i, j, st, env), info1, info2, env, i, j + 1)
  {
    var s1, s2 := info1[i], info2[j];
    if s2.HasCpts() && IsBBoxIntersect(s1.SegBox(), s2.SegBox()) {
      assert s1.Seg? && s2.Seg?;
      var r := CommandIntersections(s1.dots, s2.dots, st.xy, env);
      CommandIntersectionsSpec(s1.dots, s2.dots, st.xy, env);
      var recs := Annotate(r.hits, i, j, s1.cpts, s2.cpts);
      AnnotateSpec(r.hits, i, j, s1.cpts, s2.cpts, env);
      var res := st.res + recs;
      var next := SegPair(info1, info2, i, j, st, env);
      assert next.res == res && next.xy == r.xy;
      forall k | 0 <= k < |res|
        ensures RecordOk(res[k], info1, info2) && RecordKey(res[k], env) in r.xy && Before(res[k], i, j + 1)
      {
        if k >= |st.res| {
          assert res[k] == recs[k - |st.res|];
        }
      }
      forall k, l | 0 <= k < l < |res|
        ensures RecordKey(res[k], env) != RecordKey(res[l], env) && InOrder(res[k], res[l])
      {
        if l >= |st.res| {
          assert res[l] == recs[l - |st.res|];
          if k >= |st.res| {
            assert res[k] == recs[k - |st.res|];
          }
        }
      }
    }
  }

  lemma {:induction false} WalkKeeps(info1: seq<SegInfo>, info2: seq<SegInfo>, i: nat, j: nat, st: Drive, env: Env)
    requires Sampled(info1) && Sampled(info2) && i <= |info1| && j <= |info2|
    requires DriveAt(st, info1, info2, env, i, j)
    ensures DriveOk(Walk(info1, info2, i, j, st, env), info1, info2, env)
    decreases |info1| - i, |info2| - j
  {
    if st.quit || i == |info1| {
    } else if !info1[i].HasCpts() || j == |info2| {
      WalkKeeps(info1, info2, i + 1, 0, st, env);
    } else {
      SegPairKeeps(info1, info2, i, j, st, env);
      WalkKeeps(info1, info2, i, j + 1, SegPair(info1, info2, i, j, st, env), env);
    }
  }

  // ------------------------------------------- completeness of the driver

  /** The driver searches segment pair `(k, l)`: both are drawn segments
      (an undefined one has a NaN box, a moveto is skipped) and their boxes
      overlap. */
  predicate Scanned(info1: seq<SegInfo>, info2: seq<SegInfo>, k: nat, l: nat) {
    && k < |info1| && l < |info2| && info1[k].Seg? && info2[l].Seg?
    && IsBBoxIntersect(info1[k].bb, info2[l].bb)
  }

  /** No segment pair the driver searches from `(i, j)` up to, but not
      including, `(k, l)` has a raw hit whose key is `key`. */
  predicate NoKeyInSegments(info1: seq<SegInfo>, info2: seq<SegInfo>, i: nat, j: nat, k: nat, l: nat,
                            key: string, env: Env) {
    forall a: nat, b: nat ::
      a < |info1| && b < |info2| && Scanned(info1, info2, a, b) && !PairBefore(a, b, i, j) && PairBefore(a, b, k, l) ==>
      NoKeyBetween(info1[a].dots, info2[b].dots, 0, 0, |info1[a].dots|, 0, key, env)
  }

  /** The driver only adds: the call-wide table grows and the records are
      extended. */
  lemma {:induction false} WalkGrows(info1: seq<SegInfo>, info2: seq<SegInfo>, i: nat, j: nat, st: Drive, env: Env)
    requires Sampled(info1) && Sampled(info2) && i <= |info1| && j <= |info2|
    ensures var r := Walk(info1, info2, i, j, st, env);
      st.xy <= r.xy && st.res <= r.res
    decreases |info1| - i, |info2| - j
  {
    if st.quit || i == |info1| {
    } else if !info1[i].HasCpts() || j == |info2| {
      WalkGrows(info1, info2, i + 1, 0, st, env);
    } else {
      var s1, s2 := info1[i], info2[j];
      if s2.HasCpts() && IsBBoxIntersect(s1.SegBox(), s2.SegBox()) {
        assert s1.Seg? && s2.Seg?;
        CommandIntersectionsSpec(s1.dots, s2.dots, st.xy, env);
      }
      WalkGrows(info1, info2, i, j + 1, SegPair(info1, info2, i, j, st, env), env);
    }
  }

  /** Without `stopAtFirst` the driver misses nothing from `(i, j)` on: the
      key of a raw hit between the samples of a searched segment pair ends in
      the call-wide table, and a hit with both parameters in [0, 1] whose key
      was not in the table and is met at no earlier searched pair ends in the
      records, tagged with the pair's indices and control points. */
  lemma {:induction false} WalkFinds(info1: seq<SegInfo>, info2: seq<SegInfo>, i: nat, j: nat, st: Drive, env: Env,
                                     k: nat, l: nat, m: nat, n: nat, p: Point)
    requires Sampled(info1) && Sampled(info2) && i <= |info1| && j <= |info2|
    requires !env.stopAtFirst && !st.quit
    requires Scanned(info1, info2, k, l) && !PairBefore(k, l, i, j)
    requires m + 1 < |info1[k].dots| && n + 1 < |info2[l].dots|
    requires PieceHit(info1[k].dots, info2[l].dots, m, n, env) == Some(p)
    ensures var r := Walk(info1, info2, i, j, st, env);
      var s1, s2 := info1[k], info2[l];
      var t1, t2 := MapT(s1.dots[m], s1.dots[m + 1], p), MapT(s2.dots[n], s2.dots[n + 1], p);
      && env.key(p) in r.xy
      && (&& env.key(p) !in st.xy && NoKeyInSegments(info1, info2, i, j, k, l, env.key(p), env)
          && NoKeyBetween(s1.dots, s2.dots, 0, 0, m, n, env.key(p), env) && InUnit(t1) && InUnit(t2)
          ==> Record(p.x, p.y, t1.value, t2.value, k, l, s1.cpts, s2.cpts) in r.res)
    decreases |info1| - i, |info2| - j
  {
    if !info1[i].HasCpts() || j == |info2| {
      WalkFinds(info1, info2, i + 1, 0, st, env, k, l, m, n, p);
    } else {
      var next := SegPair(info1, info2, i, j, st, env);
      if k == i && l == j {
        var s1, s2 := info1[k], info2[l];
        var r := CommandIntersections(s1.dots, s2.dots, st.xy, env);
        CommandIntersectionsFinds(s1.dots, s2.dots, st.xy, env, m, n, p);
        assert next.xy == r.xy;
        WalkGrows(info1, info2, i, j + 1, next, env);
        var t1, t2 := MapT(s1.dots[m], s1.dots[m + 1], p), MapT(s2.dots[n], s2.dots[n + 1], p);
        if env.key(p) !in st.xy && NoKeyBetween(s1.dots, s2.dots, 0, 0, m, n, env.key(p), env)
           && InUnit(t1) && InUnit(t2) {
          var h := Hit(p.x, p.y, t1.value, t2.value);
          assert h in r.hits;
          var idx :| 0 <= idx < |r.hits| && r.hits[idx] == h;
          var recs := Annotate(r.hits, i, j, s1.cpts, s2.cpts);
          assert next.res == st.res + recs;
          assert next.res[|st.res| + idx] == Record(p.x, p.y, t1.value, t2.value, k, l, s1.cpts, s2.cpts);
        }
      } else {
        if env.key(p) !in st.xy && NoKeyInSegments(info1, info2, i, j, k, l, env.key(p), env)
           && Scanned(info1, info2, i, j) {
          CommandIntersectionsKeepsAbsent(info1[i].dots, info2[j].dots, st.xy, env, env.key(p));
        }
        WalkFinds(info1, info2, i, j + 1, next, env, k, l, m, n, p);
      }
    }
  }

  /** A record of a path-pair result tags a hit between a drawing command of
      each path (never a moveto, and one whose start point is known) with that
      command's control points. */
  predicate TagsCommands(r: Record, pd1: seq<Command>, pd2: seq<Command>)
    requires PathReady(pd1) && PathReady(pd2)
  {
    && r.segment1 < |pd1| && pd1[r.segment1].ty != 'M' && |PrevValues(pd1, r.segment1)| >= 2
    && r.cpts1 == ControlPoints(pd1[r.segment1], LastPoint(PrevValues(pd1, r.segment1)), MoveStart(pd1, r.segment1))
    && r.segment2 < |pd2| && pd2[r.segment2].ty != 'M' && |PrevValues(pd2, r.segment2)| >= 2
    && r.cpts2 == ControlPoints(pd2[r.segment2], LastPoint(PrevValues(pd2, r.segment2)), MoveStart(pd2, r.segment2))
  }

  lemma SegTagsCommand(pd: seq<Command>, k: nat, length: seq<Point> -> real, sampleDist: real)
    requires PathReady(pd) && sampleDist > 0.0 && k < |pd|
    requires PathInfo(pd, length, sampleDist)[k].Seg?
    ensures pd[k].ty != 'M' && |PrevValues(pd, k)| >= 2
    ensures PathInfo(pd, length, sampleDist)[k].cpts ==
      ControlPoints(pd[k], LastPoint(PrevValues(pd, k)), MoveStart(pd, k))
  {
    assert PathInfo(pd, length, sampleDist)[k] == InfoAt(pd, k, length, sampleDist);
  }

  /** What `findPathDataIntersections` returns: records of drawing commands
      with both parameters in [0, 1], distinct keys, in the order of the
      segment pairs, at most one under `stopAtFirst`, and none at all when the
      two path boxes do not overlap. */
  lemma PathIntersectionsSpec(pd1: seq<Command>, pd2: seq<Command>, env: Env,
                              length: seq<Point> -> real, sampleDist: real)
    requires PathOk(pd1) && PathOk(pd2) && sampleDist > 0.0
    ensures var res := PathIntersections(pd1, pd2, env, length, sampleDist);
      && (forall k :: 0 <= k < |res| ==>
            TagsCommands(res[k], pd1, pd2) && 0.0 <= res[k].t1 <= 1.0 && 0.0 <= res[k].t2 <= 1.0)
      && (forall k, l :: 0 <= k < l < |res| ==>
            RecordKey(res[k], env) != RecordKey(res[l], env) && InOrder(res[k], res[l]))
      && (env.stopAtFirst ==> |res| <= 1)
      && (!IsBBoxIntersect(PathDataBBox(pd1), PathDataBBox(pd2)) ==> res == [])
  {
    if IsBBoxIntersect(PathDataBBox(pd1), PathDataBBox(pd2)) {
      var info1, info2 := PathInfo(pd1, length, sampleDist), PathInfo(pd2, length, sampleDist);
      PathInfoSampled(pd1, length, sampleDist);
      PathInfoSampled(pd2, length, sampleDist);
      var st := Walk(info1, info2, 0, 0, Drive({}, [], false), env);
      WalkKeeps(info1, info2, 0, 0, Drive({}, [], false), env);
      assert PathIntersections(pd1, pd2, env, length, sampleDist) == st.res;
      forall k | 0 <= k < |st.res|
        ensures TagsCommands(st.res[k], pd1, pd2)
      {
        assert RecordOk(st.res[k], info1, info2);
        SegTagsCommand(pd1, st.res[k].segment1, length, sampleDist);
        SegTagsCommand(pd2, st.res[k].segment2, length, sampleDist);
      }
    }
  }

  /** Completeness of `findPathDataIntersections` without `stopAtFirst`, once
      the two path boxes overlap: a raw hit between the samples of drawing
      commands `k` and `l` whose boxes overlap, with both parameters in
      [0, 1] and a key met at no earlier searched pair, is returned, tagged
      with `k`, `l` and their control points. */
  lemma PathIntersectionsFinds(pd1: seq<Command>, pd2: seq<Command>, env: Env,
                               length: seq<Point> -> real, sampleDist: real, k: nat, l: nat, m: nat, n: nat, p: Point)
    requires PathOk(pd1) && PathOk(pd2) && sampleDist > 0.0 && !env.stopAtFirst
    requires IsBBoxIntersect(PathDataBBox(pd1), PathDataBBox(pd2))
    requires var info1, info2 := PathInfo(pd1, length, sampleDist), PathInfo(pd2, length, sampleDist);
      && Scanned(info1, info2, k, l)
      && m + 1 < |info1[k].dots| && n + 1 < |info2[l].dots|
      && PieceHit(info1[k].dots, info2[l].dots, m, n, env) == Some(p)
    ensures var info1, info2 := PathInfo(pd1, length, sampleDist), PathInfo(pd2, length, sampleDist);
      var s1, s2 := info1[k], info2[l];
      var t1, t2 := MapT(s1.dots[m], s1.dots[m + 1], p), MapT(s2.dots[n], s2.dots[n + 1], p);
      && NoKeyInSegments(info1, info2, 0, 0, k, l, env.key(p), env)
      && NoKeyBetween(s1.dots, s2.dots, 0, 0, m, n, env.key(p), env) && InUnit(t1) && InUnit(t2)
      ==> Record(p.x, p.y, t1.value, t2.value, k, l, s1.cpts, s2.cpts)
            in PathIntersections(pd1, pd2, env, length, sampleDist)
  {
    var info1, info2 := PathInfo(pd1, length, sampleDist), PathInfo(pd2, length, sampleDist);
    PathInfoSampled(pd1, length, sampleDist);
    PathInfoSampled(pd2, length, sampleDist);
    assert PathIntersections(pd1, pd2, env, length, sampleDist) == Walk(info1, info2, 0, 0, Drive({}, [], false), env).res;
    WalkFinds(info1, info2, 0, 0, Drive({}, [], false), env, k, l, m, n, p);
  }

  /** The box test before each segment pair loses nothing: the sample
      polylines of two segments whose boxes do not overlap have no hit, so
      scanning them would leave the search as it started. */
  lemma SkippedPairFindsNothing(pd1: seq<Command>, pd2: seq<Command>, k: nat, l: nat, xy: set<string>,
                                env: Env, length: seq<Point> -> real, sampleDist: real)
    requires PathReady(pd1) && PathReady(pd2) && sampleDist > 0.0 && k < |pd1| && l < |pd2|
    requires IntersectContract(env.isect)
    requires InfoAt(pd1, k, length, sampleDist).Seg? && InfoAt(pd2, l, length, sampleDist).Seg?
    requires !IsBBoxIntersect(InfoAt(pd1, k, length, sampleDist).bb, InfoAt(pd2, l, length, sampleDist).bb)
    ensures CommandIntersections(InfoAt(pd1, k, length, sampleDist).dots, InfoAt(pd2, l, length, sampleDist).dots,
                                 xy, env) == Search(xy, [], false)
  {
    var s1, s2 := InfoAt(pd1, k, length, sampleDist), InfoAt(pd2, l, length, sampleDist);
    InfoSeg(pd1[k], PrevValues(pd1, k), MoveStart(pd1, k), length, sampleDist);
    InfoSeg(pd2[l], PrevValues(pd2, l), MoveStart(pd2, l), length, sampleDist);
    CommandIntersectionsApart(s1.dots, s2.dots, xy, env, s1.bb, s2.bb);
  }
}
