/** The sampler of `findPathDataIntersections`: for every command of a
    normalised path, its control points, the number of pieces its curve is cut
    into, the sample polyline (`dots`) and the box of its control points; and
    the coarse box of a whole path. */
module Sampler {
  import opened Geometry

  /** A sample point of a segment and the curve parameter it was taken at. */
  datatype Dot = Dot(x: real, y: real, t: real)

  /** What `getPathInfo` records for one command.
      `Skip`: a moveto, which has no control points.
      `Undefined`: a command right after a closepath, whose start point is read
      from the empty values of the `Z`; its coordinates, length and box are NaN,
      so its box overlaps nothing.
      `Seg`: the control points, the number of splits, the `splits + 1` sample
      points and the control-point box. */
  datatype SegInfo =
    | Skip
    | Undefined
    | Seg(cpts: seq<Point>, splits: nat, dots: seq<Dot>, bb: Box)
  {
    /** `data.cpts.length` is non-zero. */
    predicate HasCpts() {
      !Skip?
    }

    /** The box the driver compares: NaN (`NoBox`) for an undefined segment. */
    function SegBox(): Box {
      if Seg? then bb else NoBox
    }
  }

  // ---------------------------------------------------------------- pointAtT

  function Lerp(p0: Point, p: Point, t: real): Point {
    Point((p.x - p0.x) * t + p0.x, (p.y - p0.y) * t + p0.y)
  }

  /** The weights of the quadratic: `t1 * t1`, `2 * t1 * t`, `t ** 2` with
      `t1 = 1 - t`. */
  function Q0(t: real): real { (1.0 - t) * (1.0 - t) }
  function Q1(t: real): real { 2.0 * (1.0 - t) * t }
  function Q2(t: real): real { t * t }

  /** One coordinate of the quadratic Bezier curve at `t`. */
  function Bez2(a0: real, a1: real, a2: real, t: real): real {
    Q0(t) * a0 + Q1(t) * a1 + Q2(t) * a2
  }

  function Quadratic(p0: Point, cp1: Point, p: Point, t: real): Point {
    Point(Bez2(p0.x, cp1.x, p.x, t), Bez2(p0.y, cp1.y, p.y, t))
  }

  /** The weights of the cubic: `t1 ** 3`, `3 * t1 ** 2 * t`, `3 * t1 * t ** 2`,
      `t ** 3`. */
  function B0(t: real): real { (1.0 - t) * (1.0 - t) * (1.0 - t) }
  function B1(t: real): real { 3.0 * (1.0 - t) * (1.0 - t) * t }
  function B2(t: real): real { 3.0 * (1.0 - t) * t * t }
  function B3(t: real): real { t * t * t }

  /** One coordinate of the cubic Bezier curve at `t`. */
  function Bez3(a0: real, a1: real, a2: real, a3: real, t: real): real {
    B0(t) * a0 + B1(t) * a1 + B2(t) * a2 + B3(t) * a3
  }

  function Cubic(p0: Point, cp1: Point, cp2: Point, p: Point, t: real): Point {
    Point(Bez3(p0.x, cp1.x, cp2.x, p.x, t), Bez3(p0.y, cp1.y, cp2.y, p.y, t))
  }

  /** `pointAtT`: the point at parameter `t` of the cubic (4 points), quadratic
      (3 points) or line (otherwise, from the first two points) Bezier curve. */
  function PointAtT(pts: seq<Point>, t: real): Point
    requires |pts| >= 2
  {
    if |pts| == 4 then Cubic(pts[0], pts[1], pts[2], pts[3], t)
    else if |pts| == 3 then Quadratic(pts[0], pts[1], pts[2], t)
    else Lerp(pts[0], pts[1], t)
  }

  /** The curve starts on its first control point and ends on its last. */
  lemma PointAtTEnds(pts: seq<Point>)
    requires 2 <= |pts| <= 4
    ensures PointAtT(pts, 0.0) == pts[0]
    ensures PointAtT(pts, 1.0) == pts[|pts| - 1]
  {
    if |pts| == 4 {
      assert Cubic(pts[0], pts[1], pts[2], pts[3], 0.0) == pts[0];
      assert Cubic(pts[0], pts[1], pts[2], pts[3], 1.0) == pts[3];
    } else if |pts| == 3 {
      assert Quadratic(pts[0], pts[1], pts[2], 0.0) == pts[0];
      assert Quadratic(pts[0], pts[1], pts[2], 1.0) == pts[2];
    }
  }

  lemma MulMono(w: real, a: real, b: real)
    requires w >= 0.0 && a <= b
    ensures w * a <= w * b
  {
  }

  lemma MulNonneg(a: real, b: real)
    requires a >= 0.0 && b >= 0.0
    ensures a * b >= 0.0
  {
  }

  lemma SumLe4(p0: real, p1: real, p2: real, p3: real, q0: real, q1: real, q2: real, q3: real)
    requires p0 <= q0 && p1 <= q1 && p2 <= q2 && p3 <= q3
    ensures p0 + p1 + p2 + p3 <= q0 + q1 + q2 + q3
  {
  }

  lemma WeightsSum(w0: real, w1: real, w2: real, w3: real, c: real)
    requires w0 + w1 + w2 + w3 == 1.0
    ensures w0 * c + w1 * c + w2 * c + w3 * c == c
  {
    assert w0 * c + w1 * c + w2 * c + w3 * c == (w0 + w1 + w2 + w3) * c;
  }

  /** A convex combination of four values not below `lo` is not below `lo`. */
  lemma ConvexLo(w0: real, w1: real, w2: real, w3: real, a0: real, a1: real, a2: real, a3: real, lo: real)
    requires w0 >= 0.0 && w1 >= 0.0 && w2 >= 0.0 && w3 >= 0.0 && w0 + w1 + w2 + w3 == 1.0
    requires lo <= a0 && lo <= a1 && lo <= a2 && lo <= a3
    ensures lo <= w0 * a0 + w1 * a1 + w2 * a2 + w3 * a3
  {
    MulMono(w0, lo, a0); MulMono(w1, lo, a1); MulMono(w2, lo, a2); MulMono(w3, lo, a3);
    SumLe4(w0 * lo, w1 * lo, w2 * lo, w3 * lo, w0 * a0, w1 * a1, w2 * a2, w3 * a3);
    WeightsSum(w0, w1, w2, w3, lo);
  }

  /** A convex combination of four values not above `hi` is not above `hi`. */
  lemma ConvexHi(w0: real, w1: real, w2: real, w3: real, a0: real, a1: real, a2: real, a3: real, hi: real)
    requires w0 >= 0.0 && w1 >= 0.0 && w2 >= 0.0 && w3 >= 0.0 && w0 + w1 + w2 + w3 == 1.0
    requires a0 <= hi && a1 <= hi && a2 <= hi && a3 <= hi
    ensures w0 * a0 + w1 * a1 + w2 * a2 + w3 * a3 <= hi
  {
    MulMono(w0, a0, hi); MulMono(w1, a1, hi); MulMono(w2, a2, hi); MulMono(w3, a3, hi);
    SumLe4(w0 * a0, w1 * a1, w2 * a2, w3 * a3, w0 * hi, w1 * hi, w2 * hi, w3 * hi);
    WeightsSum(w0, w1, w2, w3, hi);
  }

  /** On [0, 1] the cubic weights are non-negative and sum to 1. */
  lemma CubicWeights(t: real)
    requires 0.0 <= t <= 1.0
    ensures B0(t) >= 0.0 && B1(t) >= 0.0 && B2(t) >= 0.0 && B3(t) >= 0.0
    ensures B0(t) + B1(t) + B2(t) + B3(t) == 1.0
  {
    var t1 := 1.0 - t;
    MulNonneg(t1, t1); MulNonneg(t1 * t1, t1);
    MulNonneg(3.0 * t1, t1); MulNonneg(3.0 * t1 * t1, t);
    MulNonneg(3.0 * t1, t); MulNonneg(3.0 * t1 * t, t);
    MulNonneg(t, t); MulNonneg(t * t, t);
  }

  /** On [0, 1] the quadratic weights are non-negative and sum to 1. */
  lemma QuadraticWeights(t: real)
    requires 0.0 <= t <= 1.0
    ensures Q0(t) >= 0.0 && Q1(t) >= 0.0 && Q2(t) >= 0.0
    ensures Q0(t) + Q1(t) + Q2(t) + 0.0 == 1.0
  {
    var t1 := 1.0 - t;
    MulNonneg(t1, t1); MulNonneg(2.0 * t1, t); MulNonneg(t, t);
  }

  /** One coordinate of a curve point lies between the bounds of that
      coordinate over the control points. */
  lemma CubicCoord(a0: real, a1: real, a2: real, a3: real, t: real, lo: real, hi: real)
    requires 0.0 <= t <= 1.0
    requires lo <= a0 <= hi && lo <= a1 <= hi && lo <= a2 <= hi && lo <= a3 <= hi
    ensures lo <= Bez3(a0, a1, a2, a3, t) <= hi
  {
    CubicWeights(t);
    ConvexLo(B0(t), B1(t), B2(t), B3(t), a0, a1, a2, a3, lo);
    ConvexHi(B0(t), B1(t), B2(t), B3(t), a0, a1, a2, a3, hi);
  }

  lemma QuadraticCoord(a0: real, a1: real, a2: real, t: real, lo: real, hi: real)
    requires 0.0 <= t <= 1.0
    requires lo <= a0 <= hi && lo <= a1 <= hi && lo <= a2 <= hi
    ensures lo <= Bez2(a0, a1, a2, t) <= hi
  {
    QuadraticWeights(t);
    ConvexLo(Q0(t), Q1(t), Q2(t), 0.0, a0, a1, a2, a2, lo);
    ConvexHi(Q0(t), Q1(t), Q2(t), 0.0, a0, a1, a2, a2, hi);
  }

  lemma LerpCoord(a0: real, a1: real, t: real, lo: real, hi: real)
    requires 0.0 <= t <= 1.0
    requires lo <= a0 <= hi && lo <= a1 <= hi
    ensures lo <= (a1 - a0) * t + a0 <= hi
  {
    assert (a1 - a0) * t + a0 == (1.0 - t) * a0 + t * a1 + 0.0 * a1 + 0.0 * a1;
    ConvexLo(1.0 - t, t, 0.0, 0.0, a0, a1, a1, a1, lo);
    ConvexHi(1.0 - t, t, 0.0, 0.0, a0, a1, a1, a1, hi);
  }

  lemma CubicInBox(p0: Point, p1: Point, p2: Point, p3: Point, t: real, b: Box)
    requires 0.0 <= t <= 1.0
    requires Inside(p0, b) && Inside(p1, b) && Inside(p2, b) && Inside(p3, b)
    ensures Inside(Cubic(p0, p1, p2, p3, t), b)
  {
    CubicCoord(p0.x, p1.x, p2.x, p3.x, t, b.x, b.right);
    CubicCoord(p0.y, p1.y, p2.y, p3.y, t, b.y, b.bottom);
  }

  lemma QuadraticInBox(p0: Point, p1: Point, p2: Point, t: real, b: Box)
    requires 0.0 <= t <= 1.0
    requires Inside(p0, b) && Inside(p1, b) && Inside(p2, b)
    ensures Inside(Quadratic(p0, p1, p2, t), b)
  {
    QuadraticCoord(p0.x, p1.x, p2.x, t, b.x, b.right);
    QuadraticCoord(p0.y, p1.y, p2.y, t, b.y, b.bottom);
  }

  lemma LerpInBox(p0: Point, p1: Point, t: real, b: Box)
    requires 0.0 <= t <= 1.0
    requires Inside(p0, b) && Inside(p1, b)
    ensures Inside(Lerp(p0, p1, t), b)
  {
    LerpCoord(p0.x, p1.x, t, b.x, b.right);
    LerpCoord(p0.y, p1.y, t, b.y, b.bottom);
  }

  /** A box holding every control point holds the curve point at `t`. */
  lemma PointAtTInAnyBox(pts: seq<Point>, t: real, b: Box)
    requires 2 <= |pts| <= 4 && 0.0 <= t <= 1.0
    requires forall k :: 0 <= k < |pts| ==> Inside(pts[k], b)
    ensures Inside(PointAtT(pts, t), b)
  {
    assert Inside(pts[0], b) && Inside(pts[1], b);
    if |pts| == 4 {
      assert Inside(pts[2], b) && Inside(pts[3], b);
      CubicInBox(pts[0], pts[1], pts[2], pts[3], t, b);
    } else if |pts| == 3 {
      assert Inside(pts[2], b);
      QuadraticInBox(pts[0], pts[1], pts[2], t, b);
    } else {
      LerpInBox(pts[0], pts[1], t, b);
    }
  }

  /** For `0 <= t <= 1` the curve point lies in the box of the control points
      (the convex-hull property of Bezier curves). */
  lemma PointAtTInBox(pts: seq<Point>, t: real)
    requires 2 <= |pts| <= 4 && 0.0 <= t <= 1.0
    ensures Inside(PointAtT(pts, t), CommandBBox(pts))
  {
    PointAtTInAnyBox(pts, t, CommandBBox(pts));
  }

  // ------------------------------------------------------- splits and dots

  /** `Math.ceil`. */
  function Ceil(x: real): int {
    -((-x).Floor)
  }

  lemma CeilSpec(x: real)
    ensures (Ceil(x) - 1) as real < x <= Ceil(x) as real
  {
  }

  /** The number of pieces a segment with `n` control points and length `len`
      is cut into: one for a line; for a curve `ceil(len / sampleDist)` when
      that exceeds 20, and 24 otherwise (`isLine` compares point objects by
      identity and never holds, and the `|| 1` fallback cannot be reached). */
  function Splits(n: nat, len: real, sampleDist: real): nat
    requires sampleDist > 0.0
  {
    if n == 2 then 1
    else
      var div := Ceil(len / sampleDist);
      if div > 20 then div as nat else 24
  }

  /** A line gets one piece; a curve at least 21, namely the number of
      `sampleDist` steps covering its length once that exceeds 20, else 24. */
  lemma SplitsSpec(n: nat, len: real, sampleDist: real)
    requires sampleDist > 0.0
    ensures n == 2 ==> Splits(n, len, sampleDist) == 1
    ensures n != 2 ==> Splits(n, len, sampleDist) >= 21
    ensures n != 2 && len / sampleDist > 20.0 ==>
      (Splits(n, len, sampleDist) - 1) as real < len / sampleDist <= Splits(n, len, sampleDist) as real
    ensures n != 2 && len / sampleDist <= 20.0 ==> Splits(n, len, sampleDist) == 24
  {
    CeilSpec(len / sampleDist);
  }

  /** The sample taken at `t = k / splits`. */
  function DotAt(cpts: seq<Point>, splits: nat, k: nat): Dot
    requires 2 <= |cpts| <= 4 && splits >= 1
  {
    var t := k as real / splits as real;
    var pt := PointAtT(cpts, t);
    Dot(pt.x, pt.y, t)
  }

  /** The `splits + 1` samples of a segment. */
  function Dots(cpts: seq<Point>, splits: nat): seq<Dot>
    requires 2 <= |cpts| <= 4 && splits >= 1
  {
    seq(splits + 1, k requires 0 <= k <= splits => DotAt(cpts, splits, k))
  }

  lemma ParamBounds(k: nat, splits: nat)
    requires 1 <= splits && k <= splits
    ensures 0.0 <= k as real / splits as real <= 1.0
  {
  }

  lemma ParamEnds(splits: nat)
    requires 1 <= splits
    ensures 0 as real / splits as real == 0.0 && splits as real / splits as real == 1.0
  {
  }

  lemma ParamIncreasing(k: nat, l: nat, splits: nat)
    requires 1 <= splits && k < l
    ensures k as real / splits as real < l as real / splits as real
  {
  }

  /** There are `splits + 1` samples; the first is the first control point at
      `t = 0` and the last is the last control point at `t = 1`. */
  lemma DotsEnds(cpts: seq<Point>, splits: nat)
    requires 2 <= |cpts| <= 4 && splits >= 1
    ensures |Dots(cpts, splits)| == splits + 1
    ensures Dots(cpts, splits)[0] == Dot(cpts[0].x, cpts[0].y, 0.0)
    ensures Dots(cpts, splits)[splits] == Dot(cpts[|cpts| - 1].x, cpts[|cpts| - 1].y, 1.0)
  {
    PointAtTEnds(cpts);
    ParamEnds(splits);
    assert Dots(cpts, splits)[0] == DotAt(cpts, splits, 0);
    assert Dots(cpts, splits)[splits] == DotAt(cpts, splits, splits);
  }

  /** Sample `k` is taken at `t = k / splits`: inside [0, 1] and strictly
      increasing with `k`. */
  lemma DotsParams(cpts: seq<Point>, splits: nat)
    requires 2 <= |cpts| <= 4 && splits >= 1
    ensures forall k :: 0 <= k <= splits ==>
      Dots(cpts, splits)[k].t == k as real / splits as real && 0.0 <= Dots(cpts, splits)[k].t <= 1.0
    ensures forall k, l :: 0 <= k < l <= splits ==> Dots(cpts, splits)[k].t < Dots(cpts, splits)[l].t
  {
    var dots := Dots(cpts, splits);
    forall k | 0 <= k <= splits
      ensures dots[k].t == k as real / splits as real && 0.0 <= dots[k].t <= 1.0
    {
      ParamBounds(k, splits);
    }
    forall k, l | 0 <= k < l <= splits
      ensures dots[k].t < dots[l].t
    {
      ParamIncreasing(k, l, splits);
    }
  }

  /** Every sample lies in the box of the control points. */
  lemma DotsInBox(cpts: seq<Point>, splits: nat)
    requires 2 <= |cpts| <= 4 && splits >= 1
    ensures forall k :: 0 <= k <= splits ==>
      Inside(Point(Dots(cpts, splits)[k].x, Dots(cpts, splits)[k].y), CommandBBox(cpts))
  {
    var dots := Dots(cpts, splits);
    forall k | 0 <= k <= splits
      ensures Inside(Point(dots[k].x, dots[k].y), CommandBBox(cpts))
    {
      ParamBounds(k, splits);
      PointAtTInBox(cpts, k as real / splits as real);
    }
  }

  /** The sampling loop of `getPathInfo`: `t = i / splits` for `i` from 0 to
      `splits`, pushing the curve point at each. */
  method SampleDots(cpts: seq<Point>, splits: nat) returns (dots: seq<Dot>)
    requires 2 <= |cpts| <= 4 && splits >= 1
    ensures dots == Dots(cpts, splits)
  {
    dots := [];
    var i := 0;
    while i < splits + 1
      invariant 0 <= i <= splits + 1
      invariant |dots| == i
      invariant forall k :: 0 <= k < i ==> dots[k] == DotAt(cpts, splits, k)
    {
      var t := i as real / splits as real;
      var pt := PointAtT(cpts, t);
      dots := dots + [Dot(pt.x, pt.y, t)];
      i := i + 1;
    }
  }

  // ---------------------------------------------------------- getPathInfo

  /** The final coordinate pair of a value list. */
  function LastPoint(vs: seq<real>): Point
    requires |vs| >= 2
  {
    Point(vs[|vs| - 2], vs[|vs| - 1])
  }

  /** The control points of a drawing command starting at `p0`, where `m` is
      the start of the current subpath: `[p0, cp1, cp2, p]` for `C`,
      `[p0, cp1, p]` for `Q`, `[p0, m]` for a closepath and `[p0, p]` for every
      other letter. */
  function ControlPoints(cmd: Command, p0: Point, m: Point): seq<Point>
    requires CommandReady(cmd)
  {
    var vs := cmd.values;
    if cmd.ty == 'C' then [p0, Point(vs[0], vs[1]), Point(vs[2], vs[3]), LastPoint(vs)]
    else if cmd.ty == 'Q' then [p0, Point(vs[0], vs[1]), LastPoint(vs)]
    else if cmd.ty == 'Z' || cmd.ty == 'z' then [p0, m]
    else [p0, LastPoint(vs)]
  }

  /** What `getPathInfo` records for `cmd`, given the values of the command
      before it, the subpath start `m`, the length function and `sampleDist`. */
  function Info(cmd: Command, prevValues: seq<real>, m: Point, length: seq<Point> -> real,
                sampleDist: real): SegInfo
    requires CommandReady(cmd) && sampleDist > 0.0
  {
    if cmd.ty == 'M' then Skip
    else if |prevValues| < 2 then Undefined
    else
      var cpts := ControlPoints(cmd, LastPoint(prevValues), m);
      var splits := Splits(|cpts|, length(cpts), sampleDist);
      Seg(cpts, splits, Dots(cpts, splits), CommandBBox(cpts))
  }

  /** The subpath start `M` when command `i` is reached: the first pair of the
      path, replaced by the final pair of every `M` passed. */
  function MoveStart(pd: seq<Command>, i: nat): Point
    requires PathReady(pd) && i <= |pd|
  {
    if i == 0 then Point(pd[0].values[0], pd[0].values[1])
    else if pd[i - 1].ty == 'M' then LastPoint(pd[i - 1].values)
    else MoveStart(pd, i - 1)
  }

  /** The values of the command before `i` (command 0 reads its own). */
  function PrevValues(pd: seq<Command>, i: nat): seq<real>
    requires i < |pd|
  {
    pd[if i > 0 then i - 1 else 0].values
  }

  function InfoAt(pd: seq<Command>, i: nat, length: seq<Point> -> real, sampleDist: real): SegInfo
    requires PathReady(pd) && i < |pd| && sampleDist > 0.0
  {
    Info(pd[i], PrevValues(pd, i), MoveStart(pd, i), length, sampleDist)
  }

  /** `getPathInfo`: one record per command. */
  function PathInfo(pd: seq<Command>, length: seq<Point> -> real, sampleDist: real): (r: seq<SegInfo>)
    requires PathReady(pd) && sampleDist > 0.0
  {
    seq(|pd|, i requires 0 <= i < |pd| => InfoAt(pd, i, length, sampleDist))
  }

  /** `M` is the final pair of the latest moveto before command `i`, and no
      moveto lies between that one and `i`. */
  lemma {:induction false} MoveStartIsLatestMove(pd: seq<Command>, i: nat)
    requires PathReady(pd) && 1 <= i <= |pd|
    ensures exists j :: (0 <= j < i && pd[j].ty == 'M' && MoveStart(pd, i) == LastPoint(pd[j].values) &&
                         forall k :: j < k < i ==> pd[k].ty != 'M')
  {
    if pd[i - 1].ty == 'M' {
      assert 0 <= i - 1 < i && pd[i - 1].ty == 'M' && MoveStart(pd, i) == LastPoint(pd[i - 1].values);
    } else {
      assert i - 1 != 0;
      MoveStartIsLatestMove(pd, i - 1);
      var j :| 0 <= j < i - 1 && pd[j].ty == 'M' && MoveStart(pd, i - 1) == LastPoint(pd[j].values) &&
        (forall k :: j < k < i - 1 ==> pd[k].ty != 'M');
      assert forall k :: j < k < i ==> pd[k].ty != 'M';
    }
  }

  /** A moveto has no segment; a drawing command right after a command
      without values (a closepath) has an undefined start; every other
      command has a segment. */
  lemma InfoKinds(cmd: Command, prevValues: seq<real>, m: Point, length: seq<Point> -> real,
                  sampleDist: real)
    requires CommandReady(cmd) && sampleDist > 0.0
    ensures Info(cmd, prevValues, m, length, sampleDist).Skip? <==> cmd.ty == 'M'
    ensures Info(cmd, prevValues, m, length, sampleDist).Undefined? <==>
      cmd.ty != 'M' && |prevValues| < 2
    ensures Info(cmd, prevValues, m, length, sampleDist).HasCpts() <==> cmd.ty != 'M'
  {
  }

  /** A segment starts on the final pair of the command before it and ends on
      its own final pair, or on the subpath start for a closepath; it has four
      control points for `C`, three for `Q` and two otherwise; lines get one
      piece and curves more than twenty; its samples run from its start to its
      end inside its box. */
  lemma InfoSeg(cmd: Command, prevValues: seq<real>, m: Point, length: seq<Point> -> real,
                sampleDist: real)
    requires CommandReady(cmd) && sampleDist > 0.0
    requires Info(cmd, prevValues, m, length, sampleDist).Seg?
    ensures var info := Info(cmd, prevValues, m, length, sampleDist);
      var cpts, n := info.cpts, |info.cpts|;
      && |prevValues| >= 2 && cpts[0] == LastPoint(prevValues)
      && (cmd.ty == 'C' ==> n == 4) && (cmd.ty == 'Q' ==> n == 3)
      && (cmd.ty != 'C' && cmd.ty != 'Q' ==> n == 2)
      && (if cmd.ty == 'Z' || cmd.ty == 'z' then cpts[n - 1] == m else cpts[n - 1] == LastPoint(cmd.values))
      && (info.splits == 1 <==> n == 2) && info.splits >= 1
      && |info.dots| == info.splits + 1
      && info.dots[0] == Dot(cpts[0].x, cpts[0].y, 0.0)
      && info.dots[info.splits] == Dot(cpts[n - 1].x, cpts[n - 1].y, 1.0)
      && ValidBox(info.bb)
      && forall k :: 0 <= k < |info.dots| ==> Inside(Point(info.dots[k].x, info.dots[k].y), info.bb)
  {
    var info := Info(cmd, prevValues, m, length, sampleDist);
    SplitsSpec(|info.cpts|, length(info.cpts), sampleDist);
    DotsEnds(info.cpts, info.splits);
    DotsInBox(info.cpts, info.splits);
  }

  /** Two consecutive segments join: the second starts where the first ends. */
  lemma SegmentsJoin(pd: seq<Command>, i: nat, length: seq<Point> -> real, sampleDist: real)
    requires PathReady(pd) && 1 <= i < |pd| && sampleDist > 0.0
    requires InfoAt(pd, i - 1, length, sampleDist).Seg? && InfoAt(pd, i, length, sampleDist).Seg?
    ensures var a, b := InfoAt(pd, i - 1, length, sampleDist).cpts, InfoAt(pd, i, length, sampleDist).cpts;
      b[0] == a[|a| - 1]
  {
    var prev := pd[i - 1];
    assert CommandReady(prev) && CommandReady(pd[i]);
    InfoSeg(pd[i], PrevValues(pd, i), MoveStart(pd, i), length, sampleDist);
    InfoSeg(prev, PrevValues(pd, i - 1), MoveStart(pd, i - 1), length, sampleDist);
  }

  /** `getPathInfo` as the source runs it: a loop over the commands that
      keeps the subpath start `M` and pushes one record per command. */
  method GetPathInfo(pd: seq<Command>, length: seq<Point> -> real, sampleDist: real)
    returns (pathArr: seq<SegInfo>)
    requires PathReady(pd) && sampleDist > 0.0
    ensures pathArr == PathInfo(pd, length, sampleDist)
  {
    pathArr := [];
    var m := Point(pd[0].values[0], pd[0].values[1]);
    var i := 0;
    while i < |pd|
      invariant 0 <= i <= |pd|
      invariant m == MoveStart(pd, i)
      invariant |pathArr| == i
      invariant forall k :: 0 <= k < i ==> pathArr[k] == InfoAt(pd, k, length, sampleDist)
    {
      var com := pd[i];
      assert CommandReady(com);
      var valuesPrev := if i > 0 then pd[i - 1].values else com.values;
      var obj: SegInfo;
      if com.ty == 'M' {
        m := LastPoint(com.values);
        obj := Skip;
      } else if |valuesPrev| < 2 {
        obj := Undefined;
      } else {
        var cpts := ControlPoints(com, LastPoint(valuesPrev), m);
        var splits := Splits(|cpts|, length(cpts), sampleDist);
        SplitsSpec(|cpts|, length(cpts), sampleDist);
        var dots := SampleDots(cpts, splits);
        obj := Seg(cpts, splits, dots, CommandBBox(cpts));
      }
      assert obj == InfoAt(pd, i, length, sampleDist);
      pathArr := pathArr + [obj];
      i := i + 1;
    }
  }

  // ------------------------------------------------------- getPathDataBBox

  /** The four points `getPathDataBBox` pushes for command `i` (`i >= 1`, with
      values, after a command ending on a pair): the end of the previous
      command, the first pair, for `C` the second control point
      (`values[L - 4], values[L - 3]`, else the first pair again) and the end. */
  function PushedPoints(pd: seq<Command>, i: nat): seq<Point>
    requires AllReady(pd) && 1 <= i < |pd|
    requires |pd[i].values| > 0 && |pd[i - 1].values| >= 2
  {
    var vs := pd[i].values;
    assert CommandReady(pd[i]);
    var cp1 := Point(vs[0], vs[1]);
    var cp2 := if pd[i].ty == 'C' then Point(vs[|vs| - 4], vs[|vs| - 3]) else cp1;
    [LastPoint(pd[i - 1].values), cp1, cp2, LastPoint(vs)]
  }

  /** The points pushed by the commands `1 .. n - 1`, or `None` once one of
      them reads the undefined end of a command without values (a NaN
      coordinate). */
  function BoxPoints(pd: seq<Command>, n: nat): Option<seq<Point>>
    requires AllReady(pd) && (n <= |pd| || n == 1)
  {
    if n <= 1 then Some([])
    else
      var before := BoxPoints(pd, n - 1);
      var i := n - 1;
      if before.None? || |pd[i].values| == 0 then before
      else if |pd[i - 1].values| < 2 then None
      else Some(before.value + PushedPoints(pd, i))
  }

  /** `getPathDataBBox`: the box of all pushed points; `NoBox` when a NaN was
      pushed or nothing was. */
  function PathDataBBox(pd: seq<Command>): Box
    requires AllReady(pd)
  {
    match BoxPoints(pd, |pd|)
    case None => NoBox
    case Some(pts) => CommandBBox(pts)
  }

  lemma XsYsAppend(a: seq<Point>, b: seq<Point>)
    ensures Xs(a + b) == Xs(a) + Xs(b) && Ys(a + b) == Ys(a) + Ys(b)
  {
  }

  /** `getPathDataBBox` as the source runs it: one pass over the commands from
      the second on, pushing coordinates onto `allX` and `allY`; `nan` records
      that an undefined coordinate was pushed. */
  method GetPathDataBBox(pd: seq<Command>) returns (bb: Box)
    requires AllReady(pd)
    ensures bb == PathDataBBox(pd)
  {
    var allX: seq<real> := [];
    var allY: seq<real> := [];
    var nan := false;
    var i := 1;
    while i < |pd|
      invariant 1 <= i && (i <= |pd| || i == 1)
      invariant nan == BoxPoints(pd, i).None?
      invariant !nan ==> allX == Xs(BoxPoints(pd, i).value) && allY == Ys(BoxPoints(pd, i).value)
    {
      var valuesPrev := pd[i - 1].values;
      var values := pd[i].values;
      if |values| > 0 {
        if |valuesPrev| < 2 {
          nan := true;
        } else if !nan {
          var pushed := PushedPoints(pd, i);
          XsYsAppend(BoxPoints(pd, i).value, pushed);
          allX := allX + Xs(pushed);
          allY := allY + Ys(pushed);
        }
      }
      i := i + 1;
    }
    if nan || allX == [] {
      bb := NoBox;
    } else {
      bb := Box(Min(allX), Min(allY), Max(allX), Max(allY));
    }
  }

  /** Once a NaN is pushed, the box stays undefined. */
  lemma {:induction false} BoxPointsNoneStays(pd: seq<Command>, n: nat, m: nat)
    requires AllReady(pd) && 1 <= n <= m <= |pd|
    requires BoxPoints(pd, n).None?
    ensures BoxPoints(pd, m).None?
    decreases m - n
  {
    if n < m {
      BoxPointsNoneStays(pd, n + 1, m);
    }
  }

  /** A command with values anywhere after a command without values (a
      closepath) makes the whole-path box undefined, so that path overlaps
      nothing. */
  lemma {:induction false} ValuesAfterCloseNoBox(pd: seq<Command>, i: nat, k: nat)
    requires AllReady(pd) && i < k < |pd|
    requires |pd[i].values| == 0 && |pd[k].values| > 0
    ensures PathDataBBox(pd) == NoBox
    decreases k - i
  {
    if |pd[i + 1].values| > 0 {
      if BoxPoints(pd, i + 1).Some? {
        assert BoxPoints(pd, i + 2).None?;
        BoxPointsNoneStays(pd, i + 2, |pd|);
      } else {
        BoxPointsNoneStays(pd, i + 1, |pd|);
      }
    } else {
      ValuesAfterCloseNoBox(pd, i + 1, k);
    }
  }

  /** The pushed points only grow: a defined list after `m` commands extends
      the one after `n <= m`. */
  lemma {:induction false} BoxPointsGrow(pd: seq<Command>, n: nat, m: nat)
    requires AllReady(pd) && 1 <= n <= m <= |pd|
    requires BoxPoints(pd, m).Some?
    ensures BoxPoints(pd, n).Some? && BoxPoints(pd, n).value <= BoxPoints(pd, m).value
    decreases m - n
  {
    if n < m {
      BoxPointsGrow(pd, n + 1, m);
      assert BoxPoints(pd, n).value <= BoxPoints(pd, n + 1).value;
    }
  }

  /** Every point of a prefix of `c` lies in the box of `c`. */
  lemma PrefixInBox(a: seq<Point>, c: seq<Point>)
    requires a <= c
    ensures forall k :: 0 <= k < |a| ==> Inside(a[k], CommandBBox(c))
  {
    forall k | 0 <= k < |a|
      ensures Inside(a[k], CommandBBox(c))
    {
      assert a[k] == c[k];
    }
  }

  /** A defined whole-path box is the box of the pushed points. */
  lemma PathBoxOfPoints(pd: seq<Command>)
    requires AllReady(pd) && PathDataBBox(pd).Box?
    ensures BoxPoints(pd, |pd|).Some? && PathDataBBox(pd) == CommandBBox(BoxPoints(pd, |pd|).value)
  {
  }

  /** A defined list after command `i` with values is the list before it plus
      the points `i` pushes. */
  lemma BoxPointsStep(pd: seq<Command>, i: nat)
    requires AllReady(pd) && 1 <= i < |pd| && |pd[i].values| > 0
    requires BoxPoints(pd, i + 1).Some?
    ensures BoxPoints(pd, i).Some? && |pd[i - 1].values| >= 2
    ensures BoxPoints(pd, i + 1).value == BoxPoints(pd, i).value + PushedPoints(pd, i)
  {
  }

  /** When the whole-path box is defined, the points pushed by command `i`
      follow the ones pushed before it in the list the box is taken of. */
  lemma PushedPrefix(pd: seq<Command>, i: nat)
    requires AllReady(pd) && 1 <= i < |pd| && |pd[i].values| > 0
    requires PathDataBBox(pd).Box?
    ensures |pd[i - 1].values| >= 2 && BoxPoints(pd, i).Some? && BoxPoints(pd, |pd|).Some?
    ensures BoxPoints(pd, i).value + PushedPoints(pd, i) <= BoxPoints(pd, |pd|).value
    ensures PathDataBBox(pd) == CommandBBox(BoxPoints(pd, |pd|).value)
  {
    PathBoxOfPoints(pd);
    BoxPointsGrow(pd, i + 1, |pd|);
    BoxPointsStep(pd, i);
  }

  /** Every point appended after `a` in a prefix of `c` lies in the box of `c`. */
  lemma AppendedInBox(a: seq<Point>, b: seq<Point>, c: seq<Point>)
    requires a + b <= c
    ensures forall p :: p in b ==> Inside(p, CommandBBox(c))
  {
    PrefixInBox(a + b, c);
    forall p | p in b
      ensures Inside(p, CommandBBox(c))
    {
      var k :| 0 <= k < |b| && b[k] == p;
      assert (a + b)[|a| + k] == p;
    }
  }

  /** When the whole-path box is defined, every command with values after the
      first follows a command ending on a pair, and the points it pushes lie
      in that box. */
  lemma PushedInPathBox(pd: seq<Command>, i: nat)
    requires AllReady(pd) && 1 <= i < |pd| && |pd[i].values| > 0
    requires PathDataBBox(pd).Box?
    ensures |pd[i - 1].values| >= 2
    ensures forall p :: p in PushedPoints(pd, i) ==> Inside(p, PathDataBBox(pd))
  {
    PushedPrefix(pd, i);
    AppendedInBox(BoxPoints(pd, i).value, PushedPoints(pd, i), BoxPoints(pd, |pd|).value);
  }

  /** When the whole-path box is defined, the control points of every command
      after the first that is not a closepath lie in it (for a normalised
      path, whose cubics carry exactly six values). */
  lemma CptsInPathBox(pd: seq<Command>, i: nat, m: Point)
    requires AllReady(pd) && 1 <= i < |pd|
    requires PathDataBBox(pd).Box?
    requires pd[i].ty != 'Z' && pd[i].ty != 'z'
    requires pd[i].ty == 'C' ==> |pd[i].values| == 6
    ensures |pd[i - 1].values| >= 2
    ensures forall p :: p in ControlPoints(pd[i], LastPoint(pd[i - 1].values), m) ==>
      Inside(p, PathDataBBox(pd))
  {
    assert CommandReady(pd[i]);
    PushedInPathBox(pd, i);
    var pushed := PushedPoints(pd, i);
    var cpts := ControlPoints(pd[i], LastPoint(pd[i - 1].values), m);
    if pd[i].ty == 'C' {
      assert cpts == pushed;
    } else if pd[i].ty == 'Q' {
      assert cpts == [pushed[0], pushed[1], pushed[3]];
    } else {
      assert cpts == [pushed[0], pushed[3]];
    }
  }

  /** The same for the segment records of `getPathInfo`. */
  lemma SegInPathBox(pd: seq<Command>, i: nat, length: seq<Point> -> real, sampleDist: real)
    requires PathReady(pd) && 1 <= i < |pd| && sampleDist > 0.0
    requires PathDataBBox(pd).Box?
    requires pd[i].ty != 'Z' && pd[i].ty != 'z'
    requires pd[i].ty == 'C' ==> |pd[i].values| == 6
    requires InfoAt(pd, i, length, sampleDist).Seg?
    ensures forall p :: p in InfoAt(pd, i, length, sampleDist).cpts ==> Inside(p, PathDataBBox(pd))
  {
    CptsInPathBox(pd, i, MoveStart(pd, i));
    assert InfoAt(pd, i, length, sampleDist).cpts == ControlPoints(pd[i], LastPoint(pd[i - 1].values), MoveStart(pd, i));
  }
}
