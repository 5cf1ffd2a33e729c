/** Points, commands and axis-aligned boxes shared by the parser, the sampler and
    the intersection solver. Coordinates are reals: the floating-point rounding of
    the original is not modelled here. */
module Geometry {

  datatype Option<+T> = None | Some(value: T)

  datatype Point = Point(x: real, y: real)

  /** One path command: its letter and its ordered numeric parameters. */
  datatype Command = Command(ty: char, values: seq<real>)

  /** A command whose values the sampler can read without meeting a missing
      one: no values for a closepath, at least two pairs for a cubic (its
      second control point), at least one pair otherwise. */
  predicate CommandReady(cmd: Command) {
    if cmd.ty == 'Z' || cmd.ty == 'z' then |cmd.values| == 0
    else if cmd.ty == 'C' then |cmd.values| >= 4
    else |cmd.values| >= 2
  }

  /** Path data as the normaliser leaves it: a leading moveto `M` and commands
      that are all ready for sampling. */
  predicate AllReady(pd: seq<Command>) {
    forall k :: 0 <= k < |pd| ==> CommandReady(pd[k])
  }

  predicate PathReady(pd: seq<Command>) {
    |pd| > 0 && pd[0].ty == 'M' && AllReady(pd)
  }

  /** A bounding box `{x, y, right, bottom}`. `NoBox` stands for the two boxes the
      original builds that compare false with everything: the NaN box of a point
      list holding an undefined coordinate, and the (+Infinity, -Infinity) box of
      an empty point list. */
  datatype Box = Box(x: real, y: real, right: real, bottom: real) | NoBox

  predicate ValidBox(b: Box) {
    b.Box? && b.x <= b.right && b.y <= b.bottom
  }

  predicate Inside(p: Point, b: Box) {
    b.Box? && b.x <= p.x <= b.right && b.y <= p.y <= b.bottom
  }

  function ToLower(c: char): char {
    if 'A' <= c <= 'Z' then (c as int + 32) as char else c
  }

  function ToUpper(c: char): char {
    if 'a' <= c <= 'z' then (c as int - 32) as char else c
  }

  /** `type.toLowerCase() === type` on a command letter: the letter is relative. */
  predicate IsLower(c: char) {
    ToLower(c) == c
  }

  /** Smallest element of a non-empty list (`Math.min(...s)`). */
  function Min(s: seq<real>): (m: real)
    requires |s| > 0
    ensures forall k :: 0 <= k < |s| ==> m <= s[k]
    ensures exists k :: 0 <= k < |s| && s[k] == m
  {
    if |s| == 1 then s[0]
    else
      var rest := Min(s[1..]);
      assert forall k :: 1 <= k < |s| ==> s[k] == s[1..][k - 1];
      if s[0] <= rest then s[0] else rest
  }

  /** Largest element of a non-empty list (`Math.max(...s)`). */
  function Max(s: seq<real>): (m: real)
    requires |s| > 0
    ensures forall k :: 0 <= k < |s| ==> s[k] <= m
    ensures exists k :: 0 <= k < |s| && s[k] == m
  {
    if |s| == 1 then s[0]
    else
      var rest := Max(s[1..]);
      assert forall k :: 1 <= k < |s| ==> s[k] == s[1..][k - 1];
      if s[0] >= rest then s[0] else rest
  }

  function Xs(pts: seq<Point>): (r: seq<real>)
    ensures |r| == |pts| && forall k :: 0 <= k < |pts| ==> r[k] == pts[k].x
  {
    seq(|pts|, k requires 0 <= k < |pts| => pts[k].x)
  }

  function Ys(pts: seq<Point>): (r: seq<real>)
    ensures |r| == |pts| && forall k :: 0 <= k < |pts| ==> r[k] == pts[k].y
  {
    seq(|pts|, k requires 0 <= k < |pts| => pts[k].y)
  }

  /** `commandBBox`: the axis-aligned box of a list of control points. The box
      holds every point and each of its four edges is touched by some point; an
      empty list gives the (+Infinity, -Infinity) box, which is `NoBox`. */
  function CommandBBox(pts: seq<Point>): (b: Box)
    ensures pts == [] <==> b.NoBox?
    ensures pts != [] ==> ValidBox(b)
    ensures forall k :: 0 <= k < |pts| ==> Inside(pts[k], b)
    ensures pts != [] ==> exists k :: 0 <= k < |pts| && pts[k].x == b.x
    ensures pts != [] ==> exists k :: 0 <= k < |pts| && pts[k].x == b.right
    ensures pts != [] ==> exists k :: 0 <= k < |pts| && pts[k].y == b.y
    ensures pts != [] ==> exists k :: 0 <= k < |pts| && pts[k].y == b.bottom
  {
    if pts == [] then NoBox
    else
      var xs, ys := Xs(pts), Ys(pts);
      var b := Box(Min(xs), Min(ys), Max(xs), Max(ys));
      assert forall k :: 0 <= k < |pts| ==> xs[k] == pts[k].x && ys[k] == pts[k].y;
      b
  }

  /** `isBBoxIntersect`: edge-inclusive overlap test. A NaN or empty box
      overlaps nothing, since every comparison with it is false. */
  function IsBBoxIntersect(b1: Box, b2: Box): (r: bool)
    ensures r ==> b1.Box? && b2.Box?
  {
    match (b1, b2)
    case (Box(x, y, right, bottom), Box(x2, y2, right2, bottom2)) =>
      x <= right2 && y <= bottom2 && bottom >= y2 && right >= x2
    case _ => false
  }

  /** The overlap test does not depend on the order of its arguments. */
  lemma BBoxIntersectSymmetric(b1: Box, b2: Box)
    ensures IsBBoxIntersect(b1, b2) == IsBBoxIntersect(b2, b1)
  {
  }

  /** Two proper boxes overlap exactly when some point lies in both; boxes that
      only share an edge or a corner overlap. */
  lemma BBoxIntersectIffCommonPoint(b1: Box, b2: Box)
    requires ValidBox(b1) && ValidBox(b2)
    ensures IsBBoxIntersect(b1, b2) <==> exists p :: Inside(p, b1) && Inside(p, b2)
  {
    if IsBBoxIntersect(b1, b2) {
      var px := if b1.x <= b2.x then b2.x else b1.x;
      var py := if b1.y <= b2.y then b2.y else b1.y;
      assert Inside(Point(px, py), b1) && Inside(Point(px, py), b2);
    }
  }
}
