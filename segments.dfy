/**
 * The segment classes of viiva/paths/__init__.py (Line, QuadraticBezier,
 * CubicBezier, Arc) as one closed union, with the two conversions viiva adds
 * (`Line.to_cubic`, `QuadraticBezier.to_cubic`) and the De Casteljau split
 * that the flattening uses.
 */
module Segments {
  import opened Geometry
  import opened Results

  datatype Segment =
    | Line(start: Point, end: Point)
    | QuadraticBezier(start: Point, control: Point, end: Point)
    | CubicBezier(start: Point, control1: Point, control2: Point, end: Point)
    | Arc(start: Point, radius: Point, rotation: real, largeArc: bool, sweep: bool, end: Point)

  type Cubic = s: Segment | s.CubicBezier? witness CubicBezier(Origin, Origin, Origin, Origin)

  /** The point of a segment at parameter t (Arc evaluation is not part of this model). */
  function LineAt(line: Segment, t: real): Point
    requires line.Line?
  {
    Point(Bern1(line.start.x, line.end.x, t), Bern1(line.start.y, line.end.y, t))
  }

  function QuadraticAt(q: Segment, t: real): Point
    requires q.QuadraticBezier?
  {
    Point(Bern2(q.start.x, q.control.x, q.end.x, t), Bern2(q.start.y, q.control.y, q.end.y, t))
  }

  function CubicAt(c: Segment, t: real): Point
    requires c.CubicBezier?
  {
    Point(Bern3(c.start.x, c.control1.x, c.control2.x, c.end.x, t),
          Bern3(c.start.y, c.control1.y, c.control2.y, c.end.y, t))
  }

  /** A cubic starts at its first point and ends at its last. */
  lemma CubicAtEnds(c: Segment)
    requires c.CubicBezier?
    ensures CubicAt(c, 0.0) == c.start && CubicAt(c, 1.0) == c.end
  {
  }

  const ToCubicRangeMessage: string := "Parameter t must be between 0 and 1."

  /**
   * `Line.to_cubic(t)` (viiva/paths/__init__.py:79-108): a cubic with the
   * line's endpoints and control points at parameters t and 1 - t along it.
   */
  function LineToCubic(line: Segment, t: real): (r: Result<Segment>)
    requires line.Line?
    ensures r.Err? <==> t < 0.0 || t > 1.0
    ensures r.Err? ==> r.error == ValueError(ToCubicRangeMessage)
    ensures r.Ok? ==> r.value.CubicBezier? && r.value.start == line.start && r.value.end == line.end
    ensures r.Ok? ==> r.value.control1 == LineAt(line, t) && r.value.control2 == LineAt(line, 1.0 - t)
    ensures r.Ok? ==> Sub(r.value.control1, line.start) == Sub(line.end, r.value.control2)
  {
    var start, end := line.start, line.end;
    if !(0.0 <= t <= 1.0) then
      Err(ValueError(ToCubicRangeMessage))
    else
      var control1 := Add(start, Scale(t, Sub(end, start)));
      var control2 := Add(start, Scale(1.0 - t, Sub(end, start)));
      ToCubicControls(line, t);
      Ok(CubicBezier(start, control1, control2, end))
  }

  /** start + t·(end - start) is the line's point at t, and the two controls sit symmetrically. */
  lemma ToCubicControls(line: Segment, t: real)
    requires line.Line?
    ensures Add(line.start, Scale(t, Sub(line.end, line.start))) == LineAt(line, t)
    ensures Add(line.start, Scale(1.0 - t, Sub(line.end, line.start))) == LineAt(line, 1.0 - t)
    ensures Sub(Add(line.start, Scale(t, Sub(line.end, line.start))), line.start)
         == Sub(line.end, Add(line.start, Scale(1.0 - t, Sub(line.end, line.start))))
  {
    var d := Sub(line.end, line.start);
    assert (1.0 - t) * d.x == d.x - t * d.x && (1.0 - t) * d.y == d.y - t * d.y;
  }

  /** The default of `to_cubic`'s parameter. */
  const DefaultToCubicT: real := 1.0 / 3.0

  /** The cubic made from a line never leaves the line: its point at u is the line's point at Reach(t, u). */
  function Reach(t: real, u: real): real {
    3.0 * (1.0 - u) * (1.0 - u) * u * t + 3.0 * (1.0 - u) * u * u * (1.0 - t) + u * u * u
  }

  lemma LineToCubicStaysOnLine(line: Segment, t: real, u: real)
    requires line.Line? && 0.0 <= t <= 1.0
    ensures CubicAt(LineToCubic(line, t).value, u) == LineAt(line, Reach(t, u))
  {
  }

  /** With the default t = 1/3 the cubic traces the line exactly, parameter for parameter. */
  lemma DefaultLineToCubicIsExact(line: Segment, u: real)
    requires line.Line?
    ensures CubicAt(LineToCubic(line, DefaultToCubicT).value, u) == LineAt(line, u)
  {
    LineToCubicStaysOnLine(line, DefaultToCubicT, u);
    assert Reach(DefaultToCubicT, u) == u;
  }

  /** Line((0,0), (10,0)).to_cubic(1/3) has controls (10/3, 0) and (20/3, 0). */
  lemma LineToCubicExample()
    ensures LineToCubic(Line(Origin, Point(10.0, 0.0)), 1.0 / 3.0)
         == Ok(CubicBezier(Origin, Point(10.0 / 3.0, 0.0), Point(20.0 / 3.0, 0.0), Point(10.0, 0.0)))
  {
  }

  /**
   * `QuadraticBezier.to_cubic()` (viiva/paths/__init__.py:143-156): degree
   * elevation, C1 = P0 + 2/3·(P1 - P0) and C2 = P2 + 2/3·(P1 - P2).
   */
  function QuadraticToCubic(q: Segment): (r: Segment)
    requires q.QuadraticBezier?
    ensures r.CubicBezier? && r.start == q.start && r.end == q.end
  {
    var p0, p1, p2 := q.start, q.control, q.end;
    CubicBezier(p0, Add(p0, Scale(2.0 / 3.0, Sub(p1, p0))), Add(p2, Scale(2.0 / 3.0, Sub(p1, p2))), p2)
  }

  /** The elevated cubic is the same curve as the quadratic, at every parameter. */
  lemma QuadraticToCubicIsExact(q: Segment, t: real)
    requires q.QuadraticBezier?
    ensures CubicAt(QuadraticToCubic(q), t) == QuadraticAt(q, t)
  {
  }

  /** svgpathtools' `CubicBezier.split(t)`: De Casteljau's construction. */
  function Split(c: Cubic, t: real): (halves: (Cubic, Cubic))
    ensures halves.0.start == c.start && halves.1.end == c.end
    ensures halves.0.end == halves.1.start
  {
    var a := Lerp(c.start, c.control1, t);
    var b := Lerp(c.control1, c.control2, t);
    var e := Lerp(c.control2, c.end, t);
    var ab := Lerp(a, b, t);
    var be := Lerp(b, e, t);
    var m := Lerp(ab, be, t);
    (CubicBezier(c.start, a, ab, m), CubicBezier(m, be, e, c.end))
  }

  /** The two halves meet at the curve's point at t. */
  lemma SplitPoint(c: Cubic, t: real)
    ensures Split(c, t).0.end == CubicAt(c, t)
  {
    var p0, p1, p2, p3 := c.start, c.control1, c.control2, c.end;
    var a, b, e := Lerp(p0, p1, t), Lerp(p1, p2, t), Lerp(p2, p3, t);
    var ab, be := Lerp(a, b, t), Lerp(b, e, t);
    assert ab == Point(Bern2(p0.x, p1.x, p2.x, t), Bern2(p0.y, p1.y, p2.y, t)) by {
      Bern1Twice(p0.x, p1.x, p2.x, t);
      Bern1Twice(p0.y, p1.y, p2.y, t);
    }
    assert be == Point(Bern2(p1.x, p2.x, p3.x, t), Bern2(p1.y, p2.y, p3.y, t)) by {
      Bern1Twice(p1.x, p2.x, p3.x, t);
      Bern1Twice(p1.y, p2.y, p3.y, t);
    }
    Bern2Lerp(p0.x, p1.x, p2.x, p3.x, t);
    Bern2Lerp(p0.y, p1.y, p2.y, p3.y, t);
  }

  /**
   * `split(0.5)`, the only split `subdivide` makes: De Casteljau's
   * construction by midpoints.
   */
  function Bisect(c: Cubic): (halves: (Cubic, Cubic))
    ensures halves.0.start == c.start && halves.1.end == c.end
    ensures halves.0.end == halves.1.start
  {
    var a, b, e := Mid(c.start, c.control1), Mid(c.control1, c.control2), Mid(c.control2, c.end);
    var ab, be := Mid(a, b), Mid(b, e);
    var m := Mid(ab, be);
    (CubicBezier(c.start, a, ab, m), CubicBezier(m, be, e, c.end))
  }

  lemma BisectIsSplitAtHalf(c: Cubic)
    ensures Bisect(c) == Split(c, 0.5)
  {
    MidIsHalfwayLerp(c.start, c.control1);
    MidIsHalfwayLerp(c.control1, c.control2);
    MidIsHalfwayLerp(c.control2, c.end);
    var a, b, e := Mid(c.start, c.control1), Mid(c.control1, c.control2), Mid(c.control2, c.end);
    MidIsHalfwayLerp(a, b);
    MidIsHalfwayLerp(b, e);
    MidIsHalfwayLerp(Mid(a, b), Mid(b, e));
  }

  /** The two halves of a split at 1/2 trace the two halves of the curve. */
  lemma BisectTracesCurve(c: Cubic, u: real)
    ensures CubicAt(Bisect(c).0, u) == CubicAt(c, u / 2.0)
    ensures CubicAt(Bisect(c).1, u) == CubicAt(c, 0.5 + u / 2.0)
  {
    var p0, p1, p2, p3 := c.start, c.control1, c.control2, c.end;
    var (left, right) := Bisect(c);
    assert left.control2 == Point((p0.x + 2.0 * p1.x + p2.x) / 4.0, (p0.y + 2.0 * p1.y + p2.y) / 4.0);
    assert left.end == Point((p0.x + 3.0 * p1.x + 3.0 * p2.x + p3.x) / 8.0,
                             (p0.y + 3.0 * p1.y + 3.0 * p2.y + p3.y) / 8.0);
    assert right.control1 == Point((p1.x + 2.0 * p2.x + p3.x) / 4.0, (p1.y + 2.0 * p2.y + p3.y) / 4.0);
    Bern3LeftHalf(p0.x, p1.x, p2.x, p3.x, u);
    Bern3LeftHalf(p0.y, p1.y, p2.y, p3.y, u);
    Bern3RightHalf(p0.x, p1.x, p2.x, p3.x, u);
    Bern3RightHalf(p0.y, p1.y, p2.y, p3.y, u);
  }
}
