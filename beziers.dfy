/**
 * The conversions of viiva/beziers.py between svgpathtools segments and the
 * `beziers` library: the point converters `_i2p` and `_p2i`, the segment
 * filter of `BezierPath.from_path`, and the trailing-z removal of
 * `BezierPath.d`.
 */
module Beziers {
  import opened Geometry
  import opened Results
  import opened Segments

  /** The `beziers` library's point. */
  datatype CPoint = CPoint(x: real, y: real)

  /** `_i2p(i)`: CPoint(i.real, i.imag). */
  function I2P(i: Point): CPoint {
    CPoint(i.x, i.y)
  }

  /** `_p2i(p)`: complex(p.x, p.y). */
  function P2I(p: CPoint): Point {
    Point(p.x, p.y)
  }

  /** A point converted to the library's point and back is itself, and the other way round. */
  lemma PointRoundTrip(i: Point, p: CPoint)
    ensures P2I(I2P(i)) == i
    ensures I2P(P2I(p)) == p
  {
  }

  /** The library's segments that `from_path` builds: CLine and CCubicBezier. */
  datatype BSegment =
    | CLine(p0: CPoint, p1: CPoint)
    | CCubicBezier(p0: CPoint, p1: CPoint, p2: CPoint, p3: CPoint)

  /** The segments `from_path` keeps. */
  predicate IsKept(s: Segment) {
    s.Line? || s.CubicBezier?
  }

  /** One kept segment, its points `list(s)` converted by `_i2p`. */
  function ToBezier(s: Segment): BSegment
    requires IsKept(s)
  {
    match s
    case Line(start, end) => CLine(I2P(start), I2P(end))
    case CubicBezier(start, control1, control2, end) => CCubicBezier(I2P(start), I2P(control1), I2P(control2), I2P(end))
  }

  /**
   * A library segment rebuilt as the svgpathtools class of the same name
   * from its points converted by `_p2i`, as `to_path` and `__getitem__` do.
   */
  function FromBezier(b: BSegment): (s: Segment)
    ensures IsKept(s)
  {
    match b
    case CLine(p0, p1) => Line(P2I(p0), P2I(p1))
    case CCubicBezier(p0, p1, p2, p3) => CubicBezier(P2I(p0), P2I(p1), P2I(p2), P2I(p3))
  }

  lemma SegmentRoundTrip(s: Segment)
    requires IsKept(s)
    ensures FromBezier(ToBezier(s)) == s
  {
  }

  /** The kept segments of a path, in order. */
  function Kept(path: seq<Segment>): (r: seq<Segment>)
    ensures |r| <= |path|
    ensures forall k :: 0 <= k < |r| ==> IsKept(r[k])
  {
    if |path| == 0 then []
    else Kept(path[..|path| - 1]) + (if IsKept(path[|path| - 1]) then [path[|path| - 1]] else [])
  }

  /** Kept is a filter: it works part by part, keeps a Line or a cubic, and drops anything else. */
  lemma {:induction false} KeptAppend(a: seq<Segment>, b: seq<Segment>)
    ensures Kept(a + b) == Kept(a) + Kept(b)
    decreases |b|
  {
    if |b| == 0 {
      assert a + b == a;
    } else {
      assert (a + b)[..|a + b| - 1] == a + b[..|b| - 1];
      assert (a + b)[|a + b| - 1] == b[|b| - 1];
      KeptAppend(a, b[..|b| - 1]);
    }
  }

  lemma KeptSingle(s: Segment)
    ensures Kept([s]) == if IsKept(s) then [s] else []
  {
    assert [s][..0] == [];
  }

  /** A path of Lines and cubics is kept whole. */
  lemma {:induction false} KeptAll(path: seq<Segment>)
    requires forall k :: 0 <= k < |path| ==> IsKept(path[k])
    ensures Kept(path) == path
  {
    if |path| > 0 {
      KeptAll(path[..|path| - 1]);
      assert path[..|path| - 1] + [path[|path| - 1]] == path;
    }
  }

  /** The library segments `from_path` collects in `u`. */
  function BezierSegments(path: seq<Segment>): (u: seq<BSegment>)
    ensures |u| == |Kept(path)|
    ensures forall k :: 0 <= k < |u| ==> u[k] == ToBezier(Kept(path)[k])
  {
    if |path| == 0 then []
    else
      var last := path[|path| - 1];
      BezierSegments(path[..|path| - 1]) + (if IsKept(last) then [ToBezier(last)] else [])
  }

  /** Converting the collected segments back gives exactly the Lines and cubics of the path, in order. */
  lemma FromPathRoundTrip(path: seq<Segment>)
    ensures var u := BezierSegments(path);
      seq(|u|, k requires 0 <= k < |u| => FromBezier(u[k])) == Kept(path)
  {
    var u := BezierSegments(path);
    forall k | 0 <= k < |u|
      ensures FromBezier(u[k]) == Kept(path)[k]
    {
      SegmentRoundTrip(Kept(path)[k]);
    }
  }

  /**
   * `BezierPath.from_path(path)` (viiva/beziers.py:84-94): the loop that
   * appends a CCubicBezier for each cubic and a CLine for each Line.
   */
  method FromPath(path: seq<Segment>) returns (u: seq<BSegment>)
    requires forall k :: 0 <= k < |path| ==> !path[k].Arc?
    ensures u == BezierSegments(path)
  {
    u := [];
    for i := 0 to |path|
      invariant u == BezierSegments(path[..i])
    {
      assert path[..i + 1][..i] == path[..i];
      var s := path[i];
      var l := Points(s);
      if s.CubicBezier? {
        u := u + [CCubicBezier(I2P(l[0]), I2P(l[1]), I2P(l[2]), I2P(l[3]))];
      } else if s.Line? {
        u := u + [CLine(I2P(l[0]), I2P(l[1]))];
      }
    }
    assert path[..|path|] == path;
  }

  /** `list(s)`: the points of a segment, start first and end last. */
  function Points(s: Segment): (l: seq<Point>)
    requires !s.Arc?
    ensures |l| >= 2 && l[0] == s.start && l[|l| - 1] == s.end
    ensures s.Line? ==> |l| == 2
    ensures s.CubicBezier? ==> |l| == 4 && l[1] == s.control1 && l[2] == s.control2
  {
    match s
    case Line(start, end) => [start, end]
    case QuadraticBezier(start, control, end) => [start, control, end]
    case CubicBezier(start, control1, control2, end) => [start, control1, control2, end]
  }

  /** The characters `\s` matches in a str pattern: those for which `str.isspace()` holds. */
  predicate IsSpace(c: char) {
    '\t' <= c <= '\r' || '\U{1c}' <= c <= ' ' || c == '\U{85}' || c == '\U{a0}' || c == '\U{1680}' ||
    '\U{2000}' <= c <= '\U{200a}' || c == '\U{2028}' || c == '\U{2029}' || c == '\U{202f}' ||
    c == '\U{205f}' || c == '\U{3000}'
  }

  predicate AllSpace(s: string) {
    forall k :: 0 <= k < |s| ==> IsSpace(s[k])
  }

  /** The string without its trailing whitespace. */
  function TrimEnd(s: string): (r: string)
    ensures |r| <= |s| && r == s[..|r|]
    ensures AllSpace(s[|r|..])
    ensures |r| == 0 || !IsSpace(r[|r| - 1])
  {
    if |s| > 0 && IsSpace(s[|s| - 1]) then TrimEnd(s[..|s| - 1]) else s
  }

  predicate IsZ(c: char) {
    c == 'z' || c == 'Z'
  }

  /** d ends in a z or Z followed only by whitespace. */
  predicate EndsInZ(d: string) {
    var t := TrimEnd(d);
    |t| > 0 && IsZ(t[|t| - 1])
  }

  /**
   * `re.sub(r'\s*z\s*$', '', d, flags=re.IGNORECASE)`: when d ends in a z or
   * Z followed only by whitespace, that z and the whitespace on both sides of
   * it are removed; otherwise d is unchanged.
   */
  function StripTrailingZ(d: string): (r: string)
    ensures |r| <= |d| && r == d[..|r|]
    ensures r != d <==> EndsInZ(d)
  {
    var t := TrimEnd(d);
    if EndsInZ(d) then TrimEnd(t[..|t| - 1]) else d
  }

  /**
   * What is removed is exactly one z, with only whitespace before and after
   * it, and the whitespace before it is removed to the last other character.
   */
  lemma StripTrailingZRemovesOneZ(d: string)
    requires StripTrailingZ(d) != d
    ensures var r := StripTrailingZ(d);
      (|r| == 0 || !IsSpace(r[|r| - 1])) &&
      exists k :: |r| <= k < |d| && IsZ(d[k]) && AllSpace(d[|r|..k]) && AllSpace(d[k + 1..])
  {
    var t := TrimEnd(d);
    var k := |t| - 1;
    var r := TrimEnd(t[..k]);
    assert t[..k] == d[..k];
    assert d[k] == t[k];
    assert d[|r|..k] == d[..k][|r|..];
    assert d[k + 1..] == d[|t|..];
  }

  /** The `d` of a path that does not end in z is left alone. */
  lemma StripTrailingZKeeps(d: string)
    requires !EndsInZ(d)
    ensures StripTrailingZ(d) == d
  {
  }

  /** `self[0][0]`: the first point of the first segment, as a complex number. */
  function FirstPoint(b: BSegment): Point {
    P2I(b.p0)
  }

  /** `self[-1][-1]`: the last point of the last segment, as a complex number. */
  function LastPoint(b: BSegment): Point {
    match b
    case CLine(_, p1) => P2I(p1)
    case CCubicBezier(_, _, _, p3) => P2I(p3)
  }

  /**
   * `BezierPath.d()` (viiva/beziers.py:129-133), given the library's
   * `asSVGPath()` string: IndexError on no segments; the trailing z removed
   * when the first point differs from the last; the string unchanged
   * otherwise.
   */
  function BezierD(segments: seq<BSegment>, svg: string): (r: Result<string>)
    ensures r.Err? <==> |segments| == 0
    ensures r.Err? ==> r.error == IndexError
    ensures r.Ok? ==> |r.value| <= |svg| && r.value == svg[..|r.value|]
    ensures r.Ok? && FirstPoint(segments[0]) == LastPoint(segments[|segments| - 1]) ==> r.value == svg
    ensures r.Ok? && FirstPoint(segments[0]) != LastPoint(segments[|segments| - 1]) ==> r.value == StripTrailingZ(svg)
  {
    if |segments| == 0 then Err(IndexError)
    else if FirstPoint(segments[0]) != LastPoint(segments[|segments| - 1]) then Ok(StripTrailingZ(svg))
    else Ok(svg)
  }

  /** An open path loses its trailing z exactly when there is one to lose. */
  lemma OpenPathLosesZ(segments: seq<BSegment>, svg: string)
    requires |segments| > 0 && FirstPoint(segments[0]) != LastPoint(segments[|segments| - 1])
    ensures BezierD(segments, svg).value != svg <==> EndsInZ(svg)
  {
  }

  /** "M 0 0 L 1 0 z " of an open path becomes "M 0 0 L 1 0". */
  lemma StripExample()
    ensures StripTrailingZ("M 0 0 L 1 0 z ") == "M 0 0 L 1 0"
  {
    var d := "M 0 0 L 1 0 z ";
    var t := "M 0 0 L 1 0 z";
    var u := "M 0 0 L 1 0 ";
    var r := "M 0 0 L 1 0";
    assert d[..|d| - 1] == t && t[..|t| - 1] == u && u[..|u| - 1] == r;
    assert TrimEnd(t) == t;
    assert TrimEnd(d) == t;
    assert EndsInZ(d);
    assert TrimEnd(r) == r;
    assert TrimEnd(u) == r;
  }
}
