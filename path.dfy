/**
 * The path-level pipeline of viiva/paths/path.py: `Path.to_cubics`,
 * `Path.as_polyline`, `Path.to_shapely` and `Path.d`.
 *
 * A path is the sequence of its segments. The pieces that svgpathtools
 * supplies are parameters: the approximation of an arc by cubics that
 * `approximate_arcs_with_cubics` performs, the library's own `d()` string
 * and its `isclosed()` test.
 */
module Paths {
  import opened Geometry
  import opened Results
  import opened Segments
  import opened Flattening

  /** svgpathtools' approximation of one Arc by cubics, within an error. */
  type ArcExpansion = (Segment, real) -> seq<Cubic>

  /** `to_cubics`' `error` default, which `as_polyline` leaves in place. */
  const DefaultArcError: real := 0.1

  /** `Path.as_polyline`'s `flatness` default, which `to_shapely` leaves in place. */
  const DefaultPathFlatness: real := 0.1

  predicate NoArcs(path: seq<Segment>) {
    forall i :: 0 <= i < |path| ==> !path[i].Arc?
  }

  /** `approximate_arcs_with_cubics(error)`: each Arc replaced, in place, by its cubics. */
  function ExpandArcs(path: seq<Segment>, expand: ArcExpansion, error: real): (r: seq<Segment>)
    ensures NoArcs(r)
  {
    if |path| == 0 then []
    else (if path[0].Arc? then expand(path[0], error) else [path[0]]) + ExpandArcs(path[1..], expand, error)
  }

  /** Without arcs the approximation changes nothing. */
  lemma {:induction false} ExpandArcsWithoutArcs(path: seq<Segment>, expand: ArcExpansion, error: real)
    requires NoArcs(path)
    ensures ExpandArcs(path, expand, error) == path
  {
    if |path| > 0 {
      ExpandArcsWithoutArcs(path[1..], expand, error);
    }
  }

  lemma {:induction false} ExpandArcsAppend(a: seq<Segment>, b: seq<Segment>, expand: ArcExpansion, error: real)
    ensures ExpandArcs(a + b, expand, error) == ExpandArcs(a, expand, error) + ExpandArcs(b, expand, error)
  {
    if |a| > 0 {
      assert (a + b)[1..] == a[1..] + b;
      ExpandArcsAppend(a[1..], b, expand, error);
    } else {
      assert a + b == b;
    }
  }

  /** The body of `to_cubics`' loop for one segment: a Line becomes `to_cubic()`, at t = 1/3. */
  function ConvertSegment(s: Segment): (r: Segment)
    ensures !r.Line?
    ensures r.start == s.start && r.end == s.end
    ensures s.Line? ==> r == LineToCubic(s, DefaultToCubicT).value
    ensures !s.Line? ==> r == s
  {
    if s.Line? then LineToCubic(s, DefaultToCubicT).value else s
  }

  /** What `to_cubics(error)` returns: the arcs approximated, then every Line made a cubic. */
  function Cubics(path: seq<Segment>, error: real, expand: ArcExpansion): (r: seq<Segment>)
    ensures NoArcs(r)
    ensures forall i :: 0 <= i < |r| ==> !r[i].Line?
  {
    var expanded := ExpandArcs(path, expand, error);
    seq(|expanded|, i requires 0 <= i < |expanded| => ConvertSegment(expanded[i]))
  }

  /**
   * On a path without arcs, `to_cubics` keeps the length and the order:
   * the Line at index i becomes `to_cubic()` of it, every other segment
   * stays as it is.
   */
  lemma CubicsInPlace(path: seq<Segment>, error: real, expand: ArcExpansion)
    requires NoArcs(path)
    ensures var r := Cubics(path, error, expand);
      |r| == |path| &&
      forall i :: 0 <= i < |path| ==>
        (path[i].Line? ==> r[i] == LineToCubic(path[i], DefaultToCubicT).value) && (!path[i].Line? ==> r[i] == path[i])
  {
    ExpandArcsWithoutArcs(path, expand, error);
  }

  /** Converting again changes nothing: `to_cubics` of its own result is that result. */
  lemma CubicsIdempotent(path: seq<Segment>, error: real, expand: ArcExpansion)
    ensures Cubics(Cubics(path, error, expand), error, expand) == Cubics(path, error, expand)
  {
    var r := Cubics(path, error, expand);
    CubicsInPlace(r, error, expand);
  }

  lemma CubicsAppend(a: seq<Segment>, b: seq<Segment>, error: real, expand: ArcExpansion)
    ensures Cubics(a + b, error, expand) == Cubics(a, error, expand) + Cubics(b, error, expand)
  {
    ExpandArcsAppend(a, b, expand, error);
  }

  /**
   * `Path.to_cubics(error)` (viiva/paths/path.py:73-94): a deep copy, its
   * arcs approximated, then each Line overwritten by its cubic, index by
   * index. The receiver is a value here and so is never changed.
   */
  method ToCubics(path: seq<Segment>, error: real, expand: ArcExpansion) returns (r: seq<Segment>)
    ensures r == Cubics(path, error, expand)
  {
    var expanded := ExpandArcs(path, expand, error);
    var copy := new Segment[|expanded|](i requires 0 <= i < |expanded| => expanded[i]);
    for i := 0 to copy.Length
      invariant forall k :: 0 <= k < i ==> copy[k] == ConvertSegment(expanded[k])
      invariant forall k :: i <= k < copy.Length ==> copy[k] == expanded[k]
    {
      if copy[i].Line? {
        copy[i] := LineToCubic(copy[i], DefaultToCubicT).value;
      }
    }
    r := copy[..];
  }

  /**
   * What one segment of the converted path adds to the polyline: a cubic
   * its flattening, a Line itself, a QuadraticBezier nothing (the loop has
   * no branch for it).
   */
  function FlattenSegment(s: Segment, flatten: Flattener): Result<seq<Segment>>
    requires !s.Arc?
  {
    match s
    case CubicBezier(_, _, _, _) => flatten(s)
    case Line(start, end) => Ok([Line(start, end)])
    case QuadraticBezier(_, _, _) => Ok([])
  }

  /** Lines only, or the ZeroDivisionError of a zero chord. */
  lemma FlattenSegmentIsLines(s: Segment, flatten: Flattener)
    requires !s.Arc? && FlattensToChains(flatten)
    ensures FlattenSegment(s, flatten).Ok? ==> AllLines(FlattenSegment(s, flatten).value)
    ensures FlattenSegment(s, flatten).Err? ==> FlattenSegment(s, flatten).error == ZeroDivisionError
    ensures s.QuadraticBezier? ==> FlattenSegment(s, flatten) == Ok([])
  {
  }

  /** The loop of `as_polyline` over the converted path: the flattenings, in order, concatenated. */
  function FlattenAll(path: seq<Segment>, flatten: Flattener): Result<seq<Segment>>
    requires NoArcs(path)
  {
    if |path| == 0 then Ok([])
    else
      var init :- FlattenAll(path[..|path| - 1], flatten);
      var last :- FlattenSegment(path[|path| - 1], flatten);
      Ok(init + last)
  }

  /** Flattening a concatenation flattens each part: the first error, or both results in order. */
  lemma {:induction false} FlattenAllAppend(a: seq<Segment>, b: seq<Segment>, flatten: Flattener)
    requires NoArcs(a) && NoArcs(b)
    ensures NoArcs(a + b)
    ensures FlattenAll(a + b, flatten) ==
      if FlattenAll(a, flatten).Err? then FlattenAll(a, flatten)
      else if FlattenAll(b, flatten).Err? then FlattenAll(b, flatten)
      else Ok(FlattenAll(a, flatten).value + FlattenAll(b, flatten).value)
    decreases |b|
  {
    if |b| == 0 {
      assert a + b == a;
      if FlattenAll(a, flatten).Ok? {
        assert FlattenAll(a, flatten).value + [] == FlattenAll(a, flatten).value;
      }
    } else {
      var init, last := b[..|b| - 1], b[|b| - 1];
      assert (a + b)[..|a + b| - 1] == a + init;
      assert (a + b)[|a + b| - 1] == last;
      FlattenAllAppend(a, init, flatten);
      if FlattenAll(a, flatten).Ok? && FlattenAll(init, flatten).Ok? && FlattenSegment(last, flatten).Ok? {
        var x, y, z := FlattenAll(a, flatten).value, FlattenAll(init, flatten).value, FlattenSegment(last, flatten).value;
        assert x + y + z == x + (y + z);
      }
    }
  }

  lemma FlattenAllSingle(s: Segment, flatten: Flattener)
    requires !s.Arc?
    ensures FlattenAll([s], flatten) == FlattenSegment(s, flatten)
  {
    assert [s][..0] == [];
    if FlattenSegment(s, flatten).Ok? {
      assert [] + FlattenSegment(s, flatten).value == FlattenSegment(s, flatten).value;
    }
  }

  /** The flattening holds Lines only; its one possible error is ZeroDivisionError. */
  lemma {:induction false} FlattenAllIsLines(path: seq<Segment>, flatten: Flattener)
    requires NoArcs(path) && FlattensToChains(flatten)
    ensures FlattenAll(path, flatten).Ok? ==> AllLines(FlattenAll(path, flatten).value)
    ensures FlattenAll(path, flatten).Err? ==> FlattenAll(path, flatten).error == ZeroDivisionError
    decreases |path|
  {
    if |path| > 0 {
      FlattenAllIsLines(path[..|path| - 1], flatten);
      FlattenSegmentIsLines(path[|path| - 1], flatten);
    }
  }

  /**
   * `Path.as_polyline(flatness)` (viiva/paths/path.py:96-127), with the
   * flattening of one cubic given: the path itself when every segment is a
   * Line, otherwise the flattening of `to_cubics()`.
   */
  function PolylineWith(path: seq<Segment>, flatten: Flattener, expand: ArcExpansion): (r: Result<seq<Segment>>)
    ensures AllLines(path) ==> r == Ok(path)
  {
    if AllLines(path) then Ok(path) else FlattenAll(Cubics(path, DefaultArcError, expand), flatten)
  }

  /** `Path.as_polyline(flatness)`, each cubic flattened by `CubicBezier.as_polyline(flatness)`. */
  function Polyline(path: seq<Segment>, flatness: real, expand: ArcExpansion): Result<seq<Segment>> {
    PolylineWith(path, CubicFlattening(flatness), expand)
  }

  /** The polyline holds Lines only; its one possible error is ZeroDivisionError. */
  lemma PolylineIsLines(path: seq<Segment>, flatness: real, expand: ArcExpansion)
    ensures Polyline(path, flatness, expand).Ok? ==> AllLines(Polyline(path, flatness, expand).value)
    ensures Polyline(path, flatness, expand).Err? ==> Polyline(path, flatness, expand).error == ZeroDivisionError
  {
    if !AllLines(path) {
      CubicFlatteningChains(flatness);
      FlattenAllIsLines(Cubics(path, DefaultArcError, expand), CubicFlattening(flatness));
    }
  }

  /** Flattening a polyline again returns it unchanged. */
  lemma PolylineIdempotent(path: seq<Segment>, flatness: real, expand: ArcExpansion)
    requires Polyline(path, flatness, expand).Ok?
    ensures Polyline(Polyline(path, flatness, expand).value, flatness, expand) == Polyline(path, flatness, expand)
  {
    PolylineIsLines(path, flatness, expand);
  }

  /** The cubic made from a Line has all four points on one line. */
  lemma LineCubicIsCollinear(line: Segment)
    requires line.Line?
    ensures var c := LineToCubic(line, DefaultToCubicT).value;
      Cross(c.start, c.control1, c.control2) == 0.0 && Cross(c.control1, c.control2, c.end) == 0.0
  {
    var c := LineToCubic(line, DefaultToCubicT).value;
    var d := Sub(line.end, line.start);
    assert Sub(c.control2, c.start) == Scale(2.0 / 3.0, d);
    assert Sub(c.start, c.control1) == Scale(-1.0 / 3.0, d);
    assert Sub(c.end, c.control1) == Scale(2.0 / 3.0, d);
    assert Sub(c.control1, c.control2) == Scale(-1.0 / 3.0, d);
    ScaledCrossIsZero(d, 2.0 / 3.0, -1.0 / 3.0);
  }

  lemma ScaledCrossIsZero(d: Point, j: real, k: real)
    ensures Mul(j * d.x, k * d.y) - Mul(j * d.y, k * d.x) == 0.0
  {
    assert Mul(j * d.x, k * d.y) == j * k * Mul(d.x, d.y);
    assert Mul(j * d.y, k * d.x) == j * k * Mul(d.x, d.y);
  }

  /**
   * The cubic of a Line of non-zero length is flattened back into that
   * Line: it is straight, so `subdivide` stops at once with [start, end].
   */
  lemma LineSurvivesFlattening(line: Segment, flatness: real)
    requires line.Line? && line.start != line.end && flatness >= 0.0
    ensures FlattenCubic(ConvertSegment(line), flatness) == Ok([line])
  {
    var c: Cubic := LineToCubic(line, DefaultToCubicT).value;
    LineCubicIsCollinear(line);
    CollinearIsFlat(c, flatness);
    assert !Degenerate(c) by {
      assert Sub(c.control2, c.start) == Scale(2.0 / 3.0, Sub(line.end, line.start));
      assert Sub(c.end, c.control1) == Scale(2.0 / 3.0, Sub(line.end, line.start));
    }
    SubdivideLeaf(c, MaxRecursion, flatness);
    assert Chain([c.start, c.end]) == [Line(c.start, c.end)];
  }

  /** The cubic of a zero-length Line raises ZeroDivisionError: both chords of it are zero. */
  lemma ZeroLengthLineRaises(line: Segment, flatness: real)
    requires line.Line? && line.start == line.end
    ensures FlattenCubic(ConvertSegment(line), flatness) == Err(ZeroDivisionError)
  {
    var c: Cubic := LineToCubic(line, DefaultToCubicT).value;
    assert c.control2 == c.start;
  }

  /**
   * In a path without arcs, a Line between two parts comes back as itself,
   * between the two parts' flattenings, whenever the flattening returns it.
   */
  lemma KeepsLine(a: seq<Segment>, line: Segment, b: seq<Segment>, flatten: Flattener, expand: ArcExpansion)
    requires NoArcs(a) && NoArcs(b) && !AllLines(a + [line] + b)
    requires line.Line? && flatten(ConvertSegment(line)) == Ok([line])
    ensures var ca, cb := Cubics(a, DefaultArcError, expand), Cubics(b, DefaultArcError, expand);
      PolylineWith(a + [line] + b, flatten, expand) ==
        if FlattenAll(ca, flatten).Err? then FlattenAll(ca, flatten)
        else if FlattenAll(cb, flatten).Err? then FlattenAll(cb, flatten)
        else Ok(FlattenAll(ca, flatten).value + [line] + FlattenAll(cb, flatten).value)
  {
    var ca, cl, cb := Cubics(a, DefaultArcError, expand), Cubics([line], DefaultArcError, expand), Cubics(b, DefaultArcError, expand);
    CubicsAppend(a, [line], DefaultArcError, expand);
    CubicsAppend(a + [line], b, DefaultArcError, expand);
    CubicsInPlace([line], DefaultArcError, expand);
    assert cl == [ConvertSegment(line)];
    FlattenAllSingle(ConvertSegment(line), flatten);
    FlattenAllAppend(ca, cl, flatten);
    FlattenAllAppend(ca + cl, cb, flatten);
  }

  /**
   * In a path without arcs that is not all Lines, a Line of non-zero length
   * comes back as exactly one Line with its endpoints, in its place.
   */
  lemma PolylineKeepsLine(a: seq<Segment>, line: Segment, b: seq<Segment>, flatness: real, expand: ArcExpansion)
    requires NoArcs(a) && NoArcs(b) && !AllLines(a + [line] + b)
    requires line.Line? && line.start != line.end && flatness >= 0.0
    ensures var ca, cb, flatten := Cubics(a, DefaultArcError, expand), Cubics(b, DefaultArcError, expand), CubicFlattening(flatness);
      Polyline(a + [line] + b, flatness, expand) ==
        if FlattenAll(ca, flatten).Err? then FlattenAll(ca, flatten)
        else if FlattenAll(cb, flatten).Err? then FlattenAll(cb, flatten)
        else Ok(FlattenAll(ca, flatten).value + [line] + FlattenAll(cb, flatten).value)
  {
    LineSurvivesFlattening(line, flatness);
    KeepsLine(a, line, b, CubicFlattening(flatness), expand);
  }

  /**
   * The loop of `Path.as_polyline` over the converted path: the Lines of
   * each cubic's flattening appended one by one, a Line appended as a new
   * Line, nothing for any other segment.
   */
  method FlattenLoop(converted: seq<Segment>, flatten: Flattener) returns (r: Result<seq<Segment>>)
    requires NoArcs(converted)
    ensures r == FlattenAll(converted, flatten)
  {
    var polyline: seq<Segment> := [];
    for i := 0 to |converted|
      invariant FlattenAll(converted[..i], flatten) == Ok(polyline)
    {
      assert converted[..i + 1][..i] == converted[..i];
      var segment := converted[i];
      var lines: seq<Segment> := [];
      if segment.CubicBezier? {
        var flattened := flatten(segment);
        if flattened.Err? {
          assert converted[..i + 1] + converted[i + 1..] == converted;
          FlattenAllAppend(converted[..i + 1], converted[i + 1..], flatten);
          return Err(flattened.error);
        }
        lines := flattened.value;
      } else if segment.Line? {
        lines := [Line(segment.start, segment.end)];
      }
      var before := polyline;
      for j := 0 to |lines|
        invariant polyline == before + lines[..j]
      {
        assert lines[..j + 1] == lines[..j] + [lines[j]];
        polyline := polyline + [lines[j]];
      }
      assert lines[..|lines|] == lines;
    }
    assert converted[..|converted|] == converted;
    return Ok(polyline);
  }

  /**
   * `Path.as_polyline(flatness)` as the source runs it: the all-Lines check,
   * `to_cubics()`, then the loop over the converted segments, each cubic
   * flattened by `CubicBezier.as_polyline(flatness)`.
   */
  method AsPolyline(path: seq<Segment>, flatness: real, expand: ArcExpansion) returns (r: Result<seq<Segment>>)
    ensures r == Polyline(path, flatness, expand)
  {
    if AllLines(path) {
      return Ok(path);
    }
    var converted := ToCubics(path, DefaultArcError, expand);
    r := FlattenLoop(converted, CubicFlattening(flatness));
  }

  /** The two polylines meet where the first ends and the second starts, so their concatenation is connected. */
  lemma ConnectedAppend(x: seq<Segment>, y: seq<Segment>)
    requires Connected(x) && Connected(y) && |x| >= 1 && |y| >= 1 && x[|x| - 1].end == y[0].start
    ensures Connected(x + y)
  {
    var xy := x + y;
    forall i, j | 0 <= i < j < |xy| && j == i + 1
      ensures xy[i].end == xy[j].start
    {
      if j < |x| {
        assert xy[i] == x[i] && xy[j] == x[j];
      } else if i >= |x| {
        assert xy[i] == y[i - |x|] && xy[j] == y[j - |x|];
      }
    }
  }

  /** A path made only of Lines and cubics. */
  predicate LinesAndCubics(path: seq<Segment>) {
    forall i :: 0 <= i < |path| ==> path[i].Line? || path[i].CubicBezier?
  }

  /**
   * The flattening of a connected path of Lines and cubics is one connected
   * polyline from the path's start to its end.
   */
  lemma {:induction false} FlattenAllConnected(path: seq<Segment>, flatten: Flattener)
    requires FlattensToChains(flatten) && LinesAndCubics(path) && Connected(path) && |path| >= 1
    requires FlattenAll(path, flatten).Ok?
    ensures var lines := FlattenAll(path, flatten).value;
      |lines| >= 1 && Connected(lines) && lines[0].start == path[0].start && lines[|lines| - 1].end == path[|path| - 1].end
    decreases |path|
  {
    var n := |path|;
    var last := FlattenSegment(path[n - 1], flatten).value;
    if n == 1 {
      FlattenAllSingle(path[0], flatten);
    } else {
      var init := path[..n - 1];
      assert Connected(init) by {
        forall i, j | 0 <= i < j < |init| && j == i + 1
          ensures init[i].end == init[j].start
        {
          assert init[i] == path[i] && init[j] == path[j];
        }
      }
      FlattenAllConnected(init, flatten);
      var lines := FlattenAll(init, flatten).value;
      assert path[n - 2].end == path[n - 1].start;
      ConnectedAppend(lines, last);
    }
  }

  /**
   * A connected path of Lines and cubics flattens to a connected polyline
   * with the path's start and end.
   */
  lemma PolylineConnected(path: seq<Segment>, flatness: real, expand: ArcExpansion)
    requires LinesAndCubics(path) && Connected(path) && |path| >= 1
    requires Polyline(path, flatness, expand).Ok?
    ensures var lines := Polyline(path, flatness, expand).value;
      |lines| >= 1 && Connected(lines) && lines[0].start == path[0].start && lines[|lines| - 1].end == path[|path| - 1].end
  {
    if !AllLines(path) {
      var converted := Cubics(path, DefaultArcError, expand);
      CubicsInPlace(path, DefaultArcError, expand);
      assert LinesAndCubics(converted) by {
        forall i | 0 <= i < |converted|
          ensures converted[i].CubicBezier?
        {
          assert converted[i] == ConvertSegment(path[i]);
        }
      }
      assert Connected(converted) by {
        forall i, j | 0 <= i < j < |converted| && j == i + 1
          ensures converted[i].end == converted[j].start
        {
          assert converted[i] == ConvertSegment(path[i]) && converted[j] == ConvertSegment(path[j]);
        }
      }
      assert converted[0].start == path[0].start && converted[|path| - 1].end == path[|path| - 1].end by {
        assert converted[0] == ConvertSegment(path[0]);
        assert converted[|path| - 1] == ConvertSegment(path[|path| - 1]);
      }
      CubicFlatteningChains(flatness);
      FlattenAllConnected(converted, CubicFlattening(flatness));
    }
  }

  /** A path with no CubicBezier in it. */
  predicate NoCubics(path: seq<Segment>) {
    forall i :: 0 <= i < |path| ==> !path[i].CubicBezier?
  }

  /**
   * With a flattening that raises on every cubic, the loop over a converted
   * path returns only when no cubic is left, and then with no Lines at all:
   * all that remains are QuadraticBeziers, which add nothing.
   */
  lemma {:induction false} FlattenAllNeverReturning(path: seq<Segment>, flatten: Flattener)
    requires NoArcs(path) && NeverReturns(flatten)
    requires forall i :: 0 <= i < |path| ==> !path[i].Line?
    ensures FlattenAll(path, flatten).Ok? <==> NoCubics(path)
    ensures FlattenAll(path, flatten).Ok? ==> FlattenAll(path, flatten).value == []
    decreases |path|
  {
    if |path| > 0 {
      var init := path[..|path| - 1];
      assert forall i :: 0 <= i < |init| ==> init[i] == path[i];
      FlattenAllNeverReturning(init, flatten);
      assert NoCubics(path) <==> NoCubics(init) && !path[|path| - 1].CubicBezier?;
    }
  }

  /**
   * `Path.as_polyline(flatness)` as the package runs it: the same loop, with
   * the package's `CubicBezier.as_polyline`, which raises NameError.
   */
  function PackagePolyline(path: seq<Segment>, flatness: real, expand: ArcExpansion): Result<seq<Segment>> {
    PolylineWith(path, PackageFlattening(flatness), expand)
  }

  /**
   * In the package, `as_polyline` returns a path of Lines unchanged, and on
   * any other path returns only when `to_cubics()` leaves no cubic, with no
   * Lines; without arcs, that is a path of QuadraticBeziers only.
   */
  lemma PackagePolylineOutcome(path: seq<Segment>, flatness: real, expand: ArcExpansion)
    ensures AllLines(path) ==> PackagePolyline(path, flatness, expand) == Ok(path)
    ensures !AllLines(path) ==>
      (PackagePolyline(path, flatness, expand).Ok? <==> NoCubics(Cubics(path, DefaultArcError, expand)))
    ensures !AllLines(path) && PackagePolyline(path, flatness, expand).Ok? ==> PackagePolyline(path, flatness, expand).value == []
    ensures !AllLines(path) && NoArcs(path) ==>
      (PackagePolyline(path, flatness, expand).Ok? <==> forall i :: 0 <= i < |path| ==> path[i].QuadraticBezier?)
  {
    if !AllLines(path) {
      var converted := Cubics(path, DefaultArcError, expand);
      PackageFlatteningNeverReturns(flatness);
      FlattenAllNeverReturning(converted, PackageFlattening(flatness));
      if NoArcs(path) {
        CubicsInPlace(path, DefaultArcError, expand);
        assert forall i :: 0 <= i < |path| ==> converted[i] == ConvertSegment(path[i]);
      }
    }
  }

  /** `Path.to_shapely()` as the package runs it. */
  function PackageToShapely(path: seq<Segment>, expand: ArcExpansion): Result<Shape> {
    var polyline :- PackagePolyline(path, DefaultPathFlatness, expand);
    ShapeOf(LineStarts(polyline))
  }

  /**
   * In the package, `to_shapely` behaves as intended on a path of Lines, and
   * raises on every other path: NameError or ZeroDivisionError from the
   * first cubic, or ValueError when no Line is left.
   */
  lemma PackageToShapelyOutcome(path: seq<Segment>, expand: ArcExpansion)
    ensures AllLines(path) ==> PackageToShapely(path, expand) == ToShapely(path, expand)
    ensures !AllLines(path) ==> PackageToShapely(path, expand).Err?
  {
    PackagePolylineOutcome(path, DefaultPathFlatness, expand);
  }

  /** The shapely geometry `to_shapely` builds: its kind and its coordinates. */
  datatype Shape = Polygon(coords: seq<Point>) | LineString(coords: seq<Point>)

  const NoLinesMessage: string := "Path does not contain any Line segments."

  /** The comprehension of viiva/paths/path.py:146: the start of each Line, in order. */
  function LineStarts(path: seq<Segment>): (coords: seq<Point>)
    ensures |coords| <= |path|
  {
    if |path| == 0 then []
    else (if path[0].Line? then [path[0].start] else []) + LineStarts(path[1..])
  }

  /** On a polyline, one coordinate per Line: its start; the last Line's end is not among them. */
  lemma {:induction false} LineStartsOfLines(path: seq<Segment>)
    requires AllLines(path)
    ensures |LineStarts(path)| == |path|
    ensures forall i :: 0 <= i < |path| ==> LineStarts(path)[i] == path[i].start
  {
    if |path| > 0 {
      LineStartsOfLines(path[1..]);
    }
  }

  /** No coordinates is ValueError; else the closed form exactly when the first and last are equal. */
  function ShapeOf(coords: seq<Point>): (r: Result<Shape>)
    ensures r.Err? <==> |coords| == 0
    ensures r.Err? ==> r.error == ValueError(NoLinesMessage)
    ensures r.Ok? ==> r.value.coords == coords
    ensures r.Ok? ==> (r.value.Polygon? <==> coords[0] == coords[|coords| - 1])
  {
    if |coords| == 0 then Err(ValueError(NoLinesMessage))
    else if coords[0] == coords[|coords| - 1] then Ok(Polygon(coords))
    else Ok(LineString(coords))
  }

  /** `Path.to_shapely()` (viiva/paths/path.py:132-154), as written: from the starts of the Lines of `as_polyline()`. */
  function ToShapely(path: seq<Segment>, expand: ArcExpansion): Result<Shape> {
    var polyline :- Polyline(path, DefaultPathFlatness, expand);
    ShapeOf(LineStarts(polyline))
  }

  /**
   * `to_shapely` fails with ZeroDivisionError where `as_polyline` does and
   * with ValueError on an empty polyline; otherwise its coordinates are the
   * start of every Line, and its form is closed exactly when the first
   * Line starts where the last Line starts.
   */
  lemma ToShapelyOutcome(path: seq<Segment>, expand: ArcExpansion)
    ensures var polyline := Polyline(path, DefaultPathFlatness, expand);
      (polyline.Err? ==> ToShapely(path, expand) == Err(ZeroDivisionError)) &&
      (polyline.Ok? && |polyline.value| == 0 ==> ToShapely(path, expand) == Err(ValueError(NoLinesMessage))) &&
      (polyline.Ok? && |polyline.value| > 0 ==>
        ToShapely(path, expand).Ok? &&
        |ToShapely(path, expand).value.coords| == |polyline.value| &&
        (forall i :: 0 <= i < |polyline.value| ==> ToShapely(path, expand).value.coords[i] == polyline.value[i].start) &&
        (ToShapely(path, expand).value.Polygon? <==> polyline.value[0].start == polyline.value[|polyline.value| - 1].start))
  {
    PolylineIsLines(path, DefaultPathFlatness, expand);
    var polyline := Polyline(path, DefaultPathFlatness, expand);
    if polyline.Ok? {
      LineStartsOfLines(polyline.value);
    }
  }

  /** The closed triangle (0,0) - (10,0) - (10,10) - (0,0), as three Lines. */
  const Triangle: seq<Segment> := [Line(Origin, Point(10.0, 0.0)), Line(Point(10.0, 0.0), Point(10.0, 10.0)), Line(Point(10.0, 10.0), Origin)]

  /** As written, the closed triangle becomes an open LineString without its closing point. */
  lemma ClosedTriangleIsOpen(expand: ArcExpansion)
    ensures Connected(Triangle) && Triangle[2].end == Triangle[0].start
    ensures ToShapely(Triangle, expand) == Ok(LineString([Origin, Point(10.0, 0.0), Point(10.0, 10.0)]))
  {
    assert AllLines(Triangle);
    LineStartsOfLines(Triangle);
    assert LineStarts(Triangle) == [Origin, Point(10.0, 0.0), Point(10.0, 10.0)];
  }

  /** The coordinates evidently meant: every corner of the polyline, the last Line's end included. */
  function ShapeOfPolyline(polyline: seq<Segment>): (r: Result<Shape>)
    ensures r.Err? <==> |polyline| == 0
    ensures r.Err? ==> r.error == ValueError(NoLinesMessage)
    ensures r.Ok? ==> r.value.coords == Vertices(polyline)
    ensures r.Ok? ==> (r.value.Polygon? <==> polyline[|polyline| - 1].end == polyline[0].start)
  {
    ShapeOf(Vertices(polyline))
  }

  /** `to_shapely` as intended: closed exactly when the polyline returns to its start. */
  function ToShapelyClosed(path: seq<Segment>, expand: ArcExpansion): Result<Shape> {
    var polyline :- Polyline(path, DefaultPathFlatness, expand);
    ShapeOfPolyline(polyline)
  }

  /**
   * The intended shape loses no corner: a connected polyline is rebuilt
   * from its coordinates, and the shape is closed exactly when the polyline
   * ends where it starts.
   */
  lemma ShapeDeterminesPolyline(polyline: seq<Segment>)
    requires |polyline| >= 1 && AllLines(polyline) && Connected(polyline)
    ensures ShapeOfPolyline(polyline).Ok?
    ensures Chain(ShapeOfPolyline(polyline).value.coords) == polyline
    ensures ShapeOfPolyline(polyline).value.Polygon? <==> polyline[|polyline| - 1].end == polyline[0].start
  {
    ChainOfVertices(polyline);
  }

  lemma ClosedTriangleIsPolygon(expand: ArcExpansion)
    ensures ToShapelyClosed(Triangle, expand) == Ok(Polygon([Origin, Point(10.0, 0.0), Point(10.0, 10.0), Origin]))
  {
    assert AllLines(Triangle);
    assert Vertices(Triangle) == [Origin, Point(10.0, 0.0), Point(10.0, 10.0), Origin];
  }

  /**
   * `Path.d()` (viiva/paths/path.py:156-160): svgpathtools' d string,
   * followed by " Z" exactly when the path is closed.
   */
  function D(path: seq<Segment>, render: seq<Segment> -> string, isClosed: seq<Segment> -> bool): (d: string)
    ensures |render(path)| <= |d| && d[..|render(path)|] == render(path)
    ensures isClosed(path) <==> |d| > |render(path)|
    ensures isClosed(path) ==> d[|render(path)|..] == " Z"
  {
    if isClosed(path) then render(path) + " Z" else render(path)
  }
}
