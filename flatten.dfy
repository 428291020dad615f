/**
 * Adaptive flattening of one cubic, `CubicBezier.as_polyline(flatness)` and its
 * inner `subdivide` (viiva/paths/__init__.py:110-141).
 *
 * `subdivide` measures how far p1 lies from the line p0-p2 and how far p2
 * lies from the line p1-p3, takes the larger distance, and halves the curve
 * by De Casteljau at t = 1/2 while that distance is above the flatness and
 * the depth is below 10. The halves' point lists are joined so that the
 * shared midpoint appears once. Each distance is |cross| / |chord|; the model
 * compares squares instead, which needs no square root, and a zero chord is
 * the ZeroDivisionError the division raises.
 *
 * The recursion is written over `levels`, the halvings still allowed, which
 * is `max_recursion - depth` in the source: `depth < max_recursion` is
 * `levels > 0`, the recursive call at `depth + 1` is one at `levels - 1`,
 * and the top call `subdivide(self)` at depth 0 is one at MaxRecursion.
 */
module Flattening {
  import opened Geometry
  import opened Results
  import opened Segments

  /** subdivide's `max_recursion` default. */
  const MaxRecursion: nat := 10

  function Pow2(n: nat): (r: nat)
    ensures r >= 1
  {
    if n == 0 then 1 else 2 * Pow2(n - 1)
  }

  /** (c - a) × (a - b) as the source writes it: twice the signed area of the triangle a, b, c. */
  function Cross(a: Point, b: Point, c: Point): real {
    Mul(c.x - a.x, a.y - b.y) - Mul(c.y - a.y, a.x - b.x)
  }

  /** |cross| / sqrt(chordSq) > flatness, compared without the square root. */
  predicate Exceeds(cross: real, chordSq: real, flatness: real) {
    flatness < 0.0 || Sq(cross) > Mul(Sq(flatness), chordSq)
  }

  /** The squared lengths of the two chords the source divides by: |p2 - p0|² and |p3 - p1|². */
  function FirstChordSq(b: Cubic): real {
    SqNorm(Sub(b.control2, b.start))
  }

  function SecondChordSq(b: Cubic): real {
    SqNorm(Sub(b.end, b.control1))
  }

  /** One of the two chords has no length, so its division is by zero. */
  predicate Degenerate(b: Cubic) {
    b.control2 == b.start || b.end == b.control1
  }

  /** Degenerate is exactly "a squared chord length, hence its square root, is zero". */
  lemma DegenerateIsZeroChord(b: Cubic)
    ensures Degenerate(b) <==> FirstChordSq(b) == 0.0 || SecondChordSq(b) == 0.0
  {
    ZeroDistance(b.control2, b.start);
    ZeroDistance(b.end, b.control1);
  }

  /** max(distance of p1 from p0-p2, distance of p2 from p1-p3) > flatness. */
  predicate TooCurved(b: Cubic, flatness: real) {
    Exceeds(Cross(b.start, b.control1, b.control2), FirstChordSq(b), flatness)
    || Exceeds(Cross(b.control1, b.control2, b.end), SecondChordSq(b), flatness)
  }

  /**
   * What `subdivide` learns from `max_dist` about one curve: whether it is
   * above the flatness, or the ZeroDivisionError computing it raises.
   */
  function MaxDistExceeds(b: Cubic, flatness: real): Result<bool> {
    if Degenerate(b) then Err(ZeroDivisionError) else Ok(TooCurved(b, flatness))
  }

  /** `xs[:-1]`: all but the last element, and nothing for an empty list. */
  function DropLast<T>(xs: seq<T>): (r: seq<T>)
    ensures |xs| >= 1 ==> |r| == |xs| - 1 && r + [xs[|xs| - 1]] == xs
    ensures |xs| == 0 ==> r == []
    ensures forall i :: 0 <= i < |r| ==> r[i] == xs[i]
  {
    if |xs| == 0 then [] else xs[..|xs| - 1]
  }

  /**
   * The number of chords `subdivide` cuts the curve into with `levels`
   * halvings left, when none of its tests raises: one for a curve within
   * the flatness or at the depth limit, and otherwise those of the two
   * halves. Each halving at most doubles them, so there are at most
   * 2^levels.
   */
  function Leaves(bez: Cubic, levels: nat, flatness: real): (n: nat)
    decreases levels
    ensures 1 <= n <= Pow2(levels)
  {
    if MaxDistExceeds(bez, flatness) == Ok(true) && levels > 0 then
      Leaves(Bisect(bez).0, levels - 1, flatness) + Leaves(Bisect(bez).1, levels - 1, flatness)
    else
      1
  }

  /**
   * The points `subdivide` returns when none of its tests
   * raises: [p0, p3] for a curve within the flatness or at the depth limit,
   * and otherwise the points of the halves `bez.split(0.5)` with the shared
   * midpoint once. They run from the curve's start to its end, one more
   * than there are chords.
   */
  function SubdividePoints(bez: Cubic, levels: nat, flatness: real): (points: seq<Point>)
    decreases levels
    ensures |points| == Leaves(bez, levels, flatness) + 1
    ensures points[0] == bez.start && points[|points| - 1] == bez.end
  {
    if MaxDistExceeds(bez, flatness) == Ok(true) && levels > 0 then
      var halves := Bisect(bez);
      DropLast(SubdividePoints(halves.0, levels - 1, flatness)) + SubdividePoints(halves.1, levels - 1, flatness)
    else
      [bez.start, bez.end]
  }

  /** No test on subdivide's way down raises. */
  predicate Succeeds(bez: Cubic, levels: nat, flatness: real)
    decreases levels
  {
    MaxDistExceeds(bez, flatness).Ok? &&
    (MaxDistExceeds(bez, flatness).value && levels > 0 ==>
      Succeeds(Bisect(bez).0, levels - 1, flatness) && Succeeds(Bisect(bez).1, levels - 1, flatness))
  }

  /**
   * `subdivide(bez, depth)` (viiva/paths/__init__.py:123-135) with
   * `levels` = 10 - depth halvings left: the first error a test raises,
   * left half first, or else the points.
   */
  function Subdivide(bez: Cubic, levels: nat, flatness: real): (r: Result<seq<Point>>)
    decreases levels
    ensures r.Ok? <==> Succeeds(bez, levels, flatness)
    ensures r.Ok? ==> r.value == SubdividePoints(bez, levels, flatness)
    ensures r.Err? ==> r.error == ZeroDivisionError
    ensures Degenerate(bez) ==> r == Err(ZeroDivisionError)
  {
    var curved := MaxDistExceeds(bez, flatness);
    if curved.Err? then Err(curved.error)
    else if curved.value && levels > 0 then
      var halves := Bisect(bez);
      var left := Subdivide(halves.0, levels - 1, flatness);
      var right := Subdivide(halves.1, levels - 1, flatness);
      if left.Err? then left
      else if right.Err? then right
      else Ok(DropLast(left.value) + right.value)
    else
      Ok([bez.start, bez.end])
  }

  /** From the top call, `subdivide` returns between 2 and 2^10 + 1 points. */
  lemma SubdivideCount(bez: Cubic, flatness: real)
    ensures 2 <= |SubdividePoints(bez, MaxRecursion, flatness)| <= 1025
  {
    var n := Leaves(bez, MaxRecursion, flatness);
    assert n <= Pow2(MaxRecursion);
    MaxLeaves();
  }

  lemma MaxLeaves()
    ensures Pow2(MaxRecursion) == 1024
  {
    assert Pow2(5) == 32;
  }

  /** A curve within the flatness, or reached at the depth limit, becomes its chord p0-p3. */
  lemma SubdivideLeaf(bez: Cubic, levels: nat, flatness: real)
    requires MaxDistExceeds(bez, flatness) == Ok(false) || (MaxDistExceeds(bez, flatness).Ok? && levels == 0)
    ensures Subdivide(bez, levels, flatness) == Ok([bez.start, bez.end])
  {
  }

  /** A curve above the flatness, before the depth limit, is the join of its halves, midpoint once. */
  lemma SubdivideSplits(bez: Cubic, levels: nat, flatness: real)
    requires levels > 0 && MaxDistExceeds(bez, flatness) == Ok(true)
    requires Subdivide(bez, levels, flatness).Ok?
    ensures Subdivide(Bisect(bez).0, levels - 1, flatness).Ok?
    ensures Subdivide(Bisect(bez).1, levels - 1, flatness).Ok?
    ensures var left, right := Subdivide(Bisect(bez).0, levels - 1, flatness).value, Subdivide(Bisect(bez).1, levels - 1, flatness).value;
      Subdivide(bez, levels, flatness).value == DropLast(left) + right
  {
  }

  /** The test raises ZeroDivisionError exactly on a zero chord; otherwise it is TooCurved. */
  lemma MaxDistOutcome(flatness: real, b: Cubic)
    ensures MaxDistExceeds(b, flatness).Err? <==> FirstChordSq(b) == 0.0 || SecondChordSq(b) == 0.0
    ensures MaxDistExceeds(b, flatness).Ok? ==> MaxDistExceeds(b, flatness).value == TooCurved(b, flatness)
  {
    DegenerateIsZeroChord(b);
  }

  /** The sqrt-free test is the source's test: |cross| / root > flatness, for root = |chord| > 0. */
  lemma ExceedsIsDistanceTest(cross: real, root: real, flatness: real)
    requires root > 0.0
    ensures Exceeds(cross, Sq(root), flatness) <==> Abs(cross) / root > flatness
  {
    var d := Abs(cross) / root;
    assert Abs(cross) == Mul(d, root);
    assert Sq(cross) == Sq(Abs(cross));
    assert Sq(Mul(d, root)) == Mul(Sq(d), Sq(root));
    SquareSign(root);
    assert d >= 0.0;
    if flatness >= 0.0 {
      if d > flatness {
        SquareStrict(flatness, d);
        MulStrict(Sq(flatness), Sq(d), Sq(root));
      } else {
        SquareMonotone(d, flatness);
        MulMonotone(Sq(d), Sq(flatness), Sq(root));
      }
    }
  }

  lemma SquareStrict(a: real, b: real)
    requires 0.0 <= a < b
    ensures Sq(a) < Sq(b)
  {
    MulMonotone(a, b, a);
    MulPositive(b - a, b);
    assert Mul(b - a, b) == Sq(b) - Mul(a, b);
    assert Mul(a, a) == Sq(a) && Mul(b, a) == Mul(a, b);
  }

  lemma MulStrict(a: real, b: real, c: real)
    requires a < b && c > 0.0
    ensures Mul(a, c) < Mul(b, c)
  {
    MulPositive(b - a, c);
    assert Mul(b - a, c) == Mul(b, c) - Mul(a, c);
  }

  /** A stricter flatness never passes a test that a looser one fails. */
  lemma ExceedsMonotone(cross: real, chordSq: real, f: real, g: real)
    requires f <= g && chordSq >= 0.0
    requires Exceeds(cross, chordSq, g)
    ensures Exceeds(cross, chordSq, f)
  {
    if f >= 0.0 {
      SquareMonotone(f, g);
      MulMonotone(Sq(f), Sq(g), chordSq);
    }
  }

  lemma TooCurvedMonotone(b: Cubic, f: real, g: real)
    requires f <= g && TooCurved(b, g)
    ensures TooCurved(b, f)
  {
    SqNormSign(Sub(b.control2, b.start));
    SqNormSign(Sub(b.end, b.control1));
    if Exceeds(Cross(b.start, b.control1, b.control2), FirstChordSq(b), g) {
      ExceedsMonotone(Cross(b.start, b.control1, b.control2), FirstChordSq(b), f, g);
    } else {
      ExceedsMonotone(Cross(b.control1, b.control2, b.end), SecondChordSq(b), f, g);
    }
  }

  /** A lower flatness raises where a higher one does, and splits wherever the higher one does. */
  lemma MaxDistMonotone(b: Cubic, f: real, g: real)
    requires f <= g
    ensures MaxDistExceeds(b, f).Err? <==> MaxDistExceeds(b, g).Err?
    ensures MaxDistExceeds(b, g) == Ok(true) ==> MaxDistExceeds(b, f) == Ok(true)
  {
    if MaxDistExceeds(b, g) == Ok(true) {
      TooCurvedMonotone(b, f, g);
    }
  }

  /**
   * A looser test never adds a point: a curve that subdivides under the
   * stricter test subdivides under the looser one too, into no more points.
   */
  lemma {:induction false} SucceedsMonotone(bez: Cubic, levels: nat, f: real, g: real)
    requires f <= g && Succeeds(bez, levels, f)
    ensures Succeeds(bez, levels, g)
    decreases levels
  {
    MaxDistMonotone(bez, f, g);
    if MaxDistExceeds(bez, g) == Ok(true) && levels > 0 {
      SucceedsMonotone(Bisect(bez).0, levels - 1, f, g);
      SucceedsMonotone(Bisect(bez).1, levels - 1, f, g);
      SucceedsStep(bez, levels, g);
    }
  }

  lemma SucceedsStep(bez: Cubic, levels: nat, flatness: real)
    requires levels > 0 && MaxDistExceeds(bez, flatness) == Ok(true)
    requires Succeeds(Bisect(bez).0, levels - 1, flatness) && Succeeds(Bisect(bez).1, levels - 1, flatness)
    ensures Succeeds(bez, levels, flatness)
  {
  }

  lemma {:induction false} LeavesMonotone(bez: Cubic, levels: nat, f: real, g: real)
    requires f <= g
    ensures Leaves(bez, levels, g) <= Leaves(bez, levels, f)
    decreases levels
  {
    MaxDistMonotone(bez, f, g);
    if MaxDistExceeds(bez, g) == Ok(true) && levels > 0 {
      LeavesMonotone(Bisect(bez).0, levels - 1, f, g);
      LeavesMonotone(Bisect(bez).1, levels - 1, f, g);
      LeavesMonotoneStep(bez, levels, f, g);
    }
  }

  lemma LeavesMonotoneStep(bez: Cubic, levels: nat, f: real, g: real)
    requires levels > 0 && MaxDistExceeds(bez, f) == Ok(true) && MaxDistExceeds(bez, g) == Ok(true)
    requires Leaves(Bisect(bez).0, levels - 1, g) <= Leaves(Bisect(bez).0, levels - 1, f)
    requires Leaves(Bisect(bez).1, levels - 1, g) <= Leaves(Bisect(bez).1, levels - 1, f)
    ensures Leaves(bez, levels, g) <= Leaves(bez, levels, f)
  {
  }

  /**
   * Raising the flatness never adds a point, and a curve that flattens at
   * one flatness flattens at every higher one.
   */
  lemma FlatnessMonotone(bez: Cubic, f: real, g: real)
    requires f <= g && Subdivide(bez, MaxRecursion, f).Ok?
    ensures Subdivide(bez, MaxRecursion, g).Ok?
    ensures |Subdivide(bez, MaxRecursion, g).value| <= |Subdivide(bez, MaxRecursion, f).value|
  {
    SucceedsMonotone(bez, MaxRecursion, f, g);
    LeavesMonotone(bez, MaxRecursion, f, g);
  }

  /**
   * The parameters, along the curve, of the points `subdivide` returns:
   * they run strictly upwards from 0 to 1.
   */
  function Parameters(bez: Cubic, levels: nat, flatness: real): (us: seq<real>)
    decreases levels
    ensures UnitParameters(us)
    ensures OnCurve(SubdividePoints(bez, levels, flatness), bez, us)
  {
    if MaxDistExceeds(bez, flatness) == Ok(true) && levels > 0 then
      var halves := Bisect(bez);
      var left := Parameters(halves.0, levels - 1, flatness);
      var right := Parameters(halves.1, levels - 1, flatness);
      JoinIncreases(left, right);
      JoinOnCurve(bez, SubdividePoints(halves.0, levels - 1, flatness), SubdividePoints(halves.1, levels - 1, flatness), left, right);
      Join(left, right)
    else
      CubicAtEnds(bez);
      [0.0, 1.0]
  }

  /** Each parameter u of a half mapped back onto the whole curve: offset + u/2. */
  function Halve(us: seq<real>, offset: real): (r: seq<real>)
    ensures |r| == |us|
    ensures forall i :: 0 <= i < |us| ==> r[i] == offset + us[i] / 2.0
  {
    seq(|us|, i requires 0 <= i < |us| => offset + us[i] / 2.0)
  }

  predicate StrictlyIncreasing(us: seq<real>) {
    forall i, j :: 0 <= i < j < |us| ==> us[i] < us[j]
  }

  /** The parameters of the two halves, as parameters of the whole, with the shared midpoint once. */
  function Join(ul: seq<real>, ur: seq<real>): seq<real>
    requires |ul| >= 1
  {
    Halve(ul[..|ul| - 1], 0.0) + Halve(ur, 0.5)
  }

  predicate UnitParameters(us: seq<real>) {
    |us| >= 2 && us[0] == 0.0 && us[|us| - 1] == 1.0 && StrictlyIncreasing(us)
  }

  lemma JoinIncreases(ul: seq<real>, ur: seq<real>)
    requires UnitParameters(ul) && UnitParameters(ur)
    ensures |Join(ul, ur)| == |ul| - 1 + |ur| && UnitParameters(Join(ul, ur))
  {
    var us := Join(ul, ur);
    var n := |ul| - 1;
    forall i, j | 0 <= i < j < |us|
      ensures us[i] < us[j]
    {
      if j < n {
        assert ul[i] < ul[j];
      } else if i >= n {
        assert ur[i - n] < ur[j - n];
      } else {
        assert ul[i] < ul[n];
        assert ur[0] <= ur[j - n] by {
          if j - n > 0 {
            assert ur[0] < ur[j - n];
          }
        }
      }
    }
  }

  /** Point i lies on the curve at parameter us[i]. */
  ghost predicate OnCurve(points: seq<Point>, bez: Cubic, us: seq<real>) {
    |points| == |us| && forall i :: 0 <= i < |us| ==> points[i] == CubicAt(bez, us[i])
  }

  /** Joined points lie on the whole curve at the joined parameters. */
  lemma JoinOnCurve(bez: Cubic, left: seq<Point>, right: seq<Point>, ul: seq<real>, ur: seq<real>)
    requires |left| >= 1
    requires OnCurve(left, Bisect(bez).0, ul) && OnCurve(right, Bisect(bez).1, ur)
    ensures OnCurve(DropLast(left) + right, bez, Join(ul, ur))
  {
    var points, us := DropLast(left) + right, Join(ul, ur);
    forall i | 0 <= i < |us|
      ensures points[i] == CubicAt(bez, us[i])
    {
      if i < |left| - 1 {
        assert points[i] == left[i];
        BisectTracesCurve(bez, ul[i]);
      } else {
        var k := i - (|left| - 1);
        assert points[i] == right[k];
        BisectTracesCurve(bez, ur[k]);
      }
    }
  }

  /**
   * Every point `subdivide` returns lies on the curve, at parameters that
   * run strictly upwards from 0 to 1: the polyline follows the curve in
   * order.
   */
  lemma SubdivideFollowsCurve(bez: Cubic, levels: nat, flatness: real)
    requires Subdivide(bez, levels, flatness).Ok?
    ensures var points, us := Subdivide(bez, levels, flatness).value, Parameters(bez, levels, flatness);
      |us| == |points| && UnitParameters(us) && forall i :: 0 <= i < |us| ==> points[i] == CubicAt(bez, us[i])
  {
  }

  /** Consecutive points joined by Lines, the loop of viiva/paths/__init__.py:138-140. */
  function Chain(points: seq<Point>): (lines: seq<Segment>)
    ensures |points| >= 1 ==> |lines| == |points| - 1
    ensures |points| == 0 ==> lines == []
  {
    if |points| < 2 then [] else seq(|points| - 1, i requires 0 <= i < |points| - 1 => Line(points[i], points[i + 1]))
  }

  predicate AllLines(path: seq<Segment>) {
    forall i :: 0 <= i < |path| ==> path[i].Line?
  }

  /** The end of each segment is the start of the next. */
  ghost predicate Connected(path: seq<Segment>) {
    forall i, j :: 0 <= i < j < |path| && j == i + 1 ==> path[i].end == path[j].start
  }

  /** The corners of a polyline: every start, then the last end. */
  function Vertices(path: seq<Segment>): (points: seq<Point>)
    ensures |path| >= 1 ==> |points| == |path| + 1
  {
    if |path| == 0 then [] else seq(|path|, i requires 0 <= i < |path| => path[i].start) + [path[|path| - 1].end]
  }

  /** Chain is a connected polyline through the points, and its corners are the points again. */
  lemma ChainIsPolyline(points: seq<Point>)
    requires |points| >= 2
    ensures AllLines(Chain(points)) && Connected(Chain(points))
    ensures Chain(points)[0].start == points[0] && Chain(points)[|points| - 2].end == points[|points| - 1]
    ensures Vertices(Chain(points)) == points
  {
    var lines := Chain(points);
    var v := Vertices(lines);
    assert |v| == |points|;
    forall i | 0 <= i < |points|
      ensures v[i] == points[i]
    {
      if i < |points| - 1 {
        assert v[i] == lines[i].start;
      } else {
        assert v[i] == lines[|lines| - 1].end;
      }
    }
  }

  /** The other direction: a connected polyline is rebuilt from its corners. */
  lemma ChainOfVertices(path: seq<Segment>)
    requires |path| >= 1 && AllLines(path) && Connected(path)
    ensures Chain(Vertices(path)) == path
  {
    var v := Vertices(path);
    var c := Chain(v);
    assert |c| == |path|;
    forall i | 0 <= i < |path|
      ensures c[i] == path[i]
    {
      assert c[i] == Line(v[i], v[i + 1]);
      if i < |path| - 1 {
        assert v[i + 1] == path[i + 1].start;
      }
    }
  }

  /**
   * `bez.as_polyline(flatness)` as a value, where `Path` is bound (in the
   * draft viiva/paths.py, which defines it at line 158): the chain through
   * subdivide's points.
   */
  function FlattenCubic(bez: Cubic, flatness: real): (r: Result<seq<Segment>>)
    ensures r.Ok? ==> 1 <= |r.value| <= Pow2(MaxRecursion)
    ensures r.Ok? ==> AllLines(r.value) && Connected(r.value)
    ensures r.Ok? ==> r.value[0].start == bez.start && r.value[|r.value| - 1].end == bez.end
    ensures r.Ok? ==> Vertices(r.value) == SubdividePoints(bez, MaxRecursion, flatness)
    ensures r.Err? <==> !Succeeds(bez, MaxRecursion, flatness)
    ensures r.Err? ==> r.error == ZeroDivisionError
    ensures Degenerate(bez) ==> r == Err(ZeroDivisionError)
  {
    var points :- Subdivide(bez, MaxRecursion, flatness);
    ChainIsPolyline(points);
    Ok(Chain(points))
  }

  /** The flattening of one cubic into Lines, as a value a path-level loop can be given. */
  type Flattener = Cubic -> Result<seq<Segment>>

  /** `bez.as_polyline(flatness)` for every cubic `bez`. */
  function CubicFlattening(flatness: real): Flattener {
    (c: Cubic) => FlattenCubic(c, flatness)
  }

  /** What every flattening of a cubic gives: a non-empty connected chain of Lines from its start to its end, or ZeroDivisionError. */
  ghost predicate FlattensToChains(flatten: Flattener) {
    forall c: Cubic ::
      (flatten(c).Ok? ==>
        (|flatten(c).value| >= 1 && AllLines(flatten(c).value) && Connected(flatten(c).value) &&
         flatten(c).value[0].start == c.start && flatten(c).value[|flatten(c).value| - 1].end == c.end)) &&
      (flatten(c).Err? ==> flatten(c).error == ZeroDivisionError)
  }

  lemma CubicFlatteningChains(flatness: real)
    ensures FlattensToChains(CubicFlattening(flatness))
  {
  }

  /** The name that viiva/paths/__init__.py uses at line 138 but never binds. */
  const UnboundName: string := "Path"

  /**
   * `bez.as_polyline(flatness)` as the package module runs it. The module
   * imports no `Path`, so once `subdivide` has returned, the call `Path()`
   * at viiva/paths/__init__.py:138 raises NameError: the call never returns.
   * Where the intended flattening raises, this one raises the same error.
   */
  function PackageFlattenCubic(bez: Cubic, flatness: real): (r: Result<seq<Segment>>)
    ensures r.Err?
    ensures r.error == NameError(UnboundName) <==> FlattenCubic(bez, flatness).Ok?
    ensures FlattenCubic(bez, flatness).Err? ==> r == FlattenCubic(bez, flatness)
  {
    var points :- Subdivide(bez, MaxRecursion, flatness);
    Err(NameError(UnboundName))
  }

  /** The package's `bez.as_polyline(flatness)` for every cubic `bez`. */
  function PackageFlattening(flatness: real): Flattener {
    (c: Cubic) => PackageFlattenCubic(c, flatness)
  }

  /** A flattening that raises on every cubic. */
  ghost predicate NeverReturns(flatten: Flattener) {
    forall c: Cubic :: flatten(c).Err?
  }

  lemma PackageFlatteningNeverReturns(flatness: real)
    ensures NeverReturns(PackageFlattening(flatness))
  {
    forall c: Cubic
      ensures PackageFlattening(flatness)(c).Err?
    {
      assert PackageFlattening(flatness)(c) == PackageFlattenCubic(c, flatness);
    }
  }

  /** The straight cubic (0,0), (1,0), (2,0), (3,0). */
  const StraightCubic: Cubic := CubicBezier(Origin, Point(1.0, 0.0), Point(2.0, 0.0), Point(3.0, 0.0))

  /**
   * A cubic within the flatness: the intended flattening returns its one
   * chord, where the package raises NameError.
   */
  lemma FlatCubicRaisesNameError(bez: Cubic, flatness: real)
    requires MaxDistExceeds(bez, flatness) == Ok(false)
    ensures FlattenCubic(bez, flatness) == Ok([Line(bez.start, bez.end)])
    ensures PackageFlattenCubic(bez, flatness) == Err(NameError(UnboundName))
  {
    SubdivideLeaf(bez, MaxRecursion, flatness);
    assert Chain([bez.start, bez.end]) == [Line(bez.start, bez.end)];
  }

  /** For instance the straight cubic (0,0), (k,0), (2k,0), (3k,0), for any k > 0 and flatness >= 0. */
  lemma StraightCubicRaisesNameError(k: real, flatness: real)
    requires k > 0.0 && flatness >= 0.0
    ensures var bez := CubicBezier(Origin, Point(k, 0.0), Point(2.0 * k, 0.0), Point(3.0 * k, 0.0));
      FlattenCubic(bez, flatness) == Ok([Line(Origin, Point(3.0 * k, 0.0))]) &&
      PackageFlattenCubic(bez, flatness) == Err(NameError(UnboundName))
  {
    var bez: Cubic := CubicBezier(Origin, Point(k, 0.0), Point(2.0 * k, 0.0), Point(3.0 * k, 0.0));
    assert Mul(2.0 * k, 0.0) == 0.0 && Mul(0.0, -k) == 0.0 && Mul(2.0 * k, 0.0) == 0.0;
    CollinearIsFlat(bez, flatness);
    FlatCubicRaisesNameError(bez, flatness);
  }

  /** Consecutive points joined by Lines, one append per pair. */
  method ChainLoop(points: seq<Point>) returns (polyline: seq<Segment>)
    requires |points| >= 1
    ensures polyline == Chain(points)
  {
    polyline := [];
    for i := 0 to |points| - 1
      invariant |polyline| == i
      invariant forall k :: 0 <= k < i ==> polyline[k] == Line(points[k], points[k + 1])
    {
      polyline := polyline + [Line(points[i], points[i + 1])];
    }
  }

  /**
   * `CubicBezier.as_polyline(flatness)`: computes subdivide's points, then
   * appends a Line for each consecutive pair.
   */
  method CubicAsPolyline(bez: Cubic, flatness: real) returns (r: Result<seq<Segment>>)
    ensures r == FlattenCubic(bez, flatness)
  {
    var subdivided := Subdivide(bez, MaxRecursion, flatness);
    if subdivided.Err? {
      return Err(subdivided.error);
    }
    var polyline := ChainLoop(subdivided.value);
    return Ok(polyline);
  }

  /** A cubic whose four points are collinear is never too curved, for any flatness >= 0. */
  lemma CollinearIsFlat(bez: Cubic, flatness: real)
    requires flatness >= 0.0
    requires Cross(bez.start, bez.control1, bez.control2) == 0.0
    requires Cross(bez.control1, bez.control2, bez.end) == 0.0
    ensures !TooCurved(bez, flatness)
  {
    SquareSign(flatness);
    SqNormSign(Sub(bez.control2, bez.start));
    SqNormSign(Sub(bez.end, bez.control1));
    MulNonNegative(Sq(flatness), FirstChordSq(bez));
    MulNonNegative(Sq(flatness), SecondChordSq(bez));
    assert Sq(0.0) == 0.0;
  }
}
