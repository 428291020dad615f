# viiva segment conversion and flattening, in Dafny

viiva builds SVG path tools on top of svgpathtools. This project models
viiva's own layer: the segment conversions, the adaptive flattening of a
cubic Bézier into a polyline, the path-level pipeline, and the helpers in
viiva/beziers.py. It proves properties of that model. Points are Python
complex numbers in the source and `Geometry.Point(x, y)` over `real` here.
Python exceptions are the `Results.Result` type: `Err(ValueError(message))`,
`Err(ZeroDivisionError)`, `Err(TypeError)`, `Err(IndexError)` and
`Err(NameError(name))`.

| file | module | what it holds |
|---|---|---|
| results.dfy | Results | errors and `Result` |
| geometry.dfy | Geometry | points, linear combinations, Bernstein polynomials, small facts about products and squares |
| points.dfy | Points | `to_complex` and `preprocess` over a model of Python values |
| segments.dfy | Segments | Line, QuadraticBezier, CubicBezier and Arc; `Line.to_cubic`, `QuadraticBezier.to_cubic`; De Casteljau's `split` |
| flatten.dfy | Flattening | `CubicBezier.as_polyline` and its inner `subdivide` |
| path.dfy | Paths | `Path.to_cubics`, `Path.as_polyline`, `Path.to_shapely`, `Path.d` |
| name_case.dfy | NameCase | `camel_to_snake`, `snake_to_camel` |
| beziers.dfy | Beziers | `_i2p`/`_p2i`, the segment filter of `BezierPath.from_path`, the trailing-z strip of `BezierPath.d` |

How the model is organised:

- **The flatness test.** `subdivide` compares `|cross| / sqrt(len²)` with
  the flatness. The model compares `cross²` with `flatness² · len²` instead
  (`Flattening.Exceeds`). `Flattening.ExceedsIsDistanceTest` proves the two
  agree for every positive chord length. A zero chord is the
  ZeroDivisionError that the Python division raises.
- **The recursion depth.** `subdivide`'s recursion is written over `levels`,
  the halvings still allowed, which is `max_recursion - depth`. So
  `depth < max_recursion` becomes `levels > 0`, and the top call at depth 0
  is the call at `MaxRecursion` = 10. The source never passes
  `max_recursion`, so it is the constant 10.
- **Value and loop.** Each looping operation has two members:
  - a method that runs the source's loop (`Flattening.CubicAsPolyline` with
    `ChainLoop`, `Paths.ToCubics`, `Paths.FlattenLoop`, `Paths.AsPolyline`,
    `Beziers.FromPath`);
  - the function it is proved equal to, which the lemmas are about.
- **The shadowed draft and the unbound `Path`.** viiva/paths.py is an
  older copy that the package directory viiva/paths/ shadows. Its lines
  12-156 have the same text as viiva/paths/__init__.py, and its `Path`
  methods have the same text as those of viiva/paths/path.py. The shadowed
  copies sit in viiva/paths.py at:
  - `to_cubics`: 183-192 (viiva/paths/path.py:73-94);
  - `as_polyline`: 194-225 (96-127);
  - `to_shapely`: 230-252 (132-154);
  - `d`: 254-258 (156-160).

  The two behave differently in one place. `CubicBezier.as_polyline` ends
  by calling `Path()`. The draft defines `Path` in the same module (line
  158), so the call works there. viiva/paths/__init__.py never binds
  `Path`: viiva/paths/path.py defines it and imports the package module,
  not the other way round. So in the package, every call that gets past
  `subdivide` raises NameError.
- **Which behaviour each member describes.**
  - `Flattening.FlattenCubic`, `Flattening.CubicAsPolyline`,
    `Flattening.CubicFlattening`, and the `Paths` members built on
    `Paths.Polyline` (`AsPolyline`, `PolylineIsLines`, `PolylineIdempotent`,
    `LineSurvivesFlattening`, `PolylineKeepsLine`, `PolylineConnected`,
    `ToShapely`, `ToShapelyOutcome`) describe `as_polyline` with `Path`
    bound. That is the draft as written, and the package once the missing
    import is added. The table cites the draft's lines for them.
  - `Flattening.PackageFlattenCubic`, `Paths.PackagePolyline` and
    `Paths.PackageToShapely` are the package as written. Their lemmas say
    what it does: the cubic flattening never returns, `as_polyline`
    returns only for a path of Lines or of QuadraticBeziers, and
    `to_shapely` succeeds only on a path of Lines.
  - Members that take the cubic flattening as a parameter
    (`Paths.FlattenLoop`, `Paths.KeepsLine`, `Paths.FlattenAllAppend`)
    hold for both.
- **A zero chord.** A cubic with p0 = p2 or p1 = p3 makes flattening raise
  ZeroDivisionError, as the code does, with no short-circuit. In particular,
  `Path.as_polyline` on a path that is not all Lines raises on any zero-length
  Line in it (`Paths.ZeroLengthLineRaises`).
- **QuadraticBezier in `Path.as_polyline`.** The loop has no branch for a
  QuadraticBezier, so one contributes no Lines (`Paths.FlattenSegmentIsLines`).
  The model keeps this behaviour. The source's own to-do list
  (viiva/paths.py:264) names the missing case as work still to do.

## Model

| member | source | states |
|---|---|---|
| Points.MakeComplex | viiva/paths/__init__.py:16-22 | `complex(re, im)` succeeds exactly on numeric arguments, giving re + im·i for two reals, and raises TypeError otherwise |
| Points.ToComplex | viiva/paths/__init__.py:12-23 | a value that is not a pair, an object with x and y, or a dict with 'x' and 'y' is returned unchanged; a recognised one becomes a complex number or raises TypeError |
| Points.ToComplexOfCoordinates | viiva/paths/__init__.py:16-22 | the tuple (x, y), the list [x, y] and the dict {'x': x, 'y': y} all become the point (x, y) |
| Points.ToComplexIdempotent | viiva/paths/__init__.py:12-23 | converting a converted value again changes nothing |
| Points.ConvertArgumentIsToComplex | viiva/paths/__init__.py:36-38 | preprocess's guard never changes the outcome: the element is converted exactly as `to_complex` converts it |
| Points.ConvertItems | viiva/paths/__init__.py:36 | succeeds exactly when every element converts; same length; element i is `to_complex` of element i; otherwise TypeError |
| Points.ConvertEntries | viiva/paths/__init__.py:38 | succeeds exactly when every value converts; same keys; each value converted; otherwise TypeError |
| Points.Preprocess | viiva/paths/__init__.py:25-39 | same container kind, same length or keys, non-point-like entries untouched; anything that is not a list, tuple or dict is returned as is |
| Points.PreprocessFails | viiva/paths/__init__.py:35-36 | a list or tuple fails exactly when `to_complex` raises on one of its elements |
| Points.PreprocessPointwise | viiva/paths/__init__.py:35-36 | element i of the result is `to_complex` of element i |
| Segments.LineToCubic | viiva/paths/__init__.py:79-108 | ValueError with the source's message exactly when t < 0 or t > 1; otherwise a cubic with the line's ends, control1 at t and control2 at 1 - t along the line, and control1 - start = end - control2 |
| Segments.LineToCubicExample | viiva/paths/__init__.py:103-107 | (0,0)-(10,0) at t = 1/3 has controls (10/3, 0) and (20/3, 0) |
| Segments.LineToCubicStaysOnLine | viiva/paths/__init__.py:103-107 | the cubic's point at u is the line's point at a parameter `Reach(t, u)`: the cubic never leaves the line |
| Segments.DefaultLineToCubicIsExact | viiva/paths/__init__.py:79-107 | with the default t = 1/3 the cubic traces the line parameter for parameter |
| Segments.QuadraticToCubic | viiva/paths/__init__.py:143-156 | a cubic with the quadratic's start and end |
| Segments.QuadraticToCubicIsExact | viiva/paths/__init__.py:150-156 | the elevated cubic's point at every t is the quadratic's point at t |
| Segments.Split | viiva/paths/__init__.py:132 | De Casteljau's halves start at the curve's start, end at its end, and meet |
| Segments.SplitPoint | viiva/paths/__init__.py:132 | the halves meet at the curve's point at t |
| Segments.Bisect | viiva/paths/__init__.py:132 | `split(0.5)` by midpoints; its halves keep the ends and meet |
| Segments.BisectIsSplitAtHalf | viiva/paths/__init__.py:132 | the midpoint construction is `split` at t = 0.5 |
| Segments.BisectTracesCurve | viiva/paths/__init__.py:132 | the left half at u is the curve at u/2; the right half at u is the curve at 1/2 + u/2 |
| Flattening.DegenerateIsZeroChord | viiva/paths/__init__.py:126-129 | the model's zero-chord test is exactly "one of the two squared divisors is 0" |
| Flattening.MaxDistExceeds | viiva/paths/__init__.py:126-131 | no ensures of its own; MaxDistOutcome, MaxDistMonotone and ExceedsIsDistanceTest state its contract |
| Flattening.Succeeds | viiva/paths/__init__.py:123-135 | no ensures of its own; Subdivide states that it holds exactly when subdivide returns |
| Flattening.MaxDistOutcome | viiva/paths/__init__.py:126-129 | the deviation test raises ZeroDivisionError exactly when \|p2 - p0\| or \|p3 - p1\| is zero, and otherwise decides by the two distances |
| Flattening.ExceedsIsDistanceTest | viiva/paths/__init__.py:126-131 | the sqrt-free comparison holds exactly when \|cross\| / root > flatness, for a positive root of the squared chord |
| Flattening.CollinearIsFlat | viiva/paths/__init__.py:126-131 | a cubic with both crosses zero is never above a flatness ≥ 0 |
| Flattening.MaxDistMonotone | viiva/paths/__init__.py:126-131 | a lower flatness raises where a higher one does, and splits wherever the higher one splits |
| Flattening.DropLast | viiva/paths/__init__.py:133 | `xs[:-1]`: one element shorter, every element kept in place, and the last element appended gives `xs` back; empty for an empty list |
| Flattening.Leaves | viiva/paths/__init__.py:131-135 | the chords number between 1 and 2^levels |
| Flattening.SubdividePoints | viiva/paths/__init__.py:123-135 | the points number one more than the chords, and run from the curve's start to its end |
| Flattening.SubdivideCount | viiva/paths/__init__.py:123-135 | from the top call, between 2 and 2^10 + 1 points |
| Flattening.Subdivide | viiva/paths/__init__.py:123-135 | succeeds exactly when no test on the way down raises, with SubdividePoints as its value; its only error is ZeroDivisionError, which a zero chord in the curve itself always raises |
| Flattening.SubdivideLeaf | viiva/paths/__init__.py:131-135 | a curve within the flatness, or at the depth limit, returns exactly [p0, p3] |
| Flattening.SubdivideSplits | viiva/paths/__init__.py:131-133 | a curve above the flatness before the limit returns the left half's points without their last, then the right half's points |
| Flattening.SucceedsMonotone | viiva/paths/__init__.py:123-135 | a curve that subdivides without error at one flatness does so at every higher flatness |
| Flattening.LeavesMonotone | viiva/paths/__init__.py:123-135 | a higher flatness never gives more chords |
| Flattening.FlatnessMonotone | viiva/paths/__init__.py:123-135 | raising the flatness keeps success and never adds a point |
| Flattening.Parameters | viiva/paths/__init__.py:131-135 | there are curve parameters, strictly increasing from 0 to 1, at which the returned points lie on the curve |
| Flattening.JoinOnCurve | viiva/paths/__init__.py:133 | joining the halves' points, with the midpoint once, keeps every point on the whole curve at the rescaled parameters |
| Flattening.SubdivideFollowsCurve | viiva/paths/__init__.py:123-135 | every returned point lies on the curve, in order of increasing parameter from 0 to 1 |
| Flattening.Chain | viiva/paths/__init__.py:137-140 | one Line fewer than there are points |
| Flattening.ChainIsPolyline | viiva/paths/__init__.py:137-140 | the Lines are connected, start at the first point, end at the last, and their corners are the points again |
| Flattening.ChainOfVertices | viiva/paths/__init__.py:137-140 | the inverse: a connected polyline is the chain through its corners |
| Flattening.ChainLoop | viiva/paths/__init__.py:137-140 | the append loop builds exactly Chain(points) |
| Flattening.FlattenCubic | viiva/paths.py:110-141 | with `Path` bound: 1 to 2^10 Lines, connected, from the cubic's start to its end, with subdivide's points as their corners; ZeroDivisionError exactly when a test on the way down raises, and always for a zero chord in the cubic itself |
| Flattening.CubicAsPolyline | viiva/paths.py:110-141 | with `Path` bound, the method computes subdivide's points and chains them, which is exactly FlattenCubic |
| Flattening.CubicFlatteningChains | viiva/paths.py:110-141 | with `Path` bound, every cubic's flattening is a non-empty connected chain from its start to its end, or ZeroDivisionError |
| Flattening.PackageFlattenCubic | viiva/paths/__init__.py:137-138 | in the package the call never returns: it raises NameError for `Path` exactly where the intended flattening returns, and the intended flattening's ZeroDivisionError where that raises |
| Flattening.PackageFlatteningNeverReturns | viiva/paths/__init__.py:138 | the package's flattening raises on every cubic |
| Flattening.FlatCubicRaisesNameError | viiva/paths/__init__.py:131-138 | a cubic within the flatness: the intended flattening is its one chord; the package raises NameError |
| Flattening.StraightCubicRaisesNameError | viiva/paths/__init__.py:131-138 | the straight cubic (0,0), (k,0), (2k,0), (3k,0) shows it for every k > 0 and flatness ≥ 0 |
| Paths.ExpandArcs | viiva/paths/path.py:87 | after arc approximation no Arc remains |
| Paths.ExpandArcsWithoutArcs | viiva/paths/path.py:87 | a path without arcs is left unchanged |
| Paths.ConvertSegment | viiva/paths/path.py:88-93 | a Line becomes its t = 1/3 cubic, which is no Line; every other segment is kept; each keeps its ends |
| Paths.Cubics | viiva/paths/path.py:86-94 | the result has neither Arcs nor Lines |
| Paths.CubicsInPlace | viiva/paths/path.py:86-94 | without arcs: same length, the Line at index i becomes `to_cubic()` of it, every other segment stays in its place |
| Paths.CubicsIdempotent | viiva/paths/path.py:86-94 | converting the converted path again changes nothing |
| Paths.ToCubics | viiva/paths/path.py:86-94 | the copy-and-overwrite loop returns Cubics(path); the receiver is a value and is not changed |
| Paths.FlattenSegment | viiva/paths/path.py:114-120 | no ensures of its own; FlattenSegmentIsLines states its contract |
| Paths.FlattenSegmentIsLines | viiva/paths/path.py:114-126 | each converted segment gives Lines only or ZeroDivisionError, and a QuadraticBezier gives none |
| Paths.FlattenAll | viiva/paths/path.py:112-127 | no ensures of its own; FlattenAllAppend, FlattenAllIsLines, FlattenAllConnected and FlattenLoop state its contract |
| Paths.FlattenAllAppend | viiva/paths/path.py:112-127 | flattening a concatenation gives the first error, or the two flattenings in order |
| Paths.FlattenAllIsLines | viiva/paths/path.py:112-127 | the concatenated flattening holds Lines only, and its one error is ZeroDivisionError |
| Paths.PolylineWith | viiva/paths/path.py:108-109 | an all-Line path is returned as it is |
| Paths.Polyline | viiva/paths.py:194-225 | no ensures of its own; PolylineWith, PolylineIsLines, PolylineIdempotent, PolylineKeepsLine, PolylineConnected and AsPolyline state its contract |
| Paths.PolylineIsLines | viiva/paths.py:194-225 | with `Path` bound, `as_polyline` gives Lines only, or ZeroDivisionError |
| Paths.PolylineIdempotent | viiva/paths/path.py:108-109 | `as_polyline` of its own output returns that output unchanged |
| Paths.LineCubicIsCollinear | viiva/paths/path.py:88-90 | the cubic `to_cubics` makes from a Line has both deviation crosses zero |
| Paths.LineSurvivesFlattening | viiva/paths.py:126-141 | with `Path` bound, the cubic of a non-zero-length Line flattens back to exactly that Line |
| Paths.ZeroLengthLineRaises | viiva/paths/__init__.py:126-129 | the cubic of a zero-length Line raises ZeroDivisionError |
| Paths.KeepsLine | viiva/paths/path.py:111-118 | in a path without arcs, a Line the flattening hands back comes out as itself, between the flattenings of the parts before and after it |
| Paths.PolylineKeepsLine | viiva/paths.py:209-216 | with `Path` bound: in a path without arcs that is not all Lines, a non-zero-length Line comes back as exactly one Line with its endpoints, in its place |
| Paths.FlattenLoop | viiva/paths/path.py:112-127 | the nested append loop returns FlattenAll of the converted path, stopping at the first error |
| Paths.AsPolyline | viiva/paths.py:194-225 | with `Path` bound, the method is exactly Polyline: the path itself when all Lines, else the flattening of `to_cubics()` |
| Paths.ConnectedAppend | viiva/paths/path.py:114-118 | two connected polylines that meet form one connected polyline |
| Paths.FlattenAllConnected | viiva/paths/path.py:112-127 | a connected path of Lines and cubics flattens to one connected polyline with the path's start and end |
| Paths.PolylineConnected | viiva/paths.py:194-225 | with `Path` bound, the same for `as_polyline` of a connected path of Lines and cubics |
| Paths.FlattenAllNeverReturning | viiva/paths/path.py:114-120 | with a cubic flattening that always raises, the loop over a converted path returns exactly when no cubic is left, and then with no Lines |
| Paths.PackagePolyline | viiva/paths/path.py:96-127 | no ensures of its own; PackagePolylineOutcome states its contract |
| Paths.PackagePolylineOutcome | viiva/paths/path.py:108-118 | in the package, a path of Lines comes back unchanged; any other path returns exactly when `to_cubics()` leaves no cubic (without arcs: exactly when every segment is a QuadraticBezier), and then with no Lines |
| Paths.PackageToShapely | viiva/paths/path.py:132-154 | no ensures of its own; PackageToShapelyOutcome states its contract |
| Paths.PackageToShapelyOutcome | viiva/paths/path.py:143-148 | in the package, `to_shapely` of a path of Lines is the intended one, and every other path raises |
| Paths.LineStartsOfLines | viiva/paths/path.py:146 | on a polyline, one coordinate per Line, its start, in order; the last Line's end is not included |
| Paths.ShapeOf | viiva/paths/path.py:147-154 | ValueError with the source's message on no coordinates; otherwise those coordinates, in the closed form exactly when the first equals the last |
| Paths.ToShapely | viiva/paths.py:230-252 | no ensures of its own; ToShapelyOutcome and ClosedTriangleIsOpen state its contract |
| Paths.ToShapelyOutcome | viiva/paths.py:230-252 | with `Path` bound: ZeroDivisionError where `as_polyline` raises; ValueError on an empty polyline; otherwise the start of every Line, closed exactly when the first Line starts where the last Line starts |
| Paths.ClosedTriangleIsOpen | viiva/paths/path.py:146-154 | as written, the closed triangle (0,0)-(10,0)-(10,10)-(0,0) becomes an open LineString of its three starts |
| Paths.ShapeOfPolyline | viiva/paths/path.py:150-154 | corrected: the coordinates are every corner, and the form is closed exactly when the polyline ends where it starts |
| Paths.ShapeDeterminesPolyline | viiva/paths/path.py:150-154 | corrected: a connected polyline is rebuilt from the shape's coordinates, and the shape is closed exactly when the polyline returns to its start |
| Paths.ClosedTriangleIsPolygon | viiva/paths/path.py:150-154 | corrected: the closed triangle becomes a Polygon |
| Paths.D | viiva/paths/path.py:156-160 | svgpathtools' d string, followed by " Z" exactly when `isclosed()` holds and unchanged otherwise |
| NameCase.LowerAll | viiva/beziers.py:34 | `lower()`: same length, no uppercase letter, each character lowered |
| NameCase.Underscored | viiva/beziers.py:34 | the substitution adds one character per uppercase letter after index 0 |
| NameCase.CamelToSnake | viiva/beziers.py:32-35 | no ensures of its own; CamelToSnakeShape and CamelToSnakeIdempotent state its contract |
| NameCase.CamelToSnakeShape | viiva/beziers.py:34 | no uppercase letter in the output; its length is the input's plus the uppercase letters at index ≥ 1 |
| NameCase.CamelToSnakeIdempotent | viiva/beziers.py:34 | applying it to its own output changes nothing |
| NameCase.Components | viiva/beziers.py:29 | `split('_')`: at least one piece, and no piece holds '_' |
| NameCase.SplitJoin | viiva/beziers.py:29 | the pieces joined back with '_' are the string |
| NameCase.Capitalize | viiva/beziers.py:30 | `capitalize()` keeps the length; the first character is raised and is no lowercase letter; every later character is lowered and is no uppercase letter; characters that are not letters are kept |
| NameCase.SnakeToCamel | viiva/beziers.py:28-30 | no ensures of its own; SnakeToCamelShape, SnakeToCamelOfWord and CamelRoundTrip state its contract |
| NameCase.SnakeToCamelShape | viiva/beziers.py:29-30 | no '_' in the output, which begins with the first piece unchanged |
| NameCase.SnakeToCamelOfWord | viiva/beziers.py:29-30 | a name without '_' is returned unchanged |
| NameCase.CamelRoundTrip | viiva/beziers.py:28-35 | an ASCII camelCase name without '_' and with a lowercase or non-letter first character survives `snake_to_camel(camel_to_snake(s))` |
| Beziers.I2P | viiva/beziers.py:18 | no ensures of its own; PointRoundTrip states its contract |
| Beziers.P2I | viiva/beziers.py:20 | no ensures of its own; PointRoundTrip states its contract |
| Beziers.PointRoundTrip | viiva/beziers.py:18-20 | `_p2i(_i2p(z)) == z` and `_i2p(_p2i(p)) == p` |
| Beziers.ToBezier | viiva/beziers.py:88-92 | no ensures of its own; SegmentRoundTrip and BezierSegments state its contract |
| Beziers.FromBezier | viiva/beziers.py:88-92 | the rebuilt segment is a Line or a cubic; SegmentRoundTrip proves it inverts ToBezier |
| Beziers.SegmentRoundTrip | viiva/beziers.py:88-92 | a Line or cubic converted to the library's segment and back is itself |
| Beziers.Points | viiva/beziers.py:88 | `list(s)`: start first and end last; two points for a Line, four for a cubic with its controls in between |
| Beziers.Kept | viiva/beziers.py:87-92 | the kept segments are Lines and cubics, and no more than the path's |
| Beziers.KeptAppend | viiva/beziers.py:87-92 | the filter works part by part |
| Beziers.KeptAll | viiva/beziers.py:87-92 | a path of Lines and cubics is kept whole |
| Beziers.BezierSegments | viiva/beziers.py:86-92 | one library segment per kept segment, in order |
| Beziers.FromPathRoundTrip | viiva/beziers.py:86-92 | converting the collected segments back gives exactly the path's Lines and cubics, in order |
| Beziers.FromPath | viiva/beziers.py:84-94 | the append loop collects exactly BezierSegments(path) |
| Beziers.TrimEnd | viiva/beziers.py:131 | the longest prefix that does not end in whitespace; what it removes is whitespace only |
| Beziers.StripTrailingZ | viiva/beziers.py:131 | the result is a prefix of d, and differs from d exactly when d ends in z or Z followed only by whitespace |
| Beziers.StripTrailingZRemovesOneZ | viiva/beziers.py:131 | what is removed is one z with only whitespace before and after it, and the result does not end in whitespace |
| Beziers.StripTrailingZKeeps | viiva/beziers.py:131 | a d that does not end in z is left alone |
| Beziers.StripExample | viiva/beziers.py:131 | "M 0 0 L 1 0 z " becomes "M 0 0 L 1 0" |
| Beziers.BezierD | viiva/beziers.py:128-132 | IndexError with no segments; a prefix of the library's string; unchanged when the first point equals the last, and StripTrailingZ of it otherwise |
| Beziers.OpenPathLosesZ | viiva/beziers.py:130-131 | when the first point differs from the last, the string changes exactly when it ends in z |

## Left out

- svgpathtools itself is outside the model. Three of its pieces are parameters instead:
  - `approximate_arcs_with_cubics` is the parameter `expand` of `Paths.ExpandArcs`;
  - the library's `d()` and `isclosed()` are parameters of `Paths.D`;
  - the `beziers` library's `asSVGPath()` string is a parameter of `Beziers.BezierD`. The model assumes `asSVGPath()` returns normally on an empty path, so that the IndexError comes from `self[0]`.
- `parse_path`, Arc geometry and evaluation, `kinks`, and `Path.smoothed`/`smoothed_path` are left out: they are the library's code, and viiva only delegates to it.
- `Arc.approximate_with_cubics` and the Arc branch of `Path.as_polyline` are left out. They call the library's arc code. The branch cannot be reached either: `Paths.Cubics` proves no Arc survives `to_cubics`.
- `BezierPath.from_segments`, `to_path`, `__getitem__`, `smoothed`, `asSegments` and `smooth` are left out: they rebuild objects through the `beziers` library. `Beziers.SegmentRoundTrip` states the point-level conversion that `to_path` relies on.
- shapely is left out. `Polygon` and `LineString` are the tagged `Paths.Shape` value. shapely's own validation of the coordinates is not modelled either. It rejects a ring of fewer than four coordinates and a line of fewer than two, so a one-Line path, which gives `Polygon([start])` here, raises in shapely.
- `TolerantPath.d` (viiva/paths/__init__.py:55-59) is left out. In the package it raises NameError, because `Path` is unbound there. In the draft it wraps the segment in viiva's `Path`, whose own `d` already appends " Z", so a closed segment gets " Z Z".
- `Path.parse_element`, XML parsing, the `*2pathd` lookups and viiva/shapes.py are left out: they hold no logic of viiva's own.
- Reflection is left out: `__class__` reassignment, `map_methods_to_snake_case`, `method_wrapper`, `ensure_subclass_instance` and `__getattr__` delegation.
- `TolerantPath.__init__`'s call of `preprocess` on constructor arguments is left out. `preprocess` itself is modelled.
- Stubs and broken code are left out:
  - `TolerantPath.to_shapely` and `to_beziers`, which lack `self`;
  - `division`, `fracture` and `dash`, which only raise;
  - `Line.to_cubic_old`, which has no callers.
- Floating point is left out. Numbers are exact reals, and `sqrt` is replaced by the squared comparison `Flattening.ExceedsIsDistanceTest` justifies.
- Beziers.FromPath: requires a path without Arcs. `list(s)` of an Arc belongs to the library, and `from_path` is only given the output of `to_cubics`, which has none.
- Points.ToComplex: objects that convert through `__complex__`, `__float__` or `__index__` are not modelled; they fall under `Other` and raise TypeError. Dict keys are strings.
- NameCase.Capitalize: case mapping is ASCII only. Python's `lower`, `upper` and `capitalize` also map non-ASCII letters.
- NameCase.LowerAll: ASCII only, as above. Python's `lower` can also change the length: 'İ'.lower() has two characters.
- NameCase.CamelRoundTrip: ASCII names only. With Python's full case mapping, a non-ASCII capital breaks it: 'Éa' becomes 'éa', which `snake_to_camel` leaves as 'éa'.
- NameCase.CamelToSnakeShape: its length statement holds for ASCII case mapping only, because `lower` is ASCII here (see LowerAll). The `[A-Z]` substitution itself is ASCII in Python too.
- CubicFlatteningChains: describes the cubic flattening with `Path` bound. In the package it raises NameError on every cubic instead (`Flattening.PackageFlatteningNeverReturns`).
- PolylineIsLines: describes `as_polyline` with `Path` bound. In the package, any path that is not all Lines and still holds a cubic after `to_cubics()` raises NameError or ZeroDivisionError (`Paths.PackagePolylineOutcome`).
- LineSurvivesFlattening: with `Path` bound. In the package the cubic of such a Line raises NameError (`Flattening.FlatCubicRaisesNameError`).
- PolylineKeepsLine: with `Path` bound. In the package the path around the Line raises instead (`Paths.PackagePolylineOutcome`).
- ToShapelyOutcome: with `Path` bound. In the package `to_shapely` raises on every path that is not all Lines (`Paths.PackageToShapelyOutcome`).
- Flattening.Subdivide: `max_recursion` is the constant 10, because the source never passes it.

## Findings

| source | as written | input that shows it | evidently intended | confidence | as-written member | corrected member |
|---|---|---|---|---|---|---|
| viiva/paths/__init__.py:138 | `CubicBezier.as_polyline` calls `Path()`, a name the module never binds, so it raises NameError after `subdivide` returns | any cubic that does not raise ZeroDivisionError, e.g. the straight cubic (0,0), (1,0), (2,0), (3,0) | the polyline Path through subdivide's points, as in the draft viiva/paths.py, which defines `Path` at line 158 | high, not executed | Flattening.StraightCubicRaisesNameError | Flattening.FlattenCubic |
| viiva/paths/path.py:146-154 | the coordinates are only the start of each Line, so the first equals the last only when the first and last Lines start at the same point | the closed triangle (0,0)-(10,0)-(10,10)-(0,0) gives LineString[(0,0), (10,0), (10,10)] | every corner of the polyline, the closing point included, with the closed form exactly when the polyline returns to its start | high, not executed | Paths.ClosedTriangleIsOpen | Paths.ShapeDeterminesPolyline |
