/**
 * Points of the plane. The source represents a point as a Python complex
 * number x + y·i; here it is a pair of reals, and complex addition,
 * subtraction and scaling by a real are written out coordinate-wise.
 *
 * Products are taken through `Mul` and `Sq`, and facts about signs and
 * monotonicity are stated over those terms, so that later proofs can combine
 * them by linear reasoning.
 */
module Geometry {

  datatype Point = Point(x: real, y: real)

  const Origin: Point := Point(0.0, 0.0)

  function Add(p: Point, q: Point): Point {
    Point(p.x + q.x, p.y + q.y)
  }

  function Sub(p: Point, q: Point): Point {
    Point(p.x - q.x, p.y - q.y)
  }

  function Scale(k: real, p: Point): Point {
    Point(k * p.x, k * p.y)
  }

  /** (1 - t)·p + t·q, the step of De Casteljau's construction. */
  function Lerp(p: Point, q: Point, t: real): Point {
    Point(Bern1(p.x, q.x, t), Bern1(p.y, q.y, t))
  }

  /** The midpoint, Lerp at t = 1/2 written with a constant divisor. */
  function Mid(p: Point, q: Point): Point {
    Point((p.x + q.x) / 2.0, (p.y + q.y) / 2.0)
  }

  lemma MidIsHalfwayLerp(p: Point, q: Point)
    ensures Mid(p, q) == Lerp(p, q, 0.5)
  {
  }

  function Mul(a: real, b: real): real {
    a * b
  }

  function Sq(r: real): real {
    r * r
  }

  function Abs(r: real): real {
    if r < 0.0 then -r else r
  }

  /** Squared Euclidean length, |p|², which needs no square root. */
  function SqNorm(p: Point): real {
    Sq(p.x) + Sq(p.y)
  }

  /** Linear Bernstein form on one coordinate. */
  function Bern1(a: real, b: real, t: real): real {
    (1.0 - t) * a + t * b
  }

  /** Quadratic Bernstein form on one coordinate. */
  function Bern2(a: real, b: real, c: real, t: real): real {
    (1.0 - t) * (1.0 - t) * a + 2.0 * (1.0 - t) * t * b + t * t * c
  }

  /** Cubic Bernstein form on one coordinate. */
  function Bern3(a: real, b: real, c: real, d: real, t: real): real {
    (1.0 - t) * (1.0 - t) * (1.0 - t) * a + 3.0 * (1.0 - t) * (1.0 - t) * t * b
      + 3.0 * (1.0 - t) * t * t * c + t * t * t * d
  }

  lemma MulPositive(a: real, b: real)
    requires a > 0.0 && b > 0.0
    ensures Mul(a, b) > 0.0
  {
  }

  lemma MulNonNegative(a: real, b: real)
    requires a >= 0.0 && b >= 0.0
    ensures Mul(a, b) >= 0.0
  {
  }

  /** Multiplying by a non-negative factor keeps an inequality. */
  lemma MulMonotone(a: real, b: real, c: real)
    requires a <= b && c >= 0.0
    ensures Mul(a, c) <= Mul(b, c)
  {
    MulNonNegative(b - a, c);
    assert Mul(b - a, c) == Mul(b, c) - Mul(a, c);
  }

  /** A square is never negative, and is positive for a non-zero real. */
  lemma SquareSign(r: real)
    ensures Sq(r) >= 0.0
    ensures Sq(r) > 0.0 || r == 0.0
  {
    if r > 0.0 {
      MulPositive(r, r);
      assert Mul(r, r) == Sq(r);
    } else if r < 0.0 {
      MulPositive(-r, -r);
      assert Mul(-r, -r) == Sq(r);
    }
  }

  /** Squaring is monotone on the non-negative reals. */
  lemma SquareMonotone(a: real, b: real)
    requires 0.0 <= a <= b
    ensures Sq(a) <= Sq(b)
  {
    MulMonotone(a, b, a);
    MulMonotone(a, b, b);
    assert Mul(a, a) == Sq(a) && Mul(b, a) == Mul(a, b) && Mul(b, b) == Sq(b);
  }

  /** |p|² is never negative, and is zero exactly at the origin. */
  lemma SqNormSign(p: Point)
    ensures SqNorm(p) >= 0.0
    ensures SqNorm(p) == 0.0 <==> p == Origin
  {
    SquareSign(p.x);
    SquareSign(p.y);
  }

  lemma SubIsOrigin(p: Point, q: Point)
    ensures Sub(p, q) == Origin <==> p == q
  {
  }

  /** The distance between two points is zero exactly when they coincide. */
  lemma ZeroDistance(p: Point, q: Point)
    ensures SqNorm(Sub(p, q)) == 0.0 <==> p == q
  {
    SqNormSign(Sub(p, q));
    SubIsOrigin(p, q);
  }

  /** Two rounds of linear interpolation give the quadratic Bernstein form. */
  lemma Bern1Twice(a: real, b: real, c: real, t: real)
    ensures Bern1(Bern1(a, b, t), Bern1(b, c, t), t) == Bern2(a, b, c, t)
  {
  }

  /** The forms as polynomials in t. */
  lemma Bern1Poly(a: real, b: real, t: real)
    ensures Bern1(a, b, t) == a + t * (b - a)
  {
  }

  lemma Bern2Poly(a: real, b: real, c: real, t: real)
    ensures Bern2(a, b, c, t) == a + 2.0 * t * (b - a) + t * t * (a - 2.0 * b + c)
  {
  }

  lemma Bern3Poly(a: real, b: real, c: real, d: real, t: real)
    ensures Bern3(a, b, c, d, t)
         == a + 3.0 * t * (b - a) + 3.0 * t * t * (a - 2.0 * b + c) + t * t * t * (d - 3.0 * c + 3.0 * b - a)
  {
    var s := 1.0 - t;
    assert s * s == 1.0 - 2.0 * t + t * t;
    assert s * s * s == 1.0 - 3.0 * t + 3.0 * t * t - t * t * t;
    assert s * s * t == t - 2.0 * t * t + t * t * t;
    assert s * t * t == t * t - t * t * t;
  }

  /** One more round gives the cubic form: De Casteljau's midpoint is the curve's point. */
  lemma Bern2Lerp(a: real, b: real, c: real, d: real, t: real)
    ensures Bern1(Bern2(a, b, c, t), Bern2(b, c, d, t), t) == Bern3(a, b, c, d, t)
  {
    var x := Bern2(a, b, c, t);
    var y := Bern2(b, c, d, t);
    Bern2Poly(a, b, c, t);
    Bern2Poly(b, c, d, t);
    Bern1Poly(x, y, t);
    Bern3Poly(a, b, c, d, t);
    var e := b - a + 2.0 * t * (a - 2.0 * b + c) + t * t * (d - 3.0 * c + 3.0 * b - a);
    assert y - x == e;
    assert t * e == t * (b - a) + 2.0 * t * t * (a - 2.0 * b + c) + t * t * t * (d - 3.0 * c + 3.0 * b - a);
  }

  /** A cubic traversed backwards. */
  lemma Bern3Reversed(a: real, b: real, c: real, d: real, t: real)
    ensures Bern3(a, b, c, d, t) == Bern3(d, c, b, a, 1.0 - t)
  {
  }

  /** The left half of a split at 1/2 traces the first half of the curve. */
  lemma Bern3LeftHalf(a: real, b: real, c: real, d: real, u: real)
    ensures Bern3(a, (a + b) / 2.0, (a + 2.0 * b + c) / 4.0, (a + 3.0 * b + 3.0 * c + d) / 8.0, u)
         == Bern3(a, b, c, d, u / 2.0)
  {
  }

  /** The right half of a split at 1/2 traces the second half of the curve. */
  lemma Bern3RightHalf(a: real, b: real, c: real, d: real, u: real)
    ensures Bern3((a + 3.0 * b + 3.0 * c + d) / 8.0, (b + 2.0 * c + d) / 4.0, (c + d) / 2.0, d, u)
         == Bern3(a, b, c, d, 0.5 + u / 2.0)
  {
    var m := (a + 3.0 * b + 3.0 * c + d) / 8.0;
    Bern3Reversed(m, (b + 2.0 * c + d) / 4.0, (c + d) / 2.0, d, u);
    Bern3LeftHalf(d, c, b, a, 1.0 - u);
    assert (d + 3.0 * c + 3.0 * b + a) / 8.0 == m;
    assert (d + 2.0 * c + b) / 4.0 == (b + 2.0 * c + d) / 4.0;
    assert (d + c) / 2.0 == (c + d) / 2.0;
    Bern3Reversed(a, b, c, d, 0.5 + u / 2.0);
    assert 1.0 - (0.5 + u / 2.0) == (1.0 - u) / 2.0;
  }
}
