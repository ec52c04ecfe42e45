/**
 * Points, squared distances, the square root used for Euclidean lengths, and the
 * uniform draws that stand for Python's `random` module.
 */
module Geometry {

  /** One value of `random.random()`: a real in [0, 1). */
  type Draw = r: real | 0.0 <= r < 1.0

  /** `random.uniform(lo, hi)`, which CPython computes as `lo + (hi - lo) * random()`. */
  function Uniform(lo: real, hi: real, d: Draw): (r: real)
    ensures lo <= hi ==> lo <= r <= hi
  {
    if lo <= hi then
      MulNonNegative(hi - lo, d);
      MulNonNegative(hi - lo, 1.0 - d);
      Distribute(hi - lo, 1.0, d);
      lo + (hi - lo) * d
    else
      lo + (hi - lo) * d
  }

  function Max(a: real, b: real): real { if a >= b then a else b }

  function Min(a: real, b: real): real { if a <= b then a else b }

  /** A coordinate pair (the source's `(x, y)` tuples). */
  datatype Point = Point(x: real, y: real)

  function SquaredDistance(p: Point, q: Point): real {
    (q.x - p.x) * (q.x - p.x) + (q.y - p.y) * (q.y - p.y)
  }

  /**
   * `sqrt` is a square root on the non-negative reals. Dafny's reals have no square
   * root, so every operation that takes a Euclidean length receives one as a parameter.
   */
  ghost predicate IsSqrt(sqrt: real -> real) {
    forall x :: 0.0 <= x ==> 0.0 <= sqrt(x) && sqrt(x) * sqrt(x) == x
  }

  /** The Euclidean distance `((q.x - p.x)**2 + (q.y - p.y)**2) ** 0.5`. */
  function Distance(sqrt: real -> real, p: Point, q: Point): real {
    sqrt(SquaredDistance(p, q))
  }

  // Products are stated over two distinct variables and instantiated afterwards:
  // the solver proves these generic forms more reliably than their squared instances.

  lemma MulNonNegative(a: real, b: real)
    requires 0.0 <= a && 0.0 <= b
    ensures 0.0 <= a * b
  {
  }

  lemma MulPositive(a: real, b: real)
    requires 0.0 < a && 0.0 < b
    ensures 0.0 < a * b
  {
  }

  lemma MulZero(a: real, b: real)
    requires a * b == 0.0
    ensures a == 0.0 || b == 0.0
  {
  }

  lemma ZeroMul(a: real, b: real)
    requires a == 0.0
    ensures a * b == 0.0
  {
  }

  lemma MulMonotone(a: real, b: real, c: real)
    requires a <= b && 0.0 <= c
    ensures a * c <= b * c
  {
  }

  lemma Distribute(a: real, b: real, c: real)
    ensures a * (b - c) == a * b - a * c
  {
  }

  lemma DifferenceOfSquares(a: real, b: real)
    ensures b * b - a * a == (b - a) * (b + a)
  {
  }

  lemma SquareNonNegative(a: real)
    ensures 0.0 <= a * a
  {
    if a < 0.0 {
      MulNonNegative(-a, -a);
      assert (-a) * (-a) == a * a;
    } else {
      MulNonNegative(a, a);
    }
  }

  lemma SquaresZero(a: real, b: real)
    ensures 0.0 <= a * a + b * b
    ensures a * a + b * b == 0.0 <==> a == 0.0 && b == 0.0
  {
    SquareNonNegative(a);
    SquareNonNegative(b);
    if a * a + b * b == 0.0 {
      MulZero(a, a);
      MulZero(b, b);
    }
    if a == 0.0 && b == 0.0 {
      ZeroMul(a, a);
      ZeroMul(b, b);
    }
  }

  /** On the non-negative reals, squaring preserves strict order in both directions. */
  lemma SquareMonotone(a: real, b: real)
    requires 0.0 <= a && 0.0 <= b
    ensures a < b <==> a * a < b * b
  {
    DifferenceOfSquares(a, b);
    if a < b {
      MulPositive(b - a, b + a);
    } else {
      MulNonNegative(a - b, a + b);
      DifferenceOfSquares(b, a);
    }
  }

  /** A distance is below a non-negative bound exactly when its square is below the bound squared. */
  lemma DistanceBelow(sqrt: real -> real, p: Point, q: Point, bound: real)
    requires IsSqrt(sqrt)
    requires 0.0 <= bound
    ensures Distance(sqrt, p, q) < bound <==> SquaredDistance(p, q) < bound * bound
  {
    SquaresZero(q.x - p.x, q.y - p.y);
    var d := Distance(sqrt, p, q);
    assert 0.0 <= d && d * d == SquaredDistance(p, q);
    SquareMonotone(d, bound);
  }

  /** The distance between two points is non-negative, and zero exactly when they coincide. */
  lemma DistanceZero(sqrt: real -> real, p: Point, q: Point)
    requires IsSqrt(sqrt)
    ensures 0.0 <= Distance(sqrt, p, q)
    ensures Distance(sqrt, p, q) == 0.0 <==> p == q
  {
    SquaresZero(q.x - p.x, q.y - p.y);
    var d := Distance(sqrt, p, q);
    assert d * d == SquaredDistance(p, q);
    if d == 0.0 {
      ZeroMul(d, d);
      assert q.x - p.x == 0.0 && q.y - p.y == 0.0;
      assert p == Point(q.x, q.y);
    } else if d * d == 0.0 {
      MulZero(d, d);
    }
  }

  /** The square root of a square is its non-negative base. */
  lemma SqrtOfSquare(sqrt: real -> real, a: real)
    requires IsSqrt(sqrt)
    requires 0.0 <= a
    ensures sqrt(a * a) == a
  {
    SquareNonNegative(a);
    var r := sqrt(a * a);
    assert 0.0 <= r && r * r == a * a;
    DifferenceOfSquares(a, r);
    assert (r - a) * (r + a) == 0.0;
    MulZero(r - a, r + a);
  }
}
