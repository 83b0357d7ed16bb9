/**
 * Vector3f and Vector2f of include/Vector.hpp, with `float` read as `real`.
 * Every operator acts component by component; the lemmas below state the
 * algebra the rest of the renderer relies on.
 */
module Vectors {
  datatype Vector3f = Vector3f(x: real, y: real, z: real)
  datatype Vector2f = Vector2f(x: real, y: real)

  /** `Vector2f()`: texture coordinates start as (-1, -1), meaning "no texture". */
  function NoTexturePos(): (r: Vector2f)
    ensures r.x < 0.0 && r.y < 0.0 && r.x == r.y == -1.0
  {
    Vector2f(-1.0, -1.0)
  }

  /** `Vector3f()`: the zero vector. */
  function Zero(): Vector3f { Vector3f(0.0, 0.0, 0.0) }

  /** `Vector3f(i)`: broadcasts one value to all three components. */
  function Broadcast(c: real): (r: Vector3f)
    ensures r.x == c && r.y == c && r.z == c
    ensures c == 0.0 <==> r == Zero()
  {
    Vector3f(c, c, c)
  }

  function Add(a: Vector3f, b: Vector3f): Vector3f { Vector3f(a.x + b.x, a.y + b.y, a.z + b.z) }
  function Sub(a: Vector3f, b: Vector3f): Vector3f { Vector3f(a.x - b.x, a.y - b.y, a.z - b.z) }
  function Neg(a: Vector3f): Vector3f { Vector3f(-a.x, -a.y, -a.z) }
  /** Element-wise product `a * b`. */
  function Mul(a: Vector3f, b: Vector3f): Vector3f { Vector3f(a.x * b.x, a.y * b.y, a.z * b.z) }
  /** `v * c` and `c * v`. */
  function Scale(v: Vector3f, c: real): Vector3f { Vector3f(v.x * c, v.y * c, v.z * c) }
  /** `v / c`; a zero divisor is outside the real-number model. */
  function Div(v: Vector3f, c: real): Vector3f
    requires c != 0.0
  {
    Vector3f(v.x / c, v.y / c, v.z / c)
  }
  /** `c - v`: the broadcast scalar minus the vector. */
  function SubFrom(c: real, v: Vector3f): Vector3f { Sub(Broadcast(c), v) }

  function Dot(a: Vector3f, b: Vector3f): real { a.x * b.x + a.y * b.y + a.z * b.z }
  function Norm2(v: Vector3f): real { v.x * v.x + v.y * v.y + v.z * v.z }

  function Cross(a: Vector3f, b: Vector3f): Vector3f
  {
    Vector3f(a.y * b.z - a.z * b.y, a.z * b.x - a.x * b.z, a.x * b.y - a.y * b.x)
  }

  /**
   * `normalized(v)`. The square root is outside the model: the caller supplies
   * `mag`, the non-negative number whose square is `norm2(v)`. A zero magnitude
   * returns the input unchanged; otherwise the result has unit length.
   */
  function Normalized(v: Vector3f, mag: real): (r: Vector3f)
    requires mag >= 0.0 && mag * mag == Norm2(v)
    ensures mag == 0.0 ==> r == v && v == Zero()
    ensures mag > 0.0 ==> Norm2(r) == 1.0
  {
    Norm2ZeroIffZero(v);
    if mag <= 0.0 then v
    else
      var r := Scale(v, 1.0 / mag);
      ScaleNorm2(v, 1.0 / mag);
      assert (1.0 / mag) * (1.0 / mag) * (mag * mag) == 1.0;
      r
  }

  lemma ScaleNorm2(v: Vector3f, c: real)
    ensures Norm2(Scale(v, c)) == c * c * Norm2(v)
  {
  }

  /** `norm2` is `dot` of a vector with itself, never negative, and zero only for the zero vector. */
  lemma Norm2ZeroIffZero(v: Vector3f)
    ensures Norm2(v) == Dot(v, v) && Norm2(v) >= 0.0
    ensures Norm2(v) == 0.0 <==> v == Zero()
  {
    SquareSign(v.x);
    SquareSign(v.y);
    SquareSign(v.z);
  }

  lemma SquareSign(a: real)
    ensures a * a >= 0.0
    ensures a * a == 0.0 <==> a == 0.0
  {
    if a > 0.0 {
      ProductSign(a, a);
    } else if a < 0.0 {
      ProductSign(-a, -a);
    }
  }

  /** A positive factor keeps the sign of the other factor. */
  lemma ProductSign(c: real, d: real)
    requires c > 0.0
    ensures d > 0.0 <==> c * d > 0.0
    ensures d < 0.0 <==> c * d < 0.0
    ensures d == 0.0 <==> c * d == 0.0
  {
  }

  /** The product of two non-negative numbers is non-negative. */
  lemma ProductNonNeg(x: real, y: real)
    requires x >= 0.0 && y >= 0.0
    ensures x * y >= 0.0
  {
  }

  /** `dot` is symmetric and scales linearly in its first argument. */
  lemma DotSymmetricLinear(a: Vector3f, b: Vector3f, c: real)
    ensures Dot(a, b) == Dot(b, a)
    ensures Dot(Scale(a, c), b) == c * Dot(a, b)
    ensures Dot(Neg(a), b) == -Dot(a, b)
  {
  }

  /** The cross product is orthogonal to both factors, antisymmetric, and zero for parallel copies. */
  lemma CrossOrthogonal(a: Vector3f, b: Vector3f)
    ensures Dot(Cross(a, b), a) == 0.0 && Dot(Cross(a, b), b) == 0.0
    ensures Cross(b, a) == Neg(Cross(a, b))
    ensures Cross(a, a) == Zero()
  {
  }

  /** Normalising keeps a vector orthogonal to whatever it was orthogonal to. */
  lemma NormalizedOrthogonal(v: Vector3f, mag: real, n: Vector3f)
    requires mag >= 0.0 && mag * mag == Norm2(v) && Dot(v, n) == 0.0
    ensures Dot(Normalized(v, mag), n) == 0.0
  {
    NormalizedDotSign(v, mag, n);
  }

  /** Normalising by a positive magnitude keeps the sign of any dot product. */
  lemma NormalizedDotSign(v: Vector3f, mag: real, n: Vector3f)
    requires mag >= 0.0 && mag * mag == Norm2(v)
    ensures Dot(Normalized(v, mag), n) < 0.0 <==> Dot(v, n) < 0.0
    ensures Dot(Normalized(v, mag), n) > 0.0 <==> Dot(v, n) > 0.0
  {
    if mag > 0.0 {
      PositiveNormalizedDotSign(v, mag, n);
    } else {
      assert mag == 0.0;
      ZeroNormalizedDot(v, mag, n);
    }
  }

  lemma PositiveNormalizedDotSign(v: Vector3f, mag: real, n: Vector3f)
    requires mag > 0.0 && mag * mag == Norm2(v)
    ensures Dot(Normalized(v, mag), n) < 0.0 <==> Dot(v, n) < 0.0
    ensures Dot(Normalized(v, mag), n) > 0.0 <==> Dot(v, n) > 0.0
  {
    var c := 1.0 / mag;
    assert Normalized(v, mag) == Scale(v, c);
    ScaleDotSign(v, n, c);
  }

  lemma ZeroNormalizedDot(v: Vector3f, mag: real, n: Vector3f)
    requires mag == 0.0 && mag * mag == Norm2(v)
    ensures Dot(Normalized(v, mag), n) == Dot(v, n)
  {
  }

  lemma ScaleDotSign(v: Vector3f, n: Vector3f, c: real)
    requires c > 0.0
    ensures Dot(Scale(v, c), n) < 0.0 <==> Dot(v, n) < 0.0
    ensures Dot(Scale(v, c), n) > 0.0 <==> Dot(v, n) > 0.0
  {
    DotSymmetricLinear(v, n, c);
    ProductSign(c, Dot(v, n));
  }

  /** Subtraction is addition of the negation; negation of a difference swaps it. */
  lemma SubAddNeg(a: Vector3f, b: Vector3f)
    ensures Sub(a, b) == Add(a, Neg(b))
    ensures Neg(Sub(a, b)) == Sub(b, a)
    ensures Norm2(Sub(a, b)) == Norm2(Sub(b, a))
    ensures Add(a, b) == Add(b, a)
  {
  }

  /** What `sqrt` must be: a non-negative square root of every non-negative number. */
  ghost predicate IsSqrt(sqrt: real -> real)
  {
    forall x :: x >= 0.0 ==> sqrt(x) >= 0.0 && sqrt(x) * sqrt(x) == x
  }

  /**
   * `normalized(v)`, with its length taken by `sqrt`: `v` divided by its
   * length, or `v` itself when the length is not positive.
   */
  function Unit(v: Vector3f, sqrt: real -> real): (r: Vector3f)
  {
    var m := sqrt(Norm2(v));
    if m <= 0.0 then v else Scale(v, 1.0 / m)
  }

  /** With a true square root, `Unit` is `normalized`: zero stays zero, anything else gets unit length. */
  lemma UnitLength(v: Vector3f, sqrt: real -> real)
    requires IsSqrt(sqrt)
    ensures v == Zero() ==> Unit(v, sqrt) == Zero()
    ensures v != Zero() ==> Norm2(Unit(v, sqrt)) == 1.0
  {
    var m := sqrt(Norm2(v));
    assert m >= 0.0 && m * m == Norm2(v);
    UnitIsNormalized(v, sqrt, m);
  }

  /** `Unit` with the length `m` its square root gives is `Normalized` with that length. */
  lemma UnitIsNormalized(v: Vector3f, sqrt: real -> real, m: real)
    requires m == sqrt(Norm2(v)) && m >= 0.0 && m * m == Norm2(v)
    ensures Unit(v, sqrt) == Normalized(v, m)
    ensures v == Zero() ==> m == 0.0
    ensures v != Zero() ==> m > 0.0
  {
    Norm2ZeroIffZero(v);
    SquareSign(m);
  }
}
