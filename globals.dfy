/**
 * Helpers of include/global.hpp: interpolation and clamping, the string
 * validators that guard number parsing, safe indexed access, and the ordering
 * logic of the quadratic solver used by ray/sphere intersection.
 */
module Globals {
  import opened Vectors
  import opened Wrappers

  /** `M_PI` as the renderer defines it. */
  const M_PI: real := 3.1415926535897
  /** `FLT_MAX`, the largest finite single-precision value. */
  const FLT_MAX: real := 340282346638528859811704183484516925440.0

  /** Why an operation threw a `std::runtime_error`. */
  datatype Fault =
    | OutOfBound(index: int, size: nat)
    | AccessOutOfRange
    | NotAPositiveNumber
    | NotAFloat
    | BadFaceFormat
    | UnknownKeyword

  /** `FLOAT_EQUAL(x, y)`: the two values differ by less than 0.00001. */
  predicate FloatEqual(x: real, y: real)
  {
    -0.00001 < x - y < 0.00001
  }

  /** C++ `(int)x`: conversion truncates toward zero, unlike Dafny's `Floor`. */
  function Trunc(x: real): (r: int)
    ensures x >= 0.0 ==> r >= 0 && r as real <= x < r as real + 1.0
    ensures x < 0.0 ==> r <= 0 && r as real - 1.0 < x <= r as real
    ensures -1.0 < x < 1.0 ==> r == 0
  {
    if x >= 0.0 then x.Floor else -((-x).Floor)
  }

  /** Truncating a whole number gives it back. */
  lemma TruncWhole(n: int)
    ensures Trunc(n as real) == n
  {
  }

  /** `lerp(v0, v1, x)`: the point a fraction `x` of the way from `v0` to `v1`. */
  function Lerp(v0: real, v1: real, x: real): (r: real)
    ensures x == 0.0 ==> r == v0
    ensures x == 1.0 ==> r == v1
    ensures v0 == v1 ==> r == v0
  {
    v0 + x * (v1 - v0)
  }

  /** `lerp` on vectors, component by component. */
  function LerpVec(v0: Vector3f, v1: Vector3f, x: real): (r: Vector3f)
    ensures r == Vector3f(Lerp(v0.x, v1.x, x), Lerp(v0.y, v1.y, x), Lerp(v0.z, v1.z, x))
    ensures x == 0.0 ==> r == v0
    ensures x == 1.0 ==> r == v1
  {
    Vector3f(v0.x + x * (v1.x - v0.x), v0.y + x * (v1.y - v0.y), v0.z + x * (v1.z - v0.z))
  }

  /** `clamp(lo, hi, v)`, written as `max(lo, min(hi, v))`. */
  function Clamp(lo: real, hi: real, v: real): (r: real)
    ensures lo <= hi ==> lo <= r <= hi
    ensures lo <= v <= hi ==> r == v
    ensures v <= lo ==> r == lo
    ensures lo <= hi <= v ==> r == hi
  {
    var m := if hi < v then hi else v;
    if lo < m then m else lo
  }

  /** `clamp` on vectors, component by component. */
  function ClampVec(lo: Vector3f, hi: Vector3f, v: Vector3f): (r: Vector3f)
    ensures r == Vector3f(Clamp(lo.x, hi.x, v.x), Clamp(lo.y, hi.y, v.y), Clamp(lo.z, hi.z, v.z))
  {
    Vector3f(Clamp(lo.x, hi.x, v.x), Clamp(lo.y, hi.y, v.y), Clamp(lo.z, hi.z, v.z))
  }

  /**
   * `rescale(input, originMax, originMin, targetMax, targetMin)`: the affine map
   * taking [originMin, originMax] onto [targetMin, targetMax]. The division
   * by `originMax - originMin` is a `Quotient`, so an empty origin range
   * sends every input to `targetMin`.
   */
  function Rescale(input: real, originMax: real, originMin: real, targetMax: real, targetMin: real): (r: real)
    ensures input == originMin ==> r == targetMin
    ensures originMax != originMin && input == originMax ==> r == targetMax
    ensures originMax == originMin ==> r == targetMin
  {
    targetMin + Quotient((targetMax - targetMin) * (input - originMin), originMax - originMin)
  }

  predicate IsDigit(c: char) { '0' <= c <= '9' }

  predicate AllDigits(s: string) { forall i :: 0 <= i < |s| ==> IsDigit(s[i]) }

  /** Digits, optionally followed by one '.' and more digits: `[0-9]+(\.[0-9]+)?`. */
  predicate IsUnsignedDecimal(b: string)
  {
    (|b| > 0 && AllDigits(b))
    || exists k :: 0 < k < |b| - 1 && b[k] == '.' && AllDigits(b[..k]) && AllDigits(b[k + 1..])
  }

  /** The strings `checkFloat` lets through: `-?[0-9]+(\.[0-9]+)?`. */
  predicate IsFloatLiteral(s: string)
  {
    |s| > 0 && if s[0] == '-' then IsUnsignedDecimal(s[1..]) else IsUnsignedDecimal(s)
  }

  /**
   * `checkPosInt`: `ok` is false exactly when the source throws, that is when
   * some character lies outside '0'..'9'. The empty string passes.
   */
  method CheckPosInt(s: string) returns (ok: bool)
    ensures ok <==> AllDigits(s)
  {
    var i := 0;
    while i < |s|
      invariant 0 <= i <= |s|
      invariant AllDigits(s[..i])
    {
      if s[i] < '0' || s[i] > '9' {
        return false;
      }
      i := i + 1;
    }
    assert s[..i] == s;
    return true;
  }

  /** What every accepted decimal looks like: digits at both ends, and at most one '.'. */
  lemma DecimalShape(b: string)
    ensures IsUnsignedDecimal(b) ==> |b| > 0 && IsDigit(b[0]) && IsDigit(b[|b| - 1])
    ensures IsUnsignedDecimal(b) ==> forall i :: 0 <= i < |b| ==> IsDigit(b[i]) || b[i] == '.'
    ensures IsUnsignedDecimal(b) ==>
      forall i, j :: 0 <= i < |b| && 0 <= j < |b| && b[i] == '.' && b[j] == '.' ==> i == j
  {
    if IsUnsignedDecimal(b) && !(|b| > 0 && AllDigits(b)) {
      var k :| 0 < k < |b| - 1 && b[k] == '.' && AllDigits(b[..k]) && AllDigits(b[k + 1..]);
      forall i | 0 <= i < |b| && i != k ensures IsDigit(b[i]) {
        if i < k { assert b[i] == b[..k][i]; } else { assert b[i] == b[k + 1..][i - k - 1]; }
      }
    }
  }

  /**
   * `checkFloat`: `ok` is false exactly when the source throws. The leading '-'
   * branch and the unsigned branch of the source run the same scan from
   * `first`; the scan accepts exactly `-?[0-9]+(\.[0-9]+)?`.
   */
  method CheckFloat(s: string) returns (ok: bool)
    ensures ok <==> IsFloatLiteral(s)
  {
    if |s| == 0 {
      return false;
    }
    var first := 0;
    if s[0] == '-' {
      if |s| == 1 {
        return false;
      }
      first := 1;
    }
    ghost var b := s[first..];
    var dotAppeared := false;
    ghost var dotPos := first;
    var i := first;
    while i < |s|
      invariant first <= i <= |s|
      invariant i > first ==> IsDigit(s[first])
      invariant !dotAppeared ==> AllDigits(s[first..i])
      invariant dotAppeared ==> first < dotPos < i && dotPos < |s| - 1 && s[dotPos] == '.'
      invariant dotAppeared ==> AllDigits(s[first..dotPos]) && AllDigits(s[dotPos + 1..i])
    {
      if (i == first && s[first] < '0') || s[i] > '9' {
        DecimalShape(b);
        assert b[i - first] == s[i];
        return false;
      } else if s[i] == '.' && !dotAppeared && i != |s| - 1 {
        dotAppeared := true;
        dotPos := i;
        assert s[first..i] == s[first..dotPos];
        assert s[dotPos + 1..i + 1] == [];
      } else if s[i] < '0' || s[i] > '9' {
        DecimalShape(b);
        assert b[i - first] == s[i];
        assert dotAppeared ==> b[dotPos - first] == '.';
        return false;
      } else {
        if dotAppeared {
          assert s[dotPos + 1..i + 1] == s[dotPos + 1..i] + [s[i]];
        } else {
          assert s[first..i + 1] == s[first..i] + [s[i]];
        }
      }
      i := i + 1;
    }
    assert s[first..i] == b;
    if dotAppeared {
      assert b[dotPos - first] == '.';
      assert b[..dotPos - first] == s[first..dotPos];
      assert b[dotPos - first + 1..] == s[dotPos + 1..i];
    }
    return true;
  }

  /** `existIn`: whether `ele` equals some string of `v`. */
  method ExistIn(ele: string, v: seq<string>) returns (found: bool)
    ensures found <==> ele in v
  {
    var i := 0;
    while i < |v|
      invariant 0 <= i <= |v|
      invariant ele !in v[..i]
    {
      if ele == v[i] {
        return true;
      }
      i := i + 1;
    }
    assert v[..i] == v;
    return false;
  }

  /** `getEleIn` (both overloads): the element at `index`, or the out-of-bound error the source throws. */
  function GetEleIn<T>(arr: seq<T>, index: int): (r: Result<T, Fault>)
    ensures r.Ok? <==> 0 <= index < |arr|
    ensures r.Ok? ==> r.value == arr[index]
    ensures r.Err? ==> r.error == OutOfBound(index, |arr|)
  {
    if index >= |arr| || index < 0 then Err(OutOfBound(index, |arr|)) else Ok(arr[index])
  }

  /** The two roots `(-B ± sqrt(disc)) / 2A` of `A t^2 + B t + C`, as a multiset. */
  function QuadraticRoots(A: real, B: real, sqrtDisc: real): multiset<real>
    requires A != 0.0
  {
    multiset{(-B + sqrtDisc) / (2.0 * A), (-B - sqrtDisc) / (2.0 * A)}
  }

  /** Each of `(-B ± s) / 2A` solves `A t^2 + B t + C = 0` when `s*s` is the discriminant. */
  lemma QuadraticRootSolves(A: real, B: real, C: real, s: real, t: real)
    requires A != 0.0 && s * s == B * B - 4.0 * A * C
    requires t == (-B + s) / (2.0 * A) || t == (-B - s) / (2.0 * A)
    ensures A * t * t + B * t + C == 0.0
  {
    var u := 2.0 * A * t + B;
    assert u == s || u == -s;
    assert u * u == s * s;
    var e := A * t * t + B * t + C;
    calc {
      4.0 * A * e;
      u * u - (B * B - 4.0 * A * C);
      0.0;
    }
    ZeroProduct(4.0 * A, e);
  }

  lemma ZeroProduct(a: real, b: real)
    requires a != 0.0 && a * b == 0.0
    ensures b == 0.0
  {
    assert b == (a * b) / a;
  }

  /**
   * `solveQuadratic`. The square root of the discriminant is supplied as
   * `sqrtDisc` (needed only when the discriminant is non-negative). The roots
   * come back ordered; no real root gives `t1 = t2 = FLT_MAX`.
   */
  method SolveQuadratic(A: real, B: real, C: real, sqrtDisc: real) returns (t1: real, t2: real)
    requires A != 0.0
    requires B * B - 4.0 * A * C >= 0.0 ==> sqrtDisc >= 0.0 && sqrtDisc * sqrtDisc == B * B - 4.0 * A * C
    ensures t1 <= t2
    ensures B * B - 4.0 * A * C < 0.0 ==> t1 == FLT_MAX && t2 == FLT_MAX
    ensures B * B - 4.0 * A * C >= 0.0 ==> multiset{t1, t2} == QuadraticRoots(A, B, sqrtDisc)
    ensures B * B - 4.0 * A * C >= 0.0 ==> A * t1 * t1 + B * t1 + C == 0.0 && A * t2 * t2 + B * t2 + C == 0.0
    ensures B * B - 4.0 * A * C == 0.0 ==> t1 == t2
  {
    var discriminant := B * B - 4.0 * A * C;
    if discriminant < 0.0 {
      t1 := FLT_MAX;
      t2 := FLT_MAX;
    } else if discriminant == 0.0 {
      Vectors.SquareSign(sqrtDisc);
      t1 := (-B + sqrtDisc) / (2.0 * A);
      t2 := t1;
    } else {
      t1 := (-B + sqrtDisc) / (2.0 * A);
      t2 := (-B - sqrtDisc) / (2.0 * A);
    }
    if t1 > t2 {
      t1, t2 := t2, t1;
    }
    if discriminant >= 0.0 {
      QuadraticRootSolves(A, B, C, sqrtDisc, t1);
      QuadraticRootSolves(A, B, C, sqrtDisc, t2);
    }
  }

  /** The reciprocal of a positive number is positive and multiplies it to one. */
  lemma Reciprocal(a: real)
    requires a > 0.0
    ensures 1.0 / a > 0.0 && (1.0 / a) * a == 1.0
  {
  }

  /** `abs` of a float. */
  function Abs(x: real): (r: real)
    ensures r >= 0.0 && (r == x || r == -x)
  {
    if x < 0.0 then -x else x
  }

  /**
   * A float quotient `a / b`. Where the divisor is 0 the source's IEEE
   * arithmetic yields an infinity or NaN; the model takes 0 there.
   */
  function Quotient(a: real, b: real): (r: real)
    ensures b != 0.0 ==> r * b == a
    ensures b == 0.0 ==> r == 0.0
  {
    if b == 0.0 then 0.0 else a / b
  }

  /** A float vector quotient `v / c`, taken as the zero vector where the divisor is 0. */
  function QuotientVec(v: Vector3f, c: real): (r: Vector3f)
    ensures c != 0.0 ==> Scale(r, c) == v
    ensures c == 0.0 ==> r == Zero()
  {
    if c == 0.0 then Zero() else Div(v, c)
  }
}
