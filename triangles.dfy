/**
 * The triangle of include/Triangle.hpp: the Moller-Trumbore ray test, the
 * barycentric coordinates of a point, the bound, the area and the uniform
 * surface sample.
 *
 * The square root inside `normalized` and `norm` enters as `crossNorm`, the
 * non-negative length of `E1 x E2`; the interpolated shading normal of
 * `samplePoint` is normalised by the uninterpreted `unit`.
 */
module Triangles {
  import opened Vectors
  import opened Globals
  import opened Materials
  import opened Intersections
  import opened Bounds

  /** `w0 a + w1 b + w2 c`, written `(w0) * a + (w1) * b + (w2) * c` in the source. */
  function Blend(a: Vector3f, b: Vector3f, c: Vector3f, w0: real, w1: real, w2: real): Vector3f
  {
    Add(Add(Scale(a, w0), Scale(b, w1)), Scale(c, w2))
  }

  /** The same weighted sum of texture coordinates, `uv0 * w0 + uv1 * w1 + uv2 * w2`. */
  function BlendUV(a: Vector2f, b: Vector2f, c: Vector2f, w0: real, w1: real, w2: real): Vector2f
  {
    Vector2f(a.x * w0 + b.x * w1 + c.x * w2, a.y * w0 + b.y * w1 + c.y * w2)
  }

  /** Weights of a point strictly inside, or on the closure of, the triangle. */
  predicate ConvexWeights(w0: real, w1: real, w2: real)
  {
    w0 >= 0.0 && w1 >= 0.0 && w2 >= 0.0 && w0 + w1 + w2 == 1.0
  }

  /** `initializeBound`: `Union(BoundBox(v0, v1), v2)`, a box holding the three vertices. */
  function TriangleBound(v0: Vector3f, v1: Vector3f, v2: Vector3f): (b: BoundBox)
    ensures WellFormed(b) && ContainsPoint(b, v0) && ContainsPoint(b, v1) && ContainsPoint(b, v2)
  {
    UnionPoint(FromPoints(v0, v1), v2)
  }

  /** A convex combination of three numbers at least `lo` is at least `lo`. */
  lemma ConvexLower(a: real, b: real, c: real, w0: real, w1: real, w2: real, lo: real)
    requires lo <= a && lo <= b && lo <= c
    requires ConvexWeights(w0, w1, w2)
    ensures lo <= a * w0 + b * w1 + c * w2
  {
    ProductNonNeg(a - lo, w0);
    ProductNonNeg(b - lo, w1);
    ProductNonNeg(c - lo, w2);
    assert a * w0 + b * w1 + c * w2 - lo == (a - lo) * w0 + (b - lo) * w1 + (c - lo) * w2;
  }

  /** A convex combination of three numbers in `[lo, hi]` stays in `[lo, hi]`. */
  lemma ConvexAxis(a: real, b: real, c: real, w0: real, w1: real, w2: real, lo: real, hi: real, p: real)
    requires lo <= a <= hi && lo <= b <= hi && lo <= c <= hi
    requires ConvexWeights(w0, w1, w2) && p == a * w0 + b * w1 + c * w2
    ensures lo <= p <= hi
  {
    ConvexLower(a, b, c, w0, w1, w2, lo);
    ConvexLower(-a, -b, -c, w0, w1, w2, -hi);
    assert (-a) * w0 + (-b) * w1 + (-c) * w2 == -(a * w0 + b * w1 + c * w2);
  }

  /** Every convex combination of three points of a box lies in the box. */
  lemma BlendInsideBox(b: BoundBox, v0: Vector3f, v1: Vector3f, v2: Vector3f, w0: real, w1: real, w2: real)
    requires ContainsPoint(b, v0) && ContainsPoint(b, v1) && ContainsPoint(b, v2)
    requires ConvexWeights(w0, w1, w2)
    ensures ContainsPoint(b, Blend(v0, v1, v2, w0, w1, w2))
  {
    BlendAxisX(v0, v1, v2, w0, w1, w2, b.pMin.x, b.pMax.x);
    BlendAxisX(Rotate(v0), Rotate(v1), Rotate(v2), w0, w1, w2, b.pMin.y, b.pMax.y);
    BlendAxisX(Rotate(Rotate(v0)), Rotate(Rotate(v1)), Rotate(Rotate(v2)), w0, w1, w2, b.pMin.z, b.pMax.z);
    BlendRotate(v0, v1, v2, w0, w1, w2);
    BlendRotate(Rotate(v0), Rotate(v1), Rotate(v2), w0, w1, w2);
  }

  /** Along the first axis, a convex combination of three points of a slab stays in the slab. */
  lemma BlendAxisX(v0: Vector3f, v1: Vector3f, v2: Vector3f, w0: real, w1: real, w2: real, lo: real, hi: real)
    requires lo <= v0.x <= hi && lo <= v1.x <= hi && lo <= v2.x <= hi
    requires ConvexWeights(w0, w1, w2)
    ensures lo <= Blend(v0, v1, v2, w0, w1, w2).x <= hi
  {
    ConvexAxis(v0.x, v1.x, v2.x, w0, w1, w2, lo, hi, Blend(v0, v1, v2, w0, w1, w2).x);
  }

  /** Weighting commutes with shifting the coordinates. */
  lemma BlendRotate(v0: Vector3f, v1: Vector3f, v2: Vector3f, w0: real, w1: real, w2: real)
    ensures Blend(Rotate(v0), Rotate(v1), Rotate(v2), w0, w1, w2) == Rotate(Blend(v0, v1, v2, w0, w1, w2))
  {
  }

  /**
   * Cramer's rule behind Moller-Trumbore: with `det = (d x E2) . E1`,
   * `S det + d ((S x E1) . E2) = E1 ((d x E2) . S) + E2 ((S x E1) . d)`.
   */
  lemma Cramer(S: Vector3f, d: Vector3f, E1: Vector3f, E2: Vector3f)
    ensures CramerIdentity(S, d, E1, E2, Dot(Cross(d, E2), E1), Dot(Cross(S, E1), E2), Dot(Cross(d, E2), S), Dot(Cross(S, E1), d))
  {
    CramerX(S, d, E1, E2);
    CramerX(Rotate(S), Rotate(d), Rotate(E1), Rotate(E2));
    CramerX(Rotate(Rotate(S)), Rotate(Rotate(d)), Rotate(Rotate(E1)), Rotate(Rotate(E2)));
    TripleRotate(d, E2, E1);
    TripleRotate(S, E1, E2);
    TripleRotate(d, E2, S);
    TripleRotate(S, E1, d);
    TripleRotate(Rotate(d), Rotate(E2), Rotate(E1));
    TripleRotate(Rotate(S), Rotate(E1), Rotate(E2));
    TripleRotate(Rotate(d), Rotate(E2), Rotate(S));
    TripleRotate(Rotate(S), Rotate(E1), Rotate(d));
  }

  /** The first coordinate of Cramer's identity. */
  lemma CramerX(S: Vector3f, d: Vector3f, E1: Vector3f, E2: Vector3f)
    ensures CramerRow(S.x, d.x, E1.x, E2.x, Dot(Cross(d, E2), E1), Dot(Cross(S, E1), E2), Dot(Cross(d, E2), S), Dot(Cross(S, E1), d))
  {
  }

  /** The coordinates shifted one place: `(y, z, x)`. */
  function Rotate(v: Vector3f): Vector3f
  {
    Vector3f(v.y, v.z, v.x)
  }

  /** A triple product does not change when all three vectors' coordinates shift. */
  lemma TripleRotate(a: Vector3f, b: Vector3f, c: Vector3f)
    ensures Dot(Cross(Rotate(a), Rotate(b)), Rotate(c)) == Dot(Cross(a, b), c)
  {
  }

  /** `S det + d tt = E1 uu + E2 vv`, coordinate by coordinate. */
  predicate CramerIdentity(S: Vector3f, d: Vector3f, E1: Vector3f, E2: Vector3f, det: real, tt: real, uu: real, vv: real)
  {
    CramerRow(S.x, d.x, E1.x, E2.x, det, tt, uu, vv)
    && CramerRow(S.y, d.y, E1.y, E2.y, det, tt, uu, vv)
    && CramerRow(S.z, d.z, E1.z, E2.z, det, tt, uu, vv)
  }

  /** One coordinate of Cramer's identity: `s det + d tt = e1 uu + e2 vv`. */
  predicate CramerRow(s: real, d: real, e1: real, e2: real, det: real, tt: real, uu: real, vv: real)
  {
    s * det + d * tt == e1 * uu + e2 * vv
  }

  /** One coordinate of the ray point, once Cramer's identity is multiplied by `left = 1 / det`. */
  lemma RayPointAxis(o: real, d: real, p0: real, p1: real, p2: real, det: real, left: real, tt: real, uu: real, vv: real)
    requires det != 0.0 && left == 1.0 / det
    requires (o - p0) * det + d * tt == (p1 - p0) * uu + (p2 - p0) * vv
    ensures o + d * (left * tt) == p0 * (1.0 - left * uu - left * vv) + p1 * (left * uu) + p2 * (left * vv)
  {
    assert left * det == 1.0;
    assert (o - p0) + d * (left * tt) == left * ((o - p0) * det + d * tt);
    assert (p1 - p0) * (left * uu) + (p2 - p0) * (left * vv) == left * ((p1 - p0) * uu + (p2 - p0) * vv);
  }

  /**
   * The point that Moller-Trumbore's `(t, u, v)` names along the ray is the
   * point with barycentric weights `(1-u-v, u, v)` on the triangle's plane.
   */
  lemma MollerTrumboreSound(v0: Vector3f, v1: Vector3f, v2: Vector3f, orig: Vector3f, dir: Vector3f)
    requires Det(v0, v1, v2, dir) != 0.0
    ensures var (t, u, v) := Solve(v0, v1, v2, orig, dir);
      RayAt(orig, dir, t) == Blend(v0, v1, v2, 1.0 - u - v, u, v)
  {
    var E1, E2, S := Sub(v1, v0), Sub(v2, v0), Sub(orig, v0);
    var det := Dot(Cross(dir, E2), E1);
    var tt, uu, vv := Dot(Cross(S, E1), E2), Dot(Cross(dir, E2), S), Dot(Cross(S, E1), dir);
    var left := 1.0 / det;
    Cramer(S, dir, E1, E2);
    RayPoint(orig, dir, v0, v1, v2, det, left, tt, uu, vv);
    assert Solve(v0, v1, v2, orig, dir).0 == left * tt;
    assert Solve(v0, v1, v2, orig, dir).1 == left * uu;
    assert Solve(v0, v1, v2, orig, dir).2 == left * vv;
  }

  /** Cramer's identity, multiplied by `left = 1 / det`, puts the ray point at the weighted corners. */
  lemma RayPoint(orig: Vector3f, dir: Vector3f, v0: Vector3f, v1: Vector3f, v2: Vector3f,
                 det: real, left: real, tt: real, uu: real, vv: real)
    requires det != 0.0 && left == 1.0 / det
    requires CramerIdentity(Sub(orig, v0), dir, Sub(v1, v0), Sub(v2, v0), det, tt, uu, vv)
    ensures RayAt(orig, dir, left * tt) == Blend(v0, v1, v2, 1.0 - left * uu - left * vv, left * uu, left * vv)
  {
    RayPointAxis(orig.x, dir.x, v0.x, v1.x, v2.x, det, left, tt, uu, vv);
    RayPointAxis(orig.y, dir.y, v0.y, v1.y, v2.y, det, left, tt, uu, vv);
    RayPointAxis(orig.z, dir.z, v0.z, v1.z, v2.z, det, left, tt, uu, vv);
  }

  /** `S1 . E1`, the determinant of Moller-Trumbore. */
  function Det(v0: Vector3f, v1: Vector3f, v2: Vector3f, dir: Vector3f): real
  {
    Dot(Cross(dir, Sub(v2, v0)), Sub(v1, v0))
  }

  /** `(t, u, v) = (1 / S1.E1) (S2.E2, S1.S, S2.dir)`. */
  function Solve(v0: Vector3f, v1: Vector3f, v2: Vector3f, orig: Vector3f, dir: Vector3f): (real, real, real)
    requires Det(v0, v1, v2, dir) != 0.0
  {
    var E1, E2, S := Sub(v1, v0), Sub(v2, v0), Sub(orig, v0);
    var S1, S2 := Cross(dir, E2), Cross(S, E1);
    var left := 1.0 / Dot(S1, E1);
    (left * Dot(S2, E2), left * Dot(S1, S), left * Dot(S2, dir))
  }

  /** The acceptance test: in front of the origin and strictly inside the triangle. */
  predicate Accepts(t: real, u: real, v: real)
  {
    t > 0.0 && 1.0 - u - v > 0.0 && u > 0.0 && v > 0.0
  }

  /** Solving the normal equations of `getBarycentric` by Cramer's rule. */
  lemma NormalEquations(d11: real, d12: real, d22: real, d1p: real, d2p: real, beta: real, gamma: real)
    requires d11 * d22 - d12 * d12 != 0.0
    requires beta == (d22 * d1p - d12 * d2p) / (d11 * d22 - d12 * d12)
    requires gamma == (d11 * d2p - d12 * d1p) / (d11 * d22 - d12 * d12)
    ensures beta * d11 + gamma * d12 == d1p && beta * d12 + gamma * d22 == d2p
  {
    var det := d11 * d22 - d12 * d12;
    assert (beta * d11 + gamma * d12) * det == d1p * det;
    assert (beta * d12 + gamma * d22) * det == d2p * det;
  }

  /** The normal equations have one solution when the determinant is non-zero. */
  lemma NormalEquationsUnique(d11: real, d12: real, d22: real, b: real, g: real, b2: real, g2: real)
    requires d11 * d22 - d12 * d12 != 0.0
    requires b * d11 + g * d12 == b2 * d11 + g2 * d12
    requires b * d12 + g * d22 == b2 * d12 + g2 * d22
    ensures b == b2 && g == g2
  {
    var db, dg := b - b2, g - g2;
    assert db * d11 + dg * d12 == 0.0 && db * d12 + dg * d22 == 0.0;
    assert db * (d11 * d22 - d12 * d12) == 0.0 by {
      assert db * (d11 * d22 - d12 * d12) == (db * d11 + dg * d12) * d22 - (db * d12 + dg * d22) * d12;
    }
    assert dg * (d11 * d22 - d12 * d12) == 0.0 by {
      assert dg * (d11 * d22 - d12 * d12) == (db * d12 + dg * d22) * d11 - (db * d11 + dg * d12) * d12;
    }
    ZeroProduct(d11 * d22 - d12 * d12, db);
    ZeroProduct(d11 * d22 - d12 * d12, dg);
  }

  /** `a . (b e1 + g e2)` expands linearly. */
  lemma DotBlend(a: Vector3f, e1: Vector3f, e2: Vector3f, b: real, g: real)
    ensures Dot(a, Add(Scale(e1, b), Scale(e2, g))) == b * Dot(a, e1) + g * Dot(a, e2)
  {
  }

  class Triangle {
    var v0: Vector3f
    var v1: Vector3f
    var v2: Vector3f
    var n0: Vector3f
    var n1: Vector3f
    var n2: Vector3f
    var uv0: Vector2f
    var uv1: Vector2f
    var uv2: Vector2f
    var mtlcolor: Material
    var isLight: bool
    var isTextureActivated: bool
    var textureIndex: int
    var normalMapIndex: int
    var bound: BoundBox

    /** A triangle with the given vertices and normals, no texture, default material. */
    constructor (a: Vector3f, b: Vector3f, c: Vector3f, na: Vector3f, nb: Vector3f, nc: Vector3f)
      ensures v0 == a && v1 == b && v2 == c && n0 == na && n1 == nb && n2 == nc
      ensures uv0 == NoTexturePos() && uv1 == NoTexturePos() && uv2 == NoTexturePos()
      ensures mtlcolor == DefaultMaterial() && !isLight && !isTextureActivated
      ensures textureIndex == -1 && normalMapIndex == -1 && bound == DefaultBox()
    {
      v0, v1, v2 := a, b, c;
      n0, n1, n2 := na, nb, nc;
      uv0, uv1, uv2 := NoTexturePos(), NoTexturePos(), NoTexturePos();
      mtlcolor := DefaultMaterial();
      isLight := false;
      isTextureActivated := false;
      textureIndex := -1;
      normalMapIndex := -1;
      bound := DefaultBox();
    }

    /** `crossProduct(E1, E2)`: twice the area, along the face normal. */
    function FaceCross(): Vector3f
      reads this
    {
      Cross(Sub(v1, v0), Sub(v2, v0))
    }

    /** `initializeBound`: the bound holds the three vertices; only the bound changes. */
    method InitializeBound()
      modifies this`bound
      ensures bound == TriangleBound(v0, v1, v2)
    {
      bound := FromPoints(v0, v1);
      bound := UnionPoint(bound, v2);
    }

    /**
     * `getArea`: half the length of `E1 x E2`, with that length supplied as
     * `crossNorm`. The area is non-negative, its double squares to
     * `|E1 x E2|^2`, and it is zero exactly for a degenerate triangle.
     */
    function GetArea(crossNorm: real): (a: real)
      reads this
      requires crossNorm >= 0.0 && crossNorm * crossNorm == Norm2(FaceCross())
      ensures a >= 0.0 && (2.0 * a) * (2.0 * a) == Norm2(FaceCross())
      ensures a == 0.0 <==> FaceCross() == Zero()
    {
      Norm2ZeroIffZero(FaceCross());
      SquareSign(crossNorm);
      crossNorm * 0.5
    }

    /**
     * `getBarycentric(point, alpha, beta, gamma)`. It fails when the Gram
     * determinant of the edges is (nearly) zero, i.e. the vertices are
     * collinear. Otherwise the weights sum to one and `v0 + beta e1 + gamma e2`
     * is the orthogonal projection of `point` on the triangle's plane: its
     * offsets from `v0` have the same dot products with both edges.
     */
    method GetBarycentric(point: Vector3f) returns (found: bool, alpha: real, beta: real, gamma: real)
      ensures var e1, e2 := Sub(v1, v0), Sub(v2, v0);
        found <==> !FloatEqual(0.0, Dot(e1, e1) * Dot(e2, e2) - Dot(e1, e2) * Dot(e1, e2))
      ensures found ==> alpha + beta + gamma == 1.0
      ensures var e1, e2, ep := Sub(v1, v0), Sub(v2, v0), Sub(point, v0);
        found ==> (Dot(e1, Add(Scale(e1, beta), Scale(e2, gamma))) == Dot(e1, ep)
                   && Dot(e2, Add(Scale(e1, beta), Scale(e2, gamma))) == Dot(e2, ep))
    {
      var e1 := Sub(v1, v0);
      var e2 := Sub(v2, v0);
      var ep := Sub(point, v0);
      var d11 := Dot(e1, e1);
      var d12 := Dot(e1, e2);
      var d22 := Dot(e2, e2);
      var d1p := Dot(e1, ep);
      var d2p := Dot(e2, ep);
      var det := d11 * d22 - d12 * d12;
      if FloatEqual(0.0, det) {
        return false, 0.0, 0.0, 0.0;
      }
      beta := (d22 * d1p - d12 * d2p) / det;
      gamma := (d11 * d2p - d12 * d1p) / det;
      alpha := 1.0 - beta - gamma;
      found := true;
      NormalEquations(d11, d12, d22, d1p, d2p, beta, gamma);
      DotBlend(e1, e1, e2, beta, gamma);
      DotBlend(e2, e1, e2, beta, gamma);
      assert Dot(e1, e2) == Dot(e2, e1);
    }

    /**
     * `intersect(orig, dir, inter)` for the triangle at scene index `self`.
     * A ray parallel to the face, or a zero Moller-Trumbore determinant, misses;
     * a miss leaves `inter` untouched. A hit is a point strictly inside the
     * triangle, in front of the origin, with the face normal.
     */
    method Intersect(self: int, orig: Vector3f, dir: Vector3f, inter: Intersection, crossNorm: real)
      returns (hit: bool, res: Intersection)
      requires crossNorm >= 0.0 && crossNorm * crossNorm == Norm2(FaceCross())
      ensures Dot(dir, FaceCross()) == 0.0 || Det(v0, v1, v2, dir) == 0.0 ==> !hit
      ensures hit <==> Dot(dir, FaceCross()) != 0.0 && Det(v0, v1, v2, dir) != 0.0
                       && Accepts(Solve(v0, v1, v2, orig, dir).0, Solve(v0, v1, v2, orig, dir).1, Solve(v0, v1, v2, orig, dir).2)
      ensures !hit ==> res == inter
      ensures hit ==> res.intersected && res.obj == self && res.mtlcolor == mtlcolor && res.t > 0.0
      ensures hit ==> res.pos == RayAt(orig, dir, res.t)
      ensures hit ==> exists u: real, v: real :: Accepts(res.t, u, v) && res.pos == Blend(v0, v1, v2, 1.0 - u - v, u, v)
      ensures hit ==> ContainsPoint(TriangleBound(v0, v1, v2), res.pos)
      ensures hit ==> res.Ng == Normalized(FaceCross(), crossNorm) && res.Ns == res.Ng && Norm2(res.Ng) == 1.0
      ensures hit && isTextureActivated ==> res.diffuseIndex == textureIndex && res.normalMapIndex == normalMapIndex
      ensures hit && !isTextureActivated ==>
        res.textPos == inter.textPos && res.diffuseIndex == inter.diffuseIndex && res.normalMapIndex == inter.normalMapIndex
      ensures hit ==>
        Det(v0, v1, v2, dir) != 0.0 &&
        var (t, u, v) := Solve(v0, v1, v2, orig, dir);
        res == inter.(intersected := true, obj := self, t := t, pos := RayAt(orig, dir, t), mtlcolor := mtlcolor,
                      Ng := Normalized(FaceCross(), crossNorm), Ns := Normalized(FaceCross(), crossNorm),
                      textPos := if isTextureActivated then BlendUV(uv0, uv1, uv2, 1.0 - u - v, u, v) else inter.textPos,
                      diffuseIndex := if isTextureActivated then textureIndex else inter.diffuseIndex,
                      normalMapIndex := if isTextureActivated then normalMapIndex else inter.normalMapIndex)
    {
      res := inter;
      var normal := Normalized(FaceCross(), crossNorm);
      NormalizedDotSign(FaceCross(), crossNorm, dir);
      if Dot(dir, normal) == 0.0 {
        return false, res;
      }
      if Det(v0, v1, v2, dir) == 0.0 {
        return false, res;
      }
      var (t, u, v) := Solve(v0, v1, v2, orig, dir);
      if Accepts(t, u, v) {
        MollerTrumboreSound(v0, v1, v2, orig, dir);
        BlendInsideBox(TriangleBound(v0, v1, v2), v0, v1, v2, 1.0 - u - v, u, v);
        Norm2ZeroIffZero(FaceCross());
        res := res.(intersected := true, obj := self, t := t, pos := RayAt(orig, dir, t), mtlcolor := mtlcolor,
                    Ng := normal, Ns := normal);
        if isTextureActivated {
          res := res.(textPos := BlendUV(uv0, uv1, uv2, 1.0 - u - v, u, v), diffuseIndex := textureIndex,
                      normalMapIndex := normalMapIndex);
        }
        return true, res;
      }
      return false, res;
    }

    /**
     * `samplePoint(inter, pdf)`. `r1` and `r2` are the two random numbers in
     * `[0, 1)`; `u = r1` and `v = r2 (1 - u)` give non-negative weights
     * `(1-u-v, u, v)` summing to one, so the sample lies on the triangle. The pdf
     * is the reciprocal of the area.
     */
    method SamplePoint(self: int, inter: Intersection, r1: real, r2: real, crossNorm: real, unit: Vector3f -> Vector3f)
      returns (res: Intersection, pdf: real)
      requires 0.0 <= r1 < 1.0 && 0.0 <= r2 < 1.0
      requires crossNorm > 0.0 && crossNorm * crossNorm == Norm2(FaceCross())
      ensures pdf > 0.0 && pdf * GetArea(crossNorm) == 1.0
      ensures exists w0: real, u: real, v: real :: ConvexWeights(w0, u, v) && res.pos == Blend(v0, v1, v2, w0, u, v)
      ensures ContainsPoint(TriangleBound(v0, v1, v2), res.pos)
      ensures res.intersected && res.obj == self && res.mtlcolor == mtlcolor && res.Ns == res.Ng
      ensures !isTextureActivated ==> res == inter.(pos := res.pos, Ng := res.Ng, Ns := res.Ns, intersected := true,
                                                    mtlcolor := mtlcolor, obj := self)
      ensures isTextureActivated ==> res.normalMapIndex == normalMapIndex && res.diffuseIndex == textureIndex
      ensures isTextureActivated ==>
        var u, v := r1, r2 * (1.0 - r1);
        res == inter.(pos := res.pos, Ng := res.Ng, Ns := res.Ns, intersected := true, mtlcolor := mtlcolor, obj := self,
                      normalMapIndex := normalMapIndex, textPos := BlendUV(uv0, uv1, uv2, 1.0 - u - v, u, v),
                      diffuseIndex := textureIndex)
    {
      var u := r1;
      var v := r2 * (1.0 - u);
      SampleOnTriangle(v0, v1, v2, r1, r2);
      var pos := Blend(v0, v1, v2, 1.0 - u - v, u, v);
      var n := unit(Add(Add(Scale(n0, 1.0 - u - v), Scale(n1, u)), Scale(n2, v)));
      res := inter.(pos := pos, Ng := n, Ns := n, intersected := true, mtlcolor := mtlcolor, obj := self);
      var area := GetArea(crossNorm);
      pdf := 1.0 / area;
      Reciprocal(area);
      if isTextureActivated {
        res := res.(normalMapIndex := normalMapIndex, textPos := BlendUV(uv0, uv1, uv2, 1.0 - u - v, u, v),
                    diffuseIndex := textureIndex);
      }
      assert ConvexWeights(1.0 - u - v, u, v) && res.pos == Blend(v0, v1, v2, 1.0 - u - v, u, v);
    }
  }

  /**
   * The weights `(1-u-v, u, v)` with `u = r1` and `v = r2 (1 - u)`, for `r1`
   * and `r2` in `[0, 1)`, are convex, so the sampled point lies in the
   * triangle's bound.
   */
  lemma SampleOnTriangle(v0: Vector3f, v1: Vector3f, v2: Vector3f, r1: real, r2: real)
    requires 0.0 <= r1 < 1.0 && 0.0 <= r2 < 1.0
    ensures var u, v := r1, r2 * (1.0 - r1);
      ConvexWeights(1.0 - u - v, u, v) && ContainsPoint(TriangleBound(v0, v1, v2), Blend(v0, v1, v2, 1.0 - u - v, u, v))
  {
    var u, v := r1, r2 * (1.0 - r1);
    ProductNonNeg(r2, 1.0 - u);
    ProductNonNeg(1.0 - r2, 1.0 - u);
    assert 1.0 - u - v == (1.0 - r2) * (1.0 - u);
    BlendInsideBox(TriangleBound(v0, v1, v2), v0, v1, v2, 1.0 - u - v, u, v);
  }

  /**
   * `getBarycentric` recovers the weights of a point on the triangle's plane:
   * for `p = v0 + b e1 + g e2` of a non-degenerate triangle, the computed
   * `beta` and `gamma` are `b` and `g`.
   */
  lemma BarycentricRoundTrip(v0: Vector3f, v1: Vector3f, v2: Vector3f, b: real, g: real, beta: real, gamma: real)
    requires var e1, e2 := Sub(v1, v0), Sub(v2, v0); Dot(e1, e1) * Dot(e2, e2) - Dot(e1, e2) * Dot(e1, e2) != 0.0
    requires var e1, e2, ep := Sub(v1, v0), Sub(v2, v0), Sub(Add(v0, Add(Scale(Sub(v1, v0), b), Scale(Sub(v2, v0), g))), v0);
      Dot(e1, Add(Scale(e1, beta), Scale(e2, gamma))) == Dot(e1, ep) && Dot(e2, Add(Scale(e1, beta), Scale(e2, gamma))) == Dot(e2, ep)
    ensures beta == b && gamma == g
  {
    var e1, e2 := Sub(v1, v0), Sub(v2, v0);
    var ep := Sub(Add(v0, Add(Scale(e1, b), Scale(e2, g))), v0);
    assert ep == Add(Scale(e1, b), Scale(e2, g));
    DotBlend(e1, e1, e2, beta, gamma);
    DotBlend(e2, e1, e2, beta, gamma);
    DotBlend(e1, e1, e2, b, g);
    DotBlend(e2, e1, e2, b, g);
    assert Dot(e1, e2) == Dot(e2, e1);
    NormalEquationsUnique(Dot(e1, e1), Dot(e1, e2), Dot(e2, e2), beta, gamma, b, g);
  }
}
