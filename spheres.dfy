/**
 * The sphere of include/Sphere.hpp. `intersect` solves the ray/sphere
 * quadratic with `A = 1` (the ray direction is taken to be unit length) and
 * keeps the nearest root in front of the origin; `samplePoint` picks a point
 * on the surface and reports the pdf `1 / getArea()`.
 *
 * `normalized`, `acos` and `atan2` are outside the real-number model: the
 * methods receive `unit` (the normalisation of a vector) and `angles` (the
 * pair `(acos(n.z), atan2(n.y, n.x))`) as uninterpreted functions.
 */
module Spheres {
  import opened Vectors
  import opened Globals
  import opened Wrappers
  import opened Materials
  import opened Intersections
  import opened Bounds

  /**
   * Root selection of `intersect`, given the roots `t1 <= t2` from
   * `solveQuadratic`: no real root misses; a (near-)double root counts when it
   * is not behind the origin; of two distinct roots the nearer one in front of
   * the origin is taken, and an exact zero root is rejected.
   */
  function SelectRoot(t1: real, t2: real): (r: Option<real>)
    ensures r.Some? ==> r.value >= 0.0 && (r.value == t1 || r.value == t2)
    ensures r.Some? && r.value == 0.0 ==> FloatEqual(t1, t2)
  {
    if FloatEqual(t1, FLT_MAX) && FloatEqual(t2, FLT_MAX) then None
    else if FloatEqual(t1, t2) then
      if t1 < 0.0 then None else Some(t1)
    else if t1 > 0.0 && t2 > 0.0 then Some(t1)
    else if t1 > 0.0 && t2 < 0.0 then Some(t1)
    else if t1 < 0.0 && t2 > 0.0 then Some(t2)
    else None
  }

  /**
   * For ordered roots, the selected root is the nearest one that is not behind
   * the origin; two distinct roots hit exactly when the farther one is in
   * front and the nearer one is not exactly zero.
   */
  lemma SelectRootNearest(t1: real, t2: real)
    requires t1 <= t2
    requires !(FloatEqual(t1, FLT_MAX) && FloatEqual(t2, FLT_MAX))
    ensures SelectRoot(t1, t2).Some? ==> SelectRoot(t1, t2).value == (if t1 >= 0.0 then t1 else t2)
    ensures FloatEqual(t1, t2) ==> (SelectRoot(t1, t2).Some? <==> t1 >= 0.0)
    ensures !FloatEqual(t1, t2) ==> (SelectRoot(t1, t2).Some? <==> t2 > 0.0 && t1 != 0.0)
  {
  }

  /** Both roots at `FLT_MAX` (no real root) never hit. */
  lemma SelectRootMiss()
    ensures SelectRoot(FLT_MAX, FLT_MAX) == None
  {
  }

  /** `B` of the ray/sphere quadratic: twice `dir . (orig - center)`. */
  function CoefB(center: Vector3f, orig: Vector3f, dir: Vector3f): real
  {
    2.0 * (dir.x * (orig.x - center.x) + dir.y * (orig.y - center.y) + dir.z * (orig.z - center.z))
  }

  /** `C` of the ray/sphere quadratic: `|orig - center|^2 - r^2`. */
  function CoefC(center: Vector3f, radius: real, orig: Vector3f): real
  {
    (orig.x - center.x) * (orig.x - center.x) + (orig.y - center.y) * (orig.y - center.y)
      + (orig.z - center.z) * (orig.z - center.z) - radius * radius
  }

  /** The roots of `t^2 + B t + C` in increasing order, or `FLT_MAX` twice when there is none. */
  function SortedRoots(B: real, C: real, sqrtDisc: real): (real, real)
  {
    if B * B - 4.0 * 1.0 * C < 0.0 then (FLT_MAX, FLT_MAX)
    else (Min((-B + sqrtDisc) / 2.0, (-B - sqrtDisc) / 2.0), Max((-B + sqrtDisc) / 2.0, (-B - sqrtDisc) / 2.0))
  }

  /** An ordered pair holding the same two values as `{a, b}` is `(min, max)`. */
  lemma OrderedPair(t1: real, t2: real, a: real, b: real)
    requires t1 <= t2 && multiset{t1, t2} == multiset{a, b}
    ensures t1 == Min(a, b) && t2 == Max(a, b)
  {
    assert t1 in multiset{a, b} && t2 in multiset{a, b};
    assert a in multiset{t1, t2} && b in multiset{t1, t2};
  }

  /** One coordinate of `|o + t d - c|^2` expanded. */
  lemma ExpandSquare(o: real, c: real, d: real, t: real)
    ensures (o + d * t - c) * (o + d * t - c) == (o - c) * (o - c) + 2.0 * t * (d * (o - c)) + t * t * (d * d)
  {
  }

  /**
   * A root of the quadratic with a unit-length direction lies on the sphere:
   * `|orig + t dir - center|^2 = r^2`.
   */
  lemma RootOnSphere(center: Vector3f, radius: real, orig: Vector3f, dir: Vector3f, t: real)
    requires Norm2(dir) == 1.0
    requires 1.0 * t * t + CoefB(center, orig, dir) * t + CoefC(center, radius, orig) == 0.0
    ensures Norm2(Sub(RayAt(orig, dir, t), center)) == radius * radius
  {
    ExpandSquare(orig.x, center.x, dir.x, t);
    ExpandSquare(orig.y, center.y, dir.y, t);
    ExpandSquare(orig.z, center.z, dir.z, t);
  }

  /** The box of `initializeBound`: the center plus and minus the radius on every axis. */
  function SphereBound(center: Vector3f, radius: real): (b: BoundBox)
    ensures radius >= 0.0 ==> b == BoundBox(Sub(center, Broadcast(radius)), Add(center, Broadcast(radius)))
    ensures WellFormed(b) && ContainsPoint(b, center)
  {
    FromPoints(Sub(center, Broadcast(radius)), Add(center, Broadcast(radius)))
  }

  /** If `a^2 <= r^2` with `r >= 0` then `-r <= a <= r`. */
  lemma SquareBound(a: real, r: real)
    requires r >= 0.0
    ensures a * a <= r * r ==> -r <= a <= r
  {
    if a > r {
      assert a * a > r * r by {
        assert a * a - r * r == (a - r) * (a + r);
        assert a - r > 0.0 && a + r > 0.0;
      }
    } else if a < -r {
      assert a * a > r * r by {
        assert a * a - r * r == (-a - r) * (-a + r);
        assert -a - r > 0.0 && -a + r > 0.0;
      }
    }
  }

  /** The bound of a sphere holds every point of the ball. */
  lemma BallInsideBound(center: Vector3f, radius: real, p: Vector3f)
    requires radius >= 0.0 && Norm2(Sub(p, center)) <= radius * radius
    ensures ContainsPoint(SphereBound(center, radius), p)
  {
    var d := Sub(p, center);
    SquareSign(d.x);
    SquareSign(d.y);
    SquareSign(d.z);
    SquareBound(d.x, radius);
    SquareBound(d.y, radius);
    SquareBound(d.z, radius);
  }

  /**
   * The texture coordinates of a sphere hit from the polar angle `phi` and the
   * azimuth `theta`: a negative azimuth is moved up by a full turn, then
   * `u = theta / 2pi` and `v = phi / pi`.
   */
  function SphereUV(phi: real, theta: real): (r: Vector2f)
    ensures 0.0 <= phi <= M_PI ==> 0.0 <= r.y <= 1.0
    ensures -M_PI <= theta <= M_PI ==> 0.0 <= r.x <= 1.0
  {
    var th := if theta < 0.0 then theta + 2.0 * M_PI else theta;
    Vector2f(th / (2.0 * M_PI), phi / M_PI)
  }

  class Sphere {
    var centerPos: Vector3f
    var radius: real
    var mtlcolor: Material
    var isLight: bool
    var isTextureActivated: bool
    var textureIndex: int
    var normalMapIndex: int
    // Assigned by the scene reader (include/PPMGenerator.hpp:403, 408), though
    // include/Object.hpp in this revision does not declare them.
    var roughnessMapIndex: int
    var metallicMapIndex: int
    var bound: BoundBox

    /** `Sphere()`: the unit sphere at the origin. */
    constructor ()
      ensures centerPos == Zero() && radius == 1.0
      ensures mtlcolor == DefaultMaterial() && !isLight && !isTextureActivated
      ensures textureIndex == -1 && normalMapIndex == -1 && bound == DefaultBox()
      ensures roughnessMapIndex == -1 && metallicMapIndex == -1
    {
      centerPos := Zero();
      radius := 1.0;
      mtlcolor := DefaultMaterial();
      isLight := false;
      isTextureActivated := false;
      textureIndex := -1;
      normalMapIndex := -1;
      roughnessMapIndex := -1;
      metallicMapIndex := -1;
      bound := DefaultBox();
    }

    /** `Sphere(x, y, z, r)`. */
    constructor At(x: real, y: real, z: real, r: real)
      ensures centerPos == Vector3f(x, y, z) && radius == r
      ensures mtlcolor == DefaultMaterial() && !isLight && !isTextureActivated
      ensures textureIndex == -1 && normalMapIndex == -1 && bound == DefaultBox()
      ensures roughnessMapIndex == -1 && metallicMapIndex == -1
    {
      centerPos := Vector3f(x, y, z);
      radius := r;
      mtlcolor := DefaultMaterial();
      isLight := false;
      isTextureActivated := false;
      textureIndex := -1;
      normalMapIndex := -1;
      roughnessMapIndex := -1;
      metallicMapIndex := -1;
      bound := DefaultBox();
    }

    /** `initializeBound`: sets `bound` to the sphere's box and nothing else. */
    method InitializeBound()
      modifies this`bound
      ensures bound == SphereBound(centerPos, radius)
    {
      bound := SphereBound(centerPos, radius);
    }

    /** `getArea`: `r * r * M_PI` as written (the area of a disk, not of a sphere's surface). */
    function GetArea(): (a: real)
      reads this
      ensures a >= 0.0
      ensures a == 0.0 <==> radius == 0.0
    {
      SquareSign(radius);
      ProductSign(M_PI, radius * radius);
      radius * radius * M_PI
    }

    /**
     * `intersect(orig, dir, inter)` for the sphere at scene index `self`.
     * `sqrtDisc` is the square root of the discriminant. A miss leaves `inter`
     * with only `intersected` cleared; a hit takes the root chosen by
     * `SelectRoot`, which solves the quadratic and so lies on the sphere when
     * `dir` is unit length. The source stores the normal in `nDir` and the
     * texture index in `textureIndex`, neither of which `Intersection`
     * declares. As for triangles, the normal is read as both `Ng` and `Ns`;
     * the index is read as `diffuseIndex`, the field `Triangle::intersect`
     * writes in the same place.
     */
    method Intersect(self: int, orig: Vector3f, dir: Vector3f, inter: Intersection, sqrtDisc: real,
                     unit: Vector3f -> Vector3f, angles: Vector3f -> (real, real))
      returns (hit: bool, res: Intersection)
      requires var B, C := CoefB(centerPos, orig, dir), CoefC(centerPos, radius, orig);
        B * B - 4.0 * 1.0 * C >= 0.0 ==> sqrtDisc >= 0.0 && sqrtDisc * sqrtDisc == B * B - 4.0 * 1.0 * C
      ensures var roots := SortedRoots(CoefB(centerPos, orig, dir), CoefC(centerPos, radius, orig), sqrtDisc);
        (hit <==> SelectRoot(roots.0, roots.1).Some?) && (hit ==> res.t == SelectRoot(roots.0, roots.1).value)
      ensures hit == res.intersected
      ensures !hit ==> res == inter.(intersected := false)
      ensures hit ==> res.t >= 0.0 && res.pos == RayAt(orig, dir, res.t) && res.obj == self
      ensures hit ==> res.mtlcolor == mtlcolor && res.Ng == unit(Sub(res.pos, centerPos)) && res.Ns == res.Ng
      ensures hit ==> res.t * res.t + CoefB(centerPos, orig, dir) * res.t + CoefC(centerPos, radius, orig) == 0.0
      ensures hit && Norm2(dir) == 1.0 ==> Norm2(Sub(res.pos, centerPos)) == radius * radius
      ensures hit && isTextureActivated ==>
        res.textPos == SphereUV(angles(res.Ng).0, angles(res.Ng).1)
        && res.diffuseIndex == textureIndex && res.normalMapIndex == normalMapIndex
      ensures hit && !isTextureActivated ==>
        res.textPos == inter.textPos && res.diffuseIndex == inter.diffuseIndex && res.normalMapIndex == inter.normalMapIndex
      ensures hit ==>
        res == inter.(t := res.t, intersected := true, obj := self, mtlcolor := mtlcolor, pos := res.pos,
                      Ng := res.Ng, Ns := res.Ng,
                      textPos := if isTextureActivated then SphereUV(angles(res.Ng).0, angles(res.Ng).1) else inter.textPos,
                      diffuseIndex := if isTextureActivated then textureIndex else inter.diffuseIndex,
                      normalMapIndex := if isTextureActivated then normalMapIndex else inter.normalMapIndex)
    {
      var B := CoefB(centerPos, orig, dir);
      var C := CoefC(centerPos, radius, orig);
      var t1, t2 := SolveQuadratic(1.0, B, C, sqrtDisc);
      if B * B - 4.0 * 1.0 * C >= 0.0 {
        OrderedPair(t1, t2, (-B + sqrtDisc) / (2.0 * 1.0), (-B - sqrtDisc) / (2.0 * 1.0));
      }
      assert (t1, t2) == SortedRoots(B, C, sqrtDisc);
      res := inter.(intersected := false);
      var chosen := SelectRoot(t1, t2);
      if chosen.None? {
        hit := false;
        return;
      }
      var t := chosen.value;
      assert B * B - 4.0 * 1.0 * C >= 0.0;
      var pos := RayAt(orig, dir, t);
      var n := unit(Sub(pos, centerPos));
      res := res.(t := t, intersected := true, obj := self, mtlcolor := mtlcolor, pos := pos, Ng := n, Ns := n);
      if isTextureActivated {
        var (phi, theta) := angles(n);
        res := res.(textPos := SphereUV(phi, theta), diffuseIndex := textureIndex, normalMapIndex := normalMapIndex);
      }
      hit := true;
      if Norm2(dir) == 1.0 {
        RootOnSphere(centerPos, radius, orig, dir, t);
      }
    }

    /**
     * `samplePoint(inter, pdf)`. `w` is the direction
     * `(cos theta sin phi, sin theta sin phi, cos phi)` of the two random
     * angles, a unit vector. The point lands on the sphere and the pdf is the
     * reciprocal of `getArea()`; texture fields are left as they were. The
     * normal the source stores in the undeclared `nDir` is read as both `Ng`
     * and `Ns`.
     */
    method SamplePoint(self: int, inter: Intersection, w: Vector3f, unit: Vector3f -> Vector3f)
      returns (res: Intersection, pdf: real)
      requires Norm2(w) == 1.0
      requires radius != 0.0
      ensures pdf > 0.0 && pdf * GetArea() == 1.0
      ensures res.pos == Add(centerPos, Scale(w, radius))
      ensures Norm2(Sub(res.pos, centerPos)) == radius * radius
      ensures res.intersected && res.obj == self && res.mtlcolor == mtlcolor
      ensures res.Ng == unit(Sub(res.pos, centerPos)) && res.Ns == res.Ng
      ensures res == inter.(pos := res.pos, Ng := res.Ng, Ns := res.Ns, intersected := true, mtlcolor := mtlcolor, obj := self)
    {
      var pos := Vector3f(centerPos.x + radius * w.x, centerPos.y + radius * w.y, centerPos.z + radius * w.z);
      var n := unit(Sub(pos, centerPos));
      res := inter.(pos := pos, Ng := n, Ns := n, intersected := true, mtlcolor := mtlcolor, obj := self);
      assert Sub(pos, centerPos) == Scale(w, radius);
      ScaleNorm2(w, radius);
      var area := GetArea();
      pdf := 1.0 / area;
    }
  }
}
