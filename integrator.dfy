/**
 * The helpers every integrator of include/IIntegrator.hpp shares: the list
 * of emissive objects, the density of picking a point on a light
 * (`getLightPdf`), light-point sampling (`sampleLight`), the
 * cosine-weighted emission direction (`sampleLightDir`), the geometry term
 * `Geo` and the camera importance `We`.
 *
 * The scene is the sequence of `SceneObject` summaries, indexed as the
 * scene's object list; an object pointer is its index. The source builds
 * the light list once, into a function-local static under a lock; here it
 * is built by `BuildLightList` and passed to the functions that use it.
 * The random number, the point an object's `samplePoint` returns, the
 * direction `SphereLocal2world` returns, the square root behind
 * `normalized` and the camera projection are parameters.
 */
module Integrators {
  import opened Vectors
  import opened Globals
  import opened Materials
  import opened SceneObjects
  import opened Intersections
  import opened Cameras

  // ---------------------------------------------------------------------
  // The light list

  /** An object is a light when its material emits. */
  predicate IsLight(o: SceneObject)
  {
    HasEmission(o.mtlcolor)
  }

  /** The indices below `n` of the emissive objects, in scene order. */
  function LightsIn(objs: seq<SceneObject>, n: nat): seq<int>
    requires n <= |objs|
  {
    if n == 0 then []
    else LightsIn(objs, n - 1) + (if IsLight(objs[n - 1]) then [n - 1] else [])
  }

  /** The light list of a scene: all its emissive objects, in scene order. */
  function LightList(objs: seq<SceneObject>): seq<int>
  {
    LightsIn(objs, |objs|)
  }

  /** Every entry of `ids` indexes `objs`. */
  predicate ValidIndices(objs: seq<SceneObject>, ids: seq<int>)
  {
    forall i :: 0 <= i < |ids| ==> 0 <= ids[i] < |objs|
  }

  /**
   * The light list holds exactly the emissive objects below `n`: every entry
   * is emissive, the entries are strictly increasing (so each object appears
   * once, in scene order), and every emissive object is listed.
   */
  lemma {:induction false} LightsInExact(objs: seq<SceneObject>, n: nat)
    requires n <= |objs|
    ensures forall i :: 0 <= i < |LightsIn(objs, n)| ==>
      0 <= LightsIn(objs, n)[i] < n && IsLight(objs[LightsIn(objs, n)[i]])
    ensures forall i, j :: 0 <= i < j < |LightsIn(objs, n)| ==> LightsIn(objs, n)[i] < LightsIn(objs, n)[j]
    ensures forall o :: 0 <= o < n && IsLight(objs[o]) ==> o in LightsIn(objs, n)
  {
    if n > 0 {
      LightsInExact(objs, n - 1);
      var prev := LightsIn(objs, n - 1);
      var l := LightsIn(objs, n);
      if !IsLight(objs[n - 1]) {
        assert l == prev;
      } else {
        assert l == prev + [n - 1];
        forall i | 0 <= i < |l|
          ensures 0 <= l[i] < n && IsLight(objs[l[i]])
        {
          if i < |prev| {
            assert l[i] == prev[i];
          } else {
            assert l[i] == n - 1;
          }
        }
        forall i, j | 0 <= i < j < |l|
          ensures l[i] < l[j]
        {
          assert l[i] == prev[i];
          if j < |prev| {
            assert l[j] == prev[j];
          } else {
            assert l[j] == n - 1;
          }
        }
        forall o | 0 <= o < n && IsLight(objs[o])
          ensures o in l
        {
          if o < n - 1 {
            var k :| 0 <= k < |prev| && prev[k] == o;
            assert l[k] == o;
          } else {
            assert l[|l| - 1] == o;
          }
        }
      }
    }
  }

  /** Every entry of the light list is an emissive object of the scene. */
  lemma LightListValid(objs: seq<SceneObject>)
    ensures ValidIndices(objs, LightList(objs))
    ensures forall i :: 0 <= i < |LightList(objs)| ==> IsLight(objs[LightList(objs)[i]])
  {
    LightsInExact(objs, |objs|);
  }

  /** The sum of the areas of the listed objects. */
  function AreaSum(objs: seq<SceneObject>, ids: seq<int>): real
    requires ValidIndices(objs, ids)
  {
    if |ids| == 0 then 0.0
    else AreaSum(objs, ids[..|ids| - 1]) + objs[ids[|ids| - 1]].area
  }

  /**
   * The first-call loop of `getLightPdf` and `sampleLight`: every emissive
   * object of the scene, in order, goes into the light list and its area
   * into `totalArea`.
   */
  method BuildLightList(objs: seq<SceneObject>) returns (lightList: seq<int>, totalArea: real)
    ensures lightList == LightList(objs) && ValidIndices(objs, lightList)
    ensures totalArea == AreaSum(objs, lightList)
  {
    lightList, totalArea := [], 0.0;
    for i := 0 to |objs|
      invariant lightList == LightsIn(objs, i) && ValidIndices(objs, lightList)
      invariant totalArea == AreaSum(objs, lightList)
    {
      LightsInExact(objs, i);
      if IsLight(objs[i]) {
        var next := lightList + [i];
        assert next[..|next| - 1] == lightList;
        lightList := next;
        totalArea := totalArea + objs[i].area;
      }
    }
  }

  // ---------------------------------------------------------------------
  // Picking a light

  /**
   * `getLightPdf(inter)`: 0 when the point is not on a surface, when the
   * scene has no light, or when the object hit does not emit; otherwise
   * `1 / (numLights * area)`, the chance of picking that light times the
   * density of a point on its surface.
   */
  function GetLightPdf(inter: Intersection, objs: seq<SceneObject>, lights: seq<int>): (r: real)
    requires inter.intersected && |lights| > 0 ==> 0 <= inter.obj < |objs|
    ensures !inter.intersected || |lights| == 0 || !IsLight(objs[inter.obj]) ==> r == 0.0
    ensures inter.intersected && |lights| > 0 && IsLight(objs[inter.obj]) && objs[inter.obj].area > 0.0 ==>
      r > 0.0 && r * (|lights| as real * objs[inter.obj].area) == 1.0
  {
    if !inter.intersected then 0.0
    else if |lights| == 0 then 0.0
    else if !IsLight(objs[inter.obj]) then 0.0
    else PickDensity(|lights|, objs[inter.obj].area)
  }

  /** `1 / (size * area)`, positive and the reciprocal of `size * area` when the area is. */
  function PickDensity(size: nat, area: real): (r: real)
    requires size > 0
    ensures area > 0.0 ==> r > 0.0 && r * (size as real * area) == 1.0
  {
    var denom := size as real * area;
    if area > 0.0 then
      assert denom > 0.0 by { ProductSign(size as real, area); }
      Reciprocal(denom);
      Quotient(1.0, denom)
    else Quotient(1.0, denom)
  }

  /**
   * The light `sampleLight` picks for the random number `r` in `[0, 1)`:
   * `(int)(r * (size - 1) + 0.4999)`, or 0 when there is one light. It is an
   * index of the light list.
   */
  function PickIndex(r: real, size: int): (i: int)
    requires 0.0 <= r < 1.0 && size >= 1
    ensures 0 <= i < size
    ensures size == 1 ==> i == 0
  {
    var x := r * (size - 1) as real + 0.4999;
    assert 0.0 <= r * (size - 1) as real <= (size - 1) as real by {
      ScaleBelow(r, (size - 1) as real);
    }
    var index := Trunc(x);
    if size == 1 then 0 else index
  }

  /** A fraction in `[0, 1)` of a non-negative number is between 0 and it. */
  lemma ScaleBelow(r: real, n: real)
    requires 0.0 <= r < 1.0 && n >= 0.0
    ensures 0.0 <= r * n <= n
  {
  }

  /**
   * The pick is not uniform. With three lights, `(int)(2r + 0.4999)` is 1
   * for every `r` in `[0.2501, 0.75)`, half of the unit interval, and 0 only
   * below `0.25005`, while the density charges each light `1/3`.
   */
  lemma PickFavoursMiddle(r: real)
    requires 0.0 <= r < 1.0
    ensures 0.2501 <= r < 0.75 ==> PickIndex(r, 3) == 1
    ensures r < 0.25 ==> PickIndex(r, 3) == 0
  {
    var x := r * 2.0 + 0.4999;
    if 0.2501 <= r < 0.75 {
      assert 1.0 <= x < 2.0;
    } else if r < 0.25 {
      assert 0.0 <= x < 1.0;
    }
  }

  /** The density `sampleLight` reports for the random number `r`: `1 / (size * area)` of the light picked. */
  function LightPickPdf(objs: seq<SceneObject>, lights: seq<int>, r: real): real
    requires 0.0 <= r < 1.0 && |lights| > 0 && ValidIndices(objs, lights)
  {
    PickDensity(|lights|, objs[lights[PickIndex(r, |lights|)]].area)
  }

  /**
   * The point and density `sampleLight` produces: `inter` marked not
   * intersected with density 0 when there is no light, otherwise the point
   * the picked light samples with density `LightPickPdf`.
   */
  function SampledLight(objs: seq<SceneObject>, lights: seq<int>, r: real, inter: Intersection,
                        samplePoint: (int, Intersection) -> Intersection): (Intersection, real)
    requires 0.0 <= r < 1.0 && ValidIndices(objs, lights)
  {
    if |lights| == 0 then (inter.(intersected := false), 0.0)
    else (samplePoint(lights[PickIndex(r, |lights|)], inter), LightPickPdf(objs, lights, r))
  }

  /**
   * `sampleLight(inter, pdf)`: with no light, the intersection is marked not
   * intersected and the density is 0. Otherwise the light at `PickIndex`
   * samples a point on its surface (`samplePoint`, whose own density is
   * discarded) and the density becomes `1 / (numLights * area)`.
   */
  method SampleLight(objs: seq<SceneObject>, lights: seq<int>, r: real, inter: Intersection,
                     samplePoint: (int, Intersection) -> Intersection)
    returns (res: Intersection, pdf: real)
    requires 0.0 <= r < 1.0 && ValidIndices(objs, lights)
    ensures |lights| == 0 ==> res == inter.(intersected := false) && pdf == 0.0
    ensures |lights| > 0 ==> res == samplePoint(lights[PickIndex(r, |lights|)], inter)
    ensures |lights| > 0 ==> pdf == LightPickPdf(objs, lights, r)
    ensures (res, pdf) == SampledLight(objs, lights, r, inter, samplePoint)
  {
    var size := |lights|;
    if size == 0 {
      res := inter.(intersected := false);
      pdf := 0.0;
      return;
    }
    var index := PickIndex(r, size);
    var lightObject := lights[index];
    res := samplePoint(lightObject, inter);
    pdf := PickDensity(size, objs[lightObject].area);
  }

  /**
   * The density `sampleLight` reports is the one `getLightPdf` gives the
   * sampled point: a point `p` on the picked light (intersected, and its
   * object the light) has `getLightPdf(p)` equal to it, and it is
   * `1 / (numLights * area)` when the light has an area.
   */
  lemma SampleLightPdfMatches(objs: seq<SceneObject>, r: real, p: Intersection)
    requires 0.0 <= r < 1.0 && |LightList(objs)| > 0
    requires p.intersected && p.obj == LightList(objs)[PickIndex(r, |LightList(objs)|)]
    ensures ValidIndices(objs, LightList(objs))
    ensures GetLightPdf(p, objs, LightList(objs)) == LightPickPdf(objs, LightList(objs), r)
    ensures objs[p.obj].area > 0.0 ==> LightPickPdf(objs, LightList(objs), r) * (|LightList(objs)| as real * objs[p.obj].area) == 1.0
  {
    LightListValid(objs);
  }

  // ---------------------------------------------------------------------
  // Emission direction

  /**
   * `sampleLightDir(N, dirPdf, sampledRes)` for the direction `res` that
   * `SphereLocal2world` gives the cosine-weighted sample: rejected (false,
   * the reference outputs `dirPdf0` and `sampled0` untouched) when
   * `normalized(res)` points below the normal; otherwise accepted with
   * `sampledRes = res` and `dirPdf = res.N / pi` when that is positive, 0
   * when not.
   */
  function SampleLightDir(N: Vector3f, res: Vector3f, sqrt: real -> real, dirPdf0: real, sampled0: Vector3f)
    : (r: (bool, real, Vector3f))
    ensures !r.0 ==> r.1 == dirPdf0 && r.2 == sampled0
    ensures r.0 ==> r.2 == res && r.1 >= 0.0 && (r.1 > 0.0 <==> Dot(res, N) > 0.0)
    ensures r.0 && Dot(res, N) > 0.0 ==> r.1 * M_PI == Dot(res, N)
  {
    if Dot(Unit(res, sqrt), N) < 0.0 then (false, dirPdf0, sampled0)
    else
      var dirPdf := if Dot(res, N) > 0.0 then Dot(res, N) / M_PI else 0.0;
      (true, dirPdf, res)
  }

  /** With a true square root, `sampleLightDir` rejects exactly the directions below the normal. */
  lemma SampleLightDirRejectsBelow(N: Vector3f, res: Vector3f, sqrt: real -> real, dirPdf0: real, sampled0: Vector3f)
    requires IsSqrt(sqrt)
    ensures !SampleLightDir(N, res, sqrt, dirPdf0, sampled0).0 <==> Dot(res, N) < 0.0
  {
    var m := sqrt(Norm2(res));
    UnitIsNormalized(res, sqrt, m);
    NormalizedDotSign(res, m, N);
  }

  /**
   * An accepted emission direction has the density a LAMBERTIAN material's
   * `pdf` gives it: emission is sampled like diffuse reflection.
   */
  lemma SampleLightDirIsLambertian(N: Vector3f, res: Vector3f, sqrt: real -> real, dirPdf0: real, sampled0: Vector3f,
                                   m: Material, wo: Vector3f, fresnelF: real, microfacetPdf: real)
    requires m.mType == LAMBERTIAN
    requires SampleLightDir(N, res, sqrt, dirPdf0, sampled0).0
    ensures SampleLightDir(N, res, sqrt, dirPdf0, sampled0).1 == Pdf(m, res, wo, N, fresnelF, microfacetPdf)
  {
    var dirPdf := SampleLightDir(N, res, sqrt, dirPdf0, sampled0).1;
    var p := Pdf(m, res, wo, N, fresnelF, microfacetPdf);
    if Dot(res, N) > 0.0 {
      assert dirPdf * M_PI == p * M_PI;
    }
  }

  // ---------------------------------------------------------------------
  // Geometry term and camera importance

  /**
   * `Geo(p1, n1, p2, n2)`: `|w.n1| * |(-w).n2| / |p2 - p1|^2` with `w` the
   * normalised direction from `p1` to `p2`. It is never negative.
   */
  function Geo(p1: Vector3f, n1: Vector3f, p2: Vector3f, n2: Vector3f, sqrt: real -> real): (r: real)
    ensures r >= 0.0
  {
    var d := Sub(p2, p1);
    var w := Unit(d, sqrt);
    CosineRatio(Abs(Dot(w, n1)), Abs(Dot(Neg(w), n2)), Norm2(d))
  }

  /** `cos * cosprime / dis2` for non-negative cosines and a squared distance. */
  function CosineRatio(c1: real, c2: real, dis2: real): (r: real)
    requires c1 >= 0.0 && c2 >= 0.0 && dis2 >= 0.0
    ensures r >= 0.0
    ensures dis2 > 0.0 ==> r * dis2 == c1 * c2
  {
    ProductNonNeg(c1, c2);
    var r := Quotient(c1 * c2, dis2);
    if dis2 > 0.0 then
      assert r >= 0.0 by { QuotientSign(c1 * c2, dis2); }
      r
    else r
  }

  /** A non-negative quotient by a positive divisor is non-negative. */
  lemma QuotientSign(a: real, b: real)
    requires a >= 0.0 && b > 0.0
    ensures Quotient(a, b) >= 0.0
  {
  }

  /** Normalising the reversed vector reverses the normalised vector. */
  lemma UnitNeg(v: Vector3f, sqrt: real -> real)
    ensures Unit(Neg(v), sqrt) == Neg(Unit(v, sqrt))
  {
    assert Norm2(Neg(v)) == Norm2(v);
  }

  /** `Geo` is symmetric: swapping the two endpoints (with their normals) leaves it unchanged. */
  lemma GeoSymmetric(p1: Vector3f, n1: Vector3f, p2: Vector3f, n2: Vector3f, sqrt: real -> real)
    ensures Geo(p1, n1, p2, n2, sqrt) == Geo(p2, n2, p1, n1, sqrt)
  {
    var d := Sub(p2, p1);
    var w := Unit(d, sqrt);
    assert Sub(p1, p2) == Neg(d);
    UnitNeg(d, sqrt);
    assert Norm2(Neg(d)) == Norm2(d);
    assert Neg(Neg(w)) == w;
    assert Abs(Dot(Neg(w), n2)) == Abs(Dot(w, n2));
  }

  /**
   * `We(inter, cam)`: 0 for a point outside the frustum (one that maps to no
   * pixel); otherwise `d^2 * lensAreaInv * filmPlaneAreaInv / cos^2`, where
   * `cos = |fwdDir . (-inter2cam)|` and `d = imagePlaneDist / cos` is the
   * distance from the camera to the pixel along the ray. `raster` is the
   * camera projection of `worldPos2PixelIndex`.
   */
  function We(inter: Intersection, cam: Camera, raster: Vector3f -> (real, real), sqrt: real -> real): (r: real)
    reads cam
    ensures cam.WorldPos2PixelIndex(inter.pos, raster) == -1 ==> r == 0.0
    ensures cam.lensAreaInv >= 0.0 && cam.filmPlaneAreaInv >= 0.0 ==> r >= 0.0
  {
    var inter2cam := Unit(Sub(cam.position, inter.pos), sqrt);
    var index := cam.WorldPos2PixelIndex(inter.pos, raster);
    if index < 0 || index >= cam.width * cam.height then 0.0
    else Importance(Abs(Dot(cam.fwdDir, Neg(inter2cam))), cam.imagePlaneDist, cam.lensAreaInv, cam.filmPlaneAreaInv)
  }

  /**
   * The importance of a pixel seen at cosine `cos` from the view direction:
   * `(dist / cos)^2 * lensAreaInv * filmPlaneAreaInv / cos^2`, falling off as
   * `1 / cos^4`.
   */
  function Importance(cos: real, dist: real, lensAreaInv: real, filmPlaneAreaInv: real): (r: real)
    ensures lensAreaInv >= 0.0 && filmPlaneAreaInv >= 0.0 ==> r >= 0.0
    ensures cos != 0.0 ==> r * (cos * cos * cos * cos) == dist * dist * lensAreaInv * filmPlaneAreaInv
  {
    var distPixel2Cam := Quotient(dist, cos);
    var num := distPixel2Cam * distPixel2Cam * lensAreaInv * filmPlaneAreaInv;
    var r := Quotient(num, cos * cos);
    if cos != 0.0 then
      ImportanceFalloff(cos, dist, distPixel2Cam, lensAreaInv * filmPlaneAreaInv, r);
      r
    else r
  }

  /** The algebra of `Importance` for a nonzero cosine. */
  lemma ImportanceFalloff(cos: real, dist: real, d: real, k: real, r: real)
    requires cos != 0.0 && d * cos == dist && r * (cos * cos) == d * d * k
    ensures k >= 0.0 ==> r >= 0.0
    ensures r * (cos * cos * cos * cos) == dist * dist * k
  {
    var c2 := cos * cos;
    SquareSign(cos);
    calc {
      r * (cos * cos * cos * cos);
      (r * c2) * c2;
      d * d * k * c2;
      (d * cos) * (d * cos) * k;
    }
    if k >= 0.0 {
      SquareSign(d);
      ProductNonNeg(d * d, k);
      ProductSign(c2, r);
    }
  }
}
