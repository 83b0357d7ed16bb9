/**
 * The path tracer of include/NaivePT.hpp: a random walk from the camera
 * that counts a sample only when it ends on an emitter (the `s = 0`
 * strategy of bidirectional path tracing), its signed geometry term and
 * importance, and the per-pixel average over `SPP` samples.
 *
 * The sampled directions, shading values, texture lookups and ray casts
 * come from a `Shading` per sample; the pixel centre and the camera
 * projection are parameters.
 */
module NaivePathTracing {
  import opened Wrappers
  import opened Vectors
  import opened Globals
  import opened Materials
  import opened Intersections
  import opened Cameras
  import opened Sampling
  import Integrators
  import SceneReader

  /** The walk's loop runs `t = 1 .. MAXDEPTH - 1`. */
  const MAXDEPTH: nat := 6

  /** `eyePathVert` of NaivePT.hpp: the throughput reaching the vertex and its hit record. */
  datatype EyeVert = EyeVert(throughput: Vector3f, inter: Intersection)

  /** What the walk does after a non-emissive vertex: stop, or go on with a throughput, a direction and the next hit. */
  datatype Step = Stop | Next(tp: Vector3f, wi: Vector3f, hit: Intersection)

  // ---------------------------------------------------------------------
  // Geometry term and importance, with signed cosines

  /**
   * `Geo(p1, n1, p2, n2)` of NaivePT.hpp: `cos * cosprime / dis2` with
   * signed cosines of the normalised direction from `p1` to `p2`.
   */
  function SignedGeo(p1: Vector3f, n1: Vector3f, p2: Vector3f, n2: Vector3f, sqrt: real -> real): real
  {
    var d := Sub(p2, p1);
    var w := Unit(d, sqrt);
    SignedRatio(Dot(w, n1), Dot(Neg(w), n2), Norm2(d))
  }

  /** `cos * cosprime / dis2`. */
  function SignedRatio(cos: real, cosprime: real, dis2: real): real
  {
    Quotient(cos * cosprime, dis2)
  }

  /** The signed geometry term is symmetric in its two endpoints. */
  lemma SignedGeoSymmetric(p1: Vector3f, n1: Vector3f, p2: Vector3f, n2: Vector3f, sqrt: real -> real)
    ensures SignedGeo(p1, n1, p2, n2, sqrt) == SignedGeo(p2, n2, p1, n1, sqrt)
  {
    var d := Sub(p2, p1);
    var w := Unit(d, sqrt);
    assert Sub(p1, p2) == Neg(d);
    Integrators.UnitNeg(d, sqrt);
    assert Norm2(Neg(d)) == Norm2(d);
    assert Neg(Neg(w)) == w;
    assert SignedRatio(Dot(Neg(w), n2), Dot(w, n1), Norm2(d)) == SignedRatio(Dot(w, n1), Dot(Neg(w), n2), Norm2(d));
  }

  /** The absolute-cosine `Geo` of IIntegrator.hpp is the magnitude of the signed one. */
  lemma GeoIsAbsSignedGeo(p1: Vector3f, n1: Vector3f, p2: Vector3f, n2: Vector3f, sqrt: real -> real)
    ensures Integrators.Geo(p1, n1, p2, n2, sqrt) == Abs(SignedGeo(p1, n1, p2, n2, sqrt))
  {
    var d := Sub(p2, p1);
    var w := Unit(d, sqrt);
    var a, b, dis2 := Dot(w, n1), Dot(Neg(w), n2), Norm2(d);
    assert Integrators.Geo(p1, n1, p2, n2, sqrt) == Integrators.CosineRatio(Abs(a), Abs(b), dis2);
    assert SignedGeo(p1, n1, p2, n2, sqrt) == SignedRatio(a, b, dis2);
    Norm2NonNeg(d);
    CosineRatioIsAbs(a, b, dis2);
  }

  /** The ratio of the absolute cosines is the magnitude of the ratio of the signed ones. */
  lemma CosineRatioIsAbs(a: real, b: real, dis2: real)
    requires dis2 >= 0.0
    ensures Integrators.CosineRatio(Abs(a), Abs(b), dis2) == Abs(SignedRatio(a, b, dis2))
  {
    assert Abs(SignedRatio(a, b, dis2)) == Quotient(Abs(a * b), dis2) by {
      AbsQuotient(a * b, dis2);
    }
    assert Abs(a * b) == Abs(a) * Abs(b) by {
      AbsProduct(a, b);
    }
    assert Integrators.CosineRatio(Abs(a), Abs(b), dis2) == Quotient(Abs(a) * Abs(b), dis2);
  }

  /** A squared length is never negative. */
  lemma Norm2NonNeg(v: Vector3f)
    ensures Norm2(v) >= 0.0
  {
    SquareSign(v.x);
    SquareSign(v.y);
    SquareSign(v.z);
  }

  /** `|a * b| == |a| * |b|`. */
  lemma AbsProduct(a: real, b: real)
    ensures Abs(a * b) == Abs(a) * Abs(b)
  {
    if a > 0.0 {
      ProductSign(a, b);
      if b < 0.0 {
        assert Abs(a * b) == a * -b;
      }
    } else if a < 0.0 {
      ProductSign(-a, b);
      if b < 0.0 {
        assert Abs(a * b) == -a * -b;
      } else {
        assert Abs(a * b) == -a * b;
      }
    }
  }

  /** Dividing by a non-negative number commutes with taking the magnitude. */
  lemma AbsQuotient(a: real, b: real)
    requires b >= 0.0
    ensures Abs(Quotient(a, b)) == Quotient(Abs(a), b)
  {
    if b > 0.0 {
      if a < 0.0 {
        assert Quotient(a, b) < 0.0 by { ProductSign(b, Quotient(a, b)); }
        assert Quotient(Abs(a), b) == -Quotient(a, b);
      } else {
        assert Quotient(a, b) >= 0.0 by { ProductSign(b, Quotient(a, b)); }
      }
    }
  }

  /**
   * `We(inter, cam)` of NaivePT.hpp: the importance of IIntegrator.hpp's
   * `We`, but with the signed cosine between the view direction and the
   * direction from the camera to the point.
   */
  function NaiveWe(inter: Intersection, cam: Camera, raster: Vector3f -> (real, real), sqrt: real -> real): (r: real)
    reads cam
    ensures cam.WorldPos2PixelIndex(inter.pos, raster) == -1 ==> r == 0.0
  {
    var inter2cam := Unit(Sub(cam.position, inter.pos), sqrt);
    var index := cam.WorldPos2PixelIndex(inter.pos, raster);
    if index < 0 || index >= cam.width * cam.height then 0.0
    else Integrators.Importance(Dot(cam.fwdDir, Neg(inter2cam)), cam.imagePlaneDist, cam.lensAreaInv, cam.filmPlaneAreaInv)
  }

  /** The importance depends on the cosine only through its square. */
  lemma ImportanceEven(cos: real, dist: real, lens: real, film: real)
    ensures Integrators.Importance(-cos, dist, lens, film) == Integrators.Importance(cos, dist, lens, film)
  {
    if cos != 0.0 {
      assert Quotient(dist, -cos) == -Quotient(dist, cos) by {
        assert -Quotient(dist, cos) * -cos == dist;
      }
      assert (-cos) * (-cos) == cos * cos;
    }
  }

  /** The signed and the absolute-cosine importance agree everywhere. */
  lemma NaiveWeIsWe(inter: Intersection, cam: Camera, raster: Vector3f -> (real, real), sqrt: real -> real)
    ensures NaiveWe(inter, cam, raster, sqrt) == Integrators.We(inter, cam, raster, sqrt)
  {
    var inter2cam := Unit(Sub(cam.position, inter.pos), sqrt);
    var c := Dot(cam.fwdDir, Neg(inter2cam));
    ImportanceEven(c, cam.imagePlaneDist, cam.lensAreaInv, cam.filmPlaneAreaInv);
  }

  // ---------------------------------------------------------------------
  // The eye walk

  /**
   * The camera vertex: throughput 1, at the eye, intersected, with the view
   * direction as its normal; the rest of its hit record is the default.
   */
  function CameraVertex(eyePos: Vector3f, fwdDir: Vector3f): (v: EyeVert)
    ensures v.throughput == Broadcast(1.0) && v.inter.intersected && v.inter.pos == eyePos
    ensures v.inter.Ns == fwdDir && v.inter.Ng == fwdDir
  {
    EyeVert(Broadcast(1.0), NoHit().(intersected := true, pos := eyePos, Ng := fwdDir, Ns := fwdDir))
  }

  /**
   * One turn of the loop after vertex `v` (non-emissive) was appended,
   * arriving along `wi`: sample a direction and normalise it; stop if that
   * fails or its density is 0; on total internal reflection take the
   * mirror direction with density 1; stop if the density is below
   * `MIN_DIVISOR`; otherwise scale the throughput by
   * `bsdf * |cos| / dirPdf` and cast the ray, stopping on a miss.
   */
  function WalkStep(sh: Shading, t: nat, v: EyeVert, wi: Vector3f): Step
  {
    var N := v.inter.Ns;
    var wo := Neg(wi);
    var s := sh.sample(t, v.inter, wo);
    if !s.success then Stop
    else
      var sampled := Unit(s.dir, sh.sqrt);
      var sampledPdf := DirPdf(sh, v.inter, sampled, wo, N);
      if sampledPdf == 0.0 then Stop
      else
        var w := if s.TIR then Unit(sh.reflect(wo, N), sh.sqrt) else sampled;
        var dirPdf := if s.TIR then 1.0 else sampledPdf;
        var cos := Abs(Dot(w, N));
        var bsdf := sh.bxdf(v.inter, w, wo, s.TIR);
        if dirPdf < SceneReader.MIN_DIVISOR then Stop
        else
          var tp := Div(Scale(Mul(v.throughput, bsdf), cos), dirPdf);
          var hit := sh.trace(sh.offset(v.inter.pos, N, Dot(N, w) < 0.0), w);
          if !hit.intersected then Stop
          else Next(tp, w, hit)
  }

  /**
   * The walk from loop turn `t` with throughput `tp`, incoming direction
   * `wi` and hit `hit`: the hit (after texturing) is appended; the walk
   * ends there if it emits, if `WalkStep` stops, or if `t` is the last turn.
   */
  function Walk(sh: Shading, t: nat, tp: Vector3f, wi: Vector3f, hit: Intersection, path: seq<EyeVert>): seq<EyeVert>
    decreases MAXDEPTH - t
  {
    if t >= MAXDEPTH then path
    else
      var v := EyeVert(tp, sh.texture(hit));
      if HasEmission(v.inter.mtlcolor) then path + [v]
      else match WalkStep(sh, t, v, wi)
        case Stop => path + [v]
        case Next(tp', wi', hit') => Walk(sh, t + 1, tp', wi', hit', path + [v])
  }

  /** Every vertex from index `from` on, except the last, does not emit. */
  predicate EmitsOnlyAtEnd(path: seq<EyeVert>, from: nat)
  {
    forall i :: from <= i < |path| - 1 ==> !HasEmission(path[i].inter.mtlcolor)
  }

  /**
   * The walk keeps the vertices it started with, appends one vertex per
   * loop turn and at least one when a turn is left, so it ends with at most
   * `|path| + MAXDEPTH - t` vertices; it stops right after an emitter.
   */
  lemma {:induction false} WalkShape(sh: Shading, t: nat, tp: Vector3f, wi: Vector3f, hit: Intersection, path: seq<EyeVert>)
    requires t <= MAXDEPTH
    ensures var r := Walk(sh, t, tp, wi, hit, path);
      |path| <= |r| <= |path| + MAXDEPTH - t && r[..|path|] == path
    ensures t < MAXDEPTH ==> |Walk(sh, t, tp, wi, hit, path)| > |path|
    ensures EmitsOnlyAtEnd(Walk(sh, t, tp, wi, hit, path), |path|)
    decreases MAXDEPTH - t
  {
    if t < MAXDEPTH {
      var v := EyeVert(tp, sh.texture(hit));
      var path' := path + [v];
      if !HasEmission(v.inter.mtlcolor) {
        match WalkStep(sh, t, v, wi)
        case Stop =>
        case Next(tp', wi', hit') =>
          WalkShape(sh, t + 1, tp', wi', hit', path');
          var r := Walk(sh, t + 1, tp', wi', hit', path');
          assert r[..|path|] == r[..|path'|][..|path|];
          assert r[|path|] == v;
      }
    }
  }

  /**
   * The stop rules of the loop: sampling failure, a zero density (even
   * when the sample is a total internal reflection: the zero test comes
   * first), a density below `MIN_DIVISOR` and a miss all end the walk;
   * going on means the density was at least `MIN_DIVISOR` and the next
   * hit is on a surface.
   */
  lemma WalkStepStopRules(sh: Shading, t: nat, v: EyeVert, wi: Vector3f)
    ensures !sh.sample(t, v.inter, Neg(wi)).success ==> WalkStep(sh, t, v, wi) == Stop
    ensures var s := sh.sample(t, v.inter, Neg(wi));
      s.success && DirPdf(sh, v.inter, Unit(s.dir, sh.sqrt), Neg(wi), v.inter.Ns) == 0.0 ==> WalkStep(sh, t, v, wi) == Stop
    ensures var s := sh.sample(t, v.inter, Neg(wi));
      s.success && !s.TIR && DirPdf(sh, v.inter, Unit(s.dir, sh.sqrt), Neg(wi), v.inter.Ns) < SceneReader.MIN_DIVISOR ==>
        WalkStep(sh, t, v, wi) == Stop
    ensures WalkStep(sh, t, v, wi).Next? ==> WalkStep(sh, t, v, wi).hit.intersected
    ensures var s := sh.sample(t, v.inter, Neg(wi));
      WalkStep(sh, t, v, wi).Next? && s.TIR ==> WalkStep(sh, t, v, wi).wi == Unit(sh.reflect(Neg(wi), v.inter.Ns), sh.sqrt)
  {
  }

  /**
   * The throughput carried to the next vertex is the current one scaled by
   * `bsdf * |cos| / dirPdf`: a sample of the rendering equation's integrand
   * over its density.
   */
  lemma WalkStepThroughput(sh: Shading, t: nat, v: EyeVert, wi: Vector3f)
    requires WalkStep(sh, t, v, wi).Next?
    ensures var s := sh.sample(t, v.inter, Neg(wi));
      var w := WalkStep(sh, t, v, wi).wi;
      var dirPdf := if s.TIR then 1.0 else DirPdf(sh, v.inter, w, Neg(wi), v.inter.Ns);
      dirPdf >= SceneReader.MIN_DIVISOR &&
      Scale(WalkStep(sh, t, v, wi).tp, dirPdf) == Scale(Mul(v.throughput, sh.bxdf(v.inter, w, Neg(wi), s.TIR)), Abs(Dot(w, v.inter.Ns)))
  {
  }

  /**
   * A sample's eye path: the camera vertex, then the walk from the primary
   * hit with throughput `|cos|` of the primary ray; `None` when the primary
   * ray misses and the sample is skipped.
   */
  function SamplePath(sh: Shading, eyePos: Vector3f, fwdDir: Vector3f, rayDir: Vector3f): Option<seq<EyeVert>>
  {
    var cv := CameraVertex(eyePos, fwdDir);
    var hit := sh.trace(eyePos, rayDir);
    if !hit.intersected then None
    else Some(Walk(sh, 1, Div(Scale(cv.throughput, Abs(Dot(rayDir, cv.inter.Ns))), 1.0), rayDir, hit, [cv]))
  }

  /**
   * The walk of one sample of `integrate`: the camera vertex is appended,
   * the primary ray is cast and a miss skips the sample; then each loop
   * turn appends the hit and stops after an emitter, on a failed or
   * zero-density sample, on a density below `MIN_DIVISOR`, or on a miss.
   * A path has between 2 and `MAXDEPTH` vertices, starts at the camera and
   * emits at most at its last vertex.
   */
  method TraceEyePath(sh: Shading, eyePos: Vector3f, fwdDir: Vector3f, rayDir: Vector3f)
    returns (path: Option<seq<EyeVert>>)
    ensures path == SamplePath(sh, eyePos, fwdDir, rayDir)
    ensures path.Some? ==> 2 <= |path.value| <= MAXDEPTH && path.value[0] == CameraVertex(eyePos, fwdDir)
    ensures path.Some? ==> EmitsOnlyAtEnd(path.value, 1)
  {
    var epverts := [CameraVertex(eyePos, fwdDir)];
    var wi := rayDir;
    var wiNCos := Abs(Dot(wi, epverts[0].inter.Ns));
    var tp := Div(Scale(epverts[0].throughput, wiNCos), 1.0);
    var nxtInter := sh.trace(eyePos, wi);
    if !nxtInter.intersected {
      return None;
    }
    ghost var whole := Walk(sh, 1, tp, wi, nxtInter, epverts);
    WalkShape(sh, 1, tp, wi, nxtInter, epverts);
    for t := 1 to MAXDEPTH
      invariant Walk(sh, t, tp, wi, nxtInter, epverts) == whole
    {
      var lv := EyeVert(tp, sh.texture(nxtInter));
      epverts := epverts + [lv];
      if HasEmission(lv.inter.mtlcolor) {
        break;
      }
      var wo := Neg(wi);
      var s := sh.sample(t, lv.inter, wo);
      if !s.success {
        break;
      }
      wi := Unit(s.dir, sh.sqrt);
      var dirPdf := DirPdf(sh, lv.inter, wi, wo, lv.inter.Ns);
      if dirPdf == 0.0 {
        break;
      }
      if s.TIR {
        wi := Unit(sh.reflect(wo, lv.inter.Ns), sh.sqrt);
        dirPdf := 1.0;
      }
      var cos := Abs(Dot(wi, lv.inter.Ns));
      var bsdf := sh.bxdf(lv.inter, wi, wo, s.TIR);
      if dirPdf < SceneReader.MIN_DIVISOR {
        break;
      }
      tp := Div(Scale(Mul(tp, bsdf), cos), dirPdf);
      var orig := sh.offset(lv.inter.pos, lv.inter.Ns, Dot(lv.inter.Ns, wi) < 0.0);
      nxtInter := sh.trace(orig, wi);
      if !nxtInter.intersected {
        break;
      }
    }
    path := Some(epverts);
  }

  // ---------------------------------------------------------------------
  // Contribution and pixel estimate

  /**
   * The contribution of a finished path: none unless it has at least two
   * vertices and its last vertex emits; with exactly two, the emission
   * weighted by `We` at that vertex; otherwise the emission times the
   * path's throughput, the camera-to-pixel `Geo`, the pixel's `We` and the
   * inverse of the pixel-sampling density `lensAreaInv * filmPlaneAreaInv`.
   */
  function Contribution(path: seq<EyeVert>, cam: Camera, raster: Vector3f -> (real, real), sqrt: real -> real,
                        pixelPos: Vector3f): (r: Option<Vector3f>)
    reads cam
    ensures r.Some? <==> |path| >= 2 && HasEmission(path[|path| - 1].inter.mtlcolor)
  {
    var size := |path|;
    if size < 2 then None
    else
      var ev := path[size - 1];
      if !HasEmission(ev.inter.mtlcolor) then None
      else if size == 2 then Some(Scale(ev.inter.mtlcolor.emission, NaiveWe(ev.inter, cam, raster, sqrt)))
      else
        var G := SignedGeo(cam.position, cam.fwdDir, pixelPos, Neg(cam.fwdDir), sqrt);
        var l := ev.inter.mtlcolor.emission;
        var we := NaiveWe(NoHit().(pos := pixelPos), cam, raster, sqrt);
        var p := cam.lensAreaInv * cam.filmPlaneAreaInv * 1.0;
        Some(Mul(Scale(Mul(Scale(l, Quotient(1.0, p)), ev.throughput), G), Broadcast(we)))
  }

  /**
   * A primary hit on an emitter contributes its emission weighted by the
   * camera importance there, and nothing when the emitter lies outside the
   * frustum.
   */
  lemma DirectHitContribution(path: seq<EyeVert>, cam: Camera, raster: Vector3f -> (real, real), sqrt: real -> real,
                              pixelPos: Vector3f)
    requires |path| == 2 && HasEmission(path[1].inter.mtlcolor)
    ensures Contribution(path, cam, raster, sqrt, pixelPos) ==
      Some(Scale(path[1].inter.mtlcolor.emission, Integrators.We(path[1].inter, cam, raster, sqrt)))
    ensures cam.WorldPos2PixelIndex(path[1].inter.pos, raster) == -1 ==>
      Contribution(path, cam, raster, sqrt, pixelPos) == Some(Zero())
  {
    NaiveWeIsWe(path[1].inter, cam, raster, sqrt);
  }

  /** What sample `i` of a pixel adds to the estimate, if anything. */
  function SampleValue(sh: Shading, cam: Camera, raster: Vector3f -> (real, real), pixelPos: Vector3f): Option<Vector3f>
    reads cam
  {
    var rayDir := Unit(Sub(pixelPos, cam.position), sh.sqrt);
    match SamplePath(sh, cam.position, cam.fwdDir, rayDir)
    case None => None
    case Some(path) => Contribution(path, cam, raster, sh.sqrt, pixelPos)
  }

  /**
   * One sample of a pixel: the ray through the pixel centre, its eye path
   * (skipped on a primary miss), and the path's contribution.
   */
  method TraceSample(sh: Shading, cam: Camera, raster: Vector3f -> (real, real), pixelPos: Vector3f)
    returns (res: Option<Vector3f>)
    ensures res == SampleValue(sh, cam, raster, pixelPos)
    ensures res.Some? ==>
      var p := SamplePath(sh, cam.position, cam.fwdDir, Unit(Sub(pixelPos, cam.position), sh.sqrt));
      p.Some? && 2 <= |p.value| <= MAXDEPTH && HasEmission(p.value[|p.value| - 1].inter.mtlcolor)
  {
    var rayDir := Unit(Sub(pixelPos, cam.position), sh.sqrt);
    var path := TraceEyePath(sh, cam.position, cam.fwdDir, rayDir);
    if path.None? {
      return None;
    }
    res := Contribution(path.value, cam, raster, sh.sqrt, pixelPos);
  }

  /** The sum of the contributions of the first `n` samples. */
  function EstimateSum(shs: nat -> Shading, cam: Camera, raster: Vector3f -> (real, real), pixelPos: Vector3f, n: nat): Vector3f
    reads cam
  {
    if n == 0 then Zero()
    else
      var e := EstimateSum(shs, cam, raster, pixelPos, n - 1);
      match SampleValue(shs(n - 1), cam, raster, pixelPos)
      case None => e
      case Some(c) => Add(e, c)
  }

  /** A pixel none of whose samples contributes stays black. */
  lemma {:induction false} NoContributionIsBlack(shs: nat -> Shading, cam: Camera, raster: Vector3f -> (real, real),
                                                 pixelPos: Vector3f, n: nat)
    requires forall i :: 0 <= i < n ==> SampleValue(shs(i), cam, raster, pixelPos).None?
    ensures EstimateSum(shs, cam, raster, pixelPos, n) == Zero()
  {
    if n > 0 {
      NoContributionIsBlack(shs, cam, raster, pixelPos, n - 1);
    }
  }

  /**
   * The colour `integrate` stores for one pixel: the contributions of its
   * `SPP` samples (sample `i` drawing on `shs(i)`) summed and scaled by
   * `SPP_inv`, the mean over the samples.
   */
  method RenderPixel(shs: nat -> Shading, cam: Camera, raster: Vector3f -> (real, real), pixelPos: Vector3f)
    returns (color: Vector3f)
    ensures color == Scale(EstimateSum(shs, cam, raster, pixelPos, SceneReader.SPP), SceneReader.SPP_INV)
  {
    var estimate := Zero();
    for i := 0 to SceneReader.SPP
      invariant estimate == EstimateSum(shs, cam, raster, pixelPos, i)
    {
      var res := TraceSample(shs(i), cam, raster, pixelPos);
      if res.Some? {
        estimate := Add(estimate, res.value);
      }
    }
    color := Scale(estimate, SceneReader.SPP_INV);
  }
}
