/**
 * The subpaths of the bidirectional path tracer of include/BDPT.hpp: the
 * vertex records `eyePathVert` and `lightPathVert`, and the random walks
 * `buildEyePath` and `buildLightPath` that grow them.
 *
 * A walk appends, per loop turn, the textured hit with the throughput that
 * reached it, the forward and reverse area densities (per projected solid
 * angle) of the direction sampled there, the geometry term to the
 * previous vertex and the delta flag. Sampling, shading and ray casting
 * come from a `Shading`; the eye walk's `Shading` evaluates `BxDF` with
 * the adjoint flag false, the light walk's with it true.
 */
module BdptPaths {
  import opened Vectors
  import opened Globals
  import opened Materials
  import opened SceneObjects
  import opened Intersections
  import opened Sampling
  import opened Integrators
  import SceneReader

  /** The longest path has `MAX_PATHLENGTH` edges, so `MAX_PATHLENGTH + 1` vertices. */
  const MAX_PATHLENGTH: nat := 7

  /**
   * `bdpt::eyePathVert` and `bdpt::lightPathVert`, which have the same
   * fields: the throughput reaching the vertex, its hit record, the forward
   * and reverse densities, the geometry term with the previous vertex and
   * whether the vertex scatters by a delta distribution.
   */
  datatype PathVert = PathVert(throughput: Vector3f, inter: Intersection, fwdPdf: real, revPdf: real, G: real, isDelta: bool)

  /** The outcome of one loop turn of a walk. */
  datatype Grow =
    | Halt                                   // stop without appending
    | Last(v: PathVert)                      // append `v`, then stop
    | More(v: PathVert, tp: Vector3f, wi: Vector3f, hit: Intersection)  // append `v` and go on

  /** The materials whose scattering is a delta distribution. */
  predicate IsDeltaMaterial(m: Material)
  {
    m.mType == PERFECT_REFLECTIVE || m.mType == PERFECT_REFRACTIVE
  }

  /**
   * One loop turn of `buildEyePath` / `buildLightPath` at the hit `hit`,
   * reached with throughput `tp` along `wi`, after vertex `pre`: texture the
   * hit; sample a direction (stop on failure); take its density, or the
   * mirror direction with density 1 on total internal reflection; stop if
   * the density is 0. Otherwise the vertex gets `fwdPdf = dirPdf / |cos|`,
   * a reverse density equal to it for a delta material and the material's
   * reverse density over `|wo . Ng|` otherwise, and the `Geo` term with
   * `pre`. It is appended; the walk ends there if it emits, if the density
   * is below `MIN_DIVISOR` (throughput not updated) or if the next ray
   * misses.
   */
  function GrowStep(sh: Shading, k: nat, pre: PathVert, tp: Vector3f, wi: Vector3f, hit: Intersection): Grow
  {
    var inter := sh.texture(hit);
    var wo := Neg(wi);
    var s := sh.sample(k, inter, wo);
    if !s.success then Halt
    else
      var sampled := Unit(s.dir, sh.sqrt);
      var w := if s.TIR then Unit(sh.reflect(wo, inter.Ns), sh.sqrt) else sampled;
      var dirPdf := if s.TIR then 1.0 else DirPdf(sh, inter, sampled, wo, inter.Ns);
      if dirPdf == 0.0 then Halt
      else
        var cos := Abs(Dot(w, inter.Ng));
        var fwdPdf := Quotient(dirPdf, cos);
        var delta := IsDeltaMaterial(inter.mtlcolor);
        var revPdf := if delta then fwdPdf else Quotient(DirPdf(sh, inter, wo, w, inter.Ns), Abs(Dot(wo, inter.Ng)));
        var v := PathVert(tp, inter, fwdPdf, revPdf, Geo(pre.inter.pos, pre.inter.Ng, inter.pos, inter.Ng, sh.sqrt), delta);
        if HasEmission(inter.mtlcolor) then Last(v)
        else
          var bsdf := sh.bxdf(inter, w, wo, s.TIR);
          if dirPdf < SceneReader.MIN_DIVISOR then Last(v)
          else
            var next := sh.trace(sh.offset(inter.pos, inter.Ns, Dot(inter.Ns, w) < 0.0), w);
            if !next.intersected then Last(v)
            else More(v, Div(Scale(Mul(tp, bsdf), cos), dirPdf), w, next)
  }

  /** The walk from `path` on, while it has fewer than `limit` vertices. */
  function WalkFrom(sh: Shading, tp: Vector3f, wi: Vector3f, hit: Intersection, path: seq<PathVert>, limit: nat): seq<PathVert>
    requires |path| >= 1
    decreases limit - |path|
  {
    if |path| >= limit then path
    else match GrowStep(sh, |path|, path[|path| - 1], tp, wi, hit)
      case Halt => path
      case Last(v) => path + [v]
      case More(v, tp', wi', hit') => WalkFrom(sh, tp', wi', hit', path + [v], limit)
  }

  /**
   * Vertex `i` of a walk is delta exactly when its material is
   * PERFECT_REFLECTIVE or PERFECT_REFRACTIVE, a delta vertex has
   * `revPdf == fwdPdf`, and its `G` is the `Geo` term with vertex `i - 1`.
   */
  predicate VertexRule(path: seq<PathVert>, i: nat, sqrt: real -> real)
    requires 1 <= i < |path|
  {
    && (path[i].isDelta <==> IsDeltaMaterial(path[i].inter.mtlcolor))
    && (path[i].isDelta ==> path[i].revPdf == path[i].fwdPdf)
    && path[i].G == Geo(path[i - 1].inter.pos, path[i - 1].inter.Ng, path[i].inter.pos, path[i].inter.Ng, sqrt)
  }

  /** Every vertex from `from` on obeys `VertexRule`. */
  predicate FollowRules(path: seq<PathVert>, from: nat, sqrt: real -> real)
    requires from >= 1
  {
    forall i :: from <= i < |path| ==> VertexRule(path, i, sqrt)
  }

  /** No vertex from `from` on emits, except possibly the last. */
  predicate EmitsOnlyAtEnd(path: seq<PathVert>, from: nat)
  {
    forall i :: from <= i < |path| - 1 ==> !HasEmission(path[i].inter.mtlcolor)
  }

  /**
   * A walk keeps the vertices it starts with, stops at `limit` vertices,
   * gives every vertex it appends the delta, density and geometry rules,
   * and stops right after an emitter.
   */
  lemma {:induction false} WalkFromShape(sh: Shading, tp: Vector3f, wi: Vector3f, hit: Intersection, path: seq<PathVert>, limit: nat)
    requires |path| >= 1
    ensures var r := WalkFrom(sh, tp, wi, hit, path, limit);
      |path| <= |r| && (|path| < limit ==> |r| <= limit) && (|path| >= limit ==> r == path) && r[..|path|] == path
    ensures FollowRules(WalkFrom(sh, tp, wi, hit, path, limit), |path|, sh.sqrt)
    ensures EmitsOnlyAtEnd(WalkFrom(sh, tp, wi, hit, path, limit), |path|)
    decreases limit - |path|
  {
    if |path| < limit {
      var g := GrowStep(sh, |path|, path[|path| - 1], tp, wi, hit);
      match g
      case Halt =>
      case Last(v) =>
        assert VertexRule(path + [v], |path|, sh.sqrt);
      case More(v, tp', wi', hit') =>
        var path' := path + [v];
        assert VertexRule(path', |path|, sh.sqrt);
        WalkFromShape(sh, tp', wi', hit', path', limit);
        var r := WalkFrom(sh, tp', wi', hit', path', limit);
        assert r[..|path'|] == path';
        assert r[..|path|] == path' [..|path|];
        assert r[|path|] == v && r[|path| - 1] == path[|path| - 1];
        assert VertexRule(r, |path|, sh.sqrt);
    }
  }

  /**
   * The stop rules of a loop turn: a failed sample, or a zero density
   * without total internal reflection, ends the walk before appending; a
   * total internal reflection always gets past the zero-density test
   * (its density is forced to 1 first); a density below `MIN_DIVISOR`
   * appends the vertex and ends the walk.
   */
  lemma GrowStepStopRules(sh: Shading, k: nat, pre: PathVert, tp: Vector3f, wi: Vector3f, hit: Intersection)
    ensures var s := sh.sample(k, sh.texture(hit), Neg(wi));
      !s.success ==> GrowStep(sh, k, pre, tp, wi, hit) == Halt
    ensures var s := sh.sample(k, sh.texture(hit), Neg(wi));
      s.success && s.TIR ==> GrowStep(sh, k, pre, tp, wi, hit) != Halt
    ensures var inter := sh.texture(hit);
      var s := sh.sample(k, inter, Neg(wi));
      s.success && !s.TIR && DirPdf(sh, inter, Unit(s.dir, sh.sqrt), Neg(wi), inter.Ns) == 0.0 ==>
        GrowStep(sh, k, pre, tp, wi, hit) == Halt
    ensures var inter := sh.texture(hit);
      var s := sh.sample(k, inter, Neg(wi));
      s.success && !s.TIR && 0.0 < DirPdf(sh, inter, Unit(s.dir, sh.sqrt), Neg(wi), inter.Ns) < SceneReader.MIN_DIVISOR ==>
        GrowStep(sh, k, pre, tp, wi, hit).Last?
    ensures GrowStep(sh, k, pre, tp, wi, hit).More? ==> GrowStep(sh, k, pre, tp, wi, hit).hit.intersected
    ensures GrowStep(sh, k, pre, tp, wi, hit).More? ==> !HasEmission(GrowStep(sh, k, pre, tp, wi, hit).v.inter.mtlcolor)
    ensures GrowStep(sh, k, pre, tp, wi, hit) != Halt ==> GrowStep(sh, k, pre, tp, wi, hit).v.throughput == tp
  {
  }

  // ---------------------------------------------------------------------
  // The eye subpath

  /**
   * The eye subpath `buildEyePath` grows from the camera vertex and the
   * primary hit: the primary hit is popped and re-added by the first loop
   * turn, so a failed first turn leaves the camera vertex alone.
   */
  function EyePath(sh: Shading, epverts: seq<PathVert>): seq<PathVert>
    requires |epverts| == 2
  {
    WalkFrom(sh, epverts[1].throughput, Unit(Sub(epverts[1].inter.pos, epverts[0].inter.pos), sh.sqrt),
             epverts[1].inter, epverts[..1], MAX_PATHLENGTH + 1)
  }

  /**
   * `buildEyePath(epverts)` on the camera vertex and the primary hit. The
   * result starts with the camera vertex, has at most `MAX_PATHLENGTH + 1`
   * vertices, obeys the vertex rules and emits at most at its end.
   */
  method BuildEyePath(sh: Shading, epverts: seq<PathVert>) returns (res: seq<PathVert>)
    requires |epverts| == 2
    ensures res == EyePath(sh, epverts)
    ensures 1 <= |res| <= MAX_PATHLENGTH + 1 && res[0] == epverts[0]
    ensures FollowRules(res, 1, sh.sqrt) && EmitsOnlyAtEnd(res, 1)
  {
    var tp := epverts[1].throughput;
    var nxtInter := epverts[1].inter;
    var wi := Unit(Sub(epverts[1].inter.pos, epverts[0].inter.pos), sh.sqrt);
    res := epverts[..1];
    ghost var whole := WalkFrom(sh, tp, wi, nxtInter, res, MAX_PATHLENGTH + 1);
    WalkFromShape(sh, tp, wi, nxtInter, res, MAX_PATHLENGTH + 1);
    res := WalkLoop(sh, tp, wi, nxtInter, res, MAX_PATHLENGTH + 1);
  }

  /**
   * The `while (size < limit)` loop both walks share: each turn builds the
   * vertex for the current hit and appends it, or ends the walk.
   */
  method WalkLoop(sh: Shading, tp0: Vector3f, wi0: Vector3f, hit0: Intersection, path0: seq<PathVert>, limit: nat)
    returns (path: seq<PathVert>)
    requires |path0| >= 1
    ensures path == WalkFrom(sh, tp0, wi0, hit0, path0, limit)
  {
    path := path0;
    var tp, wi, nxtInter := tp0, wi0, hit0;
    var size := |path|;
    while size < limit
      invariant size == |path| >= 1
      invariant WalkFrom(sh, tp, wi, nxtInter, path, limit) == WalkFrom(sh, tp0, wi0, hit0, path0, limit)
      decreases limit - size
    {
      var g := LoopTurn(sh, size, path[size - 1], tp, wi, nxtInter);
      if g.Halt? {
        return;
      }
      path := path + [g.v];
      if g.Last? {
        return;
      }
      tp, wi, nxtInter := g.tp, g.wi, g.hit;
      size := |path|;
    }
  }

  /** The body of the walk loop at the hit `nxtInter`, after vertex `pre`. */
  method LoopTurn(sh: Shading, size: nat, pre: PathVert, tp: Vector3f, wi: Vector3f, nxtInter: Intersection)
    returns (g: Grow)
    ensures g == GrowStep(sh, size, pre, tp, wi, nxtInter)
  {
    var inter := sh.texture(nxtInter);
    var wo := Neg(wi);
    var s := sh.sample(size, inter, wo);
    if !s.success {
      return Halt;
    }
    var wi := Unit(s.dir, sh.sqrt);
    var dirPdf := DirPdf(sh, inter, wi, wo, inter.Ns);
    if s.TIR {
      wi := Unit(sh.reflect(wo, inter.Ns), sh.sqrt);
      dirPdf := 1.0;
    }
    if dirPdf == 0.0 {
      return Halt;
    }
    var cos := Abs(Dot(wi, inter.Ng));
    var fwdPdf := Quotient(dirPdf, cos);
    var revPdf, isDelta;
    if inter.mtlcolor.mType == PERFECT_REFLECTIVE || inter.mtlcolor.mType == PERFECT_REFRACTIVE {
      revPdf := fwdPdf;
      isDelta := true;
    } else {
      revPdf := DirPdf(sh, inter, wo, wi, inter.Ns);
      revPdf := Quotient(revPdf, Abs(Dot(wo, inter.Ng)));
      isDelta := false;
    }
    var G := Geo(pre.inter.pos, pre.inter.Ng, inter.pos, inter.Ng, sh.sqrt);
    var v := PathVert(tp, inter, fwdPdf, revPdf, G, isDelta);
    if HasEmission(inter.mtlcolor) {
      return Last(v);
    }
    var bsdf := sh.bxdf(inter, wi, wo, s.TIR);
    if dirPdf < SceneReader.MIN_DIVISOR {
      return Last(v);
    }
    var orig := sh.offset(inter.pos, inter.Ns, Dot(inter.Ns, wi) < 0.0);
    var next := sh.trace(orig, wi);
    if !next.intersected {
      return Last(v);
    }
    g := More(v, Div(Scale(Mul(tp, bsdf), cos), dirPdf), wi, next);
  }

  // ---------------------------------------------------------------------
  // The light subpath

  /**
   * The light subpath `buildLightPath` grows: a point sampled on a light
   * (density `pickpdf`, throughput `1 / pickpdf`, `revPdf = pickpdf`, not
   * delta) with an emission direction `emitDir`; nothing if `sampleLightDir`
   * rejects the direction; only the light vertex if the ray from it misses
   * or first hits an emitter; otherwise the walk from that hit, up to
   * `MAX_PATHLENGTH` vertices.
   */
  function LightPath(sh: Shading, objs: seq<SceneObject>, lights: seq<int>, r: real,
                     samplePoint: (int, Intersection) -> Intersection, emitDir: Vector3f): seq<PathVert>
    requires 0.0 <= r < 1.0 && ValidIndices(objs, lights)
  {
    var light := SampledLight(objs, lights, r, NoHit(), samplePoint);
    var lightInter, pickpdf := light.0, light.1;
    var tp := Broadcast(Quotient(1.0, pickpdf));
    var dir := SampleLightDir(lightInter.Ng, emitDir, sh.sqrt, 0.0, Zero());
    if !dir.0 then []
    else
      var wi := Unit(dir.2, sh.sqrt);
      var cos := Abs(Dot(wi, lightInter.Ng));
      var lpv := PathVert(tp, lightInter, Quotient(dir.1, cos), pickpdf, 0.0, false);
      var next := sh.trace(sh.offset(lightInter.pos, lightInter.Ns, false), wi);
      if !next.intersected || HasEmission(next.mtlcolor) then [lpv]
      else WalkFrom(sh, QuotientVec(Scale(tp, cos), dir.1), wi, next, [lpv], MAX_PATHLENGTH)
  }

  /**
   * `buildLightPath(lpverts)` into an empty vector. The result has at most
   * `MAX_PATHLENGTH` vertices; its first is the light vertex, which stores
   * the pick density in `revPdf`, has throughput `1 / pickpdf` and is not
   * delta; the others obey the vertex rules and emit at most at the end.
   */
  method BuildLightPath(sh: Shading, objs: seq<SceneObject>, lights: seq<int>, r: real,
                        samplePoint: (int, Intersection) -> Intersection, emitDir: Vector3f)
    returns (lpverts: seq<PathVert>)
    requires 0.0 <= r < 1.0 && ValidIndices(objs, lights)
    ensures lpverts == LightPath(sh, objs, lights, r, samplePoint, emitDir)
    ensures |lpverts| <= MAX_PATHLENGTH
    ensures |lpverts| > 0 ==> var pickpdf := SampledLight(objs, lights, r, NoHit(), samplePoint).1;
      lpverts[0].revPdf == pickpdf && lpverts[0].throughput == Broadcast(Quotient(1.0, pickpdf)) && !lpverts[0].isDelta
    ensures |lpverts| > 1 ==> FollowRules(lpverts, 1, sh.sqrt) && EmitsOnlyAtEnd(lpverts, 1)
  {
    var lightInter, pickpdf := SampleLight(objs, lights, r, NoHit(), samplePoint);
    var tp := Broadcast(Quotient(1.0, pickpdf));
    var ok, dirPdf, wi := SampleLightDirCall(lightInter.Ng, emitDir, sh.sqrt);
    ghost var spec := LightPath(sh, objs, lights, r, samplePoint, emitDir);
    lpverts := [];
    if !ok {
      assert lpverts == spec;
      return;
    }
    wi := Unit(wi, sh.sqrt);
    var wiNCos := Abs(Dot(wi, lightInter.Ng));
    var lpv := PathVert(tp, lightInter, Quotient(dirPdf, wiNCos), pickpdf, 0.0, false);
    lpverts := lpverts + [lpv];
    assert lpverts == [lpv];
    tp := QuotientVec(Scale(lpverts[0].throughput, wiNCos), dirPdf);
    var orig := sh.offset(lightInter.pos, lightInter.Ns, false);
    var nxtInter := sh.trace(orig, wi);
    if !nxtInter.intersected || HasEmission(nxtInter.mtlcolor) {
      assert lpverts == [lpv] == spec;
      return;
    }
    assert spec == WalkFrom(sh, tp, wi, nxtInter, [lpv], MAX_PATHLENGTH);
    WalkFromShape(sh, tp, wi, nxtInter, lpverts, MAX_PATHLENGTH);
    lpverts := WalkLoop(sh, tp, wi, nxtInter, lpverts, MAX_PATHLENGTH);
    assert lpverts == spec;
  }

  /** The call `sampleLightDir(N, dirPdf, wi)` with its out-parameters. */
  method SampleLightDirCall(N: Vector3f, emitDir: Vector3f, sqrt: real -> real) returns (ok: bool, dirPdf: real, wi: Vector3f)
    ensures (ok, dirPdf, wi) == SampleLightDir(N, emitDir, sqrt, 0.0, Zero())
  {
    var res := SampleLightDir(N, emitDir, sqrt, 0.0, Zero());
    ok, dirPdf, wi := res.0, res.1, res.2;
  }

  /**
   * The light vertex carries the reciprocal of the pick density as its
   * throughput: with a light of positive area, `throughput * revPdf == 1`
   * in every component.
   */
  lemma LightVertexThroughput(sh: Shading, objs: seq<SceneObject>, lights: seq<int>, r: real,
                              samplePoint: (int, Intersection) -> Intersection, emitDir: Vector3f)
    requires 0.0 <= r < 1.0 && ValidIndices(objs, lights) && |lights| > 0
    requires objs[lights[PickIndex(r, |lights|)]].area > 0.0
    requires |LightPath(sh, objs, lights, r, samplePoint, emitDir)| > 0
    ensures var v := LightPath(sh, objs, lights, r, samplePoint, emitDir)[0];
      v.revPdf > 0.0 && Scale(v.throughput, v.revPdf) == Broadcast(1.0)
  {
    var p := SampledLight(objs, lights, r, NoHit(), samplePoint).1;
    assert p > 0.0;
    LightPathHead(sh, objs, lights, r, samplePoint, emitDir);
    var q := Quotient(1.0, p);
    assert q * p == 1.0;
  }

  /** The first vertex of a light subpath is the sampled light point, as `buildLightPath` sets it up. */
  lemma LightPathHead(sh: Shading, objs: seq<SceneObject>, lights: seq<int>, r: real,
                      samplePoint: (int, Intersection) -> Intersection, emitDir: Vector3f)
    requires 0.0 <= r < 1.0 && ValidIndices(objs, lights)
    ensures var path := LightPath(sh, objs, lights, r, samplePoint, emitDir);
      var light := SampledLight(objs, lights, r, NoHit(), samplePoint);
      |path| > 0 ==>
        (path[0].inter == light.0 && path[0].revPdf == light.1 &&
         path[0].throughput == Broadcast(Quotient(1.0, light.1)) && !path[0].isDelta)
  {
    var light := SampledLight(objs, lights, r, NoHit(), samplePoint);
    var lightInter, pickpdf := light.0, light.1;
    var tp := Broadcast(Quotient(1.0, pickpdf));
    var dir := SampleLightDir(lightInter.Ng, emitDir, sh.sqrt, 0.0, Zero());
    if dir.0 {
      var wi := Unit(dir.2, sh.sqrt);
      var cos := Abs(Dot(wi, lightInter.Ng));
      var lpv := PathVert(tp, lightInter, Quotient(dir.1, cos), pickpdf, 0.0, false);
      var next := sh.trace(sh.offset(lightInter.pos, lightInter.Ns, false), wi);
      if next.intersected && !HasEmission(next.mtlcolor) {
        WalkFromShape(sh, QuotientVec(Scale(tp, cos), dir.1), wi, next, [lpv], MAX_PATHLENGTH);
      }
    }
  }
}
