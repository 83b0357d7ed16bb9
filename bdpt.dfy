/**
 * The per-pixel loop of the bidirectional path tracer, `sub_render_bdpt` of
 * include/BDPT.hpp (the `MULTITHREAD 1` build; the single-threaded
 * `integrate` repeats it at lines 483-602). For every sample it builds an
 * eye subpath and a light subpath, then walks the strategies `(s, t)` by
 * path length and, for each length, by `s`: `s` light vertices joined to
 * `t` eye vertices. A strategy with `s == 0` is an eye path that hit an
 * emitter, one with `t == 1` connects a light vertex straight to the
 * camera and adds to the pixel that vertex projects to, and any other
 * joins an eye vertex to a light vertex through a shadow ray.
 */
module BdptRender {
  import opened Wrappers
  import opened Vectors
  import opened Globals
  import opened Materials
  import opened Intersections
  import opened SceneObjects
  import opened Cameras
  import opened Sampling
  import opened Integrators
  import opened BdptPaths
  import opened MisWeights
  import SceneReader

  /**
   * What one sample draws on: the oracles of the eye walk (non-adjoint
   * `BxDF`), those of the light walk (adjoint `BxDF`), the number `r` that
   * picks the light, the point sampled on it and the emission direction.
   */
  datatype Draw = Draw(eye: Shading, light: Shading, r: real,
                       samplePoint: (int, Intersection) -> Intersection, emitDir: Vector3f)

  /**
   * The scene as the loop sees it: its objects, the indices of its
   * emitters, the shadow-ray test `isShadowRayBlocked(orig, target)` and the
   * camera projection behind `worldPos2PixelIndex`.
   */
  datatype Scene = Scene(objs: seq<SceneObject>, lights: seq<int>,
                         blocked: (Vector3f, Vector3f) -> bool, raster: Vector3f -> (real, real))

  /**
   * What a strategy does: nothing, add to the pixel's own estimate, or add
   * to frame-buffer entry `index` (the `addRGB` of the `t == 1` case).
   */
  datatype Outcome = Skip | Gather(c: Vector3f) | Splat(index: int, c: Vector3f)

  /** The estimate of a pixel and the `addRGB` calls made for other pixels, in order. */
  datatype Tally = Tally(estimate: Vector3f, splats: seq<(int, Vector3f)>)

  // ---------------------------------------------------------------------
  // Hit records name scene objects

  /** A hit record names an object of the scene. */
  predicate InScene(h: Intersection, objs: seq<SceneObject>)
  {
    h.intersected ==> 0 <= h.obj < |objs|
  }

  /** Every eye vertex after the camera names an object of the scene. */
  predicate HitsNameObjects(ep: seq<PathVert>, objs: seq<SceneObject>)
  {
    forall i :: 1 <= i < |ep| ==> InScene(ep[i].inter, objs)
  }

  /**
   * The ray caster reports hits on scene objects only, and applying a
   * texture keeps the object a hit names.
   */
  ghost predicate Anchored(sh: Shading, objs: seq<SceneObject>)
  {
    && (forall o, d :: InScene(sh.trace(o, d), objs))
    && (forall h :: InScene(h, objs) ==> InScene(sh.texture(h), objs))
  }

  /** A walk whose oracles report scene hits only appends vertices on scene objects. */
  lemma {:induction false} WalkStaysInScene(sh: Shading, tp: Vector3f, wi: Vector3f, hit: Intersection,
                                            path: seq<PathVert>, limit: nat, objs: seq<SceneObject>)
    requires |path| >= 1 && Anchored(sh, objs) && InScene(hit, objs) && HitsNameObjects(path, objs)
    ensures HitsNameObjects(WalkFrom(sh, tp, wi, hit, path, limit), objs)
    decreases limit - |path|
  {
    if |path| < limit {
      var g := GrowStep(sh, |path|, path[|path| - 1], tp, wi, hit);
      match g
      case Halt =>
      case Last(v) =>
        assert v.inter == sh.texture(hit);
        assert HitsNameObjects(path + [v], objs);
      case More(v, tp', wi', hit') =>
        assert v.inter == sh.texture(hit);
        var path' := path + [v];
        assert HitsNameObjects(path', objs);
        WalkStaysInScene(sh, tp', wi', hit', path', limit, objs);
    }
  }

  // ---------------------------------------------------------------------
  // The three kinds of strategy

  /** `we * ev.throughput * l`: the unweighted value of eye vertex `t - 1` hitting an emitter. */
  function EyeHitValue(ep: seq<PathVert>, t: nat, we: real): Vector3f
    requires 1 <= t <= |ep|
  {
    Mul(Scale(ep[t - 1].throughput, we), ep[t - 1].inter.mtlcolor.emission)
  }

  /**
   * The `s == 0` case. An UNLIT primary hit (the raw hit the camera ray
   * found) adds its diffuse colour unweighted; otherwise only an emissive
   * eye vertex with a nonzero value counts, by its MIS weight.
   */
  function EyeHit(d: Draw, ep: seq<PathVert>, lp: seq<PathVert>, t: nat, cam: Camera, sc: Scene,
                  primary: Intersection, we: real): Outcome
    reads cam
    requires 2 <= t <= |ep| && HitsNameObjects(ep, sc.objs)
  {
    if primary.mtlcolor.mType == UNLIT then Gather(primary.mtlcolor.diffuse)
    else if !HasEmission(ep[t - 1].inter.mtlcolor) then Skip
    else
      var u := EyeHitValue(ep, t, we);
      if Norm2(u) == 0.0 then Skip
      else Gather(Scale(u, MisWeightOf(d.eye, ep, lp, 0, t, cam, sc.objs, sc.lights)))
  }

  /** The direction from light vertex `s - 1` to the camera. */
  function ToCameraDir(lp: seq<PathVert>, s: nat, cam: Camera, sqrt: real -> real): Vector3f
    reads cam
    requires 1 <= s <= |lp|
  {
    Unit(Sub(cam.position, lp[s - 1].inter.pos), sqrt)
  }

  /**
   * The origin of the shadow ray from light vertex `s - 1` to the camera:
   * moved off the surface, to the inside when the vertex is not the light
   * itself and the camera lies below its geometric normal.
   */
  function ToCameraOrigin(d: Draw, lp: seq<PathVert>, s: nat, cam: Camera): Vector3f
    reads cam
    requires 1 <= s <= |lp|
  {
    var lv := lp[s - 1];
    var inside := s != 1 && Dot(ToCameraDir(lp, s, cam, d.eye.sqrt), lv.inter.Ng) < 0.0;
    d.light.offset(lv.inter.pos, lv.inter.Ns, inside)
  }

  /**
   * `l * bsdf * lv.throughput * G` of the `t == 1` case: the light's
   * emission, the reflectance toward the camera (1 on the light itself),
   * the throughput and the geometry term to the camera.
   */
  function ToCameraBase(d: Draw, lp: seq<PathVert>, s: nat, cam: Camera): Vector3f
    reads cam
    requires 1 <= s <= |lp|
  {
    var lv := lp[s - 1];
    var wi := ToCameraDir(lp, s, cam, d.eye.sqrt);
    var bsdf := if s == 1 then Broadcast(1.0)
                else d.light.bxdf(lv.inter, wi, Unit(Sub(lp[s - 2].inter.pos, lv.inter.pos), d.eye.sqrt), false);
    var G := Geo(cam.position, cam.fwdDir, lv.inter.pos, lv.inter.Ng, d.eye.sqrt);
    Scale(Mul(Mul(lp[0].inter.mtlcolor.emission, bsdf), lv.throughput), G)
  }

  /** `... * we * SPP_inv`: the base value times the importance of the vertex, over the sample count. */
  function ToCameraValue(d: Draw, lp: seq<PathVert>, s: nat, cam: Camera, sc: Scene): Vector3f
    reads cam
    requires 1 <= s <= |lp|
  {
    Scale(Scale(ToCameraBase(d, lp, s, cam), We(lp[s - 1].inter, cam, sc.raster, d.eye.sqrt)), SceneReader.SPP_INV)
  }

  /**
   * The `t == 1` case: an emissive light vertex is skipped; a nonzero value
   * goes, by its MIS weight, to the pixel the vertex projects to, when the
   * shadow ray to the camera is free and the camera looks toward the vertex.
   */
  function ToCamera(d: Draw, ep: seq<PathVert>, lp: seq<PathVert>, s: nat, cam: Camera, sc: Scene): Outcome
    reads cam
    requires 1 <= |ep| && 1 <= s <= |lp|
  {
    if HasEmission(lp[s - 1].inter.mtlcolor) then Skip
    else
      var u := ToCameraValue(d, lp, s, cam, sc);
      if Norm2(u) == 0.0 then Skip
      else
        var w := MisWeightOf(d.eye, ep, lp, s, 1, cam, sc.objs, sc.lights);
        if !sc.blocked(ToCameraOrigin(d, lp, s, cam), cam.position) && Dot(ToCameraDir(lp, s, cam, d.eye.sqrt), cam.fwdDir) < 0.0
        then Splat(cam.WorldPos2PixelIndex(lp[s - 1].inter.pos, sc.raster), Scale(u, w))
        else Skip
  }

  /** `connectDir`: the direction from light vertex `s - 1` to eye vertex `t - 1`. */
  function ConnectDir(ep: seq<PathVert>, lp: seq<PathVert>, s: nat, t: nat, sqrt: real -> real): Vector3f
    requires 1 <= s <= |lp| && 1 <= t <= |ep|
  {
    Unit(Sub(ep[t - 1].inter.pos, lp[s - 1].inter.pos), sqrt)
  }

  /** `e_wo`: the direction from eye vertex `t - 1` back to eye vertex `t - 2`. */
  function EyeOut(ep: seq<PathVert>, t: nat, sqrt: real -> real): Vector3f
    requires 2 <= t <= |ep|
  {
    Unit(Sub(ep[t - 2].inter.pos, ep[t - 1].inter.pos), sqrt)
  }

  /** `l_wo`: the direction from light vertex `s - 1` back to light vertex `s - 2`. */
  function LightOut(lp: seq<PathVert>, s: nat, sqrt: real -> real): Vector3f
    requires 2 <= s <= |lp|
  {
    Unit(Sub(lp[s - 2].inter.pos, lp[s - 1].inter.pos), sqrt)
  }

  /**
   * `lvBSDF`: on the light itself 1 toward the side its shading normal
   * faces and 0 behind it; elsewhere the adjoint reflectance.
   */
  function LightBsdf(d: Draw, ep: seq<PathVert>, lp: seq<PathVert>, s: nat, t: nat): Vector3f
    requires 1 <= s <= |lp| && 2 <= t <= |ep|
  {
    var dir := ConnectDir(ep, lp, s, t, d.eye.sqrt);
    if s == 1 then (if Dot(dir, lp[0].inter.Ns) >= 0.0 then Broadcast(1.0) else Broadcast(0.0))
    else d.light.bxdf(lp[s - 1].inter, dir, LightOut(lp, s, d.eye.sqrt), false)
  }

  /** `eOrig`: eye vertex `t - 1` moved off its surface toward the side `e_wo` lies on. */
  function EyeOrigin(d: Draw, ep: seq<PathVert>, t: nat): Vector3f
    requires 2 <= t <= |ep|
  {
    var ev := ep[t - 1];
    d.eye.offset(ev.inter.pos, ev.inter.Ns, Dot(EyeOut(ep, t, d.eye.sqrt), ev.inter.Ns) < 0.0)
  }

  /**
   * `lorig`: light vertex `s - 1` moved off its surface, outward on the
   * light itself and toward the side `l_wo` lies on elsewhere.
   */
  function LightOrigin(d: Draw, lp: seq<PathVert>, s: nat): Vector3f
    requires 1 <= s <= |lp|
  {
    var lv := lp[s - 1];
    var inside := s != 1 && Dot(LightOut(lp, s, d.eye.sqrt), lv.inter.Ns) < 0.0;
    d.light.offset(lv.inter.pos, lv.inter.Ns, inside)
  }

  /**
   * `we * ev.throughput * evBSDF * G * lv.throughput * lvBSDF * l`: the
   * unweighted value of joining eye vertex `t - 1` to light vertex `s - 1`.
   */
  function ConnectValue(d: Draw, ep: seq<PathVert>, lp: seq<PathVert>, s: nat, t: nat, we: real): Vector3f
    requires 1 <= s <= |lp| && 2 <= t <= |ep|
  {
    var ev := ep[t - 1];
    var lv := lp[s - 1];
    var dir := ConnectDir(ep, lp, s, t, d.eye.sqrt);
    var evBsdf := d.eye.bxdf(ev.inter, Neg(dir), EyeOut(ep, t, d.eye.sqrt), false);
    var G := Geo(ev.inter.pos, ev.inter.Ng, lv.inter.pos, lv.inter.Ng, d.eye.sqrt);
    Mul(Mul(Mul(Scale(Mul(Scale(ev.throughput, we), evBsdf), G), lv.throughput), LightBsdf(d, ep, lp, s, t)),
        lp[0].inter.mtlcolor.emission)
  }

  /**
   * The interior case `s >= 1, t >= 2`: an emissive eye vertex is skipped,
   * so is a blocked connection; a nonzero value counts by its MIS weight.
   */
  function Connect(d: Draw, ep: seq<PathVert>, lp: seq<PathVert>, s: nat, t: nat, cam: Camera, sc: Scene, we: real): Outcome
    reads cam
    requires 1 <= s <= |lp| && 2 <= t <= |ep|
  {
    if HasEmission(ep[t - 1].inter.mtlcolor) then Skip
    else if sc.blocked(EyeOrigin(d, ep, t), LightOrigin(d, lp, s)) then Skip
    else
      var u := ConnectValue(d, ep, lp, s, t, we);
      if Norm2(u) == 0.0 then Skip
      else Gather(Scale(u, MisWeightOf(d.eye, ep, lp, s, t, cam, sc.objs, sc.lights)))
  }

  /** The strategies the loop evaluates: `t` eye vertices and `s` light vertices that exist, at least two in all. */
  predicate Admissible(ne: nat, nl: nat, s: nat, t: nat)
  {
    1 <= t <= ne && s <= nl && s + t >= 2
  }

  /**
   * One strategy, by its case; one the subpaths are too short for does
   * nothing. Only the `t == 1` case adds to another pixel.
   */
  function Strategy(d: Draw, ep: seq<PathVert>, lp: seq<PathVert>, s: nat, t: nat, cam: Camera, sc: Scene,
                    primary: Intersection, we: real): (o: Outcome)
    reads cam
    requires HitsNameObjects(ep, sc.objs)
    ensures o != Skip ==> Admissible(|ep|, |lp|, s, t)
    ensures o.Splat? ==> t == 1
  {
    if !Admissible(|ep|, |lp|, s, t) then Skip
    else if s == 0 then EyeHit(d, ep, lp, t, cam, sc, primary, we)
    else if t == 1 then ToCamera(d, ep, lp, s, cam, sc)
    else Connect(d, ep, lp, s, t, cam, sc, we)
  }

  // ---------------------------------------------------------------------
  // What each case promises

  /**
   * `s == 0` with a primary hit that is not UNLIT: the strategy counts
   * exactly when the eye end is emissive and its value is nonzero.
   */
  lemma EyeHitCounts(d: Draw, ep: seq<PathVert>, lp: seq<PathVert>, t: nat, cam: Camera, sc: Scene,
                     primary: Intersection, we: real)
    requires 2 <= t <= |ep| && HitsNameObjects(ep, sc.objs)
    ensures primary.mtlcolor.mType != UNLIT ==>
      (EyeHit(d, ep, lp, t, cam, sc, primary, we) != Skip <==>
         HasEmission(ep[t - 1].inter.mtlcolor) && EyeHitValue(ep, t, we) != Zero())
  {
    Norm2ZeroIffZero(EyeHitValue(ep, t, we));
  }

  /**
   * `s == 0` never adds to another pixel. An UNLIT primary hit adds its
   * diffuse colour unweighted; otherwise what is added is the value scaled
   * by the MIS weight.
   */
  lemma EyeHitAdds(d: Draw, ep: seq<PathVert>, lp: seq<PathVert>, t: nat, cam: Camera, sc: Scene,
                   primary: Intersection, we: real)
    requires 2 <= t <= |ep| && HitsNameObjects(ep, sc.objs)
    ensures !EyeHit(d, ep, lp, t, cam, sc, primary, we).Splat?
    ensures primary.mtlcolor.mType == UNLIT ==> EyeHit(d, ep, lp, t, cam, sc, primary, we) == Gather(primary.mtlcolor.diffuse)
    ensures primary.mtlcolor.mType != UNLIT && EyeHit(d, ep, lp, t, cam, sc, primary, we) != Skip ==>
      EyeHit(d, ep, lp, t, cam, sc, primary, we).c ==
        Scale(EyeHitValue(ep, t, we), MisWeightOf(d.eye, ep, lp, 0, t, cam, sc.objs, sc.lights))
  {
  }

  /** A camera ray that lands on an emitter at its first hit counts at full weight. */
  lemma DirectHitFullWeight(d: Draw, ep: seq<PathVert>, lp: seq<PathVert>, cam: Camera, sc: Scene,
                            primary: Intersection, we: real)
    requires 2 <= |ep| && HitsNameObjects(ep, sc.objs)
    requires primary.mtlcolor.mType != UNLIT && HasEmission(ep[1].inter.mtlcolor) && EyeHitValue(ep, 2, we) != Zero()
    ensures EyeHit(d, ep, lp, 2, cam, sc, primary, we) == Gather(EyeHitValue(ep, 2, we))
  {
    var u := EyeHitValue(ep, 2, we);
    Norm2ZeroIffZero(u);
    assert Scale(u, 1.0) == u;
  }

  /** Scaling by 0, then by anything, gives the zero vector. */
  lemma ScaleZeroThen(v: Vector3f, k: real)
    ensures Scale(Scale(v, 0.0), k) == Zero()
  {
  }

  /** The importance 0 of a point outside the image makes the `t == 1` value zero. */
  lemma OffImageValue(d: Draw, lp: seq<PathVert>, s: nat, cam: Camera, sc: Scene)
    requires 1 <= s <= |lp|
    requires cam.WorldPos2PixelIndex(lp[s - 1].inter.pos, sc.raster) == -1
    ensures ToCameraValue(d, lp, s, cam, sc) == Zero()
  {
    var b := ToCameraBase(d, lp, s, cam);
    assert We(lp[s - 1].inter, cam, sc.raster, d.eye.sqrt) == 0.0;
    ScaleZeroThen(b, SceneReader.SPP_INV);
  }

  /**
   * `t == 1`: the strategy never adds to the pixel's own estimate; it adds
   * to another pixel exactly when the light vertex does not emit, its value
   * is nonzero, the shadow ray to the camera is free and the camera faces
   * the vertex.
   */
  lemma ToCameraCounts(d: Draw, ep: seq<PathVert>, lp: seq<PathVert>, s: nat, cam: Camera, sc: Scene)
    requires 1 <= |ep| && 1 <= s <= |lp|
    ensures !ToCamera(d, ep, lp, s, cam, sc).Gather?
    ensures ToCamera(d, ep, lp, s, cam, sc) != Skip <==>
      && !HasEmission(lp[s - 1].inter.mtlcolor)
      && ToCameraValue(d, lp, s, cam, sc) != Zero()
      && !sc.blocked(ToCameraOrigin(d, lp, s, cam), cam.position)
      && Dot(ToCameraDir(lp, s, cam, d.eye.sqrt), cam.fwdDir) < 0.0
  {
    Norm2ZeroIffZero(ToCameraValue(d, lp, s, cam, sc));
  }

  /**
   * `t == 1`: the pixel added to is the one the light vertex projects to,
   * always an entry of the frame buffer, and the value added is scaled by
   * the MIS weight.
   */
  lemma ToCameraRule(d: Draw, ep: seq<PathVert>, lp: seq<PathVert>, s: nat, cam: Camera, sc: Scene)
    requires 1 <= |ep| && 1 <= s <= |lp|
    ensures ToCamera(d, ep, lp, s, cam, sc).Splat? ==>
      var o := ToCamera(d, ep, lp, s, cam, sc);
      && o.index == cam.WorldPos2PixelIndex(lp[s - 1].inter.pos, sc.raster)
      && 0 <= o.index < cam.width * cam.height
      && o.c == Scale(ToCameraValue(d, lp, s, cam, sc), MisWeightOf(d.eye, ep, lp, s, 1, cam, sc.objs, sc.lights))
  {
    if cam.WorldPos2PixelIndex(lp[s - 1].inter.pos, sc.raster) == -1 {
      OffImageValue(d, lp, s, cam, sc);
    }
  }

  /**
   * Interior strategies: the strategy adds to the pixel's own estimate, and
   * does so exactly when the eye vertex does not emit, the connection is
   * not blocked and the value is nonzero; the value is scaled by the MIS
   * weight.
   */
  lemma ConnectRule(d: Draw, ep: seq<PathVert>, lp: seq<PathVert>, s: nat, t: nat, cam: Camera, sc: Scene, we: real)
    requires 1 <= s <= |lp| && 2 <= t <= |ep|
    ensures !Connect(d, ep, lp, s, t, cam, sc, we).Splat?
    ensures Connect(d, ep, lp, s, t, cam, sc, we) != Skip <==>
      && !HasEmission(ep[t - 1].inter.mtlcolor)
      && !sc.blocked(EyeOrigin(d, ep, t), LightOrigin(d, lp, s))
      && ConnectValue(d, ep, lp, s, t, we) != Zero()
    ensures Connect(d, ep, lp, s, t, cam, sc, we) != Skip ==>
      Connect(d, ep, lp, s, t, cam, sc, we).c ==
        Scale(ConnectValue(d, ep, lp, s, t, we), MisWeightOf(d.eye, ep, lp, s, t, cam, sc.objs, sc.lights))
  {
    var u := ConnectValue(d, ep, lp, s, t, we);
    Norm2ZeroIffZero(u);
    if HasEmission(ep[t - 1].inter.mtlcolor) || sc.blocked(EyeOrigin(d, ep, t), LightOrigin(d, lp, s)) {
      assert Connect(d, ep, lp, s, t, cam, sc, we) == Skip;
    } else if u == Zero() {
      assert Connect(d, ep, lp, s, t, cam, sc, we) == Skip;
    }
  }

  /** Joining to the light from behind its shading normal contributes nothing. */
  lemma BehindLightSkipped(d: Draw, ep: seq<PathVert>, lp: seq<PathVert>, t: nat, cam: Camera, sc: Scene, we: real)
    requires 1 <= |lp| && 2 <= t <= |ep|
    requires Dot(ConnectDir(ep, lp, 1, t, d.eye.sqrt), lp[0].inter.Ns) < 0.0
    ensures LightBsdf(d, ep, lp, 1, t) == Zero()
    ensures Connect(d, ep, lp, 1, t, cam, sc, we) == Skip
  {
    assert ConnectValue(d, ep, lp, 1, t, we) == Zero();
  }

  // ---------------------------------------------------------------------
  // The order of the strategies

  /** Strategy `(s, len + 1 - s)` when both subpaths are long enough, else nothing. */
  function Cell(len: nat, s: nat, ne: nat, nl: nat): seq<(nat, nat)>
    requires s <= len
  {
    if len + 1 - s <= ne && s <= nl then [(s, len + 1 - s)] else []
  }

  /** The strategies of path length `len` with fewer than `k` light vertices, by `s`. */
  function RowTo(len: nat, k: nat, ne: nat, nl: nat): seq<(nat, nat)>
    requires k <= len + 1
  {
    if k == 0 then [] else RowTo(len, k - 1, ne, nl) + Cell(len, k - 1, ne, nl)
  }

  /** The strategies of path lengths `1..len`, by length. */
  function Lengths(len: nat, ne: nat, nl: nat): seq<(nat, nat)>
  {
    if len == 0 then [] else Lengths(len - 1, ne, nl) + RowTo(len, len + 1, ne, nl)
  }

  /** The strategies the loop evaluates for `ne` eye and `nl` light vertices, in its order. */
  function StrategyOrder(ne: nat, nl: nat): seq<(nat, nat)>
  {
    Lengths(MAX_PATHLENGTH, ne, nl)
  }

  /** `a` comes before `b`: a shorter path, or as long with fewer light vertices. */
  predicate Before(a: (nat, nat), b: (nat, nat))
  {
    a.0 + a.1 < b.0 + b.1 || (a.0 + a.1 == b.0 + b.1 && a.0 < b.0)
  }

  lemma {:induction false} RowToMembers(len: nat, k: nat, ne: nat, nl: nat)
    requires k <= len + 1
    ensures forall p :: p in RowTo(len, k, ne, nl) <==> p.0 < k && p.0 + p.1 == len + 1 && p.1 <= ne && p.0 <= nl
  {
    if k > 0 {
      RowToMembers(len, k - 1, ne, nl);
    }
  }

  lemma {:induction false} RowToSorted(len: nat, k: nat, ne: nat, nl: nat)
    requires k <= len + 1
    ensures forall i, j :: 0 <= i < j < |RowTo(len, k, ne, nl)| ==> Before(RowTo(len, k, ne, nl)[i], RowTo(len, k, ne, nl)[j])
  {
    if k > 0 {
      RowToSorted(len, k - 1, ne, nl);
      RowToMembers(len, k - 1, ne, nl);
      var a := RowTo(len, k - 1, ne, nl);
      var r := a + Cell(len, k - 1, ne, nl);
      forall i, j | 0 <= i < j < |r|
        ensures Before(r[i], r[j])
      {
        if j >= |a| {
          assert r[i] == a[i] && r[i] in a;
        } else {
          assert r[i] == a[i] && r[j] == a[j];
        }
      }
    }
  }

  lemma {:induction false} LengthsMembers(len: nat, ne: nat, nl: nat)
    ensures forall p :: p in Lengths(len, ne, nl) <==> 1 <= p.1 <= ne && p.0 <= nl && 2 <= p.0 + p.1 <= len + 1
  {
    if len > 0 {
      LengthsMembers(len - 1, ne, nl);
      RowToMembers(len, len + 1, ne, nl);
    }
  }

  lemma {:induction false} LengthsSorted(len: nat, ne: nat, nl: nat)
    ensures forall i, j :: 0 <= i < j < |Lengths(len, ne, nl)| ==> Before(Lengths(len, ne, nl)[i], Lengths(len, ne, nl)[j])
  {
    if len > 0 {
      LengthsSorted(len - 1, ne, nl);
      LengthsMembers(len - 1, ne, nl);
      RowToSorted(len, len + 1, ne, nl);
      RowToMembers(len, len + 1, ne, nl);
      var a := Lengths(len - 1, ne, nl);
      var b := RowTo(len, len + 1, ne, nl);
      var r := a + b;
      forall i, j | 0 <= i < j < |r|
        ensures Before(r[i], r[j])
      {
        if j < |a| {
          assert r[i] == a[i] && r[j] == a[j];
        } else if i >= |a| {
          assert r[i] == b[i - |a|] && r[j] == b[j - |a|];
        } else {
          assert r[i] == a[i] && a[i] in a;
          assert r[j] == b[j - |a|] && b[j - |a|] in b;
        }
      }
    }
  }

  /**
   * The loop visits exactly the strategies with `1 <= t <= ne` eye
   * vertices, `s <= nl` light vertices and `2..MAX_PATHLENGTH + 1`
   * vertices in all: never `t == 0`, never a lone vertex.
   */
  lemma StrategyOrderMembers(ne: nat, nl: nat, s: nat, t: nat)
    ensures (s, t) in StrategyOrder(ne, nl) <==> 1 <= t <= ne && s <= nl && 2 <= s + t <= MAX_PATHLENGTH + 1
  {
    LengthsMembers(MAX_PATHLENGTH, ne, nl);
  }

  /**
   * The loop visits shorter paths first and, for one length, fewer light
   * vertices first; so it visits no strategy twice.
   */
  lemma StrategyOrderOnce(ne: nat, nl: nat)
    ensures forall i, j :: 0 <= i < j < |StrategyOrder(ne, nl)| ==>
      Before(StrategyOrder(ne, nl)[i], StrategyOrder(ne, nl)[j]) && StrategyOrder(ne, nl)[i] != StrategyOrder(ne, nl)[j]
  {
    LengthsSorted(MAX_PATHLENGTH, ne, nl);
  }

  // ---------------------------------------------------------------------
  // One sample

  /** The effect of one strategy on what the sample has gathered. */
  function Apply(acc: Tally, o: Outcome): Tally
  {
    match o
    case Skip => acc
    case Gather(c) => acc.(estimate := Add(acc.estimate, c))
    case Splat(i, c) => acc.(splats := acc.splats + [(i, c)])
  }

  /** What the strategies of `order` gather, taken in order from nothing. */
  function Accumulate(d: Draw, ep: seq<PathVert>, lp: seq<PathVert>, order: seq<(nat, nat)>, cam: Camera, sc: Scene,
                      primary: Intersection, we: real): Tally
    reads cam
    requires HitsNameObjects(ep, sc.objs)
  {
    if order == [] then Tally(Zero(), [])
    else
      var p := order[|order| - 1];
      Apply(Accumulate(d, ep, lp, order[..|order| - 1], cam, sc, primary, we),
            Strategy(d, ep, lp, p.0, p.1, cam, sc, primary, we))
  }

  /** A strategy's addition to another pixel names an entry of the frame buffer. */
  lemma StrategySplatOnImage(d: Draw, ep: seq<PathVert>, lp: seq<PathVert>, s: nat, t: nat, cam: Camera, sc: Scene,
                             primary: Intersection, we: real)
    requires HitsNameObjects(ep, sc.objs)
    ensures var o := Strategy(d, ep, lp, s, t, cam, sc, primary, we);
      o.Splat? ==> 0 <= o.index < cam.width * cam.height
  {
    if Admissible(|ep|, |lp|, s, t) && s != 0 && t == 1 {
      ToCameraRule(d, ep, lp, s, cam, sc);
    }
  }

  /** Every `addRGB` the strategies of `order` make names an entry of the frame buffer. */
  lemma {:induction false} SplatsOnImage(d: Draw, ep: seq<PathVert>, lp: seq<PathVert>, order: seq<(nat, nat)>, cam: Camera,
                                         sc: Scene, primary: Intersection, we: real)
    requires HitsNameObjects(ep, sc.objs)
    ensures forall a :: a in Accumulate(d, ep, lp, order, cam, sc, primary, we).splats ==> 0 <= a.0 < cam.width * cam.height
  {
    if order != [] {
      var p := order[|order| - 1];
      SplatsOnImage(d, ep, lp, order[..|order| - 1], cam, sc, primary, we);
      StrategySplatOnImage(d, ep, lp, p.0, p.1, cam, sc, primary, we);
    }
  }

  /** Adding one strategy to the end of an order applies its outcome last. */
  lemma AccumulateSnoc(d: Draw, ep: seq<PathVert>, lp: seq<PathVert>, order: seq<(nat, nat)>, p: (nat, nat), cam: Camera,
                       sc: Scene, primary: Intersection, we: real)
    requires HitsNameObjects(ep, sc.objs)
    ensures Accumulate(d, ep, lp, order + [p], cam, sc, primary, we) ==
            Apply(Accumulate(d, ep, lp, order, cam, sc, primary, we), Strategy(d, ep, lp, p.0, p.1, cam, sc, primary, we))
  {
    assert (order + [p])[..|order|] == order;
  }

  /** The inner loop's order grows by one cell per turn. */
  lemma RowToStep(prefix: seq<(nat, nat)>, len: nat, s: nat, ne: nat, nl: nat)
    requires s <= len
    ensures prefix + RowTo(len, s + 1, ne, nl) == (prefix + RowTo(len, s, ne, nl)) + Cell(len, s, ne, nl)
    ensures Cell(len, s, ne, nl) == [] ==> prefix + RowTo(len, s + 1, ne, nl) == prefix + RowTo(len, s, ne, nl)
  {
  }

  /**
   * One turn of the inner loop: strategy `(s, len + 1 - s)` is evaluated
   * and gathered when both subpaths are long enough, and skipped otherwise.
   */
  method StrategyStep(d: Draw, ep: seq<PathVert>, lp: seq<PathVert>, len: nat, s: nat, ghost prefix: seq<(nat, nat)>,
                      acc: Tally, cam: Camera, sc: Scene, primary: Intersection, we: real) returns (tally: Tally)
    requires s <= len && HitsNameObjects(ep, sc.objs)
    requires acc == Accumulate(d, ep, lp, prefix + RowTo(len, s, |ep|, |lp|), cam, sc, primary, we)
    ensures tally == Accumulate(d, ep, lp, prefix + RowTo(len, s + 1, |ep|, |lp|), cam, sc, primary, we)
  {
    ghost var done := prefix + RowTo(len, s, |ep|, |lp|);
    RowToStep(prefix, len, s, |ep|, |lp|);
    tally := acc;
    var t := len + 1 - s;
    if t <= |ep| && s <= |lp| {
      AccumulateSnoc(d, ep, lp, done, (s, t), cam, sc, primary, we);
      tally := Apply(tally, Strategy(d, ep, lp, s, t, cam, sc, primary, we));
    }
  }

  /**
   * The inner loop for path length `len`: `s` from 0 to `len`, with
   * `t = len + 1 - s`; `acc` is what the strategies of `prefix` gathered
   * before it.
   */
  method LengthStrategies(d: Draw, ep: seq<PathVert>, lp: seq<PathVert>, len: nat, ghost prefix: seq<(nat, nat)>,
                          acc: Tally, cam: Camera, sc: Scene, primary: Intersection, we: real) returns (tally: Tally)
    requires 1 <= len && HitsNameObjects(ep, sc.objs)
    requires acc == Accumulate(d, ep, lp, prefix, cam, sc, primary, we)
    ensures tally == Accumulate(d, ep, lp, prefix + RowTo(len, len + 1, |ep|, |lp|), cam, sc, primary, we)
  {
    tally := acc;
    assert prefix + RowTo(len, 0, |ep|, |lp|) == prefix;
    for s := 0 to len + 1
      invariant tally == Accumulate(d, ep, lp, prefix + RowTo(len, s, |ep|, |lp|), cam, sc, primary, we)
    {
      tally := StrategyStep(d, ep, lp, len, s, prefix, tally, cam, sc, primary, we);
    }
  }

  /** The strategy loop of one sample: path lengths 1 to `MAX_PATHLENGTH`, shortest first. */
  method SampleStrategies(d: Draw, ep: seq<PathVert>, lp: seq<PathVert>, cam: Camera, sc: Scene,
                          primary: Intersection, we: real) returns (tally: Tally)
    requires HitsNameObjects(ep, sc.objs)
    ensures tally == Accumulate(d, ep, lp, StrategyOrder(|ep|, |lp|), cam, sc, primary, we)
  {
    tally := Tally(Zero(), []);
    ghost var done: seq<(nat, nat)> := [];
    for pathLength := 1 to MAX_PATHLENGTH + 1
      invariant done == Lengths(pathLength - 1, |ep|, |lp|)
      invariant tally == Accumulate(d, ep, lp, done, cam, sc, primary, we)
    {
      tally := LengthStrategies(d, ep, lp, pathLength, done, tally, cam, sc, primary, we);
      done := done + RowTo(pathLength, pathLength + 1, |ep|, |lp|);
    }
  }

  /** The camera vertex: the eye position, facing along the view direction, with the camera's densities. */
  function CameraVert(cam: Camera, pixelPos: Vector3f, sqrt: real -> real): PathVert
    reads cam
  {
    var wi := Unit(Sub(pixelPos, cam.position), sqrt);
    var cos := Abs(Dot(wi, cam.fwdDir));
    var d2 := Norm2(Sub(pixelPos, cam.position));
    PathVert(Broadcast(1.0), NoHit().(pos := cam.position, intersected := true, Ng := cam.fwdDir),
             Quotient(Quotient(d2 * cam.filmPlaneAreaInv, cos), cos), cam.lensAreaInv, 0.0, false)
  }

  /** `tp = throughput * cos / pdfCam_w`: the throughput the primary hit starts with. */
  function PrimaryThroughput(cam: Camera, pixelPos: Vector3f, sqrt: real -> real): Vector3f
    reads cam
  {
    var wi := Unit(Sub(pixelPos, cam.position), sqrt);
    var cos := Abs(Dot(wi, cam.fwdDir));
    var d2 := Norm2(Sub(pixelPos, cam.position));
    QuotientVec(Scale(Broadcast(1.0), cos), Quotient(d2 * cam.lensAreaInv * cam.filmPlaneAreaInv, cos))
  }

  /** What a sample needs of its inputs: a light-pick number in `[0, 1)`, a valid light list, scene hits. */
  ghost predicate SampleReady(d: Draw, sc: Scene)
  {
    0.0 <= d.r < 1.0 && ValidIndices(sc.objs, sc.lights) && Anchored(d.eye, sc.objs)
  }

  /** The two vertices `buildEyePath` starts from: the camera vertex and the primary hit. */
  function EyeStart(d: Draw, cam: Camera, pixelPos: Vector3f, primary: Intersection): seq<PathVert>
    reads cam
  {
    var ev := CameraVert(cam, pixelPos, d.eye.sqrt);
    [ev, ev.(inter := primary, throughput := PrimaryThroughput(cam, pixelPos, d.eye.sqrt))]
  }

  /** With oracles that report scene hits only, every eye vertex after the camera names a scene object. */
  lemma EyePathInScene(d: Draw, cam: Camera, pixelPos: Vector3f, primary: Intersection, objs: seq<SceneObject>)
    requires Anchored(d.eye, objs) && InScene(primary, objs)
    ensures HitsNameObjects(EyePath(d.eye, EyeStart(d, cam, pixelPos, primary)), objs)
  {
    var epverts := EyeStart(d, cam, pixelPos, primary);
    WalkStaysInScene(d.eye, epverts[1].throughput, Unit(Sub(epverts[1].inter.pos, epverts[0].inter.pos), d.eye.sqrt),
                     epverts[1].inter, epverts[..1], MAX_PATHLENGTH + 1, objs);
  }

  /**
   * What a sample whose camera ray found `primary` gathers: nothing when
   * the eye path keeps only the camera, otherwise what its strategies
   * gather, with the importance `we` of the pixel centre.
   */
  function SampleGather(d: Draw, cam: Camera, sc: Scene, pixelPos: Vector3f, primary: Intersection): Tally
    reads cam
    requires SampleReady(d, sc) && InScene(primary, sc.objs)
  {
    var ep := EyePath(d.eye, EyeStart(d, cam, pixelPos, primary));
    var lp := LightPath(d.light, sc.objs, sc.lights, d.r, d.samplePoint, d.emitDir);
    if |ep| < 2 then Tally(Zero(), [])
    else
      EyePathInScene(d, cam, pixelPos, primary, sc.objs);
      Accumulate(d, ep, lp, StrategyOrder(|ep|, |lp|), cam, sc, primary, We(NoHit().(pos := pixelPos), cam, sc.raster, d.eye.sqrt))
  }

  /** One sample: `None` when the camera ray misses the scene (the loop breaks). */
  function SampleRun(d: Draw, cam: Camera, sc: Scene, pixelPos: Vector3f): Option<Tally>
    reads cam
    requires SampleReady(d, sc)
  {
    var primary := d.eye.trace(cam.position, Unit(Sub(pixelPos, cam.position), d.eye.sqrt));
    if !primary.intersected then None else Some(SampleGather(d, cam, sc, pixelPos, primary))
  }

  /** One turn of the sample loop, building both subpaths and running the strategies. */
  method TraceSample(d: Draw, cam: Camera, sc: Scene, pixelPos: Vector3f) returns (res: Option<Tally>)
    requires SampleReady(d, sc)
    ensures res == SampleRun(d, cam, sc, pixelPos)
    ensures res.Some? ==> forall a :: a in res.value.splats ==> 0 <= a.0 < cam.width * cam.height
  {
    var wi := Unit(Sub(pixelPos, cam.position), d.eye.sqrt);
    var primary := d.eye.trace(cam.position, wi);
    if !primary.intersected {
      return None;
    }
    var epverts := EyeStart(d, cam, pixelPos, primary);
    var ep := BuildEyePath(d.eye, epverts);
    var lp := BuildLightPath(d.light, sc.objs, sc.lights, d.r, d.samplePoint, d.emitDir);
    var we := We(NoHit().(pos := pixelPos), cam, sc.raster, d.eye.sqrt);
    if |ep| < 2 {
      return Some(Tally(Zero(), []));
    }
    EyePathInScene(d, cam, pixelPos, primary, sc.objs);
    var tally := SampleStrategies(d, ep, lp, cam, sc, primary, we);
    SplatsOnImage(d, ep, lp, StrategyOrder(|ep|, |lp|), cam, sc, primary, we);
    res := Some(tally);
  }

  // ---------------------------------------------------------------------
  // One pixel

  /** Two samples' gatherings one after the other. */
  function Merge(a: Tally, b: Tally): Tally
  {
    Tally(Add(a.estimate, b.estimate), a.splats + b.splats)
  }

  /** What a run of samples gathered, taken in order; a sample whose camera ray missed gathers nothing. */
  function Gathered(results: seq<Option<Tally>>): Tally
  {
    if results == [] then Tally(Zero(), [])
    else
      var prev := Gathered(results[..|results| - 1]);
      match results[|results| - 1]
      case None => prev
      case Some(t) => Merge(prev, t)
  }

  /** One more sample adds what it gathered, if its camera ray hit. */
  lemma GatheredSnoc(results: seq<Option<Tally>>, r: Option<Tally>)
    ensures Gathered(results + [r]) == if r.None? then Gathered(results) else Merge(Gathered(results), r.value)
  {
    assert (results + [r])[..|results|] == results;
  }

  /**
   * The samples the loop takes out of `n`: all of them, or up to and
   * including the first whose camera ray missed.
   */
  predicate StopsAtFirstMiss(results: seq<Option<Tally>>, n: nat)
  {
    && |results| <= n
    && (forall k :: 0 <= k < |results| - 1 ==> results[k].Some?)
    && (|results| < n ==> |results| > 0 && results[|results| - 1].None?)
  }

  /** A pixel whose first camera ray misses the scene stays black and adds to no other pixel. */
  lemma FirstMissIsBlack(results: seq<Option<Tally>>, n: nat)
    requires StopsAtFirstMiss(results, n) && 1 <= |results| && results[0].None?
    ensures Gathered(results) == Tally(Zero(), [])
  {
    assert results[..0] == [];
  }

  /**
   * One turn of the sample loop: sample `i` is traced and, when its camera
   * ray hit, what it gathered is added to `acc`.
   */
  method PixelStep(draws: nat -> Draw, i: nat, cam: Camera, sc: Scene, pixelPos: Vector3f,
                   ghost results: seq<Option<Tally>>, acc: Tally)
    returns (acc': Tally, missed: bool, ghost results': seq<Option<Tally>>)
    requires forall j :: SampleReady(draws(j), sc)
    requires |results| == i
    requires forall k {:trigger SampleRun(draws(k), cam, sc, pixelPos)} :: 0 <= k < i ==> results[k] == SampleRun(draws(k), cam, sc, pixelPos)
    requires acc == Gathered(results)
    requires forall a :: a in acc.splats ==> 0 <= a.0 < cam.width * cam.height
    ensures |results'| == i + 1 && results' == results + [results'[i]] && missed == results'[i].None?
    ensures forall k {:trigger SampleRun(draws(k), cam, sc, pixelPos)} :: 0 <= k <= i ==> results'[k] == SampleRun(draws(k), cam, sc, pixelPos)
    ensures acc' == Gathered(results')
    ensures forall a :: a in acc'.splats ==> 0 <= a.0 < cam.width * cam.height
  {
    var res := TraceSample(draws(i), cam, sc, pixelPos);
    GatheredSnoc(results, res);
    results' := results + [res];
    missed := res.None?;
    acc' := if missed then acc else Merge(acc, res.value);
  }

  /**
   * The colour `sub_render_bdpt` adds to the pixel's own entry, the mean
   * `estimate * SPP_inv` over the samples before the first miss, and the
   * additions its `t == 1` strategies make to other entries, in order.
   * `results` are the samples the loop took. Every addition names an entry
   * of the frame buffer.
   */
  method RenderPixel(draws: nat -> Draw, cam: Camera, sc: Scene, pixelPos: Vector3f)
    returns (color: Vector3f, splats: seq<(int, Vector3f)>, ghost results: seq<Option<Tally>>)
    requires forall i :: SampleReady(draws(i), sc)
    ensures StopsAtFirstMiss(results, SceneReader.SPP)
    ensures forall k {:trigger SampleRun(draws(k), cam, sc, pixelPos)} :: 0 <= k < |results| ==> results[k] == SampleRun(draws(k), cam, sc, pixelPos)
    ensures color == Scale(Gathered(results).estimate, SceneReader.SPP_INV) && splats == Gathered(results).splats
    ensures forall a :: a in splats ==> 0 <= a.0 < cam.width * cam.height
  {
    var acc := Tally(Zero(), []);
    var stopped := false;
    results := [];
    var i := 0;
    while i < SceneReader.SPP && !stopped
      invariant i <= SceneReader.SPP && |results| == i
      invariant stopped ==> i > 0 && results[i - 1].None?
      invariant forall k :: 0 <= k < i - 1 ==> results[k].Some?
      invariant !stopped ==> forall k :: 0 <= k < i ==> results[k].Some?
      invariant forall k {:trigger SampleRun(draws(k), cam, sc, pixelPos)} :: 0 <= k < i ==> results[k] == SampleRun(draws(k), cam, sc, pixelPos)
      invariant acc == Gathered(results)
      invariant forall a :: a in acc.splats ==> 0 <= a.0 < cam.width * cam.height
    {
      acc, stopped, results := PixelStep(draws, i, cam, sc, pixelPos, results, acc);
      i := i + 1;
    }
    color := Scale(acc.estimate, SceneReader.SPP_INV);
    splats := acc.splats;
  }
}
