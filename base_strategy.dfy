/**
 * The brute-force intersection strategy of include/BaseInterStrategy.hpp:
 * every object of the scene's list is asked in turn. `reports[i]` is what
 * object `i`'s `intersect` answers on a fresh record for the ray at hand:
 * the returned flag and the record it leaves.
 */
module BaseStrategy {
  import opened Vectors
  import opened Globals
  import opened Materials
  import opened Intersections
  import opened SceneObjects
  import opened Bounds
  import opened BVH
  import opened BVHStrategy

  type Report = (bool, Intersection)

  /**
   * The record after the first `|reports|` objects were asked: a reporting
   * object replaces the current record when its `t` is strictly smaller.
   */
  function NearestOf(inter: Intersection, reports: seq<Report>): Intersection
  {
    if |reports| == 0 then inter
    else
      var acc := NearestOf(inter, reports[..|reports| - 1]);
      var last := reports[|reports| - 1];
      if last.0 && last.1.t < acc.t then last.1 else acc
  }

  /** Whether object `i` reports a hit. */
  predicate Reports(reports: seq<Report>, i: int)
    requires 0 <= i < |reports|
  {
    reports[i].0
  }

  /**
   * The record `NearestOf` leaves is as near as the incoming one and as every
   * reporting object; it is the incoming record when no reporting object is
   * strictly nearer, and otherwise the record of the FIRST reporting object
   * with the smallest `t` (ties keep the earlier object).
   */
  lemma {:induction false} NearestOfIsFirstMinimum(inter: Intersection, reports: seq<Report>)
    ensures NearestOf(inter, reports).t <= inter.t
    ensures forall i :: 0 <= i < |reports| && Reports(reports, i) ==> NearestOf(inter, reports).t <= reports[i].1.t
    ensures (forall i :: 0 <= i < |reports| && Reports(reports, i) ==> reports[i].1.t >= inter.t) ==>
              NearestOf(inter, reports) == inter
    ensures (exists i :: 0 <= i < |reports| && Reports(reports, i) && reports[i].1.t < inter.t) ==>
              exists k :: 0 <= k < |reports| && Reports(reports, k) && NearestOf(inter, reports) == reports[k].1
                          && (forall j :: 0 <= j < k && Reports(reports, j) ==> reports[j].1.t > reports[k].1.t)
  {
    if |reports| > 0 {
      var front := reports[..|reports| - 1];
      NearestOfIsFirstMinimum(inter, front);
      var acc := NearestOf(inter, front);
      var m := |reports| - 1;
      assert forall i :: 0 <= i < m ==> reports[i] == front[i];
      if exists i :: 0 <= i < |reports| && Reports(reports, i) && reports[i].1.t < inter.t {
        if reports[m].0 && reports[m].1.t < acc.t {
          if exists i :: 0 <= i < m && Reports(front, i) && front[i].1.t < inter.t {
            var k :| 0 <= k < m && Reports(front, k) && acc == front[k].1
                     && (forall j :: 0 <= j < k && Reports(front, j) ==> front[j].1.t > front[k].1.t);
            assert reports[k].1.t > reports[m].1.t;
          }
          assert Reports(reports, m);
        } else {
          var i :| 0 <= i < |reports| && Reports(reports, i) && reports[i].1.t < inter.t;
          if i == m {
            assert acc.t <= reports[m].1.t < inter.t;
          }
          assert exists i :: 0 <= i < m && Reports(front, i) && front[i].1.t < inter.t by {
            if i == m {
              assert acc != inter;
            } else {
              assert Reports(front, i);
            }
          }
          var k :| 0 <= k < m && Reports(front, k) && acc == front[k].1
                   && (forall j :: 0 <= j < k && Reports(front, j) ==> front[j].1.t > front[k].1.t);
          assert Reports(reports, k) && reports[k].1 == acc;
        }
      }
    }
  }

  /**
   * `UpdateInter` over the scene's object list: asks every object and keeps
   * the record with the strictly smallest `t`, starting from `inter`.
   */
  method UpdateInter(inter: Intersection, reports: seq<Report>) returns (res: Intersection)
    ensures res == NearestOf(inter, reports)
  {
    res := inter;
    var i := 0;
    while i < |reports|
      invariant 0 <= i <= |reports|
      invariant res == NearestOf(inter, reports[..i])
    {
      assert reports[..i + 1][..i] == reports[..i];
      var (hit, interTemp) := reports[i];
      if hit {
        if interTemp.t < res.t {
          res := interTemp;
        }
      }
      i := i + 1;
    }
    assert reports[..i] == reports;
  }

  /**
   * Whether object `i` dims the shadow ray: it is neither the object the
   * shading point lies on nor a light, and it reports a hit closer than the
   * light.
   */
  predicate Dims(objs: seq<SceneObject>, reports: seq<Report>, self: int, distance: real, i: int)
    requires 0 <= i < |reports| == |objs|
  {
    i != self && !objs[i].isLight && reports[i].0 && reports[i].1.t < distance
  }

  /** The product of `1 - alpha` over the dimming objects among the first `|reports|`. */
  function Transmittance(objs: seq<SceneObject>, reports: seq<Report>, self: int, distance: real): real
    requires |reports| == |objs|
  {
    if |reports| == 0 then 1.0
    else
      var m := |reports| - 1;
      var acc := Transmittance(objs[..m], reports[..m], self, distance);
      if Dims(objs, reports, self, distance, m) then acc * (1.0 - reports[m].1.mtlcolor.alpha) else acc
  }

  /**
   * The shadow coefficient is 1 when nothing dims the ray, 0 when a fully
   * opaque object (`alpha == 1`) does, and in `[0,1]` when every dimming
   * object's `alpha` is in `[0,1]`.
   */
  lemma {:induction false} TransmittanceBounds(objs: seq<SceneObject>, reports: seq<Report>, self: int, distance: real)
    requires |reports| == |objs|
    ensures (forall i :: 0 <= i < |reports| ==> !Dims(objs, reports, self, distance, i)) ==>
              Transmittance(objs, reports, self, distance) == 1.0
    ensures (exists i :: 0 <= i < |reports| && Dims(objs, reports, self, distance, i)
                         && reports[i].1.mtlcolor.alpha == 1.0) ==>
              Transmittance(objs, reports, self, distance) == 0.0
    ensures (forall i :: 0 <= i < |reports| && Dims(objs, reports, self, distance, i) ==>
                         0.0 <= reports[i].1.mtlcolor.alpha <= 1.0) ==>
              0.0 <= Transmittance(objs, reports, self, distance) <= 1.0
  {
    if |reports| > 0 {
      var m := |reports| - 1;
      var o', r' := objs[..m], reports[..m];
      TransmittanceBounds(o', r', self, distance);
      assert forall i :: 0 <= i < m ==> (Dims(o', r', self, distance, i) <==> Dims(objs, reports, self, distance, i));
      assert forall i :: 0 <= i < m ==> r'[i] == reports[i];
      var acc := Transmittance(o', r', self, distance);
      if Dims(objs, reports, self, distance, m) {
        var f := 1.0 - reports[m].1.mtlcolor.alpha;
        assert Transmittance(objs, reports, self, distance) == acc * f;
        if forall i :: 0 <= i < |reports| && Dims(objs, reports, self, distance, i) ==>
                         0.0 <= reports[i].1.mtlcolor.alpha <= 1.0 {
          assert 0.0 <= f <= 1.0;
          assert 0.0 <= acc * f <= acc by {
            assert acc - acc * f == acc * (1.0 - f);
            ProductNonNeg(acc, f);
            ProductNonNeg(acc, 1.0 - f);
          }
        }
      }
    }
  }

  /**
   * `getShadowCoeffi` over the object list: the shadow ray leaves the point
   * `0.0005` along its normal towards the light at distance `mag`, and the
   * result multiplies `1 - alpha` for every dimming object; `reports` are
   * the objects' answers for that ray.
   */
  method GetShadowCoeffi(objs: seq<SceneObject>, reports: seq<Report>, p: Intersection,
                         lightPos: Vector3f, mag: real) returns (res: real)
    requires |reports| == |objs|
    requires mag >= 0.0 && mag * mag == Norm2(Sub(lightPos, ShadowOrigin(p)))
    ensures res == Transmittance(objs, reports, p.obj, mag)
  {
    var distance := mag;
    res := 1.0;
    var i := 0;
    while i < |objs|
      invariant 0 <= i <= |objs|
      invariant res == Transmittance(objs[..i], reports[..i], p.obj, distance)
    {
      assert objs[..i + 1][..i] == objs[..i] && reports[..i + 1][..i] == reports[..i];
      if i == p.obj {
      } else if objs[i].isLight {
      } else {
        var (hit, pLightInter) := reports[i];
        if hit && pLightInter.t < distance {
          res := res * (1.0 - pLightInter.mtlcolor.alpha);
        }
      }
      i := i + 1;
    }
    assert objs[..i] == objs && reports[..i] == reports;
  }

  /**
   * What the BVH's culling relies on from each object: a reported hit lies at
   * a finite `t >= 0` inside the object's bound, and a miss leaves `t` at
   * `FLT_MAX` as in a fresh record.
   */
  predicate HitInBound(h: Intersection, b: BoundBox, orig: Vector3f, dir: Vector3f)
  {
    if h.intersected then 0.0 <= h.t < FLT_MAX && ContainsPoint(b, RayAt(orig, dir, h.t))
    else h.t == FLT_MAX
  }

  /** The brute-force reports of every object of the list for one ray. */
  function AllReports(hitOf: int -> Intersection, count: nat): (r: seq<Report>)
    ensures |r| == count && forall i :: 0 <= i < count ==> r[i] == (hitOf(i).intersected, hitOf(i))
  {
    seq(count, i => (hitOf(i).intersected, hitOf(i)))
  }

  /**
   * The two strategies agree: over a tree built from every object of the
   * list, the BVH's nearest `t` equals the `t` the brute-force loop finds
   * from a fresh record, when every object's hits lie inside its bound.
   */
  lemma StrategiesAgree(tree: Node, boxes: seq<BoundBox>, orig: Vector3f, dir: Vector3f, hitOf: int -> Intersection)
    requires NonzeroComponents(dir) && Wf(tree, boxes)
    requires forall o :: o in Objects(tree) <==> 0 <= o < |boxes|
    requires forall o :: 0 <= o < |boxes| ==> HitInBound(hitOf(o), boxes[o], orig, dir)
    ensures BVHStrategy.UpdateInter(tree, boxes, orig, dir, hitOf).t == NearestOf(NoHit(), AllReports(hitOf, |boxes|)).t
  {
    var reports := AllReports(hitOf, |boxes|);
    var bvh := BVHStrategy.UpdateInter(tree, boxes, orig, dir, hitOf);
    var brute := NearestOf(NoHit(), reports);
    NearestOfIsFirstMinimum(NoHit(), reports);
    assert brute.t <= bvh.t by {
      if bvh != NoHit() {
        var o :| o in Objects(tree) && bvh == hitOf(o);
        assert HitInBound(hitOf(o), boxes[o], orig, dir);
        if hitOf(o).intersected {
          assert Reports(reports, o);
        }
      }
    }
    assert bvh.t <= brute.t by {
      if exists i :: 0 <= i < |reports| && Reports(reports, i) && reports[i].1.t < NoHit().t {
        var k :| 0 <= k < |reports| && Reports(reports, k) && brute == reports[k].1;
        assert k in Objects(tree) && HitInBound(hitOf(k), boxes[k], orig, dir);
      } else if bvh != NoHit() {
        var o :| o in Objects(tree) && bvh == hitOf(o);
        assert HitInBound(hitOf(o), boxes[o], orig, dir);
      }
    }
  }
}
