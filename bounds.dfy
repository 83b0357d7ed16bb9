/**
 * Axis-aligned bounding boxes of include/BoundBox.hpp: construction from two
 * corners, the two `Union` overloads, the longest axis, and the slab test.
 */
module Bounds {
  import opened Vectors
  import opened Intersections

  datatype BoundBox = BoundBox(pMin: Vector3f, pMax: Vector3f)

  function Min(a: real, b: real): real { if a <= b then a else b }
  function Max(a: real, b: real): real { if a >= b then a else b }
  function MinVec(a: Vector3f, b: Vector3f): Vector3f { Vector3f(Min(a.x, b.x), Min(a.y, b.y), Min(a.z, b.z)) }
  function MaxVec(a: Vector3f, b: Vector3f): Vector3f { Vector3f(Max(a.x, b.x), Max(a.y, b.y), Max(a.z, b.z)) }

  /** Component `axis` (0, 1 or 2) of a vector. */
  function Axis(v: Vector3f, axis: int): real
    requires 0 <= axis <= 2
  {
    if axis == 0 then v.x else if axis == 1 then v.y else v.z
  }

  predicate LessEq(a: Vector3f, b: Vector3f) { a.x <= b.x && a.y <= b.y && a.z <= b.z }

  /** `pMin` is componentwise at most `pMax`. */
  predicate WellFormed(b: BoundBox) { LessEq(b.pMin, b.pMax) }

  predicate ContainsPoint(b: BoundBox, p: Vector3f) { LessEq(b.pMin, p) && LessEq(p, b.pMax) }

  /** Every corner bound of `inner` lies within those of `outer`. */
  predicate ContainsBox(outer: BoundBox, inner: BoundBox)
  {
    LessEq(outer.pMin, inner.pMin) && LessEq(inner.pMax, outer.pMax)
  }

  /** `BoundBox()`: the default constructor leaves both corners at the zero vector. */
  function DefaultBox(): BoundBox { BoundBox(Zero(), Zero()) }

  /** `BoundBox(p1, p2)`: the smallest well-formed box holding both points. */
  function FromPoints(p1: Vector3f, p2: Vector3f): (r: BoundBox)
    ensures WellFormed(r) && ContainsPoint(r, p1) && ContainsPoint(r, p2)
    ensures LessEq(p1, p2) ==> r == BoundBox(p1, p2)
  {
    BoundBox(MinVec(p1, p2), MaxVec(p1, p2))
  }

  /** Any box holding two points holds the box they construct. */
  lemma FromPointsSmallest(p1: Vector3f, p2: Vector3f, b: BoundBox)
    requires ContainsPoint(b, p1) && ContainsPoint(b, p2)
    ensures ContainsBox(b, FromPoints(p1, p2))
  {
  }

  /** `Centroid`: the midpoint of the two corners, inside a well-formed box. */
  function Centroid(b: BoundBox): (r: Vector3f)
    ensures WellFormed(b) ==> ContainsPoint(b, r)
    ensures Sub(r, b.pMin) == Sub(b.pMax, r)
  {
    Add(Scale(b.pMin, 0.5), Scale(b.pMax, 0.5))
  }

  /** `Diagonal`: non-negative in every component exactly for a well-formed box. */
  function Diagonal(b: BoundBox): (r: Vector3f)
    ensures WellFormed(b) <==> r.x >= 0.0 && r.y >= 0.0 && r.z >= 0.0
    ensures Add(b.pMin, r) == b.pMax
  {
    Sub(b.pMax, b.pMin)
  }

  /**
   * `maxExtent`: the axis of the longest diagonal component. Ties go to the
   * later axis: x only when strictly the largest, then y when larger than z.
   */
  function MaxExtent(b: BoundBox): (r: int)
    ensures 0 <= r <= 2
    ensures forall a :: 0 <= a <= 2 ==> Axis(Diagonal(b), a) <= Axis(Diagonal(b), r)
    ensures r == 0 <==> Diagonal(b).x > Diagonal(b).y && Diagonal(b).x > Diagonal(b).z
    ensures r == 1 <==> r != 0 && Diagonal(b).y > Diagonal(b).z
  {
    var d := Diagonal(b);
    if d.x > d.y && d.x > d.z then 0
    else if d.y > d.z then 1
    else 2
  }

  /** `Union(b1, b2)`: contains both boxes and, for well-formed inputs, is the smallest such box. */
  function Union(b1: BoundBox, b2: BoundBox): (r: BoundBox)
    ensures WellFormed(r) && ContainsBox(r, b1) && ContainsBox(r, b2)
    ensures WellFormed(b1) && WellFormed(b2) ==> r == BoundBox(MinVec(b1.pMin, b2.pMin), MaxVec(b1.pMax, b2.pMax))
  {
    FromPoints(MinVec(b1.pMin, b2.pMin), MaxVec(b1.pMax, b2.pMax))
  }

  /** `Union(b, v)`: contains the box and the point. */
  function UnionPoint(b: BoundBox, v: Vector3f): (r: BoundBox)
    ensures WellFormed(r) && ContainsBox(r, b) && ContainsPoint(r, v)
    ensures WellFormed(b) && ContainsPoint(b, v) ==> r == b
  {
    FromPoints(MinVec(b.pMin, v), MaxVec(b.pMax, v))
  }

  lemma UnionCommutative(b1: BoundBox, b2: BoundBox)
    ensures Union(b1, b2) == Union(b2, b1)
  {
  }

  lemma UnionIdempotent(b: BoundBox)
    requires WellFormed(b)
    ensures Union(b, b) == b
  {
  }

  /** Containment is transitive, so a union's container contains both parts. */
  lemma ContainsBoxTransitive(a: BoundBox, b: BoundBox, c: BoundBox)
    requires ContainsBox(a, b) && ContainsBox(b, c)
    ensures ContainsBox(a, c)
  {
  }

  /** Entry and exit times of the slab `[lo, hi]` along one axis, after the swap for a negative direction. */
  function SlabEnter(lo: real, hi: real, o: real, d: real): real
    requires d != 0.0
  {
    var tmin := (lo - o) * (1.0 / d);
    var tmax := (hi - o) * (1.0 / d);
    if d < 0.0 then tmax else tmin
  }

  function SlabExit(lo: real, hi: real, o: real, d: real): real
    requires d != 0.0
  {
    var tmin := (lo - o) * (1.0 / d);
    var tmax := (hi - o) * (1.0 / d);
    if d < 0.0 then tmin else tmax
  }

  predicate NonzeroComponents(dir: Vector3f) { dir.x != 0.0 && dir.y != 0.0 && dir.z != 0.0 }

  /** `t_enter`: the latest entry over the three slabs. */
  function TEnter(b: BoundBox, orig: Vector3f, dir: Vector3f): real
    requires NonzeroComponents(dir)
  {
    var tx := SlabEnter(b.pMin.x, b.pMax.x, orig.x, dir.x);
    var ty := SlabEnter(b.pMin.y, b.pMax.y, orig.y, dir.y);
    var tz := SlabEnter(b.pMin.z, b.pMax.z, orig.z, dir.z);
    var buffer := if ty > tz then ty else tz;
    if tx > buffer then tx else buffer
  }

  /** `t_exit`: the earliest exit over the three slabs. */
  function TExit(b: BoundBox, orig: Vector3f, dir: Vector3f): real
    requires NonzeroComponents(dir)
  {
    var tx := SlabExit(b.pMin.x, b.pMax.x, orig.x, dir.x);
    var ty := SlabExit(b.pMin.y, b.pMax.y, orig.y, dir.y);
    var tz := SlabExit(b.pMin.z, b.pMax.z, orig.z, dir.z);
    var buffer := if ty < tz then ty else tz;
    if tx < buffer then tx else buffer
  }

  /**
   * `IntersectRay` for a direction with no zero component: the slab test
   * `t_enter <= t_exit && t_exit >= 0`.
   */
  function IntersectRay(b: BoundBox, orig: Vector3f, dir: Vector3f): bool
    requires NonzeroComponents(dir)
  {
    TEnter(b, orig, dir) <= TExit(b, orig, dir) && TExit(b, orig, dir) >= 0.0
  }

  /** Along one axis, time `t` is inside the slab's time interval iff the ray point is between the planes. */
  lemma SlabAt(lo: real, hi: real, o: real, d: real, t: real)
    requires d != 0.0
    ensures SlabEnter(lo, hi, o, d) <= t <= SlabExit(lo, hi, o, d) <==> lo <= o + d * t <= hi
  {
    ScaledTime(lo - o, d, t);
    ScaledTime(hi - o, d, t);
  }

  /** Comparing a time against `a * (1/d)` is comparing the distance `t * d` against `a`, flipped when `d < 0`. */
  lemma ScaledTime(a: real, d: real, t: real)
    requires d != 0.0
    ensures d > 0.0 ==> (a * (1.0 / d) <= t <==> a <= d * t) && (t <= a * (1.0 / d) <==> d * t <= a)
    ensures d < 0.0 ==> (a * (1.0 / d) <= t <==> d * t <= a) && (t <= a * (1.0 / d) <==> a <= d * t)
  {
    var c := 1.0 / d;
    assert c * d == 1.0;
    assert (a - d * t) * c == a * c - (d * c) * t == a * c - t;
    if d > 0.0 {
      Vectors.ProductSign(c, a - d * t);
    } else {
      assert (a - d * t) * (-c) == t - a * c;
      Vectors.ProductSign(-c, a - d * t);
    }
  }

  /** Time `t` lies in all three slab intervals iff the ray point at `t` is in the box. */
  lemma InAllSlabs(b: BoundBox, orig: Vector3f, dir: Vector3f, t: real)
    requires NonzeroComponents(dir)
    ensures TEnter(b, orig, dir) <= t <= TExit(b, orig, dir) <==> ContainsPoint(b, RayAt(orig, dir, t))
  {
    var p := RayAt(orig, dir, t);
    var ex, xx := SlabEnter(b.pMin.x, b.pMax.x, orig.x, dir.x), SlabExit(b.pMin.x, b.pMax.x, orig.x, dir.x);
    var ey, xy := SlabEnter(b.pMin.y, b.pMax.y, orig.y, dir.y), SlabExit(b.pMin.y, b.pMax.y, orig.y, dir.y);
    var ez, xz := SlabEnter(b.pMin.z, b.pMax.z, orig.z, dir.z), SlabExit(b.pMin.z, b.pMax.z, orig.z, dir.z);
    AxisFacts(b.pMin.x, b.pMax.x, orig.x, dir.x, t, ex, xx, p.x);
    AxisFacts(b.pMin.y, b.pMax.y, orig.y, dir.y, t, ey, xy, p.y);
    AxisFacts(b.pMin.z, b.pMax.z, orig.z, dir.z, t, ez, xz, p.z);
    assert TEnter(b, orig, dir) == Max(ex, Max(ey, ez));
    assert TExit(b, orig, dir) == Min(xx, Min(xy, xz));
  }

  lemma AxisFacts(lo: real, hi: real, o: real, d: real, t: real, enter: real, exit: real, p: real)
    requires d != 0.0 && enter == SlabEnter(lo, hi, o, d) && exit == SlabExit(lo, hi, o, d) && p == o + d * t
    ensures enter <= t <= exit <==> lo <= p <= hi
  {
    SlabAt(lo, hi, o, d, t);
  }

  /** A ray starting inside the box always passes the slab test. */
  lemma OriginInsideHits(b: BoundBox, orig: Vector3f, dir: Vector3f)
    requires NonzeroComponents(dir) && ContainsPoint(b, orig)
    ensures IntersectRay(b, orig, dir)
  {
    assert RayAt(orig, dir, 0.0) == orig;
    InAllSlabs(b, orig, dir, 0.0);
  }

  /**
   * The slab test is exact: it answers true iff some point of the ray at a
   * non-negative time lies in the box.
   */
  lemma IntersectRayExact(b: BoundBox, orig: Vector3f, dir: Vector3f)
    requires NonzeroComponents(dir)
    ensures IntersectRay(b, orig, dir) <==> exists t :: t >= 0.0 && ContainsPoint(b, RayAt(orig, dir, t))
  {
    if IntersectRay(b, orig, dir) {
      var t := Max(TEnter(b, orig, dir), 0.0);
      InAllSlabs(b, orig, dir, t);
    }
    if exists t :: t >= 0.0 && ContainsPoint(b, RayAt(orig, dir, t)) {
      var t :| t >= 0.0 && ContainsPoint(b, RayAt(orig, dir, t));
      InAllSlabs(b, orig, dir, t);
    }
  }
}
