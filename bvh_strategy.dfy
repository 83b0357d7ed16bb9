/**
 * The BVH-backed intersection strategy of include/BVHStrategy.hpp. The
 * strategy object has no state of its own, so its operations are functions
 * of the tree. `hitOf(i)` is what object `i`'s `intersect` leaves in a fresh
 * record, as in module BVH.
 */
module BVHStrategy {
  import opened Vectors
  import opened Globals
  import opened Materials
  import opened Intersections
  import opened Bounds
  import opened BVH

  /** The leaves of a tree that a ray reaches are objects of that tree. */
  lemma {:induction false} ReachableInObjects(n: Node, orig: Vector3f, dir: Vector3f, o: int)
    requires NonzeroComponents(dir) && o in Reachable(n, orig, dir)
    ensures o in Objects(n)
  {
    match n
    case Leaf(_, _) =>
    case Inner(l, r, _) =>
      if o in Reachable(l, orig, dir) {
        ReachableInObjects(l, orig, dir, o);
      } else {
        ReachableInObjects(r, orig, dir, o);
      }
  }

  /**
   * `UpdateInter`: the record becomes the BVH's nearest hit. Over a tree that
   * `recursiveBuild` produced, the result is the default record or some
   * object's own record, and it is at least as near as every object of the
   * tree that reports a hit at `t >= 0` inside its own bound.
   */
  function UpdateInter(tree: Node, boxes: seq<BoundBox>, orig: Vector3f, dir: Vector3f,
                       hitOf: int -> Intersection): (r: Intersection)
    requires NonzeroComponents(dir) && Wf(tree, boxes)
    ensures r == NoHit() || exists o :: o in Objects(tree) && r == hitOf(o)
    ensures forall o :: (o in Objects(tree) && 0 <= o < |boxes| && hitOf(o).t >= 0.0
                         && ContainsPoint(boxes[o], RayAt(orig, dir, hitOf(o).t))) ==> r.t <= hitOf(o).t
  {
    var r := GetIntersection(tree, orig, dir, hitOf);
    forall o | o in Reachable(tree, orig, dir)
      ensures o in Objects(tree)
    {
      ReachableInObjects(tree, orig, dir, o);
    }
    forall o | o in Objects(tree) && 0 <= o < |boxes| && hitOf(o).t >= 0.0
               && ContainsPoint(boxes[o], RayAt(orig, dir, hitOf(o).t))
      ensures r.t <= hitOf(o).t
    {
      BvhNearest(tree, boxes, orig, dir, hitOf, o);
    }
    r
  }

  /** The transmittance one leaf record contributes: `1 - alpha` for a hit closer than `dis`, else 1. */
  function LeafShadow(h: Intersection, dis: real): real
  {
    if h.intersected && h.t < dis then 1.0 - h.mtlcolor.alpha else 1.0
  }

  /** Whether a leaf record lies between the shadow-ray origin and the light. */
  predicate Occludes(h: Intersection, dis: real)
  {
    h.intersected && h.t < dis
  }

  /**
   * `ShadowHelper`: 1 for a bound miss, the leaf's transmittance at a leaf,
   * and the product of the two children's results at an internal node.
   * Unlike `hasIntersection`, emissive leaves are not exempt. The node built
   * for an empty list has no object, and the source calls `intersect`
   * through that unset pointer when the ray passes its bound; the model
   * answers 1 there instead.
   */
  function ShadowHelper(n: Node, orig: Vector3f, dir: Vector3f, dis: real, hitOf: int -> Intersection): (r: real)
    requires NonzeroComponents(dir)
    ensures !IntersectRay(n.bound, orig, dir) ==> r == 1.0
  {
    if !IntersectRay(n.bound, orig, dir) then 1.0
    else match n
      case Empty(_) => 1.0
      case Leaf(o, _) => LeafShadow(hitOf(o), dis)
      case Inner(l, rt, _) => ShadowHelper(l, orig, dir, dis, hitOf) * ShadowHelper(rt, orig, dir, dis, hitOf)
  }

  /** With every occluder's `alpha` in `[0,1]`, the shadow coefficient lies in `[0,1]`. */
  lemma {:induction false} ShadowInUnitRange(n: Node, orig: Vector3f, dir: Vector3f, dis: real, hitOf: int -> Intersection)
    requires NonzeroComponents(dir)
    requires forall o :: o in Reachable(n, orig, dir) && Occludes(hitOf(o), dis) ==>
                           0.0 <= hitOf(o).mtlcolor.alpha <= 1.0
    ensures 0.0 <= ShadowHelper(n, orig, dir, dis, hitOf) <= 1.0
  {
    if IntersectRay(n.bound, orig, dir) {
      match n
      case Empty(_) =>
      case Leaf(o, _) =>
        assert o in Reachable(n, orig, dir);
      case Inner(l, r, bd) =>
        ReachableInner(l, r, bd, orig, dir);
        ShadowInUnitRange(l, orig, dir, dis, hitOf);
        ShadowInUnitRange(r, orig, dir, dis, hitOf);
        ShadowInnerStep(l, r, bd, orig, dir, dis, hitOf);
    }
  }

  /** A node whose bound the ray passes reaches the leaves its children reach. */
  lemma ReachableInner(l: Node, r: Node, bd: BoundBox, orig: Vector3f, dir: Vector3f)
    requires NonzeroComponents(dir) && IntersectRay(bd, orig, dir)
    ensures Reachable(Inner(l, r, bd), orig, dir) == Reachable(l, orig, dir) + Reachable(r, orig, dir)
  {
  }

  /** At an internal node whose bound the ray passes, the coefficient is the children's product. */
  lemma ShadowInner(l: Node, r: Node, bd: BoundBox, orig: Vector3f, dir: Vector3f, dis: real, hitOf: int -> Intersection)
    requires NonzeroComponents(dir) && IntersectRay(bd, orig, dir)
    ensures ShadowHelper(Inner(l, r, bd), orig, dir, dis, hitOf)
            == ShadowHelper(l, orig, dir, dis, hitOf) * ShadowHelper(r, orig, dir, dis, hitOf)
  {
  }

  /** The inductive step of `ShadowInUnitRange` at an internal node the ray passes. */
  lemma ShadowInnerStep(l: Node, r: Node, bd: BoundBox, orig: Vector3f, dir: Vector3f, dis: real, hitOf: int -> Intersection)
    requires NonzeroComponents(dir) && IntersectRay(bd, orig, dir)
    requires 0.0 <= ShadowHelper(l, orig, dir, dis, hitOf) <= 1.0 && 0.0 <= ShadowHelper(r, orig, dir, dis, hitOf) <= 1.0
    ensures 0.0 <= ShadowHelper(Inner(l, r, bd), orig, dir, dis, hitOf) <= 1.0
  {
    var a := ShadowHelper(l, orig, dir, dis, hitOf);
    var b := ShadowHelper(r, orig, dir, dis, hitOf);
    ShadowInner(l, r, bd, orig, dir, dis, hitOf);
    UnitProduct(a, b);
    assert 0.0 <= a * b <= 1.0;
    assert ShadowHelper(Inner(l, r, bd), orig, dir, dis, hitOf) == a * b;
  }

  /** A product of two numbers of `[0,1]` lies in `[0,1]`. */
  lemma UnitProduct(a: real, b: real)
    requires 0.0 <= a <= 1.0 && 0.0 <= b <= 1.0
    ensures 0.0 <= a * b <= 1.0
  {
    assert b - a * b == (1.0 - a) * b;
    ProductNonNeg(1.0 - a, b);
    ProductNonNeg(a, b);
  }

  /** No reached leaf between the origin and the light: full visibility, 1. */
  lemma {:induction false} ShadowUnoccluded(n: Node, orig: Vector3f, dir: Vector3f, dis: real, hitOf: int -> Intersection)
    requires NonzeroComponents(dir)
    requires forall o :: o in Reachable(n, orig, dir) ==> !Occludes(hitOf(o), dis)
    ensures ShadowHelper(n, orig, dir, dis, hitOf) == 1.0
  {
    if IntersectRay(n.bound, orig, dir) {
      match n
      case Empty(_) =>
      case Leaf(o, _) =>
        assert o in Reachable(n, orig, dir);
      case Inner(l, r, _) =>
        ShadowUnoccluded(l, orig, dir, dis, hitOf);
        ShadowUnoccluded(r, orig, dir, dis, hitOf);
    }
  }

  /** One reached, fully opaque (`alpha == 1`) occluder makes the coefficient 0. */
  lemma {:induction false} ShadowOpaque(n: Node, orig: Vector3f, dir: Vector3f, dis: real, hitOf: int -> Intersection, o: int)
    requires NonzeroComponents(dir)
    requires o in Reachable(n, orig, dir) && Occludes(hitOf(o), dis) && hitOf(o).mtlcolor.alpha == 1.0
    ensures ShadowHelper(n, orig, dir, dis, hitOf) == 0.0
  {
    match n
    case Leaf(_, _) =>
    case Inner(l, r, _) =>
      if o in Reachable(l, orig, dir) {
        ShadowOpaque(l, orig, dir, dis, hitOf, o);
      } else {
        ShadowOpaque(r, orig, dir, dis, hitOf, o);
      }
  }

  /** The shadow ray starts `0.0005` along the hit point's normal, off the surface. */
  function ShadowOrigin(p: Intersection): (r: Vector3f)
    ensures Sub(r, p.pos) == Scale(p.Ng, 0.0005)
  {
    Add(p.pos, Scale(p.Ng, 0.0005))
  }

  /**
   * `getShadowCoeffi`: the shadow ray runs from the offset origin towards
   * the light, with direction `normalized(lightPos - orig)` and reach
   * `(lightPos - orig).norm()`. `mag` is that norm (a square root); the ray
   * direction must have no zero component, as `IntersectRay` requires.
   */
  function GetShadowCoeffi(tree: Node, p: Intersection, lightPos: Vector3f, mag: real,
                           hitOf: int -> Intersection): (r: real)
    requires mag >= 0.0 && mag * mag == Norm2(Sub(lightPos, ShadowOrigin(p)))
    requires NonzeroComponents(Normalized(Sub(lightPos, ShadowOrigin(p)), mag))
    ensures var orig := ShadowOrigin(p);
            var dir := Normalized(Sub(lightPos, orig), mag);
            (forall o :: o in Reachable(tree, orig, dir) ==> !Occludes(hitOf(o), mag)) ==> r == 1.0
    ensures var orig := ShadowOrigin(p);
            var dir := Normalized(Sub(lightPos, orig), mag);
            (forall o :: o in Reachable(tree, orig, dir) && Occludes(hitOf(o), mag) ==>
                           0.0 <= hitOf(o).mtlcolor.alpha <= 1.0) ==> 0.0 <= r <= 1.0
  {
    var orig := ShadowOrigin(p);
    var dir := Normalized(Sub(lightPos, orig), mag);
    ShadowBounds(tree, orig, dir, mag, hitOf);
    ShadowHelper(tree, orig, dir, mag, hitOf)
  }

  /** The two facts of `ShadowUnoccluded` and `ShadowInUnitRange`, each under its own hypothesis. */
  lemma ShadowBounds(n: Node, orig: Vector3f, dir: Vector3f, dis: real, hitOf: int -> Intersection)
    requires NonzeroComponents(dir)
    ensures (forall o :: o in Reachable(n, orig, dir) ==> !Occludes(hitOf(o), dis)) ==>
              ShadowHelper(n, orig, dir, dis, hitOf) == 1.0
    ensures (forall o :: o in Reachable(n, orig, dir) && Occludes(hitOf(o), dis) ==>
                           0.0 <= hitOf(o).mtlcolor.alpha <= 1.0) ==>
              0.0 <= ShadowHelper(n, orig, dir, dis, hitOf) <= 1.0
  {
    if forall o :: o in Reachable(n, orig, dir) ==> !Occludes(hitOf(o), dis) {
      ShadowUnoccluded(n, orig, dir, dis, hitOf);
    }
    if forall o :: o in Reachable(n, orig, dir) && Occludes(hitOf(o), dis) ==>
                     0.0 <= hitOf(o).mtlcolor.alpha <= 1.0 {
      ShadowInUnitRange(n, orig, dir, dis, hitOf);
    }
  }
}
