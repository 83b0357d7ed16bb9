/**
 * The bounding volume hierarchy of include/BVH.hpp. Objects are named by
 * their index in the scene's object list and `boxes[i]` is object `i`'s
 * `bound`. A node is a tree value: `Empty` is the childless node built for an
 * empty list, `Leaf` holds one object, `Inner` two children.
 *
 * A leaf's `obj->intersect(orig, dir, inter)` on a fresh `Intersection` is
 * the function parameter `hitOf`: `hitOf(i)` is what object `i` leaves in
 * the record (for a miss, a record that is not intersected).
 */
module BVH {
  import opened Vectors
  import opened Globals
  import opened Materials
  import opened Intersections
  import opened Bounds

  datatype Node =
    | Empty(bound: BoundBox)
    | Leaf(obj: int, bound: BoundBox)
    | Inner(left: Node, right: Node, bound: BoundBox)

  predicate ValidIds(ids: seq<int>, boxes: seq<BoundBox>)
  {
    forall i :: 0 <= i < |ids| ==> 0 <= ids[i] < |boxes|
  }

  /** The objects held by the leaves of a tree. */
  function Objects(n: Node): multiset<int>
  {
    match n
    case Empty(_) => multiset{}
    case Leaf(o, _) => multiset{o}
    case Inner(l, r, _) => Objects(l) + Objects(r)
  }

  /**
   * The shape `recursiveBuild` produces: a leaf carries its object's bound, an
   * internal node has two non-empty children and the `Union` of their bounds.
   */
  predicate Wf(n: Node, boxes: seq<BoundBox>)
  {
    match n
    case Empty(_) => true
    case Leaf(o, b) => 0 <= o < |boxes| && b == boxes[o]
    case Inner(l, r, b) => !l.Empty? && !r.Empty? && Wf(l, boxes) && Wf(r, boxes) && b == Union(l.bound, r.bound)
  }

  /** Every leaf's bound lies inside the bound of each node above it. */
  lemma {:induction false} BoundContainsLeaves(n: Node, boxes: seq<BoundBox>, o: int)
    requires Wf(n, boxes) && o in Objects(n)
    ensures 0 <= o < |boxes| && ContainsBox(n.bound, boxes[o])
  {
    match n
    case Leaf(_, _) =>
    case Inner(l, r, b) =>
      if o in Objects(l) {
        BoundContainsLeaves(l, boxes, o);
        ContainsBoxTransitive(b, l.bound, boxes[o]);
      } else {
        BoundContainsLeaves(r, boxes, o);
        ContainsBoxTransitive(b, r.bound, boxes[o]);
      }
  }

  /** The centroid coordinate on `axis` that the build sorts by. */
  function Key(boxes: seq<BoundBox>, axis: int, id: int): real
    requires 0 <= id < |boxes| && 0 <= axis <= 2
  {
    Axis(Centroid(boxes[id]), axis)
  }

  predicate SortedByKey(s: seq<int>, boxes: seq<BoundBox>, axis: int)
    requires ValidIds(s, boxes) && 0 <= axis <= 2
  {
    forall i, j :: 0 <= i < j < |s| ==> Key(boxes, axis, s[i]) <= Key(boxes, axis, s[j])
  }

  /** Inserting into a sorted list keeps it sorted and adds exactly the new element. */
  function Insert(x: int, s: seq<int>, boxes: seq<BoundBox>, axis: int): (r: seq<int>)
    requires 0 <= axis <= 2 && 0 <= x < |boxes| && ValidIds(s, boxes) && SortedByKey(s, boxes, axis)
    ensures ValidIds(r, boxes) && SortedByKey(r, boxes, axis)
    ensures multiset(r) == multiset(s) + multiset{x}
  {
    if |s| == 0 then [x]
    else if Key(boxes, axis, x) <= Key(boxes, axis, s[0]) then [x] + s
    else
      var rest := Insert(x, s[1..], boxes, axis);
      assert s == [s[0]] + s[1..];
      InsertAbove(x, s, rest, boxes, axis);
      [s[0]] + rest
  }

  /** Putting the head of a sorted list in front of a sorted list of larger keys keeps it sorted. */
  lemma InsertAbove(x: int, s: seq<int>, rest: seq<int>, boxes: seq<BoundBox>, axis: int)
    requires 0 <= axis <= 2 && 0 <= x < |boxes| && ValidIds(s, boxes) && SortedByKey(s, boxes, axis) && |s| > 0
    requires Key(boxes, axis, s[0]) < Key(boxes, axis, x)
    requires ValidIds(rest, boxes) && SortedByKey(rest, boxes, axis)
    requires multiset(rest) == multiset(s[1..]) + multiset{x}
    ensures ValidIds([s[0]] + rest, boxes) && SortedByKey([s[0]] + rest, boxes, axis)
  {
    var r := [s[0]] + rest;
    forall j | 0 <= j < |rest|
      ensures Key(boxes, axis, s[0]) <= Key(boxes, axis, rest[j])
    {
      assert rest[j] in multiset(rest);
      if rest[j] != x {
        assert rest[j] in s[1..];
        var k :| 0 <= k < |s[1..]| && s[1..][k] == rest[j];
        assert s[k + 1] == rest[j];
      }
    }
    forall i, j | 0 <= i < j < |r|
      ensures Key(boxes, axis, r[i]) <= Key(boxes, axis, r[j])
    {
      if i > 0 {
        assert r[i] == rest[i - 1] && r[j] == rest[j - 1];
      } else {
        assert r[j] == rest[j - 1];
      }
    }
  }

  /**
   * `std::sort` by the centroid on `axis`: a sorted permutation of the input.
   * The library does not fix the order of equal keys; this is one valid order.
   */
  function SortByKey(ids: seq<int>, boxes: seq<BoundBox>, axis: int): (r: seq<int>)
    requires ValidIds(ids, boxes) && 0 <= axis <= 2
    ensures ValidIds(r, boxes) && SortedByKey(r, boxes, axis)
    ensures multiset(r) == multiset(ids) && |r| == |ids|
  {
    if |ids| == 0 then []
    else
      assert ids == [ids[0]] + ids[1..];
      Insert(ids[0], SortByKey(ids[1..], boxes, axis), boxes, axis)
  }

  /** The box the build divides: the `Union` of the listed objects' bounds, folded left to right. */
  function UnionOf(ids: seq<int>, boxes: seq<BoundBox>): BoundBox
    requires |ids| >= 2 && ValidIds(ids, boxes)
  {
    if |ids| == 2 then Union(boxes[ids[0]], boxes[ids[1]])
    else Union(UnionOf(ids[..|ids| - 1], boxes), boxes[ids[|ids| - 1]])
  }

  /** The folded union is a well-formed box that contains every listed object's bound. */
  lemma {:induction false} UnionOfContains(ids: seq<int>, boxes: seq<BoundBox>)
    requires |ids| >= 2 && ValidIds(ids, boxes)
    ensures WellFormed(UnionOf(ids, boxes))
    ensures forall i :: 0 <= i < |ids| ==> ContainsBox(UnionOf(ids, boxes), boxes[ids[i]])
  {
    if |ids| > 2 {
      var prefix := ids[..|ids| - 1];
      assert ValidIds(prefix, boxes);
      UnionOfContains(prefix, boxes);
      var u := UnionOf(ids, boxes);
      assert u == Union(UnionOf(prefix, boxes), boxes[ids[|ids| - 1]]);
      forall i | 0 <= i < |ids| - 1
        ensures ContainsBox(u, boxes[ids[i]])
      {
        assert boxes[ids[i]] == boxes[prefix[i]];
        ContainsBoxTransitive(u, UnionOf(prefix, boxes), boxes[ids[i]]);
      }
    }
  }

  /** The loop of `recursiveBuild` that unions every object's bound. */
  method UnionAll(ids: seq<int>, boxes: seq<BoundBox>) returns (u: BoundBox)
    requires |ids| >= 2 && ValidIds(ids, boxes)
    ensures u == UnionOf(ids, boxes)
  {
    u := Union(boxes[ids[0]], boxes[ids[1]]);
    var i := 2;
    while i < |ids|
      invariant 2 <= i <= |ids|
      invariant u == UnionOf(ids[..i], boxes)
    {
      UnionOfStep(ids, boxes, i);
      u := Union(u, boxes[ids[i]]);
      i := i + 1;
    }
    assert ids[..i] == ids;
  }

  /** One more object in the fold of `UnionOf`: the union of the prefix with its bound. */
  lemma UnionOfStep(ids: seq<int>, boxes: seq<BoundBox>, i: int)
    requires 2 <= i < |ids| && ValidIds(ids, boxes)
    ensures ValidIds(ids[..i], boxes) && ValidIds(ids[..i + 1], boxes)
    ensures UnionOf(ids[..i + 1], boxes) == Union(UnionOf(ids[..i], boxes), boxes[ids[i]])
  {
    var next := ids[..i + 1];
    assert next[..|next| - 1] == ids[..i] && next[|next| - 1] == ids[i];
  }

  /** Membership in a slice means some position of the slice holds the element. */
  lemma InSlice(s: seq<int>, lo: int, hi: int, x: int)
    requires 0 <= lo <= hi <= |s| && x in multiset(s[lo..hi])
    ensures exists k :: lo <= k < hi && s[k] == x
  {
    assert x in s[lo..hi];
    var k :| 0 <= k < hi - lo && s[lo..hi][k] == x;
    assert s[lo + k] == x;
  }

  /**
   * `recursiveBuild(objList)`. No object gives a childless node, one object a
   * leaf with its bound, two objects two leaves. More objects are sorted by
   * centroid along the `maxExtent` axis of their union and split at
   * `n / 2`: the left half gets `n / 2` objects, all with keys no larger than
   * any on the right. The leaves always hold exactly the input objects.
   */
  method RecursiveBuild(ids: seq<int>, boxes: seq<BoundBox>) returns (n: Node)
    requires ValidIds(ids, boxes)
    ensures Wf(n, boxes) && Objects(n) == multiset(ids)
    ensures |ids| == 0 ==> n == Empty(DefaultBox())
    ensures |ids| == 1 ==> n == Leaf(ids[0], boxes[ids[0]])
    ensures |ids| >= 2 ==> n.Inner? && |Objects(n.left)| == |ids| / 2 && |Objects(n.right)| == |ids| - |ids| / 2
    ensures |ids| >= 3 ==> KeysSplit(Objects(n.left), Objects(n.right), boxes, MaxExtent(UnionOf(ids, boxes)))
    decreases |ids|, 1
  {
    if |ids| == 0 {
      return Empty(DefaultBox());
    } else if |ids| == 1 {
      return Leaf(ids[0], boxes[ids[0]]);
    } else if |ids| == 2 {
      var l := RecursiveBuild([ids[0]], boxes);
      var r := RecursiveBuild([ids[1]], boxes);
      assert ids == [ids[0]] + [ids[1]];
      JoinFacts(l, r, boxes, [ids[0]], [ids[1]]);
      return Inner(l, r, Union(l.bound, r.bound));
    }
    n := BuildSplit(ids, boxes);
  }

  /** The `objList.size() >= 3` branch of `recursiveBuild`. */
  method BuildSplit(ids: seq<int>, boxes: seq<BoundBox>) returns (n: Node)
    requires ValidIds(ids, boxes) && |ids| >= 3
    ensures Wf(n, boxes) && Objects(n) == multiset(ids)
    ensures n.Inner? && |Objects(n.left)| == |ids| / 2 && |Objects(n.right)| == |ids| - |ids| / 2
    ensures KeysSplit(Objects(n.left), Objects(n.right), boxes, MaxExtent(UnionOf(ids, boxes)))
    decreases |ids|, 0
  {
    var leftObjects, rightObjects := SplitObjects(ids, boxes);
    var l := RecursiveBuild(leftObjects, boxes);
    var r := RecursiveBuild(rightObjects, boxes);
    JoinFacts(l, r, boxes, leftObjects, rightObjects);
    n := Inner(l, r, Union(l.bound, r.bound));
  }

  /**
   * Union the bounds, sort by centroid along the `maxExtent` axis and cut at
   * `n / 2`: two halves that together are the input, with no key on the left
   * above a key on the right.
   */
  method SplitObjects(ids: seq<int>, boxes: seq<BoundBox>) returns (leftObjects: seq<int>, rightObjects: seq<int>)
    requires ValidIds(ids, boxes) && |ids| >= 3
    ensures ValidIds(leftObjects, boxes) && ValidIds(rightObjects, boxes)
    ensures |leftObjects| == |ids| / 2 && |rightObjects| == |ids| - |ids| / 2
    ensures multiset(leftObjects + rightObjects) == multiset(ids)
    ensures KeysSplit(multiset(leftObjects), multiset(rightObjects), boxes, MaxExtent(UnionOf(ids, boxes)))
  {
    var unionBound := UnionAll(ids, boxes);
    var axis := MaxExtent(unionBound);
    var sorted := SortByKey(ids, boxes, axis);
    var middle := |sorted| / 2;
    leftObjects, rightObjects := sorted[..middle], sorted[middle..];
    assert sorted == leftObjects + rightObjects;
    SplitKeys(sorted, middle, boxes, axis);
  }

  /** No object on the left has a larger key on `axis` than an object on the right. */
  predicate KeysSplit(left: multiset<int>, right: multiset<int>, boxes: seq<BoundBox>, axis: int)
    requires 0 <= axis <= 2
  {
    forall a, b :: a in left && b in right ==>
      0 <= a < |boxes| && 0 <= b < |boxes| && Key(boxes, axis, a) <= Key(boxes, axis, b)
  }

  /** Joining two trees built from non-empty lists gives a well-formed tree of both lists. */
  lemma JoinFacts(l: Node, r: Node, boxes: seq<BoundBox>, a: seq<int>, b: seq<int>)
    requires Wf(l, boxes) && Wf(r, boxes) && Objects(l) == multiset(a) && Objects(r) == multiset(b)
    requires |a| > 0 && |b| > 0
    ensures Wf(Inner(l, r, Union(l.bound, r.bound)), boxes)
    ensures Objects(Inner(l, r, Union(l.bound, r.bound))) == multiset(a + b)
    ensures |Objects(l)| == |a| && |Objects(r)| == |b|
  {
    assert a[0] in multiset(a) && b[0] in multiset(b);
  }

  /** Cutting a sorted list leaves no key on the left above a key on the right. */
  lemma SplitKeys(sorted: seq<int>, middle: int, boxes: seq<BoundBox>, axis: int)
    requires 0 <= axis <= 2 && ValidIds(sorted, boxes) && SortedByKey(sorted, boxes, axis) && 0 <= middle <= |sorted|
    ensures KeysSplit(multiset(sorted[..middle]), multiset(sorted[middle..]), boxes, axis)
  {
    forall a, b | a in multiset(sorted[..middle]) && b in multiset(sorted[middle..])
      ensures 0 <= a < |boxes| && 0 <= b < |boxes| && Key(boxes, axis, a) <= Key(boxes, axis, b)
    {
      assert sorted[..middle] == sorted[0..middle];
      InSlice(sorted, 0, middle, a);
      InSlice(sorted, middle, |sorted|, b);
    }
  }

  /** The leaves a ray reaches: those whose own bound and every ancestor's bound pass `IntersectRay`. */
  function Reachable(n: Node, orig: Vector3f, dir: Vector3f): set<int>
    requires NonzeroComponents(dir)
  {
    if !IntersectRay(n.bound, orig, dir) then {}
    else match n
      case Empty(_) => {}
      case Leaf(o, _) => {o}
      case Inner(l, r, _) => Reachable(l, orig, dir) + Reachable(r, orig, dir)
  }

  /**
   * `getIntersection`: the default record when the ray misses the node's
   * bound, the leaf's own test at a leaf, and otherwise the child record
   * with the smaller `t`, the left one on ties. The source dereferences an
   * unset object pointer at the node built for an empty list; the model
   * answers the default record there.
   */
  function GetIntersection(n: Node, orig: Vector3f, dir: Vector3f, hitOf: int -> Intersection): (r: Intersection)
    requires NonzeroComponents(dir)
    ensures r == NoHit() || exists o :: o in Reachable(n, orig, dir) && r == hitOf(o)
    ensures forall o :: o in Reachable(n, orig, dir) ==> r.t <= hitOf(o).t
  {
    if !IntersectRay(n.bound, orig, dir) then NoHit()
    else match n
      case Empty(_) => NoHit()
      case Leaf(o, _) => hitOf(o)
      case Inner(l, rt, _) =>
        var linter := GetIntersection(l, orig, dir, hitOf);
        var rinter := GetIntersection(rt, orig, dir, hitOf);
        if linter.t <= rinter.t then linter else rinter
  }

  /** Equal `t` in both children returns the left child's record. */
  lemma {:induction false} GetIntersectionPrefersLeft(n: Node, orig: Vector3f, dir: Vector3f, hitOf: int -> Intersection)
    requires NonzeroComponents(dir) && n.Inner? && IntersectRay(n.bound, orig, dir)
    requires GetIntersection(n.left, orig, dir, hitOf).t == GetIntersection(n.right, orig, dir, hitOf).t
    ensures GetIntersection(n, orig, dir, hitOf) == GetIntersection(n.left, orig, dir, hitOf)
  {
  }

  /**
   * Culling is sound: in a well-formed tree, an object whose hit point at a
   * non-negative `t` lies inside its own bound is reached by the ray.
   */
  lemma {:induction false} HitInsideBoundIsReached(n: Node, boxes: seq<BoundBox>, orig: Vector3f, dir: Vector3f,
                                                   o: int, t: real)
    requires NonzeroComponents(dir) && Wf(n, boxes) && o in Objects(n)
    requires 0 <= o < |boxes| && t >= 0.0 && ContainsPoint(boxes[o], RayAt(orig, dir, t))
    ensures o in Reachable(n, orig, dir)
  {
    BoundContainsLeaves(n, boxes, o);
    IntersectRayExact(n.bound, orig, dir);
    match n
    case Leaf(_, _) =>
    case Inner(l, r, _) =>
      if o in Objects(l) {
        HitInsideBoundIsReached(l, boxes, orig, dir, o, t);
      } else {
        HitInsideBoundIsReached(r, boxes, orig, dir, o, t);
      }
  }

  /**
   * The BVH answer is as near as any object's own hit: for every object of
   * the tree that reports its hit at `t >= 0` inside its bound, the BVH
   * result's `t` is no larger.
   */
  lemma BvhNearest(n: Node, boxes: seq<BoundBox>, orig: Vector3f, dir: Vector3f, hitOf: int -> Intersection, o: int)
    requires NonzeroComponents(dir) && Wf(n, boxes) && o in Objects(n) && 0 <= o < |boxes|
    requires hitOf(o).t >= 0.0 && ContainsPoint(boxes[o], RayAt(orig, dir, hitOf(o).t))
    ensures GetIntersection(n, orig, dir, hitOf).t <= hitOf(o).t
  {
    HitInsideBoundIsReached(n, boxes, orig, dir, o, hitOf(o).t);
  }

  /** A leaf record that blocks a shadow ray: a non-emissive hit closer than `dis`. */
  predicate Blocks(h: Intersection, dis: real)
  {
    !HasEmission(h.mtlcolor) && h.intersected && h.t < dis
  }

  /**
   * `hasIntersection`: false for a bound miss; at a leaf, an emissive hit
   * never blocks, otherwise a hit closer than `dis` does; an internal node
   * asks the left child first, then the right.
   */
  function HasIntersection(n: Node, orig: Vector3f, dir: Vector3f, dis: real, hitOf: int -> Intersection): bool
    requires NonzeroComponents(dir)
  {
    if !IntersectRay(n.bound, orig, dir) then false
    else match n
      case Empty(_) => false
      case Leaf(o, _) =>
        var inter := hitOf(o);
        if HasEmission(inter.mtlcolor) then false
        else inter.intersected && inter.t < dis
      case Inner(l, r, _) =>
        if HasIntersection(l, orig, dir, dis, hitOf) then true
        else HasIntersection(r, orig, dir, dis, hitOf)
  }

  /** `hasIntersection` holds exactly when some reached leaf blocks the ray. */
  lemma {:induction false} HasIntersectionExact(n: Node, orig: Vector3f, dir: Vector3f, dis: real, hitOf: int -> Intersection)
    requires NonzeroComponents(dir)
    ensures HasIntersection(n, orig, dir, dis, hitOf) <==> exists o :: o in Reachable(n, orig, dir) && Blocks(hitOf(o), dis)
  {
    if IntersectRay(n.bound, orig, dir) {
      match n
      case Empty(_) =>
      case Leaf(o, _) =>
        assert Reachable(n, orig, dir) == {o};
      case Inner(l, r, _) =>
        HasIntersectionExact(l, orig, dir, dis, hitOf);
        HasIntersectionExact(r, orig, dir, dis, hitOf);
    }
  }
}
