/**
 * The Intersection record of include/Intersection.hpp. The `obj` pointer is
 * the index of the hit object in the scene's object list, -1 for `nullptr`.
 * Sphere.hpp and Triangle.hpp write a single normal `nDir`; this model
 * stores it as both the geometric normal `Ng` and the shading normal `Ns`.
 */
module Intersections {
  import opened Vectors
  import opened Globals
  import opened Materials

  datatype Intersection = Intersection(
    intersected: bool,
    t: real,
    pos: Vector3f,
    Ng: Vector3f,
    Ns: Vector3f,
    textPos: Vector2f,
    diffuseIndex: int,
    normalMapIndex: int,
    roughnessMapIndex: int,
    metallicMapIndex: int,
    beta: real,
    gamma: real,
    mtlcolor: Material,
    obj: int)

  /**
   * A default-constructed Intersection: not intersected, `t = FLT_MAX`, no
   * texture, no object. The barycentric fields, uninitialised in the source,
   * are 0 here.
   */
  function NoHit(): (r: Intersection)
    ensures !r.intersected && r.t == FLT_MAX && r.obj == -1
  {
    Intersection(false, FLT_MAX, Zero(), Zero(), Zero(), NoTexturePos(), -1, -1, -1, -1,
                 0.0, 0.0, DefaultMaterial(), -1)
  }

  /** The point `orig + t * dir` along a ray. */
  function RayAt(orig: Vector3f, dir: Vector3f, t: real): Vector3f
  {
    Add(orig, Scale(dir, t))
  }
}
