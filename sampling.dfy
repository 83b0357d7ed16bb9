/**
 * The external computations a random walk of include/NaivePT.hpp and
 * include/BDPT.hpp consults at each vertex. Sampling a direction draws
 * random numbers; the rest is floating-point shading and ray casting.
 * Each is a parameter of the walk, so a walk is a deterministic function
 * of them.
 */
module Sampling {
  import opened Vectors
  import opened Materials
  import opened Intersections

  /**
   * What `auto [success, TIR] = mtlcolor.sampleDirection(wo, N, wi, eta)`
   * yields: whether a direction was found, whether it is a total internal
   * reflection, and the direction written to `wi` (not yet normalised).
   */
  datatype DirSample = DirSample(success: bool, TIR: bool, dir: Vector3f)

  /**
   * The oracles of one walk.
   * - `sample(k, inter, wo)`: the direction sampled at the walk's `k`-th
   *   vertex `inter` for the outgoing direction `wo`;
   * - `fresnel(inter, wi)` and `microfacetPdf(inter, wi, wo)`: the Fresnel
   *   term and the MICROFACET density that `pdf` uses at `inter`;
   * - `bxdf(inter, wi, wo, TIR)`: the reflectance `BxDF` returns at `inter`;
   * - `reflect(wo, N)`: `getReflectionDir`;
   * - `texture(inter)`: `inter` after `textureModify` (the identity for an
   *   object without texture);
   * - `offset(orig, N, inside)`: the origin `offsetRayOrig` moves off the
   *   surface;
   * - `trace(orig, dir)`: the nearest hit `UpdateInter` finds;
   * - `sqrt`: the square root behind `normalized`.
   */
  datatype Shading = Shading(
    sample: (nat, Intersection, Vector3f) -> DirSample,
    fresnel: (Intersection, Vector3f) -> real,
    microfacetPdf: (Intersection, Vector3f, Vector3f) -> real,
    bxdf: (Intersection, Vector3f, Vector3f, bool) -> Vector3f,
    reflect: (Vector3f, Vector3f) -> Vector3f,
    texture: Intersection -> Intersection,
    offset: (Vector3f, Vector3f, bool) -> Vector3f,
    trace: (Vector3f, Vector3f) -> Intersection,
    sqrt: real -> real)

  /**
   * `inter.mtlcolor.pdf(wi, wo, N, ...)`: the density of sampling `wi` at
   * the vertex, by the material's own branches.
   */
  function DirPdf(sh: Shading, inter: Intersection, wi: Vector3f, wo: Vector3f, N: Vector3f): real
  {
    Pdf(inter.mtlcolor, wi, wo, N, sh.fresnel(inter, wi), sh.microfacetPdf(inter, wi, wo))
  }
}
