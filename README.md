# TutuRenderer core, modelled in Dafny

TutuRenderer is an offline Monte Carlo renderer. It reads a scene description,
then estimates each pixel's radiance by sampling light-transport paths. Its main
integrator is bidirectional path tracing (BDPT), which works in three stages:

- It grows an eye subpath from the camera and a light subpath from a sampled
  point on an emitter.
- It splices the two subpaths in every way `(s, t)` that uses `s` light vertices
  and `t` eye vertices.
- It weights each splice by multiple importance sampling (MIS) with the power
  heuristic.

This project models that integrator in Dafny, together with the pieces it
stands on: vectors, materials, bounding boxes, the BVH and brute-force
intersectors, spheres, triangles, the camera, textures, the scene reader and
the post-processor. It proves properties of the model.

One module per source file:

- `Vectors` (vectors.dfy): `Vector3f`/`Vector2f`, their operators, `dot`, `norm2`, `crossProduct`, `normalized` (include/Vector.hpp).
- `Globals` (globals.dfy): the string checks, `existIn`, `getEleIn`, `clamp`, `lerp`, `rescale`, `solveQuadratic`, and the C++ `(int)` cast (include/global.hpp).
- `Materials` (materials.dfy): `Material`, `hasEmission`, the `pdf`/`BxDF` branches, `operator=` as a class (include/Material.hpp).
- `Intersections`, `SceneObjects` (intersection.dfy, objects.dfy): the hit record and the object fields the integrators read.
- `Bounds` (bounds.dfy): `BoundBox` and its slab test (include/BoundBox.hpp).
- `BVH`, `BVHStrategy` (bvh.dfy, bvh_strategy.dfy): `recursiveBuild`, `getIntersection`, `hasIntersection`, `ShadowHelper` over a tree datatype (include/BVH.hpp, include/BVHStrategy.hpp).
- `BaseStrategy` (base_strategy.dfy): the brute-force nearest-hit loop and shadow-product loop (include/BaseInterStrategy.hpp).
- `Spheres`, `Triangles` (spheres.dfy, triangles.dfy): the shapes as classes: `intersect`, `initializeBound`, `getArea`, `samplePoint`.
- `Cameras` (cameras.dfy): the camera as a class: `initialize`, `raster2pxlIndex`, `worldPos2PixelIndex`.
- `Textures` (textures.dfy): `getRGBat`.
- `SceneReader` (ppm_generator.dfy): `PPMGenerator`'s keyword handlers, face parsing, texture bookkeeping, `getIndex`, the output name.
- `Postprocessing` (postprocessing.dfy): the bloom passes and the texture ping-pong of `performPostProcess`.
- `Sampling` (sampling.dfy): the oracles for direction sampling, densities, BSDF values and texturing.
- `Integrators` (integrator.dfy): `Geo`, `We`, `getLightPdf`, `sampleLight`, `sampleLightDir` (include/IIntegrator.hpp).
- `NaivePathTracing` (naive_pt.dfy): the unidirectional path tracer (include/NaivePT.hpp).
- `BdptPaths` (bdpt_paths.dfy): `buildEyePath` and `buildLightPath`.
- `MisWeights` (mis.dfy): `MISweight`: node layout, the two ratio loops, and the proof that the result is the power heuristic.
- `BdptRender` (bdpt.dfy): the per-pixel sample loop and the strategy loop of `sub_render_bdpt`.

Floating-point numbers are modelled as `real`. Where the C++ code divides by
a value that can be zero, the model uses `Globals.Quotient`, or it requires
a nonzero divisor, as listed below.

Some inputs become explicit parameters, usually functions:
- random numbers and sampled directions;
- the square root;
- the ray caster and the shadow-ray test;
- every BSDF value the integrators use (the `Shading.bxdf` parameter; see below);
- the camera's projection;
- `std::stof`.

Code that loops or mutates is modelled as methods:
- the walks;
- the MIS node fill and its loops;
- the sample and strategy loops;
- the scene reader's handlers;
- the post-processor's passes.

Each such method is proved against a function of its inputs. What the source
promises is proved about that function.

## Behaviour of the code worth noting

- `Intersection` (include/Intersection.hpp:13-34) declares the normals `Ng`
  and `Ns` and the texture index `diffuseIndex`. It has no field `nDir` and
  no field `textureIndex`.
- The object code nevertheless stores its single normal in `inter.nDir`:
  `Sphere::intersect` and `Sphere::samplePoint` (include/Sphere.hpp:56, 98,
  146), `Triangle::intersect` and `Triangle::samplePoint`
  (include/Triangle.hpp:57-58, 162-163). `textureModify` also reads and
  writes `inter.nDir` (include/IIntegrator.hpp:60-76).
- `Sphere::intersect` stores its texture index in `inter.textureIndex`
  (include/Sphere.hpp:73, 115). `Triangle::intersect` uses the declared
  `diffuseIndex` at the same step (include/Triangle.hpp:65).
- The model reads every store to `nDir` as a store of the same vector to
  both `Ng` and `Ns`, and the sphere's `textureIndex` as `diffuseIndex`.
- `Material::BxDF` is declared with four parameters `(wi, wo, N, eta_scene)`
  (include/Material.hpp:69). Its callers pass six or seven
  (`wi, wo, Ng, Ns, eta, adjoint[, TIR]`, include/BDPT.hpp:277, 375, 804,
  844, 855) or five (`wi, wo, nDir, eta, TIR`, include/NaivePT.hpp:152).
  No overload with those parameters is part of the source.
- `Material::sampleDirection` returns a `Vector3f`
  (include/Material.hpp:130). Its callers unpack it as a pair
  `auto [success, TIR]` (include/BDPT.hpp:246, 344, include/NaivePT.hpp:139).
- The model therefore gives the integrators' reflectance and direction
  sampling as parameters (`Shading.bxdf`, `Shading.sample`). `Materials.BxDF`
  models the four-parameter function as written.
- A walk whose direction density is below `MIN_DIVISOR` first appends the
  vertex and then stops (include/BDPT.hpp:270-279). It does not stop before
  appending.
- The light walk appends a vertex that carries emission and then returns
  (include/BDPT.hpp:369-372). It halts before appending only at the first hit
  after the light point (include/BDPT.hpp:329-330).
- A strategy's contribution is discarded only when it is exactly zero or NaN
  (include/BDPT.hpp:775-776, 809-810, 878-879). There is no `MIN_DIVISOR`
  test on the contribution. Only the MIS weight is cut to 0 below
  `MIN_DIVISOR` (include/BDPT.hpp:217-221).
- `sampleLight` picks index `(int)(r * (size - 1) + 0.4999)`
  (include/IIntegrator.hpp:243-244). This pick is not uniform:
  `Integrators.PickFavoursMiddle` shows that with three lights the middle
  one takes every `r` in `[0.2501, 0.75)`, about half of `[0, 1)`. The pick density is nevertheless
  `1 / (size * area)` (include/IIntegrator.hpp:250). Both are modelled as
  written.

## Model

| member | source | states |
|---|---|---|
| Vectors.NoTexturePos | include/Vector.hpp:43-46 | `Vector2f()` starts at (-1, -1), both coordinates negative, which means "no texture" |
| Vectors.Broadcast | include/Vector.hpp:73-77 | `Vector3f(i)` puts `i` in all three components, and gives the zero vector exactly when `i` is 0 |
| Vectors.Normalized | include/Vector.hpp:156-163 | a zero magnitude returns the input unchanged, and then the input is the zero vector; a positive magnitude gives a vector of unit length |
| Vectors.Norm2ZeroIffZero | include/Vector.hpp:129-151 | `norm2` equals `dot(v, v)`, is never negative, and is zero only for the zero vector |
| Vectors.ScaleNorm2 | include/Vector.hpp:86-88 | scaling by `c` multiplies `norm2` by `c*c` |
| Vectors.DotSymmetricLinear | include/Vector.hpp:129-136 | `dot` is symmetric, scales with a scalar factor and changes sign under unary minus |
| Vectors.CrossOrthogonal | include/Vector.hpp:165-168 | `crossProduct(a, b)` is orthogonal to `a` and to `b`, swapping the factors negates it, and `crossProduct(a, a)` is zero |
| Vectors.SubAddNeg | include/Vector.hpp:99-110 | `a - b` is `a + (-b)`, negating a difference swaps it, the squared length of a difference is symmetric, and `+` commutes |
| Vectors.NormalizedOrthogonal | include/Vector.hpp:156-163 | normalising keeps a vector orthogonal to any vector it was orthogonal to |
| Vectors.NormalizedDotSign | include/Vector.hpp:156-163 | normalising keeps the sign of every dot product |
| Vectors.UnitLength | include/Vector.hpp:156-163 | with a true square root, `normalized` keeps the zero vector and gives unit length to every other vector |
| Vectors.UnitIsNormalized | include/Vector.hpp:156-163 | taking the length with the square-root function is the same as passing that length, which is zero exactly for the zero vector |
| Globals.Trunc | include/Camera.hpp:52-53 | C++ `(int)x` truncates toward zero: it is below `x` by less than 1 for non-negative `x`, above it by less than 1 for negative `x`, and 0 on (-1, 1) |
| Globals.TruncWhole | include/Camera.hpp:52-53 | truncating a whole number returns that number |
| Globals.Lerp | include/global.hpp:17-22 | `lerp(v0, v1, 0) = v0`, `lerp(v0, v1, 1) = v1`, and equal end points give that value |
| Globals.LerpVec | include/global.hpp:24-31 | the vector `lerp` is the scalar `lerp` in each component and hits both end points |
| Globals.Clamp | include/global.hpp:33-36 | when `lo <= hi` the result lies in `[lo, hi]`; a value in range is returned unchanged; below `lo` gives `lo`; above `hi` gives `hi` |
| Globals.ClampVec | include/global.hpp:38-45 | the vector `clamp` is the scalar `clamp` in each component |
| Globals.Rescale | include/global.hpp:47-49 | `originMin` maps to `targetMin` and, for a non-empty origin range, `originMax` maps to `targetMax`; an empty origin range gives `targetMin` |
| Globals.CheckPosInt | include/global.hpp:52-61 | succeeds exactly when every character is a digit `0`-`9`, so the empty string passes |
| Globals.DecimalShape | include/global.hpp:64-107 | an accepted unsigned decimal starts and ends with a digit, holds only digits and '.', and has at most one '.' |
| Globals.CheckFloat | include/global.hpp:64-107 | succeeds exactly on `-?[0-9]+(\.[0-9]+)?`; this rejects the empty string, `"-"`, a leading or trailing '.', and a second '.' |
| Globals.ExistIn | include/global.hpp:152-158 | true exactly when `ele` equals some element of `v` |
| Globals.GetEleIn | include/global.hpp:191-205 | fails with the out-of-bound error exactly when `index < 0` or `index >= size`; otherwise returns `arr[index]` (both overloads) |
| Globals.QuadraticRootSolves | include/global.hpp:119-143 | both `(-B ± sqrt(disc)) / 2A` solve `A t^2 + B t + C = 0` |
| Globals.SolveQuadratic | include/global.hpp:128-148 | `t1 <= t2` always holds; a negative discriminant gives `t1 = t2 = FLT_MAX`; otherwise `{t1, t2}` are the two roots, both solve the equation, and a zero discriminant gives `t1 = t2` |
| Materials.DefaultMaterial | include/Material.hpp:19-32 | the member initialisers: not emissive, LAMBERTIAN, opaque (`alpha = 1`) and `eta = 1` |
| Materials.HasEmission | include/Material.hpp:61-63 | true exactly when some emission component is nonzero |
| Materials.Pdf | include/Material.hpp:254-294 | the LAMBERTIAN pdf is `wi·N/π` when `wi·N > 0` and 0 otherwise, so never negative; SPECULAR_REFLECTIVE and the default branch give 1; PERFECT_REFRACTIVE gives `1-F` when `wi·N < 0` and `F` otherwise, which stays in [0,1] when `F` does; MICROFACET gives the external value |
| Materials.BxDF | include/Material.hpp:69-124 | LAMBERTIAN gives `diffuse/π` when `wo·N > 0` and the zero vector otherwise; SPECULAR_REFLECTIVE and PERFECT_REFRACTIVE give 1; other unhandled types give 0; MICROFACET gives the external value |
| Materials.MaterialCell.constructor | include/Material.hpp:17-32 | a new material holds the member initialisers |
| Materials.MaterialCell.Assign | include/Material.hpp:36-59 | `operator=` leaves this object holding `other`'s former value in every field, and does not change `other`; self-assignment changes nothing |
| Intersections.NoHit | include/Intersection.hpp:13-35 | a default record is not intersected, has `t = FLT_MAX`, and names no object |
| Bounds.FromPoints | include/BoundBox.hpp:13-27 | the two-point constructor gives a box with `pMin <= pMax` in every component that holds both points, and ordered points are kept as they are |
| Bounds.FromPointsSmallest | include/BoundBox.hpp:13-27 | every box holding both points holds the constructed box |
| Bounds.Centroid | include/BoundBox.hpp:35 | the centroid is the midpoint of the corners and lies inside a well-formed box |
| Bounds.Diagonal | include/BoundBox.hpp:38 | the diagonal is non-negative in every component exactly when the box is well formed, and `pMin + diagonal = pMax` |
| Bounds.MaxExtent | include/BoundBox.hpp:43-52 | the result is in {0,1,2} and names a largest diagonal component: 0 exactly when x is strictly largest, else 1 exactly when y > z, else 2 |
| Bounds.Union | include/BoundBox.hpp:96-109 | the union is well formed and contains both boxes; for well-formed inputs it is exactly the componentwise min/max box |
| Bounds.UnionPoint | include/BoundBox.hpp:111-124 | the union with a point is well formed and contains the box and the point; a point already inside leaves a well-formed box unchanged |
| Bounds.UnionCommutative | include/BoundBox.hpp:96-109 | `Union(b1, b2) = Union(b2, b1)` |
| Bounds.UnionIdempotent | include/BoundBox.hpp:96-109 | `Union(b, b) = b` for a well-formed box |
| Bounds.ContainsBoxTransitive | include/BoundBox.hpp:96-109 | box containment is transitive |
| Bounds.SlabAt | include/BoundBox.hpp:57-72 | along one axis, after the swap for a negative direction, time `t` lies between the entry and exit times exactly when the ray point at `t` lies between the two planes |
| Bounds.InAllSlabs | include/BoundBox.hpp:75-84 | `t` lies in `[t_enter, t_exit]` exactly when the ray point at `t` is inside the box |
| Bounds.OriginInsideHits | include/BoundBox.hpp:55-92 | a ray whose origin is inside the box passes the slab test |
| Bounds.IntersectRayExact | include/BoundBox.hpp:55-92 | the slab test is true exactly when some point of the ray at a non-negative time lies in the box, so `t_exit < 0` gives false |
| BVH.BoundContainsLeaves | include/BVH.hpp:53-120 | in a tree `recursiveBuild` produced, each leaf's object bound lies inside the bound of every node above it |
| BVH.Insert | include/BVH.hpp:85-104 | inserting into a list sorted by centroid key keeps it sorted and adds exactly the new object |
| BVH.SortByKey | include/BVH.hpp:81-105 | the `std::sort` by centroid coordinate on the chosen axis gives a sorted permutation of the object list |
| BVH.UnionOfContains | include/BVH.hpp:73-76 | the folded union of the object bounds is a well-formed box that contains every object's bound |
| BVH.UnionAll | include/BVH.hpp:73-76 | the union loop computes the left fold of `Union` over the object bounds |
| BVH.UnionOfStep | include/BVH.hpp:74-76 | each loop step unions the running box with the next object's bound |
| BVH.RecursiveBuild | include/BVH.hpp:47-123 | an empty list gives a childless default node, one object a leaf with its bound, two objects two leaves; the tree is well formed with exactly the input objects at its leaves; the left child gets `n / 2` objects and the right the rest; from three objects on, no left key is above a right key on the `maxExtent` axis |
| BVH.BuildSplit | include/BVH.hpp:69-120 | the three-or-more branch gives a well-formed internal node holding exactly the input objects, split `n / 2` and `n - n / 2` by centroid key |
| BVH.SplitObjects | include/BVH.hpp:73-114 | the two halves are sized `n / 2` and `n - n / 2`, together are the input (the `assert` at line 114), and no key on the left is above a key on the right |
| BVH.JoinFacts | include/BVH.hpp:116-119 | joining two trees built from non-empty lists, under the union of their bounds, gives a well-formed tree of both lists |
| BVH.SplitKeys | include/BVH.hpp:107-112 | cutting a sorted list at `middle` leaves no key on the left above a key on the right |
| BVH.GetIntersection | include/BVH.hpp:145-167 | the result is the default record or the record of a leaf the ray reaches, and its `t` is no larger than any reached leaf's |
| BVH.GetIntersectionPrefersLeft | include/BVH.hpp:165 | on equal `t` the left child's record is returned |
| BVH.HitInsideBoundIsReached | include/BVH.hpp:149-174 | culling is sound: an object whose hit at `t >= 0` lies inside its own bound passes the slab test at every ancestor, so the ray reaches it |
| BVH.BvhNearest | include/BVH.hpp:145-167 | the BVH answer's `t` is no larger than the `t` of any object whose hit at `t >= 0` lies inside its bound |
| BVH.HasIntersectionExact | include/BVH.hpp:170-194 | `hasIntersection` holds exactly when some reached leaf has a non-emissive hit closer than `dis` |
| BVHStrategy.ReachableInObjects | include/BVHStrategy.hpp:24-46 | the leaves a ray reaches are objects of the tree |
| BVHStrategy.UpdateInter | include/BVHStrategy.hpp:8-11 | the record is the default one or some object's own record, and its `t` is no larger than that of any object hit at `t >= 0` inside its own bound |
| BVHStrategy.ShadowHelper | include/BVHStrategy.hpp:24-46 | a ray that misses the node's bound gives 1 |
| BVHStrategy.ShadowInUnitRange | include/BVHStrategy.hpp:24-46 | when every occluder's `alpha` is in [0,1], the shadow coefficient is in [0,1] |
| BVHStrategy.ShadowInner | include/BVHStrategy.hpp:42-45 | at an internal node the ray passes, the coefficient is the product of the children's |
| BVHStrategy.ShadowInnerStep | include/BVHStrategy.hpp:42-45 | the product of two coefficients in [0,1] at an internal node stays in [0,1] |
| BVHStrategy.ShadowUnoccluded | include/BVHStrategy.hpp:24-46 | with no reached leaf hit closer than the light, the coefficient is 1 |
| BVHStrategy.ShadowOpaque | include/BVHStrategy.hpp:24-46 | one reached, fully opaque occluder (`alpha == 1`) makes the coefficient 0 |
| BVHStrategy.ShadowOrigin | include/BVHStrategy.hpp:14-15 | the shadow ray starts `0.0005` times the normal away from the hit point |
| BVHStrategy.GetShadowCoeffi | include/BVHStrategy.hpp:13-22 | towards the light along the normalised direction, the coefficient is 1 when nothing reached occludes, and in [0,1] when every occluder's `alpha` is in [0,1] |
| BVHStrategy.ShadowBounds | include/BVHStrategy.hpp:24-46 | the visibility facts together: nothing occludes gives 1, and occluder alphas in [0,1] give a coefficient in [0,1] |
| BaseStrategy.NearestOfIsFirstMinimum | include/BaseInterStrategy.hpp:13-21 | the record kept is no farther than the incoming one or any reporting object; it is the incoming record when no report is strictly nearer, and otherwise the FIRST reporting object with the smallest `t` |
| BaseStrategy.UpdateInter | include/BaseInterStrategy.hpp:10-23 | the loop over the object list leaves the strictly-nearest record the fold `NearestOf` defines |
| BaseStrategy.TransmittanceBounds | include/BaseInterStrategy.hpp:33-43 | the coefficient is 1 when nothing dims the ray, 0 when a fully opaque object does, and in [0,1] when every dimming object's `alpha` is in [0,1] |
| BaseStrategy.GetShadowCoeffi | include/BaseInterStrategy.hpp:25-44 | the loop skips the shaded object itself and lights, and multiplies `1 - alpha` for every hit closer than the light: the product `Transmittance` defines |
| BaseStrategy.AllReports | include/BaseInterStrategy.hpp:13-15 | one report per object of the list, holding that object's own answer for the ray |
| BaseStrategy.StrategiesAgree | include/BVHStrategy.hpp:8-11 | over a tree built from every object, the BVH's nearest `t` equals the `t` the brute-force loop finds from a fresh record, when every object's hits lie inside its bound |
| Spheres.SelectRoot | include/Sphere.hpp:40-91 | a selected root is one of the two roots and not behind the origin, and a zero root is selected only in the double-root branch |
| Spheres.SelectRootNearest | include/Sphere.hpp:45-91 | for ordered roots the nearest root not behind the origin is chosen; a double root hits exactly when it is not negative; two distinct roots hit exactly when the farther is in front and the nearer is not exactly 0 |
| Spheres.SelectRootMiss | include/Sphere.hpp:40-43 | both roots at `FLT_MAX` (no real root) never hit |
| Spheres.RootOnSphere | include/Sphere.hpp:27-35 | with a unit direction (`A = 1`), a root of the quadratic is a point on the sphere |
| Spheres.SphereBound | include/Sphere.hpp:124-128 | the box is the center minus and plus the radius on every axis; it is well formed and holds the center |
| Spheres.BallInsideBound | include/Sphere.hpp:124-128 | the sphere's bound holds every point of the ball |
| Spheres.SphereUV | include/Sphere.hpp:61-72 | for `phi` in [0, pi] the `v` coordinate is in [0,1], and for an `atan2` angle in [-pi, pi] the `u` coordinate is in [0,1] |
| Spheres.Sphere.constructor | include/Sphere.hpp:11-14 | `Sphere()` is the unit sphere at the origin with the `Object` member defaults (Object.hpp:28-38) |
| Spheres.Sphere.At | include/Sphere.hpp:16-19 | `Sphere(x, y, z, r)` sets the center and radius, with the `Object` member defaults |
| Spheres.Sphere.InitializeBound | include/Sphere.hpp:124-128 | sets `bound` to the sphere's box and changes nothing else |
| Spheres.Sphere.GetArea | include/Sphere.hpp:130-132 | `r * r * M_PI` is never negative, and is zero exactly for radius 0 |
| Spheres.Sphere.Intersect | include/Sphere.hpp:26-121 | hits exactly when `SelectRoot` picks a root, at that `t`; a miss only clears `intersected`; a hit records this object, its material, the point `orig + t dir`, the normalised normal, and, only when texturing is on, the `(u, v)` of the hit's angles and the texture indices; every other field of the record keeps its value; with a unit direction the hit point lies on the sphere |
| Spheres.Sphere.SamplePoint | include/Sphere.hpp:134-155 | the sampled point lies on the sphere, the record is marked intersected with this object and material, texture fields are untouched, and `pdf * getArea() = 1` |
| Triangles.TriangleBound | include/Triangle.hpp:139-142 | `Union(BoundBox(v0, v1), v2)` is a well-formed box holding the three vertices |
| Triangles.BlendInsideBox | include/Triangle.hpp:57-64 | every convex combination of three points of a box lies in that box |
| Triangles.MollerTrumboreSound | include/Triangle.hpp:25-46 | the ray point at the Moller-Trumbore `t` is the point with barycentric weights `(1-u-v, u, v)` on the triangle |
| Triangles.Cramer | include/Triangle.hpp:42-46 | Cramer's identity behind the solve: `S det + d (S2.E2) = E1 (S1.S) + E2 (S2.d)` |
| Triangles.RayPoint | include/Triangle.hpp:44-53 | multiplying Cramer's identity by `left = 1 / det` puts the ray point at the weighted corners |
| Triangles.NormalEquations | include/Triangle.hpp:130-135 | the `beta` and `gamma` of `getBarycentric` solve its two normal equations |
| Triangles.NormalEquationsUnique | include/Triangle.hpp:130-135 | for a nonzero determinant the normal equations have one solution |
| Triangles.Triangle.constructor | include/Triangle.hpp:11-17 | a triangle with the given vertices and normals has no texture coordinates (`(-1,-1)`) and the `Object` member defaults (Object.hpp:28-38) |
| Triangles.Triangle.InitializeBound | include/Triangle.hpp:139-142 | sets `bound` to the box of the three vertices and changes nothing else |
| Triangles.Triangle.GetArea | include/Triangle.hpp:144-151 | half the length of `E1 x E2`: never negative, its double squares to `norm2(E1 x E2)`, and zero exactly for a degenerate triangle |
| Triangles.Triangle.GetBarycentric | include/Triangle.hpp:116-137 | fails exactly when the Gram determinant is within `FLOAT_EQUAL` of 0; otherwise the weights sum to 1, and `v0 + beta e1 + gamma e2` has the same dot products with both edges as the point |
| Triangles.Triangle.Intersect | include/Triangle.hpp:23-71 | a ray parallel to the face, or a zero determinant, misses; otherwise it hits exactly when `t > 0`, `u > 0`, `v > 0` and `1-u-v > 0`; a miss leaves the record untouched; a hit records this object and material, the ray point, which is the barycentric point inside the triangle's bound, and the unit face normal (line 58 overrides line 57); only when texturing is on, `textPos` is the barycentric blend of the vertex uvs and the texture indices are set; every other field of the record keeps its value |
| Triangles.Triangle.SamplePoint | include/Triangle.hpp:153-178 | the sample is a convex combination of the vertices, so it lies in the bound; the record is marked intersected with this object and material; `pdf * getArea() = 1`; when texturing is on, `textPos` is the blend of the vertex uvs with the sample's weights `(1-u-v, u, v)`, `u = r1`, `v = r2 (1-u)`, and the texture indices are set; otherwise the texture fields keep their values |
| Triangles.SampleOnTriangle | include/Triangle.hpp:155-158 | `u = r1` and `v = r2 (1 - u)` for `r1, r2` in [0,1) give convex weights, so the sampled point lies in the triangle's bound |
| Triangles.BarycentricRoundTrip | include/Triangle.hpp:116-137 | for a point `v0 + b e1 + g e2` of a non-degenerate triangle, `getBarycentric` recovers `beta = b` and `gamma = g` |
| Cameras.CameraFrameOrthonormal | include/Camera.hpp:13-17 | the forward, right and up directions `initialize` builds are pairwise orthogonal, and of unit length when no magnitude is 0 |
| Cameras.AreaInv | include/Camera.hpp:46 | `1 / (width * height)` is positive and multiplies the film area to 1 |
| Cameras.Camera.constructor | include/Camera.hpp:8-9 | the fields (declared at lines 80-92) the scene setup assigns (view and up direction, position, size, field of view) are held; the rest start at zero with an empty frame buffer |
| Cameras.Camera.Initialize | include/Camera.hpp:12-48 | builds the orthonormal frame, fills a `width x height` frame buffer with the background colour, sets `imagePlaneDist = width / (2 tan(hfov/2))`, `filmPlaneAreaInv = 1 / (width * height)` and `lensAreaInv = 1`, and keeps position, size and field of view |
| Cameras.Camera.Raster2PxlIndex | include/Camera.hpp:51-58 | -1 exactly when the truncated raster position is off the grid; otherwise a frame-buffer index whose column is the truncated `x` and whose row is the truncated `y` |
| Cameras.Camera.WorldPos2PixelIndex | include/Camera.hpp:60-78 | the result is -1 or a frame-buffer index, and -1 exactly when the raster position shifted by half a pixel truncates off the grid |
| Cameras.RasterNearOrigin | include/Camera.hpp:51-58 | truncation toward zero maps every raster position within one unit of the origin, negative ones included, to pixel 0 |
| Cameras.WorldPosPixel | include/Camera.hpp:60-78 | pixel `(px, py)` collects raster positions `(px + 0.5 + a, py + 0.5 + b)` with `a, b` in [0,1); column 0 and row 0 also collect `a` or `b` in (-1, 0) |
| Textures.RowMajor | include/Texture.hpp:25 | pixel `(x, y)` of a `w x h` grid has index `y * w + x` in `[0, w * h)`, and remainder and quotient by `w` give back `x` and `y` |
| Textures.ClampIndex | include/Texture.hpp:26-27 | an index already in range is kept; a non-empty buffer always gets an index in range; an empty one gets `size - 1` |
| Textures.GetRGBAt | include/Texture.hpp:16-29 | a texture with zero width and height gives the zero colour; otherwise a non-empty buffer yields one of its own pixels, and an empty buffer gives the out-of-bound error of `getEleIn` |
| Textures.CellInside | include/Texture.hpp:21-22 | coordinates in [0,1) truncate to a cell of the grid |
| Textures.LookupCell | include/Texture.hpp:16-29 | a lookup whose cell is inside a one-pixel-per-cell grid reads that cell's pixel, without clamping |
| Textures.GetRGBAtInside | include/Texture.hpp:16-29 | for `u, v` in [0,1) and one pixel per cell, the lookup reads exactly the pixel of the cell `(u, v)` falls in |
| Textures.CellOfPixel | include/Texture.hpp:21-22 | pixel `(x, y)`'s own coordinates `(x / w, y / h)` fall in its cell |
| Textures.PixelLookup | include/Texture.hpp:16-29 | looking a pixel up by `(x / w, y / h)` finds that same pixel |
| Postprocessing.GridIndexInjective | include/Postprocessor.hpp:64 | distinct pixels of a grid have distinct row-major indices, so no pass overwrites a pixel it already wrote |
| Postprocessing.GridCovers | include/Postprocessor.hpp:62-63 | every index of a `w x h` grid is the index of pixel `(i % w, i / w)`, so the sweep reaches every entry |
| Postprocessing.FillStep | include/Postprocessor.hpp:63-64 | storing pixel `(x, y)` at its index advances the sweep's invariant one row |
| Postprocessing.FillColumn | include/Postprocessor.hpp:62-63 | a finished column starts the next one |
| Postprocessing.FillDone | include/Postprocessor.hpp:62-80 | after the last column every pixel of the grid holds its value and no other entry changed |
| Postprocessing.FillGrid | include/Postprocessor.hpp:62-80 | the column-by-column sweep (the same at lines 113-124 and 135-142) succeeds exactly when the buffer is large enough and every pixel's value succeeds; it then replaces exactly the grid's entries; otherwise it fails with a pixel's error or the `out_of_range` of `at` |
| Postprocessing.GridOfAt | include/Postprocessor.hpp:64 | pixel `(x, y)` of an image sits at its row-major index |
| Postprocessing.GridOfUnique | include/Postprocessor.hpp:53-64 | a `w * h` buffer holding `f(x, y)` at every pixel's index is that image |
| Postprocessing.EmissiveOf | include/Postprocessor.hpp:105-126 | fails exactly when the source has positive size and no pixels (the `getEleIn` throw); otherwise it has the source's size and `width * height` pixels |
| Postprocessing.GetEmmisiveTexture | include/Postprocessor.hpp:105-126 | the sweep yields exactly `EmissiveOf(img)` |
| Postprocessing.EmissiveColorAt | include/Postprocessor.hpp:117-122 | with one source pixel per cell, emissive pixel `(x, y)` is source pixel `(x, y)` when its norm is above 3 and black otherwise |
| Postprocessing.EmissiveKeepsBright | include/Postprocessor.hpp:105-126 | on an image with one pixel per cell, the emissive texture keeps exactly the pixels brighter than 3, in place, and blacks out the rest |
| Postprocessing.BlurPass | include/Postprocessor.hpp:49-80 | a pass yields a texture of the source's size with `width * height` pixels |
| Postprocessing.BlurOf | include/Postprocessor.hpp:46-102 | the vertical then horizontal pass keeps the input's width and height and has `width * height` pixels |
| Postprocessing.RunBlurPass | include/Postprocessor.hpp:49-80 | one pass's sweep yields exactly `BlurPass` |
| Postprocessing.GetGaussianBlurTexture | include/Postprocessor.hpp:46-102 | the two passes, the second reading a copy of the first's result, yield exactly `BlurOf` |
| Postprocessing.AddOf | include/Postprocessor.hpp:128-144 | fails exactly when either image has fewer than `width * height` pixels; otherwise keeps `img1`'s name, size and flag, and raises each of its first `width * height` pixels by `img2`'s pixel of the same index, leaving any later pixels as they were |
| Postprocessing.AddSweepFails | include/Postprocessor.hpp:135-142 | a failing read in the sweep means `AddOf` fails |
| Postprocessing.AddSweepResult | include/Postprocessor.hpp:135-142 | a sweep in which every read succeeded produced `AddOf`'s image |
| Postprocessing.AddTextures | include/Postprocessor.hpp:128-144 | the in-place sweep yields exactly `AddOf(img1, img2)` |
| Postprocessing.Postprocessor.constructor | include/Postprocessor.hpp:20-23 | four render textures, `[0]` a copy of the source and the others default |
| Postprocessing.Postprocessor.PerformPostProcess | include/Postprocessor.hpp:25-42 | `[1]` becomes the emissive texture of `[0]`; the blurs write `[2]`, `[3]` and `[2]` again, each reading the previous one; the result is `[0]` plus `[2]`; a failing extraction changes no buffer |
| Postprocessing.PostProcessSucceeds | include/Postprocessor.hpp:25-42 | on an image with one pixel per cell the whole post-process succeeds and keeps the image's width and height |
| SceneReader.Find | include/PPMGenerator.hpp:173 | `std::string::find`: the first position at or after `from` where the pattern occurs, or -1 (`npos`) when there is none |
| SceneReader.OutputName | include/PPMGenerator.hpp:169-181 | the output name always ends in ".ppm"; its stem is a prefix of the input free of ".txt" that is either the whole input (no ".txt") or followed in the input by ".txt", so ".txt" at position 0 gives ".ppm" |
| SceneReader.OutputNameOfTxt | include/PPMGenerator.hpp:169-181 | a scene file `base.txt` whose base holds no ".txt" renders to `base.ppm` |
| SceneReader.Split | include/PPMGenerator.hpp:897-1020 | cutting a token at every '/' gives at least one field, none holding '/' |
| SceneReader.JoinSplit | include/PPMGenerator.hpp:897-1020 | joining the fields with '/' gives the token back |
| SceneReader.SplitJoin | include/PPMGenerator.hpp:897-1020 | splitting '/'-free fields joined by '/' gives the fields back |
| SceneReader.MatchesPattern | include/PPMGenerator.hpp:429-432 | a token matches a form's regular expression exactly when it is that form's fields joined by '/' (`[0-9]+`, `[0-9]+//[0-9]+`, `[0-9]+/[0-9]+`, `[0-9]+/[0-9]+/[0-9]+`) |
| SceneReader.FormsExclusive | include/PPMGenerator.hpp:429-447 | no token matches two forms, so the order the forms are tried in does not change the result |
| SceneReader.Classify | include/PPMGenerator.hpp:437-447 | the chosen form is matched by all three tokens; the "face information is not valid" error comes exactly when no single form is matched by all three |
| SceneReader.DecimalText | include/PPMGenerator.hpp:877 | the decimal text of a number is a non-empty digit string |
| SceneReader.StoiDecimal | include/PPMGenerator.hpp:877 | `stoi` reads back every number written in decimal |
| SceneReader.FaceRefs | include/PPMGenerator.hpp:876-1020 | one reference triple per face token, in order |
| SceneReader.Corners | include/Triangle.hpp:11-17 | the three corners of a triangle, each its vertex, normal and texture coordinates |
| SceneReader.SetCorner | include/PPMGenerator.hpp:918-927 | sets one corner of the triangle and leaves the other two unchanged |
| SceneReader.FlatNormalOrthogonal | include/PPMGenerator.hpp:886-892 | the flat normal `normalized(e1 x e2)` is perpendicular to both edges |
| SceneReader.FlatNormalUnit | include/PPMGenerator.hpp:886-892 | with a true square root the flat normal has unit length unless the triangle is degenerate |
| SceneReader.FirstNamed | include/PPMGenerator.hpp:1026-1030 | the index of the first texture of that name, or -1 exactly when no texture has that name |
| SceneReader.LoadTexture | include/PPMGenerator.hpp:1024-1080 | nothing is added when a texture of that name is loaded; otherwise the file's texture, named `name`, is appended, or the reading fault is returned; afterwards the name is in the list, and distinct names stay distinct |
| SceneReader.FindNamed | include/PPMGenerator.hpp:704-711 | the search loop finds the first texture of that name, or -1 |
| SceneReader.RemapRange | include/PPMGenerator.hpp:739-745 | the bump remap `2c - 1` takes colours in [0,1] to [-1,1], and `(c + 1) / 2` undoes it |
| SceneReader.RemapAll | include/PPMGenerator.hpp:739-745 | every pixel of a new bump map is remapped, and the length is kept |
| SceneReader.CheckFloats | include/PPMGenerator.hpp:380-383 | `checkFloat` on every token succeeds exactly when all tokens are float literals |
| SceneReader.Take | include/PPMGenerator.hpp:397-410 | a pending map index goes to the object's slot and resets to -1; an unset index leaves the slot as it was |
| SceneReader.MapSeq | include/PPMGenerator.hpp:739-745 | the remapped map keeps the length and remaps every pixel |
| SceneReader.PPMGenerator.constructor | include/PPMGenerator.hpp:71-94 | before any keyword: the sentinel sizes, field of view and vectors, empty lists, texturing off, every map index -1, perspective projection, no depth cueing, and not initialised |
| SceneReader.PPMGenerator.InitializedBySettings | include/PPMGenerator.hpp:855-865 | settings the keywords can give make the reader initialised, and a sentinel left in any field keeps it uninitialised |
| SceneReader.PPMGenerator.GetIndex | include/PPMGenerator.hpp:807-809 | for a pixel inside the image, `y * width + x` is an index of the image with remainder `x` and quotient `y` |
| SceneReader.PPMGenerator.GetIndexBijective | include/PPMGenerator.hpp:820-823 | every index of the image comes from exactly one pixel of the `writePixel` sweep |
| SceneReader.PPMGenerator.FetchCorner | include/PPMGenerator.hpp:897-1020 | one corner: succeeds exactly when every reference of the form is in range, takes the vertex and, when the form has them, the normal and texture coordinates, and otherwise fails with `getEleIn`'s error |
| SceneReader.PPMGenerator.FillCorners | include/PPMGenerator.hpp:876-1020 | the corner loop succeeds exactly when all references are in range and then fills every corner from its reference; it fails at the first corner holding an out-of-range reference; forms without texture coordinates keep them |
| SceneReader.PPMGenerator.ProcessFace | include/PPMGenerator.hpp:876-1020 | `processFlat`, `processSmooth`, `processFlatText` and `processSmoothText`: corners filled from the references; the flat forms give all three corners the flat normal; forms without texture coordinates leave them unchanged |
| SceneReader.PPMGenerator.MakeTriangle | include/PPMGenerator.hpp:434-447 | a new triangle of the current material, filled by the form's `process*` function, or `getEleIn`'s error |
| SceneReader.PPMGenerator.AttachTriangleMaps | include/PPMGenerator.hpp:455-464 | with texturing on, the triangle gets the current texture and takes the pending bump map, whose index resets to -1 |
| SceneReader.PPMGenerator.ReadFace | include/PPMGenerator.hpp:420-469 | a face with no common form is the "not valid" error; otherwise it succeeds exactly when all references are in range and appends one bounded triangle filled from them with the face settings; an error changes nothing |
| SceneReader.PPMGenerator.AddFace | include/PPMGenerator.hpp:449-469 | the filled triangle gets the face settings and its bound and is appended; a reference out of range changes nothing |
| SceneReader.PPMGenerator.AddTriangle | include/PPMGenerator.hpp:452-467 | a filled triangle gets the texture settings and its bound, stays filled, and is appended to the object list |
| SceneReader.PPMGenerator.MakeSphere | include/PPMGenerator.hpp:375-387 | fails with `NotAFloat` exactly when some token is not a float literal; otherwise a new sphere with the parsed center and radius and the current material |
| SceneReader.PPMGenerator.AttachSphereMaps | include/PPMGenerator.hpp:385-411 | with texturing on, the sphere gets the current texture and takes the pending bump, roughness and metallic maps, each index resetting to -1 |
| SceneReader.PPMGenerator.ReadSphere | include/PPMGenerator.hpp:373-419 | `sphere x y z r`: fails exactly when a token is not a float literal, changing nothing; otherwise appends a bounded sphere of the parsed center, radius and current material that consumes the pending maps when texturing is on |
| SceneReader.PPMGenerator.ReadVertex | include/PPMGenerator.hpp:359-371 | `v x y z` appends the parsed vertex (this keyword runs no `checkFloat`) |
| SceneReader.PPMGenerator.ReadNormal | include/PPMGenerator.hpp:470-482 | `vn x y z` fails exactly when a token is not a float literal, changing nothing; otherwise appends the normalised normal |
| SceneReader.PPMGenerator.ReadTextCoord | include/PPMGenerator.hpp:484-491 | `vt u v` fails exactly when a token is not a float literal, changing nothing; otherwise appends the coordinates |
| SceneReader.PPMGenerator.ReadImsize | include/PPMGenerator.hpp:508-514 | `imsize w h` fails with `NotAPositiveNumber` exactly when a token is not a digit string; a valid width is stored even when the height then fails; stored sizes are the tokens' decimal values, so never -1 |
| SceneReader.PPMGenerator.ReadHfov | include/PPMGenerator.hpp:536-541 | `hfov h` fails exactly when the token is not a digit string, changing nothing; otherwise the field of view is its non-negative decimal value |
| SceneReader.PPMGenerator.ReadViewVector | include/PPMGenerator.hpp:516-551 | `eye`, `viewdir` and `updir` fail exactly when a token is not a float literal, changing nothing; otherwise the keyword's vector becomes the parsed one and the other two are kept |
| SceneReader.PPMGenerator.ReadBkgColor | include/PPMGenerator.hpp:553-565 | `bkgcolor` fails exactly when one of its four tokens is not a float literal; the colour is set when the first three are valid, even if the fourth then fails; `eta` is set only on success |
| SceneReader.PPMGenerator.ReadProjection | include/PPMGenerator.hpp:567-572 | the word `parallel` sets the orthographic flag; any other word keeps it |
| SceneReader.PPMGenerator.ReadLight | include/PPMGenerator.hpp:574-599 | `light` and `attlight` fail exactly when a token is not a float literal and record nothing either way |
| SceneReader.PPMGenerator.ReadMtlColor | include/PPMGenerator.hpp:602-634 | `mtlcolor` fails exactly when one of its twelve tokens is not a float literal, changing nothing; otherwise it sets diffuse, specular, `ka`, `kd`, `ks`, `n`, `alpha` and `eta` of the current material, keeps its other fields, and switches texturing off |
| SceneReader.PPMGenerator.ReadMicrofacet | include/PPMGenerator.hpp:636-656 | `MICROFACET` fails exactly when one of its seven tokens is not a float literal, changing nothing; otherwise the current material becomes MICROFACET with the parsed diffuse, `alpha`, `eta`, roughness and metallic, and texturing is unchanged |
| SceneReader.PPMGenerator.ReadSpecularReflective | include/PPMGenerator.hpp:658-661 | only the current material's type changes, to SPECULAR_REFLECTIVE |
| SceneReader.PPMGenerator.ReadPerfectRefractive | include/PPMGenerator.hpp:663-668 | the current material becomes PERFECT_REFRACTIVE with the parsed `eta`, its other fields kept |
| SceneReader.PPMGenerator.ReadDepthCueing | include/PPMGenerator.hpp:673-692 | the flag is raised even when a token fails; the call fails exactly when one of the seven tokens is not a float literal, keeping colour and limits; otherwise it sets the cueing colour and `amax`, `amin`, `distmax`, `distmin` |
| SceneReader.PPMGenerator.SetMaps | include/PPMGenerator.hpp:695-790 | replaces one map kind's list and index and no other kind's |
| SceneReader.PPMGenerator.ReadMapKeyword | include/PPMGenerator.hpp:695-790 | `texture`, `bump`, `roughnessTexture` and `metallicTexture` turn texturing on and point the kind's index at the map of that name: the first one when it was loaded before, the new last entry otherwise; a newly loaded bump map is remapped by `2c - 1`; a failed load changes nothing; other kinds are untouched |
| Integrators.LightsInExact | include/IIntegrator.hpp:169-179 | the light list holds exactly the emissive objects: every entry is emissive, the entries strictly increase (each object once, in scene order), and every emissive object is listed |
| Integrators.LightListValid | include/IIntegrator.hpp:169-179 | every entry of the light list is an emissive object of the scene |
| Integrators.BuildLightList | include/IIntegrator.hpp:162-185 | the first-call loop collects exactly the light list, and `totalArea` is the sum of those lights' areas |
| Integrators.GetLightPdf | include/IIntegrator.hpp:152-197 | 0 when the point is not on a surface, when there is no light, or when the object does not emit; otherwise `1 / (numLights * area)`, which is positive when the area is |
| Integrators.PickDensity | include/IIntegrator.hpp:250 | `1 / (size * area)` is positive and the reciprocal of `size * area` when the area is positive |
| Integrators.PickIndex | include/IIntegrator.hpp:243-244 | for `r` in [0,1), `(int)(r * (size - 1) + 0.4999)` is an index of the light list, and one light gives index 0 |
| Integrators.PickFavoursMiddle | include/IIntegrator.hpp:243-250 | the pick is not uniform: with three lights, index 1 takes every `r` in [0.2501, 0.75), half the unit interval, while the density charges each light 1/3 |
| Integrators.SampleLight | include/IIntegrator.hpp:202-251 | no light marks the point not intersected with density 0; otherwise the light at `PickIndex` samples the point and the density is `1 / (numLights * area)` of that light |
| Integrators.SampleLightPdfMatches | include/IIntegrator.hpp:202-251 | the density `sampleLight` reports equals what `getLightPdf` gives the sampled point, and it is `1 / (numLights * area)` when the light has an area |
| Integrators.SampleLightDir | include/IIntegrator.hpp:254-279 | a rejected direction leaves the outputs untouched; an accepted one is returned with a non-negative density that is positive exactly when `res . N > 0`, and then equals `res . N / pi` |
| Integrators.SampleLightDirRejectsBelow | include/IIntegrator.hpp:269-271 | with a true square root, `sampleLightDir` rejects exactly the directions below the normal |
| Integrators.SampleLightDirIsLambertian | include/IIntegrator.hpp:273-275 | an accepted emission direction has the density the LAMBERTIAN `pdf` gives it (Material.hpp:257-264) |
| Integrators.Geo | include/IIntegrator.hpp:282-289 | the geometry term, absolute cosines over a squared distance, is never negative |
| Integrators.CosineRatio | include/IIntegrator.hpp:288 | `cos * cosprime / dis2` is non-negative and, for a positive distance, multiplies back to `cos * cosprime` |
| Integrators.GeoSymmetric | include/IIntegrator.hpp:282-289 | swapping the two endpoints with their normals leaves `Geo` unchanged |
| Integrators.We | include/IIntegrator.hpp:292-307 | a point that maps to no pixel index gets 0; with non-negative camera area constants the importance is never negative |
| Integrators.Importance | include/IIntegrator.hpp:303-306 | the importance is non-negative and falls off as `1 / cos^4`: times `cos^4` it is `dist^2 * lensAreaInv * filmPlaneAreaInv` |
| Integrators.ImportanceFalloff | include/IIntegrator.hpp:303-306 | the algebra behind `Importance`: with `d = dist / cos` and `r = d^2 k / cos^2`, `r` is non-negative and `r cos^4 = dist^2 k` |
| NaivePathTracing.SignedGeoSymmetric | include/NaivePT.hpp:21-28 | the signed geometry term is unchanged when the two endpoints swap with their normals |
| NaivePathTracing.GeoIsAbsSignedGeo | include/NaivePT.hpp:21-28 | the absolute-cosine `Geo` of IIntegrator.hpp:282-289 is the magnitude of this signed one |
| NaivePathTracing.CosineRatioIsAbs | include/NaivePT.hpp:25-27 | the ratio of absolute cosines is the magnitude of the ratio of signed cosines |
| NaivePathTracing.NaiveWe | include/NaivePT.hpp:30-45 | a point that maps to no pixel index gets importance 0 |
| NaivePathTracing.ImportanceEven | include/NaivePT.hpp:41-44 | the importance depends on the cosine only through its square |
| NaivePathTracing.NaiveWeIsWe | include/NaivePT.hpp:30-45 | the signed-cosine `We` here equals the absolute-cosine `We` of IIntegrator.hpp:292-307 for every point |
| NaivePathTracing.CameraVertex | include/NaivePT.hpp:104-112 | the camera vertex has throughput 1, lies at the eye, is marked intersected, and has the view direction as its normal |
| NaivePathTracing.WalkShape | include/NaivePT.hpp:126-164 | the walk keeps the vertices it had, appends at most one vertex per loop turn (`t = 1 .. MAXDEPTH-1`) and at least one while a turn is left, and stops right after an emitter, so emitters appear only at the end |
| NaivePathTracing.WalkStepStopRules | include/NaivePT.hpp:139-163 | a failed sample, a zero density (checked before the TIR override), or a non-TIR density below `MIN_DIVISOR` stops the walk; continuing means the next hit is on a surface, and a TIR sample continues along the mirror direction |
| NaivePathTracing.WalkStepThroughput | include/NaivePT.hpp:150-155 | the carried throughput is the old one times `bsdf * abs(cos) / dirPdf`, with `dirPdf >= MIN_DIVISOR` |
| NaivePathTracing.TraceEyePath | include/NaivePT.hpp:100-164 | the loop computes `SamplePath`; a primary miss skips the sample; a path has 2 to `MAXDEPTH` vertices, starts with the camera vertex, and emits only at its last vertex |
| NaivePathTracing.Contribution | include/NaivePT.hpp:165-195 | a path contributes exactly when it has at least two vertices and the last one emits |
| NaivePathTracing.DirectHitContribution | include/NaivePT.hpp:176-181 | a primary hit on an emitter adds its emission times `We` there, and nothing when the emitter is outside the frustum |
| NaivePathTracing.TraceSample | include/NaivePT.hpp:88-196 | one sample adds `SampleValue`, which is something only for a traced path of 2 to `MAXDEPTH` vertices that ends on an emitter |
| NaivePathTracing.NoContributionIsBlack | include/NaivePT.hpp:96-200 | a pixel none of whose samples contributes stays black |
| NaivePathTracing.RenderPixel | include/NaivePT.hpp:96-200 | the stored colour is the sum of the `SPP` sample contributions times `SPP_inv` |
| BdptPaths.WalkFromShape | include/BDPT.hpp:236-292 | a walk keeps the vertices it starts with and never grows past the limit; every vertex it appends is delta exactly for PERFECT_REFLECTIVE / PERFECT_REFRACTIVE, a delta vertex has `revPdf == fwdPdf`, and `G` is the geometry term with the previous vertex; the walk stops right after an emitter |
| BdptPaths.GrowStepStopRules | include/BDPT.hpp:244-280 | a failed sample ends the walk; total internal reflection forces density 1, so it always passes the zero test; any other zero density ends it; a density below `MIN_DIVISOR` appends the vertex and then ends the walk; the appended vertex carries the incoming throughput |
| BdptPaths.LoopTurn | include/BDPT.hpp:237-291 | one loop body computes the `GrowStep` outcome: stop, append and stop, or append and go on at the next hit |
| BdptPaths.WalkLoop | include/BDPT.hpp:236-292 | the `while (size < limit)` loop computes the walk `WalkFrom` |
| BdptPaths.BuildEyePath | include/BDPT.hpp:226-293 | the eye subpath starts with the camera vertex, has 1 to `MAX_PATHLENGTH + 1` vertices, follows the vertex rules, and emits only at its end |
| BdptPaths.BuildLightPath | include/BDPT.hpp:296-390 | the light subpath has at most `MAX_PATHLENGTH` vertices; the first stores the pick density in `revPdf`, has throughput `1 / pickpdf` and is not delta; the rest follow the vertex rules and emit only at the end |
| BdptPaths.LightPathHead | include/BDPT.hpp:298-319 | the first light vertex is the point `sampleLight` returns, with its pick density |
| BdptPaths.LightVertexThroughput | include/BDPT.hpp:304-309 | for a light of positive area, the light vertex's throughput times its stored density is 1 in every component |
| MisWeights.CutDensities | include/BDPT.hpp:77-142 | the joint densities are re-evaluated by the source's four cases: with `s == 0` the eye end's forward density is the light-pick density `getLightPdf`; with `t == 1` its reverse density is `lensAreaInv`; with `s == 1` the light end's reverse density is the stored pick density; with `s > 0` the connection's `G` is the geometry term between the two ends |
| MisWeights.NodeEnds | include/BDPT.hpp:153-184 | node 0 toward the light holds the density of picking the light point (the stored pick density, or `getLightPdf` when `s == 0`); node `k` toward the eye holds the camera point's density (`lensAreaInv` when `t == 1`, the camera vertex's `revPdf` otherwise) |
| MisWeights.NodeDeltas | include/BDPT.hpp:153-184 | light vertex `i` sits at node `i` and eye vertex `ti` at node `k - ti`, each with its own delta flag |
| MisWeights.FillNodes | include/BDPT.hpp:147-184 | the node buffer of `s + t` entries is fresh, every entry is written exactly once, and the buffer ends up holding `Nodes` |
| MisWeights.FillLightNodes | include/BDPT.hpp:153-167 | the light part writes each node `0 .. s-1` exactly once with its light-vertex node and leaves the eye part untouched |
| MisWeights.FillEyeNodes | include/BDPT.hpp:170-184 | the eye part writes each node `s .. k` exactly once, so every node is then written once and holds its value |
| MisWeights.ForwardLoop | include/BDPT.hpp:187-201 | the forward loop runs `t - 1` turns and leaves `1 + FwdSum` in the denominator |
| MisWeights.BackwardLoop | include/BDPT.hpp:202-216 | the backward loop runs `s` turns and adds `BwdSum` to the denominator |
| MisWeights.SumRatios | include/BDPT.hpp:187-216 | the two loops together compute `Denominator` |
| MisWeights.Denominator | include/BDPT.hpp:187-216 | the denominator is at least 1, because it counts the strategy itself |
| MisWeights.WeightOf | include/BDPT.hpp:217-221 | the weight `1 / den` is in [0, 1] for a denominator of at least 1; it is 0 or at least `MIN_DIVISOR`; a non-zero weight is the exact inverse of the denominator |
| MisWeights.MisWeightOf | include/BDPT.hpp:70-222 | a two-vertex path gets weight 1; every weight is in [0, 1] and is either 0 or at least `MIN_DIVISOR` |
| MisWeights.MisWeight | include/BDPT.hpp:70-222 | the method computes `MisWeightOf`; for `s + t > 2` its forward loop runs `t - 1` turns and its backward loop `s` turns |
| MisWeights.DensityStep | include/BDPT.hpp:187-216 | moving vertex `i` from the eye subpath to the light subpath trades its eye-side density for its light-side density in the path density |
| MisWeights.UpTelescopes | include/BDPT.hpp:187-201 | with positive eye-side densities, the product of the forward ratios from `s` to `j` times strategy `s`'s density is strategy `j`'s density |
| MisWeights.DownTelescopes | include/BDPT.hpp:202-216 | likewise for the backward ratios from `s` down to `j`, with positive light-side densities |
| MisWeights.DensityPositive | include/BDPT.hpp:187-216 | with positive vertex densities every strategy's path density is positive |
| MisWeights.UpIsDensityRatio | include/BDPT.hpp:187-201 | the product of the forward ratios is the quotient of the two strategies' path densities |
| MisWeights.DownIsDensityRatio | include/BDPT.hpp:202-216 | the product of the backward ratios is the quotient of the two strategies' path densities |
| MisWeights.FwdRatioIsSideRatio | include/BDPT.hpp:189-196 | the forward ratio at `i` is vertex `i`'s light-side density over its eye-side density, the same in the `i == 0` branch and the general one |
| MisWeights.BwdRatioIsSideRatio | include/BDPT.hpp:203-211 | the backward ratio at `i` is vertex `i - 1`'s eye-side density over its light-side density, the same in the `i == 1` branch and the general one |
| MisWeights.FwdPIsUpRatio | include/BDPT.hpp:187-201 | `p_i_plus_1` at step `j` is the product of the side ratios from `s` to `j` |
| MisWeights.BwdPIsDownRatio | include/BDPT.hpp:202-216 | `p_i_minus_1` at step `j` is the product of the side ratios from `s` down to `j` |
| MisWeights.FwdPIsPathRatio | include/BDPT.hpp:187-201 | with positive densities, `p_i_plus_1` at step `j` is `PathPdf(j) / PathPdf(s)` |
| MisWeights.BwdPIsPathRatio | include/BDPT.hpp:202-216 | with positive densities, `p_i_minus_1` at step `j` is `PathPdf(j) / PathPdf(s)` |
| MisWeights.FwdSumIsRangeSum | include/BDPT.hpp:187-201 | what the forward loop adds is the power heuristic's sum over the strategies with more light vertices than `s` |
| MisWeights.BwdSumIsRangeSum | include/BDPT.hpp:202-216 | what the backward loop adds is the power heuristic's sum over the strategies with fewer light vertices than `s` |
| MisWeights.SelfTerm | include/BDPT.hpp:188 | the strategy's own term in the power heuristic is 1 |
| MisWeights.PowerHeuristic | include/BDPT.hpp:187-216 | with positive densities the denominator is the power heuristic's sum of squared path-density ratios over every strategy with `t >= 1` that the delta rules do not leave out |
| MisWeights.MisWeightIsPowerHeuristic | include/BDPT.hpp:70-222 | the MIS weight of a path with positive node densities is the inverse of the power heuristic's sum, cut to 0 below `MIN_DIVISOR` |
| MisWeights.DeltaKeepsFwdRatio | include/BDPT.hpp:189-199 | the delta flags only decide which squares the forward loop adds: its running ratio is the same for any two node sequences with the same densities |
| MisWeights.DeltaKeepsBwdRatio | include/BDPT.hpp:203-214 | the same holds for the backward loop's running ratio |
| BdptRender.WalkStaysInScene | include/BDPT.hpp:236-292 | a walk whose ray caster and texturing report hits on scene objects only appends vertices that name scene objects |
| BdptRender.EyePathInScene | include/BDPT.hpp:732-740 | with such oracles, every eye vertex after the camera names a scene object |
| BdptRender.Strategy | include/BDPT.hpp:755-886 | a strategy the subpaths are too short for (`t > epverts.size()` or `s > lpverts.size()`) does nothing, and only the `t == 1` case adds to another pixel |
| BdptRender.EyeHitCounts | include/BDPT.hpp:766-785 | for `s == 0` with a primary hit that is not UNLIT, the strategy counts exactly when the eye end emits and its value `we * throughput * emission` is non-zero |
| BdptRender.EyeHitAdds | include/BDPT.hpp:766-785 | `s == 0` never adds to another pixel; an UNLIT primary hit adds its diffuse colour unweighted; otherwise the value is added scaled by the MIS weight |
| BdptRender.DirectHitFullWeight | include/BDPT.hpp:766-785 | a camera ray whose first hit is an emitter adds its value at full weight, because `MISweight` returns 1 for `s + t == 2` |
| BdptRender.OffImageValue | include/BDPT.hpp:806-808 | a light vertex that projects to no pixel has importance 0, so its `t == 1` value is zero |
| BdptRender.ToCameraCounts | include/BDPT.hpp:788-834 | `t == 1` never adds to the pixel's own estimate; it adds to another pixel exactly when the light vertex does not emit, its value is non-zero, the shadow ray to the camera is free, and the camera faces the vertex |
| BdptRender.ToCameraRule | include/BDPT.hpp:817-831 | the pixel added to is the one the light vertex projects to, always an entry of the frame buffer, and the value is scaled by the MIS weight |
| BdptRender.ConnectRule | include/BDPT.hpp:836-885 | an interior strategy adds to the pixel's own estimate, exactly when the eye end does not emit, the connection is not blocked and the value is non-zero; the value is scaled by the MIS weight |
| BdptRender.BehindLightSkipped | include/BDPT.hpp:848-852 | joining to the light point from behind its shading normal gives reflectance 0 at the light, so the strategy contributes nothing |
| BdptRender.RowToMembers | include/BDPT.hpp:755-758 | the inner loop for one path length, cut at `s < k`, visits exactly the strategies with `s < k`, `s + t == len + 1`, `t <= epverts.size()` and `s <= lpverts.size()` |
| BdptRender.RowToSorted | include/BDPT.hpp:755-758 | the inner loop visits its strategies in increasing `s` |
| BdptRender.LengthsMembers | include/BDPT.hpp:752-758 | the two loops up to length `len` visit exactly the strategies with `1 <= t <= epverts.size()`, `s <= lpverts.size()` and `2 <= s + t <= len + 1` |
| BdptRender.LengthsSorted | include/BDPT.hpp:752-758 | the two loops visit shorter paths first and, for one length, fewer light vertices first |
| BdptRender.StrategyOrderMembers | include/BDPT.hpp:752-758 | the strategy loop visits exactly the strategies with `1 <= t <= ne`, `s <= nl` and 2 to `MAX_PATHLENGTH + 1` vertices: never `t == 0`, never a lone vertex |
| BdptRender.StrategyOrderOnce | include/BDPT.hpp:752-758 | the strategy loop visits strategies in increasing order, so it visits none twice |
| BdptRender.StrategySplatOnImage | include/BDPT.hpp:819-823 | every addition a strategy makes to another pixel names an entry of the frame buffer |
| BdptRender.SplatsOnImage | include/BDPT.hpp:752-887 | every `addRGB` the strategies of any order make names an entry of the frame buffer |
| BdptRender.AccumulateSnoc | include/BDPT.hpp:752-887 | one more strategy at the end of the order applies its outcome last |
| BdptRender.RowToStep | include/BDPT.hpp:755-758 | each turn of the inner loop adds at most its own cell to the order visited |
| BdptRender.StrategyStep | include/BDPT.hpp:755-885 | one turn of the inner loop gathers strategy `(s, len + 1 - s)` onto what the earlier strategies gathered, or nothing when the subpaths are too short |
| BdptRender.LengthStrategies | include/BDPT.hpp:755-886 | the inner loop for one path length gathers the strategies of that row, in order, onto what came before |
| BdptRender.SampleStrategies | include/BDPT.hpp:752-887 | the strategy loop of one sample gathers exactly what the strategies of `StrategyOrder` gather, in that order |
| BdptRender.TraceSample | include/BDPT.hpp:707-887 | one sample computes `SampleRun`: nothing when the camera ray misses; every addition it makes to another pixel names an entry of the frame buffer |
| BdptRender.GatheredSnoc | include/BDPT.hpp:707-887 | one more sample adds what it gathered, if its camera ray hit |
| BdptRender.FirstMissIsBlack | include/BDPT.hpp:732-734 | a pixel whose first camera ray misses the scene stays black and adds to no other pixel |
| BdptRender.PixelStep | include/BDPT.hpp:707-887 | one turn of the sample loop records sample `i` and adds what it gathered, keeping every addition on the frame buffer |
| BdptRender.RenderPixel | include/BDPT.hpp:694-897 | the loop stops at `SPP` samples or at the first miss; the pixel gets `estimate * SPP_inv` over the samples taken; the `t == 1` additions come in order, and each names an entry of the frame buffer |

## Left out

- Floating-point rounding, NaN and infinity: numbers are `real`. The NaN and infinity tests of include/BDPT.hpp:218 and 776 cannot fire, so only the `MIN_DIVISOR` branch is modelled.
- Globals.Quotient: a zero divisor gives 0, where IEEE division gives an infinity or NaN. The model uses this quotient wherever the source divides by a density, a cosine or an area that can be zero.
- Globals.QuotientVec: the same convention, for a vector divided by a scalar.
- Square roots, `sqrtf`, `atan2`, `acos`, `sin`, `cos`, `tan` and `pow`: these are parameters of the members that need them, together with the property relied on (`mag * mag == Norm2(v)`). The model cannot compute them.
- Randomness: `getRandomFloat` and every `sampleDirection` are parameters (`Sampling.Shading`, `BdptRender.Draw`).
- Materials.BxDF: it models include/Material.hpp:69-124 only. It is not connected to the walks or the strategies. The BSDF values those use come from the `Shading.bxdf` parameter for every material type, because the six- and seven-argument `BxDF` they call is not part of the source.
- Microfacet shading (`fresnel`, `fresnelSchlick`, `D_ndf`, `G_smf`, `GeometrySchlickGGX`, the MICROFACET branches of `pdf` and `BxDF`): these are external values in the model.
- The ray caster and the shadow-ray test `isShadowRayBlocked` (include/IIntegrator.hpp:132-150) are parameters of the integrators. The BVH and brute-force intersectors are modelled on their own, but they are not wired into the integrators.
- Normal-map and texture lookups inside `textureModify` are a parameter (`Shading.texture`). `getRGBat` itself is modelled.
- The camera's world-to-raster projection (`world2Cam`, `getPerspectiveMatrix`, the Mat4f class) is a parameter. The Mat4f class is not part of this model.
- Threading and locks: the row-band threads, OpenMP, the mutexes around `addRGB`, and the lazily built static light lists of `getLightPdf`/`sampleLight` (include/IIntegrator.hpp:155-185). The light list is an explicit input. Only the `MULTITHREAD == 1` configuration is modelled: the per-pixel `sub_render_bdpt`. The single-threaded copy of the loop in `integrate` is left out.
- `CHECK` debug builds (include/BDPT.hpp:760-763, 779-781): these compile out in the modelled configuration.
- BdptRender.RenderPixel: it returns the pixel's colour and its list of `addRGB` calls instead of writing the frame buffer.
- BdptRender.RenderPixel: it requires that the ray caster and texturing report hits on scene objects only (`Anchored`). The source dereferences `inter.obj` without checking this.
- BdptRender.Draw: the eye and light `Shading` oracles are independent. The model does not force them to agree on the same surface.
- BdptPaths.BuildLightPath: `lpverts[0].G` and `epverts[0].G` are never assigned in the source, and `MISweight` never reads them. The model gives them 0.
- Cameras.Camera.Initialize: it requires a positive width and height and a nonzero `tan(hfov / 2)`. These are the divisors of `filmPlaneAreaInv` and `imagePlaneDist`.
- Spheres.Sphere.SamplePoint: it requires a nonzero radius, the divisor of the pdf `1 / getArea()`.
- Triangles.Triangle.SamplePoint: it requires a non-degenerate triangle, the divisor of the pdf `1 / getArea()`.
- BVHStrategy.GetShadowCoeffi: it requires a shadow-ray direction with no zero component, as `BoundBox::IntersectRay` divides by each component.
- Bounds.IntersectRay: it is modelled only for direction components that are not zero. With a zero component, the C++ division gives an infinity.
- BVH.GetIntersection: the tree built for an empty object list has no children and no object, so the source calls `intersect` through an unset pointer. The model answers the default record there, and `hasIntersection` answers false.
- BVHStrategy.ShadowHelper: for that same empty-list node, when the ray passes its bound the source calls `intersect` through the unset pointer (include/BVH.hpp:48-51, include/BVHStrategy.hpp:34-35). The model answers 1, a fully transparent node, instead.
- BVHStrategy.GetShadowCoeffi: over an empty scene it inherits that answer, so the model gives 1 where the source dereferences an unset pointer.
- Spheres.Sphere.Intersect: the source's stores to the undeclared `nDir` and `textureIndex` are modelled as stores to `Ng` and `Ns` together and to `diffuseIndex`. The source as written does not compile there.
- Spheres.Sphere.SamplePoint: its store to the undeclared `nDir` is modelled as a store to `Ng` and `Ns` together.
- Triangles.Triangle.Intersect: its store to the undeclared `nDir` is modelled as a store to `Ng` and `Ns` together. Of the two stores (include/Triangle.hpp:57-58), the face normal written last is the one kept.
- Triangles.Triangle.SamplePoint: its store to the undeclared `nDir` is modelled as a store to `Ng` and `Ns` together.
- Globals.Rescale: with `originMax == originMin` the C++ division gives an infinity or NaN; the model gives `targetMin` (the `Quotient` convention).
- BVH.RecursiveBuild: `std::sort` does not fix the order of objects with equal centroid keys. The model proves a sorted permutation, not one particular order.
- Materials: PERFECT_REFLECTIVE is missing from the enum in include/Material.hpp, but include/BDPT.hpp:259 and 358 use it. The model adds it to the enum, and `pdf` and `BxDF` treat it through their default branches.
- SceneReader: `std::stof` is a parameter, and its exceptions are not modelled. Only `v` (include/PPMGenerator.hpp:363) and `PERFECT_REFRACTIVE` (include/PPMGenerator.hpp:666) parse numbers without `checkFloat`.
- SceneReader.Stoi: `std::stoi` of a digit string is this function. 32-bit overflow is not modelled, and neither is the exception on an empty string, which tokens read with `>>` never are.
- SceneReader: file I/O is left out. This covers the constructor's and `initialize`'s file reading, `checkFin`, `loadTexture`'s file read, `writeHeader`, `writePixel`, gamma correction and `showProgress`. Each keyword handler receives its tokens already read.
- SceneReader: the dispatch of `processKeyword` on the keyword string, and its "extraneous string" error for an unknown keyword (include/PPMGenerator.hpp:795-797), are left out. Each keyword is its own method.
- SceneReader.PPMGenerator.constructor: the source gives the scene's `eta` (include/PPMGenerator.hpp:78) no initial value, so the model's constructor states nothing about it.
- SceneReader.PPMGenerator.ReadLight: `light` and `attlight` only validate their numbers; the source records no light, so neither does the model.
- `loadObj`, `transObj`, `scaleObj` and `rotateObj` depend on the OBJ loader and on Mat4f, which are not part of this model.
- Postprocessing: the Gaussian kernel and its weights are a parameter of the blur pass.
- include/PathTracing.hpp, include/Renderer.hpp and include/LightTracing.hpp are not part of this model. They are other integrators, a stale renderer and an unfinished light tracer.
- `degree2Radians` and the `RECORD` debug strings are not modelled.
