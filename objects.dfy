/**
 * The fields that include/Object.hpp gives every renderable object. Spheres
 * and triangles are classes of their own (modules Spheres and Triangles);
 * the light-sampling code sees an object through the `SceneObject` summary:
 * its kind, its material and its surface area as `getArea()` reports it.
 */
module SceneObjects {
  import opened Materials

  /** `OBJTYPE`; the source spells the second constant `SPEHRE`. */
  datatype ObjectType = TRIANGLE | SPHERE

  /** What `IIntegrator.hpp` reads of an `Object*` in the scene list. */
  datatype SceneObject = SceneObject(objectType: ObjectType, mtlcolor: Material, isLight: bool, area: real)
}
