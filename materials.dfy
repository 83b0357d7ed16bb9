/**
 * The Material of include/Material.hpp: the value carried by every object
 * and intersection, its emission test, and the LAMBERTIAN, specular,
 * refractive and default branches of `pdf` and `BxDF`. The microfacet branch
 * and the Fresnel term are floating-point shading formulas; their values are
 * parameters here.
 */
module Materials {
  import opened Vectors
  import opened Globals

  /**
   * `MaterialType`. PERFECT_REFLECTIVE does not appear in the enum of
   * include/Material.hpp, but the path builders of BDPT.hpp compare against
   * it; it is included so that comparison can be stated, and `pdf`/`BxDF` give it their
   * default branches.
   */
  datatype MaterialType = LAMBERTIAN | SPECULAR_REFLECTIVE | PERFECT_REFRACTIVE | MICROFACET | UNLIT | PERFECT_REFLECTIVE

  datatype Material = Material(
    diffuse: Vector3f,
    specular: Vector3f,
    emission: Vector3f,
    mType: MaterialType,
    ka: real,
    kd: real,
    ks: real,
    n: real,
    alpha: real,
    eta: real,
    roughness: real,
    metallic: real)

  /** The member initialisers of `Material`. */
  function DefaultMaterial(): (m: Material)
    ensures !HasEmission(m) && m.mType == LAMBERTIAN && m.alpha == 1.0 && m.eta == 1.0
  {
    Material(Broadcast(0.9), Broadcast(1.0), Broadcast(0.0), LAMBERTIAN,
             0.0, 0.0, 0.0, 0.0, 1.0, 1.0, 1.0, 0.0)
  }

  /** `hasEmission`: some emission component is nonzero. */
  function HasEmission(m: Material): (r: bool)
    ensures r <==> m.emission != Zero()
  {
    m.emission.x != 0.0 || m.emission.y != 0.0 || m.emission.z != 0.0
  }

  /**
   * `pdf(wi, wo, N, ...)`, the density of sampling `wi`. `fresnelF` is the
   * value of `fresnel(-wi, N, eta_i, eta)` and `microfacetPdf` the value of the
   * MICROFACET branch; both are computed outside the model.
   */
  function Pdf(m: Material, wi: Vector3f, wo: Vector3f, N: Vector3f, fresnelF: real, microfacetPdf: real): (r: real)
    ensures m.mType == LAMBERTIAN ==> r >= 0.0 && (r > 0.0 <==> Dot(wi, N) > 0.0)
    ensures m.mType == LAMBERTIAN && Dot(wi, N) > 0.0 ==> r * M_PI == Dot(wi, N)
    ensures m.mType in {SPECULAR_REFLECTIVE, UNLIT, PERFECT_REFLECTIVE} ==> r == 1.0
    ensures m.mType == PERFECT_REFRACTIVE ==> r == if Dot(wi, N) < 0.0 then 1.0 - fresnelF else fresnelF
    ensures m.mType == PERFECT_REFRACTIVE && 0.0 <= fresnelF <= 1.0 ==> 0.0 <= r <= 1.0
    ensures m.mType == MICROFACET ==> r == microfacetPdf
  {
    match m.mType
    case LAMBERTIAN =>
      if Dot(wi, N) > 0.0 then Dot(wi, N) / M_PI else 0.0
    case MICROFACET => microfacetPdf
    case SPECULAR_REFLECTIVE => 1.0
    case PERFECT_REFRACTIVE =>
      if Dot(wi, N) < 0.0 then 1.0 - fresnelF else fresnelF
    case _ => 1.0
  }

  /**
   * `BxDF(wi, wo, N, eta_scene)`: the reflectance. `microfacetValue` is the
   * value of the Cook-Torrance branch, computed outside the model.
   */
  function BxDF(m: Material, wi: Vector3f, wo: Vector3f, N: Vector3f, microfacetValue: Vector3f): (r: Vector3f)
    ensures m.mType == LAMBERTIAN && Dot(wo, N) > 0.0 ==> Scale(r, M_PI) == m.diffuse
    ensures m.mType == LAMBERTIAN && Dot(wo, N) <= 0.0 ==> r == Zero()
    ensures m.mType in {SPECULAR_REFLECTIVE, PERFECT_REFRACTIVE} ==> r == Broadcast(1.0)
    ensures m.mType in {UNLIT, PERFECT_REFLECTIVE} ==> r == Zero()
    ensures m.mType == MICROFACET ==> r == microfacetValue
  {
    match m.mType
    case LAMBERTIAN =>
      if Dot(wo, N) > 0.0 then Div(m.diffuse, M_PI) else Broadcast(0.0)
    case MICROFACET => microfacetValue
    case SPECULAR_REFLECTIVE => Broadcast(1.0)
    case PERFECT_REFRACTIVE => Broadcast(1.0)
    case _ => Broadcast(0.0)
  }

  /**
   * A Material object in memory, as the target of the copy assignment
   * `operator=`. Its fields are those of `Material`.
   */
  class MaterialCell {
    var diffuse: Vector3f
    var specular: Vector3f
    var emission: Vector3f
    var mType: MaterialType
    var ka: real
    var kd: real
    var ks: real
    var n: real
    var alpha: real
    var eta: real
    var roughness: real
    var metallic: real

    function Value(): Material
      reads this
    {
      Material(diffuse, specular, emission, mType, ka, kd, ks, n, alpha, eta, roughness, metallic)
    }

    /** A new object holds the member initialisers. */
    constructor ()
      ensures Value() == DefaultMaterial()
    {
      diffuse := Broadcast(0.9);
      specular := Broadcast(1.0);
      emission := Broadcast(0.0);
      mType := LAMBERTIAN;
      ka, kd, ks, n := 0.0, 0.0, 0.0, 0.0;
      alpha, eta := 1.0, 1.0;
      roughness, metallic := 1.0, 0.0;
    }

    /**
     * `operator=`: copies every field of `other` unless `other` is this very
     * object; either way this object then holds `other`'s former value, so a
     * self-assignment changes nothing.
     */
    method Assign(other: MaterialCell)
      modifies this
      ensures Value() == old(other.Value())
      ensures other != this ==> unchanged(other)
      ensures other == this ==> Value() == old(Value())
    {
      if this != other {
        this.diffuse := other.diffuse;
        this.specular := other.specular;
        this.emission := other.emission;
        this.mType := other.mType;
        this.ka := other.ka;
        this.kd := other.kd;
        this.ks := other.ks;
        this.n := other.n;
        this.alpha := other.alpha;
        this.eta := other.eta;
        this.roughness := other.roughness;
        this.metallic := other.metallic;
      }
    }
  }
}
