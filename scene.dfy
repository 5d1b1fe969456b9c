/**
 * The records of scenedata.h. They are built by the parser and only read by
 * the ray tracer, so every one of them is an immutable value.
 *
 * A `Material*` of a sphere or triangle is an `Option<Material>`: `None`
 * until `parseFile` resolves the material name. Two fields that the ray
 * tracer reads but scenedata.h does not declare, `Material::mirror` and
 * `RenderingInfo::shadows`, are part of the records here; nothing in the
 * parser sets them, so they keep their value-initialised defaults.
 */
module SceneData {
  import opened Wrappers
  import opened Vectors
  import opened Colors

  datatype Material = Material(color: Color, glossiness: real, p: real, name: string, mirror: real)

  datatype Sphere = Sphere(center: Vec3, radius: real, material: Option<Material>, materialName: string)

  datatype Triangle = Triangle(p0: Vec3, p1: Vec3, p2: Vec3, material: Option<Material>, materialName: string)

  datatype Light = Light(position: Vec3, intensity: real)

  datatype DirectionalLight = DirectionalLight(direction: Vec3, hIntensity: real)

  datatype RenderingInfo = RenderingInfo(
    ambient: real,
    focalLength: real,
    dirLight: Option<DirectionalLight>,
    pointLights: seq<Light>,
    triangles: seq<Triangle>,
    spheres: seq<Sphere>,
    materials: seq<Material>,
    shadows: bool)

  /**
   * `new Material()`: every field value-initialised. The local `Material
   * material;` of `rayCast` is only default-initialised (its floats are
   * indeterminate), but it is read only after a hit has assigned it, so the
   * model starts it from the same value.
   */
  function DefaultMaterial(): Material { Material(Black(), 0.0, 0.0, "", 0.0) }

  function DefaultSphere(): Sphere { Sphere(Zero(), 0.0, None, "") }

  function DefaultTriangle(): Triangle { Triangle(Zero(), Zero(), Zero(), None, "") }

  function DefaultLight(): Light { Light(Zero(), 0.0) }

  function DefaultDirectionalLight(): DirectionalLight { DirectionalLight(Zero(), 0.0) }

  /** `new RenderingInfo()`: no lights, no objects, a null directional light. */
  function EmptyInfo(): RenderingInfo { RenderingInfo(0.0, 0.0, None, [], [], [], [], false) }

  /** Every sphere and every triangle points at a material. */
  predicate Resolved(info: RenderingInfo)
  {
    (forall i :: 0 <= i < |info.spheres| ==> info.spheres[i].material.Some?) &&
    (forall i :: 0 <= i < |info.triangles| ==> info.triangles[i].material.Some?)
  }
}
