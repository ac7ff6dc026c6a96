/** The three surface materials of the renderer. A sphere holds one of them
    and hands it to the hit record; each has its own scatter rule (see
    `LambertianMaterial`, `MetalMaterial`, `DielectricMaterial`). */
module Materials {
  import opened Vectors
  import opened Rays

  datatype Material =
    | Lambertian(albedo: Vec3)
    | Metal(fuzz: real, albedo: Vec3)
    | Dielectric(refractionIndex: real)

  /** What `Material::Scatter` reports through its return value and its two
      out-parameters: whether the ray goes on, the colour it is tinted by,
      and the ray that leaves the surface. */
  datatype ScatterResult = ScatterResult(scatters: bool, attenuation: Vec3, scattered: Ray)
}
