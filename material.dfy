/** The surface description every renderable carries (asgn2/src/material.rs). */
module Materials {
  import opened Colors

  /** `Material` is `Copy`: each object holds its own value. */
  datatype Material = Material(
    ambient: Rgb,
    diffuse: Rgb,
    specular: Rgb,
    phong: real,
    transmissive: Rgb,
    ior: real)

  /** `Material::default()`. */
  const DefaultMaterial: Material :=
    Material(Black, White, Black, 5.0, Black, 1.0)

  /**
    The default material is black in its ambient, specular and transmissive
    colours, white in its diffuse colour, with phong exponent 5 and index of
    refraction 1; all of its colours are displayable.
   */
  lemma DefaultMaterialValues()
    ensures DefaultMaterial.ambient == Rgb(0.0, 0.0, 0.0)
    ensures DefaultMaterial.diffuse == Rgb(1.0, 1.0, 1.0)
    ensures DefaultMaterial.specular == Rgb(0.0, 0.0, 0.0)
    ensures DefaultMaterial.transmissive == Rgb(0.0, 0.0, 0.0)
    ensures DefaultMaterial.phong == 5.0 && DefaultMaterial.ior == 1.0
    ensures InUnitCube(DefaultMaterial.ambient) && InUnitCube(DefaultMaterial.diffuse)
  {
  }
}
