/**
  The vocabulary shared by the scene-file grammar and the fold that builds a
  scene from it (asgn2/src/parser/mod.rs): one parsed `Line` per directive,
  and the errors `from_str` reports.
 */
module SceneLines {

  /**
    A single non-comment line of a scene file.  Reals stand for `f32`,
    naturals for `usize` and `u32`.
   */
  datatype Line =
    | AmbientLight(r: real, g: real, b: real)
    | Background(r: real, g: real, b: real)
    | Camera(px: real, py: real, pz: real, dx: real, dy: real, dz: real,
             ux: real, uy: real, uz: real, ha: real)
    | DirectionalLight(r: real, g: real, b: real, x: real, y: real, z: real, i: real)
    | Material(ar: real, ag: real, ab: real, dr: real, dg: real, db: real,
               sr: real, sg: real, sb: real, ns: real,
               tr: real, tg: real, tb: real, ior: real)
    | MaxDepth(n: nat)
    | MaxNormals(n: nat)
    | MaxVertices(n: nat)
    | Normal(x: real, y: real, z: real)
    | NormalTriangle(v1: nat, v2: nat, v3: nat, n1: nat, n2: nat, n3: nat)
    | Output(path: string)
    | Plane(px: real, py: real, pz: real, nx: real, ny: real, nz: real)
    | PointLight(r: real, g: real, b: real, x: real, y: real, z: real, i: real)
    | Resolution(w: nat, h: nat)
    | Sphere(x: real, y: real, z: real, radius: real)
    | SpotLight(r: real, g: real, b: real, px: real, py: real, pz: real,
                dx: real, dy: real, dz: real, a1: real, a2: real, i: real)
    | Triangle(v1: nat, v2: nat, v3: nat)
    | Vertex(x: real, y: real, z: real)

  /**
    The kinds of nom error that can reach `from_str`: the `complete!` wrapper
    turns a parser that ran out of input into `Complete`, and `many0!`
    reports `Many0` for a line parser that succeeds without consuming input.
   */
  datatype NomError = Complete | Many0

  /** `ParseError`. */
  datatype ParseError =
    | Nom(kind: NomError)
    | NoSuchNormal(line: Line, index: nat)
    | NoSuchVertex(line: Line, index: nat)
    | Unparsed(rest: string)
}
