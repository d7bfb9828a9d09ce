/**
  Building a `Scene` from the text of a scene file (asgn2/src/parser/mod.rs):
  the lines the grammar of `ParserNom` produces are folded from left to
  right over a scene, the vertices and normals declared so far and the
  current material.
 */
module SceneParser {
  import opened Vectors
  import opened Wrappers
  import opened Colors
  import opened Libm
  import opened Panics
  import opened Lights
  import opened Renderables
  import opened Materials
  import opened Scenes
  import opened ParserMath
  import L = SceneLines
  import N = ParserNom
  import Trace

  /** `convert_color`: each channel clamped to `[0, 1]`. */
  function ConvertColor(r: real, g: real, b: real): (c: Rgb)
    ensures InUnitCube(c)
    ensures InUnitCube(Rgb(r, g, b)) ==> c == Rgb(r, g, b)
  {
    ClampColor(Rgb(r, g, b))
  }

  /**
    The four variables `from_str` updates while it walks the lines: the
    scene, the vertices and normals declared so far and the current material.
   */
  datatype State = State(scene: Scene, vertices: seq<Vec3>, normals: seq<Vec3>, material: Material)

  /** `Scene::default()`, no vertices, no normals, `Material::default()`. */
  const Start: State := State(DefaultScene, [], [], DefaultMaterial)

  /**
    Why `from_str` gives no scene: a `ParseError` it returns, or a panic
    (`normal_from_normals` is `unimplemented!()`).
   */
  datatype Failure = ParseFailed(error: L.ParseError) | Panicked(panic: Panic)

  /** `points.get(i)`, with the error `from_str` returns when it is `None`. */
  function Fetch(points: seq<Vec3>, i: nat, missing: L.ParseError): (r: Result<Vec3, Failure>)
    ensures r.Ok? <==> i < |points|
    ensures r.Ok? ==> r.value == points[i]
    ensures r.Err? ==> r.error == ParseFailed(missing)
  {
    if i < |points| then Ok(points[i]) else Err(ParseFailed(missing))
  }

  /** The scene with one more light. */
  function AddLight(st: State, l: DynamicLight): State {
    st.(scene := st.scene.(lights := st.scene.lights + [l]))
  }

  /** The scene with one more object. */
  function AddObject(st: State, o: DynamicRenderable): State {
    st.(scene := st.scene.(objects := st.scene.objects + [o]))
  }

  /**
    The camera arm: the position as given, direction and up normalised,
    the half angle stored as `ha.to_radians().tan()`.
   */
  function AimCamera(sc: Scene, position: Vec3, direction: Vec3, up: Vec3, ha: real, m: Libm): Scene {
    sc.(cameraPosition := position, cameraDirection := Normalize(direction, m),
      cameraUp := Normalize(up, m), cameraHalfAngleTan := m.tanDegrees(ha))
  }

  /** The body of the `for line in lines` loop: one line applied to the state. */
  function Step(st: State, line: L.Line, m: Libm): Result<State, Failure> {
    var sc := st.scene;
    match line
    case AmbientLight(r, g, b) =>
      Ok(st.(scene := sc.(ambientLight := ConvertColor(r, g, b))))
    case Background(r, g, b) =>
      Ok(st.(scene := sc.(background := ConvertColor(r, g, b))))
    case Camera(px, py, pz, dx, dy, dz, ux, uy, uz, ha) =>
      Ok(st.(scene := AimCamera(sc, Vec3(px, py, pz), Vec3(dx, dy, dz), Vec3(ux, uy, uz), ha, m)))
    case DirectionalLight(r, g, b, x, y, z, i) =>
      Ok(AddLight(st, DirectionalLight(Directional(ConvertColor(r, g, b), Vec3(x, y, z), i))))
    case Material(ar, ag, ab, dr, dg, db, sr, sg, sb, ns, tr, tg, tb, ior) =>
      Ok(st.(material := Material(
        ConvertColor(ar, ag, ab), ConvertColor(dr, dg, db), ConvertColor(sr, sg, sb),
        ns, ConvertColor(tr, tg, tb), ior)))
    case MaxDepth(n) =>
      Ok(st.(scene := sc.(maxCollisions := n)))
    case MaxNormals(_) =>
      Ok(st)
    case MaxVertices(_) =>
      Ok(st)
    case Normal(x, y, z) =>
      Ok(st.(normals := st.normals + [Vec3(x, y, z)]))
    case NormalTriangle(i1, i2, i3, j1, j2, j3) =>
      var v1 :- Fetch(st.vertices, i1, L.NoSuchVertex(line, i1));
      var v2 :- Fetch(st.vertices, i2, L.NoSuchVertex(line, i2));
      var v3 :- Fetch(st.vertices, i3, L.NoSuchVertex(line, i3));
      var n1 :- Fetch(st.normals, j1, L.NoSuchNormal(line, j1));
      var n2 :- Fetch(st.normals, j2, L.NoSuchNormal(line, j2));
      var n3 :- Fetch(st.normals, j3, L.NoSuchNormal(line, j3));
      // `normal_from_normals` panics, so no triangle is ever built here.
      var normal := NormalFromNormals(v1, v2, v3, n1, n2, n3);
      Err(Panicked(normal.error))
    case Output(path) =>
      Ok(st.(scene := sc.(outputImage := Some(path))))
    case PointLight(r, g, b, x, y, z, i) =>
      Ok(AddLight(st, PointLight(Point(ConvertColor(r, g, b), Vec3(x, y, z), i))))
    case Resolution(w, h) =>
      Ok(st.(scene := sc.(height := h, width := w)))
    case Plane(px, py, pz, nx, ny, nz) =>
      Ok(AddObject(st, PlaneObject(Plane(Vec3(px, py, pz), Vec3(nx, ny, nz), st.material))))
    case Sphere(x, y, z, r) =>
      Ok(AddObject(st, SphereObject(Sphere(Vec3(x, y, z), r, st.material))))
    case SpotLight(r, g, b, px, py, pz, dx, dy, dz, a1, a2, i) =>
      Ok(AddLight(st, SpotLight(Spot(ConvertColor(r, g, b), Vec3(px, py, pz), Vec3(dx, dy, dz), i, a1, a2))))
    case Triangle(i1, i2, i3) =>
      var v1 :- Fetch(st.vertices, i1, L.NoSuchVertex(line, i1));
      var v2 :- Fetch(st.vertices, i2, L.NoSuchVertex(line, i2));
      var v3 :- Fetch(st.vertices, i3, L.NoSuchVertex(line, i3));
      Ok(AddObject(st, TriangleObject(Triangle(v1, v2, v3, NormalFromPoints(v1, v2, v3), st.material))))
    case Vertex(x, y, z) =>
      Ok(st.(vertices := st.vertices + [Vec3(x, y, z)]))
  }

  /** The lines applied from left to right; the first failure ends the walk. */
  function Fold(st: State, lines: seq<L.Line>, m: Libm): Result<State, Failure>
    decreases |lines|
  {
    if |lines| == 0 then
      Ok(st)
    else
      var next := Step(st, lines[0], m);
      if next.Err? then Err(next.error) else Fold(next.value, lines[1..], m)
  }

  /**
    `Scene::from_str`: the scene of a file whose whole text is lines, the
    first failure otherwise.  `parse_lines` never answers `Incomplete`
    (`complete!` turns it into an error), so the `unreachable!()` arm is
    never taken.
   */
  function SceneFromStr(input: string, m: Libm): Result<Scene, Failure> {
    var parsed := N.ParseLines(input);
    if parsed.Err? then
      Err(ParseFailed(L.Nom(parsed.error)))
    else if parsed.value.0 != "" then
      Err(ParseFailed(L.Unparsed(parsed.value.0)))
    else
      var st := Fold(Start, parsed.value.1, m);
      if st.Err? then Err(st.error) else Ok(st.value.scene)
  }

  /** `from_str` itself: the `for` loop over the parsed lines, with its early returns. */
  method FromStr(input: string, m: Libm) returns (r: Result<Scene, Failure>)
    ensures r == SceneFromStr(input, m)
  {
    var parsed := N.ParseLines(input);
    if parsed.Err? {
      return Err(ParseFailed(L.Nom(parsed.error)));
    }
    var rest := parsed.value.0;
    var lines := parsed.value.1;
    if rest != "" {
      return Err(ParseFailed(L.Unparsed(rest)));
    }
    var scene := DefaultScene;
    var vertices: seq<Vec3> := [];
    var normals: seq<Vec3> := [];
    var material := DefaultMaterial;
    var i := 0;
    while i < |lines|
      invariant 0 <= i <= |lines|
      invariant Fold(Start, lines, m) == Fold(State(scene, vertices, normals, material), lines[i..], m)
    {
      var next := Step(State(scene, vertices, normals, material), lines[i], m);
      assert lines[i..][0] == lines[i] && lines[i..][1..] == lines[i + 1..];
      if next.Err? {
        return Err(next.error);
      }
      scene, vertices, normals, material := next.value.scene, next.value.vertices, next.value.normals, next.value.material;
      i := i + 1;
    }
    assert lines[i..] == [];
    return Ok(scene);
  }

  // ---------------------------------------------------------------------
  // The input as a whole

  /** An empty file is the default scene. */
  lemma EmptyInput(m: Libm)
    ensures SceneFromStr("", m) == Ok(DefaultScene)
  {
    N.ParseLinesEmpty();
  }

  /** A non-empty file of whitespace only is reported as the `Complete` nom error. */
  lemma WhitespaceInput(input: string, m: Libm)
    requires input != [] && forall i :: 0 <= i < |input| ==> N.IsSpace(input[i])
    ensures SceneFromStr(input, m) == Err(ParseFailed(L.Nom(L.Complete)))
  {
    N.WhitespaceOnly(input);
  }

  /**
    Text the line grammar leaves over gives `Unparsed` with that text and no
    scene; the text left over starts with a line that does not parse.  The
    only nom error that reaches `from_str` is `Complete`.
   */
  lemma LeftoverText(input: string, rest: string, lines: seq<L.Line>, m: Libm)
    requires N.ParseLines(input) == Ok((rest, lines)) && rest != ""
    ensures SceneFromStr(input, m) == Err(ParseFailed(L.Unparsed(rest)))
    ensures N.ParseLine(rest).Error?
  {
    N.ParseLinesStop(input, rest, lines);
  }

  // ---------------------------------------------------------------------
  // Lookups

  /** The first of `indices` that is not below `count`, if any. */
  function FirstMissing(indices: seq<nat>, count: nat): (r: Option<nat>)
    ensures r.None? <==> forall i :: 0 <= i < |indices| ==> indices[i] < count
    ensures r.Some? ==> r.value >= count
    ensures r.Some? ==>
      exists j :: 0 <= j < |indices| && indices[j] == r.value && forall i :: 0 <= i < j ==> indices[i] < count
  {
    if |indices| == 0 then
      None
    else if indices[0] >= count then
      Some(indices[0])
    else
      var r := FirstMissing(indices[1..], count);
      if r.Some? then
        var j :| 0 <= j < |indices[1..]| && indices[1..][j] == r.value &&
          forall i :: 0 <= i < j ==> indices[1..][i] < count;
        assert indices[j + 1] == r.value;
        assert forall i :: 0 <= i < j + 1 ==> indices[i] < count by {
          forall i | 0 <= i < j + 1
            ensures indices[i] < count
          {
            if i > 0 {
              assert indices[i] == indices[1..][i - 1];
            }
          }
        }
        r
      else
        assert forall i :: 1 <= i < |indices| ==> indices[i] == indices[1..][i - 1];
        None
  }

  /** The first missing of three indices, in order. */
  lemma FirstMissingOfThree(a: nat, b: nat, c: nat, count: nat)
    ensures FirstMissing([a, b, c], count) ==
      if a >= count then Some(a) else if b >= count then Some(b) else if c >= count then Some(c) else None
  {
    assert [c][1..] == [];
    assert FirstMissing([c], count) == if c >= count then Some(c) else None;
    assert [b, c][1..] == [c];
    assert FirstMissing([b, c], count) == if b >= count then Some(b) else FirstMissing([c], count);
    assert [a, b, c][1..] == [b, c];
  }

  /**
    A `triangle` line looks its vertices up in the order `v1, v2, v3` among
    those declared before it (0-based); the first index that is not
    declared yet is reported with the line, otherwise exactly one triangle
    is appended, with the normal of its winding and the current material.
   */
  lemma TriangleLookup(st: State, i1: nat, i2: nat, i3: nat, m: Libm)
    ensures var r := Step(st, L.Triangle(i1, i2, i3), m);
      var missing := FirstMissing([i1, i2, i3], |st.vertices|);
      (r.Err? <==> missing.Some?) &&
      (r.Err? ==> r.error == ParseFailed(L.NoSuchVertex(L.Triangle(i1, i2, i3), missing.value))) &&
      (r.Ok? ==> r.value == AddObject(st, TriangleObject(Triangle(
        st.vertices[i1], st.vertices[i2], st.vertices[i3],
        NormalFromPoints(st.vertices[i1], st.vertices[i2], st.vertices[i3]), st.material))))
  {
    FirstMissingOfThree(i1, i2, i3, |st.vertices|);
  }

  /**
    A `normal_triangle` line never yields a triangle: it reports the first
    undeclared vertex (`v1, v2, v3`), else the first undeclared normal
    (`n1, n2, n3`), and once every index is valid it reaches the
    unimplemented `normal_from_normals`.
   */
  lemma NormalTriangleLookup(st: State, i1: nat, i2: nat, i3: nat, j1: nat, j2: nat, j3: nat, m: Libm)
    ensures var line := L.NormalTriangle(i1, i2, i3, j1, j2, j3);
      var r := Step(st, line, m);
      var vm := FirstMissing([i1, i2, i3], |st.vertices|);
      var nm := FirstMissing([j1, j2, j3], |st.normals|);
      r.Err? &&
      (vm.Some? ==> r.error == ParseFailed(L.NoSuchVertex(line, vm.value))) &&
      (vm.None? && nm.Some? ==> r.error == ParseFailed(L.NoSuchNormal(line, nm.value))) &&
      (vm.None? && nm.None? ==> r.error.Panicked? && r.error.panic.Unimplemented?)
  {
    FirstMissingOfThree(i1, i2, i3, |st.vertices|);
    FirstMissingOfThree(j1, j2, j3, |st.normals|);
  }

  /** A reference to a vertex that is only declared later is an error. */
  lemma ForwardReference(v: Vec3, m: Libm)
    ensures Fold(Start, [L.Triangle(0, 0, 0), L.Vertex(v.x, v.y, v.z)], m) ==
      Err(ParseFailed(L.NoSuchVertex(L.Triangle(0, 0, 0), 0)))
  {
  }

  /** Declared first, the same vertices make a triangle. */
  lemma BackwardReference(a: Vec3, b: Vec3, c: Vec3, m: Libm)
    ensures var lines := [L.Vertex(a.x, a.y, a.z), L.Vertex(b.x, b.y, b.z), L.Vertex(c.x, c.y, c.z), L.Triangle(0, 1, 2)];
      Fold(Start, lines, m).Ok? &&
      Fold(Start, lines, m).value.scene.objects == [TriangleObject(Triangle(a, b, c, NormalFromPoints(a, b, c), DefaultMaterial))]
  {
    var lines := [L.Vertex(a.x, a.y, a.z), L.Vertex(b.x, b.y, b.z), L.Vertex(c.x, c.y, c.z), L.Triangle(0, 1, 2)];
    assert Vec3(a.x, a.y, a.z) == a && Vec3(b.x, b.y, b.z) == b && Vec3(c.x, c.y, c.z) == c;
    var s1 := Start.(vertices := [a]);
    var s2 := s1.(vertices := [a, b]);
    var s3 := s2.(vertices := [a, b, c]);
    assert lines[0] == L.Vertex(a.x, a.y, a.z);
    assert Start.vertices == [] && [] + [a] == [a];
    assert Step(Start, lines[0], m) == Ok(s1);
    assert [a] + [b] == [a, b] && [a, b] + [c] == [a, b, c];
    assert Step(s1, lines[1], m) == Ok(s2);
    assert Step(s2, lines[2], m) == Ok(s3);
    var tri := TriangleObject(Triangle(a, b, c, NormalFromPoints(a, b, c), DefaultMaterial));
    assert Step(s3, lines[3], m) == Ok(AddObject(s3, tri));
    assert lines[..2] == [lines[0], lines[1]] && lines[2..] == [lines[2], lines[3]];
    assert lines[..2] + lines[2..] == lines;
    FoldAppend(Start, lines[..2], lines[2..], m);
    FoldTwo(Start, lines[0], lines[1], m);
    FoldTwo(s2, lines[2], lines[3], m);
    assert Fold(Start, lines, m) == Ok(AddObject(s3, tri));
    assert [] + [tri] == [tri];
  }

  lemma FoldOne(st: State, l: L.Line, m: Libm)
    ensures Fold(st, [l], m) == Step(st, l, m)
  {
    assert [l][1..] == [];
  }

  lemma FoldTwo(st: State, l1: L.Line, l2: L.Line, m: Libm)
    ensures Fold(st, [l1, l2], m) == Then(Step(st, l1, m), l2, m)
  {
    var first := Step(st, l1, m);
    assert [l1, l2][1..] == [l2];
    if first.Ok? {
      FoldOne(first.value, l2, m);
    }
  }

  /** One more line after a partial result. */
  function Then(r: Result<State, Failure>, line: L.Line, m: Libm): Result<State, Failure> {
    if r.Err? then r else Step(r.value, line, m)
  }

  // ---------------------------------------------------------------------
  // The walk as a whole

  /** Walking `a + b` walks `a`, then `b` from where `a` ended; a failure in `a` is final. */
  lemma {:induction false} FoldAppend(st: State, a: seq<L.Line>, b: seq<L.Line>, m: Libm)
    ensures Fold(st, a + b, m) == (if Fold(st, a, m).Err? then Fold(st, a, m) else Fold(Fold(st, a, m).value, b, m))
    decreases |a|
  {
    if |a| == 0 {
      assert a + b == b;
    } else {
      assert (a + b)[0] == a[0] && (a + b)[1..] == a[1..] + b;
      var next := Step(st, a[0], m);
      if next.Ok? {
        FoldAppend(next.value, a[1..], b, m);
      }
    }
  }

  /** `st'` came from `st` by appending only: the earlier entries are untouched. */
  predicate Extends(st: State, st': State) {
    st.scene.lights <= st'.scene.lights && st.scene.objects <= st'.scene.objects &&
    st.vertices <= st'.vertices && st.normals <= st'.normals
  }

  /** How many entries a line adds to each list. */
  function LightsOf(line: L.Line): nat {
    if line.DirectionalLight? || line.PointLight? || line.SpotLight? then 1 else 0
  }

  function ObjectsOf(line: L.Line): nat {
    if line.Plane? || line.Sphere? || line.Triangle? then 1 else 0
  }

  function VerticesOf(line: L.Line): nat {
    if line.Vertex? then 1 else 0
  }

  function NormalsOf(line: L.Line): nat {
    if line.Normal? then 1 else 0
  }

  /**
    A successful line appends exactly one light, object, vertex or normal
    when it declares one, and changes no earlier entry.
   */
  lemma StepAppends(st: State, line: L.Line, m: Libm)
    requires Step(st, line, m).Ok?
    ensures var st' := Step(st, line, m).value;
      Extends(st, st') &&
      |st'.scene.lights| == |st.scene.lights| + LightsOf(line) &&
      |st'.scene.objects| == |st.scene.objects| + ObjectsOf(line) &&
      |st'.vertices| == |st.vertices| + VerticesOf(line) &&
      |st'.normals| == |st.normals| + NormalsOf(line)
  {
  }

  function CountLights(lines: seq<L.Line>): nat {
    if |lines| == 0 then 0 else LightsOf(lines[0]) + CountLights(lines[1..])
  }

  function CountObjects(lines: seq<L.Line>): nat {
    if |lines| == 0 then 0 else ObjectsOf(lines[0]) + CountObjects(lines[1..])
  }

  /**
    Over a successful walk every light and object line contributes exactly
    one entry, after the entries that were there before, which stay as
    they were.
   */
  lemma {:induction false} FoldAppends(st: State, lines: seq<L.Line>, m: Libm)
    requires Fold(st, lines, m).Ok?
    ensures var st' := Fold(st, lines, m).value;
      Extends(st, st') &&
      |st'.scene.lights| == |st.scene.lights| + CountLights(lines) &&
      |st'.scene.objects| == |st.scene.objects| + CountObjects(lines)
    decreases |lines|
  {
    if |lines| > 0 {
      StepAppends(st, lines[0], m);
      FoldAppends(Step(st, lines[0], m).value, lines[1..], m);
    }
  }

  /** Nothing a later line does changes the objects an earlier prefix built. */
  lemma EarlierObjectsKept(st: State, a: seq<L.Line>, b: seq<L.Line>, m: Libm)
    requires Fold(st, a + b, m).Ok?
    ensures Fold(st, a, m).Ok?
    ensures Fold(st, a, m).value.scene.objects <= Fold(st, a + b, m).value.scene.objects
    ensures Fold(st, a, m).value.scene.lights <= Fold(st, a + b, m).value.scene.lights
  {
    FoldAppend(st, a, b, m);
    FoldAppends(Fold(st, a, m).value, b, m);
  }

  /** A `normal_triangle` line aborts every walk that reaches it. */
  lemma {:induction false} NormalTriangleAborts(st: State, lines: seq<L.Line>, m: Libm)
    requires Fold(st, lines, m).Ok?
    ensures forall i :: 0 <= i < |lines| ==> !lines[i].NormalTriangle?
    decreases |lines|
  {
    if |lines| > 0 {
      var l := lines[0];
      if l.NormalTriangle? {
        NormalTriangleLookup(st, l.v1, l.v2, l.v3, l.n1, l.n2, l.n3, m);
      }
      NormalTriangleAborts(Step(st, l, m).value, lines[1..], m);
      assert forall i :: 1 <= i < |lines| ==> lines[i] == lines[1..][i - 1];
    }
  }

  // ---------------------------------------------------------------------
  // Materials

  /** A `material` line sets the current material and touches no part of the scene. */
  lemma MaterialLine(st: State, ar: real, ag: real, ab: real, dr: real, dg: real, db: real,
                     sr: real, sg: real, sb: real, ns: real, tr: real, tg: real, tb: real, ior: real, m: Libm)
    ensures var r := Step(st, L.Material(ar, ag, ab, dr, dg, db, sr, sg, sb, ns, tr, tg, tb, ior), m);
      r.Ok? && r.value.scene == st.scene &&
      r.value.material == Material(ConvertColor(ar, ag, ab), ConvertColor(dr, dg, db),
        ConvertColor(sr, sg, sb), ns, ConvertColor(tr, tg, tb), ior)
  {
  }

  /** A plane, sphere or triangle line stores a copy of the current material in its object. */
  lemma ObjectTakesCurrentMaterial(st: State, line: L.Line, m: Libm)
    requires line.Plane? || line.Sphere? || line.Triangle?
    requires Step(st, line, m).Ok?
    ensures var objs := Step(st, line, m).value.scene.objects;
      |objs| == |st.scene.objects| + 1 && MaterialOf(objs[|objs| - 1]) == st.material
    ensures Step(st, line, m).value.material == st.material
  {
  }

  /**
    A material line changes only what comes after it: the objects built
    before it are kept as they were, and an object right after it carries
    the new material.
   */
  lemma MaterialAffectsOnlyLater(st: State, before: seq<L.Line>, mat: L.Line, obj: L.Line, m: Libm)
    requires mat.Material? && (obj.Plane? || obj.Sphere? || obj.Triangle?)
    requires Fold(st, before + [mat, obj], m).Ok?
    ensures var earlier := Fold(st, before, m);
      var after := Fold(st, before + [mat, obj], m).value;
      earlier.Ok? && earlier.value.scene.objects <= after.scene.objects &&
      |after.scene.objects| > 0 &&
      MaterialOf(after.scene.objects[|after.scene.objects| - 1]) ==
        Material(ConvertColor(mat.ar, mat.ag, mat.ab), ConvertColor(mat.dr, mat.dg, mat.db),
          ConvertColor(mat.sr, mat.sg, mat.sb), mat.ns, ConvertColor(mat.tr, mat.tg, mat.tb), mat.ior)
  {
    EarlierObjectsKept(st, before, [mat, obj], m);
    FoldAppend(st, before, [mat, obj], m);
    var mid := Fold(st, before, m).value;
    FoldTwo(mid, mat, obj, m);
    MaterialLine(mid, mat.ar, mat.ag, mat.ab, mat.dr, mat.dg, mat.db, mat.sr, mat.sg, mat.sb,
      mat.ns, mat.tr, mat.tg, mat.tb, mat.ior, m);
    ObjectTakesCurrentMaterial(Step(mid, mat, m).value, obj, m);
  }

  // ---------------------------------------------------------------------
  // Settings that are overwritten, lines that are ignored

  /** Two lines of the same kind that set a value of the scene or the current material. */
  predicate SameSetting(l1: L.Line, l2: L.Line) {
    (l1.AmbientLight? && l2.AmbientLight?) || (l1.Background? && l2.Background?) ||
    (l1.Camera? && l2.Camera?) || (l1.Material? && l2.Material?) ||
    (l1.MaxDepth? && l2.MaxDepth?) || (l1.Output? && l2.Output?) ||
    (l1.Resolution? && l2.Resolution?)
  }

  /** Of two lines setting the same value, the later one wins. */
  lemma LaterSettingWins(st: State, l1: L.Line, l2: L.Line, m: Libm)
    requires SameSetting(l1, l2)
    ensures Fold(st, [l1, l2], m) == Fold(st, [l2], m)
  {
    FoldTwo(st, l1, l2, m);
    assert [l2][1..] == [];
  }

  /** The lines without their `max_vertices` and `max_normals` lines. */
  function WithoutLimits(lines: seq<L.Line>): (r: seq<L.Line>)
    ensures |r| <= |lines|
  {
    if |lines| == 0 then []
    else if lines[0].MaxVertices? || lines[0].MaxNormals? then WithoutLimits(lines[1..])
    else [lines[0]] + WithoutLimits(lines[1..])
  }

  /** `max_vertices` and `max_normals` lines have no effect at all. */
  lemma {:induction false} LimitsIgnored(st: State, lines: seq<L.Line>, m: Libm)
    ensures Fold(st, lines, m) == Fold(st, WithoutLimits(lines), m)
    decreases |lines|
  {
    if |lines| > 0 {
      var next := Step(st, lines[0], m);
      if next.Ok? {
        LimitsIgnored(next.value, lines[1..], m);
      }
      if !(lines[0].MaxVertices? || lines[0].MaxNormals?) {
        var w := [lines[0]] + WithoutLimits(lines[1..]);
        assert w[0] == lines[0] && w[1..] == WithoutLimits(lines[1..]);
      }
    }
  }

  // ---------------------------------------------------------------------
  // Colours and the camera

  predicate MaterialDisplayable(mat: Material) {
    InUnitCube(mat.ambient) && InUnitCube(mat.diffuse) &&
    InUnitCube(mat.specular) && InUnitCube(mat.transmissive)
  }

  /**
    Every colour the scene holds is in `[0, 1]^3`: ambient light,
    background, the light colours and the colours of every material.
   */
  predicate SceneDisplayable(sc: Scene) {
    InUnitCube(sc.ambientLight) && InUnitCube(sc.background) &&
    (forall i :: 0 <= i < |sc.lights| ==> InUnitCube(LightColor(sc.lights[i]))) &&
    (forall i :: 0 <= i < |sc.objects| ==> MaterialDisplayable(MaterialOf(sc.objects[i])))
  }

  predicate Displayable(st: State) {
    SceneDisplayable(st.scene) && MaterialDisplayable(st.material)
  }

  lemma StartDisplayable()
    ensures Displayable(Start)
  {
    DefaultMaterialValues();
  }

  /** Every line keeps the colours displayable: each colour it stores is clamped. */
  lemma StepDisplayable(st: State, line: L.Line, m: Libm)
    requires Displayable(st) && Step(st, line, m).Ok?
    ensures Displayable(Step(st, line, m).value)
  {
    var st' := Step(st, line, m).value;
    if line.DirectionalLight? || line.PointLight? || line.SpotLight? {
      assert st'.scene.lights[..|st.scene.lights|] == st.scene.lights;
      assert forall i :: 0 <= i < |st'.scene.lights| ==> InUnitCube(LightColor(st'.scene.lights[i])) by {
        forall i | 0 <= i < |st'.scene.lights|
          ensures InUnitCube(LightColor(st'.scene.lights[i]))
        {
          if i < |st.scene.lights| {
            assert st'.scene.lights[i] == st.scene.lights[i];
          }
        }
      }
    } else if line.Plane? || line.Sphere? || line.Triangle? || line.NormalTriangle? {
      assert forall i :: 0 <= i < |st'.scene.objects| ==> MaterialDisplayable(MaterialOf(st'.scene.objects[i])) by {
        forall i | 0 <= i < |st'.scene.objects|
          ensures MaterialDisplayable(MaterialOf(st'.scene.objects[i]))
        {
          if i < |st.scene.objects| {
            assert st'.scene.objects[i] == st.scene.objects[i];
          }
        }
      }
    }
  }

  lemma {:induction false} FoldDisplayable(st: State, lines: seq<L.Line>, m: Libm)
    requires Displayable(st) && Fold(st, lines, m).Ok?
    ensures Displayable(Fold(st, lines, m).value)
    decreases |lines|
  {
    if |lines| > 0 {
      StepDisplayable(st, lines[0], m);
      FoldDisplayable(Step(st, lines[0], m).value, lines[1..], m);
    }
  }

  /** Every colour of a parsed scene, lights and materials included, is in `[0, 1]^3`. */
  lemma ParsedSceneDisplayable(input: string, m: Libm)
    requires SceneFromStr(input, m).Ok?
    ensures SceneDisplayable(SceneFromStr(input, m).value)
  {
    StartDisplayable();
    FoldDisplayable(Start, N.ParseLines(input).value.1, m);
  }

  /** A camera line changes the four camera fields and nothing else. */
  lemma CameraStored(st: State, px: real, py: real, pz: real, dx: real, dy: real, dz: real,
                     ux: real, uy: real, uz: real, ha: real, m: Libm)
    ensures var r := Step(st, L.Camera(px, py, pz, dx, dy, dz, ux, uy, uz, ha), m);
      r.Ok? && r.value.vertices == st.vertices && r.value.normals == st.normals &&
      r.value.material == st.material &&
      r.value.scene == AimCamera(st.scene, Vec3(px, py, pz), Vec3(dx, dy, dz), Vec3(ux, uy, uz), ha, m)
  {
  }

  /**
    The camera a camera line sets up: position as given, direction and up
    vector of unit length when they are not zero (the direction scaled back
    by its length is the direction written), `tan` of the half angle in
    degrees; lights, objects and the image settings are untouched.
   */
  lemma CameraLine(sc: Scene, position: Vec3, direction: Vec3, up: Vec3, ha: real, m: Libm)
    requires m.Valid()
    ensures var c := AimCamera(sc, position, direction, up, ha, m);
      c.cameraPosition == position && c.cameraHalfAngleTan == m.tanDegrees(ha) &&
      (direction != Zero ==> Magnitude2(c.cameraDirection) == 1.0) &&
      (up != Zero ==> Magnitude2(c.cameraUp) == 1.0) &&
      Scale(Magnitude(direction, m), c.cameraDirection) == direction &&
      c.lights == sc.lights && c.objects == sc.objects &&
      c.width == sc.width && c.height == sc.height
  {
    NormalizedUnit(direction, m);
    NormalizedUnit(up, m);
    NormalizeTimesMagnitude(direction, m);
  }

  lemma NormalizedUnit(v: Vec3, m: Libm)
    requires m.Valid()
    ensures v != Zero ==> Magnitude2(Normalize(v, m)) == 1.0
  {
    if v != Zero {
      NormalizeUnit(v, m);
    }
  }

  /** Plane normals and light directions are stored as written, not normalised. */
  lemma RawDirections(st: State, px: real, py: real, pz: real, nx: real, ny: real, nz: real,
                      r: real, g: real, b: real, i: real, m: Libm)
    ensures var p := Step(st, L.Plane(px, py, pz, nx, ny, nz), m).value.scene.objects;
      p[|p| - 1].plane.normal == Vec3(nx, ny, nz)
    ensures var ls := Step(st, L.DirectionalLight(r, g, b, nx, ny, nz, i), m).value.scene.lights;
      ls[|ls| - 1].directional.direction == Vec3(nx, ny, nz) && ls[|ls| - 1].directional.intensity == i
  {
  }

  // ---------------------------------------------------------------------
  // The scene of the parser's integration test

  /** The material line of the integration scene: white ambient and diffuse colour. */
  const WhiteMaterialLine: L.Line :=
    L.Material(1.0, 1.0, 1.0, 1.0, 1.0, 1.0, 0.0, 0.0, 0.0, 5.0, 0.0, 0.0, 0.0, 1.0)

  /** Lines that describe the scene the integration test expects. */
  const SphereLines: seq<L.Line> := [
    L.Camera(0.0, 0.0, 0.0, 0.0, 0.0, 1.0, 0.0, 1.0, 0.0, 45.0),
    L.Resolution(1920, 1080),
    L.Output("example.png"),
    L.AmbientLight(0.1, 0.1, 0.1),
    WhiteMaterialLine,
    L.Sphere(0.0, 0.0, 2.0, 1.0)]

  lemma NormalizeAxis(v: Vec3, m: Libm)
    requires m.Valid() && Magnitude2(v) == 1.0
    ensures Normalize(v, m) == v
  {
    SqrtIs(m, 1.0, 1.0);
    assert Magnitude(v, m) == 1.0;
  }

  lemma AimDefaultCamera(m: Libm)
    requires m.Valid() && m.tanDegrees(45.0) == 1.0
    ensures AimCamera(DefaultScene, Zero, Vec3(0.0, 0.0, 1.0), Vec3(0.0, 1.0, 0.0), 45.0, m) == DefaultScene
  {
    NormalizeAxis(Vec3(0.0, 0.0, 1.0), m);
    NormalizeAxis(Vec3(0.0, 1.0, 0.0), m);
  }

  lemma CameraOfSphereScene(m: Libm)
    requires m.Valid() && m.tanDegrees(45.0) == 1.0
    ensures Step(Start, SphereLines[0], m) == Ok(Start)
  {
    AimDefaultCamera(m);
    CameraStored(Start, 0.0, 0.0, 0.0, 0.0, 0.0, 1.0, 0.0, 1.0, 0.0, 45.0, m);
    assert Vec3(0.0, 0.0, 0.0) == Zero;
  }

  /**
    A camera at the origin looking along `+z` with `+y` up and a half angle
    of 45 degrees, a 1920 by 1080 image written to `example.png`, ambient
    light 0.1, a white material and a unit sphere at `z = 2` give the scene
    of the integration test (when `tan` of 45 degrees is 1).
   */
  lemma SphereLinesScene(m: Libm)
    requires m.Valid() && m.tanDegrees(45.0) == 1.0
    ensures Fold(Start, SphereLines, m).Ok?
    ensures Fold(Start, SphereLines, m).value.scene == Trace.SphereScene
  {
    var s1 := Start;
    CameraOfSphereScene(m);
    var s2 := s1.(scene := s1.scene.(height := 1080, width := 1920));
    var s3 := s2.(scene := s2.scene.(outputImage := Some("example.png")));
    var s4 := s3.(scene := s3.scene.(ambientLight := Rgb(0.1, 0.1, 0.1)));
    var s5 := s4.(material := Material(White, White, Black, 5.0, Black, 1.0));
    assert Step(s1, SphereLines[1], m) == Ok(s2);
    assert Step(s2, SphereLines[2], m) == Ok(s3);
    assert Step(s3, SphereLines[3], m) == Ok(s4);
    assert Step(s4, SphereLines[4], m) == Ok(s5);
    var s6 := AddObject(s5, SphereObject(Trace.TestSphere));
    assert Step(s5, SphereLines[5], m) == Ok(s6);
    assert SphereLines[..3] + SphereLines[3..] == SphereLines;
    FoldAppend(Start, SphereLines[..3], SphereLines[3..], m);
    FoldThree(Start, SphereLines[..3], m);
    assert Fold(Start, SphereLines[..3], m) == Ok(s3);
    FoldThree(s3, SphereLines[3..], m);
    assert Fold(s3, SphereLines[3..], m) == Ok(s6);
    assert s6.scene.objects == [SphereObject(Trace.TestSphere)];
    assert s6.scene.lights == [];
    assert s6.scene.cameraPosition == Zero;
    assert s6.scene == Trace.SphereScene;
  }

  lemma FoldThree(st: State, lines: seq<L.Line>, m: Libm)
    requires |lines| == 3
    ensures Fold(st, lines, m) == Then(Then(Step(st, lines[0], m), lines[1], m), lines[2], m)
  {
    var first := Step(st, lines[0], m);
    if first.Ok? {
      assert lines[1..] == [lines[1], lines[2]];
      FoldTwo(first.value, lines[1], lines[2], m);
    }
  }
}
