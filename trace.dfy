/**
  The shading pipeline (asgn2/src/trace/mod.rs): the closest collision along
  a ray, the contribution of each light, ambient plus diffuse shading, and
  the 8-bit quantisation of a pixel.
 */
module Trace {
  import opened Libm
  import opened Vectors
  import opened Wrappers
  import opened Panics
  import opened Colors
  import opened Rays
  import opened Materials
  import opened Renderables
  import opened Lights
  import opened Scenes
  import opened Camera

  newtype byte = b: int | 0 <= b < 256

  /** `MIN_INTENSITY`: fainter lights are skipped. */
  const MinIntensity: real := 0.0001

  /** The offset along the normal from which shadow rays start. */
  const ShadowBias: real := 0.0001

  // ---------------------------------------------------------------------
  // Closest collision

  /** `collides_with` on every object, in list order. */
  function Collisions(objects: seq<DynamicRenderable>, ray: Ray, m: Libm, hit: PlaneHit)
    : (r: seq<Result<Option<real>, Panic>>)
    ensures |r| == |objects|
    ensures forall i :: 0 <= i < |objects| ==> r[i] == CollidesWith(objects[i], ray, m, hit)
  {
    seq(|objects|, i requires 0 <= i < |objects| => CollidesWith(objects[i], ray, m, hit))
  }

  /** A collision: the object's index in the scene and its distance. */
  datatype Hit = Hit(index: nat, dist: real)

  /**
    `min_by_key` over the reported distances: the smallest, and among equal
    smallest the earliest.
   */
  function MinHit(ds: seq<Option<real>>): (r: Option<Hit>)
    ensures r.None? <==> forall i :: 0 <= i < |ds| ==> ds[i].None?
    ensures r.Some? ==> r.value.index < |ds| && ds[r.value.index] == Some(r.value.dist)
    ensures r.Some? ==> forall i :: 0 <= i < |ds| && ds[i].Some? ==> r.value.dist <= ds[i].value
    ensures r.Some? ==> forall i :: 0 <= i < r.value.index && ds[i].Some? ==> r.value.dist < ds[i].value
  {
    if |ds| == 0 then
      None
    else
      var n := |ds| - 1;
      var prev := MinHit(ds[..n]);
      assert forall i :: 0 <= i < n ==> ds[..n][i] == ds[i];
      match ds[n]
      case None => prev
      case Some(d) =>
        if prev.None? || d < prev.value.dist then Some(Hit(n, d)) else prev
  }

  /**
    `closest_collision`: no collision exactly when no object reports one;
    otherwise an object whose distance is at most every reported distance,
    the earliest in list order among equal minima.
   */
  function ClosestCollision(objects: seq<DynamicRenderable>, ray: Ray, m: Libm, hit: PlaneHit)
    : (r: Result<Option<Hit>, Panic>)
    ensures r.Ok? <==> forall i :: 0 <= i < |objects| ==> CollidesWith(objects[i], ray, m, hit).Ok?
    ensures r == Ok(None) <==> forall i :: 0 <= i < |objects| ==> CollidesWith(objects[i], ray, m, hit) == Ok(None)
    ensures r.Ok? && r.value.Some? ==>
      var h := r.value.value;
      h.index < |objects| && CollidesWith(objects[h.index], ray, m, hit) == Ok(Some(h.dist))
      && (forall i, d :: 0 <= i < |objects| && CollidesWith(objects[i], ray, m, hit) == Ok(Some(d)) ==> h.dist <= d)
      && (forall i, d :: 0 <= i < h.index && CollidesWith(objects[i], ray, m, hit) == Ok(Some(d)) ==> h.dist < d)
  {
    var ds :- AllOk(Collisions(objects, ray, m, hit));
    Ok(MinHit(ds))
  }

  // ---------------------------------------------------------------------
  // Lights

  /** The distance to the first thing a ray hits, infinite when it hits nothing. */
  function HitDistance(h: Option<Hit>): Distance {
    if h.Some? then Finite(h.value.dist) else Infinite
  }

  /** The shadow ray from just above `pos` towards the light. */
  function ShadowRay(l: DynamicLight, pos: Vec3, norm: Vec3, m: Libm): Ray {
    Ray(Add(pos, Scale(ShadowBias, norm)), DirectionFrom(l, pos, m).0)
  }

  /**
    `one_light`: nothing from a light fainter than `MIN_INTENSITY` at `pos`;
    nothing when the shadow ray hits something strictly nearer than the
    light; nothing when the surface faces away; otherwise the light's colour
    scaled by the cosine of the angle and the intensity.
   */
  function OneLight(s: Scene, l: DynamicLight, pos: Vec3, norm: Vec3, m: Libm, hit: PlaneHit)
    : (r: Result<Option<Rgb>, Panic>)
    ensures r.Ok? && r.value.Some? ==>
      IntensityAt(l, pos).Ok? && IntensityAt(l, pos).value >= MinIntensity
      && CosAngle(norm, DirectionFrom(l, pos, m).0, m) >= 0.0
    ensures r.Ok? && r.value.Some? && NonNegative(LightColor(l)) ==> NonNegative(r.value.value)
  {
    var intensity :- IntensityAt(l, pos);
    if intensity < MinIntensity then
      Ok(None)
    else
      var (dir, dist) := DirectionFrom(l, pos, m);
      var closest :- ClosestCollision(s.objects, ShadowRay(l, pos, norm, m), m, hit);
      if AtLeast(HitDistance(closest), dist) then
        Ok(Shade(LightColor(l), norm, dir, intensity, m))
      else
        Ok(None)
  }

  /**
    The contribution of an unshadowed light: its colour scaled by the cosine
    of the angle between normal and light direction times the intensity, and
    nothing when the cosine is negative.
   */
  function Shade(color: Rgb, norm: Vec3, dir: Vec3, intensity: real, m: Libm): (r: Option<Rgb>)
    ensures r.Some? <==> CosAngle(norm, dir, m) >= 0.0
    ensures r.Some? ==> r.value == ScaleColor(color, CosAngle(norm, dir, m) * intensity)
    ensures r.Some? && NonNegative(color) && intensity >= 0.0 ==> NonNegative(r.value)
  {
    if CosAngle(norm, dir, m) >= 0.0 then
      ProductBounds(CosAngle(norm, dir, m), intensity);
      Some(ScaleColor(color, CosAngle(norm, dir, m) * intensity))
    else
      None
  }

  /**
    For non-zero vectors the light contributes exactly when the normal and
    the direction to the light have a non-negative dot product.
   */
  lemma ShadeFacing(color: Rgb, norm: Vec3, dir: Vec3, intensity: real, m: Libm)
    requires m.Valid() && norm != Zero && dir != Zero
    ensures Shade(color, norm, dir, intensity, m).Some? <==> Dot(norm, dir) >= 0.0
  {
    CosAngleSign(norm, dir, m);
  }

  /**
    A light fainter than `MIN_INTENSITY` contributes nothing, and no shadow
    ray is cast for it: the outcome does not depend on the scene's objects.
   */
  lemma DimLightSkipped(s: Scene, s': Scene, l: DynamicLight, pos: Vec3, norm: Vec3, m: Libm, hit: PlaneHit)
    requires IntensityAt(l, pos).Ok? && IntensityAt(l, pos).value < MinIntensity
    ensures OneLight(s, l, pos, norm, m, hit) == Ok(None)
    ensures OneLight(s', l, pos, norm, m, hit) == Ok(None)
  {
  }

  /** Any object on the shadow ray strictly nearer than the light casts a shadow. */
  lemma OccluderShadows(s: Scene, l: DynamicLight, pos: Vec3, norm: Vec3, m: Libm, hit: PlaneHit, j: nat, t: real)
    requires j < |s.objects|
    requires CollidesWith(s.objects[j], ShadowRay(l, pos, norm, m), m, hit) == Ok(Some(t))
    requires !AtLeast(Finite(t), DirectionFrom(l, pos, m).1)
    requires OneLight(s, l, pos, norm, m, hit).Ok?
    ensures OneLight(s, l, pos, norm, m, hit) == Ok(None)
  {
    var ray := ShadowRay(l, pos, norm, m);
    var intensity := IntensityAt(l, pos).value;
    if intensity >= MinIntensity {
      var closest := ClosestCollision(s.objects, ray, m, hit);
      assert closest.Ok?;
      assert CollidesWith(s.objects[j], ray, m, hit) != Ok(None);
      assert closest.value.Some?;
      assert closest.value.value.dist <= t;
    }
  }

  /**
    For a light at infinite distance (a directional light) the shadow test
    passes exactly when the shadow ray hits no object at all.
   */
  lemma InfiniteLightShadow(s: Scene, l: DynamicLight, pos: Vec3, norm: Vec3, m: Libm, hit: PlaneHit)
    requires DirectionFrom(l, pos, m).1 == Infinite
    requires ClosestCollision(s.objects, ShadowRay(l, pos, norm, m), m, hit).Ok?
    ensures var h := ClosestCollision(s.objects, ShadowRay(l, pos, norm, m), m, hit).value;
      AtLeast(HitDistance(h), Infinite) <==>
        forall i :: 0 <= i < |s.objects| ==> CollidesWith(s.objects[i], ShadowRay(l, pos, norm, m), m, hit) == Ok(None)
  {
  }

  /**
    An unshadowed light bright enough to count contributes exactly when the
    normal and the direction to the light have a non-negative dot product,
    and then it contributes its colour scaled by the cosine times the
    intensity.
   */
  lemma FacingLightContributes(s: Scene, l: DynamicLight, pos: Vec3, norm: Vec3, m: Libm, hit: PlaneHit)
    requires m.Valid() && norm != Zero && DirectionFrom(l, pos, m).0 != Zero
    requires IntensityAt(l, pos).Ok? && IntensityAt(l, pos).value >= MinIntensity
    requires ClosestCollision(s.objects, ShadowRay(l, pos, norm, m), m, hit).Ok?
    requires AtLeast(HitDistance(ClosestCollision(s.objects, ShadowRay(l, pos, norm, m), m, hit).value),
                     DirectionFrom(l, pos, m).1)
    ensures OneLight(s, l, pos, norm, m, hit)
         == Ok(Shade(LightColor(l), norm, DirectionFrom(l, pos, m).0, IntensityAt(l, pos).value, m))
    ensures OneLight(s, l, pos, norm, m, hit).value.Some? <==> Dot(norm, DirectionFrom(l, pos, m).0) >= 0.0
  {
    ShadeFacing(LightColor(l), norm, DirectionFrom(l, pos, m).0, IntensityAt(l, pos).value, m);
  }

  /** `one_light` for every light, in list order. */
  function Contributions(s: Scene, lights: seq<DynamicLight>, pos: Vec3, norm: Vec3, m: Libm, hit: PlaneHit)
    : (r: seq<Result<Option<Rgb>, Panic>>)
    ensures |r| == |lights|
    ensures forall i :: 0 <= i < |lights| ==> r[i] == OneLight(s, lights[i], pos, norm, m, hit)
  {
    seq(|lights|, i requires 0 <= i < |lights| => OneLight(s, lights[i], pos, norm, m, hit))
  }

  /**
    `fold(BLACK, add_colors)` over the contributions that are present, in
    list order: nothing present gives black, and non-negative contributions
    give a displayable colour.
   */
  function SumColors(cs: seq<Option<Rgb>>): (r: Rgb)
    ensures (forall i :: 0 <= i < |cs| ==> cs[i].None?) ==> r == Black
    ensures (forall i :: 0 <= i < |cs| && cs[i].Some? ==> NonNegative(cs[i].value)) ==> InUnitCube(r)
  {
    if |cs| == 0 then
      Black
    else
      var n := |cs| - 1;
      var prev := SumColors(cs[..n]);
      assert forall i :: 0 <= i < n ==> cs[..n][i] == cs[i];
      match cs[n]
      case None => prev
      case Some(c) => AddColors(prev, c)
  }

  /**
    `light_on`: the normal at `pos`, then the sum of the contributions of
    the lights; the first light whose evaluation panics decides the failure.
   */
  function LightOn(s: Scene, obj: DynamicRenderable, pos: Vec3, m: Libm, hit: PlaneHit): (r: Result<Rgb, Panic>)
    ensures r.Ok? <==> (NormalAt(obj, pos, m).Ok?
      && forall i :: 0 <= i < |s.lights| ==> OneLight(s, s.lights[i], pos, NormalAt(obj, pos, m).value, m, hit).Ok?)
    ensures r.Ok? ==>
      (forall i :: 0 <= i < |s.lights| ==> OneLight(s, s.lights[i], pos, NormalAt(obj, pos, m).value, m, hit) == Ok(None))
      ==> r.value == Black
    ensures r.Ok? && (forall i :: 0 <= i < |s.lights| ==> NonNegative(LightColor(s.lights[i]))) ==> InUnitCube(r.value)
  {
    var norm :- NormalAt(obj, pos, m);
    var cs := Contributions(s, s.lights, pos, norm, m, hit);
    var present :- AllOk(cs);
    ContributionsNonNegative(s, pos, norm, m, hit, cs, present);
    Ok(SumColors(present))
  }

  /**
    When the normal and every light succeed, the lit colour is the fold of
    exactly the lights' contributions, in list order.
   */
  lemma LightOnSums(s: Scene, obj: DynamicRenderable, pos: Vec3, norm: Vec3, m: Libm, hit: PlaneHit,
                    present: seq<Option<Rgb>>)
    requires NormalAt(obj, pos, m) == Ok(norm)
    requires |present| == |s.lights|
    requires forall i :: 0 <= i < |s.lights| ==> OneLight(s, s.lights[i], pos, norm, m, hit) == Ok(present[i])
    ensures LightOn(s, obj, pos, m, hit) == Ok(SumColors(present))
  {
    var cs := Contributions(s, s.lights, pos, norm, m, hit);
    var all := AllOk(cs);
    assert all.Ok?;
    assert all.value == present by {
      forall i | 0 <= i < |present|
        ensures all.value[i] == present[i]
      {
        assert cs[i] == Ok(all.value[i]);
      }
    }
  }

  /**
    A single light that contributes a displayable colour lights the point
    with exactly that colour: blending it into black changes nothing.
   */
  lemma LightOnOneLight(s: Scene, obj: DynamicRenderable, pos: Vec3, m: Libm, hit: PlaneHit, c: Rgb)
    requires |s.lights| == 1
    requires NormalAt(obj, pos, m).Ok?
    requires OneLight(s, s.lights[0], pos, NormalAt(obj, pos, m).value, m, hit) == Ok(Some(c))
    requires InUnitCube(c)
    ensures LightOn(s, obj, pos, m, hit) == Ok(c)
  {
    LightOnSums(s, obj, pos, NormalAt(obj, pos, m).value, m, hit, [Some(c)]);
    assert SumColors([Some(c)]) == AddColors(SumColors([]), c);
    AddBlack(c);
  }

  /** Lights of non-negative colour contribute non-negative colours. */
  lemma ContributionsNonNegative(s: Scene, pos: Vec3, norm: Vec3, m: Libm, hit: PlaneHit,
                                 cs: seq<Result<Option<Rgb>, Panic>>, present: seq<Option<Rgb>>)
    requires cs == Contributions(s, s.lights, pos, norm, m, hit)
    requires |present| == |cs| && forall i :: 0 <= i < |cs| ==> cs[i] == Ok(present[i])
    ensures (forall i :: 0 <= i < |s.lights| ==> NonNegative(LightColor(s.lights[i]))) ==>
      forall i :: 0 <= i < |present| && present[i].Some? ==> NonNegative(present[i].value)
  {
    if forall i :: 0 <= i < |s.lights| ==> NonNegative(LightColor(s.lights[i])) {
      forall i | 0 <= i < |present| && present[i].Some?
        ensures NonNegative(present[i].value)
      {
        assert cs[i] == OneLight(s, s.lights[i], pos, norm, m, hit);
      }
    }
  }

  // ---------------------------------------------------------------------
  // Tracing

  /** Every colour a scene supplies is non-negative. */
  predicate NonNegativeScene(s: Scene) {
    NonNegative(s.ambientLight)
    && (forall i :: 0 <= i < |s.lights| ==> NonNegative(LightColor(s.lights[i])))
    && (forall i :: 0 <= i < |s.objects| ==>
          NonNegative(MaterialOf(s.objects[i]).ambient) && NonNegative(MaterialOf(s.objects[i]).diffuse))
  }

  /**
    `trace_ray`: the background when nothing is hit; otherwise the ambient
    term `ambient * ambient_light` blended with the diffuse term
    `diffuse * light_on(hit point)`.  The `remaining_collisions` argument is
    never read and is not modelled.
   */
  function TraceRay(s: Scene, ray: Ray, m: Libm, hit: PlaneHit): (r: Result<Rgb, Panic>)
    ensures ClosestCollision(s.objects, ray, m, hit) == Ok(None) ==> r == Ok(s.background)
    ensures (ClosestCollision(s.objects, ray, m, hit).Ok? && ClosestCollision(s.objects, ray, m, hit).value.Some?
             && NonNegativeScene(s) && r.Ok?) ==> InUnitCube(r.value)
  {
    var closest :- ClosestCollision(s.objects, ray, m, hit);
    match closest
    case None => Ok(s.background)
    case Some(h) =>
      var obj := s.objects[h.index];
      var amb := MulColors(MaterialOf(obj).ambient, s.ambientLight);
      var light :- LightOn(s, obj, Project(ray, h.dist), m, hit);
      Ok(AddColors(amb, MulColors(MaterialOf(obj).diffuse, light)))
  }

  /**
    `f32_to_u8`: the debug assertions demand a channel in `[0, 1]`; the
    cast truncates `x * 255`.
   */
  function F32ToU8(x: real): (r: Result<byte, Panic>)
    ensures r.Ok? <==> 0.0 <= x <= 1.0
    ensures r.Ok? ==> r.value as real <= x * 255.0 < r.value as real + 1.0
  {
    if !(x <= 1.0) then
      Err(DebugAssertion("f32_to_u8: x <= 1.0"))
    else if !(x >= 0.0) then
      Err(DebugAssertion("f32_to_u8: x >= 0.0"))
    else
      var f := (x * 255.0).Floor;
      assert 0 <= f <= 255;
      Ok(f as byte)
  }

  /** `trace_pixel`: trace the camera ray through `(x, y)` and quantise its three channels. */
  function TracePixel(s: Scene, x: nat, y: nat, m: Libm, hit: PlaneHit): (r: Result<seq<byte>, Panic>)
    requires HasPixels(s)
    ensures var c := TraceRay(s, MakeCameraRay(s, x, y), m, hit);
            r.Ok? <==> c.Ok? && InUnitCube(c.value)
    ensures r.Ok? ==> |r.value| == 3
    ensures r.Ok? ==>
              (var c := TraceRay(s, MakeCameraRay(s, x, y), m, hit).value;
               r.value[0] as real <= c.r * 255.0 < r.value[0] as real + 1.0 &&
               r.value[1] as real <= c.g * 255.0 < r.value[1] as real + 1.0 &&
               r.value[2] as real <= c.b * 255.0 < r.value[2] as real + 1.0)
  {
    var px :- TraceRay(s, MakeCameraRay(s, x, y), m, hit);
    var r :- F32ToU8(px.r);
    var g :- F32ToU8(px.g);
    var b :- F32ToU8(px.b);
    Ok([r, g, b])
  }

  /**
    In a scene whose colours are non-negative and whose background is
    displayable, a ray that traces without panicking quantises without
    tripping the debug assertions.
   */
  lemma TracePixelQuantises(s: Scene, x: nat, y: nat, m: Libm, hit: PlaneHit)
    requires HasPixels(s) && NonNegativeScene(s) && InUnitCube(s.background)
    requires TraceRay(s, MakeCameraRay(s, x, y), m, hit).Ok?
    ensures TracePixel(s, x, y, m, hit).Ok?
    ensures var c := TraceRay(s, MakeCameraRay(s, x, y), m, hit).value;
      TracePixel(s, x, y, m, hit).value == [F32ToU8(c.r).value, F32ToU8(c.g).value, F32ToU8(c.b).value]
  {
    var ray := MakeCameraRay(s, x, y);
    var c := TraceRay(s, ray, m, hit).value;
    assert InUnitCube(c) by {
      var closest := ClosestCollision(s.objects, ray, m, hit);
      assert closest.Ok?;
      if closest.value.None? {
        assert c == s.background;
      }
    }
  }

  // ---------------------------------------------------------------------
  // The scene of the parser's integration test

  const TestSphere: Sphere :=
    Sphere(Vec3(0.0, 0.0, 2.0), 1.0, Material(White, White, Black, 5.0, Black, 1.0))

  /** The scene `sphere.scn` parses to: one white sphere, ambient light 0.1, no lights. */
  const SphereScene: Scene := Scene(
    Zero, Vec3(0.0, 0.0, 1.0), Vec3(0.0, 1.0, 0.0), 1.0,
    1920, 1080, Some("example.png"), Rgb(0.1, 0.1, 0.1), Black,
    [], [SphereObject(TestSphere)], 5)

  /** The centre pixel of a 1920 by 1080 image looks straight along the camera direction. */
  lemma CentreRay(s: Scene)
    requires s.width == 1920 && s.height == 1080
    ensures HasPixels(s)
    ensures MakeCameraRay(s, 960, 540) == Ray(s.cameraPosition, s.cameraDirection)
  {
    XToRayRange(s, 960, 960);
    YToRayRange(s, 540, 540);
    ScaleByZero(CameraRight(s));
    ScaleByZero(s.cameraUp);
    assert Add(Add(s.cameraDirection, Zero), Zero) == s.cameraDirection;
  }

  lemma ScaleByZero(v: Vec3)
    ensures Scale(0.0, v) == Zero
  {
  }

  /** The only object being hit at distance 1, it is the closest collision. */
  lemma OnlyObjectClosest(o: DynamicRenderable, ray: Ray, m: Libm, hit: PlaneHit)
    requires CollidesWith(o, ray, m, hit) == Ok(Some(1.0))
    ensures ClosestCollision([o], ray, m, hit) == Ok(Some(Hit(0, 1.0)))
  {
    assert Collisions([o], ray, m, hit) == [Ok(Some(1.0))];
    var r := AllOk(Collisions([o], ray, m, hit));
    assert r.Ok? && r.value[0] == Some(1.0);
    assert r.value == [Some(1.0)];
  }

  /**
    In a scene without lights a hit shows the ambient term alone,
    `ambient * ambient_light`, when that is displayable.
   */
  lemma NoLightsAmbientOnly(s: Scene, ray: Ray, m: Libm, hit: PlaneHit, h: Hit)
    requires s.lights == []
    requires ClosestCollision(s.objects, ray, m, hit) == Ok(Some(h))
    requires InUnitCube(MulColors(MaterialOf(s.objects[h.index]).ambient, s.ambientLight))
    ensures TraceRay(s, ray, m, hit) == Ok(MulColors(MaterialOf(s.objects[h.index]).ambient, s.ambientLight))
  {
    var obj := s.objects[h.index];
    assert !obj.TriangleObject?;
    NoLightsBlack(s, obj, Project(ray, h.dist), m, hit);
    TraceRayHit(s, ray, m, hit, h, Black);
    DiffuseOfBlack(MaterialOf(obj).diffuse);
    AddBlack(MulColors(MaterialOf(obj).ambient, s.ambientLight));
  }

  /** With no lights an object that has normals is lit by black. */
  lemma NoLightsBlack(s: Scene, obj: DynamicRenderable, pos: Vec3, m: Libm, hit: PlaneHit)
    requires s.lights == [] && !obj.TriangleObject?
    ensures LightOn(s, obj, pos, m, hit) == Ok(Black)
  {
  }

  /** A hit lit by `light` shows the ambient term blended with the diffuse term. */
  lemma TraceRayHit(s: Scene, ray: Ray, m: Libm, hit: PlaneHit, h: Hit, light: Rgb)
    requires ClosestCollision(s.objects, ray, m, hit) == Ok(Some(h))
    requires LightOn(s, s.objects[h.index], Project(ray, h.dist), m, hit) == Ok(light)
    ensures TraceRay(s, ray, m, hit) == Ok(AddColors(MulColors(MaterialOf(s.objects[h.index]).ambient, s.ambientLight),
                                                      MulColors(MaterialOf(s.objects[h.index]).diffuse, light)))
  {
  }

  lemma DiffuseOfBlack(d: Rgb)
    ensures MulColors(d, Black) == Black
  {
    assert MulColors(d, Black) == Rgb(d.r * 0.0, d.g * 0.0, d.b * 0.0);
  }

  /**
    With no lights the hit is lit by the ambient term alone: 0.1 in every
    channel, which quantises to `floor(0.1 * 255) = 25`.
   */
  lemma SphereScenePixel(m: Libm, hit: PlaneHit)
    requires m.Valid()
    ensures HasPixels(SphereScene)
    ensures TracePixel(SphereScene, 960, 540, m, hit) == Ok([25, 25, 25])
  {
    UnitSphereClosest(TestSphere.material, m, hit);
    SphereSceneCentre(m, hit);
  }

  lemma SphereSceneCentre(m: Libm, hit: PlaneHit)
    requires ClosestCollision([SphereObject(Sphere(Vec3(0.0, 0.0, 2.0), 1.0, TestSphere.material))],
                              Ray(Zero, Vec3(0.0, 0.0, 1.0)), m, hit) == Ok(Some(Hit(0, 1.0)))
    ensures HasPixels(SphereScene)
    ensures TracePixel(SphereScene, 960, 540, m, hit) == Ok([25, 25, 25])
  {
    SphereSceneShape();
    AmbientOnlyCentrePixel(SphereScene, Hit(0, 1.0), m, hit);
  }

  lemma SphereSceneShape()
    ensures GreyCentreScene(SphereScene)
    ensures SphereScene.objects == [SphereObject(Sphere(Vec3(0.0, 0.0, 2.0), 1.0, TestSphere.material))]
    ensures MaterialOf(SphereScene.objects[0]).ambient == White
  {
  }

  /** The unit sphere two units ahead is the closest collision of a scene holding only it. */
  lemma UnitSphereClosest(mat: Material, m: Libm, hit: PlaneHit)
    requires m.Valid()
    ensures var sp := Sphere(Vec3(0.0, 0.0, 2.0), 1.0, mat);
      ClosestCollision([SphereObject(sp)], Ray(Zero, Vec3(0.0, 0.0, 1.0)), m, hit) == Ok(Some(Hit(0, 1.0)))
  {
    UnitSphereObjectAhead(mat, m, hit);
    OnlyObjectClosest(SphereObject(Sphere(Vec3(0.0, 0.0, 2.0), 1.0, mat)), Ray(Zero, Vec3(0.0, 0.0, 1.0)), m, hit);
  }

  /**
    A 1920 by 1080 scene without lights, looking along `+z` from the origin
    under an ambient light of 0.1.
   */
  predicate GreyCentreScene(s: Scene) {
    s.width == 1920 && s.height == 1080
    && s.cameraPosition == Zero && s.cameraDirection == Vec3(0.0, 0.0, 1.0)
    && s.lights == [] && s.ambientLight == Rgb(0.1, 0.1, 0.1)
  }

  /**
    The centre pixel of a 1920 by 1080 scene without lights, looking along
    `+z` from the origin and hitting an object of white ambient colour under
    an ambient light of 0.1.
   */
  lemma AmbientOnlyCentrePixel(s: Scene, h: Hit, m: Libm, hit: PlaneHit)
    requires GreyCentreScene(s)
    requires ClosestCollision(s.objects, Ray(Zero, Vec3(0.0, 0.0, 1.0)), m, hit) == Ok(Some(h))
    requires MaterialOf(s.objects[h.index]).ambient == White
    ensures HasPixels(s)
    ensures TracePixel(s, 960, 540, m, hit) == Ok([25, 25, 25])
  {
    var grey := Rgb(0.1, 0.1, 0.1);
    assert MulColors(White, grey) == grey;
    NoLightsAmbientOnly(s, Ray(Zero, Vec3(0.0, 0.0, 1.0)), m, hit, h);
    CentrePixel(s, m, hit, grey);
    QuantiseTenth();
  }

  /** The centre pixel quantises the colour traced along the camera direction. */
  lemma CentrePixel(s: Scene, m: Libm, hit: PlaneHit, c: Rgb)
    requires s.width == 1920 && s.height == 1080
    requires s.cameraPosition == Zero && s.cameraDirection == Vec3(0.0, 0.0, 1.0)
    requires TraceRay(s, Ray(Zero, Vec3(0.0, 0.0, 1.0)), m, hit) == Ok(c) && InUnitCube(c)
    ensures HasPixels(s)
    ensures TracePixel(s, 960, 540, m, hit) == Ok([F32ToU8(c.r).value, F32ToU8(c.g).value, F32ToU8(c.b).value])
  {
    CentreRay(s);
    TracePixelOf(s, 960, 540, m, hit, c);
  }

  /** A displayable traced colour is quantised channel by channel. */
  lemma TracePixelOf(s: Scene, x: nat, y: nat, m: Libm, hit: PlaneHit, c: Rgb)
    requires HasPixels(s) && TraceRay(s, MakeCameraRay(s, x, y), m, hit) == Ok(c) && InUnitCube(c)
    ensures TracePixel(s, x, y, m, hit) == Ok([F32ToU8(c.r).value, F32ToU8(c.g).value, F32ToU8(c.b).value])
  {
  }

  /** `0.1 * 255 = 25.5` rounds down to 25. */
  lemma QuantiseTenth()
    ensures F32ToU8(0.1) == Ok(25)
  {
  }
}
