/**
  The light sources of a scene (asgn2/src/light/): directional, point and
  spot lights, and the `DynamicLight` enum that dispatches to them.
 */
module Lights {
  import opened Libm
  import opened Vectors
  import opened Wrappers
  import opened Panics
  import opened Colors
  import opened Rays

  /** A distance to a light, which may be infinite (`f32::INFINITY`). */
  datatype Distance = Finite(d: real) | Infinite

  /** The `>=` of f32 on distances: infinity is at least anything. */
  predicate AtLeast(a: Distance, b: Distance) {
    match (a, b)
    case (Infinite, _) => true
    case (Finite(_), Infinite) => false
    case (Finite(x), Finite(y)) => x >= y
  }

  /** `direction` is the way the light points; it is stored as given. */
  datatype Directional = Directional(color: Rgb, direction: Vec3, intensity: real)

  datatype Point = Point(color: Rgb, position: Vec3, intensity: real)

  datatype Spot = Spot(
    color: Rgb,
    position: Vec3,
    direction: Vec3,
    intensity: real,
    falloffAngle: real,
    maxAngle: real)

  /** `DynamicLight`. */
  datatype DynamicLight =
    | DirectionalLight(directional: Directional)
    | PointLight(point: Point)
    | SpotLight(spot: Spot)

  /** `color`: every variant returns its stored colour. */
  function LightColor(l: DynamicLight): Rgb {
    match l
    case DirectionalLight(d) => d.color
    case PointLight(p) => p.color
    case SpotLight(s) => s.color
  }

  /**
    The direction from `p` towards a light at `position` and its distance:
    `(normalize(position - p), magnitude(position - p))`, shared by point
    and spot lights.
   */
  function TowardPosition(position: Vec3, p: Vec3, m: Libm): (Vec3, Distance) {
    var v := Sub(position, p);
    (Normalize(v, m), Finite(Magnitude(v, m)))
  }

  /**
    `direction_from`: a directional light returns its stored direction,
    neither negated nor normalised, at infinite distance for every point;
    point and spot lights aim at their position (a spot light ignores its
    direction and angles).
   */
  function DirectionFrom(l: DynamicLight, p: Vec3, m: Libm): (r: (Vec3, Distance))
    ensures l.DirectionalLight? ==> r == (l.directional.direction, Infinite)
    ensures l.PointLight? ==> r == TowardPosition(l.point.position, p, m)
    ensures l.SpotLight? ==> r == TowardPosition(l.spot.position, p, m)
  {
    match l
    case DirectionalLight(d) => (d.direction, Infinite)
    case PointLight(pt) => TowardPosition(pt.position, p, m)
    case SpotLight(s) => TowardPosition(s.position, p, m)
  }

  /** The light's position, for the lights that have one. */
  function Position(l: DynamicLight): Vec3
    requires !l.DirectionalLight?
  {
    if l.PointLight? then l.point.position else l.spot.position
  }

  /**
    `intensity_at`: a directional light has the same intensity everywhere; a
    point light falls off as `10 * intensity / |p - position|^2`; a spot
    light reaches `unimplemented!()`.  At the point light's own position
    f32 arithmetic takes the reciprocal of zero; that case is reported as a
    `Degenerate` failure.
   */
  function IntensityAt(l: DynamicLight, p: Vec3): (r: Result<real, Panic>)
    ensures l.DirectionalLight? ==> r == Ok(l.directional.intensity)
    ensures l.PointLight? ==> (r.Ok? <==> p != l.point.position)
    ensures l.PointLight? && r.Ok? && l.point.intensity >= 0.0 ==> r.value >= 0.0
    ensures l.SpotLight? ==> r.Err? && r.error.Unimplemented?
  {
    match l
    case DirectionalLight(d) => Ok(d.intensity)
    case PointLight(pt) => PointIntensityAt(pt, p)
    case SpotLight(_) => Err(Unimplemented("Spot::intensity_at"))
  }

  /** The point-light arm of `intensity_at`. */
  function PointIntensityAt(pt: Point, p: Vec3): (r: Result<real, Panic>)
    ensures r.Ok? <==> p != pt.position
    ensures r.Ok? && pt.intensity >= 0.0 ==> r.value >= 0.0
  {
    var d2 := Magnitude2(Sub(p, pt.position));
    SquaredDistance(p, pt.position);
    if d2 == 0.0 then
      Err(Degenerate("Point::intensity_at"))
    else
      Ok(InverseSquare(pt.intensity, d2))
  }

  /** `10 * intensity * d2.recip()`. */
  function InverseSquare(intensity: real, d2: real): (r: real)
    requires d2 > 0.0
    ensures intensity >= 0.0 ==> r >= 0.0
  {
    var k := 10.0 * intensity;
    var inv := 1.0 / d2;
    assert inv > 0.0;
    assert k >= 0.0 ==> k * inv >= 0.0;
    k * inv
  }

  // ---------------------------------------------------------------------
  // The contract of the `Light` trait

  /** Away from a positioned light the direction towards it has unit length. */
  lemma DirectionUnit(l: DynamicLight, p: Vec3, m: Libm)
    requires m.Valid() && !l.DirectionalLight? && p != Position(l)
    ensures Magnitude2(DirectionFrom(l, p, m).0) == 1.0
  {
    var v := Sub(Position(l), p);
    assert v != Zero;
    NormalizeUnit(v, m);
  }

  /** Travelling the returned distance along the returned direction arrives at the light. */
  lemma ProjectReachesLight(l: DynamicLight, p: Vec3, m: Libm)
    requires m.Valid() && !l.DirectionalLight?
    ensures DirectionFrom(l, p, m).1.Finite?
    ensures Project(Ray(p, DirectionFrom(l, p, m).0), DirectionFrom(l, p, m).1.d) == Position(l)
  {
    var v := Sub(Position(l), p);
    NormalizeTimesMagnitude(v, m);
  }

  /**
    The round trip the `Light` trait documents: whenever the distance is
    finite, asking again from the projected point gives distance 0.
   */
  lemma DirectionFromRoundTrip(l: DynamicLight, p: Vec3, m: Libm)
    requires m.Valid()
    ensures DirectionFrom(l, p, m).1.Finite? ==>
      var (dir, dist) := DirectionFrom(l, p, m);
      DirectionFrom(l, Project(Ray(p, dir), dist.d), m).1 == Finite(0.0)
  {
    if !l.DirectionalLight? {
      ProjectReachesLight(l, p, m);
      var (dir, dist) := DirectionFrom(l, p, m);
      assert Project(Ray(p, dir), dist.d) == Position(l);
      assert Sub(Position(l), Position(l)) == Zero;
      MagnitudeNonNegative(Zero, m);
    }
  }

  /** Twice as far from a point light, a quarter of the intensity. */
  lemma PointInverseSquare(l: DynamicLight, p: Vec3, q: Vec3)
    requires l.PointLight? && p != l.point.position
    requires Sub(q, l.point.position) == Scale(2.0, Sub(p, l.point.position))
    ensures IntensityAt(l, q).Ok? && IntensityAt(l, p).Ok?
    ensures 4.0 * IntensityAt(l, q).value == IntensityAt(l, p).value
  {
    var pos := l.point.position;
    var v := Sub(p, pos);
    SquaredDistancePositive(p, pos);
    var d2 := Magnitude2(v);
    calc {
      Magnitude2(Sub(q, pos));
    ==
      Magnitude2(Scale(2.0, v));
    == { Magnitude2Scale(2.0, v); }
      2.0 * 2.0 * d2;
    ==
      4.0 * d2;
    }
    assert q != pos by {
      assert v.x != 0.0 || v.y != 0.0 || v.z != 0.0;
      assert Sub(q, pos).x != 0.0 || Sub(q, pos).y != 0.0 || Sub(q, pos).z != 0.0;
    }
    QuarterAtDouble(l.point.intensity, d2);
  }

  lemma QuarterAtDouble(intensity: real, d2: real)
    requires d2 > 0.0
    ensures 4.0 * InverseSquare(intensity, 4.0 * d2) == InverseSquare(intensity, d2)
  {
    var k := 10.0 * intensity;
    assert 4.0 * (k * (1.0 / (4.0 * d2))) == k * (1.0 / d2);
  }
}
