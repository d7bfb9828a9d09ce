/**
  The objects a scene is made of (asgn2/src/renderable/): planes, spheres and
  triangles, and the `DynamicRenderable` enum that dispatches to them.
 */
module Renderables {
  import opened Libm
  import opened Vectors
  import opened Wrappers
  import opened Panics
  import opened Rays
  import opened Materials

  /** An infinite plane through `point` with the given normal. */
  datatype Plane = Plane(point: Vec3, normal: Vec3, material: Material)

  datatype Sphere = Sphere(position: Vec3, radius: real, material: Material)

  datatype Triangle = Triangle(v1: Vec3, v2: Vec3, v3: Vec3, normal: Vec3, material: Material)

  /** `DynamicRenderable`. */
  datatype DynamicRenderable =
    | PlaneObject(plane: Plane)
    | SphereObject(sphere: Sphere)
    | TriangleObject(triangle: Triangle)

  // ---------------------------------------------------------------------
  // Spheres

  /** The quadratic `a t^2 + b t + c` of `Sphere::collides_with`, evaluated at `t`. */
  function SphereA(ray: Ray): real {
    Magnitude2(ray.direction)
  }

  function SphereB(s: Sphere, ray: Ray): real {
    2.0 * Dot(ray.direction, Sub(ray.origin, s.position))
  }

  function SphereC(s: Sphere, ray: Ray): real {
    Magnitude2(ray.origin) + Magnitude2(s.position) - 2.0 * Dot(ray.origin, s.position)
      - s.radius * s.radius
  }

  function Quadratic(a: real, b: real, c: real, t: real): real {
    a * t * t + b * t + c
  }

  /** The point `t` along the ray lies on the sphere's surface. */
  predicate OnSphere(s: Sphere, ray: Ray, t: real) {
    Magnitude2(Sub(Project(ray, t), s.position)) == s.radius * s.radius
  }

  function Discriminant(a: real, b: real, c: real): real {
    b * b - 4.0 * a * c
  }

  function SphereDelta(s: Sphere, ray: Ray): real {
    Discriminant(SphereA(ray), SphereB(s, ray), SphereC(s, ray))
  }

  /** The positive one of two candidate roots `t1 <= t2` that comes first. */
  function FirstPositive(t1: real, t2: real): (r: Option<real>)
    ensures r.Some? ==> r.value > 0.0 && (r.value == t1 || r.value == t2)
    ensures r.Some? && r.value == t2 ==> t1 <= 0.0 || t1 == t2
    ensures r.None? ==> t1 <= 0.0 && t2 <= 0.0
  {
    if t1 <= 0.0 then
      if t2 <= 0.0 then None else Some(t2)
    else
      Some(t1)
  }

  /** The quadratic degenerates exactly for a zero direction. */
  lemma ZeroDirection(s: Sphere, ray: Ray)
    ensures SphereA(ray) == 0.0 <==> ray.direction == Zero
    ensures ray.direction == Zero ==> SphereDelta(s, ray) == 0.0
    ensures SphereA(ray) >= 0.0
  {
    Magnitude2Positive(ray.direction);
    if ray.direction == Zero {
      ZeroDirectionDelta(s, ray);
    }
  }

  /** `collides_with` fails exactly for a zero direction. */
  lemma DegenerateIffZeroDirection(s: Sphere, ray: Ray)
    ensures SphereDelta(s, ray) >= 0.0 && SphereA(ray) == 0.0 <==> ray.direction == Zero
  {
    ZeroDirection(s, ray);
  }

  lemma ZeroDirectionDelta(s: Sphere, ray: Ray)
    requires ray.direction == Zero
    ensures SphereDelta(s, ray) == 0.0
  {
    assert SphereB(s, ray) == 0.0;
    assert SphereA(ray) == 0.0;
    ZeroCoefficients(SphereB(s, ray), SphereA(ray), SphereC(s, ray));
  }

  lemma ZeroCoefficients(b: real, a: real, c: real)
    requires a == 0.0 && b == 0.0
    ensures Discriminant(a, b, c) == 0.0
  {
  }

  /**
    `Sphere::collides_with`: the smaller root of the quadratic if it is
    positive, else the larger root if that is positive, else no collision.
    With a zero direction f32 arithmetic divides zero by zero; that case is
    reported as a `Degenerate` failure.
   */
  function SphereCollides(s: Sphere, ray: Ray, m: Libm): (r: Result<Option<real>, Panic>)
    ensures r.Err? <==> ray.direction == Zero
    ensures r.Ok? && r.value.Some? ==> r.value.value > 0.0
  {
    DegenerateIffZeroDirection(s, ray);
    SolveQuadratic(SphereA(ray), SphereB(s, ray), SphereDelta(s, ray), m)
  }

  /** The root selection of `collides_with`, on the coefficients `a`, `b` and the discriminant. */
  function SolveQuadratic(a: real, b: real, delta: real, m: Libm): (r: Result<Option<real>, Panic>)
    ensures r.Err? <==> delta >= 0.0 && a == 0.0
    ensures r.Ok? && r.value.Some? ==> r.value.value > 0.0
  {
    if delta >= 0.0 then
      if a == 0.0 then
        Err(Degenerate("Sphere::collides_with"))
      else
        var twoA := 2.0 * a;
        var minusB := -b;
        var deltaSqrt := m.sqrt(delta);
        Ok(FirstPositive((minusB - deltaSqrt) / twoA, (minusB + deltaSqrt) / twoA))
    else
      Ok(None)
  }

  /** `c` is the squared distance from the ray origin to the centre, less `r^2`. */
  lemma SphereCIsOffset(s: Sphere, ray: Ray)
    ensures SphereC(s, ray) == Magnitude2(Sub(ray.origin, s.position)) - s.radius * s.radius
  {
  }

  /** A point along the ray is on the sphere exactly when `t` is a root of the quadratic. */
  lemma OnSphereIffRoot(s: Sphere, ray: Ray, t: real)
    ensures OnSphere(s, ray, t) <==> Quadratic(SphereA(ray), SphereB(s, ray), SphereC(s, ray), t) == 0.0
  {
    var o := ray.origin;
    var d := ray.direction;
    var p := s.position;
    var w := Sub(o, p);
    assert Sub(Project(ray, t), p) == Add(w, Scale(t, d));
    SphereCIsOffset(s, ray);
    assert Magnitude2(Add(w, Scale(t, d))) == t * t * Magnitude2(d) + 2.0 * t * Dot(d, w) + Magnitude2(w);
  }

  /** `4a q(t) = (2at + b)^2 - (b^2 - 4ac)`. */
  lemma CompleteSquare(a: real, b: real, c: real, t: real)
    ensures 4.0 * a * Quadratic(a, b, c, t) == (2.0 * a * t + b) * (2.0 * a * t + b) - (b * b - 4.0 * a * c)
  {
  }

  lemma DifferenceOfSquares(u: real, v: real)
    requires u * u == v * v
    ensures u == v || u == -v
  {
    assert (u - v) * (u + v) == u * u - v * v;
    if u - v != 0.0 {
      assert u + v == 0.0;
    }
  }

  /** With `a > 0` the roots of the quadratic are exactly `(-b -+ sqrt(delta)) / 2a`. */
  lemma RootsOfQuadratic(a: real, b: real, c: real, sq: real, t: real)
    requires a > 0.0 && sq >= 0.0 && sq * sq == b * b - 4.0 * a * c
    ensures Quadratic(a, b, c, t) == 0.0 <==> t == (-b - sq) / (2.0 * a) || t == (-b + sq) / (2.0 * a)
  {
    var u := 2.0 * a * t + b;
    CompleteSquare(a, b, c, t);
    if Quadratic(a, b, c, t) == 0.0 {
      assert u * u == sq * sq;
      DifferenceOfSquares(u, sq);
    } else {
      assert u * u != sq * sq;
      assert u != sq && u != -sq;
    }
  }

  /** A negative discriminant leaves the quadratic without roots. */
  lemma NoRootsOfQuadratic(a: real, b: real, c: real, t: real)
    requires a > 0.0 && b * b - 4.0 * a * c < 0.0
    ensures Quadratic(a, b, c, t) != 0.0
  {
    var u := 2.0 * a * t + b;
    CompleteSquare(a, b, c, t);
    assert u * u >= 0.0;
  }

  /**
    A reported distance is the least positive distance at which the ray
    meets the sphere: a ray starting inside gets the exit point.
   */
  lemma SphereHitIsLeastRoot(s: Sphere, ray: Ray, m: Libm, t: real)
    requires m.Valid() && SphereCollides(s, ray, m) == Ok(Some(t))
    ensures t > 0.0 && OnSphere(s, ray, t)
    ensures forall u :: u > 0.0 && OnSphere(s, ray, u) ==> t <= u
  {
    var a := SphereA(ray);
    var b := SphereB(s, ray);
    var c := SphereC(s, ray);
    var delta := SphereDelta(s, ray);
    ZeroDirection(s, ray);
    Sqrt(m, delta);
    var sq := m.sqrt(delta);
    var t1 := (-b - sq) / (2.0 * a);
    var t2 := (-b + sq) / (2.0 * a);
    assert t1 <= t2 by {
      assert -b - sq <= -b + sq;
    }
    assert FirstPositive(t1, t2) == Some(t);
    RootsOfQuadratic(a, b, c, sq, t);
    OnSphereIffRoot(s, ray, t);
    forall u | u > 0.0 && OnSphere(s, ray, u)
      ensures t <= u
    {
      OnSphereIffRoot(s, ray, u);
      RootsOfQuadratic(a, b, c, sq, u);
    }
  }

  /** No collision means the ray meets the sphere at no positive distance. */
  lemma SphereMissHasNoRoot(s: Sphere, ray: Ray, m: Libm, u: real)
    requires m.Valid() && SphereCollides(s, ray, m) == Ok(None)
    requires u > 0.0
    ensures !OnSphere(s, ray, u)
  {
    var a := SphereA(ray);
    var b := SphereB(s, ray);
    var c := SphereC(s, ray);
    var delta := SphereDelta(s, ray);
    ZeroDirection(s, ray);
    OnSphereIffRoot(s, ray, u);
    if delta >= 0.0 {
      Sqrt(m, delta);
      var sq := m.sqrt(delta);
      assert FirstPositive((-b - sq) / (2.0 * a), (-b + sq) / (2.0 * a)) == None;
      RootsOfQuadratic(a, b, c, sq, u);
    } else {
      NoRootsOfQuadratic(a, b, c, u);
    }
  }

  /** A ray from the origin along `+z` meets the unit sphere centred at `(0, 0, 2)` one unit ahead. */
  lemma UnitSphereAhead(mat: Material, m: Libm)
    requires m.Valid()
    ensures SphereCollides(Sphere(Vec3(0.0, 0.0, 2.0), 1.0, mat), Ray(Zero, Vec3(0.0, 0.0, 1.0)), m) == Ok(Some(1.0))
  {
    UnitSphereCoefficients(mat);
    UnitSphereRoot(m);
  }

  /** The same collision, through the `DynamicRenderable` dispatch. */
  lemma UnitSphereObjectAhead(mat: Material, m: Libm, hit: PlaneHit)
    requires m.Valid()
    ensures CollidesWith(SphereObject(Sphere(Vec3(0.0, 0.0, 2.0), 1.0, mat)), Ray(Zero, Vec3(0.0, 0.0, 1.0)), m, hit)
      == Ok(Some(1.0))
  {
    UnitSphereAhead(mat, m);
  }

  lemma UnitSphereCoefficients(mat: Material)
    ensures SphereA(Ray(Zero, Vec3(0.0, 0.0, 1.0))) == 1.0
    ensures SphereB(Sphere(Vec3(0.0, 0.0, 2.0), 1.0, mat), Ray(Zero, Vec3(0.0, 0.0, 1.0))) == -4.0
    ensures SphereDelta(Sphere(Vec3(0.0, 0.0, 2.0), 1.0, mat), Ray(Zero, Vec3(0.0, 0.0, 1.0))) == 4.0
  {
    assert SphereC(Sphere(Vec3(0.0, 0.0, 2.0), 1.0, mat), Ray(Zero, Vec3(0.0, 0.0, 1.0))) == 3.0;
  }

  /** `t^2 - 4t + 3` has the roots 1 and 3; the nearer one is taken. */
  lemma UnitSphereRoot(m: Libm)
    requires m.Valid()
    ensures SolveQuadratic(1.0, -4.0, 4.0, m) == Ok(Some(1.0))
  {
    SqrtIs(m, 4.0, 2.0);
  }

  /** `Sphere::normal_at`: the normalised offset from the centre. */
  function SphereNormal(s: Sphere, pos: Vec3, m: Libm): Vec3 {
    Normalize(Sub(pos, s.position), m)
  }

  /** Away from the centre the sphere normal has unit length. */
  lemma SphereNormalUnit(s: Sphere, pos: Vec3, m: Libm)
    requires m.Valid() && pos != s.position
    ensures Magnitude2(SphereNormal(s, pos, m)) == 1.0
  {
    assert Sub(pos, s.position) != Zero;
    NormalizeUnit(Sub(pos, s.position), m);
  }

  /** On the surface of a sphere of positive radius the normal is `(p - centre) / radius`. */
  lemma SphereNormalOnSurface(s: Sphere, pos: Vec3, m: Libm)
    requires m.Valid() && s.radius > 0.0
    requires Magnitude2(Sub(pos, s.position)) == s.radius * s.radius
    ensures SphereNormal(s, pos, m) == Scale(1.0 / s.radius, Sub(pos, s.position))
  {
    SqrtOfSquare(m, s.radius);
  }

  // ---------------------------------------------------------------------
  // Dispatch

  /**
    `collides_with` on a `DynamicRenderable`.  A plane delegates to
    `Ray::collide_plane` with its stored point and normal; a triangle reaches
    `unimplemented!()`.
   */
  function CollidesWith(o: DynamicRenderable, ray: Ray, m: Libm, hit: PlaneHit): (r: Result<Option<real>, Panic>)
    ensures o.PlaneObject? ==> r == Ok(hit(ray, o.plane.point, o.plane.normal))
    ensures o.SphereObject? ==> r == SphereCollides(o.sphere, ray, m)
    ensures o.SphereObject? && r.Ok? && r.value.Some? ==> r.value.value > 0.0
    ensures o.TriangleObject? ==> r.Err? && r.error.Unimplemented?
  {
    match o
    case PlaneObject(p) => Ok(hit(ray, p.point, p.normal))
    case SphereObject(s) => SphereCollides(s, ray, m)
    case TriangleObject(_) => Err(Unimplemented("Triangle::collides_with"))
  }

  /** `material`: every variant returns its stored material, the triangle included. */
  function MaterialOf(o: DynamicRenderable): Material {
    match o
    case PlaneObject(p) => p.material
    case SphereObject(s) => s.material
    case TriangleObject(t) => t.material
  }

  /**
    `normal_at`: a plane returns its stored normal wherever it is asked, a
    sphere the normalised offset from its centre, and a triangle reaches
    `unimplemented!()`.
   */
  function NormalAt(o: DynamicRenderable, pos: Vec3, m: Libm): (r: Result<Vec3, Panic>)
    ensures o.PlaneObject? ==> r == Ok(o.plane.normal)
    ensures o.SphereObject? ==> r == Ok(SphereNormal(o.sphere, pos, m))
    ensures o.TriangleObject? ==> r.Err? && r.error.Unimplemented?
  {
    match o
    case PlaneObject(p) => Ok(p.normal)
    case SphereObject(s) => Ok(SphereNormal(s, pos, m))
    case TriangleObject(_) => Err(Unimplemented("Triangle::normal_at"))
  }
}
