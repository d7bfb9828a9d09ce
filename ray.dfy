/** A ray: a start point and a direction (asgn2/src/ray.rs). */
module Rays {
  import opened Libm
  import opened Vectors
  import opened Wrappers

  /** `Ray` is `Copy`: a value, never changed by `project`. */
  datatype Ray = Ray(origin: Vec3, direction: Vec3)

  /**
    `Ray::collide_plane(point, normal)`, whose body is not part of this
    model: callers pass it in.
   */
  type PlaneHit = (Ray, Vec3, Vec3) -> Option<real>

  /** `project`: the point `distance` along the ray. */
  function Project(ray: Ray, distance: real): (p: Vec3)
    ensures Sub(p, ray.origin) == Scale(distance, ray.direction)
    ensures distance == 0.0 ==> p == ray.origin
  {
    Add(ray.origin, Scale(distance, ray.direction))
  }

  /** Projection is affine in the distance. */
  lemma ProjectAffine(ray: Ray, d1: real, d2: real)
    ensures Project(ray, d1 + d2) == Add(Project(ray, d1), Scale(d2, ray.direction))
    ensures Sub(Project(ray, d2), Project(ray, d1)) == Scale(d2 - d1, ray.direction)
  {
  }

  /** Along a unit direction the projected point lies exactly `|d|` away from the origin. */
  lemma ProjectDistance(ray: Ray, d: real, m: Libm)
    requires m.Valid() && Magnitude2(ray.direction) == 1.0
    ensures Magnitude(Sub(Project(ray, d), ray.origin), m) == Abs(d)
  {
    var v := Sub(Project(ray, d), ray.origin);
    assert v == Scale(d, ray.direction);
    MagnitudeScale(d, ray.direction, m);
    MagnitudeNonNegative(ray.direction, m);
    SqrtOfSquare(m, 1.0);
  }
}
