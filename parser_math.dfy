/** Triangle normals computed while parsing (asgn2/src/parser/math.rs). */
module ParserMath {
  import opened Vectors
  import opened Wrappers
  import opened Panics

  /**
    `normal_from_points`: `(v1 - v2) x (v2 - v3)`, neither normalised nor
    checked for degenerate triangles.
   */
  function NormalFromPoints(v1: Vec3, v2: Vec3, v3: Vec3): Vec3 {
    Cross(Sub(v1, v2), Sub(v2, v3))
  }

  /** The normal is orthogonal to both edges it is computed from. */
  lemma NormalFromPointsOrthogonal(v1: Vec3, v2: Vec3, v3: Vec3)
    ensures Dot(NormalFromPoints(v1, v2, v3), Sub(v1, v2)) == 0.0
    ensures Dot(NormalFromPoints(v1, v2, v3), Sub(v2, v3)) == 0.0
  {
    CrossOrthogonal(Sub(v1, v2), Sub(v2, v3));
  }

  /** Exchanging the first two vertices reverses the winding and negates the normal. */
  lemma NormalFromPointsSwap(v1: Vec3, v2: Vec3, v3: Vec3)
    ensures NormalFromPoints(v2, v1, v3) == Scale(-1.0, NormalFromPoints(v1, v2, v3))
  {
  }

  /** Rotating the vertices keeps the winding and the normal. */
  lemma NormalFromPointsRotate(v1: Vec3, v2: Vec3, v3: Vec3)
    ensures NormalFromPoints(v2, v3, v1) == NormalFromPoints(v1, v2, v3)
  {
  }

  /**
    Collinear points, where one edge is a multiple of the other (duplicate
    points included), give the zero vector.
   */
  lemma NormalFromPointsCollinear(v1: Vec3, v2: Vec3, v3: Vec3, k: real)
    requires Sub(v1, v2) == Scale(k, Sub(v2, v3))
    ensures NormalFromPoints(v1, v2, v3) == Zero
  {
  }

  /** A repeated vertex is the degenerate case `k = 0` or a zero second edge. */
  lemma NormalFromPointsRepeated(v1: Vec3, v2: Vec3, v3: Vec3)
    requires v1 == v2 || v2 == v3
    ensures NormalFromPoints(v1, v2, v3) == Zero
  {
  }

  /** `normal_from_normals` is `unimplemented!()`: every call panics. */
  function NormalFromNormals(v1: Vec3, v2: Vec3, v3: Vec3, n1: Vec3, n2: Vec3, n3: Vec3): (r: Result<Vec3, Panic>)
    ensures r.Err? && r.error.Unimplemented?
  {
    Err(Unimplemented("normal_from_normals"))
  }
}
