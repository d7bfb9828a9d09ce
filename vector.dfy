/**
  Three-component vectors over the reals, standing for cgmath's `Vector3<f32>`.
  Lengths go through the `sqrt` of a `Libm.Libm` record.
 */
module Vectors {
  import opened Libm

  datatype Vec3 = Vec3(x: real, y: real, z: real)

  const Zero: Vec3 := Vec3(0.0, 0.0, 0.0)

  function Add(a: Vec3, b: Vec3): Vec3 {
    Vec3(a.x + b.x, a.y + b.y, a.z + b.z)
  }

  function Sub(a: Vec3, b: Vec3): Vec3 {
    Vec3(a.x - b.x, a.y - b.y, a.z - b.z)
  }

  /** `k * v`, a scalar times a vector. */
  function Scale(k: real, v: Vec3): Vec3 {
    Vec3(k * v.x, k * v.y, k * v.z)
  }

  function Dot(a: Vec3, b: Vec3): real {
    a.x * b.x + a.y * b.y + a.z * b.z
  }

  function Cross(a: Vec3, b: Vec3): Vec3 {
    Vec3(a.y * b.z - a.z * b.y, a.z * b.x - a.x * b.z, a.x * b.y - a.y * b.x)
  }

  /** cgmath's `magnitude2`, the squared length. */
  function Magnitude2(v: Vec3): real {
    Dot(v, v)
  }

  /** cgmath's `magnitude`. */
  function Magnitude(v: Vec3, m: Libm): real {
    m.sqrt(Magnitude2(v))
  }

  /**
    cgmath's `normalize`, `v * (1 / magnitude)`.  For the zero vector f32
    arithmetic yields NaN components; this model returns the zero vector.
   */
  function Normalize(v: Vec3, m: Libm): Vec3 {
    var n := Magnitude(v, m);
    if n == 0.0 then v else Scale(1.0 / n, v)
  }

  /**
    The cosine of cgmath's `a.angle(b)`, which is `atan2(|a x b|, a . b)`:
    `a . b / (|a| |b|)`.  When either vector is zero the angle is
    `atan2(0, 0) = 0`, whose cosine is 1.
   */
  function CosAngle(a: Vec3, b: Vec3, m: Libm): real {
    var n := Magnitude(a, m) * Magnitude(b, m);
    if n == 0.0 then 1.0 else Dot(a, b) / n
  }

  function Abs(k: real): (r: real)
    ensures r >= 0.0 && (r == k || r == -k)
  {
    if k >= 0.0 then k else -k
  }

  // ---------------------------------------------------------------------
  // Squares.  The facts are chained with `calc` so that the solver never has
  // to relate a square to another name for it.

  lemma Square(a: real)
    ensures a * a >= 0.0
    ensures a != 0.0 ==> a * a > 0.0
  {
    if a < 0.0 {
      assert a * a == (-a) * (-a);
    }
  }

  lemma SumOfSquares(a: real, b: real, c: real)
    ensures a * a + b * b + c * c >= 0.0
  {
    Square(a);
    Square(b);
    Square(c);
  }

  lemma SumOfSquaresPositive(a: real, b: real, c: real)
    requires a != 0.0 || b != 0.0 || c != 0.0
    ensures a * a + b * b + c * c > 0.0
  {
    Square(a);
    Square(b);
    Square(c);
  }

  lemma Magnitude2NonNegative(v: Vec3)
    ensures Magnitude2(v) >= 0.0
  {
    calc {
      Magnitude2(v);
    ==
      v.x * v.x + v.y * v.y + v.z * v.z;
    >= { SumOfSquares(v.x, v.y, v.z); }
      0.0;
    }
  }

  /** The squared length is positive exactly off the zero vector. */
  lemma Magnitude2Positive(v: Vec3)
    ensures Magnitude2(v) >= 0.0
    ensures v != Zero ==> Magnitude2(v) > 0.0
    ensures v == Zero ==> Magnitude2(v) == 0.0
  {
    Magnitude2NonNegative(v);
    if v != Zero {
      assert v.x != 0.0 || v.y != 0.0 || v.z != 0.0;
      calc {
        Magnitude2(v);
      ==
        v.x * v.x + v.y * v.y + v.z * v.z;
      > { SumOfSquaresPositive(v.x, v.y, v.z); }
        0.0;
      }
    }
  }

  lemma SquaredDistanceZero(p: Vec3, q: Vec3)
    requires p == q
    ensures Magnitude2(Sub(p, q)) == 0.0
  {
    Magnitude2Positive(Sub(p, q));
  }

  lemma SquaredDistancePositive(p: Vec3, q: Vec3)
    requires p != q
    ensures Magnitude2(Sub(p, q)) > 0.0
  {
    var v := Sub(p, q);
    assert v != Zero;
    Magnitude2Positive(v);
  }

  /** The squared distance between two points is positive exactly when they differ. */
  lemma SquaredDistance(p: Vec3, q: Vec3)
    ensures p == q ==> Magnitude2(Sub(p, q)) == 0.0
    ensures p != q ==> Magnitude2(Sub(p, q)) > 0.0
  {
    if p != q {
      SquaredDistancePositive(p, q);
    } else {
      SquaredDistanceZero(p, q);
    }
  }

  /** The squared length of `k v` is `k^2` times that of `v`. */
  lemma Magnitude2Scale(k: real, v: Vec3)
    ensures Magnitude2(Scale(k, v)) == k * k * Magnitude2(v)
  {
    assert (k * v.x) * (k * v.x) == k * k * (v.x * v.x);
    assert (k * v.y) * (k * v.y) == k * k * (v.y * v.y);
    assert (k * v.z) * (k * v.z) == k * k * (v.z * v.z);
  }

  lemma MagnitudeSquared(v: Vec3, m: Libm)
    requires m.Valid()
    ensures Magnitude(v, m) >= 0.0
    ensures Magnitude(v, m) * Magnitude(v, m) == Magnitude2(v)
  {
    Magnitude2NonNegative(v);
    Sqrt(m, Magnitude2(v));
  }

  /** The length is a non-negative square root of the squared length, zero exactly at zero. */
  lemma MagnitudeNonNegative(v: Vec3, m: Libm)
    requires m.Valid()
    ensures Magnitude(v, m) >= 0.0
    ensures Magnitude(v, m) * Magnitude(v, m) == Magnitude2(v)
    ensures Magnitude(v, m) == 0.0 <==> v == Zero
  {
    MagnitudeSquared(v, m);
    if v == Zero {
      MagnitudeOfZero(m);
    } else {
      MagnitudePositive(v, m);
    }
  }

  lemma MagnitudeOfZero(m: Libm)
    requires m.Valid()
    ensures Magnitude(Zero, m) == 0.0
  {
    SqrtIs(m, 0.0, 0.0);
  }

  lemma MagnitudePositive(v: Vec3, m: Libm)
    requires m.Valid() && v != Zero
    ensures Magnitude(v, m) > 0.0
  {
    Magnitude2Positive(v);
    MagnitudeSquared(v, m);
  }

  /** `|k v| = |k| |v|`. */
  lemma MagnitudeScale(k: real, v: Vec3, m: Libm)
    requires m.Valid()
    ensures Magnitude(Scale(k, v), m) == Abs(k) * Magnitude(v, m)
  {
    var a := Abs(k);
    var n := Magnitude(v, m);
    MagnitudeNonNegative(v, m);
    Magnitude2Scale(k, v);
    assert a * a == k * k;
    assert (a * n) * (a * n) == (a * a) * (n * n);
    assert a * n >= 0.0;
    SqrtIs(m, Magnitude2(Scale(k, v)), a * n);
  }

  /** `cross(a, b)` is orthogonal to both of its arguments. */
  lemma CrossOrthogonal(a: Vec3, b: Vec3)
    ensures Dot(Cross(a, b), a) == 0.0
    ensures Dot(Cross(a, b), b) == 0.0
  {
  }

  /** Swapping the arguments of the cross product negates it. */
  lemma CrossAntiCommutative(a: Vec3, b: Vec3)
    ensures Cross(b, a) == Scale(-1.0, Cross(a, b))
  {
  }

  /** Lagrange's identity: `|a x b|^2 = |a|^2 |b|^2 - (a . b)^2`. */
  lemma Lagrange(a: Vec3, b: Vec3)
    ensures Magnitude2(Cross(a, b)) == Magnitude2(a) * Magnitude2(b) - Dot(a, b) * Dot(a, b)
  {
  }

  /** A normalised non-zero vector has unit length and points the same way. */
  lemma NormalizeUnit(v: Vec3, m: Libm)
    requires m.Valid() && v != Zero
    ensures Magnitude(v, m) > 0.0
    ensures Magnitude2(Normalize(v, m)) == 1.0
    ensures Normalize(v, m) == Scale(1.0 / Magnitude(v, m), v)
  {
    var n := Magnitude(v, m);
    MagnitudeNonNegative(v, m);
    var k := 1.0 / n;
    Magnitude2Scale(k, v);
    calc {
      Magnitude2(Scale(k, v));
    ==
      k * k * Magnitude2(v);
    ==
      k * k * (n * n);
    == { assert k * k * (n * n) == (k * n) * (k * n); }
      (k * n) * (k * n);
    == { assert k * n == 1.0; }
      1.0;
    }
  }

  /** Scaling the normalised vector back by the magnitude gives the vector. */
  lemma NormalizeTimesMagnitude(v: Vec3, m: Libm)
    requires m.Valid()
    ensures Scale(Magnitude(v, m), Normalize(v, m)) == v
  {
    MagnitudeNonNegative(v, m);
    var n := Magnitude(v, m);
    if n != 0.0 {
      var k := 1.0 / n;
      assert n * k == 1.0;
      assert n * (k * v.x) == (n * k) * v.x;
      assert n * (k * v.y) == (n * k) * v.y;
      assert n * (k * v.z) == (n * k) * v.z;
    }
  }

  /** The normalised zero vector is the zero vector. */
  lemma NormalizeZero(m: Libm)
    requires m.Valid()
    ensures Normalize(Zero, m) == Zero
    ensures Magnitude(Zero, m) == 0.0
  {
    MagnitudeNonNegative(Zero, m);
  }

  /** For non-zero vectors the cosine of the angle has the sign of the dot product. */
  lemma CosAngleSign(a: Vec3, b: Vec3, m: Libm)
    requires m.Valid() && a != Zero && b != Zero
    ensures CosAngle(a, b, m) >= 0.0 <==> Dot(a, b) >= 0.0
  {
    MagnitudeNonNegative(a, m);
    MagnitudeNonNegative(b, m);
    var n := Magnitude(a, m) * Magnitude(b, m);
    assert n > 0.0;
  }
}
