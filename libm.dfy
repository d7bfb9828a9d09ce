/**
  The floating-point library functions the programs call, taken as parameters.
  `sqrt` is constrained by `Valid`; `tanDegrees` (the tangent of an angle given
  in degrees, `ha.to_radians().tan()`) is left unconstrained.
 */
module Libm {

  datatype Libm = Libm(sqrt: real -> real, tanDegrees: real -> real) {

    /** `sqrt` returns the non-negative square root of every non-negative real. */
    ghost predicate Valid() {
      forall x: real :: IsSqrtAt(sqrt, x)
    }
  }

  /**
    `f` behaves as the square root at `x`.  Kept as a named predicate so that
    `Valid` is only instantiated where a proof asks for it (through `Sqrt`).
   */
  ghost predicate IsSqrtAt(f: real -> real, x: real) {
    x >= 0.0 ==> f(x) >= 0.0 && f(x) * f(x) == x
  }

  /** What `Valid` says about one argument. */
  lemma Sqrt(m: Libm, x: real)
    requires m.Valid() && x >= 0.0
    ensures m.sqrt(x) >= 0.0 && m.sqrt(x) * m.sqrt(x) == x
  {
    assert IsSqrtAt(m.sqrt, x);
  }

  /** A non-negative root is unique, so any such root is the one `sqrt` returns. */
  lemma SqrtIs(m: Libm, x: real, r: real)
    requires m.Valid()
    requires x >= 0.0 && r >= 0.0 && r * r == x
    ensures m.sqrt(x) == r
  {
    Sqrt(m, x);
    var s := m.sqrt(x);
    assert (s - r) * (s + r) == 0.0;
    if s + r != 0.0 {
      assert s - r == (s - r) * (s + r) / (s + r);
    }
  }

  /** The square root of a product of squares. */
  lemma SqrtOfSquare(m: Libm, k: real)
    requires m.Valid()
    ensures m.sqrt(k * k) == if k >= 0.0 then k else -k
  {
    var a := if k >= 0.0 then k else -k;
    assert a * a == k * k;
    SqrtIs(m, k * k, a);
  }

  /** The square root is zero exactly at zero. */
  lemma SqrtZero(m: Libm, x: real)
    requires m.Valid() && x >= 0.0
    ensures m.sqrt(x) == 0.0 <==> x == 0.0
  {
    if x == 0.0 {
      SqrtIs(m, x, 0.0);
    } else {
      Sqrt(m, x);
    }
  }
}
