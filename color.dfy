/**
  The colour algebra of the ray tracer (asgn2/src/util.rs): `Rgb<f32>`
  colours with three channels and the operations the tracer combines them
  with.
 */
module Colors {
  import opened Vectors

  datatype Rgb = Rgb(r: real, g: real, b: real)

  /** `BLACK`. */
  const Black: Rgb := Rgb(0.0, 0.0, 0.0)

  const White: Rgb := Rgb(1.0, 1.0, 1.0)

  predicate NonNegative(c: Rgb) {
    c.r >= 0.0 && c.g >= 0.0 && c.b >= 0.0
  }

  /** Every channel lies in `[0, 1]`. */
  predicate InUnitCube(c: Rgb) {
    0.0 <= c.r <= 1.0 && 0.0 <= c.g <= 1.0 && 0.0 <= c.b <= 1.0
  }

  function Max(a: real, b: real): (m: real)
    ensures m >= a && m >= b && (m == a || m == b)
  {
    if a >= b then a else b
  }

  /**
    The divisor `normalize_color_down` picks: the largest of `1.0` and the
    three channels (the `max` over `[1.0, r, g, b]`).
   */
  function ToneDivisor(c: Rgb): (n: real)
    ensures n >= 1.0 && n >= c.r && n >= c.g && n >= c.b
    ensures n == 1.0 || n == c.r || n == c.g || n == c.b
  {
    Max(Max(Max(1.0, c.r), c.g), c.b)
  }

  /** Dividing a value in `[0, n]` by `n >= 1` lands in `[0, 1]`. */
  lemma DivideIntoUnit(x: real, n: real)
    requires n >= 1.0 && 0.0 <= x <= n
    ensures 0.0 <= x / n <= 1.0
    ensures x == n ==> x / n == 1.0
  {
    assert x / n * n == x;
  }

  /**
    `normalize_color_down`: divides every channel by `max(1, r, g, b)`.
    A non-negative colour lands in `[0,1]^3`, one already there is unchanged,
    and an over-exposed non-negative colour comes out with its brightest
    channel at exactly 1.
   */
  function NormalizeColorDown(c: Rgb): (d: Rgb)
    ensures NonNegative(c) ==> InUnitCube(d)
    ensures InUnitCube(c) ==> d == c
    ensures NonNegative(c) && !InUnitCube(c) ==> d.r == 1.0 || d.g == 1.0 || d.b == 1.0
  {
    ScaledIntoUnit(c, ToneDivisor(c));
    Rgb(c.r / ToneDivisor(c), c.g / ToneDivisor(c), c.b / ToneDivisor(c))
  }

  /** Tone mapping keeps the ratios between the channels, the hue. */
  lemma NormalizeColorDownKeepsRatios(c: Rgb)
    ensures var d := NormalizeColorDown(c);
      d.r * c.g == d.g * c.r && d.g * c.b == d.b * c.g && d.b * c.r == d.r * c.b
  {
    RatiosKept(c, ToneDivisor(c));
  }

  lemma ScaledIntoUnit(c: Rgb, n: real)
    requires n >= 1.0 && n >= c.r && n >= c.g && n >= c.b
    ensures NonNegative(c) ==> InUnitCube(Rgb(c.r / n, c.g / n, c.b / n))
    ensures NonNegative(c) && (c.r == n || c.g == n || c.b == n) ==>
      c.r / n == 1.0 || c.g / n == 1.0 || c.b / n == 1.0
  {
    if NonNegative(c) {
      DivideIntoUnit(c.r, n);
      DivideIntoUnit(c.g, n);
      DivideIntoUnit(c.b, n);
    }
  }

  lemma RatiosKept(c: Rgb, n: real)
    requires n >= 1.0
    ensures (c.r / n) * c.g == (c.g / n) * c.r
    ensures (c.g / n) * c.b == (c.b / n) * c.g
    ensures (c.b / n) * c.r == (c.r / n) * c.b
  {
  }

  /** `add_colors`: the tone-mapped channel-wise sum. */
  function AddColors(a: Rgb, b: Rgb): (s: Rgb)
    ensures NonNegative(a) && NonNegative(b) ==> InUnitCube(s)
    ensures InUnitCube(Rgb(a.r + b.r, a.g + b.g, a.b + b.b)) ==> s == Rgb(a.r + b.r, a.g + b.g, a.b + b.b)
  {
    NormalizeColorDown(Rgb(a.r + b.r, a.g + b.g, a.b + b.b))
  }

  /** Blending is commutative. */
  lemma AddColorsCommutative(a: Rgb, b: Rgb)
    ensures AddColors(a, b) == AddColors(b, a)
  {
    assert Rgb(a.r + b.r, a.g + b.g, a.b + b.b) == Rgb(b.r + a.r, b.g + a.g, b.b + a.b);
  }

  /** Blending with black leaves a displayable colour unchanged. */
  lemma AddBlack(c: Rgb)
    requires InUnitCube(c)
    ensures AddColors(Black, c) == c
    ensures AddColors(c, Black) == c
  {
    assert Rgb(Black.r + c.r, Black.g + c.g, Black.b + c.b) == c;
    assert Rgb(c.r + Black.r, c.g + Black.g, c.b + Black.b) == c;
  }

  /** `clamp(x, 0.0, 1.0)` from num_traits. */
  function Clamp(x: real): (y: real)
    ensures 0.0 <= y <= 1.0
    ensures 0.0 <= x <= 1.0 ==> y == x
    ensures x < 0.0 ==> y == 0.0
    ensures x > 1.0 ==> y == 1.0
  {
    if x < 0.0 then 0.0 else if x > 1.0 then 1.0 else x
  }

  /** `clamp_color`: every channel clamped to `[0, 1]`. */
  function ClampColor(c: Rgb): (d: Rgb)
    ensures InUnitCube(d)
    ensures InUnitCube(c) ==> d == c
  {
    Rgb(Clamp(c.r), Clamp(c.g), Clamp(c.b))
  }

  /** Clamping twice is clamping once. */
  lemma ClampColorIdempotent(c: Rgb)
    ensures ClampColor(ClampColor(c)) == ClampColor(c)
  {
  }

  /** `mul_colors`: the channel-wise product. */
  function MulColors(a: Rgb, b: Rgb): (p: Rgb)
    ensures NonNegative(a) && NonNegative(b) ==> NonNegative(p)
    ensures InUnitCube(a) && InUnitCube(b) ==> InUnitCube(p)
    ensures a == White ==> p == b
    ensures a == Black ==> p == Black
  {
    ProductBounds(a.r, b.r);
    ProductBounds(a.g, b.g);
    ProductBounds(a.b, b.b);
    Rgb(a.r * b.r, a.g * b.g, a.b * b.b)
  }

  lemma ProductBounds(x: real, y: real)
    ensures x >= 0.0 && y >= 0.0 ==> x * y >= 0.0
    ensures 0.0 <= x <= 1.0 && 0.0 <= y <= 1.0 ==> x * y <= 1.0
  {
    if 0.0 <= x <= 1.0 && 0.0 <= y <= 1.0 {
      assert x * y <= 1.0 * y;
    }
  }

  lemma MulColorsCommutative(a: Rgb, b: Rgb)
    ensures MulColors(a, b) == MulColors(b, a)
  {
  }

  /** `scale_color`: every channel times `n`. */
  function ScaleColor(c: Rgb, n: real): (d: Rgb)
    ensures n == 0.0 ==> d == Black
    ensures n == 1.0 ==> d == c
    ensures n >= 0.0 && NonNegative(c) ==> NonNegative(d)
  {
    ProductBounds(c.r, n);
    ProductBounds(c.g, n);
    ProductBounds(c.b, n);
    Rgb(c.r * n, c.g * n, c.b * n)
  }

  /** `rgb_from_vector`. */
  function RgbFromVector(v: Vec3): Rgb {
    Rgb(v.x, v.y, v.z)
  }

  /** `vector_from_rgb`. */
  function VectorFromRgb(c: Rgb): Vec3 {
    Vec3(c.r, c.g, c.b)
  }

  /** The two conversions are mutual inverses. */
  lemma ColorVectorRoundTrip(c: Rgb, v: Vec3)
    ensures RgbFromVector(VectorFromRgb(c)) == c
    ensures VectorFromRgb(RgbFromVector(v)) == v
  {
  }
}
