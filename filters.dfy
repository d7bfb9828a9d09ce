/**
  The per-pixel filters of the asgn1 driver (asgn1/src/main.rs): each arm
  builds a new image of the same size with `Image::from_fn`, computing every
  pixel from the pixel at the same place.
 */
module Filters {
  import opened Images
  import opened Wrappers
  import opened Panics
  import opened Sampling

  /** `0.3 * r + 0.6 * g + 0.1 * b`. */
  function Luminosity(p: Pixel): real {
    0.3 * p.r + 0.6 * p.g + 0.1 * p.b
  }

  /** The weights sum to one: a grey pixel's luminosity is its level. */
  lemma LuminosityOfGrey(v: real, a: real)
    ensures Luminosity(Pixel(v, v, v, a)) == v
  {
  }

  /** Luminosity of a pixel in `[0, 1]` lies in `[0, 1]`. */
  lemma LuminosityInUnitRange(p: Pixel)
    requires InUnitRange(p)
    ensures 0.0 <= Luminosity(p) <= 1.0
  {
  }

  // ---------------------------------------------------------------- Brighten

  /** `Brighten(f)`: the colour channels times `f`, alpha kept. */
  function BrightenPixel(p: Pixel, f: real): Pixel {
    Pixel(p.r * f, p.g * f, p.b * f, p.a)
  }

  function Brighten(img: Image<Pixel>, f: real): (out: Image<Pixel>)
    requires Valid(img)
    ensures Valid(out) && out.width == img.width && out.height == img.height
    ensures forall x, y :: 0 <= x < img.width && 0 <= y < img.height ==>
              var p, q := At(img, x, y), At(out, x, y);
              q.r == p.r * f && q.g == p.g * f && q.b == p.b * f && q.a == p.a
  {
    Map(img, p => BrightenPixel(p, f))
  }

  /** Brightening by `f` and then by `g` is brightening by `f * g`. */
  lemma BrightenTwice(img: Image<Pixel>, f: real, g: real)
    requires Valid(img)
    ensures Brighten(Brighten(img, f), g) == Brighten(img, f * g)
  {
    var twice := Brighten(Brighten(img, f), g);
    var once := Brighten(img, f * g);
    forall x, y | 0 <= x < img.width && 0 <= y < img.height
      ensures At(twice, x, y) == At(once, x, y)
    {
      BrightenPixelTwice(At(img, x, y), f, g);
    }
    ImageExtensionality(twice, once);
  }

  lemma BrightenPixelTwice(p: Pixel, f: real, g: real)
    ensures BrightenPixel(BrightenPixel(p, f), g) == BrightenPixel(p, f * g)
  {
    calc {
      BrightenPixel(BrightenPixel(p, f), g);
      Pixel(p.r * f * g, p.g * f * g, p.b * f * g, p.a);
      { Associate(p.r, p.g, p.b, p.a, f, g); }
      Pixel(p.r * (f * g), p.g * (f * g), p.b * (f * g), p.a);
      BrightenPixel(p, f * g);
    }
  }

  lemma Associate(r: real, g: real, b: real, a: real, f: real, k: real)
    ensures Pixel(r * f * k, g * f * k, b * f * k, a) == Pixel(r * (f * k), g * (f * k), b * (f * k), a)
  {
  }

  /** Brightening by one changes nothing; alpha is never changed. */
  lemma BrightenByOne(img: Image<Pixel>)
    requires Valid(img)
    ensures Brighten(img, 1.0) == img
  {
    var out := Brighten(img, 1.0);
    forall x, y | 0 <= x < img.width && 0 <= y < img.height
      ensures At(out, x, y) == At(img, x, y)
    {
      var p := At(img, x, y);
      assert BrightenPixel(p, 1.0) == Pixel(p.r, p.g, p.b, p.a);
    }
    ImageExtensionality(out, img);
  }

  // ----------------------------------------------------------------- Channel

  /**
    `Channel(ch)`: `m = [0.0; 3]; m[ch] = 1.0` multiplies the colour
    channels, so only channel `ch` survives; alpha is kept.
   */
  function KeepChannel(p: Pixel, ch: nat): Pixel
    requires ch < 3
  {
    var m := [0.0, 0.0, 0.0][ch := 1.0];
    Pixel(p.r * m[0], p.g * m[1], p.b * m[2], p.a)
  }

  /**
    `m[ch] = 1.0` panics for `ch >= 3`, at the first pixel; an image with no
    pixels never runs the closure.
   */
  function Channel(img: Image<Pixel>, ch: nat): (r: Result<Image<Pixel>, Panic>)
    requires Valid(img)
    ensures r.Err? <==> ch >= 3 && img.width > 0 && img.height > 0
    ensures r.Err? ==> r.error.IndexOutOfBounds?
    ensures r.Ok? ==> Valid(r.value) && r.value.width == img.width && r.value.height == img.height
  {
    if ch >= 3 then
      if img.width > 0 && img.height > 0 then Err(IndexOutOfBounds("Filter::Channel"))
      else Ok(Image(img.width, img.height, img.rows))
    else
      Ok(Map(img, p => KeepChannel(p, ch)))
  }

  /** The colour channel `i` of a pixel. */
  function Colour(p: Pixel, i: nat): real
    requires i < 3
  {
    if i == 0 then p.r else if i == 1 then p.g else p.b
  }

  /** Channel `ch` is kept, the other two colour channels are zero, and alpha is kept. */
  lemma ChannelKeepsOne(img: Image<Pixel>, ch: nat, x: nat, y: nat, i: nat)
    requires Valid(img) && ch < 3 && x < img.width && y < img.height && i < 3
    ensures Colour(At(Channel(img, ch).value, x, y), i) == (if i == ch then Colour(At(img, x, y), i) else 0.0)
    ensures At(Channel(img, ch).value, x, y).a == At(img, x, y).a
  {
  }

  /** Extracting the same channel again changes nothing. */
  lemma ChannelIdempotent(img: Image<Pixel>, ch: nat)
    requires Valid(img) && ch < 3
    ensures Channel(Channel(img, ch).value, ch) == Channel(img, ch)
  {
    var once := Channel(img, ch).value;
    var twice := Channel(once, ch).value;
    forall x, y | 0 <= x < img.width && 0 <= y < img.height
      ensures At(twice, x, y) == At(once, x, y)
    {
    }
    ImageExtensionality(twice, once);
  }

  // --------------------------------------------------------------- Grayscale

  /** `Grayscale`: every colour channel becomes the luminosity; alpha is kept. */
  function GreyPixel(p: Pixel): Pixel {
    var l := Luminosity(p);
    Pixel(l, l, l, p.a)
  }

  function Grayscale(img: Image<Pixel>): (out: Image<Pixel>)
    requires Valid(img)
    ensures Valid(out) && out.width == img.width && out.height == img.height
    ensures forall x, y :: 0 <= x < img.width && 0 <= y < img.height ==>
              var p, q := At(img, x, y), At(out, x, y);
              q.r == q.g == q.b == 0.3 * p.r + 0.6 * p.g + 0.1 * p.b && q.a == p.a
  {
    Map(img, GreyPixel)
  }

  /** Every pixel of a grey image has equal colour channels, and turning it grey again changes nothing. */
  lemma GrayscaleIdempotent(img: Image<Pixel>)
    requires Valid(img)
    ensures forall x, y :: 0 <= x < img.width && 0 <= y < img.height ==>
              At(Grayscale(img), x, y).r == At(Grayscale(img), x, y).g == At(Grayscale(img), x, y).b
    ensures Grayscale(Grayscale(img)) == Grayscale(img)
  {
    var once := Grayscale(img);
    var twice := Grayscale(once);
    forall x, y | 0 <= x < img.width && 0 <= y < img.height
      ensures At(twice, x, y) == At(once, x, y)
    {
      var p := At(img, x, y);
      LuminosityOfGrey(Luminosity(p), p.a);
    }
    ImageExtensionality(twice, once);
  }

  // ---------------------------------------------------- BlackWhiteLuminosity

  /** `BlackWhiteLuminosity(cutoff)`: white where the luminosity exceeds the cutoff, black elsewhere. */
  function BlackWhitePixel(p: Pixel, cutoff: real): Pixel {
    var n := if Luminosity(p) > cutoff then 1.0 else 0.0;
    Pixel(n, n, n, p.a)
  }

  function BlackWhite(img: Image<Pixel>, cutoff: real): (out: Image<Pixel>)
    requires Valid(img)
    ensures Valid(out) && out.width == img.width && out.height == img.height
  {
    Map(img, p => BlackWhitePixel(p, cutoff))
  }

  /**
    Every colour channel of the result is 1 exactly where the luminosity
    exceeds the cutoff, and 0 elsewhere.
   */
  lemma BlackWhiteThreshold(img: Image<Pixel>, cutoff: real, x: nat, y: nat)
    requires Valid(img) && x < img.width && y < img.height
    ensures var q := At(BlackWhite(img, cutoff), x, y);
            q.r == q.g == q.b && (q.r == 1.0 <==> Luminosity(At(img, x, y)) > cutoff) && (q.r == 0.0 <==> Luminosity(At(img, x, y)) <= cutoff)
    ensures At(BlackWhite(img, cutoff), x, y).a == At(img, x, y).a
  {
  }

  /** The threshold depends only on luminosity, so greying first changes nothing. */
  lemma BlackWhiteAfterGrayscale(img: Image<Pixel>, cutoff: real)
    requires Valid(img)
    ensures BlackWhite(Grayscale(img), cutoff) == BlackWhite(img, cutoff)
  {
    var a := BlackWhite(Grayscale(img), cutoff);
    var b := BlackWhite(img, cutoff);
    forall x, y | 0 <= x < img.width && 0 <= y < img.height
      ensures At(a, x, y) == At(b, x, y)
    {
      var p := At(img, x, y);
      LuminosityOfGrey(Luminosity(p), p.a);
    }
    ImageExtensionality(a, b);
  }

  /** With a cutoff in `[0, 1)` a black-and-white image maps to itself. */
  lemma BlackWhiteIdempotent(img: Image<Pixel>, cutoff: real)
    requires Valid(img) && 0.0 <= cutoff < 1.0
    ensures BlackWhite(BlackWhite(img, cutoff), cutoff) == BlackWhite(img, cutoff)
  {
    var once := BlackWhite(img, cutoff);
    var twice := BlackWhite(once, cutoff);
    forall x, y | 0 <= x < img.width && 0 <= y < img.height
      ensures At(twice, x, y) == At(once, x, y)
    {
      var q := At(once, x, y);
      LuminosityOfGrey(q.r, q.a);
    }
    ImageExtensionality(twice, once);
  }

  // -------------------------------------------------------------- Quantitize

  function Pow2(n: nat): (p: nat)
    ensures p >= 1 && (n > 0 ==> p >= 2)
  {
    if n == 0 then 1 else 2 * Pow2(n - 1)
  }

  /** `(bits as f32).exp2() - 1.0`: the number of steps between 0 and 1. */
  function Levels(bits: nat): (m: nat)
    ensures bits > 0 ==> m >= 1
  {
    Pow2(bits) - 1
  }

  /** `(v * max).round()`: the number of whole steps `1 / max` nearest to `v`. */
  function Steps(v: real, max: nat): int {
    Round(v * max as real)
  }

  /** `(v * max).round() / max`. */
  function Level(v: real, max: nat): real
    requires max > 0
  {
    Steps(v, max) as real / max as real
  }

  /** `Quantitize(bits)`: every colour channel rounded to a level; alpha kept. */
  function QuantizePixel(p: Pixel, max: nat): Pixel
    requires max > 0
  {
    Pixel(Level(p.r, max), Level(p.g, max), Level(p.b, max), p.a)
  }

  /**
    With `bits = 0` there is one level and `max` is zero, so every colour
    channel becomes `0 / 0`, which is NaN for `f32`.
   */
  function Quantize(img: Image<Pixel>, bits: nat): (r: Result<Image<Pixel>, Panic>)
    requires Valid(img)
    ensures r.Err? <==> bits == 0 && img.width > 0 && img.height > 0
    ensures r.Err? ==> r.error.Degenerate?
    ensures r.Ok? ==> Valid(r.value) && r.value.width == img.width && r.value.height == img.height
    ensures r.Ok? && bits > 0 ==> forall x, y :: 0 <= x < img.width && 0 <= y < img.height ==>
              At(r.value, x, y) == QuantizePixel(At(img, x, y), Levels(bits))
  {
    if bits == 0 then
      if img.width > 0 && img.height > 0 then Err(Degenerate("Filter::Quantitize"))
      else Ok(Image(img.width, img.height, img.rows))
    else
      Ok(Map(img, p => QuantizePixel(p, Levels(bits))))
  }

  /** A level is a whole number of steps `1 / max`. */
  lemma LevelIsStep(v: real, max: nat)
    requires max > 0
    ensures Level(v, max) * max as real == Steps(v, max) as real
  {
  }

  /** No multiple of `1 / max` is nearer to `v` than its level. */
  lemma LevelNearest(v: real, max: nat, k: int)
    requires max > 0
    ensures Abs(Level(v, max) - v) <= Abs(k as real / max as real - v)
  {
    StepsNearest(v, max, k);
    NearerScaled(Steps(v, max) as real, k as real, v, max as real);
  }

  lemma StepsNearest(v: real, max: nat, k: int)
    ensures Abs(Steps(v, max) as real - v * max as real) <= Abs(k as real - v * max as real)
  {
    RoundNearest(v * max as real, k);
  }

  /** Distances to `v * m` shrink by the factor `m` into distances to `v`. */
  lemma NearerScaled(a: real, b: real, v: real, m: real)
    requires m > 0.0 && Abs(a - v * m) <= Abs(b - v * m)
    ensures Abs(a / m - v) <= Abs(b / m - v)
  {
    ScaledDistance(a, v, m);
    ScaledDistance(b, v, m);
    DivideMonotone(Abs(a - v * m), Abs(b - v * m), m);
  }

  /** `|a / m - v| = |a - v m| / m` for `m > 0`. */
  lemma ScaledDistance(a: real, v: real, m: real)
    requires m > 0.0
    ensures Abs(a / m - v) == Abs(a - v * m) / m
  {
    assert a / m - v == (a - v * m) / m;
  }

  lemma DivideMonotone(a: real, b: real, m: real)
    requires a <= b && m > 0.0
    ensures a / m <= b / m
  {
    assert b / m - a / m == (b - a) / m;
  }

  lemma WithinScaled(a: real, v: real, m: real)
    requires m > 0.0 && Abs(a - v * m) <= 0.5
    ensures Abs(a / m - v) <= 0.5 / m
  {
    ScaledDistance(a, v, m);
    DivideMonotone(Abs(a - v * m), 0.5, m);
  }

  /** A level lies within half a step of the value. */
  lemma LevelError(v: real, max: nat)
    requires max > 0
    ensures Abs(Level(v, max) - v) <= 0.5 / max as real
  {
    var m := max as real;
    var u := v * m;
    assert Level(v, max) == Steps(v, max) as real / m;
    assert Steps(v, max) == Round(u);
    assert Abs(Round(u) as real - u) <= 0.5;
    WithinScaled(Round(u) as real, v, m);
  }

  /** Quantizing a level again leaves it where it is. */
  lemma LevelIdempotent(v: real, max: nat)
    requires max > 0
    ensures Level(Level(v, max), max) == Level(v, max)
  {
    LevelIsStep(v, max);
    assert Steps(Level(v, max), max) == Round(Steps(v, max) as real);
    RoundIntegral(Steps(v, max));
  }

  /** Values in `[0, 1]` have levels in `[0, 1]`. */
  lemma LevelInUnitRange(v: real, max: nat)
    requires max > 0 && 0.0 <= v <= 1.0
    ensures 0.0 <= Level(v, max) <= 1.0
  {
    var m := max as real;
    var u := v * m;
    UnitProduct(v, m);
    RoundMonotone(u, m);
    RoundIntegral(max);
    var n := Round(u) as real;
    assert 0.0 <= n <= m;
    assert Steps(v, max) == Round(u);
    assert Level(v, max) == n / m;
    UnitQuotient(n, m);
  }

  lemma UnitQuotient(n: real, m: real)
    requires 0.0 <= n <= m && m > 0.0
    ensures 0.0 <= n / m <= 1.0
  {
    DivideMonotone(0.0, n, m);
    DivideMonotone(n, m, m);
  }

  lemma UnitProduct(v: real, m: real)
    requires 0.0 <= v <= 1.0 && m > 0.0
    ensures 0.0 <= v * m <= m
  {
    assert m - v * m == (1.0 - v) * m;
  }

  /** Quantizing twice is quantizing once. */
  lemma QuantizeIdempotent(img: Image<Pixel>, bits: nat)
    requires Valid(img) && bits > 0
    ensures Quantize(Quantize(img, bits).value, bits) == Quantize(img, bits)
  {
    var once := Quantize(img, bits).value;
    var twice := Quantize(once, bits).value;
    forall x, y | 0 <= x < img.width && 0 <= y < img.height
      ensures At(twice, x, y) == At(once, x, y)
    {
      var p := At(img, x, y);
      LevelIdempotent(p.r, Levels(bits));
      LevelIdempotent(p.g, Levels(bits));
      LevelIdempotent(p.b, Levels(bits));
    }
    ImageExtensionality(twice, once);
  }
}
