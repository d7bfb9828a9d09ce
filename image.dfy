/**
  The images the asgn1 filters work on.  `Image` holds `Pixel`s of four
  `f32` channels (red, green, blue, alpha) whose arithmetic is
  channel-wise; the image crate's `RgbaImage` is the same grid over
  another pixel type, so images are generic in their pixel.
 */
module Images {

  datatype Pixel = Pixel(r: real, g: real, b: real, a: real)

  /** `Pixel::default()`: every channel zero. */
  const Blank: Pixel := Pixel(0.0, 0.0, 0.0, 0.0)

  /** `p + q`, channel by channel. */
  function Add(p: Pixel, q: Pixel): Pixel {
    Pixel(p.r + q.r, p.g + q.g, p.b + q.b, p.a + q.a)
  }

  /** `p * k`, every channel times `k`. */
  function Times(p: Pixel, k: real): Pixel {
    Pixel(p.r * k, p.g * k, p.b * k, p.a * k)
  }

  /** Scaling by two factors in either order gives the same pixel. */
  lemma TimesCommute(p: Pixel, c: real, w: real)
    ensures Times(Times(p, c), w) == Times(Times(p, w), c)
  {
    calc {
      Times(Times(p, c), w);
      Pixel(p.r * c * w, p.g * c * w, p.b * c * w, p.a * c * w);
      { SwapFactors(p.r, p.g, p.b, p.a, c, w); }
      Pixel(p.r * w * c, p.g * w * c, p.b * w * c, p.a * w * c);
      Times(Times(p, w), c);
    }
  }

  /** Scaling distributes over the sum of two pixels. */
  lemma TimesDistributes(p: Pixel, q: Pixel, w: real)
    ensures Times(Add(p, q), w) == Add(Times(p, w), Times(q, w))
  {
    calc {
      Times(Add(p, q), w);
      Pixel((p.r + q.r) * w, (p.g + q.g) * w, (p.b + q.b) * w, (p.a + q.a) * w);
      { DistributeFactor(p.r, p.g, p.b, p.a, q.r, q.g, q.b, q.a, w); }
      Pixel(p.r * w + q.r * w, p.g * w + q.g * w, p.b * w + q.b * w, p.a * w + q.a * w);
      Add(Times(p, w), Times(q, w));
    }
  }

  /** Two multiples of one pixel add up to the multiple by the summed factor. */
  lemma TimesCollect(p: Pixel, w: real, v: real)
    ensures Add(Times(p, w), Times(p, v)) == Times(p, w + v)
  {
    calc {
      Add(Times(p, w), Times(p, v));
      Pixel(p.r * w + p.r * v, p.g * w + p.g * v, p.b * w + p.b * v, p.a * w + p.a * v);
      { CollectFactors(p.r, p.g, p.b, p.a, w, v); }
      Times(p, w + v);
    }
  }

  // The channel arithmetic behind the three lemmas above, on plain reals:
  // the solver handles it far more cheaply than on pixel fields.

  lemma SwapFactors(r: real, g: real, b: real, a: real, c: real, w: real)
    ensures Pixel(r * c * w, g * c * w, b * c * w, a * c * w) == Pixel(r * w * c, g * w * c, b * w * c, a * w * c)
  {
  }

  lemma DistributeFactor(r: real, g: real, b: real, a: real, r2: real, g2: real, b2: real, a2: real, w: real)
    ensures Pixel((r + r2) * w, (g + g2) * w, (b + b2) * w, (a + a2) * w)
         == Pixel(r * w + r2 * w, g * w + g2 * w, b * w + b2 * w, a * w + a2 * w)
  {
  }

  lemma CollectFactors(r: real, g: real, b: real, a: real, w: real, v: real)
    ensures Pixel(r * w + r * v, g * w + g * v, b * w + b * v, a * w + a * v)
         == Pixel(r * (w + v), g * (w + v), b * (w + v), a * (w + v))
  {
  }

  /** Every channel lies in `[0, 1]`. */
  predicate InUnitRange(p: Pixel) {
    0.0 <= p.r <= 1.0 && 0.0 <= p.g <= 1.0 && 0.0 <= p.b <= 1.0 && 0.0 <= p.a <= 1.0
  }

  /** `u32::MAX`, the largest image dimension. */
  const U32Max: int := 0xFFFF_FFFF

  /**
    A `width` by `height` grid stored row by row: `rows[y][x]` is the pixel
    `image[(x, y)]`.
   */
  datatype Image<P> = Image(width: nat, height: nat, rows: seq<seq<P>>)

  /** The dimensions are `u32`s and every row holds `width` pixels. */
  predicate Valid<P>(img: Image<P>) {
    && img.width <= U32Max && img.height <= U32Max
    && |img.rows| == img.height
    && forall y :: 0 <= y < img.height ==> |img.rows[y]| == img.width
  }

  /** `image[(x, y)]`, which panics outside the image. */
  function At<P>(img: Image<P>, x: nat, y: nat): P
    requires Valid(img) && x < img.width && y < img.height
  {
    img.rows[y][x]
  }

  /**
    `Image::from_fn(w, h, |x, y| f(image[(x, y)]))`: the per-pixel maps of
    the filters.
   */
  function Map<P, Q>(img: Image<P>, f: P -> Q): (out: Image<Q>)
    requires Valid(img)
    ensures Valid(out) && out.width == img.width && out.height == img.height
    ensures forall x, y :: 0 <= x < img.width && 0 <= y < img.height ==> At(out, x, y) == f(At(img, x, y))
  {
    Image(img.width, img.height,
      seq(img.height, y requires 0 <= y < img.height =>
        seq(img.width, x requires 0 <= x < img.width => f(img.rows[y][x]))))
  }

  /** Two valid images are equal when they agree in size and in every pixel. */
  lemma {:induction false} ImageExtensionality<P>(a: Image<P>, b: Image<P>)
    requires Valid(a) && Valid(b) && a.width == b.width && a.height == b.height
    requires forall x, y :: 0 <= x < a.width && 0 <= y < a.height ==> At(a, x, y) == At(b, x, y)
    ensures a == b
  {
    forall y | 0 <= y < a.height
      ensures a.rows[y] == b.rows[y]
    {
      assert forall x :: 0 <= x < a.width ==> a.rows[y][x] == At(a, x, y);
    }
  }

  /** The pixel-wise sum of two images of the same size. */
  function AddImages(a: Image<Pixel>, b: Image<Pixel>): (out: Image<Pixel>)
    requires Valid(a) && Valid(b) && a.width == b.width && a.height == b.height
    ensures Valid(out) && out.width == a.width && out.height == a.height
    ensures forall x, y :: 0 <= x < a.width && 0 <= y < a.height ==> At(out, x, y) == Add(At(a, x, y), At(b, x, y))
  {
    Image(a.width, a.height,
      seq(a.height, y requires 0 <= y < a.height =>
        seq(a.width, x requires 0 <= x < a.width => Add(a.rows[y][x], b.rows[y][x]))))
  }

  /** Every pixel times `k`. */
  function ScaleImage(a: Image<Pixel>, k: real): (out: Image<Pixel>)
    requires Valid(a)
    ensures Valid(out) && out.width == a.width && out.height == a.height
    ensures forall x, y :: 0 <= x < a.width && 0 <= y < a.height ==> At(out, x, y) == Times(At(a, x, y), k)
  {
    Map(a, p => Times(p, k))
  }

  /** A `width` by `height` image of one colour. */
  function Constant(width: nat, height: nat, c: Pixel): (out: Image<Pixel>)
    requires width <= U32Max && height <= U32Max
    ensures Valid(out) && out.width == width && out.height == height
    ensures forall x, y :: 0 <= x < width && 0 <= y < height ==> At(out, x, y) == c
  {
    Image(width, height, seq(height, _ => seq(width, _ => c)))
  }
}
