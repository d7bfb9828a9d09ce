/**
  The `FloydSteinbergDither(bits)` arm of the asgn1 driver
  (asgn1/src/main.rs): a column-by-column scan that writes each quantized
  pixel into a fresh image and then adds shares of its quantization error to
  four neighbours.

  Every pixel is read from the unchanged input and written with `=`, so a
  share added to a pixel the scan has not reached yet is overwritten when
  the scan gets there. Only the 3/16 share sent down and to the left lands
  on a column that is already finished; `Dithered` states the result in
  closed form.
 */
module Dithering {
  import opened Images
  import opened Wrappers
  import opened Panics
  import opened Filters

  /** `img[(x, y)] = v`. */
  function Set(img: Image<Pixel>, x: nat, y: nat, v: Pixel): (out: Image<Pixel>)
    requires Valid(img) && x < img.width && y < img.height
    ensures Valid(out) && out.width == img.width && out.height == img.height
    ensures At(out, x, y) == v
    ensures forall i, j :: 0 <= i < img.width && 0 <= j < img.height && (i != x || j != y) ==> At(out, i, j) == At(img, i, j)
  {
    Image(img.width, img.height, img.rows[y := img.rows[y][x := v]])
  }

  /**
    The `add` closure: `img[(x + xo - 1, y + yo - 1)] += p` when that place
    is inside the image, nothing otherwise.
   */
  function Spread(img: Image<Pixel>, x: nat, y: nat, xo: nat, yo: nat, p: Pixel): (out: Image<Pixel>)
    requires Valid(img)
    ensures Valid(out) && out.width == img.width && out.height == img.height
    ensures forall i, j :: 0 <= i < img.width && 0 <= j < img.height ==>
              At(out, i, j) == if i + 1 == x + xo && j + 1 == y + yo then Add(At(img, i, j), p) else At(img, i, j)
  {
    if 1 <= x + xo < img.width + 1 && 1 <= y + yo < img.height + 1 then
      Set(img, x + xo - 1, y + yo - 1, Add(At(img, x + xo - 1, y + yo - 1), p))
    else
      img
  }

  /** `Pixel([r - qr, g - qg, b - qb, 1.0])`: the quantization error, with alpha one. */
  function QuantizationError(p: Pixel, max: nat): Pixel
    requires max > 0
  {
    var q := QuantizePixel(p, max);
    Pixel(p.r - q.r, p.g - q.g, p.b - q.b, 1.0)
  }

  /** The share of the error that survives at `(i, j)`: 3/16 of the error at `(i + 1, j - 1)`. */
  function Diverted(image: Image<Pixel>, max: nat, i: nat, j: nat): Pixel
    requires Valid(image) && max > 0 && i + 1 < image.width && 1 <= j < image.height
  {
    Times(QuantizationError(At(image, i + 1, j - 1), max), 3.0 / 16.0)
  }

  /**
    The value at `(i, j)` once every step of the scan before step `(x, y)`
    has run, for a pixel whose own step has run: its quantized value, plus
    the diverted share if step `(i + 1, j - 1)` has run too.
   */
  function Current(image: Image<Pixel>, max: nat, x: nat, y: nat, i: nat, j: nat): Pixel
    requires Valid(image) && max > 0 && i < image.width && j < image.height
  {
    var q := QuantizePixel(At(image, i, j), max);
    if i + 1 < image.width && 1 <= j && (i + 1 < x || (i + 1 == x && j - 1 < y)) then
      Add(q, Diverted(image, max, i, j))
    else
      q
  }

  /** Every pixel whose step comes before step `(x, y)` holds its current value. */
  predicate Scanned(image: Image<Pixel>, max: nat, img: Image<Pixel>, x: nat, y: nat)
    requires Valid(image) && max > 0 && Valid(img) && img.width == image.width && img.height == image.height
  {
    forall i, j :: 0 <= i < image.width && 0 <= j < image.height && (i < x || (i == x && j < y)) ==>
      At(img, i, j) == Current(image, max, x, y, i, j)
  }

  /**
    The finished image: every pixel quantized, and the pixels with a
    neighbour up and to the right carry 3/16 of that neighbour's error.
   */
  function Dithered(image: Image<Pixel>, max: nat): (out: Image<Pixel>)
    requires Valid(image) && max > 0
    ensures Valid(out) && out.width == image.width && out.height == image.height
    ensures forall i, j :: 0 <= i < image.width && 0 <= j < image.height ==>
              At(out, i, j) == Current(image, max, image.width, 0, i, j)
  {
    var rows := seq(image.height, j requires 0 <= j < image.height =>
      seq(image.width, i requires 0 <= i < image.width => Current(image, max, image.width, 0, i, j)));
    assert forall j :: 0 <= j < image.height ==> |rows[j]| == image.width;
    Image(image.width, image.height, rows)
  }

  /**
    `FloydSteinbergDither(bits)` up to the final `normalize`. With `bits = 0`
    every level is `0 / 0`, which is NaN for `f32`; an image with no pixels
    never computes one and stays the blank image it starts as.
   */
  function DitherFilter(image: Image<Pixel>, bits: nat): (r: Result<Image<Pixel>, Panic>)
    requires Valid(image)
    ensures r.Err? <==> bits == 0 && image.width > 0 && image.height > 0
    ensures r.Err? ==> r.error.Degenerate?
    ensures r.Ok? ==> Valid(r.value) && r.value.width == image.width && r.value.height == image.height
  {
    if bits == 0 then
      if image.width > 0 && image.height > 0 then Err(Degenerate("Filter::FloydSteinbergDither"))
      else Ok(Constant(image.width, image.height, Blank))
    else
      Ok(Dithered(image, Levels(bits)))
  }

  /** The scan itself, proved to compute `DitherFilter`. */
  method FloydSteinberg(image: Image<Pixel>, bits: nat) returns (r: Result<Image<Pixel>, Panic>)
    requires Valid(image)
    ensures r == DitherFilter(image, bits)
  {
    var w, h := image.width, image.height;
    var img := Constant(w, h, Blank);
    if bits == 0 {
      if w > 0 && h > 0 {
        return Err(Degenerate("Filter::FloydSteinbergDither"));
      }
      return Ok(img);
    }
    var max := Levels(bits);
    var x := 0;
    while x < w
      invariant 0 <= x <= w
      invariant Valid(img) && img.width == w && img.height == h
      invariant Scanned(image, max, img, x, 0)
    {
      var y := 0;
      while y < h
        invariant 0 <= y <= h
        invariant Valid(img) && img.width == w && img.height == h
        invariant Scanned(image, max, img, x, y)
      {
        img := Visit(image, max, img, x, y);
        y := y + 1;
      }
      NextColumn(image, max, img, x);
      x := x + 1;
    }
    ScanComplete(image, max, img);
    return Ok(img);
  }

  /**
    One step of the scan: `(x, y)` gets its quantized value and the four
    shares of its error go to `(x + 1, y)`, `(x - 1, y + 1)`, `(x, y + 1)` and
    `(x + 1, y + 1)` where those lie inside the image.
   */
  method Visit(image: Image<Pixel>, max: nat, img: Image<Pixel>, x: nat, y: nat) returns (out: Image<Pixel>)
    requires Valid(image) && max > 0 && x < image.width && y < image.height
    requires Valid(img) && img.width == image.width && img.height == image.height
    requires Scanned(image, max, img, x, y)
    ensures Valid(out) && out.width == image.width && out.height == image.height
    ensures Scanned(image, max, out, x, y + 1)
  {
    var p := At(image, x, y);
    var q := QuantizePixel(p, max);
    out := Set(img, x, y, q);
    var e := QuantizationError(p, max);
    out := Spread(out, x, y, 2, 1, Times(e, 7.0 / 16.0));
    out := Spread(out, x, y, 0, 2, Times(e, 3.0 / 16.0));
    out := Spread(out, x, y, 1, 2, Times(e, 5.0 / 16.0));
    out := Spread(out, x, y, 2, 2, Times(e, 1.0 / 16.0));
    ScanStep(image, max, img, out, x, y);
  }

  /** One step of the scan keeps every finished pixel at its current value. */
  lemma ScanStep(image: Image<Pixel>, max: nat, before: Image<Pixel>, after: Image<Pixel>, x: nat, y: nat)
    requires Valid(image) && max > 0 && x < image.width && y < image.height
    requires Valid(before) && before.width == image.width && before.height == image.height
    requires Valid(after) && after.width == image.width && after.height == image.height
    requires Scanned(image, max, before, x, y)
    requires At(after, x, y) == QuantizePixel(At(image, x, y), max)
    requires 1 <= x && y + 1 < image.height ==>
               At(after, x - 1, y + 1) == Add(At(before, x - 1, y + 1), Times(QuantizationError(At(image, x, y), max), 3.0 / 16.0))
    requires forall i, j :: 0 <= i < image.width && 0 <= j < image.height && i < x && (i + 1 != x || j != y + 1) ==>
               At(after, i, j) == At(before, i, j)
    requires forall j :: 0 <= j < y ==> At(after, x, j) == At(before, x, j)
    ensures Scanned(image, max, after, x, y + 1)
  {
  }

  /** A finished column is a finished scan up to the top of the next one. */
  lemma NextColumn(image: Image<Pixel>, max: nat, img: Image<Pixel>, x: nat)
    requires Valid(image) && max > 0 && x < image.width
    requires Valid(img) && img.width == image.width && img.height == image.height
    requires Scanned(image, max, img, x, image.height)
    ensures Scanned(image, max, img, x + 1, 0)
  {
    forall i, j | 0 <= i < image.width && 0 <= j < image.height && i < x + 1
      ensures At(img, i, j) == Current(image, max, x + 1, 0, i, j)
    {
      assert i < x || (i == x && j < image.height);
    }
  }

  /** A finished scan is the closed form. */
  lemma ScanComplete(image: Image<Pixel>, max: nat, img: Image<Pixel>)
    requires Valid(image) && max > 0
    requires Valid(img) && img.width == image.width && img.height == image.height
    requires Scanned(image, max, img, image.width, 0)
    ensures img == Dithered(image, max)
  {
    ImageExtensionality(img, Dithered(image, max));
  }

  /**
    Away from the pixels with a neighbour up and to the right (the last
    column and the top row) the dither is exactly `Quantitize`.
   */
  lemma DitherQuantizesEdges(image: Image<Pixel>, bits: nat, i: nat, j: nat)
    requires Valid(image) && bits > 0 && i < image.width && j < image.height
    requires i + 1 == image.width || j == 0
    ensures At(DitherFilter(image, bits).value, i, j) == At(Quantize(image, bits).value, i, j)
  {
  }

  /**
    Everywhere else the pixel is the quantized pixel plus 3/16 of the error
    up and to the right, so alpha rises by 3/16 there.
   */
  lemma DitherDivertsError(image: Image<Pixel>, bits: nat, i: nat, j: nat)
    requires Valid(image) && bits > 0 && i + 1 < image.width && 1 <= j < image.height
    ensures var e := QuantizationError(At(image, i + 1, j - 1), Levels(bits));
            At(DitherFilter(image, bits).value, i, j) == Add(At(Quantize(image, bits).value, i, j), Times(e, 3.0 / 16.0))
    ensures At(DitherFilter(image, bits).value, i, j).a == At(image, i, j).a + 3.0 / 16.0
  {
  }

  /** The four shares of the error sum to the whole error. */
  lemma SharesSumToError(e: Pixel)
    ensures Add(Add(Times(e, 7.0 / 16.0), Times(e, 3.0 / 16.0)), Add(Times(e, 5.0 / 16.0), Times(e, 1.0 / 16.0))) == e
  {
    TimesCollect(e, 7.0 / 16.0, 3.0 / 16.0);
    TimesCollect(e, 5.0 / 16.0, 1.0 / 16.0);
    TimesCollect(e, 10.0 / 16.0, 6.0 / 16.0);
  }
}
