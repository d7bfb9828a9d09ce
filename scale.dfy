/** Resizing an image by two factors (asgn1/src/scale.rs). */
module Scaling {
  import opened Images
  import opened Wrappers
  import opened Panics
  import opened Sampling

  /** `(n as f32 * f) as u32`: the scaled dimension, truncated toward zero. */
  function ScaledSize(n: nat, f: real): (m: nat)
    ensures m <= U32Max
  {
    TruncU32(n as real * f)
  }

  /** A non-empty scaled dimension needs a positive factor. */
  lemma ScaledSizePositive(n: nat, f: real)
    requires ScaledSize(n, f) > 0
    ensures f > 0.0
  {
  }

  /**
    The coordinate in the source image that the output coordinate `i` maps
    back to: `i as f32 / f`.
   */
  function SourceCoordinate(i: nat, n: nat, f: real): (v: real)
    requires i < ScaledSize(n, f)
    ensures 0.0 <= v
  {
    ScaledSizePositive(n, f);
    i as real / f
  }

  /** Every back-mapped coordinate lies before the end of the source: `i / f < n`. */
  lemma SourceCoordinateInside(i: nat, n: nat, f: real)
    requires i < ScaledSize(n, f)
    ensures SourceCoordinate(i, n, f) < n as real
  {
    ScaledSizePositive(n, f);
    assert (i as real) < n as real * f;
    assert i as real / f < n as real by {
      assert (i as real / f) * f == i as real;
    }
  }

  /**
    `scale::filter`: an image of the scaled size whose pixel `(x, y)` is the
    source sampled at `(x / f_x, y / f_y)`.  `RgbaImage::from_fn` fills the
    image row by row, so a sample that panics stops it there.
   */
  function Scale<P>(img: Image<P>, mode: SampleMode, fx: real, fy: real): (r: Result<Image<P>, Panic>)
    requires Valid(img)
    ensures r.Ok? <==> forall y :: 0 <= y < ScaledSize(img.height, fy) ==> ScaledRow(img, mode, fx, fy, y).Ok?
    ensures r.Ok? ==> Valid(r.value)
    ensures r.Ok? ==> r.value.width == ScaledSize(img.width, fx) && r.value.height == ScaledSize(img.height, fy)
    ensures r.Ok? ==> forall y :: 0 <= y < r.value.height ==> ScaledRow(img, mode, fx, fy, y) == Ok(r.value.rows[y])
    ensures r.Err? ==> exists y :: 0 <= y < ScaledSize(img.height, fy) && ScaledRow(img, mode, fx, fy, y) == Err(r.error)
  {
    var w := ScaledSize(img.width, fx);
    var h := ScaledSize(img.height, fy);
    var results := seq(h, y requires 0 <= y < h => ScaledRow(img, mode, fx, fy, y));
    assert forall y :: 0 <= y < h ==> results[y] == ScaledRow(img, mode, fx, fy, y);
    var rows := AllOk(results);
    if rows.Err? then
      Err(rows.error)
    else
      Ok(Image(w, h, rows.value))
  }

  /** One output pixel: the source sampled at the back-mapped point. */
  function ScaledSample<P>(img: Image<P>, mode: SampleMode, fx: real, fy: real, x: nat, y: nat): Result<P, Panic>
    requires Valid(img)
    requires x < ScaledSize(img.width, fx) && y < ScaledSize(img.height, fy)
  {
    Sample(mode, img, SourceCoordinate(x, img.width, fx), SourceCoordinate(y, img.height, fy))
  }

  /** Output row `y`, or the failure of its first pixel that panics. */
  function ScaledRow<P>(img: Image<P>, mode: SampleMode, fx: real, fy: real, y: nat): (r: Result<seq<P>, Panic>)
    requires Valid(img) && y < ScaledSize(img.height, fy)
    ensures r.Ok? <==> forall x :: 0 <= x < ScaledSize(img.width, fx) ==> ScaledSample(img, mode, fx, fy, x, y).Ok?
    ensures r.Ok? ==> |r.value| == ScaledSize(img.width, fx)
    ensures r.Ok? ==> forall x :: 0 <= x < ScaledSize(img.width, fx) ==> ScaledSample(img, mode, fx, fy, x, y) == Ok(r.value[x])
    ensures r.Err? ==> exists x :: 0 <= x < ScaledSize(img.width, fx) && ScaledSample(img, mode, fx, fy, x, y) == Err(r.error)
  {
    var w := ScaledSize(img.width, fx);
    var samples := seq(w, x requires 0 <= x < w => ScaledSample(img, mode, fx, fy, x, y));
    assert forall x :: 0 <= x < w ==> samples[x] == ScaledSample(img, mode, fx, fy, x, y);
    AllOk(samples)
  }

  /** A successful scaling holds the sample of every output pixel. */
  lemma ScalePixels<P>(img: Image<P>, mode: SampleMode, fx: real, fy: real)
    requires Valid(img) && Scale(img, mode, fx, fy).Ok?
    ensures forall x, y :: 0 <= x < ScaledSize(img.width, fx) && 0 <= y < ScaledSize(img.height, fy) ==>
              ScaledSample(img, mode, fx, fy, x, y) == Ok(At(Scale(img, mode, fx, fy).value, x, y))
  {
    var r := Scale(img, mode, fx, fy).value;
    forall x, y | 0 <= x < ScaledSize(img.width, fx) && 0 <= y < ScaledSize(img.height, fy)
      ensures ScaledSample(img, mode, fx, fy, x, y) == Ok(At(r, x, y))
    {
      assert ScaledRow(img, mode, fx, fy, y) == Ok(r.rows[y]);
    }
  }

  /** Scaling succeeds as soon as no sample panics. */
  lemma ScaleSucceeds<P>(img: Image<P>, mode: SampleMode, fx: real, fy: real)
    requires Valid(img)
    requires forall x, y :: 0 <= x < ScaledSize(img.width, fx) && 0 <= y < ScaledSize(img.height, fy) ==>
               ScaledSample(img, mode, fx, fy, x, y).Ok?
    ensures Scale(img, mode, fx, fy).Ok?
  {
    forall y | 0 <= y < ScaledSize(img.height, fy)
      ensures ScaledRow(img, mode, fx, fy, y).Ok?
    {
      assert forall x :: 0 <= x < ScaledSize(img.width, fx) ==> ScaledSample(img, mode, fx, fy, x, y).Ok?;
    }
  }

  /** A failed scaling reports the panic of one of its samples. */
  lemma ScaleFailure<P>(img: Image<P>, mode: SampleMode, fx: real, fy: real)
    requires Valid(img) && Scale(img, mode, fx, fy).Err?
    ensures exists x, y :: 0 <= x < ScaledSize(img.width, fx) && 0 <= y < ScaledSize(img.height, fy) &&
              ScaledSample(img, mode, fx, fy, x, y) == Err(Scale(img, mode, fx, fy).error)
  {
    var e := Scale(img, mode, fx, fy).error;
    var y :| 0 <= y < ScaledSize(img.height, fy) && ScaledRow(img, mode, fx, fy, y) == Err(e);
    var x :| 0 <= x < ScaledSize(img.width, fx) && ScaledSample(img, mode, fx, fy, x, y) == Err(e);
  }

  /** Scaling by one in both directions with Point sampling copies the image. */
  lemma ScaleByOne<P>(img: Image<P>)
    requires Valid(img)
    ensures Scale(img, Point, 1.0, 1.0) == Ok(img)
  {
    assert ScaledSize(img.width, 1.0) == img.width;
    assert ScaledSize(img.height, 1.0) == img.height;
    forall x, y | 0 <= x < img.width && 0 <= y < img.height
      ensures ScaledSample(img, Point, 1.0, 1.0, x, y) == Ok(At(img, x, y))
    {
      SampleAtPixel(img, x, y);
    }
    var r := Scale(img, Point, 1.0, 1.0);
    ImageExtensionality(r.value, img);
  }

  /** Bilinear and Gaussian scaling of a non-empty result is `unimplemented!()`. */
  lemma ScaleUnimplementedModes<P>(img: Image<P>, mode: SampleMode, fx: real, fy: real)
    requires Valid(img) && mode != Point
    requires ScaledSize(img.width, fx) > 0 && ScaledSize(img.height, fy) > 0
    ensures Scale(img, mode, fx, fy).Err? && Scale(img, mode, fx, fy).error.Unimplemented?
  {
    assert !ScaledSample(img, mode, fx, fy, 0, 0).Ok?;
    assert !ScaledRow(img, mode, fx, fy, 0).Ok?;
    ScaleFailure(img, mode, fx, fy);
  }

  /**
    Doubling with Point sampling panics on every non-empty image: the last
    output column maps back to `w - 0.5`, which rounds away from zero to
    the column `w` just past the image.
   */
  lemma ScaleByTwoPanics<P>(img: Image<P>)
    requires Valid(img) && img.width > 0 && img.height > 0
    requires 2 * img.width <= U32Max && 2 * img.height <= U32Max
    ensures Scale(img, Point, 2.0, 2.0).Err?
  {
    var w := ScaledSize(img.width, 2.0);
    assert w == 2 * img.width;
    assert ScaledSize(img.height, 2.0) > 0;
    var last := SourceCoordinate(w - 1, img.width, 2.0);
    assert last == img.width as real - 0.5;
    SamplePastEdge(img, last, SourceCoordinate(0, img.height, 2.0));
    assert !ScaledSample(img, Point, 2.0, 2.0, w - 1, 0).Ok?;
    assert !ScaledRow(img, Point, 2.0, 2.0, 0).Ok?;
  }

  /**
    The rounded Point index kept inside `[0, n)`: an index past the end
    becomes the last one.
   */
  function ClampIndex(v: real, n: nat): (i: nat)
    requires n > 0
    ensures i < n
  {
    if PointIndex(v) < n then PointIndex(v) else n - 1
  }

  /**
    The clamped index is a nearest index inside `[0, n)` to a non-negative
    coordinate: no index of the image is nearer.
   */
  lemma ClampIndexNearest(v: real, n: nat, k: nat)
    requires 0.0 <= v && k < n && n <= U32Max
    ensures Abs(ClampIndex(v, n) as real - v) <= Abs(k as real - v)
  {
    if PointIndex(v) < n {
      assert PointIndex(v) == Round(v);
      RoundNearest(v, k);
    } else {
      // Round(v) >= n, whether or not the cast saturated, so v >= n - 0.5.
      assert v >= n as real - 0.5;
      assert (n - 1) as real <= v;
    }
  }

  /**
    Scaling with the clamped Point index: never fails on a non-empty image,
    for any factors, and pixel `(x, y)` reads the source at the clamped
    indices of the back-mapped point.
   */
  function ScaleClamped<P>(img: Image<P>, fx: real, fy: real): (out: Image<P>)
    requires Valid(img) && img.width > 0 && img.height > 0
    ensures Valid(out)
    ensures out.width == ScaledSize(img.width, fx) && out.height == ScaledSize(img.height, fy)
    ensures forall x, y :: 0 <= x < out.width && 0 <= y < out.height ==>
              At(out, x, y) == At(img, ClampIndex(SourceCoordinate(x, img.width, fx), img.width),
                                       ClampIndex(SourceCoordinate(y, img.height, fy), img.height))
  {
    var w := ScaledSize(img.width, fx);
    var h := ScaledSize(img.height, fy);
    Image(w, h, seq(h, y requires 0 <= y < h =>
      seq(w, x requires 0 <= x < w =>
        At(img, ClampIndex(SourceCoordinate(x, img.width, fx), img.width),
                ClampIndex(SourceCoordinate(y, img.height, fy), img.height)))))
  }

  /**
    Every pixel of the clamped scaling reads a source pixel nearest to the
    back-mapped point: no column of the source is nearer in x and no row is
    nearer in y.
   */
  lemma ScaleClampedNearest<P>(img: Image<P>, fx: real, fy: real, x: nat, y: nat, k: nat, j: nat)
    requires Valid(img) && img.width > 0 && img.height > 0
    requires x < ScaledSize(img.width, fx) && y < ScaledSize(img.height, fy)
    requires k < img.width && j < img.height
    ensures var sx := SourceCoordinate(x, img.width, fx);
            var sy := SourceCoordinate(y, img.height, fy);
            var col := ClampIndex(sx, img.width);
            var row := ClampIndex(sy, img.height);
            At(ScaleClamped(img, fx, fy), x, y) == At(img, col, row)
            && Abs(col as real - sx) <= Abs(k as real - sx)
            && Abs(row as real - sy) <= Abs(j as real - sy)
  {
    ClampIndexNearest(SourceCoordinate(x, img.width, fx), img.width, k);
    ClampIndexNearest(SourceCoordinate(y, img.height, fy), img.height, j);
  }

  /**
    Wherever Point scaling succeeds, the clamped version gives the same
    image; it differs only where Point scaling would panic.
   */
  lemma ScaleClampedAgrees<P>(img: Image<P>, fx: real, fy: real)
    requires Valid(img) && img.width > 0 && img.height > 0
    requires Scale(img, Point, fx, fy).Ok?
    ensures Scale(img, Point, fx, fy) == Ok(ScaleClamped(img, fx, fy))
  {
    var r := Scale(img, Point, fx, fy).value;
    var c := ScaleClamped(img, fx, fy);
    ScalePixels(img, Point, fx, fy);
    forall x, y | 0 <= x < r.width && 0 <= y < r.height
      ensures At(r, x, y) == At(c, x, y)
    {
      assert ScaledSample(img, Point, fx, fy, x, y) == Ok(At(r, x, y));
    }
    ImageExtensionality(r, c);
  }

  /** Clamped doubling of a one-pixel image gives four copies of that pixel. */
  lemma ScaleClampedDoublesOnePixel<P>(img: Image<P>)
    requires Valid(img) && img.width == 1 && img.height == 1
    ensures ScaleClamped(img, 2.0, 2.0) == Image(2, 2, [[At(img, 0, 0), At(img, 0, 0)], [At(img, 0, 0), At(img, 0, 0)]])
  {
    var out := ScaleClamped(img, 2.0, 2.0);
    assert out.width == 2 && out.height == 2;
    var p := At(img, 0, 0);
    forall x, y | 0 <= x < 2 && 0 <= y < 2
      ensures At(out, x, y) == p
    {
    }
    ImageExtensionality(out, Image(2, 2, [[p, p], [p, p]]));
  }

  /**
    `scale::filter` with the rounded Point index kept inside the image:
    Point scaling then always succeeds, agrees with `Scale` wherever that
    succeeds, and the other modes are unchanged.
   */
  function ScaleFixed<P>(img: Image<P>, mode: SampleMode, fx: real, fy: real): (r: Result<Image<P>, Panic>)
    requires Valid(img)
    ensures mode == Point ==> r.Ok?
    ensures mode == Point && img.width > 0 && img.height > 0 ==> r == Ok(ScaleClamped(img, fx, fy))
    ensures r.Ok? ==> Valid(r.value)
    ensures r.Ok? ==> r.value.width == ScaledSize(img.width, fx) && r.value.height == ScaledSize(img.height, fy)
    ensures Scale(img, mode, fx, fy).Ok? ==> r == Scale(img, mode, fx, fy)
    ensures mode != Point ==> r == Scale(img, mode, fx, fy)
  {
    if mode == Point && img.width > 0 && img.height > 0 then
      if Scale(img, mode, fx, fy).Ok? then ScaleClampedAgrees(img, fx, fy); Ok(ScaleClamped(img, fx, fy))
      else Ok(ScaleClamped(img, fx, fy))
    else
      if mode == Point then ScaleEmpty(img, fx, fy); Scale(img, mode, fx, fy)
      else Scale(img, mode, fx, fy)
  }

  /** An empty image scales without sampling, so without panicking. */
  lemma ScaleEmpty<P>(img: Image<P>, fx: real, fy: real)
    requires Valid(img) && (img.width == 0 || img.height == 0)
    ensures Scale(img, Point, fx, fy).Ok?
  {
    assert ScaledSize(img.width, fx) == 0 || ScaledSize(img.height, fy) == 0;
    ScaleSucceeds(img, Point, fx, fy);
  }
}
