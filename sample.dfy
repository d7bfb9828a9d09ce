/**
  Sampling an image at a real-valued point (asgn1/src/util.rs), and the
  `f32` rounding and `as u32` casts it relies on.
 */
module Sampling {
  import opened Images
  import opened Wrappers
  import opened Panics

  datatype SampleMode = Bilinear | Gaussian | Point

  /**
    `f32::round`: the nearest integer, with halves rounded away from zero.
   */
  function Round(v: real): (n: int)
    ensures n as real - 0.5 <= v <= n as real + 0.5
    ensures v >= 0.0 ==> n >= 0
  {
    if v >= 0.0 then (v + 0.5).Floor else -((-v + 0.5).Floor)
  }

  /** An integral value rounds to itself. */
  lemma RoundIntegral(k: int)
    ensures Round(k as real) == k
  {
  }

  /** A value exactly half-way between two integers goes away from zero. */
  lemma RoundHalfAwayFromZero(k: nat)
    ensures Round(k as real + 0.5) == k + 1
    ensures Round(-(k as real) - 0.5) == -(k as int) - 1
  {
  }

  /** Rounding never reverses the order of two values. */
  lemma RoundMonotone(u: real, v: real)
    requires u <= v
    ensures Round(u) <= Round(v)
  {
  }

  /** No other integer is nearer than the rounded value. */
  lemma RoundNearest(v: real, k: int)
    ensures Abs(Round(v) as real - v) <= Abs(k as real - v)
  {
    var n := Round(v);
    if k > n {
      assert k as real >= n as real + 1.0;
    } else if k < n {
      assert k as real <= n as real - 1.0;
    }
  }

  /** Values above `-0.5` round to a natural number. */
  lemma RoundAboveMinusHalf(v: real)
    requires v > -0.5
    ensures Round(v) >= 0
  {
    if v < 0.0 {
      assert 0.0 < -v + 0.5 < 1.0;
    }
  }

  function Abs(v: real): real {
    if v < 0.0 then -v else v
  }

  /**
    `n as u32` for an integral `f32` value `n`: values below zero become
    zero and values above `u32::MAX` become `u32::MAX`.
   */
  function SaturateU32(n: int): (m: nat)
    ensures m <= U32Max
    ensures 0 <= n <= U32Max ==> m == n
    ensures n < 0 ==> m == 0
    ensures n > U32Max ==> m == U32Max
  {
    if n < 0 then 0 else if n > U32Max then U32Max else n
  }

  /** `v as u32` for any `f32` value: truncation toward zero, then saturation. */
  function TruncU32(v: real): (m: nat)
    ensures m <= U32Max
    ensures v <= 0.0 ==> m == 0
    ensures 0.0 <= v < U32Max as real + 1.0 ==> m as real <= v < m as real + 1.0
  {
    if v <= 0.0 then 0 else SaturateU32(v.Floor)
  }

  /** The column or row that Point sampling reads for the coordinate `v`. */
  function PointIndex(v: real): nat {
    SaturateU32(Round(v))
  }

  /**
    `SampleMode::sample`: Bilinear and Gaussian are `unimplemented!()`;
    Point reads the pixel at the rounded coordinates, and that read panics
    when it falls outside the image.
   */
  function Sample<P>(mode: SampleMode, img: Image<P>, x: real, y: real): (r: Result<P, Panic>)
    requires Valid(img)
    ensures mode != Point ==> r.Err? && r.error.Unimplemented?
    ensures mode == Point ==> (r.Ok? <==> PointIndex(x) < img.width && PointIndex(y) < img.height)
    ensures mode == Point && r.Err? ==> r.error.IndexOutOfBounds?
  {
    match mode
    case Bilinear => Err(Unimplemented("SampleMode::sample (Bilinear)"))
    case Gaussian => Err(Unimplemented("SampleMode::sample (Gaussian)"))
    case Point =>
      var px := PointIndex(x);
      var py := PointIndex(y);
      if px < img.width && py < img.height then Ok(At(img, px, py))
      else Err(IndexOutOfBounds("SampleMode::sample"))
  }

  /** Sampling at the coordinates of a pixel gives exactly that pixel. */
  lemma SampleAtPixel<P>(img: Image<P>, x: nat, y: nat)
    requires Valid(img) && x < img.width && y < img.height
    ensures Sample(Point, img, x as real, y as real) == Ok(At(img, x, y))
  {
    RoundIntegral(x);
    RoundIntegral(y);
  }

  /**
    Point sampling reads the pixel whose centre is nearest to the point,
    for points that lie within half a pixel of the image.
   */
  lemma SampleNearestPixel<P>(img: Image<P>, x: real, y: real)
    requires Valid(img)
    requires -0.5 < x && -0.5 < y
    requires Sample(Point, img, x, y).Ok?
    ensures Abs(PointIndex(x) as real - x) <= 0.5 && Abs(PointIndex(y) as real - y) <= 0.5
    ensures Sample(Point, img, x, y) == Ok(At(img, PointIndex(x), PointIndex(y)))
  {
    RoundAboveMinusHalf(x);
    RoundAboveMinusHalf(y);
  }

  /**
    A coordinate of at least half a pixel past the last column is read
    outside the image, so the sample panics.
   */
  lemma SamplePastEdge<P>(img: Image<P>, x: real, y: real)
    requires Valid(img)
    requires x >= img.width as real - 0.5
    ensures Sample(Point, img, x, y) == Err(IndexOutOfBounds("SampleMode::sample"))
  {
    RoundHalfAwayFromZero(if img.width == 0 then 0 else img.width - 1);
    if img.width > 0 {
      RoundMonotone(img.width as real - 0.5, x);
    }
  }

  /**
    Negative coordinates are not rejected: the cast to `u32` saturates, so
    they read the first column (or row).
   */
  lemma SampleNegativeClamps<P>(img: Image<P>, x: real, y: real)
    requires Valid(img) && img.width > 0 && img.height > 0
    requires x < 0.0 && y < 0.0
    ensures Sample(Point, img, x, y) == Ok(At(img, 0, 0))
  {
  }
}
