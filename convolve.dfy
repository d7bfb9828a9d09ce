/** The trimmed 3×3 convolution (asgn1/src/convolve.rs). */
module Convolution {
  import opened Images
  import opened Wrappers
  import opened Panics

  /** A 3×3 matrix of weights; `k[xo][yo]` weighs the pixel at offset `(xo, yo)`. */
  predicate IsKernel(k: seq<seq<real>>) {
    |k| == 3 && forall i :: 0 <= i < 3 ==> |k[i]| == 3
  }

  /** The 3×3 window whose top-left corner is `(x, y)` lies inside the image. */
  predicate WindowInside(img: Image<Pixel>, x: nat, y: nat) {
    Valid(img) && x + 2 < img.width && y + 2 < img.height
  }

  /** `image[(x + xo, y + yo)] * matrix[xo][yo]`. */
  function Term(img: Image<Pixel>, k: seq<seq<real>>, x: nat, y: nat, xo: nat, yo: nat): Pixel
    requires WindowInside(img, x, y) && IsKernel(k) && xo < 3 && yo < 3
  {
    Times(At(img, x + xo, y + yo), k[xo][yo])
  }

  /** The terms of column offset `xo` for `yo < n`, added in order to `Blank`. */
  function ColumnSum(img: Image<Pixel>, k: seq<seq<real>>, x: nat, y: nat, xo: nat, n: nat): Pixel
    requires WindowInside(img, x, y) && IsKernel(k) && xo < 3 && n <= 3
  {
    if n == 0 then Blank else Add(ColumnSum(img, k, x, y, xo, n - 1), Term(img, k, x, y, xo, n - 1))
  }

  /** The complete columns `xo < n` of the window. */
  function WindowSum(img: Image<Pixel>, k: seq<seq<real>>, x: nat, y: nat, n: nat): Pixel
    requires WindowInside(img, x, y) && IsKernel(k) && n <= 3
  {
    if n == 0 then Blank else Add(WindowSum(img, k, x, y, n - 1), ColumnSum(img, k, x, y, n - 1, 3))
  }

  /** The weighted window of output pixel `(x, y)`. */
  function Weighted(img: Image<Pixel>, k: seq<seq<real>>, x: nat, y: nat): Pixel
    requires WindowInside(img, x, y) && IsKernel(k)
  {
    WindowSum(img, k, x, y, 3)
  }

  /**
    The body of the `from_fn` closure: `px` starts at `Pixel::default()` and
    accumulates `image[(x + xo, y + yo)] * matrix[xo][yo]` for `xo` and then
    `yo` in `0..=2`.
   */
  method ConvolveAt(img: Image<Pixel>, k: seq<seq<real>>, x: nat, y: nat) returns (px: Pixel)
    requires WindowInside(img, x, y) && IsKernel(k)
    ensures px == Weighted(img, k, x, y)
  {
    px := Blank;
    var xo := 0;
    while xo <= 2
      invariant 0 <= xo <= 3
      invariant px == WindowSum(img, k, x, y, xo)
    {
      var yo := 0;
      while yo <= 2
        invariant 0 <= yo <= 3
        invariant px == Add(WindowSum(img, k, x, y, xo), ColumnSum(img, k, x, y, xo, yo))
      {
        px := Add(px, Times(At(img, x + xo, y + yo), k[xo][yo]));
        yo := yo + 1;
      }
      xo := xo + 1;
    }
  }

  /**
    `convolve::filter`: the `(w - 2)×(h - 2)` image of weighted windows, one
    pixel trimmed from each edge.  `w - 2` and `h - 2` are `u32`
    subtractions, which panic on images narrower or lower than two pixels.
   */
  function Convolve(img: Image<Pixel>, k: seq<seq<real>>): (r: Result<Image<Pixel>, Panic>)
    requires Valid(img) && IsKernel(k)
    ensures r.Err? <==> img.width < 2 || img.height < 2
    ensures r.Err? ==> r.error.Underflow?
    ensures r.Ok? ==> Valid(r.value) && r.value.width == img.width - 2 && r.value.height == img.height - 2
    ensures r.Ok? ==> forall x, y :: 0 <= x < r.value.width && 0 <= y < r.value.height ==>
                        WindowInside(img, x, y) && At(r.value, x, y) == Weighted(img, k, x, y)
  {
    if img.width < 2 || img.height < 2 then
      Err(Underflow("convolve::filter"))
    else
      var w := img.width - 2;
      var h := img.height - 2;
      Ok(Image(w, h, seq(h, y requires 0 <= y < h => seq(w, x requires 0 <= x < w => Weighted(img, k, x, y)))))
  }

  /** The weights `k[xo][yo]` for `yo < n`. */
  function ColumnWeight(k: seq<seq<real>>, xo: nat, n: nat): real
    requires IsKernel(k) && xo < 3 && n <= 3
  {
    if n == 0 then 0.0 else ColumnWeight(k, xo, n - 1) + k[xo][n - 1]
  }

  /** The weights of the complete columns `xo < n`. */
  function WindowWeight(k: seq<seq<real>>, n: nat): real
    requires IsKernel(k) && n <= 3
  {
    if n == 0 then 0.0 else WindowWeight(k, n - 1) + ColumnWeight(k, n - 1, 3)
  }

  /** The sum of all nine weights. */
  function KernelTotal(k: seq<seq<real>>): real
    requires IsKernel(k)
  {
    k[0][0] + k[0][1] + k[0][2] + k[1][0] + k[1][1] + k[1][2] + k[2][0] + k[2][1] + k[2][2]
  }

  /** Accumulating the weights column by column gives all nine of them. */
  lemma WindowWeightTotal(k: seq<seq<real>>)
    requires IsKernel(k)
    ensures WindowWeight(k, 3) == KernelTotal(k)
  {
    ColumnWeightFull(k, 0);
    ColumnWeightFull(k, 1);
    ColumnWeightFull(k, 2);
    assert WindowWeight(k, 1) == ColumnWeight(k, 0, 3);
    assert WindowWeight(k, 2) == ColumnWeight(k, 0, 3) + ColumnWeight(k, 1, 3);
  }

  lemma ColumnWeightFull(k: seq<seq<real>>, xo: nat)
    requires IsKernel(k) && xo < 3
    ensures ColumnWeight(k, xo, 3) == k[xo][0] + k[xo][1] + k[xo][2]
  {
    assert ColumnWeight(k, xo, 1) == k[xo][0];
    assert ColumnWeight(k, xo, 2) == k[xo][0] + k[xo][1];
  }

  lemma AddInterchange(p: Pixel, q: Pixel, s: Pixel, t: Pixel)
    ensures Add(Add(p, q), Add(s, t)) == Add(Add(p, s), Add(q, t))
  {
  }

  /** The window of a pointwise sum is the sum of the windows. */
  lemma {:induction false} WindowSumAdditive(a: Image<Pixel>, b: Image<Pixel>, k: seq<seq<real>>, x: nat, y: nat, n: nat)
    requires WindowInside(a, x, y) && WindowInside(b, x, y) && IsKernel(k) && n <= 3
    requires a.width == b.width && a.height == b.height
    ensures WindowSum(AddImages(a, b), k, x, y, n) == Add(WindowSum(a, k, x, y, n), WindowSum(b, k, x, y, n))
  {
    if n > 0 {
      WindowSumAdditive(a, b, k, x, y, n - 1);
      ColumnSumAdditive(a, b, k, x, y, n - 1, 3);
      AddInterchange(WindowSum(a, k, x, y, n - 1), WindowSum(b, k, x, y, n - 1), ColumnSum(a, k, x, y, n - 1, 3), ColumnSum(b, k, x, y, n - 1, 3));
    }
  }

  lemma {:induction false} ColumnSumAdditive(a: Image<Pixel>, b: Image<Pixel>, k: seq<seq<real>>, x: nat, y: nat, xo: nat, n: nat)
    requires WindowInside(a, x, y) && WindowInside(b, x, y) && IsKernel(k) && xo < 3 && n <= 3
    requires a.width == b.width && a.height == b.height
    ensures ColumnSum(AddImages(a, b), k, x, y, xo, n) == Add(ColumnSum(a, k, x, y, xo, n), ColumnSum(b, k, x, y, xo, n))
  {
    if n > 0 {
      ColumnSumAdditive(a, b, k, x, y, xo, n - 1);
      var pa, pb := At(a, x + xo, y + n - 1), At(b, x + xo, y + n - 1);
      assert At(AddImages(a, b), x + xo, y + n - 1) == Add(pa, pb);
      TimesDistributes(pa, pb, k[xo][n - 1]);
      AddInterchange(ColumnSum(a, k, x, y, xo, n - 1), ColumnSum(b, k, x, y, xo, n - 1), Times(pa, k[xo][n - 1]), Times(pb, k[xo][n - 1]));
    }
  }

  /** The window of a scaled image is the scaled window. */
  lemma {:induction false} WindowSumHomogeneous(a: Image<Pixel>, c: real, k: seq<seq<real>>, x: nat, y: nat, n: nat)
    requires WindowInside(a, x, y) && IsKernel(k) && n <= 3
    ensures WindowSum(ScaleImage(a, c), k, x, y, n) == Times(WindowSum(a, k, x, y, n), c)
  {
    if n > 0 {
      WindowSumHomogeneous(a, c, k, x, y, n - 1);
      ColumnSumHomogeneous(a, c, k, x, y, n - 1, 3);
      TimesDistributes(WindowSum(a, k, x, y, n - 1), ColumnSum(a, k, x, y, n - 1, 3), c);
    }
  }

  lemma {:induction false} ColumnSumHomogeneous(a: Image<Pixel>, c: real, k: seq<seq<real>>, x: nat, y: nat, xo: nat, n: nat)
    requires WindowInside(a, x, y) && IsKernel(k) && xo < 3 && n <= 3
    ensures ColumnSum(ScaleImage(a, c), k, x, y, xo, n) == Times(ColumnSum(a, k, x, y, xo, n), c)
  {
    if n > 0 {
      ColumnSumHomogeneous(a, c, k, x, y, xo, n - 1);
      var p := At(a, x + xo, y + n - 1);
      assert At(ScaleImage(a, c), x + xo, y + n - 1) == Times(p, c);
      TimesCommute(p, c, k[xo][n - 1]);
      TimesDistributes(ColumnSum(a, k, x, y, xo, n - 1), Times(p, k[xo][n - 1]), c);
    }
  }

  /** Convolution is additive: `filter(a + b) = filter(a) + filter(b)`. */
  lemma ConvolveAdditive(a: Image<Pixel>, b: Image<Pixel>, k: seq<seq<real>>)
    requires Valid(a) && Valid(b) && a.width == b.width && a.height == b.height && IsKernel(k)
    requires a.width >= 2 && a.height >= 2
    ensures Convolve(AddImages(a, b), k) == Ok(AddImages(Convolve(a, k).value, Convolve(b, k).value))
  {
    var s := Convolve(AddImages(a, b), k).value;
    var t := AddImages(Convolve(a, k).value, Convolve(b, k).value);
    forall x, y | 0 <= x < s.width && 0 <= y < s.height
      ensures At(s, x, y) == At(t, x, y)
    {
      WindowSumAdditive(a, b, k, x, y, 3);
    }
    ImageExtensionality(s, t);
  }

  /** Convolution is homogeneous: `filter(c·a) = c·filter(a)`. */
  lemma ConvolveHomogeneous(a: Image<Pixel>, c: real, k: seq<seq<real>>)
    requires Valid(a) && IsKernel(k) && a.width >= 2 && a.height >= 2
    ensures Convolve(ScaleImage(a, c), k) == Ok(ScaleImage(Convolve(a, k).value, c))
  {
    var s := Convolve(ScaleImage(a, c), k).value;
    var t := ScaleImage(Convolve(a, k).value, c);
    forall x, y | 0 <= x < s.width && 0 <= y < s.height
      ensures At(s, x, y) == At(t, x, y)
    {
      WindowSumHomogeneous(a, c, k, x, y, 3);
    }
    ImageExtensionality(s, t);
  }

  /** On a constant image a partial window is the colour times the partial weight. */
  lemma {:induction false} WindowSumConstant(img: Image<Pixel>, c: Pixel, k: seq<seq<real>>, x: nat, y: nat, n: nat)
    requires WindowInside(img, x, y) && IsKernel(k) && n <= 3
    requires forall i, j :: 0 <= i < img.width && 0 <= j < img.height ==> At(img, i, j) == c
    ensures WindowSum(img, k, x, y, n) == Times(c, WindowWeight(k, n))
  {
    if n == 0 {
      assert Times(c, 0.0) == Blank;
    } else {
      WindowSumConstant(img, c, k, x, y, n - 1);
      ColumnSumConstant(img, c, k, x, y, n - 1, 3);
      TimesCollect(c, WindowWeight(k, n - 1), ColumnWeight(k, n - 1, 3));
    }
  }

  lemma {:induction false} ColumnSumConstant(img: Image<Pixel>, c: Pixel, k: seq<seq<real>>, x: nat, y: nat, xo: nat, n: nat)
    requires WindowInside(img, x, y) && IsKernel(k) && xo < 3 && n <= 3
    requires forall i, j :: 0 <= i < img.width && 0 <= j < img.height ==> At(img, i, j) == c
    ensures ColumnSum(img, k, x, y, xo, n) == Times(c, ColumnWeight(k, xo, n))
  {
    if n == 0 {
      assert Times(c, 0.0) == Blank;
    } else {
      ColumnSumConstant(img, c, k, x, y, xo, n - 1);
      assert At(img, x + xo, y + n - 1) == c;
      TimesCollect(c, ColumnWeight(k, xo, n - 1), k[xo][n - 1]);
    }
  }

  /** A constant image convolves to the constant times the total weight. */
  lemma ConvolveConstant(w: nat, h: nat, c: Pixel, k: seq<seq<real>>)
    requires 2 <= w <= U32Max && 2 <= h <= U32Max && IsKernel(k)
    ensures Convolve(Constant(w, h, c), k) == Ok(Constant(w - 2, h - 2, Times(c, KernelTotal(k))))
  {
    var img := Constant(w, h, c);
    var out := Convolve(img, k).value;
    var expected := Constant(w - 2, h - 2, Times(c, KernelTotal(k)));
    WindowWeightTotal(k);
    forall x, y | 0 <= x < out.width && 0 <= y < out.height
      ensures At(out, x, y) == At(expected, x, y)
    {
      WindowSumConstant(img, c, k, x, y, 3);
    }
    ImageExtensionality(out, expected);
  }

  /** Every weight is non-negative. */
  predicate NonNegative(k: seq<seq<real>>)
    requires IsKernel(k)
  {
    forall i, j :: 0 <= i < 3 && 0 <= j < 3 ==> k[i][j] >= 0.0
  }

  /** Every channel lies in `[0, hi]`. */
  predicate Within(p: Pixel, hi: real) {
    Bounded(p.r, hi) && Bounded(p.g, hi) && Bounded(p.b, hi) && Bounded(p.a, hi)
  }

  predicate Bounded(v: real, hi: real) {
    0.0 <= v <= hi
  }

  /** A product `t = v * w` of a unit-range channel and a non-negative weight lies in `[0, w]`. */
  lemma ProductWithin(v: real, w: real, t: real)
    requires 0.0 <= v <= 1.0 && 0.0 <= w && t == v * w
    ensures Bounded(t, w)
  {
    NonNegativeProduct(v, w);
    NonNegativeProduct(1.0 - v, w);
    assert (1.0 - v) * w == w - v * w;
  }

  lemma NonNegativeProduct(u: real, w: real)
    requires 0.0 <= u && 0.0 <= w
    ensures 0.0 <= u * w
  {
  }

  /** A unit-range pixel scaled by a non-negative weight has every channel in `[0, w]`. */
  lemma TimesWithin(p: Pixel, w: real)
    requires InUnitRange(p) && 0.0 <= w
    ensures Within(Times(p, w), w)
  {
    var q := Times(p, w);
    ProductWithin(p.r, w, q.r);
    ProductWithin(p.g, w, q.g);
    ProductWithin(p.b, w, q.b);
    ProductWithin(p.a, w, q.a);
  }

  lemma {:induction false} ColumnSumWithin(img: Image<Pixel>, k: seq<seq<real>>, x: nat, y: nat, xo: nat, n: nat)
    requires WindowInside(img, x, y) && IsKernel(k) && NonNegative(k) && xo < 3 && n <= 3
    requires forall i, j :: 0 <= i < img.width && 0 <= j < img.height ==> InUnitRange(At(img, i, j))
    ensures Within(ColumnSum(img, k, x, y, xo, n), ColumnWeight(k, xo, n))
  {
    if n > 0 {
      ColumnSumWithin(img, k, x, y, xo, n - 1);
      TimesWithin(At(img, x + xo, y + n - 1), k[xo][n - 1]);
    }
  }

  lemma {:induction false} WindowSumWithin(img: Image<Pixel>, k: seq<seq<real>>, x: nat, y: nat, n: nat)
    requires WindowInside(img, x, y) && IsKernel(k) && NonNegative(k) && n <= 3
    requires forall i, j :: 0 <= i < img.width && 0 <= j < img.height ==> InUnitRange(At(img, i, j))
    ensures Within(WindowSum(img, k, x, y, n), WindowWeight(k, n))
  {
    if n > 0 {
      WindowSumWithin(img, k, x, y, n - 1);
      ColumnSumWithin(img, k, x, y, n - 1, 3);
    }
  }

  /**
    With non-negative weights that sum to one every output channel is a
    weighted average of input channels, so an image in `[0, 1]` stays there.
   */
  lemma ConvolveKeepsUnitRange(img: Image<Pixel>, k: seq<seq<real>>)
    requires Valid(img) && IsKernel(k) && NonNegative(k) && KernelTotal(k) == 1.0
    requires img.width >= 2 && img.height >= 2
    requires forall i, j :: 0 <= i < img.width && 0 <= j < img.height ==> InUnitRange(At(img, i, j))
    ensures forall x, y :: 0 <= x < img.width - 2 && 0 <= y < img.height - 2 ==> InUnitRange(At(Convolve(img, k).value, x, y))
  {
    WindowWeightTotal(k);
    forall x, y | 0 <= x < img.width - 2 && 0 <= y < img.height - 2
      ensures InUnitRange(At(Convolve(img, k).value, x, y))
    {
      WindowSumWithin(img, k, x, y, 3);
    }
  }
}
