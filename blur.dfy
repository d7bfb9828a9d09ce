/** The blur filter (asgn1/src/blur.rs): a convolution with a fixed kernel. */
module Blurring {
  import opened Images
  import opened Wrappers
  import opened Convolution

  /** Weights 1/16, 1/8 and 1/4, heaviest at the centre. */
  const BlurKernel: seq<seq<real>> := [
    [1.0 / 16.0, 1.0 / 8.0, 1.0 / 16.0],
    [1.0 / 8.0, 1.0 / 4.0, 1.0 / 8.0],
    [1.0 / 16.0, 1.0 / 8.0, 1.0 / 16.0]
  ]

  /** `blur::filter`. */
  function Blur(img: Image<Pixel>): (r: Result<Image<Pixel>, Panics.Panic>)
    requires Valid(img)
    ensures r.Err? <==> img.width < 2 || img.height < 2
    ensures r.Err? ==> r.error.Underflow?
    ensures r.Ok? ==> Valid(r.value) && r.value.width == img.width - 2 && r.value.height == img.height - 2
    ensures r.Ok? ==> forall x, y :: 0 <= x < r.value.width && 0 <= y < r.value.height ==>
                        At(r.value, x, y) == Weighted(img, BlurKernel, x, y)
  {
    BlurKernelShape();
    Convolve(img, BlurKernel)
  }

  /** The kernel is 3×3 with non-negative weights that sum to one. */
  lemma BlurKernelShape()
    ensures IsKernel(BlurKernel) && NonNegative(BlurKernel)
    ensures KernelTotal(BlurKernel) == 1.0
  {
  }

  /**
    The kernel is unchanged by transposition and by flipping either axis,
    so which index `convolve::filter` takes as the x offset does not matter.
   */
  lemma BlurKernelSymmetric()
    ensures IsKernel(BlurKernel)
    ensures Transpose(BlurKernel) == BlurKernel
    ensures FlipX(BlurKernel) == BlurKernel && FlipY(BlurKernel) == BlurKernel
  {
    BlurKernelShape();
    KernelsEqual(Transpose(BlurKernel), BlurKernel);
    KernelsEqual(FlipX(BlurKernel), BlurKernel);
    KernelsEqual(FlipY(BlurKernel), BlurKernel);
  }

  /** Two kernels with the same nine weights are the same kernel. */
  lemma KernelsEqual(a: seq<seq<real>>, b: seq<seq<real>>)
    requires IsKernel(a) && IsKernel(b)
    requires forall i, j :: 0 <= i < 3 && 0 <= j < 3 ==> a[i][j] == b[i][j]
    ensures a == b
  {
    assert forall i :: 0 <= i < 3 ==> a[i] == b[i];
  }

  /** `m[yo][xo]` in place of `m[xo][yo]`. */
  function Transpose(k: seq<seq<real>>): (t: seq<seq<real>>)
    requires IsKernel(k)
    ensures IsKernel(t)
    ensures forall i, j :: 0 <= i < 3 && 0 <= j < 3 ==> t[i][j] == k[j][i]
  {
    seq(3, i requires 0 <= i < 3 => seq(3, j requires 0 <= j < 3 => k[j][i]))
  }

  /** The x offsets reversed. */
  function FlipX(k: seq<seq<real>>): (t: seq<seq<real>>)
    requires IsKernel(k)
    ensures IsKernel(t)
  {
    seq(3, i requires 0 <= i < 3 => k[2 - i])
  }

  /** The y offsets reversed. */
  function FlipY(k: seq<seq<real>>): (t: seq<seq<real>>)
    requires IsKernel(k)
    ensures IsKernel(t)
  {
    seq(3, i requires 0 <= i < 3 => seq(3, j requires 0 <= j < 3 => k[i][2 - j]))
  }

  /** A constant image blurs to the same constant, trimmed by one pixel on each edge. */
  lemma BlurConstant(w: nat, h: nat, c: Pixel)
    requires 2 <= w <= U32Max && 2 <= h <= U32Max
    ensures Blur(Constant(w, h, c)) == Ok(Constant(w - 2, h - 2, c))
  {
    BlurKernelShape();
    ConvolveConstant(w, h, c, BlurKernel);
    assert Times(c, 1.0) == c;
  }

  /** An image with every channel in `[0, 1]` blurs to one with every channel in `[0, 1]`. */
  lemma BlurKeepsUnitRange(img: Image<Pixel>)
    requires Valid(img) && img.width >= 2 && img.height >= 2
    requires forall i, j :: 0 <= i < img.width && 0 <= j < img.height ==> InUnitRange(At(img, i, j))
    ensures Blur(img).Ok?
    ensures forall x, y :: 0 <= x < img.width - 2 && 0 <= y < img.height - 2 ==> InUnitRange(At(Blur(img).value, x, y))
  {
    BlurKernelShape();
    ConvolveKeepsUnitRange(img, BlurKernel);
  }

  /** An image narrower or lower than two pixels makes the blur underflow. */
  lemma BlurTooSmall(img: Image<Pixel>)
    requires Valid(img) && (img.width < 2 || img.height < 2)
    ensures Blur(img).Err? && Blur(img).error.Underflow?
  {
    BlurKernelShape();
  }
}
