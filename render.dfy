/**
  Rendering a scene to an image buffer (asgn2/src/scene.rs): every pixel is
  traced in row-major order, then the 3-byte pixels are viewed as one byte
  buffer.  Only the sequential `render_rays` is modelled.
 */
module Render {
  import opened Libm
  import opened Wrappers
  import opened Panics
  import opened Rays
  import opened Scenes
  import opened Camera
  import opened Trace

  /** The row-major position of pixel `(x, y)`. */
  function Index(width: nat, x: nat, y: nat): nat {
    y * width + x
  }

  /** Row-major positions of in-range pixels lie below `width * height`. */
  lemma IndexInRange(width: nat, height: nat, x: nat, y: nat)
    requires x < width && y < height
    ensures Index(width, x, y) < width * height
  {
    assert y * width + x < y * width + width == (y + 1) * width <= height * width;
  }

  /** The pixels of one row `y`, left to right. */
  function Row(width: nat, y: nat): (r: seq<(nat, nat)>)
    ensures |r| == width
    ensures forall x :: 0 <= x < width ==> r[x] == (x, y)
  {
    seq(width, x requires 0 <= x < width => (x, y))
  }

  /**
    `(0..height).flat_map(|y| (0..width).map(|x| (x, y)))`: rows top to
    bottom, each left to right, so pixel `(x, y)` sits at `y * width + x`.
   */
  function Coordinates(width: nat, height: nat): (r: seq<(nat, nat)>)
    ensures |r| == width * height
    ensures forall x, y :: 0 <= x < width && 0 <= y < height ==>
      Index(width, x, y) < |r| && r[Index(width, x, y)] == (x, y)
    ensures forall i :: 0 <= i < |r| ==> r[i].0 < width && r[i].1 < height
  {
    if height == 0 then
      []
    else
      var prev := Coordinates(width, height - 1);
      var row := Row(width, height - 1);
      var r := prev + row;
      assert |r| == width * height by {
        assert width * (height - 1) + width == width * height;
      }
      forall x, y | 0 <= x < width && 0 <= y < height
        ensures Index(width, x, y) < |r| && r[Index(width, x, y)] == (x, y)
      {
        IndexInRange(width, height, x, y);
        if y < height - 1 {
          IndexInRange(width, height - 1, x, y);
        } else {
          assert Index(width, x, y) == |prev| + x;
        }
      }
      r
  }

  /** Distinct positions hold distinct coordinates. */
  lemma CoordinatesIndex(width: nat, height: nat, i: nat)
    requires i < |Coordinates(width, height)|
    ensures Index(width, Coordinates(width, height)[i].0, Coordinates(width, height)[i].1) == i
  {
    if height > 0 {
      var prev := Coordinates(width, height - 1);
      if i < |prev| {
        CoordinatesIndex(width, height - 1, i);
      } else {
        assert Coordinates(width, height)[i] == (i - |prev|, height - 1);
      }
    }
  }

  /**
    The sequential `render_rays`: `trace_pixel` at every coordinate in
    row-major order; the first pixel whose tracing panics decides the
    failure.  Entry `y * width + x` is the pixel `(x, y)`.
   */
  function RenderRays(s: Scene, m: Libm, hit: PlaneHit): (r: Result<seq<seq<byte>>, Panic>)
    ensures r.Ok? <==> forall x, y :: 0 <= x < s.width && 0 <= y < s.height ==> TracePixel(s, x, y, m, hit).Ok?
    ensures r.Ok? ==> |r.value| == s.width * s.height
    ensures r.Ok? ==> forall x, y :: 0 <= x < s.width && 0 <= y < s.height ==>
      Index(s.width, x, y) < |r.value| && TracePixel(s, x, y, m, hit) == Ok(r.value[Index(s.width, x, y)])
  {
    var cs := Coordinates(s.width, s.height);
    var pixels := seq(|cs|, i requires 0 <= i < |cs| => TracePixel(s, cs[i].0, cs[i].1, m, hit));
    var r := AllOk(pixels);
    RenderRaysPixels(s, m, hit, pixels, r);
    r
  }

  lemma RenderRaysPixels(s: Scene, m: Libm, hit: PlaneHit, pixels: seq<Result<seq<byte>, Panic>>,
                         r: Result<seq<seq<byte>>, Panic>)
    requires |pixels| == |Coordinates(s.width, s.height)|
    requires forall i :: 0 <= i < |pixels| ==>
      HasPixels(s)
      && pixels[i] == TracePixel(s, Coordinates(s.width, s.height)[i].0, Coordinates(s.width, s.height)[i].1, m, hit)
    requires r == AllOk(pixels)
    ensures r.Ok? <==> forall x, y :: 0 <= x < s.width && 0 <= y < s.height ==> TracePixel(s, x, y, m, hit).Ok?
    ensures r.Ok? ==> |r.value| == s.width * s.height
    ensures r.Ok? ==> forall x, y :: 0 <= x < s.width && 0 <= y < s.height ==>
      Index(s.width, x, y) < |r.value| && TracePixel(s, x, y, m, hit) == Ok(r.value[Index(s.width, x, y)])
  {
    var cs := Coordinates(s.width, s.height);
    if r.Ok? {
      forall x, y | 0 <= x < s.width && 0 <= y < s.height
        ensures Index(s.width, x, y) < |r.value| && TracePixel(s, x, y, m, hit) == Ok(r.value[Index(s.width, x, y)])
      {
        var i := Index(s.width, x, y);
        assert cs[i] == (x, y);
        assert pixels[i] == TracePixel(s, x, y, m, hit);
      }
    }
    if forall x, y :: 0 <= x < s.width && 0 <= y < s.height ==> TracePixel(s, x, y, m, hit).Ok? {
      forall i | 0 <= i < |pixels|
        ensures pixels[i].Ok?
      {
        assert cs[i].0 < s.width && cs[i].1 < s.height;
      }
    }
  }

  /** Every traced pixel has three channels. */
  lemma RenderedPixelsHaveThreeChannels(s: Scene, m: Libm, hit: PlaneHit)
    requires RenderRays(s, m, hit).Ok?
    ensures forall i :: 0 <= i < |RenderRays(s, m, hit).value| ==> |RenderRays(s, m, hit).value[i]| == 3
  {
    var px := RenderRays(s, m, hit).value;
    var cs := Coordinates(s.width, s.height);
    forall i | 0 <= i < |px|
      ensures |px[i]| == 3
    {
      CoordinatesIndex(s.width, s.height, i);
      var (x, y) := cs[i];
      assert TracePixel(s, x, y, m, hit) == Ok(px[Index(s.width, x, y)]);
    }
  }

  /**
    The `unsafe` reinterpretation of `Vec<[u8; 3]>` as `Vec<u8>`: the
    pixels' bytes laid end to end.
   */
  function Flatten(pixels: seq<seq<byte>>): (r: seq<byte>)
    requires forall i :: 0 <= i < |pixels| ==> |pixels[i]| == 3
    ensures |r| == 3 * |pixels|
    ensures forall i, c :: 0 <= i < |pixels| && 0 <= c < 3 ==> r[3 * i + c] == pixels[i][c]
  {
    if |pixels| == 0 then
      []
    else
      var n := |pixels| - 1;
      var prev := Flatten(pixels[..n]);
      assert forall i :: 0 <= i < n ==> pixels[..n][i] == pixels[i];
      prev + pixels[n]
  }

  /**
    `render`: the byte buffer of the image, `3 * width * height` bytes with
    the channels of pixel `(x, y)` at `3 * (y * width + x)` onwards.
   */
  function RenderImage(s: Scene, m: Libm, hit: PlaneHit): (r: Result<seq<byte>, Panic>)
    ensures r.Ok? <==> RenderRays(s, m, hit).Ok?
    ensures r.Ok? ==> |r.value| == 3 * (s.width * s.height)
    ensures r.Ok? ==> forall x, y, c :: 0 <= x < s.width && 0 <= y < s.height && 0 <= c < 3 ==>
      3 * Index(s.width, x, y) + c < |r.value|
      && Ok(r.value[3 * Index(s.width, x, y) + c]) == TracePixelChannel(s, x, y, c, m, hit)
  {
    var pixels :- RenderRays(s, m, hit);
    RenderedPixelsHaveThreeChannels(s, m, hit);
    Ok(Flatten(pixels))
  }

  /** Channel `c` of the traced pixel `(x, y)`. */
  function TracePixelChannel(s: Scene, x: nat, y: nat, c: nat, m: Libm, hit: PlaneHit): Result<byte, Panic>
    requires HasPixels(s) && c < 3
  {
    var px :- TracePixel(s, x, y, m, hit);
    if |px| == 3 then Ok(px[c]) else Err(IndexOutOfBounds("trace_pixel"))
  }
}
