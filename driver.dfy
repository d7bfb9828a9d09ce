/**
  The filter loop of the asgn1 driver (asgn1/src/main.rs): the image and the
  sampling mode are threaded through the filters in command-line order,
  each filter taking the previous one's output.
 */
module Pipeline {
  import opened Images
  import opened Wrappers
  import opened Panics
  import Sampling
  import Filters
  import Blurring
  import Scaling
  import Dithering

  /** The filters of this driver whose behaviour is modelled. */
  datatype Filter =
    | BlackWhiteLuminosity(cutoff: real)
    | Blur
    | Brighten(factor: real)
    | Channel(channel: nat)
    | FloydSteinbergDither(bits: nat)
    | Grayscale
    | Output(path: string)
    | Quantitize(bits: nat)
    | Sample(mode: Sampling.SampleMode)
    | Scale(x: real, y: real)

  /** An image handed to `save`, with the path it goes to. */
  datatype Written = Written(path: string, image: Image<Pixel>)

  /** The loop's state: `image`, `sample_mode`, and what `Output` has saved so far. */
  datatype Session = Session(image: Image<Pixel>, mode: Sampling.SampleMode, written: seq<Written>)

  /** `Image::normalize` is not part of this model; it is a parameter that keeps images well formed. */
  ghost predicate Normalizes(normalize: Image<Pixel> -> Image<Pixel>) {
    forall img :: Valid(img) ==> Valid(normalize(img))
  }

  /** The state before the first filter: the input image, Point sampling, nothing saved. */
  function Start(input: Image<Pixel>): Session {
    Session(input, Sampling.Point, [])
  }

  /** One arm of the `match filter`; a panic in the arm ends the whole run. */
  function Step(s: Session, f: Filter, normalize: Image<Pixel> -> Image<Pixel>): (r: Result<Session, Panic>)
    requires Valid(s.image) && Normalizes(normalize)
    ensures r.Ok? ==> Valid(r.value.image)
    ensures r.Ok? ==> r.value.mode == (if f.Sample? then f.mode else s.mode)
    ensures r.Ok? ==> r.value.written == s.written + (if f.Output? then [Written(f.path, s.image)] else [])
  {
    match f
    case BlackWhiteLuminosity(cutoff) => Ok(s.(image := Filters.BlackWhite(s.image, cutoff)))
    case Blur =>
      var b :- Blurring.Blur(s.image);
      Ok(s.(image := b))
    case Brighten(k) => Ok(s.(image := Filters.Brighten(s.image, k)))
    case Channel(ch) =>
      var c :- Filters.Channel(s.image, ch);
      Ok(s.(image := c))
    case FloydSteinbergDither(bits) =>
      var d :- Dithering.DitherFilter(s.image, bits);
      Ok(s.(image := normalize(d)))
    case Grayscale => Ok(s.(image := Filters.Grayscale(s.image)))
    case Output(path) => Ok(s.(written := s.written + [Written(path, s.image)]))
    case Quantitize(bits) =>
      var q :- Filters.Quantize(s.image, bits);
      Ok(s.(image := q))
    case Sample(mode) => Ok(s.(mode := mode))
    case Scale(x, y) =>
      var t :- Scaling.Scale(s.image, s.mode, x, y);
      Ok(s.(image := t))
  }

  /** `for filter in args.filters`: the arms in order, stopping at the first panic. */
  function Run(s: Session, filters: seq<Filter>, normalize: Image<Pixel> -> Image<Pixel>): (r: Result<Session, Panic>)
    requires Valid(s.image) && Normalizes(normalize)
    ensures r.Ok? ==> Valid(r.value.image)
    decreases |filters|
  {
    if filters == [] then Ok(s)
    else
      var t :- Step(s, filters[0], normalize);
      Run(t, filters[1..], normalize)
  }

  /**
    The driver loop itself: `image` and `sample_mode` are reassigned arm by
    arm, and a panic ends the run.
   */
  method ApplyFilters(input: Image<Pixel>, filters: seq<Filter>, normalize: Image<Pixel> -> Image<Pixel>)
    returns (r: Result<Session, Panic>)
    requires Valid(input) && Normalizes(normalize)
    ensures r == Run(Start(input), filters, normalize)
  {
    var image := input;
    var mode := Sampling.Point;
    var written: seq<Written> := [];
    for i := 0 to |filters|
      invariant Valid(image)
      invariant Run(Start(input), filters, normalize) == Run(Session(image, mode, written), filters[i..], normalize)
    {
      RunUnfold(Session(image, mode, written), filters[i..], normalize);
      assert filters[i..][0] == filters[i] && filters[i..][1..] == filters[i + 1..];
      var next := ApplyFilter(Session(image, mode, written), filters[i], normalize);
      if next.Err? {
        return Err(next.error);
      }
      image, mode, written := next.value.image, next.value.mode, next.value.written;
    }
    return Ok(Session(image, mode, written));
  }

  /** The body of the loop: the `match filter` on the current image and mode. */
  method ApplyFilter(s: Session, f: Filter, normalize: Image<Pixel> -> Image<Pixel>) returns (r: Result<Session, Panic>)
    requires Valid(s.image) && Normalizes(normalize)
    ensures r == Step(s, f, normalize)
  {
    var image, mode, written := s.image, s.mode, s.written;
    match f {
    case BlackWhiteLuminosity(cutoff) =>
      image := Filters.BlackWhite(image, cutoff);
    case Blur =>
      var b := Blurring.Blur(image);
      if b.Err? {
        return Err(b.error);
      }
      image := b.value;
    case Brighten(k) =>
      image := Filters.Brighten(image, k);
    case Channel(ch) =>
      var c := Filters.Channel(image, ch);
      if c.Err? {
        return Err(c.error);
      }
      image := c.value;
    case FloydSteinbergDither(bits) =>
      var d := Dithering.FloydSteinberg(image, bits);
      if d.Err? {
        return Err(d.error);
      }
      image := normalize(d.value);
    case Grayscale =>
      image := Filters.Grayscale(image);
    case Output(path) =>
      written := written + [Written(path, image)];
    case Quantitize(bits) =>
      var q := Filters.Quantize(image, bits);
      if q.Err? {
        return Err(q.error);
      }
      image := q.value;
    case Sample(m) =>
      mode := m;
    case Scale(x, y) =>
      var t := Scaling.Scale(image, mode, x, y);
      if t.Err? {
        return Err(t.error);
      }
      image := t.value;
    }
    return Ok(Session(image, mode, written));
  }

  /** `Run` on a non-empty list is one step followed by the rest. */
  lemma RunUnfold(s: Session, filters: seq<Filter>, normalize: Image<Pixel> -> Image<Pixel>)
    requires Valid(s.image) && Normalizes(normalize) && filters != []
    ensures Run(s, filters, normalize) ==
              match Step(s, filters[0], normalize)
              case Err(e) => Err(e)
              case Ok(t) => Run(t, filters[1..], normalize)
  {
  }

  /** Running `a + b` runs `a` and then runs `b` on its result; a panic in `a` skips `b`. */
  lemma {:induction false} RunAppend(s: Session, a: seq<Filter>, b: seq<Filter>, normalize: Image<Pixel> -> Image<Pixel>)
    requires Valid(s.image) && Normalizes(normalize)
    ensures Run(s, a + b, normalize) ==
              match Run(s, a, normalize)
              case Err(e) => Err(e)
              case Ok(t) => Run(t, b, normalize)
    decreases |a|
  {
    if a == [] {
      assert a + b == b;
    } else {
      assert (a + b)[0] == a[0] && (a + b)[1..] == a[1..] + b;
      match Step(s, a[0], normalize)
      case Err(_) =>
      case Ok(t) => RunAppend(t, a[1..], b, normalize);
    }
  }

  /** `Sample` changes only the mode the later filters sample with. */
  lemma RunSample(s: Session, m: Sampling.SampleMode, filters: seq<Filter>, normalize: Image<Pixel> -> Image<Pixel>)
    requires Valid(s.image) && Normalizes(normalize)
    ensures Run(s, [Sample(m)] + filters, normalize) == Run(s.(mode := m), filters, normalize)
  {
    var fs := [Sample(m)] + filters;
    assert fs[0] == Sample(m) && fs[1..] == filters;
    RunUnfold(s, fs, normalize);
    StepSample(s, m, normalize);
  }

  lemma StepSample(s: Session, m: Sampling.SampleMode, normalize: Image<Pixel> -> Image<Pixel>)
    requires Valid(s.image) && Normalizes(normalize)
    ensures Step(s, Sample(m), normalize) == Ok(s.(mode := m))
  {
  }

  /** The mode of the last `Sample` filter, or `m` when there is none. */
  function LastMode(m: Sampling.SampleMode, filters: seq<Filter>): Sampling.SampleMode
    decreases |filters|
  {
    if filters == [] then m
    else if filters[|filters| - 1].Sample? then filters[|filters| - 1].mode
    else LastMode(m, filters[..|filters| - 1])
  }

  /** After a run, the sampling mode is the one the last `Sample` filter chose. */
  lemma {:induction false} RunMode(s: Session, filters: seq<Filter>, normalize: Image<Pixel> -> Image<Pixel>)
    requires Valid(s.image) && Normalizes(normalize)
    requires Run(s, filters, normalize).Ok?
    ensures Run(s, filters, normalize).value.mode == LastMode(s.mode, filters)
    decreases |filters|
  {
    if filters != [] {
      var n := |filters| - 1;
      var init := filters[..n];
      assert filters == init + [filters[n]];
      RunAppend(s, init, [filters[n]], normalize);
      var t := Run(s, init, normalize).value;
      RunMode(s, init, normalize);
      assert [filters[n]][1..] == [];
    }
  }

  /** Without a `Sample` filter every filter samples in Point mode, the initial one. */
  lemma PointUnlessSampled(input: Image<Pixel>, filters: seq<Filter>, normalize: Image<Pixel> -> Image<Pixel>)
    requires Valid(input) && Normalizes(normalize)
    requires forall i :: 0 <= i < |filters| ==> !filters[i].Sample?
    requires Run(Start(input), filters, normalize).Ok?
    ensures Run(Start(input), filters, normalize).value.mode == Sampling.Point
  {
    RunMode(Start(input), filters, normalize);
    PointIsLast(filters);
  }

  lemma {:induction false} PointIsLast(filters: seq<Filter>)
    requires forall i :: 0 <= i < |filters| ==> !filters[i].Sample?
    ensures LastMode(Sampling.Point, filters) == Sampling.Point
    decreases |filters|
  {
    if filters != [] {
      PointIsLast(filters[..|filters| - 1]);
    }
  }

  /** The paths of the `Output` filters, in order. */
  function OutputPaths(filters: seq<Filter>): seq<string>
    decreases |filters|
  {
    if filters == [] then []
    else (if filters[0].Output? then [filters[0].path] else []) + OutputPaths(filters[1..])
  }

  function Paths(written: seq<Written>): (ps: seq<string>)
    ensures |ps| == |written| && forall i :: 0 <= i < |written| ==> ps[i] == written[i].path
  {
    seq(|written|, i requires 0 <= i < |written| => written[i].path)
  }

  lemma PathsAppend(a: seq<Written>, b: seq<Written>)
    ensures Paths(a + b) == Paths(a) + Paths(b)
  {
  }

  /**
    A run keeps what was saved before it and saves one image per `Output`
    filter, to that filter's path, in command-line order.
   */
  lemma {:induction false} RunWrites(s: Session, filters: seq<Filter>, normalize: Image<Pixel> -> Image<Pixel>)
    requires Valid(s.image) && Normalizes(normalize)
    requires Run(s, filters, normalize).Ok?
    ensures var w := Run(s, filters, normalize).value.written;
            |s.written| <= |w| && w[..|s.written|] == s.written
    ensures Paths(Run(s, filters, normalize).value.written) == Paths(s.written) + OutputPaths(filters)
    decreases |filters|
  {
    if filters == [] {
      assert Paths(s.written) + [] == Paths(s.written);
    } else {
      var f := filters[0];
      var t := Step(s, f, normalize).value;
      var u := Run(t, filters[1..], normalize).value;
      assert u == Run(s, filters, normalize).value;
      RunWrites(t, filters[1..], normalize);
      var saved := if f.Output? then [Written(f.path, s.image)] else [];
      OutputStep(f, s.image, filters);
      WritesStep(s.written, saved, u.written, OutputPaths(filters[1..]), OutputPaths(filters));
    }
  }

  /** The bookkeeping of one step of `RunWrites`, on plain sequences. */
  lemma WritesStep(before: seq<Written>, saved: seq<Written>, after: seq<Written>, later: seq<string>, all: seq<string>)
    requires Paths(saved) + later == all
    requires |before + saved| <= |after| && after[..|before + saved|] == before + saved
    requires Paths(after) == Paths(before + saved) + later
    ensures |before| <= |after| && after[..|before|] == before
    ensures Paths(after) == Paths(before) + all
  {
    PathsAppend(before, saved);
    assert after[..|before|] == (before + saved)[..|before|];
  }

  lemma OutputStep(f: Filter, image: Image<Pixel>, filters: seq<Filter>)
    requires filters != [] && filters[0] == f
    ensures Paths(if f.Output? then [Written(f.path, image)] else []) + OutputPaths(filters[1..]) == OutputPaths(filters)
  {
  }

  /** The `Scale` arm of `Step`: `scale::filter` in the current mode, its panic ending the run. */
  lemma StepScale(s: Session, x: real, y: real, normalize: Image<Pixel> -> Image<Pixel>)
    requires Valid(s.image) && Normalizes(normalize)
    ensures var t := Scaling.Scale(s.image, s.mode, x, y);
            Step(s, Scale(x, y), normalize) == if t.Ok? then Ok(s.(image := t.value)) else Err(t.error)
  {
  }

  /**
    A `Scale` first thing samples in Point mode, the initial one: the run
    holds the Point-scaled input, or stops with the scaling's panic.
   */
  lemma ScaleFirst(input: Image<Pixel>, x: real, y: real, normalize: Image<Pixel> -> Image<Pixel>)
    requires Valid(input) && Normalizes(normalize)
    ensures var t := Scaling.Scale(input, Sampling.Point, x, y);
            Run(Start(input), [Scale(x, y)], normalize) ==
              if t.Ok? then Ok(Session(t.value, Sampling.Point, [])) else Err(t.error)
  {
    StepScale(Start(input), x, y, normalize);
    RunUnfold(Start(input), [Scale(x, y)], normalize);
    assert [Scale(x, y)][1..] == [];
  }

  /** `-scale 1 1` as the only filter leaves the input as it is. */
  lemma ScaleByOneFirst(input: Image<Pixel>, normalize: Image<Pixel> -> Image<Pixel>)
    requires Valid(input) && Normalizes(normalize)
    ensures Run(Start(input), [Scale(1.0, 1.0)], normalize) == Ok(Start(input))
  {
    ScaleFirst(input, 1.0, 1.0, normalize);
    Scaling.ScaleByOne(input);
  }

  /**
    `-scale 2 2` as the only filter panics on every non-empty input: the
    driver calls `scale::filter` as written, whose last column rounds past
    the edge of the image.
   */
  lemma ScaleByTwoFirstPanics(input: Image<Pixel>, normalize: Image<Pixel> -> Image<Pixel>)
    requires Valid(input) && Normalizes(normalize)
    requires input.width > 0 && input.height > 0
    requires 2 * input.width <= U32Max && 2 * input.height <= U32Max
    ensures Run(Start(input), [Scale(2.0, 2.0)], normalize).Err?
  {
    ScaleFirst(input, 2.0, 2.0, normalize);
    Scaling.ScaleByTwoPanics(input);
  }
}
