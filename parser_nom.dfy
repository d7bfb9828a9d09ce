/**
  The scene-file grammar (asgn2/src/parser/nom.rs), written with the nom 3
  combinators on `&str`.  Every parser returns `Done(rest, value)`, `Error`
  (this input does not match) or `Incomplete` (the input ended before the
  parser could decide); `alt!` moves on to the next alternative only on
  `Error`, and `opt!` turns only `Error` into `None`.
 */
module ParserNom {
  import opened Wrappers
  import L = SceneLines

  datatype IResult<+T> = Done(rest: string, value: T) | Error | Incomplete

  /** A failed parse, passed on unchanged whatever the value type. */
  function Stop<A, B>(r: IResult<A>): (s: IResult<B>)
    requires !r.Done?
    ensures s.Error? <==> r.Error?
    ensures s.Incomplete? <==> r.Incomplete?
  {
    if r.Error? then Error else Incomplete
  }

  /** `alt!` of two alternatives: the second is tried only when the first fails with `Error`. */
  function Alt<T>(first: IResult<T>, second: IResult<T>): IResult<T> {
    if first.Error? then second else first
  }

  predicate IsDigit(c: char) {
    '0' <= c <= '9'
  }

  /** The separators `ws!` skips: space, tab, carriage return and newline. */
  predicate IsSpace(c: char) {
    c == ' ' || c == '\t' || c == '\r' || c == '\n'
  }

  predicate AllDigits(s: string) {
    forall i :: 0 <= i < |s| ==> IsDigit(s[i])
  }

  // ---------------------------------------------------------------------
  // Primitive parsers

  /** `sp`, the separator of `ws!`: drops the leading whitespace and never fails. */
  function SkipSpace(s: string): (r: string)
    ensures |r| <= |s|
  {
    if |s| > 0 && IsSpace(s[0]) then SkipSpace(s[1..]) else s
  }

  /** `sp` drops a prefix made only of whitespace and stops at the first other character. */
  lemma {:induction false} SkipSpaceShape(s: string)
    ensures SkipSpace(s) == s[|s| - |SkipSpace(s)|..]
    ensures SkipSpace(s) == [] || !IsSpace(SkipSpace(s)[0])
    ensures forall i :: 0 <= i < |s| - |SkipSpace(s)| ==> IsSpace(s[i])
  {
    if |s| > 0 && IsSpace(s[0]) {
      SkipSpaceShape(s[1..]);
      assert s[1..][|s| - 1 - |SkipSpace(s)|..] == s[|s| - |SkipSpace(s)|..];
      forall i | 0 <= i < |s| - |SkipSpace(s)|
        ensures IsSpace(s[i])
      {
        if i > 0 {
          assert s[i] == s[1..][i - 1];
        }
      }
    }
  }

  /**
    `tag!(t)`: succeeds on a prefix `t`, is `Incomplete` while the input is
    a proper prefix of `t`, and fails on the first differing character.
   */
  function Tag(s: string, t: string): (r: IResult<string>)
    ensures r.Done? <==> |t| <= |s| && s[..|t|] == t
    ensures r.Done? ==> r.rest == s[|t|..] && r.value == t && s == t + r.rest
    ensures r.Incomplete? <==> |s| < |t| && s == t[..|s|]
  {
    if |t| <= |s| && s[..|t|] == t then
      assert s == s[..|t|] + s[|t|..];
      Done(s[|t|..], t)
    else if |s| < |t| && s == t[..|s|] then
      Incomplete
    else
      Error
  }

  /** The length of the run of decimal digits `s` starts with. */
  function DigitRun(s: string): (n: nat)
    ensures n <= |s| && AllDigits(s[..n])
    ensures n == |s| || !IsDigit(s[n])
  {
    if |s| > 0 && IsDigit(s[0]) then
      var n := 1 + DigitRun(s[1..]);
      assert s[..n] == [s[0]] + s[1..][..n - 1];
      n
    else
      0
  }

  /**
    nom 3's `digit`: `Incomplete` on empty input, `Error` unless the input
    starts with a digit, and otherwise the whole run of digits, even when
    it reaches the end of the input.
   */
  function Digit(s: string): (r: IResult<string>)
    ensures r.Incomplete? <==> s == []
    ensures r.Error? <==> s != [] && !IsDigit(s[0])
    ensures r.Done? ==> |r.value| > 0 && AllDigits(r.value) && s == r.value + r.rest
    ensures r.Done? ==> r.rest == [] || !IsDigit(r.rest[0])
  {
    if |s| == 0 then
      Incomplete
    else if !IsDigit(s[0]) then
      Error
    else
      var n := DigitRun(s);
      assert s == s[..n] + s[n..];
      Done(s[n..], s[..n])
  }

  /** `opt!(digit)`: a digit run, the empty text when there is none, `Incomplete` on empty input. */
  function OptDigit(s: string): (r: IResult<string>)
    ensures r.Incomplete? <==> s == []
    ensures !r.Error?
    ensures r.Done? ==> AllDigits(r.value) && s == r.value + r.rest
    ensures r.Done? ==> r.rest == [] || !IsDigit(r.rest[0])
  {
    var d := Digit(s);
    if d.Error? then Done(s, []) else d
  }

  /** `take_until_s!("\n")`: the text before the first newline, which stays in the input. */
  function TakeUntilNewline(s: string): (r: IResult<string>)
    ensures !r.Error?
    ensures r.Done? <==> '\n' in s
    ensures r.Done? ==> s == r.value + r.rest && '\n' !in r.value && r.rest[0] == '\n'
  {
    if |s| == 0 then
      Incomplete
    else if s[0] == '\n' then
      Done(s, [])
    else
      var t := TakeUntilNewline(s[1..]);
      if t.Done? then Done(t.rest, [s[0]] + t.value) else Incomplete
  }

  // ---------------------------------------------------------------------
  // Real tokens: `f32_s`

  /**
    The text `recognize!` returns for a real, in its parts: an optional
    sign, the digits before the point, whether there is a point, and the
    digits after it.
   */
  datatype RealToken = RealToken(sign: string, whole: string, point: bool, fraction: string)

  function Text(t: RealToken): string {
    t.sign + t.whole + (if t.point then "." else "") + t.fraction
  }

  /**
    The shapes `f32_s` accepts: `12.`, `12.5`, `.5` or `12` after an
    optional sign.  There is no exponent and a lone point is not a number.
   */
  predicate WellFormed(t: RealToken) {
    && (t.sign == "" || t.sign == "+" || t.sign == "-")
    && AllDigits(t.whole) && AllDigits(t.fraction)
    && if t.point then |t.whole| + |t.fraction| > 0 else |t.whole| > 0 && t.fraction == ""
  }

  lemma PointText(s: string, w: string, r1: string, r2: string, f: string, r3: string)
    requires s == w + r1 && r1 == "." + r2 && r2 == f + r3
    ensures s == Text(RealToken("", w, true, f)) + r3
  {
    calc {
      s;
      w + ("." + (f + r3));
      { assert "." + (f + r3) == ("." + f) + r3; }
      w + (("." + f) + r3);
      (w + ("." + f)) + r3;
      { assert w + ("." + f) == "" + w + "." + f; }
      Text(RealToken("", w, true, f)) + r3;
    }
  }

  lemma WholeText(s: string, w: string, r: string)
    requires s == w + r
    ensures s == Text(RealToken("", w, false, "")) + r
  {
    assert Text(RealToken("", w, false, "")) == w;
  }

  lemma SignedText(s: string, sg: string, r1: string, t: RealToken, r2: string)
    requires s == sg + r1 && r1 == Text(t) + r2 && t.sign == ""
    ensures s == Text(t.(sign := sg)) + r2
  {
    var u := if t.point then "." else "";
    calc {
      s;
      sg + ((t.whole + u + t.fraction) + r2);
      { assert Text(t) == t.whole + u + t.fraction; }
      (sg + (t.whole + u + t.fraction)) + r2;
      { assert sg + (t.whole + u + t.fraction) == sg + t.whole + u + t.fraction; }
      Text(t.(sign := sg)) + r2;
    }
  }

  /** `opt!(alt!(tag_s!("+") | tag_s!("-")))`: the sign text, possibly empty. */
  function Sign(s: string): (r: IResult<string>)
    ensures r.Incomplete? <==> s == []
    ensures !r.Error?
    ensures r.Done? ==> s == r.value + r.rest && (r.value == "" || r.value == "+" || r.value == "-")
  {
    Alt(Tag(s, "+"), Alt(Tag(s, "-"), Done(s, "")))
  }

  /** `delimited!(digit, tag_s!("."), opt!(digit))`, recognised. */
  function DigitsPointDigits(s: string): (r: IResult<RealToken>)
    ensures r.Done? ==> s == Text(r.value) + r.rest && WellFormed(r.value)
    ensures r.Done? ==> r.value.sign == "" && r.value.point && |r.value.whole| > 0
  {
    var d1 := Digit(s);
    if d1.Done? then
      var p := Tag(d1.rest, ".");
      if p.Done? then
        var d2 := OptDigit(p.rest);
        if d2.Done? then
          PointText(s, d1.value, d1.rest, p.rest, d2.value, d2.rest);
          Done(d2.rest, RealToken("", d1.value, true, d2.value))
        else
          Stop(d2)
      else
        Stop(p)
    else
      Stop(d1)
  }

  /** `delimited!(opt!(digit), tag_s!("."), digit)`, recognised. */
  function PointDigits(s: string): (r: IResult<RealToken>)
    ensures r.Done? ==> s == Text(r.value) + r.rest && WellFormed(r.value)
    ensures r.Done? ==> r.value.sign == "" && r.value.point && |r.value.fraction| > 0
  {
    var d1 := OptDigit(s);
    if d1.Done? then
      var p := Tag(d1.rest, ".");
      if p.Done? then
        var d2 := Digit(p.rest);
        if d2.Done? then
          PointText(s, d1.value, d1.rest, p.rest, d2.value, d2.rest);
          Done(d2.rest, RealToken("", d1.value, true, d2.value))
        else
          Stop(d2)
      else
        Stop(p)
    else
      Stop(d1)
  }

  /** The last alternative, `digit`: an integer token. */
  function WholeDigits(s: string): (r: IResult<RealToken>)
    ensures r.Done? ==> s == Text(r.value) + r.rest && WellFormed(r.value)
    ensures r.Done? ==> r.value.sign == "" && !r.value.point
  {
    var d := Digit(s);
    if d.Done? then
      WholeText(s, d.value, d.rest);
      Done(d.rest, RealToken("", d.value, false, ""))
    else
      Stop(d)
  }

  /** The three alternatives of the unsigned part of `f32_s`, in their order. */
  function UnsignedReal(s: string): (r: IResult<RealToken>)
    ensures r.Done? ==> s == Text(r.value) + r.rest && WellFormed(r.value) && r.value.sign == ""
  {
    Alt(DigitsPointDigits(s), Alt(PointDigits(s), WholeDigits(s)))
  }

  /** `recognize!` of the sign and the unsigned part: the token `f32_s` reads. */
  function RecognizeReal(s: string): (r: IResult<RealToken>)
    ensures r.Done? ==> s == Text(r.value) + r.rest && WellFormed(r.value)
    ensures r.Done? ==> |r.rest| < |s|
  {
    var sg := Sign(s);
    if sg.Done? then
      var u := UnsignedReal(sg.rest);
      if u.Done? then
        SignedText(s, sg.value, sg.rest, u.value, u.rest);
        Done(u.rest, u.value.(sign := sg.value))
      else
        Stop(u)
    else
      Stop(sg)
  }

  /** The value of a string of decimal digits. */
  function NatValue(d: string): nat
    requires AllDigits(d)
  {
    if |d| == 0 then 0 else 10 * NatValue(d[..|d| - 1]) + (d[|d| - 1] as int - '0' as int)
  }

  function Pow10(n: nat): (p: nat)
    ensures p >= 1
  {
    if n == 0 then 1 else 10 * Pow10(n - 1)
  }

  /**
    `parse_to!(f32)` on a real token, exactly: the integer digits plus the
    fraction digits over the matching power of ten, negated after a `-`.
   */
  function DecimalValue(t: RealToken): real
    requires WellFormed(t)
  {
    var magnitude := NatValue(t.whole) as real + NatValue(t.fraction) as real / Pow10(|t.fraction|) as real;
    if t.sign == "-" then -magnitude else magnitude
  }

  /** `f32_s`: a real token and its value. */
  function Real(s: string): (r: IResult<real>)
    ensures r.Done? ==> |r.rest| < |s|
  {
    var t := RecognizeReal(s);
    if t.Done? then Done(t.rest, DecimalValue(t.value)) else Stop(t)
  }

  // ---------------------------------------------------------------------
  // Natural tokens: `u32_s` and `usize_s`

  /** The range of `u32`. */
  const U32Limit: nat := 0x1_0000_0000

  /** The range of `usize` on a 64-bit target. */
  const UsizeLimit: nat := 0x1_0000_0000_0000_0000

  /**
    `u32_s` and `usize_s`: a run of digits whose value must lie below
    `limit`; `parse_to!` fails on a larger one.  There is no sign.
   */
  function Natural(s: string, limit: nat): (r: IResult<nat>)
    ensures r.Done? <==> Digit(s).Done? && NatValue(Digit(s).value) < limit
    ensures r.Done? ==> r.rest == Digit(s).rest && r.value == NatValue(Digit(s).value)
    ensures r.Incomplete? <==> s == []
  {
    var d := Digit(s);
    if d.Done? then
      if NatValue(d.value) < limit then Done(d.rest, NatValue(d.value)) else Error
    else
      Stop(d)
  }

  // ---------------------------------------------------------------------
  // Argument lists: `ws!` skips whitespace before every token

  /** `n` reals in a row. */
  function RealList(s: string, n: nat): (r: IResult<seq<real>>)
    ensures r.Done? ==> |r.value| == n && |r.rest| <= |s|
    ensures r.Done? && n > 0 ==> |r.rest| < |s|
    decreases n
  {
    if n == 0 then
      Done(s, [])
    else
      var x := Real(SkipSpace(s));
      if x.Done? then
        var xs := RealList(x.rest, n - 1);
        if xs.Done? then Done(xs.rest, [x.value] + xs.value) else Stop(xs)
      else
        Stop(x)
  }

  /** `n` unsigned integers in a row, each below `limit`. */
  function NaturalList(s: string, n: nat, limit: nat): (r: IResult<seq<nat>>)
    ensures r.Done? ==> |r.value| == n && |r.rest| <= |s|
    ensures r.Done? && n > 0 ==> |r.rest| < |s|
    ensures r.Done? ==> forall i :: 0 <= i < n ==> r.value[i] < limit
    decreases n
  {
    if n == 0 then
      Done(s, [])
    else
      var x := Natural(SkipSpace(s), limit);
      if x.Done? then
        var xs := NaturalList(x.rest, n - 1, limit);
        if xs.Done? then Done(xs.rest, [x.value] + xs.value) else Stop(xs)
      else
        Stop(x)
  }

  // ---------------------------------------------------------------------
  // Directives: `ws!(do_parse!(tag_s!(keyword) >> arguments >> (Line)))`

  /** The eighteen directive parsers of `parse_line_no_comment`. */
  datatype Directive =
    | Camera | FilmResolution | OutputImage | MaxVertices | MaxNormals
    | Vertex | Normal | Triangle | NormalTriangle | Plane | Sphere | Background
    | Material | DirectionalLight | PointLight | SpotLight | AmbientLight | MaxDepth

  /** The order in which `alt!` tries them. */
  const Order: seq<Directive> := [
    Camera, FilmResolution, OutputImage, MaxVertices, MaxNormals,
    Vertex, Normal, Triangle, NormalTriangle, Plane, Sphere, Background,
    Material, DirectionalLight, PointLight, SpotLight, AmbientLight, MaxDepth]

  function Keyword(d: Directive): (kw: string)
    ensures |kw| > 0
  {
    match d
    case Camera => "camera"
    case FilmResolution => "film_resolution"
    case OutputImage => "output_image"
    case MaxVertices => "max_vertices"
    case MaxNormals => "max_normals"
    case Vertex => "vertex"
    case Normal => "normal"
    case Triangle => "triangle"
    case NormalTriangle => "normal_triangle"
    case Plane => "plane"
    case Sphere => "sphere"
    case Background => "background"
    case Material => "material"
    case DirectionalLight => "directional_light"
    case PointLight => "point_light"
    case SpotLight => "spot_light"
    case AmbientLight => "ambient_light"
    case MaxDepth => "max_depth"
  }

  /** What follows a keyword: `n` `f32_s`, `n` `u32_s`/`usize_s`, or the rest of the line. */
  datatype Signature = RealArgs(count: nat) | NaturalArgs(count: nat, limit: nat) | PathArg

  function SignatureOf(d: Directive): Signature {
    match d
    case Camera => RealArgs(10)
    case FilmResolution => NaturalArgs(2, U32Limit)
    case OutputImage => PathArg
    case MaxVertices => NaturalArgs(1, UsizeLimit)
    case MaxNormals => NaturalArgs(1, UsizeLimit)
    case Vertex => RealArgs(3)
    case Normal => RealArgs(3)
    case Triangle => NaturalArgs(3, UsizeLimit)
    case NormalTriangle => NaturalArgs(6, UsizeLimit)
    case Plane => RealArgs(6)
    case Sphere => RealArgs(4)
    case Background => RealArgs(3)
    case Material => RealArgs(14)
    case DirectionalLight => RealArgs(7)
    case PointLight => RealArgs(7)
    case SpotLight => RealArgs(12)
    case AmbientLight => RealArgs(3)
    case MaxDepth => NaturalArgs(1, UsizeLimit)
  }

  /** Parsed arguments. */
  datatype Arguments = Reals(xs: seq<real>) | Naturals(ns: seq<nat>) | Path(text: string)

  /** Arguments of the shape a signature asks for. */
  predicate Fits(sig: Signature, a: Arguments) {
    match sig
    case RealArgs(n) => a.Reals? && |a.xs| == n
    case NaturalArgs(n, limit) => a.Naturals? && |a.ns| == n && forall i :: 0 <= i < n ==> a.ns[i] < limit
    case PathArg => a.Path? && '\n' !in a.text
  }

  /**
    The arguments after a keyword.  A path is `ws!(take_until_s!("\n"))`:
    the leading whitespace, newlines included, is skipped first.
   */
  function ParseArguments(s: string, sig: Signature): (r: IResult<Arguments>)
    ensures r.Done? ==> Fits(sig, r.value) && |r.rest| <= |s|
  {
    match sig
    case RealArgs(n) =>
      var xs := RealList(s, n);
      if xs.Done? then Done(xs.rest, Reals(xs.value)) else Stop(xs)
    case NaturalArgs(n, limit) =>
      var ns := NaturalList(s, n, limit);
      if ns.Done? then Done(ns.rest, Naturals(ns.value)) else Stop(ns)
    case PathArg =>
      var p := TakeUntilNewline(SkipSpace(s));
      if p.Done? then Done(p.rest, Path(p.value)) else Stop(p)
  }

  /** The directive a line came from. */
  function DirectiveOf(l: L.Line): Directive {
    match l
    case Camera(_, _, _, _, _, _, _, _, _, _) => Camera
    case Resolution(_, _) => FilmResolution
    case Output(_) => OutputImage
    case MaxVertices(_) => MaxVertices
    case MaxNormals(_) => MaxNormals
    case Vertex(_, _, _) => Vertex
    case Normal(_, _, _) => Normal
    case Triangle(_, _, _) => Triangle
    case NormalTriangle(_, _, _, _, _, _) => NormalTriangle
    case Plane(_, _, _, _, _, _) => Plane
    case Sphere(_, _, _, _) => Sphere
    case Background(_, _, _) => Background
    case Material(_, _, _, _, _, _, _, _, _, _, _, _, _, _) => Material
    case DirectionalLight(_, _, _, _, _, _, _) => DirectionalLight
    case PointLight(_, _, _, _, _, _, _) => PointLight
    case SpotLight(_, _, _, _, _, _, _, _, _, _, _, _) => SpotLight
    case AmbientLight(_, _, _) => AmbientLight
    case MaxDepth(_) => MaxDepth
  }

  /** The `Line` a directive builds from its arguments, in the order they were read. */
  function MakeLine(d: Directive, a: Arguments): (l: L.Line)
    requires Fits(SignatureOf(d), a)
    ensures DirectiveOf(l) == d
  {
    match d
    case Camera =>
      var v := a.xs;
      L.Camera(v[0], v[1], v[2], v[3], v[4], v[5], v[6], v[7], v[8], v[9])
    case FilmResolution => L.Resolution(a.ns[0], a.ns[1])
    case OutputImage => L.Output(a.text)
    case MaxVertices => L.MaxVertices(a.ns[0])
    case MaxNormals => L.MaxNormals(a.ns[0])
    case Vertex => L.Vertex(a.xs[0], a.xs[1], a.xs[2])
    case Normal => L.Normal(a.xs[0], a.xs[1], a.xs[2])
    case Triangle => L.Triangle(a.ns[0], a.ns[1], a.ns[2])
    case NormalTriangle => L.NormalTriangle(a.ns[0], a.ns[1], a.ns[2], a.ns[3], a.ns[4], a.ns[5])
    case Plane => L.Plane(a.xs[0], a.xs[1], a.xs[2], a.xs[3], a.xs[4], a.xs[5])
    case Sphere => L.Sphere(a.xs[0], a.xs[1], a.xs[2], a.xs[3])
    case Background => L.Background(a.xs[0], a.xs[1], a.xs[2])
    case Material =>
      var v := a.xs;
      L.Material(v[0], v[1], v[2], v[3], v[4], v[5], v[6], v[7], v[8], v[9], v[10], v[11], v[12], v[13])
    case DirectionalLight => L.DirectionalLight(a.xs[0], a.xs[1], a.xs[2], a.xs[3], a.xs[4], a.xs[5], a.xs[6])
    case PointLight => L.PointLight(a.xs[0], a.xs[1], a.xs[2], a.xs[3], a.xs[4], a.xs[5], a.xs[6])
    case SpotLight =>
      var v := a.xs;
      L.SpotLight(v[0], v[1], v[2], v[3], v[4], v[5], v[6], v[7], v[8], v[9], v[10], v[11])
    case AmbientLight => L.AmbientLight(a.xs[0], a.xs[1], a.xs[2])
    case MaxDepth => L.MaxDepth(a.ns[0])
  }

  /**
    One directive parser: whitespace, the keyword (no separator is required
    after it), the arguments, and the trailing whitespace `ws!` skips.
   */
  function ParseDirective(s: string, d: Directive): (r: IResult<L.Line>)
    ensures r.Done? ==> DirectiveOf(r.value) == d && |r.rest| < |s|
  {
    var k := Tag(SkipSpace(s), Keyword(d));
    if k.Done? then
      var a := ParseArguments(k.rest, SignatureOf(d));
      if a.Done? then Done(SkipSpace(a.rest), MakeLine(d, a.value)) else Stop(a)
    else
      Stop(k)
  }

  /** `alt!` over the directives from the `k`-th on, in order. */
  function TryFrom(s: string, k: nat): (r: IResult<L.Line>)
    requires k <= |Order|
    ensures r.Done? ==> |r.rest| < |s|
    decreases |Order| - k
  {
    if k == |Order| then Error else Alt(ParseDirective(s, Order[k]), TryFrom(s, k + 1))
  }

  /** `parse_line_no_comment`. */
  function ParseLineNoComment(s: string): (r: IResult<L.Line>)
    ensures r.Done? ==> |r.rest| < |s|
  {
    TryFrom(s, 0)
  }

  // ---------------------------------------------------------------------
  // Lines

  /** `comment`: `#` and the text up to the next newline; it yields no line. */
  function Comment(s: string): (r: IResult<Option<L.Line>>)
    ensures r.Done? ==> r.value == None && |r.rest| < |s|
  {
    var h := Tag(s, "#");
    if h.Done? then
      var t := TakeUntilNewline(h.rest);
      if t.Done? then Done(t.rest, None) else Stop(t)
    else
      Stop(h)
  }

  /** `parse_line`: a comment or a directive, with the surrounding whitespace. */
  function ParseLine(s: string): (r: IResult<Option<L.Line>>)
    ensures r.Done? ==> |r.rest| < |s|
  {
    var t := SkipSpace(s);
    var directive := ParseLineNoComment(t);
    var r := Alt(Comment(t), if directive.Done? then Done(directive.rest, Some(directive.value)) else Stop(directive));
    if r.Done? then Done(SkipSpace(r.rest), r.value) else r
  }

  /**
    `many0!(parse_line)`: lines until the input is empty or a line fails
    with `Error`; `Incomplete` is passed on, and a line that consumes
    nothing is an error.
   */
  function ManyLines(s: string): IResult<seq<Option<L.Line>>>
    decreases |s|
  {
    if |s| == 0 then
      Done(s, [])
    else
      var l := ParseLine(s);
      if l.Error? then
        Done(s, [])
      else if l.Incomplete? then
        Incomplete
      else if |l.rest| >= |s| then
        Error
      else
        var ls := ManyLines(l.rest);
        if ls.Done? then Done(ls.rest, [l.value] + ls.value) else Stop(ls)
  }

  /** The `filter_map` of `parse_lines`: the lines, comments dropped, in order. */
  function Present(os: seq<Option<L.Line>>): (ls: seq<L.Line>)
    ensures |ls| <= |os|
  {
    if |os| == 0 then []
    else (if os[0].Some? then [os[0].value] else []) + Present(os[1..])
  }

  /**
    `parse_lines`: `complete!(map!(many0!(parse_line), ...))`.  The text
    after the last line that parsed is returned for the caller to check;
    `complete!` turns `Incomplete` into an error.
   */
  function ParseLines(s: string): Result<(string, seq<L.Line>), L.NomError> {
    var m := ManyLines(s);
    if m.Done? then Ok((m.rest, Present(m.value)))
    else if m.Error? then Err(L.Many0)
    else Err(L.Complete)
  }

  // ---------------------------------------------------------------------
  // Properties of the line grammar

  /** `many0!`'s guard against a line that consumes nothing never fires: `parse_lines` never reports `Many0`. */
  lemma {:induction false} ManyLinesNeverError(s: string)
    ensures !ManyLines(s).Error?
    ensures !ParseLines(s).Err? || ParseLines(s).error == L.Complete
    decreases |s|
  {
    if |s| > 0 && ParseLine(s).Done? {
      ManyLinesNeverError(ParseLine(s).rest);
    }
  }

  /**
    `many0!` stops exactly at the first line that fails with `Error` (or at
    the end of the input): the text `parse_lines` leaves over is empty or
    starts with a line that does not parse.
   */
  lemma {:induction false} ManyLinesStop(s: string)
    requires ManyLines(s).Done?
    ensures ManyLines(s).rest == [] || ParseLine(ManyLines(s).rest).Error?
    decreases |s|
  {
    if |s| > 0 && ParseLine(s).Done? {
      ManyLinesStop(ParseLine(s).rest);
    }
  }

  lemma ParseLinesStop(s: string, rest: string, ls: seq<L.Line>)
    requires ParseLines(s) == Ok((rest, ls))
    ensures rest == [] || ParseLine(rest).Error?
  {
    ManyLinesStop(s);
  }

  /** Each line parsed in turn: a `Done` line is followed by the lines of what it left. */
  lemma ManyLinesStep(s: string)
    requires s != [] && ParseLine(s).Done? && ManyLines(ParseLine(s).rest).Done?
    ensures ManyLines(s) == Done(ManyLines(ParseLine(s).rest).rest, [ParseLine(s).value] + ManyLines(ParseLine(s).rest).value)
  {
  }

  /** The empty file parses to no lines. */
  lemma ParseLinesEmpty()
    ensures ParseLines("") == Ok(("", []))
  {
  }

  /** A non-empty file of nothing but whitespace is `Incomplete`, which `complete!` reports. */
  lemma WhitespaceOnly(s: string)
    requires s != [] && forall i :: 0 <= i < |s| ==> IsSpace(s[i])
    ensures ParseLines(s) == Err(L.Complete)
  {
    SkipSpaceShape(s);
    assert Tag(SkipSpace(s), "#").Incomplete?;
  }

  /** The `filter_map` commutes with concatenation. */
  lemma {:induction false} PresentAppend(a: seq<Option<L.Line>>, b: seq<Option<L.Line>>)
    ensures Present(a + b) == Present(a) + Present(b)
  {
    if |a| > 0 {
      var head := if a[0].Some? then [a[0].value] else [];
      assert (a + b)[0] == a[0];
      assert (a + b)[1..] == a[1..] + b;
      calc {
        Present(a + b);
        head + Present(a[1..] + b);
        { PresentAppend(a[1..], b); }
        head + (Present(a[1..]) + Present(b));
        (head + Present(a[1..])) + Present(b);
        Present(a) + Present(b);
      }
    } else {
      assert a + b == b;
    }
  }

  /** A comment contributes nothing to the lines, a directive exactly its line. */
  lemma PresentOne(o: Option<L.Line>)
    ensures o.None? ==> Present([o]) == []
    ensures o.Some? ==> Present([o]) == [o.value]
  {
    assert [o][1..] == [];
  }

  // Comments

  lemma {:induction false} TakeUntilNewlineOf(c: string, rest: string)
    requires '\n' !in c
    ensures TakeUntilNewline(c + "\n" + rest) == Done("\n" + rest, c)
  {
    if |c| > 0 {
      assert (c + "\n" + rest)[1..] == c[1..] + "\n" + rest;
      TakeUntilNewlineOf(c[1..], rest);
      assert [c[0]] + c[1..] == c;
    }
  }

  lemma CommentOf(c: string, rest: string)
    requires '\n' !in c
    ensures Comment("#" + c + "\n" + rest) == Done("\n" + rest, None)
  {
    var s := "#" + c + "\n" + rest;
    assert s == "#" + (c + "\n" + rest);
    TakeUntilNewlineOf(c, rest);
    assert Tag(s, "#") == Done(c + "\n" + rest, "#");
  }

  /** A comment line is consumed up to its newline and yields no line. */
  lemma CommentLine(c: string, rest: string)
    requires '\n' !in c
    ensures ParseLine("#" + c + "\n" + rest) == Done(SkipSpace("\n" + rest), None)
  {
    var s := "#" + c + "\n" + rest;
    assert SkipSpace(s) == s by {
      assert s[0] == '#';
    }
    CommentOf(c, rest);
  }

  /** A comment on the last line, with no newline after it, is `Incomplete`. */
  lemma CommentAtEnd(c: string)
    requires '\n' !in c
    ensures ParseLine("#" + c).Incomplete?
  {
    var s := "#" + c;
    assert s[1..] == c;
    assert Tag(s, "#") == Done(c, "#");
  }

  // Real tokens

  lemma {:induction false} DigitRunOf(d: string, rest: string)
    requires AllDigits(d) && (rest == [] || !IsDigit(rest[0]))
    ensures DigitRun(d + rest) == |d|
  {
    if |d| > 0 {
      assert (d + rest)[1..] == d[1..] + rest;
      DigitRunOf(d[1..], rest);
    } else {
      assert d + rest == rest;
    }
  }

  /** `digit` reads exactly a maximal digit run. */
  lemma DigitOf(d: string, rest: string)
    requires |d| > 0 && AllDigits(d) && (rest == [] || !IsDigit(rest[0]))
    ensures Digit(d + rest) == Done(rest, d)
  {
    DigitRunOf(d, rest);
    assert (d + rest)[..|d|] == d && (d + rest)[|d|..] == rest;
  }

  lemma OptDigitOf(d: string, rest: string)
    requires AllDigits(d) && rest != [] && !IsDigit(rest[0])
    ensures OptDigit(d + rest) == Done(rest, d)
  {
    if |d| > 0 {
      DigitOf(d, rest);
    } else {
      assert d + rest == rest;
    }
  }

  lemma SignOf(sg: string, x: string)
    requires sg == "" || sg == "+" || sg == "-"
    requires x != [] && x[0] != '+' && x[0] != '-'
    ensures Sign(sg + x) == Done(x, sg)
  {
    if sg == "" {
      assert sg + x == x;
    } else {
      assert (sg + x)[..1] == sg && (sg + x)[1..] == x;
    }
  }

  lemma PointFirst(whole: string, fraction: string, rest: string)
    requires AllDigits(whole) && AllDigits(fraction) && rest != [] && !IsDigit(rest[0]) && rest[0] != '.'
    requires |whole| > 0
    ensures DigitsPointDigits(Text(RealToken("", whole, true, fraction)) + rest) == Done(rest, RealToken("", whole, true, fraction))
  {
    var s := Text(RealToken("", whole, true, fraction)) + rest;
    assert s == whole + ("." + (fraction + rest));
    DigitOf(whole, "." + (fraction + rest));
    assert Tag("." + (fraction + rest), ".") == Done(fraction + rest, ".");
    OptDigitOf(fraction, rest);
  }

  lemma PointSecond(fraction: string, rest: string)
    requires AllDigits(fraction) && |fraction| > 0 && rest != [] && !IsDigit(rest[0]) && rest[0] != '.'
    ensures UnsignedReal(Text(RealToken("", "", true, fraction)) + rest) == Done(rest, RealToken("", "", true, fraction))
  {
    var s := Text(RealToken("", "", true, fraction)) + rest;
    assert s == "." + (fraction + rest);
    assert Digit(s).Error?;
    assert Tag(s, ".") == Done(fraction + rest, ".");
    DigitOf(fraction, rest);
  }

  lemma WholeOnly(whole: string, rest: string)
    requires AllDigits(whole) && |whole| > 0 && rest != [] && !IsDigit(rest[0]) && rest[0] != '.'
    ensures UnsignedReal(Text(RealToken("", whole, false, "")) + rest) == Done(rest, RealToken("", whole, false, ""))
  {
    var s := Text(RealToken("", whole, false, "")) + rest;
    assert s == whole + rest;
    DigitOf(whole, rest);
    OptDigitOf(whole, rest);
    assert Tag(rest, ".").Error?;
  }

  lemma UnsignedRealOf(t: RealToken, rest: string)
    requires WellFormed(t) && t.sign == ""
    requires rest != [] && !IsDigit(rest[0]) && rest[0] != '.'
    ensures UnsignedReal(Text(t) + rest) == Done(rest, t)
  {
    if t.point && |t.whole| > 0 {
      PointFirst(t.whole, t.fraction, rest);
    } else if t.point {
      PointSecond(t.fraction, rest);
    } else {
      WholeOnly(t.whole, rest);
    }
  }

  /**
    Reading back: `f32_s` recognises exactly a well-formed token followed
    by anything that cannot continue it (no digit, no point).  With the
    soundness clauses of `RecognizeReal` this makes recognition the inverse
    of `Text`.
   */
  lemma RecognizeRealOf(t: RealToken, rest: string)
    requires WellFormed(t)
    requires rest != [] && !IsDigit(rest[0]) && rest[0] != '.'
    ensures RecognizeReal(Text(t) + rest) == Done(rest, t)
  {
    var u := t.(sign := "");
    var x := Text(u) + rest;
    assert Text(t) + rest == t.sign + x;
    assert x[0] == if |t.whole| > 0 then t.whole[0] else '.';
    SignOf(t.sign, x);
    UnsignedRealOf(u, rest);
  }

  /** There is no exponent: `1e5` is the token `1` followed by `e5`. */
  lemma ExponentNotConsumed(rest: string)
    ensures RecognizeReal("1e5" + rest) == Done("e5" + rest, RealToken("", "1", false, ""))
  {
    var t := RealToken("", "1", false, "");
    assert Text(t) + ("e5" + rest) == "1e5" + rest;
    RecognizeRealOf(t, "e5" + rest);
  }

  /** A point with no digit on either side is not a number. */
  lemma LonePointRejected(rest: string)
    requires rest != [] && !IsDigit(rest[0])
    ensures RecognizeReal("." + rest).Error?
  {
    var s := "." + rest;
    assert Sign(s) == Done(s, "") by {
      SignOf("", s);
      assert "" + s == s;
    }
    assert Digit(s).Error?;
    assert Tag(s, ".") == Done(rest, ".");
  }

  /**
    An integer at the very end of the input is `Incomplete`: the first
    alternative has read the digits and is waiting for a point.
   */
  lemma IntegerAtEnd(d: string)
    requires |d| > 0 && AllDigits(d)
    ensures RecognizeReal(d).Incomplete?
  {
    assert "" + d == d && d + "" == d;
    SignOf("", d);
    DigitOf(d, "");
  }

  /** `-1.5` reads as minus one and a half. */
  lemma NegativeExample()
    ensures Real("-1.5 ") == Done(" ", -1.5)
  {
    var t := RealToken("-", "1", true, "5");
    assert Text(t) + " " == "-1.5 ";
    RecognizeRealOf(t, " ");
    DigitValues();
  }

  /** `.5` reads as one half. */
  lemma FractionExample()
    ensures Real(".5\n") == Done("\n", 0.5)
  {
    var t := RealToken("", "", true, "5");
    assert Text(t) + "\n" == ".5\n";
    RecognizeRealOf(t, "\n");
    DigitValues();
  }

  lemma DigitValues()
    ensures NatValue("1") == 1 && NatValue("5") == 5 && NatValue("") == 0 && Pow10(1) == 10
  {
    assert "1"[..0] == "" && "5"[..0] == "";
  }

  /** Counts and indices take no sign. */
  lemma NaturalHasNoSign(x: string, limit: nat)
    ensures Natural("-" + x, limit).Error?
    ensures Natural("+" + x, limit).Error?
  {
    assert ("-" + x)[0] == '-' && ("+" + x)[0] == '+';
  }

  // Directive order

  lemma TagMismatch(s: string, kw: string)
    requires 0 < |kw| <= |s| && s[0] != kw[0]
    ensures Tag(s, kw).Error?
  {
    assert s[..|kw|][0] != kw[0];
  }

  /** A directive whose keyword does not match fails with `Error`. */
  lemma KeywordMismatch(s: string, d: Directive)
    requires Tag(SkipSpace(s), Keyword(d)).Error?
    ensures ParseDirective(s, d).Error?
  {
  }

  /** No real starts with `_`. */
  lemma NoRealAtUnderscore(x: string)
    requires x != [] && x[0] == '_'
    ensures RecognizeReal(x).Error?
  {
    SignOf("", x);
    assert "" + x == x;
    assert Digit(x).Error? && Tag(x, ".").Error?;
  }

  /** `normal` reads its keyword off `normal_triangle` and then fails on the `_`. */
  lemma NormalFailsOnUnderscore(s: string)
    requires |s| > 6 && s[..6] == "normal" && s[6] == '_'
    ensures ParseDirective(s, Normal).Error?
  {
    assert SkipSpace(s) == s by {
      assert s[..6][0] == 'n';
    }
    var x := s[6..];
    assert SkipSpace(x) == x by {
      assert x[0] == '_';
    }
    NoRealAtUnderscore(x);
    assert RealList(x, 3).Error?;
  }

  /** A directive whose keyword starts with another letter than the line fails with `Error`. */
  lemma OtherLetterFails(s: string, d: Directive)
    requires |s| >= 15 && s[0] == 'n'
    requires 0 < |Keyword(d)| <= 15 && Keyword(d)[0] != 'n'
    ensures ParseDirective(s, d).Error?
  {
    assert SkipSpace(s) == s;
    TagMismatch(s, Keyword(d));
    KeywordMismatch(s, d);
  }

  /** The keywords ahead of `normal` in the alternation all start with another letter. */
  lemma KeywordInitial(k: nat)
    requires k < 8 && k != 6
    ensures 0 < |Keyword(Order[k])| <= 15 && Keyword(Order[k])[0] != 'n'
  {
    if k == 0 {
    } else if k == 1 {
    } else if k == 2 {
    } else if k == 3 {
    } else if k == 4 {
    } else if k == 5 {
    } else {
    }
  }

  lemma RejectAt(s: string, k: nat)
    requires |s| >= 15 && s[..6] == "normal" && s[6] == '_'
    requires k < 8
    ensures ParseDirective(s, Order[k]).Error?
  {
    if k == 6 {
      NormalFailsOnUnderscore(s);
    } else {
      assert s[0] == s[..6][0];
      KeywordInitial(k);
      OtherLetterFails(s, Order[k]);
    }
  }

  /**
    A line starting with `normal_` is rejected by the eight directive parsers
    tried before `normal_triangle`: six keywords start with another letter,
    and `normal` reads its keyword and then fails on the `_`.
   */
  lemma FirstEightReject(s: string)
    requires |s| >= 15 && s[..6] == "normal" && s[6] == '_'
    ensures forall k :: 0 <= k < 8 ==> ParseDirective(s, Order[k]).Error?
  {
    forall k | 0 <= k < 8
      ensures ParseDirective(s, Order[k]).Error?
    {
      RejectAt(s, k);
    }
  }

  /** One step of the alternation. */
  lemma TryFromStep(s: string, k: nat)
    requires k < |Order|
    ensures TryFrom(s, k) == Alt(ParseDirective(s, Order[k]), TryFrom(s, k + 1))
  {
  }

  /** `alt!` passes over the alternatives that fail with `Error`. */
  lemma {:induction false} SkipErrors(s: string, j: nat, k: nat)
    requires j <= k <= |Order|
    requires forall i :: j <= i < k ==> ParseDirective(s, Order[i]).Error?
    ensures TryFrom(s, j) == TryFrom(s, k)
    decreases k - j
  {
    if j < k {
      TryFromStep(s, j);
      SkipErrors(s, j + 1, k);
    }
  }

  lemma NormalTriangleIsNinth()
    ensures Order[8] == NormalTriangle
  {
  }

  /**
    A line that the first eight directive parsers reject reaches the
    `normal_triangle` parser, whose answer is the answer of the whole
    alternation unless it fails too.
   */
  lemma ReachesNormalTriangle(s: string)
    requires forall k :: 0 <= k < 8 ==> ParseDirective(s, Order[k]).Error?
    ensures !ParseDirective(s, NormalTriangle).Error? ==>
      ParseLineNoComment(s) == ParseDirective(s, NormalTriangle)
  {
    SkipErrors(s, 0, 8);
    TryFromStep(s, 8);
    NormalTriangleIsNinth();
  }

  /**
    `normal_triangle` is listed after `normal` yet still reachable, because
    `normal` fails on the `_` with `Error` rather than `Incomplete`.
   */
  lemma NormalTriangleReachesItsParser(rest: string)
    ensures var s := "normal_triangle" + rest;
      !ParseDirective(s, NormalTriangle).Error? ==>
        ParseLineNoComment(s) == ParseDirective(s, NormalTriangle)
  {
    var s := "normal_triangle" + rest;
    assert s[..6] == "normal" && s[6] == '_';
    FirstEightReject(s);
    ReachesNormalTriangle(s);
  }
}
