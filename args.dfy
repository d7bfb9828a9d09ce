/**
  The asgn1 command line (asgn1/src/args.rs): `-input PATH` followed by
  filters.  Parsing a number is `str::parse::<f32>`, which is passed in as
  `parseF32`.
 */
module CommandLine {
  import opened Wrappers

  /** The filters this parser knows. */
  datatype Filter =
    | Output(path: string)     // write the current image to `path`
    | Scale(x: real, y: real)  // scale by `x` horizontally and `y` vertically

  datatype Args = Args(input: string, filters: seq<Filter>)

  /**
    The filters spelt by `tokens`, or `None` when a token is unknown, a
    flag lacks its argument or a `-scale` factor is not a number.
   */
  function ParseFilters(tokens: seq<string>, parseF32: string -> Option<real>): Option<seq<Filter>>
    decreases |tokens|
  {
    if |tokens| == 0 then Some([])
    else if tokens[0] == "-output" then
      if |tokens| < 2 then None
      else
        var rest :- ParseFilters(tokens[2..], parseF32);
        Some([Output(tokens[1])] + rest)
    else if tokens[0] == "-scale" then
      if |tokens| < 2 then None
      else
        var x :- parseF32(tokens[1]);
        if |tokens| < 3 then None
        else
          var y :- parseF32(tokens[2]);
          var rest :- ParseFilters(tokens[3..], parseF32);
          Some([Scale(x, y)] + rest)
    else None
  }

  /**
    What `parse` returns for the whole argument list `argv`, program name
    included.
   */
  function Parsed(argv: seq<string>, parseF32: string -> Option<real>): Option<Args> {
    if |argv| < 2 || argv[1] != "-input" then None
    else if |argv| < 3 then None
    else
      var filters :- ParseFilters(argv[3..], parseF32);
      Some(Args(argv[2], filters))
  }

  /** `prefix` put in front of the filters that are still to be parsed. */
  function Extend(input: string, prefix: seq<Filter>, rest: Option<seq<Filter>>): Option<Args> {
    if rest.None? then None else Some(Args(input, prefix + rest.value))
  }

  /** `filter` put in front of a parse result. */
  function Prepend(filter: Filter, rest: Option<seq<Filter>>): Option<seq<Filter>> {
    if rest.None? then None else Some([filter] + rest.value)
  }

  /** Moving one parsed filter from the pending result onto the prefix. */
  lemma ExtendStep(input: string, prefix: seq<Filter>, filter: Filter, rest: Option<seq<Filter>>)
    ensures Extend(input, prefix, Prepend(filter, rest)) == Extend(input, prefix + [filter], rest)
  {
    if rest.Some? {
      assert prefix + ([filter] + rest.value) == (prefix + [filter]) + rest.value;
    }
  }

  /** One `-output PATH` at the front of the tokens. */
  lemma ParseOutput(tokens: seq<string>, parseF32: string -> Option<real>)
    requires |tokens| >= 2 && tokens[0] == "-output"
    ensures ParseFilters(tokens, parseF32) == Prepend(Output(tokens[1]), ParseFilters(tokens[2..], parseF32))
  {
  }

  /** One well-formed `-scale X Y` at the front of the tokens. */
  lemma ParseScale(tokens: seq<string>, parseF32: string -> Option<real>)
    requires |tokens| >= 3 && tokens[0] == "-scale"
    requires parseF32(tokens[1]).Some? && parseF32(tokens[2]).Some?
    ensures ParseFilters(tokens, parseF32) ==
      Prepend(Scale(parseF32(tokens[1]).value, parseF32(tokens[2]).value), ParseFilters(tokens[3..], parseF32))
  {
  }

  /**
    `args::parse`: skip the program name, demand `-input PATH`, then take
    flags one at a time until the arguments run out.
   */
  method Parse(argv: seq<string>, parseF32: string -> Option<real>) returns (r: Option<Args>)
    ensures r == Parsed(argv, parseF32)
  {
    var i := 1;
    if i >= |argv| || argv[i] != "-input" {
      return None;
    }
    i := i + 1;
    if i >= |argv| {
      return None;
    }
    var input := argv[i];
    i := i + 1;
    var filters: seq<Filter> := [];
    if ParseFilters(argv[i..], parseF32).Some? {
      assert [] + ParseFilters(argv[i..], parseF32).value == ParseFilters(argv[i..], parseF32).value;
    }
    while true
      invariant 3 <= i <= |argv|
      invariant Parsed(argv, parseF32) == Extend(input, filters, ParseFilters(argv[i..], parseF32))
      decreases |argv| - i
    {
      if i >= |argv| {
        assert argv[i..] == [];
        assert filters + [] == filters;
        return Some(Args(input, filters));
      }
      var tokens := argv[i..];
      var s := argv[i];
      i := i + 1;
      if s == "-output" {
        if i >= |argv| {
          return None;
        }
        assert tokens[2..] == argv[i + 1..];
        ParseOutput(tokens, parseF32);
        ExtendStep(input, filters, Output(argv[i]), ParseFilters(argv[i + 1..], parseF32));
        filters := filters + [Output(argv[i])];
        i := i + 1;
      } else if s == "-scale" {
        if i >= |argv| {
          return None;
        }
        var x := parseF32(argv[i]);
        i := i + 1;
        if x.None? {
          return None;
        }
        if i >= |argv| {
          return None;
        }
        var y := parseF32(argv[i]);
        i := i + 1;
        if y.None? {
          return None;
        }
        assert tokens[3..] == argv[i..];
        ParseScale(tokens, parseF32);
        ExtendStep(input, filters, Scale(x.value, y.value), ParseFilters(argv[i..], parseF32));
        filters := filters + [Scale(x.value, y.value)];
      } else {
        return None;
      }
    }
  }

  /** `filters` put in front of a parse result. */
  function Concat(filters: seq<Filter>, rest: Option<seq<Filter>>): Option<seq<Filter>> {
    if rest.None? then None else Some(filters + rest.value)
  }

  lemma ConcatPrepend(filter: Filter, filters: seq<Filter>, rest: Option<seq<Filter>>)
    ensures Prepend(filter, Concat(filters, rest)) == Concat([filter] + filters, rest)
  {
    if rest.Some? {
      assert [filter] + (filters + rest.value) == ([filter] + filters) + rest.value;
    }
  }

  /** The tokens that spell `filters`, with `show` writing out the factors. */
  function Tokens(filters: seq<Filter>, show: real -> string): seq<string> {
    if |filters| == 0 then []
    else
      match filters[0]
      case Output(path) => ["-output", path] + Tokens(filters[1..], show)
      case Scale(x, y) => ["-scale", show(x), show(y)] + Tokens(filters[1..], show)
  }

  /** `show` writes every factor in `filters` so that `parseF32` reads it back. */
  predicate ShowsFactors(filters: seq<Filter>, show: real -> string, parseF32: string -> Option<real>) {
    forall i :: 0 <= i < |filters| && filters[i].Scale? ==>
      parseF32(show(filters[i].x)) == Some(filters[i].x) && parseF32(show(filters[i].y)) == Some(filters[i].y)
  }

  /**
    Spelt-out filters are read back in order, and whatever follows is
    parsed after them.
   */
  lemma {:induction false} TokensThen(filters: seq<Filter>, rest: seq<string>, show: real -> string, parseF32: string -> Option<real>)
    requires ShowsFactors(filters, show, parseF32)
    ensures ParseFilters(Tokens(filters, show) + rest, parseF32) == Concat(filters, ParseFilters(rest, parseF32))
  {
    if |filters| == 0 {
      assert Tokens(filters, show) + rest == rest;
      if ParseFilters(rest, parseF32).Some? {
        assert filters + ParseFilters(rest, parseF32).value == ParseFilters(rest, parseF32).value;
      }
    } else {
      var tail := filters[1..];
      assert ShowsFactors(tail, show, parseF32) by {
        forall i | 0 <= i < |tail| && tail[i].Scale?
          ensures parseF32(show(tail[i].x)) == Some(tail[i].x) && parseF32(show(tail[i].y)) == Some(tail[i].y)
        {
          assert tail[i] == filters[i + 1];
        }
      }
      TokensThen(tail, rest, show, parseF32);
      assert filters == [filters[0]] + tail;
      match filters[0]
      case Output(path) => OutputThen(path, tail, rest, show, parseF32);
      case Scale(x, y) => ScaleThen(x, y, tail, rest, show, parseF32);
    }
  }

  lemma OutputThen(path: string, tail: seq<Filter>, rest: seq<string>, show: real -> string, parseF32: string -> Option<real>)
    requires ParseFilters(Tokens(tail, show) + rest, parseF32) == Concat(tail, ParseFilters(rest, parseF32))
    ensures ParseFilters(Tokens([Output(path)] + tail, show) + rest, parseF32) == Concat([Output(path)] + tail, ParseFilters(rest, parseF32))
  {
    var filters := [Output(path)] + tail;
    assert filters[1..] == tail;
    var tokens := Tokens(filters, show) + rest;
    assert tokens == ["-output", path] + (Tokens(tail, show) + rest);
    assert tokens[2..] == Tokens(tail, show) + rest;
    ParseOutput(tokens, parseF32);
    ConcatPrepend(Output(path), tail, ParseFilters(rest, parseF32));
  }

  lemma ScaleThen(x: real, y: real, tail: seq<Filter>, rest: seq<string>, show: real -> string, parseF32: string -> Option<real>)
    requires parseF32(show(x)) == Some(x) && parseF32(show(y)) == Some(y)
    requires ParseFilters(Tokens(tail, show) + rest, parseF32) == Concat(tail, ParseFilters(rest, parseF32))
    ensures ParseFilters(Tokens([Scale(x, y)] + tail, show) + rest, parseF32) == Concat([Scale(x, y)] + tail, ParseFilters(rest, parseF32))
  {
    var filters := [Scale(x, y)] + tail;
    assert filters[1..] == tail;
    var tokens := Tokens(filters, show) + rest;
    assert tokens == ["-scale", show(x), show(y)] + (Tokens(tail, show) + rest);
    assert tokens[3..] == Tokens(tail, show) + rest;
    ParseScale(tokens, parseF32);
    ConcatPrepend(Scale(x, y), tail, ParseFilters(rest, parseF32));
  }

  /** Spelt-out filters parse back to themselves. */
  lemma TokensRoundTrip(filters: seq<Filter>, show: real -> string, parseF32: string -> Option<real>)
    requires ShowsFactors(filters, show, parseF32)
    ensures ParseFilters(Tokens(filters, show), parseF32) == Some(filters)
  {
    TokensThen(filters, [], show, parseF32);
    assert Tokens(filters, show) + [] == Tokens(filters, show);
    assert filters + [] == filters;
  }

  /**
    A full command line parses to its input path and its filters in
    command-line order; with no filters the list is empty.
   */
  lemma CommandLineRoundTrip(program: string, path: string, filters: seq<Filter>, show: real -> string, parseF32: string -> Option<real>)
    requires ShowsFactors(filters, show, parseF32)
    ensures Parsed([program, "-input", path] + Tokens(filters, show), parseF32) == Some(Args(path, filters))
  {
    var argv := [program, "-input", path] + Tokens(filters, show);
    assert argv[3..] == Tokens(filters, show);
    TokensRoundTrip(filters, show, parseF32);
  }

  /** Only `-input PATH` in the first two places gives a result; the program name is never read. */
  lemma InputRequired(argv: seq<string>, parseF32: string -> Option<real>)
    ensures Parsed(argv, parseF32).Some? ==> |argv| >= 3 && argv[1] == "-input" && Parsed(argv, parseF32).value.input == argv[2]
    ensures |argv| > 0 ==> forall name :: Parsed([name] + argv[1..], parseF32) == Parsed(argv, parseF32)
  {
    if |argv| > 0 {
      forall name
        ensures Parsed([name] + argv[1..], parseF32) == Parsed(argv, parseF32)
      {
        var other := [name] + argv[1..];
        assert other[1..] == argv[1..];
        if |argv| >= 3 {
          assert other[3..] == argv[3..];
        }
      }
    }
  }

  /** An unknown token after valid filters makes the whole parse fail. */
  lemma UnknownToken(filters: seq<Filter>, token: string, rest: seq<string>, show: real -> string, parseF32: string -> Option<real>)
    requires ShowsFactors(filters, show, parseF32)
    requires token != "-output" && token != "-scale"
    ensures ParseFilters(Tokens(filters, show) + ([token] + rest), parseF32) == None
  {
    TokensThen(filters, [token] + rest, show, parseF32);
  }

  /** A flag at the end without its argument makes the whole parse fail. */
  lemma MissingArgument(filters: seq<Filter>, show: real -> string, parseF32: string -> Option<real>, x: string)
    requires ShowsFactors(filters, show, parseF32)
    ensures ParseFilters(Tokens(filters, show) + ["-output"], parseF32) == None
    ensures ParseFilters(Tokens(filters, show) + ["-scale"], parseF32) == None
    ensures ParseFilters(Tokens(filters, show) + ["-scale", x], parseF32) == None
  {
    TokensThen(filters, ["-output"], show, parseF32);
    TokensThen(filters, ["-scale"], show, parseF32);
    TokensThen(filters, ["-scale", x], show, parseF32);
  }

  /** A `-scale` factor that is not a number makes the whole parse fail. */
  lemma NonNumericScale(filters: seq<Filter>, x: string, y: string, rest: seq<string>, show: real -> string, parseF32: string -> Option<real>)
    requires ShowsFactors(filters, show, parseF32)
    requires parseF32(x).None? || parseF32(y).None?
    ensures ParseFilters(Tokens(filters, show) + (["-scale", x, y] + rest), parseF32) == None
  {
    TokensThen(filters, ["-scale", x, y] + rest, show, parseF32);
  }
}
