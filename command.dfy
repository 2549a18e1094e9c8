/**
 * The command decoder: the `Command` enum, `parse_point` and
 * `Command::from_str`. Every `unwrap` and the `panic!` of the source is a
 * `Failure` naming the site that gives up; the first site reached decides.
 * f32 parsing is the parameter `parseF32`, so coordinates stay abstract.
 */
module Commands {
  import opened Wrappers
  import opened StrOps
  import opened UsizeParse

  datatype Point<C> = Point(x: C, y: C)

  datatype Command<C> =
    | Reset(w: Usize, h: Usize)
    | Quad(p0: Point<C>, p1: Point<C>, p2: Point<C>)
    | Line(p0: Point<C>, p1: Point<C>)

  /**
   * Where decoding a line panics: one value per `unwrap`, slice or `panic!`
   * of the source. The `unwrap` of the argument field and the one of the
   * second point appear once in each branch; there the tag tells the
   * branches apart.
   */
  datatype Panic =
    | UnknownCommand(tag: string)  // the `panic!` of an unmatched tag
    | MissingArguments             // no `:` after the tag
    | InvalidWidth                 // the width is not a `usize`
    | MissingHeight                // no `x` in the dimensions
    | InvalidHeight                // the height is not a `usize`
    | MissingSecondPoint           // only one space-separated token
    | MissingThirdPoint            // only two space-separated tokens for a `quad`
    | BadSlice                     // `&outer[1..end - 1]` out of range or not on a char boundary
    | InvalidX                     // `f32::from_str` rejects x
    | MissingY                     // no `,` inside a point
    | InvalidY                     // `f32::from_str` rejects y

  /** The `:`-separated fields of a line. */
  function Fields(s: string): (r: seq<string>)
    ensures |r| >= 1
  {
    Split(s, ':')
  }

  /** The text before the first `:`, or the whole line when it has none. */
  function Tag(s: string): (r: string)
    ensures |r| <= |s| && r == s[..|r|] && ':' !in r
    ensures |r| == |s| || s[|r|] == ':'
  {
    SplitFirstPiece(s, ':');
    Fields(s)[0]
  }

  /** The trimmed argument field split on single spaces. */
  function Tokens(arg: string): (r: seq<string>)
    ensures |r| >= 1
  {
    Split(Trim(arg), ' ')
  }

  /** The trimmed argument field split on `x`. */
  function Dimensions(arg: string): (r: seq<string>)
    ensures |r| >= 1
  {
    Split(Trim(arg), 'x')
  }

  /**
   * `parse_point`: cut off the first and the last byte, split what remains on
   * `,`, and read x from the first and y from the second field. The cut is a
   * byte slice, so it fails unless there are at least two characters and the
   * first and last are one-byte characters; what they are is not checked.
   */
  function ParsePoint<C>(parseF32: string -> Option<C>, outer: string): (r: Result<Point<C>, Panic>)
    ensures r.Success? ==> |outer| >= 2 && IsAscii(outer[0]) && IsAscii(outer[|outer| - 1])
    ensures r.Success? ==>
              var fields := Split(outer[1..|outer| - 1], ',');
              |fields| >= 2 && parseF32(fields[0]) == Some(r.value.x) && parseF32(fields[1]) == Some(r.value.y)
  {
    if |outer| < 2 || !IsAscii(outer[0]) || !IsAscii(outer[|outer| - 1]) then
      Failure(BadSlice)
    else
      var fields := Split(outer[1..|outer| - 1], ',');
      match parseF32(fields[0])
      case None => Failure(InvalidX)
      case Some(x) =>
        if |fields| < 2 then
          Failure(MissingY)
        else
          match parseF32(fields[1])
          case None => Failure(InvalidY)
          case Some(y) => Success(Point(x, y))
  }

  /** The `reset` branch on the argument field: `<width>x<height>`. */
  function ParseReset<C>(arg: string): (r: Result<Command<C>, Panic>)
    ensures r.Success? ==> r.value.Reset?
    ensures r.Success? ==>
              var parts := Dimensions(arg);
              |parts| >= 2 && ParseUsize(parts[0]) == Some(r.value.w) && ParseUsize(parts[1]) == Some(r.value.h)
  {
    var parts := Dimensions(arg);
    match ParseUsize(parts[0])
    case None => Failure(InvalidWidth)
    case Some(w) =>
      if |parts| < 2 then Failure(MissingHeight)
      else
        match ParseUsize(parts[1])
        case None => Failure(InvalidHeight)
        case Some(h) => Success(Reset(w, h))
  }

  /** The `quad` branch on the argument field: three points. */
  function ParseQuad<C>(parseF32: string -> Option<C>, arg: string): (r: Result<Command<C>, Panic>)
    ensures r.Success? ==> r.value.Quad?
    ensures r.Success? ==>
              var tokens := Tokens(arg);
              |tokens| >= 3 && ParsePoint(parseF32, tokens[0]) == Success(r.value.p0)
              && ParsePoint(parseF32, tokens[1]) == Success(r.value.p1)
              && ParsePoint(parseF32, tokens[2]) == Success(r.value.p2)
  {
    var tokens := Tokens(arg);
    var a :- ParsePoint(parseF32, tokens[0]);
    if |tokens| < 2 then Failure(MissingSecondPoint)
    else
      var b :- ParsePoint(parseF32, tokens[1]);
      if |tokens| < 3 then Failure(MissingThirdPoint)
      else
        var c :- ParsePoint(parseF32, tokens[2]);
        Success(Quad(a, b, c))
  }

  /** The `line` branch on the argument field: two points. */
  function ParseLine<C>(parseF32: string -> Option<C>, arg: string): (r: Result<Command<C>, Panic>)
    ensures r.Success? ==> r.value.Line?
    ensures r.Success? ==>
              var tokens := Tokens(arg);
              |tokens| >= 2 && ParsePoint(parseF32, tokens[0]) == Success(r.value.p0)
              && ParsePoint(parseF32, tokens[1]) == Success(r.value.p1)
  {
    var tokens := Tokens(arg);
    var a :- ParsePoint(parseF32, tokens[0]);
    if |tokens| < 2 then Failure(MissingSecondPoint)
    else
      var b :- ParsePoint(parseF32, tokens[1]);
      Success(Line(a, b))
  }

  /**
   * The three tags of the `match`. Each holds no `:` and neither starts nor
   * ends with whitespace, so `Tag` can yield it and padding does not.
   */
  function IsKnownTag(tag: string): (r: bool)
    ensures r ==> ':' !in tag && tag != [] && !IsWhitespace(tag[0]) && !IsWhitespace(tag[|tag| - 1])
  {
    tag == "reset" || tag == "quad" || tag == "line"
  }

  /**
   * `Command::from_str` on one line. The tag alone selects the branch, and a
   * tag that is not exactly one of the three fails with that tag; the branch
   * reads the second `:`-field only.
   */
  function Parse<C>(parseF32: string -> Option<C>, s: string): (r: Result<Command<C>, Panic>)
    ensures r.Success? ==> IsKnownTag(Tag(s))
    ensures !IsKnownTag(Tag(s)) ==> r == Failure(UnknownCommand(Tag(s)))
    ensures r.Success? ==> (r.value.Reset? <==> Tag(s) == "reset") && (r.value.Line? <==> Tag(s) == "line")
    ensures IsKnownTag(Tag(s)) ==>
              if |Fields(s)| < 2 then r == Failure(MissingArguments)
              else if Tag(s) == "reset" then r == ParseReset(Fields(s)[1])
              else if Tag(s) == "quad" then r == ParseQuad(parseF32, Fields(s)[1])
              else r == ParseLine(parseF32, Fields(s)[1])
  {
    var fields := Fields(s);
    var tag := fields[0];
    if !IsKnownTag(tag) then Failure(UnknownCommand(tag))
    else if |fields| < 2 then Failure(MissingArguments)
    else if tag == "reset" then ParseReset(fields[1])
    else if tag == "quad" then ParseQuad(parseF32, fields[1])
    else ParseLine(parseF32, fields[1])
  }
}
