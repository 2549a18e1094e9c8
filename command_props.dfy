/**
 * What the decoder promises: which tags it accepts, what `reset`, `line`,
 * `quad` and a point are read from, what it ignores, where it fails, and that
 * lines written in the script grammar decode back to the commands written.
 */
module CommandProperties {
  import opened Wrappers
  import opened StrOps
  import opened UsizeParse
  import opened Commands

  // ---- writing commands in the script grammar ----

  /** `(x,y)` */
  function FormatPoint<C>(show: C -> string, p: Point<C>): string {
    "(" + show(p.x) + "," + show(p.y) + ")"
  }

  /** `reset: WxH`, `line: (x,y) (x,y)`, `quad: (x,y) (x,y) (x,y)` */
  function FormatCommand<C>(show: C -> string, cmd: Command<C>): string {
    match cmd
    case Reset(w, h) => "reset: " + DecimalString(w) + "x" + DecimalString(h)
    case Line(a, b) => "line: " + FormatPoint(show, a) + " " + FormatPoint(show, b)
    case Quad(a, b, c) => "quad: " + FormatPoint(show, a) + " " + FormatPoint(show, b) + " " + FormatPoint(show, c)
  }

  /**
   * A coordinate is printable when `f32::from_str` reads its printed form back
   * to it and the printed form contains none of the grammar's separators.
   */
  ghost predicate Printable<C>(parseF32: string -> Option<C>, show: C -> string, c: C) {
    parseF32(show(c)) == Some(c) && ',' !in show(c) && ' ' !in show(c) && ':' !in show(c)
  }

  ghost predicate PrintablePoint<C>(parseF32: string -> Option<C>, show: C -> string, p: Point<C>) {
    Printable(parseF32, show, p.x) && Printable(parseF32, show, p.y)
  }

  ghost predicate PrintableCommand<C>(parseF32: string -> Option<C>, show: C -> string, cmd: Command<C>) {
    match cmd
    case Reset(_, _) => true
    case Line(a, b) => PrintablePoint(parseF32, show, a) && PrintablePoint(parseF32, show, b)
    case Quad(a, b, c) =>
      PrintablePoint(parseF32, show, a) && PrintablePoint(parseF32, show, b) && PrintablePoint(parseF32, show, c)
  }

  // ---- helpers about the layout of a line ----

  lemma WhitespaceHasNoSeparators(s: string)
    requires AllWhitespace(s)
    ensures ':' !in s && 'x' !in s && ',' !in s
  {
  }

  lemma DigitsHaveNoSeparators(s: string)
    requires AllDigits(s)
    ensures ':' !in s && 'x' !in s && ' ' !in s && ',' !in s
  {
  }

  /** The tag and the argument field of `tag:arg` followed by nothing or by further fields. */
  lemma FieldsOf(tag: string, arg: string, more: string)
    requires ':' !in tag && ':' !in arg
    requires more == [] || more[0] == ':'
    ensures Tag(tag + ":" + arg + more) == tag
    ensures |Fields(tag + ":" + arg + more)| >= 2 && Fields(tag + ":" + arg + more)[1] == arg
  {
    assert tag + ":" + arg == Join([tag, arg], ':');
    SplitLeadingPieces([tag, arg], more, ':');
  }

  /** `rest` is its first `:`-piece followed by nothing or by a `:`. */
  lemma FirstPiece(rest: string)
    ensures var arg := Split(rest, ':')[0];
            |arg| <= |rest| && rest == arg + rest[|arg|..] && ':' !in arg
            && (rest[|arg|..] == [] || rest[|arg|..][0] == ':')
  {
    var arg := Split(rest, ':')[0];
    SplitFirstPiece(rest, ':');
    assert rest == arg + rest[|arg|..];
  }

  /** The text after the first `:` up to the next `:` is the argument field. */
  lemma ArgumentOf(tag: string, rest: string)
    requires ':' !in tag
    ensures Tag(tag + ":" + rest) == tag
    ensures |Fields(tag + ":" + rest)| >= 2 && Fields(tag + ":" + rest)[1] == Split(rest, ':')[0]
  {
    FirstPiece(rest);
    var arg := Split(rest, ':')[0];
    assert tag + ":" + (arg + rest[|arg|..]) == tag + ":" + arg + rest[|arg|..];
    FieldsOf(tag, arg, rest[|arg|..]);
  }

  // ---- the tag ----

  /**
   * A line whose text before the first `:` is not exactly `reset`, `quad` or
   * `line` fails with that text, whatever follows, and so does such a line
   * without any `:`.
   */
  lemma UnknownTagFails<C>(parseF32: string -> Option<C>, tag: string, rest: string)
    requires ':' !in tag && !IsKnownTag(tag)
    ensures Parse(parseF32, tag) == Failure(UnknownCommand(tag))
    ensures Parse(parseF32, tag + ":" + rest) == Failure(UnknownCommand(tag))
  {
    SplitPrefix(tag, "", ':');
    assert tag + "" == tag;
    ArgumentOf(tag, rest);
  }

  /** The empty line has the empty tag. */
  lemma EmptyLineFails<C>(parseF32: string -> Option<C>)
    ensures Parse(parseF32, "") == Failure(UnknownCommand(""))
  {
  }

  /** Whitespace before or after a known tag makes it unknown: the tag is not trimmed. */
  lemma PaddedTagFails<C>(parseF32: string -> Option<C>, tag: string, pad: string, rest: string)
    requires IsKnownTag(tag) && pad != [] && AllWhitespace(pad)
    ensures Parse(parseF32, tag + pad + ":" + rest) == Failure(UnknownCommand(tag + pad))
    ensures Parse(parseF32, pad + tag + ":" + rest) == Failure(UnknownCommand(pad + tag))
  {
    WhitespaceHasNoSeparators(pad);
    NotInConcat(':', tag, pad);
    NotInConcat(':', pad, tag);
    ConcatEnds(tag, pad);
    ConcatEnds(pad, tag);
    UnknownTagFails(parseF32, tag + pad, rest);
    UnknownTagFails(parseF32, pad + tag, rest);
  }

  /** A known tag with no `:` after it has no argument to read. */
  lemma TagWithoutArgumentsFails<C>(parseF32: string -> Option<C>)
    ensures Parse(parseF32, "reset") == Failure(MissingArguments)
    ensures Parse(parseF32, "line") == Failure(MissingArguments)
    ensures Parse(parseF32, "quad") == Failure(MissingArguments)
  {
    SplitJoin(["reset"], ':');
    SplitJoin(["line"], ':');
    SplitJoin(["quad"], ':');
  }

  // ---- points ----

  lemma PointTextShape<C>(parseF32: string -> Option<C>, show: C -> string, p: Point<C>)
    requires PrintablePoint(parseF32, show, p)
    ensures var t := FormatPoint(show, p);
            |t| >= 2 && t[0] == '(' && t[|t| - 1] == ')' && ':' !in t && ' ' !in t
  {
  }

  /** A point written as `(x,y)` parses back to itself. */
  lemma PointRoundTrip<C>(parseF32: string -> Option<C>, show: C -> string, p: Point<C>)
    requires PrintablePoint(parseF32, show, p)
    ensures ParsePoint(parseF32, FormatPoint(show, p)) == Success(p)
  {
    var sx, sy := show(p.x), show(p.y);
    var outer := FormatPoint(show, p);
    assert outer[1..|outer| - 1] == Join([sx, sy], ',');
    SplitJoin([sx, sy], ',');
  }

  /** The first and the last character are cut off unread: any one-byte characters will do. */
  lemma PointDelimitersUnchecked<C>(parseF32: string -> Option<C>, open: char, inner: string, close: char)
    requires IsAscii(open) && IsAscii(close)
    ensures ParsePoint(parseF32, [open] + inner + [close]) == ParsePoint(parseF32, "(" + inner + ")")
  {
    var given, parens := [open] + inner + [close], "(" + inner + ")";
    assert given[1..|given| - 1] == inner;
    assert parens[1..|parens| - 1] == inner;
  }

  /** Fields after the second `,` are never read. */
  lemma PointExtraFieldsIgnored<C>(parseF32: string -> Option<C>, x: string, y: string, rest: string)
    requires ',' !in x && ',' !in y
    ensures ParsePoint(parseF32, "(" + x + "," + y + "," + rest + ")") == ParsePoint(parseF32, "(" + x + "," + y + ")")
  {
    var long, short := "(" + x + "," + y + "," + rest + ")", "(" + x + "," + y + ")";
    assert long[1..|long| - 1] == Join([x, y], ',') + ("," + rest);
    assert short[1..|short| - 1] == Join([x, y], ',');
    SplitLeadingPieces([x, y], "," + rest, ',');
    SplitJoin([x, y], ',');
  }

  /**
   * `parse_point` fails on fewer than two characters, on a first or last
   * character of more than one byte, and on an x without a `,` after it.
   */
  lemma PointFailures<C>(parseF32: string -> Option<C>, outer: string)
    ensures |outer| < 2 ==> ParsePoint(parseF32, outer) == Failure(BadSlice)
    ensures |outer| >= 2 && (!IsAscii(outer[0]) || !IsAscii(outer[|outer| - 1])) ==>
              ParsePoint(parseF32, outer) == Failure(BadSlice)
    ensures |outer| >= 2 && IsAscii(outer[0]) && IsAscii(outer[|outer| - 1])
            && ',' !in outer[1..|outer| - 1] && parseF32(outer[1..|outer| - 1]).Some? ==>
              ParsePoint(parseF32, outer) == Failure(MissingY)
  {
    if |outer| >= 2 && ',' !in outer[1..|outer| - 1] {
      SplitJoin([outer[1..|outer| - 1]], ',');
    }
  }

  // ---- reset ----

  /** A line with a known tag and an argument field is decoded by that tag's branch. */
  lemma Dispatch<C>(parseF32: string -> Option<C>, tag: string, arg: string, more: string)
    requires IsKnownTag(tag) && ':' !in arg
    requires more == [] || more[0] == ':'
    ensures tag == "reset" ==> Parse(parseF32, tag + ":" + arg + more) == ParseReset(arg)
    ensures tag == "quad" ==> Parse(parseF32, tag + ":" + arg + more) == ParseQuad(parseF32, arg)
    ensures tag == "line" ==> Parse(parseF32, tag + ":" + arg + more) == ParseLine(parseF32, arg)
  {
    assert ':' !in tag;
    FieldsOf(tag, arg, more);
  }

  /**
   * A bare word: non-empty, free of the separators `:`, `x`, `,` and space, and
   * not starting or ending with whitespace.
   */
  predicate Bare(s: string) {
    |s| >= 1 && ':' !in s && 'x' !in s && ' ' !in s && ',' !in s
    && !IsWhitespace(s[0]) && !IsWhitespace(s[|s| - 1])
  }

  /** Text that parses as a `usize` is a bare word. */
  lemma UsizeTextShape(s: string)
    requires ParseUsize(s).Some?
    ensures Bare(s)
  {
    if AllDigits(s) {
      DigitsHaveNoSeparators(s);
    } else {
      DigitsHaveNoSeparators(s[1..]);
      assert s == [s[0]] + s[1..];
    }
  }

  /** A trailing space makes text no `usize`. */
  lemma TrailingSpaceIsNoUsize(s: string)
    ensures ParseUsize(s + " ").None?
  {
    var t := s + " ";
    assert t[|t| - 1] == ' ';
  }

  /** A trimmed argument laid out as `x`-free parts joined by `x` splits into those parts. */
  lemma DimensionsOfJoin(arg: string, parts: seq<string>)
    requires |parts| >= 1 && forall i :: 0 <= i < |parts| ==> 'x' !in parts[i]
    requires Trim(arg) == Join(parts, 'x')
    ensures Dimensions(arg) == parts
  {
    SplitJoin(parts, 'x');
  }

  /** A trimmed argument that starts with `x`-free parts joined by `x`, then an `x`, starts with those parts. */
  lemma DimensionsLead(arg: string, parts: seq<string>, tail: string)
    requires |parts| >= 1 && forall i :: 0 <= i < |parts| ==> 'x' !in parts[i]
    requires tail == [] || tail[0] == 'x'
    requires Trim(arg) == Join(parts, 'x') + tail
    ensures |Dimensions(arg)| >= |parts|
    ensures forall i :: 0 <= i < |parts| ==> Dimensions(arg)[i] == parts[i]
  {
    SplitStartsWith(Trim(arg), parts, tail, 'x');
  }

  lemma DimensionsLeadTwo(arg: string, dw: string, dh: string, tail: string)
    requires 'x' !in dw && 'x' !in dh
    requires tail == [] || tail[0] == 'x'
    requires Trim(arg) == Join([dw, dh], 'x') + tail
    ensures |Dimensions(arg)| >= 2 && Dimensions(arg)[0] == dw && Dimensions(arg)[1] == dh
  {
    DimensionsLead(arg, [dw, dh], tail);
  }

  /** The `reset` branch reads `W` and `H` off the first two `x`-parts. */
  lemma ResetOfParts<C>(arg: string, w: Usize, h: Usize)
    requires |Dimensions(arg)| >= 2
    requires ParseUsize(Dimensions(arg)[0]) == Some(w) && ParseUsize(Dimensions(arg)[1]) == Some(h)
    ensures ParseReset<C>(arg) == Success(Reset(w, h))
  {
  }

  /** `WxH` starts with the first character of `W`, ends with the last of `H`, and holds no `:`. */
  lemma DimensionsShape(dw: string, dh: string)
    requires Bare(dw) && Bare(dh)
    ensures var core := dw + "x" + dh;
            core != [] && !IsWhitespace(core[0]) && !IsWhitespace(core[|core| - 1]) && ':' !in core
  {
    ConcatEnds(dw, "x");
    ConcatEnds(dw + "x", dh);
    NotInConcat(':', dw, "x");
    NotInConcat(':', dw + "x", dh);
  }

  /** Whitespace on both sides adds no `:`. */
  lemma PaddingHasNoColon(pre: string, core: string, post: string)
    requires AllWhitespace(pre) && AllWhitespace(post) && ':' !in core
    ensures ':' !in pre + core + post
  {
    WhitespaceHasNoSeparators(pre);
    WhitespaceHasNoSeparators(post);
    NotInConcat(':', pre, core);
    NotInConcat(':', pre + core, post);
  }

  /** Trimming `WxH` padded with whitespace gives `WxH`. */
  lemma PaddedTrimmed(dw: string, dh: string, pre: string, post: string)
    requires Bare(dw) && Bare(dh)
    requires AllWhitespace(pre) && AllWhitespace(post)
    ensures ':' !in pre + (dw + "x" + dh) + post
    ensures Trim(pre + (dw + "x" + dh) + post) == Join([dw, dh], 'x')
  {
    DimensionsShape(dw, dh);
    PaddingHasNoColon(pre, dw + "x" + dh, post);
    TrimPadded(pre, dw + "x" + dh, post);
    JoinTwo(dw, dh, 'x');
  }

  lemma DimensionsOfTwo(arg: string, dw: string, dh: string)
    requires 'x' !in dw && 'x' !in dh
    requires Trim(arg) == Join([dw, dh], 'x')
    ensures Dimensions(arg) == [dw, dh]
  {
    DimensionsOfJoin(arg, [dw, dh]);
  }

  /** `WxH` padded with whitespace has the parts `W` and `H`. */
  lemma PaddedParts(dw: string, dh: string, pre: string, post: string)
    requires Bare(dw) && Bare(dh)
    requires AllWhitespace(pre) && AllWhitespace(post)
    ensures ':' !in pre + (dw + "x" + dh) + post
    ensures Dimensions(pre + (dw + "x" + dh) + post) == [dw, dh]
  {
    PaddedTrimmed(dw, dh, pre, post);
    DimensionsOfTwo(pre + (dw + "x" + dh) + post, dw, dh);
  }

  /** The argument `WxH` padded with whitespace. */
  lemma PaddedDimensions<C>(dw: string, w: Usize, dh: string, h: Usize, pre: string, post: string)
    requires ParseUsize(dw) == Some(w) && ParseUsize(dh) == Some(h)
    requires AllWhitespace(pre) && AllWhitespace(post)
    ensures ':' !in pre + (dw + "x" + dh) + post
    ensures ParseReset<C>(pre + (dw + "x" + dh) + post) == Success(Reset(w, h))
  {
    UsizeTextShape(dw);
    UsizeTextShape(dh);
    PaddedParts(dw, dh, pre, post);
    ResetOfParts<C>(pre + (dw + "x" + dh) + post, w, h);
  }

  lemma ResetLayout(pre: string, dw: string, dh: string, post: string)
    ensures "reset:" + pre + dw + "x" + dh + post == "reset" + ":" + (pre + (dw + "x" + dh) + post) + ""
  {
  }

  /**
   * `reset:` followed by `WxH`, with any whitespace around it, decodes to
   * `Reset(w, h)` when `W` and `H` parse as the `usize`s `w` and `h`.
   */
  lemma ResetDecodes<C>(parseF32: string -> Option<C>, dw: string, w: Usize, dh: string, h: Usize, pre: string, post: string)
    requires ParseUsize(dw) == Some(w) && ParseUsize(dh) == Some(h)
    requires AllWhitespace(pre) && AllWhitespace(post)
    ensures Parse(parseF32, "reset:" + pre + dw + "x" + dh + post) == Success(Reset(w, h))
  {
    ResetLayout(pre, dw, dh, post);
    PaddedDimensions<C>(dw, w, dh, h, pre, post);
    Dispatch(parseF32, "reset", pre + (dw + "x" + dh) + post, "");
  }

  lemma CanonicalResetLayout(dw: string, dh: string)
    ensures "reset: " + dw + "x" + dh == "reset:" + " " + dw + "x" + dh + ""
  {
  }

  /** `reset: WxH` with `W` and `H` printed in decimal decodes to `Reset(W, H)`. */
  lemma ResetRoundTrip<C>(parseF32: string -> Option<C>, w: Usize, h: Usize)
    ensures Parse(parseF32, "reset: " + DecimalString(w) + "x" + DecimalString(h)) == Success(Reset(w, h))
  {
    CanonicalResetLayout(DecimalString(w), DecimalString(h));
    ParseUsizeOfDecimal(w);
    ParseUsizeOfDecimal(h);
    ResetDecodes(parseF32, DecimalString(w), w, DecimalString(h), h, " ", "");
  }

  lemma ThirdPartShape(dw: string, dh: string, t: string)
    requires |dw| >= 1
    ensures var run := dw + "x" + dh + "x";
            run[0] == dw[0] && run[|run| - 1] == 'x' && run + t == Join([dw, dh], 'x') + ("x" + t)
  {
    JoinTwo(dw, dh, 'x');
  }

  /** Trimming ` WxHx...` keeps `WxH` and then the `x`-led rest. */
  lemma ThirdPartTrimmed(dw: string, dh: string, r0: string)
    requires |dw| >= 1 && !IsWhitespace(dw[0])
    ensures Trim(" " + (dw + "x" + dh + "x") + r0) == Join([dw, dh], 'x') + ("x" + TrimEnd(r0))
  {
    ThirdPartShape(dw, dh, TrimEnd(r0));
    TrimAround(" ", dw + "x" + dh + "x", r0);
  }

  /** ` WxHx...` has `W` and `H` as its first two parts. */
  lemma ThirdPartParts(dw: string, dh: string, r0: string)
    requires Bare(dw) && Bare(dh)
    ensures var parts := Dimensions(" " + (dw + "x" + dh + "x") + r0);
            |parts| >= 2 && parts[0] == dw && parts[1] == dh
  {
    ThirdPartTrimmed(dw, dh, r0);
    DimensionsLeadTwo(" " + (dw + "x" + dh + "x") + r0, dw, dh, "x" + TrimEnd(r0));
  }

  /** The argument of `reset: WxHx...` up to the next `:`: its third part is dropped. */
  lemma ThirdPartArgument<C>(dw: string, w: Usize, dh: string, h: Usize, r0: string)
    requires ParseUsize(dw) == Some(w) && ParseUsize(dh) == Some(h)
    ensures ParseReset<C>(" " + (dw + "x" + dh + "x") + r0) == Success(Reset(w, h))
  {
    UsizeTextShape(dw);
    UsizeTextShape(dh);
    ThirdPartParts(dw, dh, r0);
    ResetOfParts<C>(" " + (dw + "x" + dh + "x") + r0, w, h);
  }

  lemma ThirdPartHasNoColon(dw: string, dh: string, r0: string)
    requires Bare(dw) && Bare(dh) && ':' !in r0
    ensures ':' !in " " + (dw + "x" + dh + "x") + r0
  {
    assert " " + (dw + "x" + dh + "x") + r0 == " " + dw + "x" + dh + "x" + r0;
    NotInConcat(':', " " + dw, "x");
    NotInConcat(':', " ", dw);
    NotInConcat(':', " " + dw + "x", dh);
    NotInConcat(':', " " + dw + "x" + dh, "x");
    NotInConcat(':', " " + dw + "x" + dh + "x", r0);
  }

  lemma ThirdPartLayout(dw: string, dh: string, r0: string, more: string)
    ensures "reset: " + dw + "x" + dh + "x" + (r0 + more) == "reset" + ":" + (" " + (dw + "x" + dh + "x") + r0) + more
  {
  }

  /** `reset: WxH` with bare `W` and `H` is the `reset` branch on the parts `W` and `H`. */
  lemma BareDimensions<C>(parseF32: string -> Option<C>, dw: string, dh: string)
    requires Bare(dw) && Bare(dh)
    ensures Parse(parseF32, "reset: " + dw + "x" + dh) == ParseReset(" " + (dw + "x" + dh) + "")
    ensures Dimensions(" " + (dw + "x" + dh) + "") == [dw, dh]
  {
    CanonicalResetLayout(dw, dh);
    ResetLayout(" ", dw, dh, "");
    PaddedParts(dw, dh, " ", "");
    Dispatch(parseF32, "reset", " " + (dw + "x" + dh) + "", "");
  }

  /**
   * Each dimension fails at its own `parse().unwrap()`: a bad width before
   * the height is looked at, a bad height after a good width.
   */
  lemma ResetDimensionFailures<C>(parseF32: string -> Option<C>, dw: string, dh: string)
    requires Bare(dw) && Bare(dh)
    ensures var r := Parse(parseF32, "reset: " + dw + "x" + dh);
            && (ParseUsize(dw).None? ==> r == Failure(InvalidWidth))
            && (ParseUsize(dw).Some? && ParseUsize(dh).None? ==> r == Failure(InvalidHeight))
  {
    BareDimensions(parseF32, dw, dh);
  }

  /** A third `x`-part is never read. */
  lemma ResetThirdPartIgnored<C>(parseF32: string -> Option<C>, dw: string, w: Usize, dh: string, h: Usize, rest: string)
    requires ParseUsize(dw) == Some(w) && ParseUsize(dh) == Some(h)
    ensures Parse(parseF32, "reset: " + dw + "x" + dh + "x" + rest) == Success(Reset(w, h))
  {
    UsizeTextShape(dw);
    UsizeTextShape(dh);
    FirstPiece(rest);
    var r0 := Split(rest, ':')[0];
    var more := rest[|r0|..];
    ThirdPartLayout(dw, dh, r0, more);
    ThirdPartHasNoColon(dw, dh, r0);
    Dispatch(parseF32, "reset", " " + (dw + "x" + dh + "x") + r0, more);
    ThirdPartArgument<C>(dw, w, dh, h, r0);
  }

  lemma ThirdFieldLayout(dw: string, dh: string, rest: string)
    ensures "reset: " + dw + "x" + dh + ":" + rest == "reset" + ":" + (" " + (dw + "x" + dh) + "") + (":" + rest)
  {
  }

  /** A third `:`-field is never read. */
  lemma ResetThirdFieldIgnored<C>(parseF32: string -> Option<C>, dw: string, w: Usize, dh: string, h: Usize, rest: string)
    requires ParseUsize(dw) == Some(w) && ParseUsize(dh) == Some(h)
    ensures Parse(parseF32, "reset: " + dw + "x" + dh + ":" + rest) == Success(Reset(w, h))
  {
    ThirdFieldLayout(dw, dh, rest);
    PaddedDimensions<C>(dw, w, dh, h, " ", "");
    Dispatch(parseF32, "reset", " " + (dw + "x" + dh) + "", ":" + rest);
  }

  /** ` W` has the single part `W`. */
  lemma WidthParts(dw: string)
    requires Bare(dw)
    ensures ':' !in " " + dw + ""
    ensures Dimensions(" " + dw + "") == [dw]
  {
    PaddingHasNoColon(" ", dw, "");
    TrimPadded(" ", dw, "");
    DimensionsOfJoin(" " + dw + "", [dw]);
  }

  /** The argument ` W`: one part, so no height. */
  lemma WidthOnly<C>(dw: string)
    requires ParseUsize(dw).Some?
    ensures ':' !in " " + dw + ""
    ensures ParseReset<C>(" " + dw + "") == Failure(MissingHeight)
  {
    UsizeTextShape(dw);
    WidthParts(dw);
  }

  lemma WidthOnlyLayout(dw: string)
    ensures "reset: " + dw == "reset" + ":" + (" " + dw + "") + ""
  {
  }

  /** Without an `x` the height is missing. */
  lemma ResetWithoutHeightFails<C>(parseF32: string -> Option<C>, dw: string)
    requires ParseUsize(dw).Some?
    ensures Parse(parseF32, "reset: " + dw) == Failure(MissingHeight)
  {
    WidthOnlyLayout(dw);
    WidthOnly<C>(dw);
    Dispatch(parseF32, "reset", " " + dw + "", "");
  }

  lemma SpacedShape(dw: string, dh: string)
    requires Bare(dw) && Bare(dh)
    ensures var core := dw + " x " + dh;
            core == Join([dw + " ", " " + dh], 'x') && 'x' !in dw + " " && 'x' !in " " + dh
            && ':' !in core && core != [] && !IsWhitespace(core[0]) && !IsWhitespace(core[|core| - 1])
  {
    JoinTwo(dw + " ", " " + dh, 'x');
    ConcatEnds(dw, " x ");
    ConcatEnds(dw + " x ", dh);
    NotInConcat('x', dw, " ");
    NotInConcat('x', " ", dh);
    NotInConcat(':', dw, " x ");
    NotInConcat(':', dw + " x ", dh);
  }

  /** Trimming ` W x H` gives `W x H`, the parts `W ` and ` H` joined by `x`. */
  lemma SpacedTrimmed(dw: string, dh: string)
    requires Bare(dw) && Bare(dh)
    ensures ':' !in " " + (dw + " x " + dh) + ""
    ensures Trim(" " + (dw + " x " + dh) + "") == Join([dw + " ", " " + dh], 'x')
    ensures 'x' !in dw + " " && 'x' !in " " + dh
  {
    SpacedShape(dw, dh);
    PaddingHasNoColon(" ", dw + " x " + dh, "");
    TrimPadded(" ", dw + " x " + dh, "");
  }

  /** The argument ` W x H` splits into `W ` and ` H`. */
  lemma SpacedParts(dw: string, dh: string)
    requires Bare(dw) && Bare(dh)
    ensures ':' !in " " + (dw + " x " + dh) + ""
    ensures Dimensions(" " + (dw + " x " + dh) + "") == [dw + " ", " " + dh]
  {
    SpacedTrimmed(dw, dh);
    DimensionsOfTwo(" " + (dw + " x " + dh) + "", dw + " ", " " + dh);
  }

  /** `W ` is no `usize`, so the width fails to parse. */
  lemma SpacedDimensions<C>(dw: string, dh: string)
    requires ParseUsize(dw).Some? && ParseUsize(dh).Some?
    ensures ':' !in " " + (dw + " x " + dh) + ""
    ensures ParseReset<C>(" " + (dw + " x " + dh) + "") == Failure(InvalidWidth)
  {
    UsizeTextShape(dw);
    UsizeTextShape(dh);
    SpacedParts(dw, dh);
    TrailingSpaceIsNoUsize(dw);
  }

  lemma SpacedLayout(dw: string, dh: string)
    ensures "reset: " + dw + " x " + dh == "reset" + ":" + (" " + (dw + " x " + dh) + "") + ""
  {
  }

  /** A space inside the dimensions ends up in a part, which then is no `usize`. */
  lemma ResetWithSpacedDimensionsFails<C>(parseF32: string -> Option<C>, dw: string, dh: string)
    requires ParseUsize(dw).Some? && ParseUsize(dh).Some?
    ensures Parse(parseF32, "reset: " + dw + " x " + dh) == Failure(InvalidWidth)
  {
    SpacedLayout(dw, dh);
    SpacedDimensions<C>(dw, dh);
    Dispatch(parseF32, "reset", " " + (dw + " x " + dh) + "", "");
  }
}
