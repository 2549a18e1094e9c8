/**
 * What the decoder promises about `line` and `quad`: the argument field is
 * trimmed and split on single spaces, the first two (three) tokens are the
 * points, later tokens and later fields are never read, and a token that is
 * missing or empty makes the line fail. Lines written in the script grammar
 * decode back to the commands written.
 */
module DrawingProperties {
  import opened Wrappers
  import opened StrOps
  import opened UsizeParse
  import opened Commands
  import opened CommandProperties

  /**
   * A token: non-empty, free of space and `:`, and not starting or ending
   * with whitespace, so trimming and splitting leave it whole.
   */
  predicate Token(s: string) {
    |s| >= 1 && ' ' !in s && ':' !in s && !IsWhitespace(s[0]) && !IsWhitespace(s[|s| - 1])
  }

  /** A point in the script grammar is a token. */
  lemma FormattedPointIsToken<C>(parseF32: string -> Option<C>, show: C -> string, p: Point<C>)
    requires PrintablePoint(parseF32, show, p)
    ensures Token(FormatPoint(show, p))
  {
    PointTextShape(parseF32, show, p);
  }

  /** A trimmed argument starting with space-free tokens joined by single spaces, then nothing or a space, has those tokens first. */
  lemma TokensLead(arg: string, toks: seq<string>, tail: string)
    requires |toks| >= 1 && forall i :: 0 <= i < |toks| ==> ' ' !in toks[i]
    requires tail == [] || tail[0] == ' '
    requires Trim(arg) == Join(toks, ' ') + tail
    ensures |Tokens(arg)| >= |toks|
    ensures forall i :: 0 <= i < |toks| ==> Tokens(arg)[i] == toks[i]
  {
    SplitStartsWith(Trim(arg), toks, tail, ' ');
  }

  lemma TokensLeadTwo(arg: string, t0: string, t1: string, tail: string)
    requires ' ' !in t0 && ' ' !in t1
    requires tail == [] || tail[0] == ' '
    requires Trim(arg) == Join([t0, t1], ' ') + tail
    ensures |Tokens(arg)| >= 2 && Tokens(arg)[0] == t0 && Tokens(arg)[1] == t1
  {
    TokensLead(arg, [t0, t1], tail);
  }

  lemma TokensLeadThree(arg: string, t0: string, t1: string, t2: string, tail: string)
    requires ' ' !in t0 && ' ' !in t1 && ' ' !in t2
    requires tail == [] || tail[0] == ' '
    requires Trim(arg) == Join([t0, t1, t2], ' ') + tail
    ensures |Tokens(arg)| >= 3 && Tokens(arg)[0] == t0 && Tokens(arg)[1] == t1 && Tokens(arg)[2] == t2
  {
    TokensLead(arg, [t0, t1, t2], tail);
  }

  /**
   * What follows the points on a line, when it is empty or starts with a space
   * or a `:`, is a part `r0` of the argument field that is empty or starts with
   * a space, then nothing or further fields.
   */
  lemma ExtraSplit(extra: string)
    requires extra == [] || extra[0] == ' ' || extra[0] == ':'
    ensures var r0 := Split(extra, ':')[0];
            extra == r0 + extra[|r0|..] && ':' !in r0 && (r0 == [] || r0[0] == ' ')
            && (extra[|r0|..] == [] || extra[|r0|..][0] == ':')
  {
    FirstPiece(extra);
  }

  /** Trailing text that is empty or starts with a space still is so once trimmed. */
  lemma TrimmedTail(r0: string)
    requires r0 == [] || r0[0] == ' '
    ensures TrimEnd(r0) == [] || TrimEnd(r0)[0] == ' '
  {
    TrimEndKeepsFirst(r0);
  }

  // ---- line ----

  lemma LineShape(t0: string, t1: string)
    requires Token(t0) && Token(t1)
    ensures var core := t0 + " " + t1;
            core == Join([t0, t1], ' ') && ':' !in core
            && core != [] && !IsWhitespace(core[0]) && !IsWhitespace(core[|core| - 1])
  {
    JoinTwo(t0, t1, ' ');
    ConcatEnds(t0, " ");
    ConcatEnds(t0 + " ", t1);
    NotInConcat(':', t0, " ");
    NotInConcat(':', t0 + " ", t1);
  }

  /** Trimming ` T0 T1...` keeps `T0 T1` and then the rest, which is empty or starts with a space. */
  lemma LineTrimmed(t0: string, t1: string, r0: string)
    requires Token(t0) && Token(t1) && ':' !in r0 && (r0 == [] || r0[0] == ' ')
    ensures ':' !in " " + (t0 + " " + t1) + r0
    ensures Trim(" " + (t0 + " " + t1) + r0) == Join([t0, t1], ' ') + TrimEnd(r0)
    ensures TrimEnd(r0) == [] || TrimEnd(r0)[0] == ' '
  {
    LineShape(t0, t1);
    NotInConcatThree(':', " ", t0 + " " + t1, r0);
    TrimAround(" ", t0 + " " + t1, r0);
    TrimmedTail(r0);
  }

  /** The argument ` T0 T1...` has the tokens `T0` and `T1` first. */
  lemma LineTokens(t0: string, t1: string, r0: string)
    requires Token(t0) && Token(t1) && ':' !in r0 && (r0 == [] || r0[0] == ' ')
    ensures ':' !in " " + (t0 + " " + t1) + r0
    ensures var toks := Tokens(" " + (t0 + " " + t1) + r0);
            |toks| >= 2 && toks[0] == t0 && toks[1] == t1
  {
    LineTrimmed(t0, t1, r0);
    TokensLeadTwo(" " + (t0 + " " + t1) + r0, t0, t1, TrimEnd(r0));
  }

  /** With `T0` and `T1` as the first tokens, `line` reads its points from them, the first failure deciding. */
  lemma LineOfTokens<C>(parseF32: string -> Option<C>, arg: string, t0: string, t1: string)
    requires |Tokens(arg)| >= 2 && Tokens(arg)[0] == t0 && Tokens(arg)[1] == t1
    ensures ParsePoint(parseF32, t0).Failure? ==> ParseLine(parseF32, arg) == Failure(ParsePoint(parseF32, t0).error)
    ensures ParsePoint(parseF32, t0).Success? && ParsePoint(parseF32, t1).Failure? ==>
              ParseLine(parseF32, arg) == Failure(ParsePoint(parseF32, t1).error)
    ensures ParsePoint(parseF32, t0).Success? && ParsePoint(parseF32, t1).Success? ==>
              ParseLine(parseF32, arg) == Success(Line(ParsePoint(parseF32, t0).value, ParsePoint(parseF32, t1).value))
  {
  }

  lemma LineLayout(t0: string, t1: string, r0: string, more: string)
    ensures "line: " + t0 + " " + t1 + (r0 + more) == "line" + ":" + (" " + (t0 + " " + t1) + r0) + more
  {
  }

  /**
   * `line: T0 T1` decodes from the points `T0` and `T1`; anything after them
   * that starts with a space (more tokens) or a `:` (more fields) is ignored.
   */
  lemma LineDecodes<C>(parseF32: string -> Option<C>, t0: string, t1: string, extra: string)
    requires Token(t0) && Token(t1)
    requires extra == [] || extra[0] == ' ' || extra[0] == ':'
    ensures var r := Parse(parseF32, "line: " + t0 + " " + t1 + extra);
            var a, b := ParsePoint(parseF32, t0), ParsePoint(parseF32, t1);
            && (a.Failure? ==> r == Failure(a.error))
            && (a.Success? && b.Failure? ==> r == Failure(b.error))
            && (a.Success? && b.Success? ==> r == Success(Line(a.value, b.value)))
  {
    ExtraSplit(extra);
    var r0 := Split(extra, ':')[0];
    var more := extra[|r0|..];
    LineLayout(t0, t1, r0, more);
    LineTokens(t0, t1, r0);
    Dispatch(parseF32, "line", " " + (t0 + " " + t1) + r0, more);
    LineOfTokens(parseF32, " " + (t0 + " " + t1) + r0, t0, t1);
  }

  /** A single token ` T0` is the whole token list. */
  lemma SingleToken(t0: string)
    requires Token(t0)
    ensures ':' !in " " + t0 + ""
    ensures Tokens(" " + t0 + "") == [t0]
  {
    NotInConcatThree(':', " ", t0, "");
    TrimPadded(" ", t0, "");
    SplitJoin([t0], ' ');
  }

  /** `line: T0` has one token: after its point the second is missing. */
  lemma LineWithOnePointFails<C>(parseF32: string -> Option<C>, t0: string)
    requires Token(t0)
    ensures var r := Parse(parseF32, "line: " + t0);
            var a := ParsePoint(parseF32, t0);
            && (a.Failure? ==> r == Failure(a.error))
            && (a.Success? ==> r == Failure(MissingSecondPoint))
  {
    assert "line: " + t0 == "line" + ":" + (" " + t0 + "") + "";
    SingleToken(t0);
    Dispatch(parseF32, "line", " " + t0 + "", "");
  }

  lemma DoubledShape(t0: string, t1: string)
    requires Token(t0) && Token(t1)
    ensures var core := t0 + "  " + t1;
            core == Join([t0, "", t1], ' ') && ':' !in core
            && core != [] && !IsWhitespace(core[0]) && !IsWhitespace(core[|core| - 1])
  {
    JoinThree(t0, "", t1, ' ');
    ConcatEnds(t0, "  ");
    ConcatEnds(t0 + "  ", t1);
    NotInConcatThree(':', t0, "  ", t1);
  }

  /** ` T0  T1` splits into `T0`, an empty token and `T1`. */
  lemma DoubledTokens(t0: string, t1: string)
    requires Token(t0) && Token(t1)
    ensures ':' !in " " + (t0 + "  " + t1) + ""
    ensures Tokens(" " + (t0 + "  " + t1) + "") == [t0, "", t1]
  {
    DoubledShape(t0, t1);
    NotInConcatThree(':', " ", t0 + "  " + t1, "");
    TrimPadded(" ", t0 + "  " + t1, "");
    SplitJoin([t0, "", t1], ' ');
  }

  lemma DoubledLayout(t0: string, t1: string)
    ensures "line: " + t0 + "  " + t1 == "line" + ":" + (" " + (t0 + "  " + t1) + "") + ""
  {
  }

  /**
   * Two spaces between the points make an empty second token, and cutting the
   * delimiters off an empty token is out of range.
   */
  lemma LineWithDoubledSpaceFails<C>(parseF32: string -> Option<C>, t0: string, t1: string)
    requires Token(t0) && Token(t1)
    ensures var r := Parse(parseF32, "line: " + t0 + "  " + t1);
            var a := ParsePoint(parseF32, t0);
            && (a.Failure? ==> r == Failure(a.error))
            && (a.Success? ==> r == Failure(BadSlice))
  {
    DoubledLayout(t0, t1);
    DoubledTokens(t0, t1);
    Dispatch(parseF32, "line", " " + (t0 + "  " + t1) + "", "");
  }

  // ---- quad ----

  lemma QuadShape(t0: string, t1: string, t2: string)
    requires Token(t0) && Token(t1) && Token(t2)
    ensures var core := t0 + " " + t1 + " " + t2;
            core == Join([t0, t1, t2], ' ') && ':' !in core
            && core != [] && !IsWhitespace(core[0]) && !IsWhitespace(core[|core| - 1])
  {
    JoinThree(t0, t1, t2, ' ');
    ConcatEnds(t0, " ");
    ConcatEnds(t0 + " " + t1 + " ", t2);
    NotInConcatThree(':', t0, " ", t1);
    NotInConcatThree(':', t0 + " " + t1, " ", t2);
  }

  /** Trimming ` T0 T1 T2...` keeps `T0 T1 T2` and then the rest, which is empty or starts with a space. */
  lemma QuadTrimmed(t0: string, t1: string, t2: string, r0: string)
    requires Token(t0) && Token(t1) && Token(t2) && ':' !in r0 && (r0 == [] || r0[0] == ' ')
    ensures ':' !in " " + (t0 + " " + t1 + " " + t2) + r0
    ensures Trim(" " + (t0 + " " + t1 + " " + t2) + r0) == Join([t0, t1, t2], ' ') + TrimEnd(r0)
    ensures TrimEnd(r0) == [] || TrimEnd(r0)[0] == ' '
  {
    QuadShape(t0, t1, t2);
    NotInConcatThree(':', " ", t0 + " " + t1 + " " + t2, r0);
    TrimAround(" ", t0 + " " + t1 + " " + t2, r0);
    TrimmedTail(r0);
  }

  /** The argument ` T0 T1 T2...` has the tokens `T0`, `T1` and `T2` first. */
  lemma QuadTokens(t0: string, t1: string, t2: string, r0: string)
    requires Token(t0) && Token(t1) && Token(t2) && ':' !in r0 && (r0 == [] || r0[0] == ' ')
    ensures ':' !in " " + (t0 + " " + t1 + " " + t2) + r0
    ensures var toks := Tokens(" " + (t0 + " " + t1 + " " + t2) + r0);
            |toks| >= 3 && toks[0] == t0 && toks[1] == t1 && toks[2] == t2
  {
    QuadTrimmed(t0, t1, t2, r0);
    TokensLeadThree(" " + (t0 + " " + t1 + " " + t2) + r0, t0, t1, t2, TrimEnd(r0));
  }

  /** With `T0`, `T1` and `T2` as the first tokens, `quad` reads its points from them, the first failure deciding. */
  lemma QuadOfTokens<C>(parseF32: string -> Option<C>, arg: string, t0: string, t1: string, t2: string)
    requires |Tokens(arg)| >= 3 && Tokens(arg)[0] == t0 && Tokens(arg)[1] == t1 && Tokens(arg)[2] == t2
    ensures var r := ParseQuad(parseF32, arg);
            var a, b, c := ParsePoint(parseF32, t0), ParsePoint(parseF32, t1), ParsePoint(parseF32, t2);
            && (a.Failure? ==> r == Failure(a.error))
            && (a.Success? && b.Failure? ==> r == Failure(b.error))
            && (a.Success? && b.Success? && c.Failure? ==> r == Failure(c.error))
            && (a.Success? && b.Success? && c.Success? ==> r == Success(Quad(a.value, b.value, c.value)))
  {
  }

  lemma QuadLayout(t0: string, t1: string, t2: string, r0: string, more: string)
    ensures "quad: " + t0 + " " + t1 + " " + t2 + (r0 + more)
            == "quad" + ":" + (" " + (t0 + " " + t1 + " " + t2) + r0) + more
  {
  }

  /**
   * `quad: T0 T1 T2` decodes from the points `T0`, `T1` and `T2`; anything
   * after them that starts with a space or a `:` is ignored.
   */
  lemma QuadDecodes<C>(parseF32: string -> Option<C>, t0: string, t1: string, t2: string, extra: string)
    requires Token(t0) && Token(t1) && Token(t2)
    requires extra == [] || extra[0] == ' ' || extra[0] == ':'
    ensures var r := Parse(parseF32, "quad: " + t0 + " " + t1 + " " + t2 + extra);
            var a, b, c := ParsePoint(parseF32, t0), ParsePoint(parseF32, t1), ParsePoint(parseF32, t2);
            && (a.Failure? ==> r == Failure(a.error))
            && (a.Success? && b.Failure? ==> r == Failure(b.error))
            && (a.Success? && b.Success? && c.Failure? ==> r == Failure(c.error))
            && (a.Success? && b.Success? && c.Success? ==> r == Success(Quad(a.value, b.value, c.value)))
  {
    ExtraSplit(extra);
    var r0 := Split(extra, ':')[0];
    var more := extra[|r0|..];
    QuadLayout(t0, t1, t2, r0, more);
    QuadTokens(t0, t1, t2, r0);
    Dispatch(parseF32, "quad", " " + (t0 + " " + t1 + " " + t2) + r0, more);
    QuadOfTokens(parseF32, " " + (t0 + " " + t1 + " " + t2) + r0, t0, t1, t2);
  }

  /** ` T0 T1` is exactly the two tokens. */
  lemma PairTokens(t0: string, t1: string)
    requires Token(t0) && Token(t1)
    ensures ':' !in " " + (t0 + " " + t1) + ""
    ensures Tokens(" " + (t0 + " " + t1) + "") == [t0, t1]
  {
    LineShape(t0, t1);
    NotInConcatThree(':', " ", t0 + " " + t1, "");
    TrimPadded(" ", t0 + " " + t1, "");
    SplitJoin([t0, t1], ' ');
  }

  lemma PairLayout(t0: string, t1: string)
    ensures "quad: " + t0 + " " + t1 == "quad" + ":" + (" " + (t0 + " " + t1) + "") + ""
  {
  }

  /** `quad: T0 T1` has two tokens: after their points the third is missing. */
  lemma QuadWithTwoPointsFails<C>(parseF32: string -> Option<C>, t0: string, t1: string)
    requires Token(t0) && Token(t1)
    ensures var r := Parse(parseF32, "quad: " + t0 + " " + t1);
            var a, b := ParsePoint(parseF32, t0), ParsePoint(parseF32, t1);
            && (a.Failure? ==> r == Failure(a.error))
            && (a.Success? && b.Failure? ==> r == Failure(b.error))
            && (a.Success? && b.Success? ==> r == Failure(MissingThirdPoint))
  {
    PairLayout(t0, t1);
    PairTokens(t0, t1);
    Dispatch(parseF32, "quad", " " + (t0 + " " + t1) + "", "");
  }

  // ---- round trip ----

  /** Every command written in the script grammar decodes back to itself. */
  lemma CommandRoundTrip<C>(parseF32: string -> Option<C>, show: C -> string, cmd: Command<C>)
    requires PrintableCommand(parseF32, show, cmd)
    ensures Parse(parseF32, FormatCommand(show, cmd)) == Success(cmd)
  {
    match cmd
    case Reset(w, h) =>
      ResetRoundTrip<C>(parseF32, w, h);
    case Line(a, b) =>
      FormattedPointIsToken(parseF32, show, a);
      FormattedPointIsToken(parseF32, show, b);
      PointRoundTrip(parseF32, show, a);
      PointRoundTrip(parseF32, show, b);
      assert FormatCommand(show, Line(a, b)) == "line: " + FormatPoint(show, a) + " " + FormatPoint(show, b) + "";
      LineDecodes(parseF32, FormatPoint(show, a), FormatPoint(show, b), "");
    case Quad(a, b, c) =>
      FormattedPointIsToken(parseF32, show, a);
      FormattedPointIsToken(parseF32, show, b);
      FormattedPointIsToken(parseF32, show, c);
      PointRoundTrip(parseF32, show, a);
      PointRoundTrip(parseF32, show, b);
      PointRoundTrip(parseF32, show, c);
      assert FormatCommand(show, Quad(a, b, c)) == "quad: " + FormatPoint(show, a) + " " + FormatPoint(show, b) + " " + FormatPoint(show, c) + "";
      QuadDecodes(parseF32, FormatPoint(show, a), FormatPoint(show, b), FormatPoint(show, c), "");
  }
}
