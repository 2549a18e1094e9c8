/**
 * Whole scripts: commands written one per line in the script grammar are
 * read back by `read_commands` as the same commands, in the same order.
 */
module ScriptProperties {
  import opened Wrappers
  import opened StrOps
  import opened UsizeParse
  import opened Commands
  import opened CommandProperties
  import opened DrawingProperties
  import opened Glyph

  /** The commands written one per line, each line ended by `\n`. */
  function Script<C>(show: C -> string, cmds: seq<Command<C>>): string {
    Unlines(seq(|cmds|, i requires 0 <= i < |cmds| => FormatCommand(show, cmds[i])))
  }

  /** The printed coordinates of a point hold no line break. */
  ghost predicate OneLinePoint<C>(show: C -> string, p: Point<C>) {
    '\n' !in show(p.x) && '\n' !in show(p.y)
  }

  /** The printed coordinates of a command hold no line break. */
  ghost predicate OneLineCommand<C>(show: C -> string, cmd: Command<C>) {
    match cmd
    case Reset(_, _) => true
    case Line(a, b) => OneLinePoint(show, a) && OneLinePoint(show, b)
    case Quad(a, b, c) => OneLinePoint(show, a) && OneLinePoint(show, b) && OneLinePoint(show, c)
  }

  /** A command that decodes back from its line and fits on that line. */
  ghost predicate ScriptPrintable<C>(parseF32: string -> Option<C>, show: C -> string, cmd: Command<C>) {
    PrintableCommand(parseF32, show, cmd) && OneLineCommand(show, cmd)
  }

  lemma DigitsHaveNoLineBreak(s: string)
    requires AllDigits(s)
    ensures '\n' !in s && '\r' !in s
  {
  }

  /** `reset: WxH` holds no line break and ends with a digit. */
  lemma ResetLineShape(w: Usize, h: Usize)
    ensures var t := "reset: " + DecimalString(w) + "x" + DecimalString(h);
            '\n' !in t && t != [] && t[|t| - 1] != '\r'
  {
    var dw, dh := DecimalString(w), DecimalString(h);
    DigitsHaveNoLineBreak(dw);
    DigitsHaveNoLineBreak(dh);
    NotInConcatThree('\n', "reset: ", dw, "x");
    NotInConcat('\n', "reset: " + dw + "x", dh);
    ConcatEnds("reset: " + dw + "x", dh);
  }

  /** A point in the script grammar holds no line break and ends with `)`. */
  lemma PointLineShape<C>(show: C -> string, p: Point<C>)
    requires OneLinePoint(show, p)
    ensures var t := FormatPoint(show, p);
            '\n' !in t && t != [] && t[|t| - 1] == ')'
  {
    NotInConcatThree('\n', "(", show(p.x), ",");
    NotInConcatThree('\n', "(" + show(p.x) + ",", show(p.y), ")");
  }

  /** A formatted command holds no line break and does not end in `\r`, so `lines` gives it back whole. */
  lemma FormattedLineShape<C>(show: C -> string, cmd: Command<C>)
    requires OneLineCommand(show, cmd)
    ensures var t := FormatCommand(show, cmd);
            '\n' !in t && t != [] && t[|t| - 1] != '\r'
  {
    match cmd
    case Reset(w, h) =>
      ResetLineShape(w, h);
    case Line(a, b) =>
      var ta, tb := FormatPoint(show, a), FormatPoint(show, b);
      PointLineShape(show, a);
      PointLineShape(show, b);
      NotInConcatThree('\n', "line: ", ta, " ");
      NotInConcat('\n', "line: " + ta + " ", tb);
      ConcatEnds("line: " + ta + " ", tb);
    case Quad(a, b, c) =>
      var ta, tb, tc := FormatPoint(show, a), FormatPoint(show, b), FormatPoint(show, c);
      PointLineShape(show, a);
      PointLineShape(show, b);
      PointLineShape(show, c);
      NotInConcatThree('\n', "quad: ", ta, " ");
      NotInConcatThree('\n', "quad: " + ta + " ", tb, " ");
      NotInConcat('\n', "quad: " + ta + " " + tb + " ", tc);
      ConcatEnds("quad: " + ta + " " + tb + " ", tc);
  }

  /** The lines of a script are the formatted commands. */
  lemma LinesOfScript<C>(show: C -> string, cmds: seq<Command<C>>)
    requires forall i :: 0 <= i < |cmds| ==> OneLineCommand(show, cmds[i])
    ensures Lines(Script(show, cmds)) == seq(|cmds|, i requires 0 <= i < |cmds| => FormatCommand(show, cmds[i]))
  {
    var texts := seq(|cmds|, i requires 0 <= i < |cmds| => FormatCommand(show, cmds[i]));
    forall i | 0 <= i < |texts|
      ensures '\n' !in texts[i] && (texts[i] == [] || texts[i][|texts[i]| - 1] != '\r')
    {
      FormattedLineShape(show, cmds[i]);
    }
    LinesOfUnlines(texts);
  }

  /** A script of printable commands is read back as exactly those commands. */
  lemma ScriptRoundTrip<C>(parseF32: string -> Option<C>, show: C -> string, cmds: seq<Command<C>>)
    requires forall i :: 0 <= i < |cmds| ==> ScriptPrintable(parseF32, show, cmds[i])
    ensures DecodeAll(LineDecoder(parseF32), Lines(Script(show, cmds))) == Success(cmds)
  {
    var texts := seq(|cmds|, i requires 0 <= i < |cmds| => FormatCommand(show, cmds[i]));
    LinesOfScript(show, cmds);
    forall i | 0 <= i < |texts|
      ensures LineDecoder(parseF32)(texts[i]) == Success(cmds[i])
    {
      CommandRoundTrip(parseF32, show, cmds[i]);
    }
    DecodeAllOfParsed(LineDecoder(parseF32), texts, cmds);
  }
}
