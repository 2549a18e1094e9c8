/**
 * The operations of Rust's `str` that the command decoder uses:
 * `split` on a one-character pattern, `trim`, `lines`, and the byte-level
 * question of whether a character is encoded in one UTF-8 byte.
 */
module StrOps {

  /** `char::is_whitespace`: the Unicode White_Space property. */
  predicate IsWhitespace(c: char) {
    var n := c as int;
    (0x09 <= n <= 0x0D) || n == 0x20 || n == 0x85 || n == 0xA0 || n == 0x1680
    || (0x2000 <= n <= 0x200A) || n == 0x2028 || n == 0x2029 || n == 0x202F
    || n == 0x205F || n == 0x3000
  }

  /**
   * Among one-byte characters, `char::is_whitespace` holds for tab, line
   * feed, vertical tab, form feed, carriage return and space only.
   */
  lemma AsciiWhitespace(c: char)
    requires IsAscii(c)
    ensures IsWhitespace(c) <==> c == '\t' || c == '\n' || c as int == 0x0B || c as int == 0x0C || c == '\r' || c == ' '
  {
  }

  predicate AllWhitespace(s: string) {
    forall i :: 0 <= i < |s| ==> IsWhitespace(s[i])
  }

  /** A character whose UTF-8 encoding is a single byte. */
  predicate IsAscii(c: char) {
    c as int < 0x80
  }

  /** The pieces glued back with the separator between consecutive ones. */
  function Join(pieces: seq<string>, d: char): string
    decreases |pieces|
  {
    if |pieces| == 0 then ""
    else if |pieces| == 1 then pieces[0]
    else pieces[0] + [d] + Join(pieces[1..], d)
  }

  /**
   * `s.split(d)`: the maximal runs between occurrences of `d`. There is always
   * at least one piece (the empty string splits into one empty piece); no
   * piece contains `d`; joining the pieces with `d` gives back `s`.
   */
  function Split(s: string, d: char): (r: seq<string>)
    ensures |r| >= 1
    ensures forall i :: 0 <= i < |r| ==> d !in r[i]
    ensures Join(r, d) == s
    decreases |s|
  {
    if |s| == 0 then [""]
    else
      var rest := Split(s[1..], d);
      if s[0] == d then
        [""] + rest
      else
        var r := [[s[0]] + rest[0]] + rest[1..];
        assert r[1..] == rest[1..];
        r
  }

  /** `s.trim_start()` */
  function TrimStart(s: string): (r: string)
    ensures |r| <= |s| && r == s[|s| - |r|..]
    ensures AllWhitespace(s[..|s| - |r|])
    ensures r == [] || !IsWhitespace(r[0])
    decreases |s|
  {
    if |s| > 0 && IsWhitespace(s[0]) then TrimStart(s[1..]) else s
  }

  /** `s.trim_end()` */
  function TrimEnd(s: string): (r: string)
    ensures |r| <= |s| && r == s[..|r|]
    ensures AllWhitespace(s[|r|..])
    ensures r == [] || !IsWhitespace(r[|r| - 1])
    decreases |s|
  {
    if |s| > 0 && IsWhitespace(s[|s| - 1]) then TrimEnd(s[..|s| - 1]) else s
  }

  /**
   * `s.trim()`: `s` without its leading and trailing whitespace. A non-empty
   * result starts and ends with a character that is not whitespace; it is
   * empty exactly when `s` is all whitespace (`TrimEmpty`).
   */
  function Trim(s: string): (r: string)
    ensures |r| <= |s|
    ensures r == [] || (!IsWhitespace(r[0]) && !IsWhitespace(r[|r| - 1]))
  {
    TrimEnd(TrimStart(s))
  }

  /** One `\r` removed from the end of a line that was ended by `\n`. */
  function StripCarriageReturn(line: string): string {
    if |line| > 0 && line[|line| - 1] == '\r' then line[..|line| - 1] else line
  }

  /**
   * `s.lines()`: the pieces between `\n`s; a piece that was ended by `\n` loses
   * one trailing `\r`; an empty remainder after the last `\n` is no line, and a
   * non-empty one is kept as it is.
   */
  function Lines(s: string): (r: seq<string>)
    ensures forall i :: 0 <= i < |r| ==> '\n' !in r[i]
  {
    var pieces := Split(s, '\n');
    var ended := pieces[..|pieces| - 1];
    var last := pieces[|pieces| - 1];
    seq(|ended|, i requires 0 <= i < |ended| => StripCarriageReturn(ended[i]))
      + (if last == "" then [] else [last])
  }

  /** Each line followed by `\n`: the usual layout of a text file. */
  function Unlines(lines: seq<string>): string
    decreases |lines|
  {
    if |lines| == 0 then "" else lines[0] + "\n" + Unlines(lines[1..])
  }

  // ---- split ----

  /** A prefix free of the separator glues onto the first piece of what follows. */
  lemma {:induction false} SplitPrefix(a: string, rest: string, d: char)
    requires d !in a
    ensures Split(a + rest, d) == [a + Split(rest, d)[0]] + Split(rest, d)[1..]
    decreases |a|
  {
    if |a| == 0 {
      assert a + rest == rest;
      assert a + Split(rest, d)[0] == Split(rest, d)[0];
      assert Split(rest, d) == [Split(rest, d)[0]] + Split(rest, d)[1..];
    } else {
      assert (a + rest)[1..] == a[1..] + rest;
      SplitPrefix(a[1..], rest, d);
      assert [a[0]] + (a[1..] + Split(rest, d)[0]) == a + Split(rest, d)[0];
    }
  }

  /** Splitting pieces joined by a separator none of them contains gives the pieces back. */
  lemma {:induction false} SplitJoin(pieces: seq<string>, d: char)
    requires |pieces| >= 1
    requires forall i :: 0 <= i < |pieces| ==> d !in pieces[i]
    ensures Split(Join(pieces, d), d) == pieces
    decreases |pieces|
  {
    if |pieces| == 1 {
      SplitPrefix(pieces[0], "", d);
      assert pieces[0] + "" == pieces[0];
    } else {
      var tail := Join(pieces[1..], d);
      assert Join(pieces, d) == pieces[0] + ([d] + tail);
      SplitPrefix(pieces[0], [d] + tail, d);
      assert ([d] + tail)[1..] == tail;
      assert Split([d] + tail, d) == [""] + Split(tail, d);
      SplitJoin(pieces[1..], d);
      assert pieces[0] + "" == pieces[0];
    }
  }

  /** The first piece is the text before the first separator, or all of `s`. */
  lemma SplitFirstPiece(s: string, d: char)
    ensures var p := Split(s, d)[0]; |p| <= |s| && p == s[..|p|] && (|p| == |s| || s[|p|] == d)
  {
    var r := Split(s, d);
    if |r| > 1 {
      assert s == r[0] + [d] + Join(r[1..], d);
    }
  }

  /** A piece free of the separator, the separator, and the rest: the piece comes off whole. */
  lemma SplitSeparated(a: string, rest: string, d: char)
    requires d !in a
    ensures Split(a + [d] + rest, d) == [a] + Split(rest, d)
  {
    assert a + [d] + rest == a + ([d] + rest);
    SplitPrefix(a, [d] + rest, d);
    assert ([d] + rest)[1..] == rest;
    assert a + "" == a;
  }

  /**
   * Whatever follows a run of joined pieces, as long as it is empty or starts
   * with the separator, the run's pieces are the leading pieces of the split.
   */
  lemma {:induction false} SplitLeadingPieces(pieces: seq<string>, tail: string, d: char)
    requires |pieces| >= 1
    requires forall i :: 0 <= i < |pieces| ==> d !in pieces[i]
    requires tail == [] || tail[0] == d
    ensures |Split(Join(pieces, d) + tail, d)| >= |pieces|
    ensures Split(Join(pieces, d) + tail, d)[..|pieces|] == pieces
    decreases |pieces|
  {
    if |pieces| == 1 {
      SplitPrefix(pieces[0], tail, d);
      SplitFirstPiece(tail, d);
      assert pieces[0] + "" == pieces[0];
    } else {
      var rest := Join(pieces[1..], d);
      assert Join(pieces, d) + tail == pieces[0] + [d] + (rest + tail);
      SplitSeparated(pieces[0], rest + tail, d);
      SplitLeadingPieces(pieces[1..], tail, d);
      assert pieces == [pieces[0]] + pieces[1..];
    }
  }

  /** The first and last characters of a concatenation of two non-empty strings. */
  lemma ConcatEnds(a: string, b: string)
    requires a != [] && b != []
    ensures (a + b)[0] == a[0] && (a + b)[|a + b| - 1] == b[|b| - 1]
  {
  }

  /** A character occurs in a concatenation exactly when it occurs in one of the parts. */
  lemma NotInConcat(c: char, a: string, b: string)
    ensures c !in a + b <==> c !in a && c !in b
  {
    if c in a + b {
      var k :| 0 <= k < |a + b| && (a + b)[k] == c;
      if k < |a| { assert a[k] == c; } else { assert b[k - |a|] == c; }
    }
  }

  /** Text that starts with separator-free pieces joined by `d`, then nothing or `d`, splits into those pieces first. */
  lemma SplitStartsWith(s: string, pieces: seq<string>, tail: string, d: char)
    requires |pieces| >= 1 && forall i :: 0 <= i < |pieces| ==> d !in pieces[i]
    requires tail == [] || tail[0] == d
    requires s == Join(pieces, d) + tail
    ensures |Split(s, d)| >= |pieces|
    ensures forall i :: 0 <= i < |pieces| ==> Split(s, d)[i] == pieces[i]
  {
    SplitLeadingPieces(pieces, tail, d);
    forall i | 0 <= i < |pieces|
      ensures Split(s, d)[i] == pieces[i]
    {
      assert Split(s, d)[..|pieces|][i] == pieces[i];
    }
  }

  lemma NotInConcatThree(c: char, a: string, b: string, e: string)
    ensures c !in a + b + e <==> c !in a && c !in b && c !in e
  {
    NotInConcat(c, a, b);
    NotInConcat(c, a + b, e);
  }

  lemma JoinTwo(a: string, b: string, d: char)
    ensures Join([a, b], d) == a + [d] + b
  {
    assert [a, b][1..] == [b];
  }

  lemma JoinThree(a: string, b: string, c: string, d: char)
    ensures Join([a, b, c], d) == a + [d] + b + [d] + c
  {
    assert [a, b, c][1..] == [b, c];
    JoinTwo(b, c, d);
  }

  // ---- trim ----

  lemma {:induction false} TrimStartPadded(pre: string, s: string)
    requires AllWhitespace(pre)
    ensures TrimStart(pre + s) == TrimStart(s)
    decreases |pre|
  {
    if |pre| > 0 {
      assert (pre + s)[1..] == pre[1..] + s;
      TrimStartPadded(pre[1..], s);
    } else {
      assert pre + s == s;
    }
  }

  /** A trailing part can only lose its own whitespace when what precedes it ends in non-whitespace. */
  lemma {:induction false} TrimEndKeepsPrefix(p: string, q: string)
    requires p != [] && !IsWhitespace(p[|p| - 1])
    ensures TrimEnd(p + q) == p + TrimEnd(q)
    decreases |q|
  {
    if |q| == 0 {
      assert p + q == p;
    } else if IsWhitespace(q[|q| - 1]) {
      assert (p + q)[..|p + q| - 1] == p + q[..|q| - 1];
      TrimEndKeepsPrefix(p, q[..|q| - 1]);
    } else {
      assert (p + q)[|p + q| - 1] == q[|q| - 1];
    }
  }

  lemma AllWhitespaceTrimsAway(s: string)
    requires AllWhitespace(s)
    ensures TrimEnd(s) == []
  {
  }

  /** The trimmed string is empty exactly when `s` is all whitespace. */
  lemma TrimEmpty(s: string)
    ensures Trim(s) == [] <==> AllWhitespace(s)
  {
    var t := TrimStart(s);
    if t != [] {
      assert !IsWhitespace(s[|s| - |t|]);
    }
  }

  /**
   * Trimming a text whose core starts and ends in non-whitespace: leading
   * whitespace goes, the core stays, and only the tail after it is trimmed.
   */
  lemma TrimAround(pre: string, core: string, tail: string)
    requires AllWhitespace(pre)
    requires core != [] && !IsWhitespace(core[0]) && !IsWhitespace(core[|core| - 1])
    ensures Trim(pre + core + tail) == core + TrimEnd(tail)
  {
    var body := core + tail;
    assert pre + core + tail == pre + body;
    TrimStartPadded(pre, body);
    assert body[0] == core[0];
    assert TrimStart(body) == body;
    TrimEndKeepsPrefix(core, tail);
  }

  /** What `trim_end` keeps of a text starting with whitespace still starts with it, or is empty. */
  lemma TrimEndKeepsFirst(s: string)
    ensures TrimEnd(s) == [] || TrimEnd(s)[0] == s[0]
  {
  }

  /** `trim` removes exactly the whitespace padding around a core. */
  lemma TrimPadded(pre: string, core: string, post: string)
    requires AllWhitespace(pre) && AllWhitespace(post)
    requires core != [] && !IsWhitespace(core[0]) && !IsWhitespace(core[|core| - 1])
    ensures Trim(pre + core + post) == core
  {
    TrimAround(pre, core, post);
    AllWhitespaceTrimsAway(post);
    assert core + [] == core;
  }

  // ---- lines ----

  lemma {:induction false} UnlinesIsJoin(lines: seq<string>, last: string)
    ensures Unlines(lines) + last == Join(lines + [last], '\n')
    decreases |lines|
  {
    if |lines| == 0 {
      assert lines + [last] == [last];
    } else {
      UnlinesIsJoin(lines[1..], last);
      assert (lines + [last])[1..] == lines[1..] + [last];
    }
  }

  /** Splitting `\n`-terminated lines and a last piece on `\n` gives them back. */
  lemma SplitUnlines(lines: seq<string>, last: string)
    requires forall i :: 0 <= i < |lines| ==> '\n' !in lines[i]
    requires '\n' !in last
    ensures Split(Unlines(lines) + last, '\n') == lines + [last]
  {
    UnlinesIsJoin(lines, last);
    var pieces := lines + [last];
    forall i | 0 <= i < |pieces|
      ensures '\n' !in pieces[i]
    {
      if i < |lines| { assert pieces[i] == lines[i]; }
    }
    SplitJoin(pieces, '\n');
  }

  /**
   * The lines of a text made of `\n`-terminated lines and an unterminated
   * rest: each terminated line without one trailing `\r`, then the rest,
   * unless it is empty, as it is.
   */
  lemma LinesOfText(lines: seq<string>, last: string)
    requires forall i :: 0 <= i < |lines| ==> '\n' !in lines[i]
    requires '\n' !in last
    ensures Lines(Unlines(lines) + last)
            == seq(|lines|, i requires 0 <= i < |lines| => StripCarriageReturn(lines[i])) + (if last == "" then [] else [last])
  {
    SplitUnlines(lines, last);
    assert (lines + [last])[..|lines|] == lines;
  }

  /**
   * Lines written one per `\n` are read back by `lines`, provided none of them
   * contains `\n` or ends in `\r`.
   */
  lemma LinesOfUnlines(lines: seq<string>)
    requires forall i :: 0 <= i < |lines| ==> '\n' !in lines[i]
    requires forall i :: 0 <= i < |lines| ==> lines[i] == [] || lines[i][|lines[i]| - 1] != '\r'
    ensures Lines(Unlines(lines)) == lines
  {
    LinesOfText(lines, "");
    assert Unlines(lines) + "" == Unlines(lines);
  }

  /** Lines written one per `\r\n` are read back too: `lines` drops the `\r`. */
  lemma LinesOfCrlf(lines: seq<string>)
    requires forall i :: 0 <= i < |lines| ==> '\n' !in lines[i]
    ensures Lines(Unlines(seq(|lines|, i requires 0 <= i < |lines| => lines[i] + "\r"))) == lines
  {
    var ended := seq(|lines|, i requires 0 <= i < |lines| => lines[i] + "\r");
    forall i | 0 <= i < |ended|
      ensures '\n' !in ended[i]
    {
      NotInConcat('\n', lines[i], "\r");
    }
    LinesOfText(ended, "");
    assert Unlines(ended) + "" == Unlines(ended);
    forall i | 0 <= i < |lines|
      ensures StripCarriageReturn(ended[i]) == lines[i]
    {
      assert ended[i][..|ended[i]| - 1] == lines[i];
    }
  }
}
