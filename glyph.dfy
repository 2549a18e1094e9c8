/**
 * Reading a glyph script and drawing it: `read_commands` decodes the file
 * line by line and gives up at the first line that does not decode;
 * `rasterize_glyph` makes one rasterizer call per command, in order. The
 * rasterizer itself is outside the model: it is represented by the calls it
 * receives.
 */
module Glyph {
  import opened Wrappers
  import opened StrOps
  import opened UsizeParse
  import opened Commands

  // ---- read_commands ----

  /** A decoder of one line. */
  type Decoder<C> = string -> Result<Command<C>, Panic>

  /** `Command::from_str` as the decoder of one line. */
  function LineDecoder<C>(parseF32: string -> Option<C>): Decoder<C> {
    line => Parse(parseF32, line)
  }

  /**
   * The lines decoded by `decode`: the commands of all lines in order, or the error of the
   * first line that does not decode (`DecodeAllSucceeds`, `DecodeAllFails`).
   */
  function DecodeAll<C>(decode: Decoder<C>, lines: seq<string>): (r: Result<seq<Command<C>>, Panic>)
    ensures r.Success? ==> |r.value| == |lines|
    decreases |lines|
  {
    if |lines| == 0 then Success([])
    else
      var cmd :- decode(lines[0]);
      var rest :- DecodeAll(decode, lines[1..]);
      Success([cmd] + rest)
  }

  /** On success the commands are the lines' commands, in order. */
  lemma {:induction false} DecodeAllSucceeds<C>(decode: Decoder<C>, lines: seq<string>)
    requires DecodeAll(decode, lines).Success?
    ensures forall i :: 0 <= i < |lines| ==> decode(lines[i]) == Success(DecodeAll(decode, lines).value[i])
    decreases |lines|
  {
    if |lines| > 0 {
      var cmds := DecodeAll(decode, lines).value;
      DecodeAllSucceeds(decode, lines[1..]);
      forall i | 0 <= i < |lines|
        ensures decode(lines[i]) == Success(cmds[i])
      {
        if i > 0 {
          assert lines[i] == lines[1..][i - 1];
        }
      }
    }
  }

  /** On failure some line does not decode, with that error, and all lines before it do. */
  lemma {:induction false} DecodeAllFails<C>(decode: Decoder<C>, lines: seq<string>)
    requires DecodeAll(decode, lines).Failure?
    ensures exists k :: 0 <= k < |lines| && decode(lines[k]) == Failure(DecodeAll(decode, lines).error)
                        && forall i :: 0 <= i < k ==> decode(lines[i]).Success?
    decreases |lines|
  {
    var e := DecodeAll(decode, lines).error;
    if decode(lines[0]).Failure? {
      assert decode(lines[0]) == Failure(e);
    } else {
      DecodeAllFails(decode, lines[1..]);
      var k :| 0 <= k < |lines| - 1 && decode(lines[1..][k]) == Failure(e)
               && forall i :: 0 <= i < k ==> decode(lines[1..][i]).Success?;
      assert decode(lines[k + 1]) == Failure(e);
      forall i | 0 <= i < k + 1
        ensures decode(lines[i]).Success?
      {
        if i > 0 {
          assert lines[i] == lines[1..][i - 1];
        }
      }
    }
  }

  /** Lines that all decode give exactly their commands. */
  lemma {:induction false} DecodeAllOfParsed<C>(decode: Decoder<C>, lines: seq<string>, cmds: seq<Command<C>>)
    requires |cmds| == |lines|
    requires forall i :: 0 <= i < |lines| ==> decode(lines[i]) == Success(cmds[i])
    ensures DecodeAll(decode, lines) == Success(cmds)
    decreases |lines|
  {
    if |lines| > 0 {
      assert decode(lines[0]) == Success(cmds[0]);
      forall i | 0 <= i < |lines| - 1
        ensures decode(lines[1..][i]) == Success(cmds[1..][i])
      {
        assert lines[1..][i] == lines[i + 1];
      }
      DecodeAllOfParsed(decode, lines[1..], cmds[1..]);
      assert cmds == [cmds[0]] + cmds[1..];
    }
  }

  /** The first line that does not decode decides the error, whatever follows it. */
  lemma {:induction false} DecodeAllFirstFailure<C>(decode: Decoder<C>, lines: seq<string>, k: nat)
    requires k < |lines| && decode(lines[k]).Failure?
    requires forall i :: 0 <= i < k ==> decode(lines[i]).Success?
    ensures DecodeAll(decode, lines) == Failure(decode(lines[k]).error)
    decreases k
  {
    if k > 0 {
      assert decode(lines[0]).Success?;
      forall i | 0 <= i < k - 1
        ensures decode(lines[1..][i]).Success?
      {
        assert lines[1..][i] == lines[i + 1];
      }
      assert lines[1..][k - 1] == lines[k];
      DecodeAllFirstFailure(decode, lines[1..], k - 1);
    }
  }

  /** The commands `done` decoded so far, followed by the outcome for the rest of the lines. */
  function Prepend<C>(done: seq<Command<C>>, rest: Result<seq<Command<C>>, Panic>): Result<seq<Command<C>>, Panic> {
    match rest
    case Success(cmds) => Success(done + cmds)
    case Failure(e) => Failure(e)
  }

  /** Decoding the lines from `i` on is decoding line `i`, then the lines after it. */
  lemma DecodeStep<C>(decode: Decoder<C>, lines: seq<string>, i: nat)
    requires i < |lines|
    ensures decode(lines[i]).Failure? ==>
              DecodeAll(decode, lines[i..]) == Failure(decode(lines[i]).error)
    ensures decode(lines[i]).Success? ==>
              DecodeAll(decode, lines[i..]) == Prepend([decode(lines[i]).value], DecodeAll(decode, lines[i + 1..]))
  {
    assert lines[i..][0] == lines[i];
    assert lines[i..][1..] == lines[i + 1..];
  }

  /** Prepending in two steps is prepending the concatenation. */
  lemma PrependTwice<C>(a: seq<Command<C>>, b: seq<Command<C>>, rest: Result<seq<Command<C>>, Panic>)
    ensures Prepend(a, Prepend(b, rest)) == Prepend(a + b, rest)
  {
    if rest.Success? {
      assert a + (b + rest.value) == a + b + rest.value;
    }
  }

  /** Prepending nothing changes nothing. */
  lemma PrependNothing<C>(rest: Result<seq<Command<C>>, Panic>)
    ensures Prepend([], rest) == rest
  {
    if rest.Success? {
      assert [] + rest.value == rest.value;
    }
  }

  /**
   * `read_commands` after the file has been read and found to be UTF-8: one
   * command per line of `text`, in order; the first line that does not
   * decode ends the run with its error.
   */
  method ReadCommands<C>(parseF32: string -> Option<C>, text: string) returns (r: Result<seq<Command<C>>, Panic>)
    ensures r == DecodeAll(LineDecoder(parseF32), Lines(text))
  {
    var decode := LineDecoder(parseF32);
    var lines := Lines(text);
    var commands: seq<Command<C>> := [];
    assert lines[0..] == lines;
    PrependNothing(DecodeAll(decode, lines));
    for i := 0 to |lines|
      invariant DecodeAll(decode, lines) == Prepend(commands, DecodeAll(decode, lines[i..]))
    {
      var cmd := Parse(parseF32, lines[i]);
      DecodeStep(decode, lines, i);
      if cmd.Failure? {
        return Failure(cmd.error);
      }
      PrependTwice(commands, [cmd.value], DecodeAll(decode, lines[i + 1..]));
      commands := commands + [cmd.value];
    }
    assert lines[|lines|..] == [];
    assert commands + [] == commands;
    return Success(commands);
  }

  // ---- rasterize_glyph ----

  /** A call made on the rasterizer. */
  datatype Call<C> =
    | ResetCall(w: Usize, h: Usize)
    | DrawLineCall(p0: Point<C>, p1: Point<C>)
    | DrawQuadCall(p0: Point<C>, p1: Point<C>, p2: Point<C>)

  /**
   * The call that `rasterize_glyph` makes for one command: `reset` for a
   * `Reset`, `draw_line` for a `Line`, `draw_quad` for a `Quad`, each with
   * the command's own arguments.
   */
  function CallFor<C>(cmd: Command<C>): (r: Call<C>)
    ensures r.ResetCall? <==> cmd.Reset?
    ensures r.DrawLineCall? <==> cmd.Line?
    ensures r.DrawQuadCall? <==> cmd.Quad?
    ensures r.ResetCall? ==> r.w == cmd.w && r.h == cmd.h
    ensures r.DrawLineCall? ==> r.p0 == cmd.p0 && r.p1 == cmd.p1
    ensures r.DrawQuadCall? ==> r.p0 == cmd.p0 && r.p1 == cmd.p1 && r.p2 == cmd.p2
  {
    match cmd
    case Reset(w, h) => ResetCall(w, h)
    case Line(a, b) => DrawLineCall(a, b)
    case Quad(a, b, c) => DrawQuadCall(a, b, c)
  }

  /** The command a call draws. */
  function CommandOf<C>(call: Call<C>): (cmd: Command<C>)
    ensures CallFor(cmd) == call
  {
    match call
    case ResetCall(w, h) => Reset(w, h)
    case DrawLineCall(a, b) => Line(a, b)
    case DrawQuadCall(a, b, c) => Quad(a, b, c)
  }

  /** The calls for a list of commands: one per command, in order. */
  function Trace<C>(cmds: seq<Command<C>>): (r: seq<Call<C>>)
    ensures |r| == |cmds|
    ensures forall i :: 0 <= i < |cmds| ==> r[i] == CallFor(cmds[i])
    decreases |cmds|
  {
    if |cmds| == 0 then [] else [CallFor(cmds[0])] + Trace(cmds[1..])
  }

  /** Each call is made for one command only. */
  lemma CallForInjective<C>(a: Command<C>, b: Command<C>)
    requires CallFor(a) == CallFor(b)
    ensures a == b
  {
    assert CommandOf(CallFor(a)) == a;
  }

  /** The calls determine the commands they were made for. */
  lemma TraceInjective<C>(a: seq<Command<C>>, b: seq<Command<C>>)
    requires Trace(a) == Trace(b)
    ensures a == b
  {
    forall i | 0 <= i < |a|
      ensures a[i] == b[i]
    {
      CallForInjective(a[i], b[i]);
    }
  }

  /** The calls for commands given one after another follow one another. */
  lemma TraceAppend<C>(a: seq<Command<C>>, b: seq<Command<C>>)
    ensures Trace(a + b) == Trace(a) + Trace(b)
  {
    var l, r := Trace(a + b), Trace(a) + Trace(b);
    forall i | 0 <= i < |l|
      ensures l[i] == r[i]
    {
      if i < |a| { assert (a + b)[i] == a[i]; } else { assert (a + b)[i] == b[i - |a|]; }
    }
  }

  /**
   * The rasterizer as the calls it has received. The engine that turns them
   * into coverage is outside the model.
   */
  class Rasterizer<C> {
    var calls: seq<Call<C>>

    /** `Rasterizer::new(width, height)`: no call received yet. */
    constructor (width: Usize, height: Usize)
      ensures calls == []
    {
      calls := [];
    }

    method Reset(w: Usize, h: Usize)
      modifies this
      ensures calls == old(calls) + [ResetCall(w, h)]
    {
      calls := calls + [ResetCall(w, h)];
    }

    method DrawLine(a: Point<C>, b: Point<C>)
      modifies this
      ensures calls == old(calls) + [DrawLineCall(a, b)]
    {
      calls := calls + [DrawLineCall(a, b)];
    }

    method DrawQuad(a: Point<C>, b: Point<C>, c: Point<C>)
      modifies this
      ensures calls == old(calls) + [DrawQuadCall(a, b, c)]
    {
      calls := calls + [DrawQuadCall(a, b, c)];
    }
  }

  /** The `match` of `rasterize_glyph` on one command: the matching rasterizer call. */
  method Draw<C>(rasterizer: Rasterizer<C>, cmd: Command<C>)
    modifies rasterizer
    ensures rasterizer.calls == old(rasterizer.calls) + [CallFor(cmd)]
  {
    match cmd
    case Reset(w, h) => rasterizer.Reset(w, h);
    case Line(a, b) => rasterizer.DrawLine(a, b);
    case Quad(a, b, c) => rasterizer.DrawQuad(a, b, c);
  }

  /** The calls for the first `i + 1` commands are those for the first `i` and one more. */
  lemma TraceStep<C>(cmds: seq<Command<C>>, i: nat)
    requires i < |cmds|
    ensures Trace(cmds[..i + 1]) == Trace(cmds[..i]) + [CallFor(cmds[i])]
  {
    assert cmds[..i + 1] == cmds[..i] + [cmds[i]];
    TraceAppend(cmds[..i], [cmds[i]]);
  }

  /** `rasterize_glyph`: one call per command, in the order of the commands. */
  method RasterizeGlyph<C>(rasterizer: Rasterizer<C>, commands: seq<Command<C>>)
    modifies rasterizer
    ensures rasterizer.calls == old(rasterizer.calls) + Trace(commands)
  {
    for i := 0 to |commands|
      invariant rasterizer.calls == old(rasterizer.calls) + Trace(commands[..i])
    {
      Draw(rasterizer, commands[i]);
      TraceStep(commands, i);
    }
    assert commands[..|commands|] == commands;
  }

  /**
   * One file of `main`: read its commands, then draw them. A file that does
   * not decode stops the run before anything is drawn.
   */
  method RenderGlyph<C>(rasterizer: Rasterizer<C>, parseF32: string -> Option<C>, text: string)
    returns (r: Result<seq<Command<C>>, Panic>)
    modifies rasterizer
    ensures r == DecodeAll(LineDecoder(parseF32), Lines(text))
    ensures r.Failure? ==> rasterizer.calls == old(rasterizer.calls)
    ensures r.Success? ==> rasterizer.calls == old(rasterizer.calls) + Trace(r.value)
  {
    r := ReadCommands(parseF32, text);
    if r.Success? {
      RasterizeGlyph(rasterizer, r.value);
    }
  }
}
