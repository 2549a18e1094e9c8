# Glyph command scripts

This project models the command-script decoder of the glyph test program in
`src/main.rs`. The program reads one script per font file and replays it on a
rasterizer. A script holds one command per line:

- `reset: WxH`
- `line: (x,y) (x,y)`
- `quad: (x,y) (x,y) (x,y)`

The model covers these parts of the program:

- `Command`;
- `parse_point`;
- `Command::from_str`, with the `reset`, `quad` and `line` branches and the panic on an unknown tag;
- the per-line loop of `read_commands`;
- the dispatch of `rasterize_glyph` onto the rasterizer.

Every `unwrap`, the byte slice and the `panic!` become a `Failure` carrying a `Panic` value, and the first site reached decides. There is one value per site: `InvalidWidth` and `InvalidHeight` for the two `usize` parses, `InvalidX`, `MissingY` and `InvalidY` inside `parse_point`, and `MissingSecondPoint` and `MissingThirdPoint` for the point tokens. The `unwrap` of the argument field occurs once in each branch, and so does the `unwrap` of the second point in `quad` and `line`. These repeated sites share a value, and the line's tag tells them apart. Parsing an `f32` is the parameter `parseF32: string -> Option<C>`, so coordinates are an abstract type `C`. The rasterizer is a class that records the calls it receives.

Files:

- `wrappers.dfy`: `Option` and `Result`.
- `str_ops.dfy`: Rust's `str::split` on one character, `trim`, `lines`, and their properties.
- `usize_parse.dfy`: `usize::from_str` on a 64-bit target, and decimal printing.
- `command.dfy`: `Command`, `Panic`, `ParsePoint`, the three branches, and `Parse` (i.e. `Command::from_str`).
- `command_props.dfy`: tag selection, points, and `reset`: what is read, ignored, refused, and round trips.
- `drawing_props.dfy`: `line` and `quad`: tokens, ignored extras, failures, and the round trip of every command.
- `glyph.dfy`: `read_commands` (`ReadCommands`, specified by `DecodeAll`), the rasterizer's call trace, and `rasterize_glyph`.
- `script_props.dfy`: a whole script written one command per line reads back as the same commands.

## Model

| member | source | states |
|---|---|---|
| StrOps.Split | src/main.rs:106 | `split` on one character always yields at least one piece; no piece holds the separator; joining the pieces with it gives the text back |
| StrOps.SplitJoin | src/main.rs:106 | splitting separator-free pieces joined by the separator gives exactly those pieces |
| StrOps.SplitFirstPiece | src/main.rs:106-107 | the first piece is the text before the first separator, or the whole text |
| StrOps.SplitLeadingPieces | src/main.rs:109-111 | text that starts with joined pieces, followed by nothing or by the separator, splits into those pieces first, whatever follows |
| StrOps.SplitStartsWith | src/main.rs:116-120 | the same fact, stated pointwise for a text equal to the joined pieces plus such a tail |
| StrOps.AsciiWhitespace | src/main.rs:109 | `char::is_whitespace`, which `trim` uses, is modelled by `StrOps.IsWhitespace` as the Unicode White_Space list; among one-byte characters it holds exactly for tab, line feed, vertical tab, form feed, carriage return and space |
| StrOps.TrimStart | src/main.rs:109 | `trim_start` keeps a suffix; what it drops is all whitespace; the rest is empty or starts with non-whitespace |
| StrOps.TrimEnd | src/main.rs:109 | `trim_end` keeps a prefix; what it drops is all whitespace; the rest is empty or ends with non-whitespace |
| StrOps.Trim | src/main.rs:109 | `trim` never lengthens the text; a non-empty result starts and ends with non-whitespace |
| StrOps.TrimEmpty | src/main.rs:109 | `trim` gives the empty string exactly when the text is all whitespace (both directions) |
| StrOps.TrimPadded | src/main.rs:109 | `trim` removes exactly the whitespace padding around a core that starts and ends with non-whitespace |
| StrOps.TrimAround | src/main.rs:116 | leading whitespace goes, such a core stays whole, and only the tail after it is trimmed |
| StrOps.Lines | src/main.rs:27 | no line from `lines` contains `\n` |
| StrOps.LinesOfText | src/main.rs:27 | for `\n`-terminated lines plus an unterminated rest, `lines` gives each terminated line minus one trailing `\r`, then the rest unless it is empty |
| StrOps.LinesOfUnlines | src/main.rs:27 | lines written one per `\n` come back unchanged when none contains `\n` or ends in `\r` |
| StrOps.LinesOfCrlf | src/main.rs:27 | lines written one per `\r\n` come back unchanged |
| UsizeParse.ParseUsize | src/main.rs:110-111 | a parsed `usize` comes from all-digit text, or from `+` and then all-digit text, and has that text's decimal value |
| UsizeParse.ParseUsizeOfDecimal | src/main.rs:110-111 | every `usize` printed in decimal parses back to itself, also with a leading `+` or `0` |
| UsizeParse.ParseUsizeOverflows | src/main.rs:110-111 | a numeral for a value above 2^64-1 does not parse |
| UsizeParse.DecimalStringValue | src/main.rs:110-111 | the printed numeral of `n` has the value `n` |
| UsizeParse.LeadingZeroValue | src/main.rs:110-111 | a leading zero does not change a numeral's value |
| Commands.IsKnownTag | src/main.rs:108-124 | the three patterns of the `match`: each holds no `:` and neither starts nor ends with whitespace, so a line's tag can equal it and a padded tag cannot |
| Commands.Tag | src/main.rs:106-107 | the tag is the prefix of the line before its first `:`; it has no `:`; the end of the line or a `:` follows it |
| Commands.Tokens | src/main.rs:116-125 | the trimmed argument split on single spaces has at least one token, so the first `next().unwrap()` never fails |
| Commands.Command | src/main.rs:84-89 | the three commands: `Reset` with a width and a height as `usize`, `Quad` with three points, `Line` with two points |
| Commands.Fields | src/main.rs:106-107 | splitting the line on `:` yields at least one field, so the first `next().unwrap()` never fails |
| Commands.Dimensions | src/main.rs:109-110 | the trimmed argument split on `x` has at least one part, so the width's `next().unwrap()` never fails |
| Commands.ParsePoint | src/main.rs:91-100 | success needs at least two characters with one-byte first and last characters; x and y then come from the first two `,`-fields of the text between them |
| Commands.ParseReset | src/main.rs:108-113 | success is a `Reset` whose width and height are the `usize` values of the first two `x`-parts of the trimmed argument |
| Commands.ParseQuad | src/main.rs:115-122 | success is a `Quad` whose points are the points of the first three space-tokens of the trimmed argument, in order |
| Commands.ParseLine | src/main.rs:124-130 | success is a `Line` whose points are the points of the first two space-tokens of the trimmed argument, in order |
| Commands.Parse | src/main.rs:102-135 | success only for a known tag, and the variant matches it; an unknown tag fails with that tag; a known tag without a second field fails; otherwise that tag's branch decodes the second field |
| CommandProperties.FieldsOf | src/main.rs:106-109 | in `tag:arg` followed by nothing or further fields, the tag is `tag` and the argument field is `arg` |
| CommandProperties.ArgumentOf | src/main.rs:106-109 | the argument field is the text after the first `:` up to the next one |
| CommandProperties.Dispatch | src/main.rs:106-131 | a known tag with a `:`-free argument decodes exactly as its branch on that argument, whatever fields follow |
| CommandProperties.UnknownTagFails | src/main.rs:107-132 | a tag other than `reset`, `quad`, `line` fails with that tag, with or without a `:` after it |
| CommandProperties.EmptyLineFails | src/main.rs:107-132 | the empty line fails as an unknown, empty tag |
| CommandProperties.PaddedTagFails | src/main.rs:107-132 | whitespace before or after a known tag makes it unknown, because the tag is not trimmed |
| CommandProperties.TagWithoutArgumentsFails | src/main.rs:108-125 | `reset`, `line` or `quad` with no `:` fails on the missing argument field |
| CommandProperties.PointRoundTrip | src/main.rs:91-99 | a point written `(x,y)` with printable coordinates parses back to itself |
| CommandProperties.PointDelimitersUnchecked | src/main.rs:92-93 | the first and last characters are dropped unread: any one-byte characters give the same result as `(` and `)` |
| CommandProperties.PointExtraFieldsIgnored | src/main.rs:94-98 | `,`-fields after the second are never read |
| CommandProperties.PointFailures | src/main.rs:92-98 | fewer than two characters, or a multi-byte first or last character, fail at the slice; inner text without `,` whose x parses fails for missing y |
| CommandProperties.UsizeTextShape | src/main.rs:110-111 | text that parses as a `usize` is non-empty, holds no separator and no space, and has non-whitespace ends |
| CommandProperties.ResetDecodes | src/main.rs:108-113 | `reset:` then `WxH`, with any whitespace around it, gives `Reset(w, h)` when `W` and `H` parse as `w` and `h` |
| CommandProperties.ResetRoundTrip | src/main.rs:108-113 | `reset: WxH`, with `W` and `H` printed in decimal, gives `Reset(W, H)` |
| CommandProperties.ResetThirdPartIgnored | src/main.rs:109-111 | `x`-parts after the second are never read |
| CommandProperties.ResetThirdFieldIgnored | src/main.rs:106-109 | `:`-fields after the second are never read |
| CommandProperties.ResetDimensionFailures | src/main.rs:110-111 | in `reset: WxH`, a `W` that is no `usize` fails as the width, before `H` is read; after a good `W`, an `H` that is no `usize` fails as the height |
| CommandProperties.ResetWithoutHeightFails | src/main.rs:111 | a dimension without `x` fails for the missing height |
| CommandProperties.ResetWithSpacedDimensionsFails | src/main.rs:109-110 | `W x H` fails: the part `W ` is no `usize` |
| DrawingProperties.LineOfTokens | src/main.rs:125-130 | given the first two tokens, `line` fails with the first token's error, else the second's, else yields the line through both points |
| DrawingProperties.LineDecodes | src/main.rs:124-130 | `line: T0 T1` decodes from `T0` and `T1` in that order, first failure deciding; further tokens and fields are ignored |
| DrawingProperties.LineWithOnePointFails | src/main.rs:127-128 | one token fails: with its own error, or else for the missing point |
| DrawingProperties.LineWithDoubledSpaceFails | src/main.rs:124-128 | two spaces between the points give an empty token, which fails at the slice |
| DrawingProperties.QuadOfTokens | src/main.rs:116-122 | given the first three tokens, `quad` fails with the first failing token's error, else yields the quad through the three points |
| DrawingProperties.QuadDecodes | src/main.rs:115-122 | `quad: T0 T1 T2` decodes from the three tokens in order, first failure deciding; further tokens and fields are ignored |
| DrawingProperties.QuadWithTwoPointsFails | src/main.rs:118-120 | two tokens fail: with the first failing token's error, or else for the missing third point |
| DrawingProperties.CommandRoundTrip | src/main.rs:102-135 | every command written in the script grammar with printable coordinates decodes back to itself |
| Glyph.DecodeAll | src/main.rs:27-32 | a successful decoding has one command per line |
| Glyph.DecodeAllSucceeds | src/main.rs:27-30 | on success the i-th command is what the i-th line decodes to |
| Glyph.DecodeAllFails | src/main.rs:27-28 | on failure some line fails with that error, and every line before it decodes |
| Glyph.DecodeAllOfParsed | src/main.rs:27-30 | lines that all decode give exactly their commands, in order |
| Glyph.DecodeAllFirstFailure | src/main.rs:27-28 | the first line that fails decides the error, whatever follows it |
| Glyph.ReadCommands | src/main.rs:26-32 | the loop over `lines` returns `DecodeAll` of the lines: their commands in order, or the first failing line's error |
| Glyph.CallFor | src/main.rs:37-46 | a `Reset` becomes a `reset` call, a `Line` a `draw_line` call and a `Quad` a `draw_quad` call, each with the command's own arguments (both directions of each variant match) |
| Glyph.CommandOf | src/main.rs:37-47 | every rasterizer call is the call for the command it returns |
| Glyph.CallForInjective | src/main.rs:37-47 | different commands lead to different calls |
| Glyph.Trace | src/main.rs:36-48 | one call per command, the i-th call for the i-th command |
| Glyph.TraceAppend | src/main.rs:36-48 | the calls for two command lists in sequence are the two call lists in sequence |
| Glyph.TraceInjective | src/main.rs:36-48 | the calls made determine the commands |
| Glyph.Rasterizer.constructor | src/main.rs:10 | a new rasterizer has received no call |
| Glyph.Rasterizer.Reset | src/main.rs:39 | `reset` appends one reset call with the same width and height |
| Glyph.Rasterizer.DrawLine | src/main.rs:42 | `draw_line` appends one line call with the same points |
| Glyph.Rasterizer.DrawQuad | src/main.rs:45 | `draw_quad` appends one quad call with the same points |
| Glyph.Draw | src/main.rs:37-47 | the `match` makes exactly the call that matches the command |
| Glyph.RasterizeGlyph | src/main.rs:35-49 | the rasterizer's calls grow by exactly the calls for the commands, in order, and by nothing else |
| Glyph.RenderGlyph | src/main.rs:16-17 | one file: the decoding is `DecodeAll` of its lines; a failure leaves the rasterizer untouched; a success appends the calls for the decoded commands |
| ScriptProperties.FormattedLineShape | src/main.rs:27 | a formatted command whose printed coordinates hold no `\n` holds no `\n` either and does not end in `\r` |
| ScriptProperties.LinesOfScript | src/main.rs:27 | the lines of a script are its formatted commands |
| ScriptProperties.ScriptRoundTrip | src/main.rs:27-32 | a script of commands, one per line, decodes to exactly those commands when each command is printable and its printed coordinates hold no `\n` |

## Left out

- The rasterizer engine is left out. `Rasterizer::new`, `reset`, `draw_line`, `draw_quad`, `dimensions` and `for_each_pixel` belong to the `ab_glyph_rasterizer` crate, which is not part of this model. `Glyph.Rasterizer` only records the calls it receives. The `.into()` point conversion is the identity.
- `main`'s directory walk is left out, along with `fs::read`, UTF-8 decoding, PNG output and `write_png`: these are I/O. `ReadCommands` takes the decoded text as a parameter.
- `serialize_to_rgba` is left out. It is a floating-point conversion driven by an engine callback.
- The numeric meaning of `f32::from_str` is left out. It is the parameter `parseF32`, so the coordinate type stays abstract. The round trips assume a coordinate printer whose output `parseF32` reads back and contains no `,`, space or `:` (`CommandProperties.Printable`). A whole script also needs coordinates printed without `\n` (`ScriptProperties.OneLineCommand`).
- The program's panic messages are left out. They are replaced by a `Panic` value that names the failing site.
- `usize` is modelled for a 64-bit target: values up to 2^64-1.
- `Commands.ParsePoint` follows the byte slice `&outer[1..end - 1]`. It panics unless there are at least two characters and the first and last are one byte each. Which characters they are is not checked (`CommandProperties.PointDelimitersUnchecked`).
- `StrOps.Lines` follows current Rust: a `\r` is dropped only before `\n`. An unterminated last line keeps a trailing `\r`.
- The model imposes no order on commands. The program never checks that a `reset` comes first, so there is no such rule here.
