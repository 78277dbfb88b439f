# Escape-aware word wrapping and screen damage, in Dafny

This project models two pieces of the Go module `github.com/charmbracelet/x`:

- `StyleFormatter.Wrap` and the package-level `Wrap` in `cellbuf/wrap.go`.
  They wrap text that mixes visible glyphs with ANSI escape sequences to a
  column limit. Wrapping happens at word boundaries, at breakpoint runes (the
  hyphen is always one), and, for words that are too long, inside the word.
  Escape sequences are never split. After every inserted line break, the
  active SGR style and OSC 8 hyperlink are reset and replayed.
- The damage model of `vt/damage.go`. A damaged area is a cell, a rectangle
  or the whole screen, and each reports the rectangle that bounds it.

## How the model is laid out

- `utf8.dfy` (module `Utf8`) holds the Go standard-library pieces that the
  wrapper applies to a token's bytes. It has `utf8.DecodeRuneInString` with
  Go's exact acceptance ranges, `utf8.RuneCountInString`, the `[]rune`
  conversion and `unicode.IsSpace`. It also has the test
  `len(strings.TrimSpace(s)) == 0`, as `IsBlank`: every rune is a space, and
  an undecodable byte is `RuneError`, which is not a space.
- `wrap_model.dfy` (module `WrapModel`) is the functional specification.
  - The variables of one `Wrap` call form a `State`.
  - Each closure (`addSpace`, `addWord`, `addNewline`, `addBreak`) is a
    function on states.
  - `Step` is one turn of the token-dispatch loop.
  - `Run` folds `Step` over the tokens.
  - `WrapResult` is the string the call returns.
- `cellbuf.dfy` (module `Cellbuf`) is the imperative model, in the form the
  Go code has.
  - The closures share the call's variables, so they become the methods of a
    `Wrapper` object whose fields are those variables.
  - Each method is proved to produce the state that the matching
    `WrapModel` function gives.
  - `FormatterWrap` runs the `for len(b) > 0` loop over the input. It
    consumes one decoded token per turn.
  - `RuneContainsAny` is the linear search of `runeContainsAny`.
- `wrap_rules.dfy` (module `WrapRules`) states the rules of the wrapper one
  step at a time:
  - the effect of `addWord` and `addNewline`;
  - the whitespace, breakpoint, glyph, escape-sequence and line-feed rules;
  - the end-of-input rule.
- `wrap_conservation.dfy` (module `WrapConservation`) proves token
  conservation. The output of `Wrap` is made only of whole input tokens and
  of the sequences `addNewline` inserts. The tokens appear in input order,
  each at most once. Every token that is not whitespace-only text is among
  them. The proof records, as ghost data, where the bytes of each buffer came
  from.
- `wrap_examples.dfy` (module `WrapExamples`) works through two concrete
  inputs on plain ASCII text, where each byte is a token of its own:
  - `Wrap("hello world", 5, "")` gives `"hello\nworld"`;
  - `Wrap("a\nb", 10, "")` gives `"a\n\nb"`.
- `damage.dfy` (module `Vt`) is the damage model. It uses a datatype with one
  variant per Go type, and `Bounds` is a single exhaustive function.

### The decoder and the style collaborators

- The escape-sequence decoder (`Method.DecodeSequenceInString` with its
  pooled parser) is represented by the sequence of tokens it returns for the
  input.
  - Each token carries its raw bytes, its display width (0 for control data)
    and what the parser recognised in it. That is an SGR sequence with its
    parameters, an OSC 8 hyperlink with its data, or nothing.
  - `Tokenizes(toks, b)` is the decoder's guarantee: the tokens spell the
    input, and each consumes at least one byte.
  - The decoder's state byte is folded into the token sequence.
- `Style` and `Link` are seen only through what `Wrap` uses: whether they are
  empty, and the sequence that re-applies them.
- `ReadStyle`, `ReadLink`, `ansi.ResetStyle` and `ansi.ResetHyperlink()` are
  parameters, collected in the `Ansi` record.

### Behaviour to note

These follow directly from the code in `cellbuf/wrap.go`.

- **Line feeds are written twice.** In the line-feed branch
  (`cellbuf/wrap.go:150-162`), `addNewline` writes `"\n"` to the output.
  Then the raw `"\n"` token is still appended to the word
  (`cellbuf/wrap.go:165`), so it is written again when that word is flushed.
  `WrapExamples.LineFeedWrittenTwice` shows that `"a\nb"` becomes
  `"a\n\nb"`. One consequence: re-wrapping an already wrapped string does not
  preserve its line boundaries.
- **Breakpoint placement.** A breakpoint joins the current word when
  `curWidth + wordLen + width >= Limit`. Otherwise the word and then the
  breakpoint are written to the output (`cellbuf/wrap.go:122-134`).
- **Width-0 tokens.** Every width-0 token's raw text goes into the word,
  including SGR, OSC 8 and line-feed tokens.

## Model

| member | source | states |
|---|---|---|
| Cellbuf.Wrap | cellbuf/wrap.go:52-54 | The package-level Wrap is StyleFormatter.Wrap with the given limit, the breakpoint string as runes, and zero style, link and flags. |
| Cellbuf.FormatterWrap | cellbuf/wrap.go:65-219 | The loop over the decoder's tokens followed by the end-of-input handling returns exactly WrapResult. Empty input gives the empty string whatever the limit. A non-empty input with Limit < 1 is returned unchanged. |
| Cellbuf.RuneContainsAny | cellbuf/wrap.go:221-228 | The linear search is true exactly when the rune occurs among the breakpoints. |
| Cellbuf.Wrapper.constructor | cellbuf/wrap.go:77-83 | A call starts with empty buffers, zero counters, and the formatter's Style and Link. |
| Cellbuf.Wrapper.AddSpace | cellbuf/wrap.go:85-89 | The pending spaces move to the output and their byte length is added to the line width. |
| Cellbuf.Wrapper.AddWord | cellbuf/wrap.go:91-101 | The new state is the model's addWord: nothing changes for an empty word; otherwise spaces then word are written and the word is cleared. |
| Cellbuf.Wrapper.AddNewline | cellbuf/wrap.go:103-120 | The new state is the model's addNewline: resets, line feed and replay sequences are written, the line width is 0, and the pending spaces are dropped. |
| Cellbuf.Wrapper.AddBreak | cellbuf/wrap.go:122-134 | The new state is the model's addBreak: after flushing spaces, the breakpoint joins the word or is written after the word. |
| Cellbuf.Wrapper.EndLine | cellbuf/wrap.go:150-159 | The new state is the model's whitespace decision at a line feed and at the end of input. |
| Cellbuf.Wrapper.AddControl | cellbuf/wrap.go:141-165 | For a width-0 token, the style or link is updated, a line feed ends the line, and the raw text joins the word. |
| Cellbuf.Wrapper.AddSpaceToken | cellbuf/wrap.go:168-173 | A whitespace-only token flushes the word and is kept as pending space only when PreserveSpace is set or the line has content. |
| Cellbuf.Wrapper.AddGlyph | cellbuf/wrap.go:184-198 | An ordinary glyph hard-wraps a word that would reach the limit, joins the word, and breaks the line on overflow. |
| Cellbuf.Wrapper.Step | cellbuf/wrap.go:137-203 | One turn of the loop dispatches on width, blankness, hyphen and breakpoint membership exactly as the model's Step does. |
| WrapRules.AddWordEffect | cellbuf/wrap.go:91-101 | addWord on an empty word changes nothing. Otherwise the output gains the spaces then the word, curWidth grows by the spaces' byte length plus wordLen, and word, space and wordLen are cleared. |
| WrapRules.AddNewlineEffect | cellbuf/wrap.go:103-120 | addNewline writes, in order, the hyperlink reset if a link is open, the style reset if a style is set, a line feed, the style sequence and the hyperlink sequence. curWidth becomes 0 and the pending spaces are dropped; the word is kept. |
| WrapRules.StepKeepsWordConsistent | cellbuf/wrap.go:137-203 | Every turn of the loop keeps an empty word at width 0. |
| WrapRules.RunWordConsistent | cellbuf/wrap.go:137-203 | Every state the loop reaches from the initial state keeps an empty word at width 0, so the per-step rules apply to all of them. |
| WrapRules.SpaceTokenRule | cellbuf/wrap.go:168-173 | A whitespace token flushes the word. It is appended to the pending space exactly when PreserveSpace is set or the line has content; otherwise it is dropped. Style and link are unchanged. |
| WrapRules.LeadingSpaceDropped | cellbuf/wrap.go:168-173 | On a fresh line with no word, and without PreserveSpace, a whitespace token leaves the state unchanged. |
| WrapRules.HyphenAlwaysBreaks | cellbuf/wrap.go:174-175 | A lone hyphen is handled as a breakpoint whatever breakpoints are configured. |
| WrapRules.BreakpointRule | cellbuf/wrap.go:122-134 | A breakpoint flushes the spaces. When the line, word and breakpoint reach the limit, it joins the word. Otherwise the word and then the breakpoint go to the output and the line grows by its width. Style and link are unchanged. |
| WrapRules.GlyphRule | cellbuf/wrap.go:184-198 | The whole new state of the glyph branch. A line already over the limit is broken first, dropping the pending spaces. A word that would reach the limit with the glyph is hard-wrapped: the pending spaces and the word go to the output. The glyph joins the word, and a line break is written when line, word and spaces then overflow. Style and link are unchanged. Consequently the glyph ends the word, and the line fits the limit unless a break was just written. |
| WrapRules.StyleTokenRule | cellbuf/wrap.go:144-149 | SGR and OSC 8 tokens update the running Style or Link. Their raw text joins the word, and the output, spaces and line width are untouched. |
| WrapRules.LineFeedRule | cellbuf/wrap.go:150-165 | At a line feed, pending space that overflows an otherwise empty line is dropped, else written. The word is written, the line is broken with style and link replayed, and the line feed itself becomes the new word. Style and link are unchanged. |
| WrapRules.FinishRule | cellbuf/wrap.go:206-216 | At the end of input the same whitespace decision is taken, then the last word is written and nothing is left pending. Style and link are unchanged. |
| WrapConservation.Conservation | cellbuf/wrap.go:137-216 | The output is the rendering of a trace of whole tokens and addNewline sequences. The tokens in it are strictly increasing indices, so each appears at most once and in input order. Every token that is not whitespace-only text is in it. |
| Utf8.DecodeRune | cellbuf/wrap.go:177 | The empty string gives (RuneError, 0). Otherwise 1 to 4 bytes are consumed and ASCII decodes to itself. A non-ASCII byte consumed alone gives RuneError. Multi-byte results are shortest-form Unicode scalar values. |
| Utf8.DecodeEncode | cellbuf/wrap.go:177 | Decoding the UTF-8 encoding of a scalar value, whatever follows it, gives that value and consumes exactly its encoding. |
| Utf8.DecodeIsEncoding | cellbuf/wrap.go:177 | Each decoding step either reads the UTF-8 encoding of the value it returns, or is (RuneError, 1) on a non-ASCII lead byte. With DecodeEncode this fixes the decoded value of every input. |
| Utf8.RuneCount | cellbuf/wrap.go:176 | The rune count is at most the byte length and is 0 only for the empty string. |
| Utf8.Runes | cellbuf/wrap.go:53 | The rune conversion has one rune per decoding step. |
| Utf8.SingleRune | cellbuf/wrap.go:176-177 | A string is a single rune exactly when its first decoding step consumes all of it. |
| Utf8.BlankByte | cellbuf/wrap.go:168 | A single ASCII byte is whitespace-only exactly when it is tab, LF, VT, FF, CR or space. |
| WrapExamples.HelloWorldAtFive | cellbuf/wrap.go:52-54 | Wrap("hello world", 5, "") is "hello\nworld". |
| WrapExamples.LineFeedWrittenTwice | cellbuf/wrap.go:150-165 | Wrap("a\nb", 10, "") is "a\n\nb": the line feed is emitted by addNewline and again with the next word. |
| Vt.Bounds | vt/damage.go:13-53 | The bounds contain exactly the damaged cells. A cell is a 1x1 rectangle, a rectangle is its own bounds, and the screen's bounds start at (0, 0) with the screen's width and height. |
| Vt.X | vt/damage.go:26-28 | RectDamage.X is the x-coordinate of its Bounds. |
| Vt.Y | vt/damage.go:31-33 | RectDamage.Y is the y-coordinate of its Bounds. |
| Vt.Width | vt/damage.go:36-38 | RectDamage.Width is the width of its Bounds. |
| Vt.Height | vt/damage.go:41-43 | RectDamage.Height is the height of its Bounds. |
| Vt.CellBoundsExact | vt/damage.go:13-15 | The bounds of a damaged cell contain that cell and no other. |
| Vt.BoundsExamples | vt/damage.go:13-53 | The bounds of RectDamage{2,3,4,5}, CellDamage{1,1} and ScreenDamage{80,24} are (2,3,4,5), (1,1,1,1) and (0,0,80,24). |

## Left out

- The escape-sequence decoder is not modelled. This covers
  `Method.DecodeSequenceInString`, the `ansi.GetParser`/`PutParser` pool and
  `p.Command`/`Params`/`Data`. Its code is not part of this model, and the
  pool is an allocation and concurrency concern. The model takes the tokens
  the decoder returns as input.
- The choice of decode method (`StyleFormatter.Method`) is left out. It only
  selects the decoder.
- `ReadStyle`, `ReadLink`, `Style.Sequence`, `ansi.ResetStyle`,
  `ansi.ResetHyperlink` and `ansi.SetHyperlink` are parameters. Their code is
  not part of this model.
- The `Forward io.Writer` field is left out. It is I/O plumbing, and `Wrap`
  does not use it.
- Go's `int` is modelled as an unbounded integer. Widths and byte lengths
  never approach the 64-bit range.
- Character widths are given by the decoder. `RuneWidth`, `StringWidth` and
  the Unicode width tables are not part of this model.
- The `Rect` constructor and the internals of `Position` and `Rectangle` are
  not part of this model. `Rectangle` is a record of origin and size.
- Idempotence of re-wrapping is not stated, because it does not hold of the
  code: see the doubled line feed above.
- The guarantee that style and link state at the start of each line matches
  the input is stated only per break. `WrapRules.AddNewlineEffect` says what
  is replayed; tracking the running style across lines is left out.
