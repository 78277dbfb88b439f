/**
  Functional model of StyleFormatter.Wrap in cellbuf/wrap.go.

  The state of one call is the three buffers (output, current word, pending
  spaces), the two width counters and the running Style and Link. Each closure
  of the source (addSpace, addWord, addNewline, addBreak) is a function from
  state to state, Step is one turn of the token-dispatch loop, Run folds Step
  over the decoded tokens and WrapResult is the string the call returns.
 */
module WrapModel {
  import opened Utf8

  const LF: Byte := 0x0A
  const Hyphen: Byte := 0x2D

  /** What the wrapper can see of a Style: whether it is empty, and the
      sequence (Style.Sequence) that re-applies it. */
  datatype Style = Style(empty: bool, sequence: seq<Byte>)

  /** What the wrapper can see of a Link: whether it is empty, and the
      sequence (ansi.SetHyperlink of its URL and parameters) that re-opens it. */
  datatype Link = Link(empty: bool, sequence: seq<Byte>)

  /** The zero values a StyleFormatter literal starts with. */
  const ZeroStyle := Style(true, [])
  const ZeroLink := Link(true, [])

  /** What the parser reports about a width-0 sequence: a Select Graphic
      Rendition (CSI ... m) with its parameters, an OSC 8 hyperlink with its
      data, or anything else. */
  datatype Command = Sgr(params: seq<int>) | Hyperlink(data: seq<Byte>) | NoCommand

  /** One result of the decoder: the raw bytes it consumed, their display
      width (0 for control data), and the parser's view of a control sequence. */
  datatype Token = Token(raw: seq<Byte>, width: nat, command: Command)

  /** The foreign code the wrapper calls: ReadStyle, ReadLink, and the
      sequences ansi.ResetStyle and ansi.ResetHyperlink(). */
  datatype Ansi = Ansi(
    readStyle: (seq<int>, Style) -> Style,
    readLink: (seq<Byte>, Link) -> Link,
    resetStyle: seq<Byte>,
    resetHyperlink: seq<Byte>)

  /** The fields of StyleFormatter that Wrap reads. */
  datatype Formatter = Formatter(
    limit: int,
    style: Style,
    link: Link,
    preserveSpace: bool,
    breakpoints: seq<Rune>)

  /** The local variables of one Wrap call and the receiver's Style and Link. */
  datatype State = State(
    buf: seq<Byte>,
    word: seq<Byte>,
    space: seq<Byte>,
    curWidth: int,
    wordLen: int,
    style: Style,
    link: Link)

  /** The bytes a token sequence was decoded from. */
  function Concat(toks: seq<Token>): seq<Byte> {
    if toks == [] then [] else toks[0].raw + Concat(toks[1..])
  }

  /** The decoder's guarantee: the tokens spell the input and each consumes at
      least one byte. */
  predicate Tokenizes(toks: seq<Token>, b: seq<Byte>) {
    && Concat(toks) == b
    && forall i :: 0 <= i < |toks| ==> |toks[i].raw| > 0
  }

  /** A displayable token whose runes are all spaces: the only kind the
      wrapper may drop. */
  predicate IsSpaceToken(t: Token) {
    t.width > 0 && IsBlank(t.raw)
  }

  function Init(f: Formatter): State {
    State([], [], [], 0, 0, f.style, f.link)
  }

  /** addSpace */
  function AddSpace(s: State): State {
    s.(curWidth := s.curWidth + |s.space|, buf := s.buf + s.space, space := [])
  }

  /** addWord */
  function AddWord(s: State): State {
    if |s.word| == 0 then s
    else
      var t := AddSpace(s);
      t.(curWidth := t.curWidth + t.wordLen, buf := t.buf + t.word, word := [], wordLen := 0)
  }

  /** The bytes addNewline writes for the given running style and link. */
  function NewlineSequence(a: Ansi, style: Style, link: Link): seq<Byte> {
    (if !link.empty then a.resetHyperlink else [])
    + (if !style.empty then a.resetStyle else [])
    + [LF]
    + (if !style.empty then style.sequence else [])
    + (if !link.empty then link.sequence else [])
  }

  /** addNewline */
  function AddNewline(a: Ansi, s: State): State {
    s.(buf := s.buf + NewlineSequence(a, s.style, s.link), curWidth := 0, space := [])
  }

  /** addBreak */
  function AddBreak(f: Formatter, s: State, t: Token): State {
    var u := AddSpace(s);
    if u.curWidth + u.wordLen + t.width >= f.limit then
      u.(word := u.word + t.raw, wordLen := u.wordLen + t.width)
    else
      var v := AddWord(u);
      v.(buf := v.buf + t.raw, curWidth := v.curWidth + t.width)
  }

  /** The whitespace decision taken at a line feed and at the end of input:
      with no word pending, pending space that overflows the line is dropped
      and the line width reset, otherwise the space is written out. */
  function EndLine(f: Formatter, s: State): State {
    if s.wordLen == 0 then
      if s.curWidth + |s.space| > f.limit then s.(curWidth := 0, space := [])
      else s.(buf := s.buf + s.space, space := [])
    else s
  }

  /** An ordinary glyph (the default case of the dispatch). */
  function AddGlyph(f: Formatter, a: Ansi, s: State, t: Token): State {
    var s1 := if s.curWidth > f.limit then AddNewline(a, s) else s;
    var s2 := if s1.wordLen + t.width >= f.limit then AddWord(s1) else s1;
    var s3 := s2.(word := s2.word + t.raw, wordLen := s2.wordLen + t.width);
    if s3.curWidth + s3.wordLen + |s3.space| > f.limit then AddNewline(a, s3) else s3
  }

  /** A width-0 token: the style or link is updated, a line feed ends the
      line, and in every case the raw sequence joins the current word. */
  function AddControl(f: Formatter, a: Ansi, s: State, t: Token): State {
    var u :=
      match t.command
      case Sgr(ps) => s.(style := a.readStyle(ps, s.style))
      case Hyperlink(d) => s.(link := a.readLink(d, s.link))
      case NoCommand =>
        if t.raw == [LF] then AddNewline(a, AddWord(EndLine(f, s))) else s;
    u.(word := u.word + t.raw)
  }

  /** A whitespace-only text token: flush the word, then keep the space as
      pending unless the line is empty and leading space is not preserved. */
  function AddSpaceToken(f: Formatter, s: State, t: Token): State {
    var u := AddWord(s);
    if f.preserveSpace || u.curWidth != 0 then u.(space := u.space + t.raw) else u
  }

  /** One turn of the dispatch loop. */
  function Step(f: Formatter, a: Ansi, s: State, t: Token): State {
    if t.width == 0 then AddControl(f, a, s, t)
    else if IsBlank(t.raw) then AddSpaceToken(f, s, t)
    else if t.raw == [Hyphen] then AddBreak(f, s, t)
    else if RuneCount(t.raw) == 1 && DecodeRune(t.raw).0 in f.breakpoints then AddBreak(f, s, t)
    else AddGlyph(f, a, s, t)
  }

  /** The loop over all tokens. */
  function Run(f: Formatter, a: Ansi, s: State, toks: seq<Token>): State
    decreases |toks|
  {
    if toks == [] then s
    else Step(f, a, Run(f, a, s, toks[..|toks| - 1]), toks[|toks| - 1])
  }

  /** Run over a prefix grows by one step per token. */
  lemma RunPrefix(f: Formatter, a: Ansi, s: State, toks: seq<Token>, n: nat)
    requires 0 < n <= |toks|
    ensures Run(f, a, s, toks[..n]) == Step(f, a, Run(f, a, s, toks[..n - 1]), toks[n - 1])
  {
    assert toks[..n][..n - 1] == toks[..n - 1];
  }

  /** What follows the loop: the end-of-input whitespace decision, then the
      last word. */
  function Finish(f: Formatter, s: State): State {
    AddWord(EndLine(f, s))
  }

  /** The string StyleFormatter.Wrap returns for input b decoded as toks. */
  function WrapResult(f: Formatter, a: Ansi, b: seq<Byte>, toks: seq<Token>): seq<Byte> {
    if |b| == 0 then []
    else if f.limit < 1 then b
    else Finish(f, Run(f, a, Init(f), toks)).buf
  }

  /** The formatter the package-level Wrap builds: the given limit, the
      breakpoint string as runes, everything else zero. */
  function PackageFormatter(limit: int, breakpoints: seq<Byte>): Formatter {
    Formatter(limit, ZeroStyle, ZeroLink, false, Runes(breakpoints))
  }
}
