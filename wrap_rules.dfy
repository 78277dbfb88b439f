/**
  The wrapping rules of cellbuf/wrap.go, stated one step at a time about the
  functional model: what each closure does to the buffers and counters, and
  what one turn of the dispatch loop does with each kind of token.
 */
module WrapRules {
  import opened Utf8
  import opened WrapModel

  /** The states the loop can reach: a word of no bytes has no width. */
  predicate WordConsistent(s: State) {
    |s.word| == 0 ==> s.wordLen == 0
  }

  /** A glyph token that is neither whitespace nor a breakpoint. */
  predicate IsGlyph(f: Formatter, t: Token) {
    && t.width > 0
    && !IsBlank(t.raw)
    && t.raw != [Hyphen]
    && !(RuneCount(t.raw) == 1 && DecodeRune(t.raw).0 in f.breakpoints)
  }

  /** addWord: nothing happens without a word; otherwise the pending spaces
      and then the word go to the output, the line grows by the spaces' byte
      length plus the word's width, and word, spaces and width are cleared. */
  lemma AddWordEffect(s: State)
    ensures |s.word| == 0 ==> AddWord(s) == s
    ensures |s.word| > 0 ==>
      var r := AddWord(s);
      && r.buf == s.buf + s.space + s.word
      && r.curWidth == s.curWidth + |s.space| + s.wordLen
      && r.word == [] && r.space == [] && r.wordLen == 0
      && r.style == s.style && r.link == s.link
  {
  }

  /** addNewline: the output gains the hyperlink reset (if a link is open),
      the style reset (if a style is set), a line feed, the style sequence and
      the hyperlink sequence, in that order; the line width restarts at 0 and
      the pending spaces are dropped; the word is untouched. */
  lemma AddNewlineEffect(a: Ansi, s: State)
    ensures var r := AddNewline(a, s);
      && r.buf == s.buf
           + (if !s.link.empty then a.resetHyperlink else [])
           + (if !s.style.empty then a.resetStyle else [])
           + [LF]
           + (if !s.style.empty then s.style.sequence else [])
           + (if !s.link.empty then s.link.sequence else [])
      && r.curWidth == 0 && r.space == []
      && r.word == s.word && r.wordLen == s.wordLen
      && r.style == s.style && r.link == s.link
    ensures s.style.empty && s.link.empty ==> AddNewline(a, s).buf == s.buf + [LF]
  {
  }

  /** Every reachable state keeps a word of no bytes at width 0. */
  lemma StepKeepsWordConsistent(f: Formatter, a: Ansi, s: State, t: Token)
    requires WordConsistent(s) && |t.raw| > 0
    ensures WordConsistent(Step(f, a, s, t))
  {
  }

  /** A run from the initial state over tokens of at least one byte only
      reaches states whose empty word has width 0, so the rules below apply
      to every state the loop meets. */
  lemma {:induction false} RunWordConsistent(f: Formatter, a: Ansi, toks: seq<Token>)
    requires forall i :: 0 <= i < |toks| ==> |toks[i].raw| > 0
    ensures WordConsistent(Run(f, a, Init(f), toks))
    decreases |toks|
  {
    if toks != [] {
      var n := |toks|;
      RunWordConsistent(f, a, toks[..n - 1]);
      StepKeepsWordConsistent(f, a, Run(f, a, Init(f), toks[..n - 1]), toks[n - 1]);
    }
  }

  /** A whitespace-only token first flushes the word; it is then kept as
      pending space exactly when spaces are preserved or the line already
      has content, and never reaches the output in this step. */
  lemma SpaceTokenRule(f: Formatter, a: Ansi, s: State, t: Token)
    requires WordConsistent(s)
    requires IsSpaceToken(t)
    ensures var u := AddWord(s); var r := Step(f, a, s, t);
      && r.buf == u.buf && r.curWidth == u.curWidth
      && r.word == [] && r.wordLen == 0
      && (f.preserveSpace || u.curWidth != 0 ==> r.space == u.space + t.raw)
      && (!f.preserveSpace && u.curWidth == 0 ==> r.space == u.space)
      && r.style == s.style && r.link == s.link
  {
  }

  /** Leading spaces on a fresh line are dropped unless preserved. */
  lemma {:induction false} LeadingSpaceDropped(f: Formatter, a: Ansi, s: State, t: Token)
    requires IsSpaceToken(t)
    requires !f.preserveSpace && s.curWidth == 0 && s.word == []
    ensures Step(f, a, s, t) == s
  {
  }

  /** A hyphen is a breakpoint whatever the configured breakpoints are. */
  lemma {:induction false} HyphenAlwaysBreaks(f: Formatter, a: Ansi, s: State, t: Token, bps: seq<Rune>)
    requires t.width > 0 && t.raw == [Hyphen]
    ensures Step(f, a, s, t) == AddBreak(f, s, t)
    ensures Step(f.(breakpoints := bps), a, s, t) == Step(f, a, s, t)
  {
    BlankByte(Hyphen);
  }

  /** A breakpoint flushes the pending spaces. If it would reach the limit
      together with the line and the word, it joins the word; otherwise the
      word and then the breakpoint are written out and the line grows by its
      width. */
  lemma BreakpointRule(f: Formatter, a: Ansi, s: State, t: Token)
    requires WordConsistent(s)
    requires t.width > 0 && !IsBlank(t.raw)
    requires t.raw == [Hyphen] || (RuneCount(t.raw) == 1 && DecodeRune(t.raw).0 in f.breakpoints)
    ensures var r := Step(f, a, s, t); var w := s.curWidth + |s.space|;
      && (w + s.wordLen + t.width >= f.limit ==>
            && r.buf == s.buf + s.space && r.curWidth == w
            && r.word == s.word + t.raw && r.wordLen == s.wordLen + t.width)
      && (w + s.wordLen + t.width < f.limit ==>
            && r.buf == s.buf + s.space + s.word + t.raw
            && r.curWidth == w + s.wordLen + t.width
            && r.word == [] && r.wordLen == 0)
      && r.space == []
      && r.style == s.style && r.link == s.link
  {
  }

  /** The first half of the glyph branch: a line already over the limit is
      broken (dropping the pending spaces), then a word that would reach the
      limit with the glyph is hard-wrapped, so the pending spaces and the
      word go to the output. */
  lemma GlyphPrelude(f: Formatter, a: Ansi, s: State, t: Token)
    requires WordConsistent(s)
    ensures var s1 := if s.curWidth > f.limit then AddNewline(a, s) else s;
      var r := if s1.wordLen + t.width >= f.limit then AddWord(s1) else s1;
      var broken := s.curWidth > f.limit;
      var space := if broken then [] else s.space;
      var width := if broken then 0 else s.curWidth;
      var hard := s.wordLen + t.width >= f.limit && |s.word| > 0;
      && r.buf == s.buf + (if broken then NewlineSequence(a, s.style, s.link) else [])
                        + (if hard then space + s.word else [])
      && r.curWidth == (if hard then width + |space| + s.wordLen else width)
      && r.space == (if hard then [] else space)
      && r.word == (if hard then [] else s.word)
      && r.wordLen == (if hard then 0 else s.wordLen)
      && r.style == s.style && r.link == s.link
  {
  }

  /** The glyph branch in closed form; see GlyphRule. */
  lemma GlyphEffect(f: Formatter, a: Ansi, s: State, t: Token)
    requires WordConsistent(s)
    ensures var r := AddGlyph(f, a, s, t);
      var broken := s.curWidth > f.limit;
      var pre := if broken then NewlineSequence(a, s.style, s.link) else [];
      var space := if broken then [] else s.space;
      var width := if broken then 0 else s.curWidth;
      var hard := s.wordLen + t.width >= f.limit && |s.word| > 0;
      var flushed := if hard then space + s.word else [];
      var width2 := if hard then width + |space| + s.wordLen else width;
      var space2 := if hard then [] else space;
      var word := (if hard then [] else s.word) + t.raw;
      var wordLen := (if hard then 0 else s.wordLen) + t.width;
      var over := width2 + wordLen + |space2| > f.limit;
      && r.buf == s.buf + pre + flushed + (if over then NewlineSequence(a, s.style, s.link) else [])
      && r.curWidth == (if over then 0 else width2)
      && r.space == (if over then [] else space2)
      && r.word == word && r.wordLen == wordLen
      && r.style == s.style && r.link == s.link
  {
    var s1 := if s.curWidth > f.limit then AddNewline(a, s) else s;
    var s2 := if s1.wordLen + t.width >= f.limit then AddWord(s1) else s1;
    GlyphPrelude(f, a, s, t);
    var s3 := s2.(word := s2.word + t.raw, wordLen := s2.wordLen + t.width);
    assert AddGlyph(f, a, s, t) == if s3.curWidth + s3.wordLen + |s3.space| > f.limit then AddNewline(a, s3) else s3;
  }

  /** An ordinary glyph. A line already over the limit is broken first
      (dropping the pending spaces). A word that would reach the limit with
      the glyph is hard-wrapped: the pending spaces and the word go to the
      output. The glyph then joins the word, and if the line, the word and
      the pending spaces overflow the limit, a line break is written. So the
      glyph ends the word, and the line, the word and the pending spaces fit
      in the limit unless a line break has just been written. */
  lemma GlyphRule(f: Formatter, a: Ansi, s: State, t: Token)
    requires WordConsistent(s)
    requires IsGlyph(f, t)
    ensures var r := Step(f, a, s, t);
      var broken := s.curWidth > f.limit;
      var pre := if broken then NewlineSequence(a, s.style, s.link) else [];
      var space := if broken then [] else s.space;
      var width := if broken then 0 else s.curWidth;
      var hard := s.wordLen + t.width >= f.limit && |s.word| > 0;
      var flushed := if hard then space + s.word else [];
      var width2 := if hard then width + |space| + s.wordLen else width;
      var space2 := if hard then [] else space;
      var word := (if hard then [] else s.word) + t.raw;
      var wordLen := (if hard then 0 else s.wordLen) + t.width;
      var over := width2 + wordLen + |space2| > f.limit;
      && r.buf == s.buf + pre + flushed + (if over then NewlineSequence(a, s.style, s.link) else [])
      && r.curWidth == (if over then 0 else width2)
      && r.space == (if over then [] else space2)
      && r.word == word && r.wordLen == wordLen
      && r.style == s.style && r.link == s.link
    ensures var r := Step(f, a, s, t);
      && |r.word| >= |t.raw| && r.word[|r.word| - |t.raw|..] == t.raw
      && (r.curWidth + r.wordLen + |r.space| <= f.limit || (r.curWidth == 0 && r.space == []))
  {
    assert Step(f, a, s, t) == AddGlyph(f, a, s, t);
    GlyphEffect(f, a, s, t);
    var r := AddGlyph(f, a, s, t);
    var w := if s.wordLen + t.width >= f.limit && |s.word| > 0 then [] else s.word;
    assert r.word == w + t.raw;
    assert r.word[|r.word| - |t.raw|..] == t.raw;
  }

  /** Style and hyperlink sequences update the running style or link and
      travel in the word like any other control sequence; the output is not
      touched. */
  lemma StyleTokenRule(f: Formatter, a: Ansi, s: State, t: Token)
    requires t.width == 0 && !t.command.NoCommand?
    ensures var r := Step(f, a, s, t);
      && r.buf == s.buf && r.space == s.space && r.curWidth == s.curWidth
      && r.word == s.word + t.raw && r.wordLen == s.wordLen
      && r.style == (if t.command.Sgr? then a.readStyle(t.command.params, s.style) else s.style)
      && r.link == (if t.command.Hyperlink? then a.readLink(t.command.data, s.link) else s.link)
  {
  }

  /** A line feed: with no word pending, pending space that overflows the
      line is dropped, otherwise written; then the word goes out, the line is
      broken with the style and link replayed, and the line feed itself is
      left as the new word. */
  lemma LineFeedRule(f: Formatter, a: Ansi, s: State, t: Token)
    requires WordConsistent(s)
    requires t.width == 0 && t.command == NoCommand && t.raw == [LF]
    ensures var r := Step(f, a, s, t);
      var kept := if s.wordLen == 0 && s.curWidth + |s.space| > f.limit then [] else s.space;
      && r.buf == s.buf + kept + s.word + NewlineSequence(a, s.style, s.link)
      && r.word == [LF] && r.wordLen == 0
      && r.curWidth == 0 && r.space == []
      && r.style == s.style && r.link == s.link
  {
  }

  /** The end of input: the same whitespace decision as at a line feed,
      then the last word; nothing is left pending. */
  lemma FinishRule(f: Formatter, s: State)
    requires WordConsistent(s)
    ensures var r := Finish(f, s);
      var kept := if s.wordLen == 0 && s.curWidth + |s.space| > f.limit then [] else s.space;
      && r.buf == s.buf + kept + s.word
      && r.word == [] && r.space == [] && r.wordLen == 0
      && r.style == s.style && r.link == s.link
  {
  }
}
