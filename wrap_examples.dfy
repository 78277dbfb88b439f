/**
  Concrete runs of the wrapping model on plain ASCII text, where the decoder
  turns every byte into a token of its own: printable characters are one
  cell wide and the line feed is control data of width 0.
 */
module WrapExamples {
  import opened Utf8
  import opened WrapModel

  /** The token the decoder makes of one ASCII byte. */
  function Char(c: Byte): Token {
    Token([c], if c < 0x20 then 0 else 1, NoCommand)
  }

  /** The tokens of a byte string that holds plain ASCII text. */
  function Chars(b: seq<Byte>): (toks: seq<Token>)
    ensures |toks| == |b|
  {
    seq(|b|, i requires 0 <= i < |b| => Char(b[i]))
  }

  lemma CharsIndex(b: seq<Byte>, i: nat)
    requires i < |b|
    ensures Chars(b)[i] == Char(b[i])
  {
  }

  /** Byte-per-token decoding spells the input back. */
  lemma {:induction false} CharsTokenize(b: seq<Byte>)
    ensures Tokenizes(Chars(b), b)
    decreases |b|
  {
    if b != [] {
      assert Chars(b)[1..] == Chars(b[1..]);
      CharsTokenize(b[1..]);
      assert b == [b[0]] + b[1..];
    }
  }

  /** A lower-case letter is an ordinary glyph when no breakpoints are set. */
  lemma LetterStep(f: Formatter, a: Ansi, s: State, c: Byte)
    requires 0x61 <= c <= 0x7A && f.breakpoints == []
    ensures Step(f, a, s, Char(c)) == AddGlyph(f, a, s, Char(c))
  {
    BlankByte(c);
  }

  /** A run is determined by any sequence of states that each step
      produces from the one before. */
  lemma {:induction false} RunTrace(f: Formatter, a: Ansi, toks: seq<Token>, ss: seq<State>)
    requires |ss| == |toks| + 1
    requires forall i :: 0 <= i < |toks| ==> Step(f, a, ss[i], toks[i]) == ss[i + 1]
    ensures Run(f, a, ss[0], toks) == ss[|toks|]
    decreases |toks|
  {
    if toks != [] {
      var n := |toks|;
      RunTrace(f, a, toks[..n - 1], ss[..n]);
      assert toks[..n][..n - 1] == toks[..n - 1] by {
        assert toks[..n] == toks;
      }
    }
  }

  /** A letter that fits joins the word. */
  lemma LetterJoins(f: Formatter, a: Ansi, s: State, c: Byte)
    requires 0x61 <= c <= 0x7A && f.breakpoints == []
    requires s.curWidth <= f.limit && s.wordLen + 1 < f.limit
    requires s.curWidth + s.wordLen + 1 + |s.space| <= f.limit
    ensures Step(f, a, s, Char(c)) == s.(word := s.word + [c], wordLen := s.wordLen + 1)
  {
    LetterStep(f, a, s, c);
  }

  /** A letter that would bring the word to the limit hard-wraps it first. */
  lemma LetterHardWraps(f: Formatter, a: Ansi, s: State, c: Byte)
    requires 0x61 <= c <= 0x7A && f.breakpoints == []
    requires s.curWidth <= f.limit && s.wordLen + 1 >= f.limit
    requires |s.word| > 0 && s.space == [] && s.curWidth + s.wordLen + 1 <= f.limit
    ensures Step(f, a, s, Char(c))
         == s.(buf := s.buf + s.word, word := [c], wordLen := 1, curWidth := s.curWidth + s.wordLen)
  {
    LetterStep(f, a, s, c);
    assert s.buf + s.space == s.buf;
  }

  /** A letter that makes the line overflow breaks it, with no style or link
      to replay, and drops the pending space. */
  lemma LetterOverflows(f: Formatter, a: Ansi, s: State, c: Byte)
    requires 0x61 <= c <= 0x7A && f.breakpoints == []
    requires s.curWidth <= f.limit && s.wordLen + 1 < f.limit
    requires s.curWidth + s.wordLen + 1 + |s.space| > f.limit
    requires s.style.empty && s.link.empty
    ensures Step(f, a, s, Char(c))
         == s.(buf := s.buf + [LF], word := s.word + [c], wordLen := s.wordLen + 1, curWidth := 0, space := [])
  {
    LetterStep(f, a, s, c);
  }

  /** A space after a word flushes the word and waits as pending space. */
  lemma SpaceAfterWord(f: Formatter, a: Ansi, s: State)
    requires |s.word| > 0 && s.space == [] && s.curWidth + s.wordLen != 0
    ensures Step(f, a, s, Char(0x20))
         == s.(buf := s.buf + s.word, word := [], wordLen := 0, curWidth := s.curWidth + s.wordLen, space := [0x20])
  {
    BlankByte(0x20);
    assert s.buf + s.space == s.buf;
  }

  /** A line feed after a word flushes the word, breaks the line with no
      style or link to replay, and becomes the new word. */
  lemma LineFeedAfterWord(f: Formatter, a: Ansi, s: State)
    requires |s.word| > 0 && s.wordLen > 0 && s.space == [] && s.style.empty && s.link.empty
    ensures Step(f, a, s, Char(LF))
         == s.(buf := s.buf + s.word + [LF], word := [LF], wordLen := 0, curWidth := 0, space := [])
  {
    assert s.buf + s.space == s.buf;
  }

  /** The state after the last token determines the result. */
  lemma ResultOfTrace(f: Formatter, a: Ansi, b: seq<Byte>, ss: seq<State>)
    requires |b| > 0 && f.limit >= 1 && |ss| == |b| + 1 && ss[0] == Init(f)
    requires forall i :: 0 <= i < |b| ==> Step(f, a, ss[i], Chars(b)[i]) == ss[i + 1]
    ensures Tokenizes(Chars(b), b)
    ensures WrapResult(f, a, b, Chars(b)) == Finish(f, ss[|b|]).buf
  {
    CharsTokenize(b);
    RunTrace(f, a, Chars(b), ss);
  }

  const HelloWorld: seq<Byte> := [0x68, 0x65, 0x6C, 0x6C, 0x6F, 0x20, 0x77, 0x6F, 0x72, 0x6C, 0x64]
  const Hello: seq<Byte> := [0x68, 0x65, 0x6C, 0x6C, 0x6F]

  /** The formatter of Wrap(_, 5, ""). */
  function Five(): Formatter {
    PackageFormatter(5, [])
  }

  lemma FiveHasNoBreakpoints()
    ensures Five().breakpoints == [] && Five().limit == 5
    ensures Init(Five()) == State([], [], [], 0, 0, ZeroStyle, ZeroLink)
  {
    assert Runes([]) == [];
  }

  /** The states of Wrap("hello world", 5, "") after each token. */
  function HelloStates(): seq<State> {
    [ State([], [], [], 0, 0, ZeroStyle, ZeroLink),
      State([], [0x68], [], 0, 1, ZeroStyle, ZeroLink),
      State([], [0x68, 0x65], [], 0, 2, ZeroStyle, ZeroLink),
      State([], [0x68, 0x65, 0x6C], [], 0, 3, ZeroStyle, ZeroLink),
      State([], [0x68, 0x65, 0x6C, 0x6C], [], 0, 4, ZeroStyle, ZeroLink),
      // "hell" would reach the limit with "o": it is flushed and "o" starts a new word
      State([0x68, 0x65, 0x6C, 0x6C], [0x6F], [], 4, 1, ZeroStyle, ZeroLink),
      // the space flushes "o" and waits as pending space, since the line is not empty
      State(Hello, [], [0x20], 5, 0, ZeroStyle, ZeroLink),
      // "w" overflows the line: a line break, and the pending space is dropped
      State(Hello + [LF], [0x77], [], 0, 1, ZeroStyle, ZeroLink),
      State(Hello + [LF], [0x77, 0x6F], [], 0, 2, ZeroStyle, ZeroLink),
      State(Hello + [LF], [0x77, 0x6F, 0x72], [], 0, 3, ZeroStyle, ZeroLink),
      State(Hello + [LF], [0x77, 0x6F, 0x72, 0x6C], [], 0, 4, ZeroStyle, ZeroLink),
      // "worl" would reach the limit with "d": it is flushed and "d" starts a new word
      State(Hello + [LF, 0x77, 0x6F, 0x72, 0x6C], [0x64], [], 4, 1, ZeroStyle, ZeroLink) ]
  }

  lemma HelloStep0(a: Ansi)
    ensures Step(Five(), a, HelloStates()[0], Char(HelloWorld[0])) == HelloStates()[1]
  {
    FiveHasNoBreakpoints();
    var s, c := HelloStates()[0], HelloWorld[0];
    LetterJoins(Five(), a, s, c);
  }

  lemma HelloStep1(a: Ansi)
    ensures Step(Five(), a, HelloStates()[1], Char(HelloWorld[1])) == HelloStates()[2]
  {
    FiveHasNoBreakpoints();
    var s, c := HelloStates()[1], HelloWorld[1];
    LetterJoins(Five(), a, s, c);
  }

  lemma HelloStep2(a: Ansi)
    ensures Step(Five(), a, HelloStates()[2], Char(HelloWorld[2])) == HelloStates()[3]
  {
    FiveHasNoBreakpoints();
    var s, c := HelloStates()[2], HelloWorld[2];
    LetterJoins(Five(), a, s, c);
  }

  lemma HelloStep3(a: Ansi)
    ensures Step(Five(), a, HelloStates()[3], Char(HelloWorld[3])) == HelloStates()[4]
  {
    FiveHasNoBreakpoints();
    var s, c := HelloStates()[3], HelloWorld[3];
    LetterJoins(Five(), a, s, c);
  }

  lemma HelloStep4(a: Ansi)
    ensures Step(Five(), a, HelloStates()[4], Char(HelloWorld[4])) == HelloStates()[5]
  {
    FiveHasNoBreakpoints();
    var s, c := HelloStates()[4], HelloWorld[4];
    LetterHardWraps(Five(), a, s, c);
  }

  lemma HelloStep5(a: Ansi)
    ensures Step(Five(), a, HelloStates()[5], Char(HelloWorld[5])) == HelloStates()[6]
  {
    FiveHasNoBreakpoints();
    var s, c := HelloStates()[5], HelloWorld[5];
    SpaceAfterWord(Five(), a, s);
  }

  lemma HelloStep6(a: Ansi)
    ensures Step(Five(), a, HelloStates()[6], Char(HelloWorld[6])) == HelloStates()[7]
  {
    FiveHasNoBreakpoints();
    var s, c := HelloStates()[6], HelloWorld[6];
    LetterOverflows(Five(), a, s, c);
  }

  lemma HelloStep7(a: Ansi)
    ensures Step(Five(), a, HelloStates()[7], Char(HelloWorld[7])) == HelloStates()[8]
  {
    FiveHasNoBreakpoints();
    var s, c := HelloStates()[7], HelloWorld[7];
    LetterJoins(Five(), a, s, c);
  }

  lemma HelloStep8(a: Ansi)
    ensures Step(Five(), a, HelloStates()[8], Char(HelloWorld[8])) == HelloStates()[9]
  {
    FiveHasNoBreakpoints();
    var s, c := HelloStates()[8], HelloWorld[8];
    LetterJoins(Five(), a, s, c);
  }

  lemma HelloStep9(a: Ansi)
    ensures Step(Five(), a, HelloStates()[9], Char(HelloWorld[9])) == HelloStates()[10]
  {
    FiveHasNoBreakpoints();
    var s, c := HelloStates()[9], HelloWorld[9];
    LetterJoins(Five(), a, s, c);
  }

  lemma HelloStep10(a: Ansi)
    ensures Step(Five(), a, HelloStates()[10], Char(HelloWorld[10])) == HelloStates()[11]
  {
    FiveHasNoBreakpoints();
    var s, c := HelloStates()[10], HelloWorld[10];
    LetterHardWraps(Five(), a, s, c);
  }

  lemma HelloStep(a: Ansi, i: nat)
    requires i < |HelloWorld|
    ensures Step(Five(), a, HelloStates()[i], Chars(HelloWorld)[i]) == HelloStates()[i + 1]
  {
    CharsIndex(HelloWorld, i);
    if i == 0 {
      HelloStep0(a);
    } else if i == 1 {
      HelloStep1(a);
    } else if i == 2 {
      HelloStep2(a);
    } else if i == 3 {
      HelloStep3(a);
    } else if i == 4 {
      HelloStep4(a);
    } else if i == 5 {
      HelloStep5(a);
    } else if i == 6 {
      HelloStep6(a);
    } else if i == 7 {
      HelloStep7(a);
    } else if i == 8 {
      HelloStep8(a);
    } else if i == 9 {
      HelloStep9(a);
    } else {
      HelloStep10(a);
    }
  }

  /** Wrap("hello world", 5, "") is "hello\nworld". */
  lemma HelloWorldAtFive(a: Ansi)
    ensures Tokenizes(Chars(HelloWorld), HelloWorld)
    ensures WrapResult(Five(), a, HelloWorld, Chars(HelloWorld))
         == [0x68, 0x65, 0x6C, 0x6C, 0x6F, LF, 0x77, 0x6F, 0x72, 0x6C, 0x64]
  {
    FiveHasNoBreakpoints();
    forall i | 0 <= i < |HelloWorld|
      ensures Step(Five(), a, HelloStates()[i], Chars(HelloWorld)[i]) == HelloStates()[i + 1]
    {
      HelloStep(a, i);
    }
    ResultOfTrace(Five(), a, HelloWorld, HelloStates());
    HelloFinish();
  }

  /** At the end of input the pending word "d" is flushed. */
  lemma HelloFinish()
    ensures Finish(Five(), HelloStates()[11]).buf
         == [0x68, 0x65, 0x6C, 0x6C, 0x6F, LF, 0x77, 0x6F, 0x72, 0x6C, 0x64]
  {
    FiveHasNoBreakpoints();
  }

  const ALineB: seq<Byte> := [0x61, LF, 0x62]

  /** The formatter of Wrap(_, 10, ""). */
  function Ten(): Formatter {
    PackageFormatter(10, [])
  }

  lemma TenHasNoBreakpoints()
    ensures Ten().breakpoints == [] && Ten().limit == 10
    ensures Init(Ten()) == State([], [], [], 0, 0, ZeroStyle, ZeroLink)
  {
    assert Runes([]) == [];
  }

  /** The states of Wrap("a\nb", 10, "") after each token: the line feed
      flushes "a" and breaks the line, then stays in the word. */
  function ALineBStates(): seq<State> {
    [ State([], [], [], 0, 0, ZeroStyle, ZeroLink),
      State([], [0x61], [], 0, 1, ZeroStyle, ZeroLink),
      State([0x61, LF], [LF], [], 0, 0, ZeroStyle, ZeroLink),
      State([0x61, LF], [LF, 0x62], [], 0, 1, ZeroStyle, ZeroLink) ]
  }

  lemma ALineBStep(a: Ansi, i: nat)
    requires i < |ALineB|
    ensures Step(Ten(), a, ALineBStates()[i], Chars(ALineB)[i]) == ALineBStates()[i + 1]
  {
    TenHasNoBreakpoints();
    CharsIndex(ALineB, i);
    var s, c := ALineBStates()[i], ALineB[i];
    if i == 1 {
      LineFeedAfterWord(Ten(), a, s);
    } else {
      LetterJoins(Ten(), a, s, c);
    }
  }

  /** Wrap("a\nb", 10, "") is "a\n\nb": the line feed is written once by the
      line break it causes and once more as part of the next word. */
  lemma LineFeedWrittenTwice(a: Ansi)
    ensures Tokenizes(Chars(ALineB), ALineB)
    ensures WrapResult(Ten(), a, ALineB, Chars(ALineB)) == [0x61, LF, LF, 0x62]
  {
    TenHasNoBreakpoints();
    forall i | 0 <= i < |ALineB|
      ensures Step(Ten(), a, ALineBStates()[i], Chars(ALineB)[i]) == ALineBStates()[i + 1]
    {
      ALineBStep(a, i);
    }
    ResultOfTrace(Ten(), a, ALineB, ALineBStates());
    ALineBFinish();
  }

  /** At the end of input the pending word "\nb" is flushed. */
  lemma ALineBFinish()
    ensures Finish(Ten(), ALineBStates()[3]).buf == [0x61, LF, LF, 0x62]
  {
    TenHasNoBreakpoints();
  }
}
