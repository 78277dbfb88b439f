/**
  StyleFormatter.Wrap of cellbuf/wrap.go as the source runs it: the closures
  share the variables of the call, so they become the methods of a Wrapper
  object whose fields are those variables, and the dispatch loop walks the
  input while the decoder's tokens consume it. Every method is proved against
  the functional model in WrapModel.
 */
module Cellbuf {
  import opened Utf8
  import M = WrapModel

  /** runeContainsAny: a linear search for r among the breakpoint runes. */
  method RuneContainsAny(r: Rune, s: seq<Rune>) returns (found: bool)
    ensures found <==> r in s
  {
    var i := 0;
    while i < |s|
      invariant 0 <= i <= |s|
      invariant forall j :: 0 <= j < i ==> s[j] != r
    {
      if s[i] == r {
        return true;
      }
      i := i + 1;
    }
    return false;
  }

  /** The variables one Wrap call shares between its closures and its loop. */
  class Wrapper {
    const formatter: M.Formatter
    const ansi: M.Ansi
    var buf: seq<Byte>
    var word: seq<Byte>
    var space: seq<Byte>
    var curWidth: int
    var wordLen: int
    var style: M.Style
    var link: M.Link

    /** The current values of the variables, as the model sees them. */
    function State(): M.State
      reads this
    {
      M.State(buf, word, space, curWidth, wordLen, style, link)
    }

    constructor (f: M.Formatter, a: M.Ansi)
      ensures formatter == f && ansi == a
      ensures State() == M.Init(f)
    {
      formatter, ansi := f, a;
      buf, word, space := [], [], [];
      curWidth, wordLen := 0, 0;
      style, link := f.style, f.link;
    }

    /** addSpace: the pending spaces go to the output and count towards the line. */
    method AddSpace()
      modifies this
      ensures State() == M.AddSpace(old(State()))
    {
      curWidth := curWidth + |space|;
      buf := buf + space;
      space := [];
    }

    /** addWord: a non-empty word goes to the output after the pending spaces. */
    method AddWord()
      modifies this
      ensures State() == M.AddWord(old(State()))
    {
      if |word| == 0 {
        return;
      }
      AddSpace();
      curWidth := curWidth + wordLen;
      buf := buf + word;
      word := [];
      wordLen := 0;
    }

    /** addNewline: close the hyperlink and the style, break the line, and
        re-open both on the new line; pending spaces are dropped. */
    method AddNewline()
      modifies this
      ensures State() == M.AddNewline(ansi, old(State()))
    {
      if !link.empty {
        buf := buf + ansi.resetHyperlink;
      }
      if !style.empty {
        buf := buf + ansi.resetStyle;
      }
      buf := buf + [M.LF];
      curWidth := 0;
      if !style.empty {
        buf := buf + style.sequence;
      }
      if !link.empty {
        buf := buf + link.sequence;
      }
      space := [];
    }

    /** addBreak: a breakpoint that still fits on the line is written out
        after the word; otherwise it stays attached to the word. */
    method AddBreak(t: M.Token)
      modifies this
      ensures State() == M.AddBreak(formatter, old(State()), t)
    {
      AddSpace();
      if curWidth + wordLen + t.width >= formatter.limit {
        word := word + t.raw;
        wordLen := wordLen + t.width;
      } else {
        AddWord();
        buf := buf + t.raw;
        curWidth := curWidth + t.width;
      }
    }

    /** The whitespace decision at a line feed and at the end of input. */
    method EndLine()
      modifies this
      ensures State() == M.EndLine(formatter, old(State()))
    {
      if wordLen == 0 {
        if curWidth + |space| > formatter.limit {
          curWidth := 0;
        } else {
          buf := buf + space;
        }
        space := [];
      }
    }

    /** A width-0 token: the style or link is updated, a line feed ends the
        line, and in every case the raw sequence joins the word. */
    method AddControl(t: M.Token)
      modifies this
      ensures State() == M.AddControl(formatter, ansi, old(State()), t)
    {
      match t.command {
        case Sgr(ps) =>
          style := ansi.readStyle(ps, style);
        case Hyperlink(d) =>
          link := ansi.readLink(d, link);
        case NoCommand =>
          if t.raw == [M.LF] {
            EndLine();
            AddWord();
            AddNewline();
          }
      }
      word := word + t.raw;
    }

    /** A whitespace-only text token: the word is flushed and the space kept
        as pending unless it would lead a line. */
    method AddSpaceToken(t: M.Token)
      modifies this
      ensures State() == M.AddSpaceToken(formatter, old(State()), t)
    {
      AddWord();
      if formatter.preserveSpace || curWidth != 0 {
        space := space + t.raw;
      }
    }

    /** An ordinary glyph: hard-wrap a word that has grown too long, append
        the glyph, and break the line once it overflows. */
    method AddGlyph(t: M.Token)
      modifies this
      ensures State() == M.AddGlyph(formatter, ansi, old(State()), t)
    {
      if curWidth > formatter.limit {
        AddNewline();
      }
      if wordLen + t.width >= formatter.limit {
        AddWord();
      }
      word := word + t.raw;
      wordLen := wordLen + t.width;
      if curWidth + wordLen + |space| > formatter.limit {
        AddNewline();
      }
    }

    /** One turn of the dispatch loop, for the token the decoder returned. */
    method Step(t: M.Token)
      modifies this
      ensures State() == M.Step(formatter, ansi, old(State()), t)
    {
      if t.width == 0 {
        AddControl(t);
      } else if IsBlank(t.raw) {
        AddSpaceToken(t);
      } else if t.raw == [M.Hyphen] {
        AddBreak(t);
      } else {
        var isBreak := false;
        if RuneCount(t.raw) == 1 {
          isBreak := RuneContainsAny(DecodeRune(t.raw).0, formatter.breakpoints);
        }
        if isBreak {
          AddBreak(t);
        } else {
          AddGlyph(t);
        }
      }
    }
  }

  /** StyleFormatter.Wrap: b is the input and toks what the decoder makes of it. */
  method FormatterWrap(f: M.Formatter, a: M.Ansi, b: seq<Byte>, toks: seq<M.Token>) returns (out: seq<Byte>)
    requires M.Tokenizes(toks, b)
    ensures out == M.WrapResult(f, a, b, toks)
    ensures |b| == 0 ==> out == []
    ensures |b| > 0 && f.limit < 1 ==> out == b
  {
    if |b| == 0 {
      return [];
    }
    if f.limit < 1 {
      return b;
    }
    var w := new Wrapper(f, a);
    var rest := b;
    var i := 0;
    while |rest| > 0
      invariant 0 <= i <= |toks|
      invariant rest == M.Concat(toks[i..])
      invariant w.formatter == f && w.ansi == a
      invariant w.State() == M.Run(f, a, M.Init(f), toks[..i])
      decreases |rest|
    {
      var t := toks[i];
      assert toks[i..][1..] == toks[i + 1..];
      assert toks[..i + 1][..i] == toks[..i];
      w.Step(t);
      rest := rest[|t.raw|..];
      i := i + 1;
    }
    assert toks[..i] == toks;
    w.EndLine();
    w.AddWord();
    out := w.buf;
  }

  /** The package-level Wrap: a formatter with the given limit and breakpoint
      string and zero style, link and flags. */
  method Wrap(s: seq<Byte>, limit: int, breakpoints: seq<Byte>, a: M.Ansi, toks: seq<M.Token>)
    returns (out: seq<Byte>)
    requires M.Tokenizes(toks, s)
    ensures out == M.WrapResult(M.PackageFormatter(limit, breakpoints), a, s, toks)
  {
    out := FormatterWrap(M.PackageFormatter(limit, breakpoints), a, s, toks);
  }
}
