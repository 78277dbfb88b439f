/**
  Conservation of tokens by StyleFormatter.Wrap (cellbuf/wrap.go): the output
  is made of whole input tokens, in input order and each at most once, and of
  the sequences addNewline inserts; every token that is not a whitespace-only
  text token is among them.

  The proof follows where the bytes of each buffer came from: an Origin
  records, for the output, the pieces it was assembled from and, for the
  pending spaces and the word, the indices of their tokens. Each closure of
  the model has a counterpart on origins, and Explains is the invariant that
  ties the two together.
 */
module WrapConservation {
  import opened Utf8
  import opened WrapModel

  /** A piece of output: a run of input tokens copied whole, or the sequence
      addNewline inserted for the style and link of that moment. */
  datatype Piece = Tokens(indices: seq<nat>) | Break(style: Style, link: Link)

  /** Where the output, the pending spaces and the word came from. */
  datatype Origin = Origin(buf: seq<Piece>, space: seq<nat>, word: seq<nat>)

  /** The raw bytes of the tokens at the given indices. */
  function Cat(toks: seq<Token>, idx: seq<nat>): seq<Byte> {
    if idx == [] then []
    else
      var i := idx[|idx| - 1];
      Cat(toks, idx[..|idx| - 1]) + (if i < |toks| then toks[i].raw else [])
  }

  function PieceBytes(a: Ansi, toks: seq<Token>, p: Piece): seq<Byte> {
    match p
    case Tokens(idx) => Cat(toks, idx)
    case Break(style, link) => NewlineSequence(a, style, link)
  }

  /** The bytes a sequence of pieces stands for. */
  function Render(a: Ansi, toks: seq<Token>, ps: seq<Piece>): seq<Byte> {
    if ps == [] then [] else Render(a, toks, ps[..|ps| - 1]) + PieceBytes(a, toks, ps[|ps| - 1])
  }

  /** The token indices a sequence of pieces copies, in output order. */
  function Indices(ps: seq<Piece>): seq<nat> {
    if ps == [] then []
    else
      var p := ps[|ps| - 1];
      Indices(ps[..|ps| - 1]) + (if p.Tokens? then p.indices else [])
  }

  /** Every token index held anywhere, in the order the bytes will appear. */
  function All(o: Origin): seq<nat> {
    Indices(o.buf) + o.space + o.word
  }

  predicate Increasing(xs: seq<nat>) {
    forall i, j :: 0 <= i < j < |xs| ==> xs[i] < xs[j]
  }

  predicate Below(xs: seq<nat>, k: nat) {
    forall i :: i in xs ==> i < k
  }

  /** Every token before k that is not a whitespace token is held in xs. */
  ghost predicate Covers(toks: seq<Token>, k: nat, xs: seq<nat>)
    requires k <= |toks|
  {
    forall j :: 0 <= j < k && !IsSpaceToken(toks[j]) ==> j in xs
  }

  ghost predicate OnlySpaces(toks: seq<Token>, xs: seq<nat>) {
    forall i :: i in xs ==> i < |toks| && IsSpaceToken(toks[i])
  }

  /** After the first k tokens, state s is explained by origin o: each
      buffer is what o says it is made of, the indices held are increasing
      and below k, only whitespace tokens wait as pending space, and every
      other token before k is held somewhere. */
  ghost predicate Explains(a: Ansi, toks: seq<Token>, k: nat, s: State, o: Origin) {
    && k <= |toks|
    && (forall i :: 0 <= i < |toks| ==> |toks[i].raw| > 0)
    && s.buf == Render(a, toks, o.buf)
    && s.space == Cat(toks, o.space)
    && s.word == Cat(toks, o.word)
    && (o.word == [] ==> s.wordLen == 0)
    && Increasing(All(o))
    && Below(All(o), k)
    && OnlySpaces(toks, o.space)
    && Covers(toks, k, All(o))
  }

  // Origins of the closures of the model.

  ghost function OAddSpace(o: Origin): Origin {
    Origin(o.buf + [Tokens(o.space)], [], o.word)
  }

  ghost function OAddWord(s: State, o: Origin): Origin {
    if |s.word| == 0 then o
    else
      var u := OAddSpace(o);
      Origin(u.buf + [Tokens(u.word)], [], [])
  }

  ghost function OAddNewline(s: State, o: Origin): Origin {
    Origin(o.buf + [Break(s.style, s.link)], [], o.word)
  }

  ghost function OEndLine(f: Formatter, s: State, o: Origin): Origin {
    if s.wordLen == 0 then
      if s.curWidth + |s.space| > f.limit then o.(space := []) else OAddSpace(o)
    else o
  }

  ghost function OAddBreak(f: Formatter, s: State, o: Origin, k: nat, t: Token): Origin {
    var u := AddSpace(s);
    var ou := OAddSpace(o);
    if u.curWidth + u.wordLen + t.width >= f.limit then ou.(word := ou.word + [k])
    else
      var ov := OAddWord(u, ou);
      ov.(buf := ov.buf + [Tokens([k])])
  }

  /** A glyph step in two halves: the line break and hard wrap before the
      glyph joins the word, then the glyph and the overflow check. */
  function GlyphPrepare(f: Formatter, a: Ansi, s: State, t: Token): State {
    var s1 := if s.curWidth > f.limit then AddNewline(a, s) else s;
    if s1.wordLen + t.width >= f.limit then AddWord(s1) else s1
  }

  function GlyphFinish(f: Formatter, a: Ansi, s2: State, t: Token): State {
    var s3 := s2.(word := s2.word + t.raw, wordLen := s2.wordLen + t.width);
    if s3.curWidth + s3.wordLen + |s3.space| > f.limit then AddNewline(a, s3) else s3
  }

  ghost function OGlyphPrepare(f: Formatter, a: Ansi, s: State, o: Origin, t: Token): Origin {
    var s1 := if s.curWidth > f.limit then AddNewline(a, s) else s;
    var o1 := if s.curWidth > f.limit then OAddNewline(s, o) else o;
    if s1.wordLen + t.width >= f.limit then OAddWord(s1, o1) else o1
  }

  ghost function OGlyphFinish(f: Formatter, s2: State, o2: Origin, k: nat, t: Token): Origin {
    var s3 := s2.(word := s2.word + t.raw, wordLen := s2.wordLen + t.width);
    var o3 := o2.(word := o2.word + [k]);
    if s3.curWidth + s3.wordLen + |s3.space| > f.limit then OAddNewline(s3, o3) else o3
  }

  ghost function OAddGlyph(f: Formatter, a: Ansi, s: State, o: Origin, k: nat, t: Token): Origin {
    OGlyphFinish(f, GlyphPrepare(f, a, s, t), OGlyphPrepare(f, a, s, o, t), k, t)
  }

  ghost function OAddControl(f: Formatter, s: State, o: Origin, k: nat, t: Token): Origin {
    var ou :=
      if t.command.NoCommand? && t.raw == [LF] then
        var s1 := EndLine(f, s);
        var o1 := OEndLine(f, s, o);
        var s2 := AddWord(s1);
        OAddNewline(s2, OAddWord(s1, o1))
      else o;
    ou.(word := ou.word + [k])
  }

  ghost function OAddSpaceToken(f: Formatter, s: State, o: Origin, k: nat): Origin {
    var ou := OAddWord(s, o);
    if f.preserveSpace || AddWord(s).curWidth != 0 then ou.(space := ou.space + [k]) else ou
  }

  ghost function OStep(f: Formatter, a: Ansi, s: State, o: Origin, k: nat, t: Token): Origin {
    if t.width == 0 then OAddControl(f, s, o, k, t)
    else if IsBlank(t.raw) then OAddSpaceToken(f, s, o, k)
    else if t.raw == [Hyphen] then OAddBreak(f, s, o, k, t)
    else if RuneCount(t.raw) == 1 && DecodeRune(t.raw).0 in f.breakpoints then OAddBreak(f, s, o, k, t)
    else OAddGlyph(f, a, s, o, k, t)
  }

  /** The origin of the state after the first n tokens. */
  ghost function ORun(f: Formatter, a: Ansi, toks: seq<Token>, n: nat): Origin
    requires n <= |toks|
  {
    if n == 0 then Origin([], [], [])
    else OStep(f, a, Run(f, a, Init(f), toks[..n - 1]), ORun(f, a, toks, n - 1), n - 1, toks[n - 1])
  }

  /** The pieces the output of a whole Wrap call is assembled from. */
  ghost function Trace(f: Formatter, a: Ansi, toks: seq<Token>): seq<Piece> {
    var s := Run(f, a, Init(f), toks);
    var o := ORun(f, a, toks, |toks|);
    OAddWord(EndLine(f, s), OEndLine(f, s, o)).buf
  }

  // Sequence facts.

  lemma CatSnoc(toks: seq<Token>, idx: seq<nat>, k: nat)
    requires k < |toks|
    ensures Cat(toks, idx + [k]) == Cat(toks, idx) + toks[k].raw
  {
    assert (idx + [k])[..|idx|] == idx;
  }

  lemma RenderSnoc(a: Ansi, toks: seq<Token>, ps: seq<Piece>, p: Piece)
    ensures Render(a, toks, ps + [p]) == Render(a, toks, ps) + PieceBytes(a, toks, p)
    ensures Indices(ps + [p]) == Indices(ps) + (if p.Tokens? then p.indices else [])
  {
    assert (ps + [p])[..|ps|] == ps;
  }

  lemma CatNonEmpty(toks: seq<Token>, idx: seq<nat>)
    requires forall i :: 0 <= i < |toks| ==> |toks[i].raw| > 0
    requires Below(idx, |toks|)
    requires idx != []
    ensures |Cat(toks, idx)| > 0
  {
    assert idx[|idx| - 1] in idx;
  }

  lemma IncreasingSnoc(xs: seq<nat>, k: nat)
    requires Increasing(xs) && Below(xs, k)
    ensures Increasing(xs + [k]) && Below(xs + [k], k + 1)
  {
    forall i, j | 0 <= i < j < |xs + [k]| ensures (xs + [k])[i] < (xs + [k])[j] {
      if j == |xs| {
        assert xs[i] in xs;
      }
    }
  }

  lemma IncreasingDropMiddle(xs: seq<nat>, ys: seq<nat>, zs: seq<nat>, k: nat)
    requires Increasing(xs + ys + zs) && Below(xs + ys + zs, k)
    ensures Increasing(xs + zs) && Below(xs + zs, k)
  {
    forall i | i in xs + zs ensures i < k {
      assert i in xs + ys + zs;
    }
    var all := xs + ys + zs;
    forall i, j | 0 <= i < j < |xs + zs| ensures (xs + zs)[i] < (xs + zs)[j] {
      var i' := if i < |xs| then i else i + |ys|;
      var j' := if j < |xs| then j else j + |ys|;
      assert (xs + zs)[i] == all[i'];
      assert (xs + zs)[j] == all[j'];
    }
  }

  // Each closure keeps the invariant.

  /** Under the invariant the word (the pending spaces) is empty exactly
      when no token is held in it. */
  lemma EmptyIff(a: Ansi, toks: seq<Token>, k: nat, s: State, o: Origin)
    requires Explains(a, toks, k, s, o)
    ensures |s.word| == 0 <==> o.word == []
    ensures |s.space| == 0 <==> o.space == []
  {
    if o.word != [] {
      assert Below(o.word, |toks|) by {
        forall i | i in o.word ensures i < |toks| {
          assert i in All(o);
        }
      }
      CatNonEmpty(toks, o.word);
    }
    if o.space != [] {
      CatNonEmpty(toks, o.space);
    }
  }

  lemma ExplainsAddSpace(a: Ansi, toks: seq<Token>, k: nat, s: State, o: Origin)
    requires Explains(a, toks, k, s, o)
    ensures Explains(a, toks, k, AddSpace(s), OAddSpace(o))
  {
    RenderSnoc(a, toks, o.buf, Tokens(o.space));
    assert All(OAddSpace(o)) == All(o);
  }

  lemma ExplainsDropSpace(a: Ansi, toks: seq<Token>, k: nat, s: State, o: Origin, w: int)
    requires Explains(a, toks, k, s, o)
    ensures Explains(a, toks, k, s.(space := [], curWidth := w), o.(space := []))
  {
    var xs, ys, zs := Indices(o.buf), o.space, o.word;
    assert All(o) == xs + ys + zs;
    IncreasingDropMiddle(xs, ys, zs, k);
    assert All(o.(space := [])) == xs + zs;
    forall j | 0 <= j < k && !IsSpaceToken(toks[j]) ensures j in xs + zs {
      assert j in xs + ys + zs;
      assert j !in ys;
    }
  }

  /** Changing only the output keeps the invariant when the output still
      renders from its pieces and they copy the same tokens. */
  lemma ExplainsReplaceBuf(a: Ansi, toks: seq<Token>, k: nat, s: State, o: Origin, buf: seq<Byte>, ps: seq<Piece>)
    requires Explains(a, toks, k, s, o)
    requires buf == Render(a, toks, ps) && Indices(ps) == Indices(o.buf)
    ensures Explains(a, toks, k, s.(buf := buf), o.(buf := ps))
  {
    assert All(o.(buf := ps)) == All(o);
  }

  lemma ExplainsAppendBreak(a: Ansi, toks: seq<Token>, k: nat, s: State, o: Origin, style: Style, link: Link)
    requires Explains(a, toks, k, s, o)
    ensures Explains(a, toks, k, s.(buf := s.buf + NewlineSequence(a, style, link)), o.(buf := o.buf + [Break(style, link)]))
  {
    var p := Break(style, link);
    RenderSnoc(a, toks, o.buf, p);
    ExplainsReplaceBuf(a, toks, k, s, o, s.buf + NewlineSequence(a, style, link), o.buf + [p]);
  }

  lemma ExplainsAddNewline(a: Ansi, toks: seq<Token>, k: nat, s: State, o: Origin)
    requires Explains(a, toks, k, s, o)
    ensures Explains(a, toks, k, AddNewline(a, s), OAddNewline(s, o))
  {
    var s1, o1 := s.(space := [], curWidth := 0), o.(space := []);
    ExplainsDropSpace(a, toks, k, s, o, 0);
    ExplainsAppendBreak(a, toks, k, s1, o1, s.style, s.link);
    assert AddNewline(a, s) == s1.(buf := s1.buf + NewlineSequence(a, s.style, s.link));
    assert OAddNewline(s, o) == o1.(buf := o1.buf + [Break(s.style, s.link)]);
  }

  lemma ExplainsAddWord(a: Ansi, toks: seq<Token>, k: nat, s: State, o: Origin)
    requires Explains(a, toks, k, s, o)
    ensures Explains(a, toks, k, AddWord(s), OAddWord(s, o))
    ensures AddWord(s).word == [] && OAddWord(s, o).word == []
  {
    EmptyIff(a, toks, k, s, o);
    if |s.word| > 0 {
      ExplainsAddSpace(a, toks, k, s, o);
      var u := OAddSpace(o);
      RenderSnoc(a, toks, u.buf, Tokens(u.word));
      assert All(OAddWord(s, o)) == All(u);
    }
  }

  lemma ExplainsEndLine(f: Formatter, a: Ansi, toks: seq<Token>, k: nat, s: State, o: Origin)
    requires Explains(a, toks, k, s, o)
    ensures Explains(a, toks, k, EndLine(f, s), OEndLine(f, s, o))
  {
    if s.wordLen == 0 {
      if s.curWidth + |s.space| > f.limit {
        ExplainsDropSpace(a, toks, k, s, o, 0);
      } else {
        ExplainsAddSpace(a, toks, k, s, o);
      }
    }
  }

  // Each token either joins a buffer as index k or is a whitespace token
  // that may be dropped.

  lemma ExplainsAppendWord(a: Ansi, toks: seq<Token>, k: nat, s: State, o: Origin, w: int)
    requires Explains(a, toks, k, s, o) && k < |toks|
    ensures Explains(a, toks, k + 1, s.(word := s.word + toks[k].raw, wordLen := w), o.(word := o.word + [k]))
  {
    CatSnoc(toks, o.word, k);
    IncreasingSnoc(All(o), k);
    CoversSnoc(toks, k, All(o));
    assert All(o.(word := o.word + [k])) == All(o) + [k];
  }

  lemma ExplainsAppendSpace(a: Ansi, toks: seq<Token>, k: nat, s: State, o: Origin)
    requires Explains(a, toks, k, s, o) && k < |toks|
    requires o.word == [] && IsSpaceToken(toks[k])
    ensures Explains(a, toks, k + 1, s.(space := s.space + toks[k].raw), o.(space := o.space + [k]))
  {
    CatSnoc(toks, o.space, k);
    IncreasingSnoc(All(o), k);
    CoversSnoc(toks, k, All(o));
    assert All(o.(space := o.space + [k])) == All(o) + [k];
  }

  lemma CoversSnoc(toks: seq<Token>, k: nat, xs: seq<nat>)
    requires k < |toks| && Covers(toks, k, xs)
    ensures Covers(toks, k + 1, xs + [k])
  {
    forall j | 0 <= j < k + 1 && !IsSpaceToken(toks[j]) ensures j in xs + [k] {
      if j < k {
        assert j in xs;
      }
    }
  }

  lemma CatSingle(toks: seq<Token>, k: nat)
    requires k < |toks|
    ensures Cat(toks, [k]) == toks[k].raw
  {
    assert [k][..0] == [];
  }

  lemma AppendTokenPiece(a: Ansi, toks: seq<Token>, k: nat, o: Origin)
    requires k < |toks| && o.word == [] && o.space == []
    ensures Render(a, toks, o.buf + [Tokens([k])]) == Render(a, toks, o.buf) + toks[k].raw
    ensures All(o.(buf := o.buf + [Tokens([k])])) == All(o) + [k]
  {
    CatSingle(toks, k);
    RenderSnoc(a, toks, o.buf, Tokens([k]));
    calc {
      All(o.(buf := o.buf + [Tokens([k])]));
      Indices(o.buf + [Tokens([k])]) + [] + [];
      { assert Indices(o.buf + [Tokens([k])]) == Indices(o.buf) + [k]; }
      Indices(o.buf) + [k];
      { assert All(o) == Indices(o.buf) + [] + []; }
      All(o) + [k];
    }
  }

  lemma ExplainsAppendBuf(a: Ansi, toks: seq<Token>, k: nat, s: State, o: Origin, w: int)
    requires Explains(a, toks, k, s, o) && k < |toks|
    requires o.word == [] && o.space == []
    ensures Explains(a, toks, k + 1, s.(buf := s.buf + toks[k].raw, curWidth := w), o.(buf := o.buf + [Tokens([k])]))
  {
    AppendTokenPiece(a, toks, k, o);
    IncreasingSnoc(All(o), k);
    CoversSnoc(toks, k, All(o));
  }

  lemma ExplainsSkip(a: Ansi, toks: seq<Token>, k: nat, s: State, o: Origin)
    requires Explains(a, toks, k, s, o) && k < |toks|
    requires IsSpaceToken(toks[k])
    ensures Explains(a, toks, k + 1, s, o)
  {
  }

  // One turn of the loop, by kind of token.

  lemma ExplainsControl(f: Formatter, a: Ansi, toks: seq<Token>, k: nat, s: State, o: Origin)
    requires Explains(a, toks, k, s, o) && k < |toks|
    ensures Explains(a, toks, k + 1, AddControl(f, a, s, toks[k]), OAddControl(f, s, o, k, toks[k]))
  {
    var t := toks[k];
    var u :=
      match t.command
      case Sgr(ps) => s.(style := a.readStyle(ps, s.style))
      case Hyperlink(d) => s.(link := a.readLink(d, s.link))
      case NoCommand =>
        if t.raw == [LF] then AddNewline(a, AddWord(EndLine(f, s))) else s;
    var ou :=
      if t.command.NoCommand? && t.raw == [LF] then
        OAddNewline(AddWord(EndLine(f, s)), OAddWord(EndLine(f, s), OEndLine(f, s, o)))
      else o;
    if t.command.NoCommand? && t.raw == [LF] {
      ExplainsEndLine(f, a, toks, k, s, o);
      ExplainsAddWord(a, toks, k, EndLine(f, s), OEndLine(f, s, o));
      ExplainsAddNewline(a, toks, k, AddWord(EndLine(f, s)), OAddWord(EndLine(f, s), OEndLine(f, s, o)));
    }
    assert Explains(a, toks, k, u, ou);
    ExplainsAppendWord(a, toks, k, u, ou, u.wordLen);
  }

  lemma ExplainsSpaceToken(f: Formatter, a: Ansi, toks: seq<Token>, k: nat, s: State, o: Origin)
    requires Explains(a, toks, k, s, o) && k < |toks|
    requires IsSpaceToken(toks[k])
    ensures Explains(a, toks, k + 1, AddSpaceToken(f, s, toks[k]), OAddSpaceToken(f, s, o, k))
  {
    ExplainsAddWord(a, toks, k, s, o);
    var u := AddWord(s);
    var ou := OAddWord(s, o);
    if f.preserveSpace || u.curWidth != 0 {
      ExplainsAppendSpace(a, toks, k, u, ou);
    } else {
      ExplainsSkip(a, toks, k, u, ou);
    }
  }

  lemma ExplainsBreak(f: Formatter, a: Ansi, toks: seq<Token>, k: nat, s: State, o: Origin)
    requires Explains(a, toks, k, s, o) && k < |toks|
    ensures Explains(a, toks, k + 1, AddBreak(f, s, toks[k]), OAddBreak(f, s, o, k, toks[k]))
  {
    var t := toks[k];
    ExplainsAddSpace(a, toks, k, s, o);
    var u := AddSpace(s);
    var ou := OAddSpace(o);
    if u.curWidth + u.wordLen + t.width >= f.limit {
      ExplainsAppendWord(a, toks, k, u, ou, u.wordLen + t.width);
    } else {
      ExplainsAddWord(a, toks, k, u, ou);
      var v := AddWord(u);
      var ov := OAddWord(u, ou);
      ExplainsAppendBuf(a, toks, k, v, ov, v.curWidth + t.width);
    }
  }

  lemma GlyphHalves(f: Formatter, a: Ansi, s: State, t: Token)
    ensures AddGlyph(f, a, s, t) == GlyphFinish(f, a, GlyphPrepare(f, a, s, t), t)
  {
  }

  lemma ExplainsGlyphPrepare(f: Formatter, a: Ansi, toks: seq<Token>, k: nat, s: State, o: Origin)
    requires Explains(a, toks, k, s, o) && k < |toks|
    ensures Explains(a, toks, k, GlyphPrepare(f, a, s, toks[k]), OGlyphPrepare(f, a, s, o, toks[k]))
  {
    var t := toks[k];
    var s1 := if s.curWidth > f.limit then AddNewline(a, s) else s;
    var o1 := if s.curWidth > f.limit then OAddNewline(s, o) else o;
    if s.curWidth > f.limit {
      ExplainsAddNewline(a, toks, k, s, o);
    }
    if s1.wordLen + t.width >= f.limit {
      ExplainsAddWord(a, toks, k, s1, o1);
    }
  }

  lemma ExplainsGlyphFinish(f: Formatter, a: Ansi, toks: seq<Token>, k: nat, s2: State, o2: Origin)
    requires Explains(a, toks, k, s2, o2) && k < |toks|
    ensures Explains(a, toks, k + 1, GlyphFinish(f, a, s2, toks[k]), OGlyphFinish(f, s2, o2, k, toks[k]))
  {
    var t := toks[k];
    var s3 := s2.(word := s2.word + t.raw, wordLen := s2.wordLen + t.width);
    var o3 := o2.(word := o2.word + [k]);
    ExplainsAppendWord(a, toks, k, s2, o2, s2.wordLen + t.width);
    if s3.curWidth + s3.wordLen + |s3.space| > f.limit {
      ExplainsAddNewline(a, toks, k + 1, s3, o3);
    }
  }

  lemma ExplainsGlyph(f: Formatter, a: Ansi, toks: seq<Token>, k: nat, s: State, o: Origin)
    requires Explains(a, toks, k, s, o) && k < |toks|
    ensures Explains(a, toks, k + 1, AddGlyph(f, a, s, toks[k]), OAddGlyph(f, a, s, o, k, toks[k]))
  {
    GlyphHalves(f, a, s, toks[k]);
    ExplainsGlyphPrepare(f, a, toks, k, s, o);
    ExplainsGlyphFinish(f, a, toks, k, GlyphPrepare(f, a, s, toks[k]), OGlyphPrepare(f, a, s, o, toks[k]));
  }

  lemma ExplainsStep(f: Formatter, a: Ansi, toks: seq<Token>, k: nat, s: State, o: Origin)
    requires Explains(a, toks, k, s, o) && k < |toks|
    ensures Explains(a, toks, k + 1, Step(f, a, s, toks[k]), OStep(f, a, s, o, k, toks[k]))
  {
    var t := toks[k];
    if t.width == 0 {
      ExplainsControl(f, a, toks, k, s, o);
    } else if IsBlank(t.raw) {
      ExplainsSpaceToken(f, a, toks, k, s, o);
    } else if t.raw == [Hyphen] || (RuneCount(t.raw) == 1 && DecodeRune(t.raw).0 in f.breakpoints) {
      ExplainsBreak(f, a, toks, k, s, o);
    } else {
      ExplainsGlyph(f, a, toks, k, s, o);
    }
  }

  lemma {:induction false} ExplainsRun(f: Formatter, a: Ansi, toks: seq<Token>, n: nat)
    requires forall i :: 0 <= i < |toks| ==> |toks[i].raw| > 0
    requires n <= |toks|
    ensures Explains(a, toks, n, Run(f, a, Init(f), toks[..n]), ORun(f, a, toks, n))
  {
    if n == 0 {
      assert toks[..0] == [];
      assert All(Origin([], [], [])) == [];
    } else {
      var s, o := Run(f, a, Init(f), toks[..n - 1]), ORun(f, a, toks, n - 1);
      ExplainsRun(f, a, toks, n - 1);
      ExplainsStep(f, a, toks, n - 1, s, o);
      RunPrefix(f, a, Init(f), toks, n);
      assert ORun(f, a, toks, n) == OStep(f, a, s, o, n - 1, toks[n - 1]);
    }
  }

  /** After the last token, the end-of-input handling leaves nothing pending:
      the output alone holds every index. */
  lemma ExplainsFinish(f: Formatter, a: Ansi, toks: seq<Token>, s: State, o: Origin)
    requires Explains(a, toks, |toks|, s, o)
    ensures var ow := OAddWord(EndLine(f, s), OEndLine(f, s, o));
      && Finish(f, s).buf == Render(a, toks, ow.buf)
      && Increasing(Indices(ow.buf))
      && Below(Indices(ow.buf), |toks|)
      && Covers(toks, |toks|, Indices(ow.buf))
  {
    ExplainsEndLine(f, a, toks, |toks|, s, o);
    var e := EndLine(f, s);
    var oe := OEndLine(f, s, o);
    ExplainsAddWord(a, toks, |toks|, e, oe);
    EmptyIff(a, toks, |toks|, e, oe);
    var ow := OAddWord(e, oe);
    assert ow.space == [] && ow.word == [];
    assert All(ow) == Indices(ow.buf);
  }

  /** Conservation: for a non-empty input and a positive limit, the output of
      Wrap is the rendering of its trace; the trace copies whole tokens, each
      at most once and in input order; and every token except whitespace-only
      text tokens is copied. Everything else in the output is a sequence
      inserted by addNewline. */
  lemma {:induction false} Conservation(f: Formatter, a: Ansi, b: seq<Byte>, toks: seq<Token>)
    requires Tokenizes(toks, b) && |b| > 0 && f.limit >= 1
    ensures var ps := Trace(f, a, toks);
      && WrapResult(f, a, b, toks) == Render(a, toks, ps)
      && Increasing(Indices(ps))
      && (forall i :: i in Indices(ps) ==> i < |toks|)
      && (forall j :: 0 <= j < |toks| && !IsSpaceToken(toks[j]) ==> j in Indices(ps))
  {
    ExplainsRun(f, a, toks, |toks|);
    assert toks[..|toks|] == toks;
    ExplainsFinish(f, a, toks, Run(f, a, Init(f), toks), ORun(f, a, toks, |toks|));
  }
}
