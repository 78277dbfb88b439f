/**
  The pieces of Go's standard library that the wrapper applies to a token's raw
  bytes: utf8.DecodeRuneInString, utf8.RuneCountInString, the []rune conversion,
  unicode.IsSpace, and the test len(strings.TrimSpace(s)) == 0.
 */
module Utf8 {

  type Byte = b: int | 0 <= b < 0x100

  /** A Go rune: a code point, or RuneError for bytes that do not decode. */
  type Rune = int

  const RuneError: Rune := 0xFFFD

  predicate IsContinuation(b: Byte) {
    0x80 <= b <= 0xBF
  }

  /** utf8.DecodeRuneInString: the first rune of s and the number of bytes it
      takes. An invalid or truncated encoding yields (RuneError, 1), the empty
      string (RuneError, 0). */
  function DecodeRune(s: seq<Byte>): (d: (Rune, nat))
    ensures |s| == 0 ==> d == (RuneError, 0)
    ensures |s| > 0 ==> 1 <= d.1 <= |s| && d.1 <= 4
    ensures |s| > 0 && s[0] < 0x80 ==> d == (s[0], 1)
    // a non-ASCII lead byte that is consumed alone never decodes to a rune
    ensures |s| > 0 && s[0] >= 0x80 && d.1 == 1 ==> d.0 == RuneError
    // only shortest-form encodings of Unicode scalar values are accepted
    ensures d.1 == 2 ==> 0x80 <= d.0 < 0x800
    ensures d.1 == 3 ==> 0x800 <= d.0 < 0x10000 && !(0xD800 <= d.0 <= 0xDFFF)
    ensures d.1 == 4 ==> 0x10000 <= d.0 <= 0x10FFFF
  {
    if |s| == 0 then (RuneError, 0)
    else
      var b0: int := s[0];
      if b0 < 0x80 then (b0, 1)
      else
        var b1: int := if |s| >= 2 then s[1] else 0;
        var b2: int := if |s| >= 3 then s[2] else 0;
        var b3: int := if |s| >= 4 then s[3] else 0;
        if 0xC2 <= b0 <= 0xDF then
          if |s| >= 2 && IsContinuation(s[1]) then
            ((b0 - 0xC0) * 0x40 + (b1 - 0x80), 2)
          else (RuneError, 1)
        else if 0xE0 <= b0 <= 0xEF then
          var lo := if b0 == 0xE0 then 0xA0 else 0x80;
          var hi := if b0 == 0xED then 0x9F else 0xBF;
          if |s| >= 3 && lo <= s[1] <= hi && IsContinuation(s[2]) then
            ((b0 - 0xE0) * 0x1000 + (b1 - 0x80) * 0x40 + (b2 - 0x80), 3)
          else (RuneError, 1)
        else if 0xF0 <= b0 <= 0xF4 then
          var lo := if b0 == 0xF0 then 0x90 else 0x80;
          var hi := if b0 == 0xF4 then 0x8F else 0xBF;
          if |s| >= 4 && lo <= s[1] <= hi && IsContinuation(s[2]) && IsContinuation(s[3]) then
            ((b0 - 0xF0) * 0x40000 + (b1 - 0x80) * 0x1000 + (b2 - 0x80) * 0x40 + (b3 - 0x80), 4)
          else (RuneError, 1)
        else (RuneError, 1)
  }

  /** A Unicode scalar value: a code point that is not a surrogate. */
  predicate IsScalar(r: Rune) {
    0 <= r <= 0x10FFFF && !(0xD800 <= r <= 0xDFFF)
  }

  /** The shortest UTF-8 encoding of a scalar value, as utf8.EncodeRune
      writes it: the value is cut into 6-bit groups, the lowest group last. */
  function Encode(r: Rune): (e: seq<Byte>)
    requires IsScalar(r)
    ensures 1 <= |e| <= 4
  {
    if r < 0x80 then [r]
    else if r < 0x800 then [0xC0 + r / 0x40, 0x80 + r % 0x40]
    else if r < 0x10000 then [0xE0 + r / 0x40 / 0x40, 0x80 + r / 0x40 % 0x40, 0x80 + r % 0x40]
    else [0xF0 + r / 0x40 / 0x40 / 0x40, 0x80 + r / 0x40 / 0x40 % 0x40, 0x80 + r / 0x40 % 0x40, 0x80 + r % 0x40]
  }

  /** Appending a 6-bit group to q and taking it off again. */
  lemma Group(q: int, m: int)
    requires 0 <= m < 0x40
    ensures (q * 0x40 + m) / 0x40 == q && (q * 0x40 + m) % 0x40 == m
  {
  }

  lemma DecodeEncode2(r: Rune, rest: seq<Byte>)
    requires 0x80 <= r < 0x800
    ensures DecodeRune(Encode(r) + rest) == (r, 2)
  {
    var s := Encode(r) + rest;
    assert s[0] == 0xC0 + r / 0x40 && s[1] == 0x80 + r % 0x40;
  }

  lemma DecodeEncode3(r: Rune, rest: seq<Byte>)
    requires IsScalar(r) && 0x800 <= r < 0x10000
    ensures DecodeRune(Encode(r) + rest) == (r, 3)
  {
    var s := Encode(r) + rest;
    var x := r / 0x40;
    assert r == x * 0x40 + r % 0x40;
    assert x == x / 0x40 * 0x40 + x % 0x40;
    assert s[0] == 0xE0 + x / 0x40 && s[1] == 0x80 + x % 0x40 && s[2] == 0x80 + r % 0x40;
  }

  lemma DecodeEncode4(r: Rune, rest: seq<Byte>)
    requires IsScalar(r) && 0x10000 <= r
    ensures DecodeRune(Encode(r) + rest) == (r, 4)
  {
    var s := Encode(r) + rest;
    var x := r / 0x40;
    var y := x / 0x40;
    assert r == x * 0x40 + r % 0x40;
    assert x == y * 0x40 + x % 0x40;
    assert y == y / 0x40 * 0x40 + y % 0x40;
    assert s[0] == 0xF0 + y / 0x40 && s[1] == 0x80 + y % 0x40;
    assert s[2] == 0x80 + x % 0x40 && s[3] == 0x80 + r % 0x40;
  }

  /** Decoding the encoding of a scalar value gives the value back and
      consumes exactly its encoding, whatever follows. */
  lemma DecodeEncode(r: Rune, rest: seq<Byte>)
    requires IsScalar(r)
    ensures DecodeRune(Encode(r) + rest) == (r, |Encode(r)|)
  {
    if r < 0x80 {
      assert (Encode(r) + rest)[0] == r;
    } else if r < 0x800 {
      DecodeEncode2(r, rest);
    } else if r < 0x10000 {
      DecodeEncode3(r, rest);
    } else {
      DecodeEncode4(r, rest);
    }
  }

  lemma EncodingOf2(s: seq<Byte>)
    requires |s| >= 2 && 0xC2 <= s[0] <= 0xDF && IsContinuation(s[1])
    ensures IsScalar(DecodeRune(s).0) && s[..2] == Encode(DecodeRune(s).0)
  {
    var b0: int, b1: int := s[0], s[1];
    assert DecodeRune(s).0 == (b0 - 0xC0) * 0x40 + (b1 - 0x80);
    Group(b0 - 0xC0, b1 - 0x80);
  }

  lemma EncodingOf3(s: seq<Byte>)
    requires |s| >= 3 && 0xE0 <= s[0] <= 0xEF && DecodeRune(s).1 == 3
    ensures IsScalar(DecodeRune(s).0) && s[..3] == Encode(DecodeRune(s).0)
  {
    var b0: int, b1: int, b2: int := s[0], s[1], s[2];
    var x := (b0 - 0xE0) * 0x40 + (b1 - 0x80);
    assert DecodeRune(s).0 == x * 0x40 + (b2 - 0x80);
    Group(x, b2 - 0x80);
    Group(b0 - 0xE0, b1 - 0x80);
  }

  lemma EncodingOf4(s: seq<Byte>)
    requires |s| >= 4 && 0xF0 <= s[0] <= 0xF4 && DecodeRune(s).1 == 4
    ensures IsScalar(DecodeRune(s).0) && s[..4] == Encode(DecodeRune(s).0)
  {
    var b0: int, b1: int, b2: int, b3: int := s[0], s[1], s[2], s[3];
    var y := (b0 - 0xF0) * 0x40 + (b1 - 0x80);
    var x := y * 0x40 + (b2 - 0x80);
    assert DecodeRune(s).0 == x * 0x40 + (b3 - 0x80);
    Group(x, b3 - 0x80);
    Group(y, b2 - 0x80);
    Group(b0 - 0xF0, b1 - 0x80);
  }

  /** Every decoding step either reads the encoding of the scalar value it
      returns or is the one-byte RuneError on a non-ASCII lead byte. With
      DecodeEncode this fixes DecodeRune completely. */
  lemma DecodeIsEncoding(s: seq<Byte>)
    requires |s| > 0
    ensures var d := DecodeRune(s);
      || (d == (RuneError, 1) && s[0] >= 0x80)
      || (IsScalar(d.0) && s[..d.1] == Encode(d.0))
  {
    var d := DecodeRune(s);
    if s[0] < 0x80 {
      assert s[..1] == [s[0]];
    } else if d.1 == 2 {
      EncodingOf2(s);
    } else if d.1 == 3 {
      EncodingOf3(s);
    } else if d.1 == 4 {
      EncodingOf4(s);
    }
  }

  /** utf8.RuneCountInString: each decoding step counts one rune. */
  function RuneCount(s: seq<Byte>): (n: nat)
    ensures n <= |s|
    ensures n == 0 <==> |s| == 0
    decreases |s|
  {
    if |s| == 0 then 0 else 1 + RuneCount(s[DecodeRune(s).1..])
  }

  /** The conversion []rune(s). */
  function Runes(s: seq<Byte>): (rs: seq<Rune>)
    ensures |rs| == RuneCount(s)
    decreases |s|
  {
    if |s| == 0 then [] else [DecodeRune(s).0] + Runes(s[DecodeRune(s).1..])
  }

  /** unicode.IsSpace: the Latin-1 spaces, then the rest of the White_Space property. */
  predicate IsSpace(r: Rune) {
    if 0 <= r <= 0xFF then
      r == 0x09 || r == 0x0A || r == 0x0B || r == 0x0C || r == 0x0D || r == 0x20 || r == 0x85 || r == 0xA0
    else
      r == 0x1680 || 0x2000 <= r <= 0x200A || r == 0x2028 || r == 0x2029 || r == 0x202F || r == 0x205F || r == 0x3000
  }

  /** len(strings.TrimSpace(s)) == 0: every rune of s is a space. Bytes that do
      not decode become RuneError, which is not a space. */
  predicate IsBlank(s: seq<Byte>) {
    forall r :: r in Runes(s) ==> IsSpace(r)
  }

  /** A string holds exactly one rune precisely when its first decoding step
      consumes all of it. */
  lemma {:induction false} SingleRune(s: seq<Byte>)
    ensures RuneCount(s) == 1 <==> |s| > 0 && DecodeRune(s).1 == |s|
  {
    if |s| > 0 {
      var rest := s[DecodeRune(s).1..];
      assert RuneCount(s) == 1 + RuneCount(rest);
      assert RuneCount(rest) == 0 <==> |rest| == 0;
    }
  }

  /** A single byte is blank exactly when it is one of Go's ASCII spaces. */
  lemma {:induction false} BlankByte(b: Byte)
    requires b < 0x80
    ensures IsBlank([b]) <==> b in {0x09, 0x0A, 0x0B, 0x0C, 0x0D, 0x20}
  {
    assert DecodeRune([b]) == (b, 1);
    assert [b][1..] == [];
    assert Runes([b]) == [b] + Runes([]);
    assert Runes([b]) == [b];
    assert IsBlank([b]) <==> IsSpace(b);
  }
}
