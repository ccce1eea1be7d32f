/** The base64 encoding of section 4 of RFC 4648 (alphabet `A-Z a-z 0-9 + /`, `=` padding),
    as produced by Node's `buffer.toString('base64')` and read back by the ML service.
    Encoding goes through a layer of symbols: the 64 digit values and the pad. */
module Base64 {
  import opened Wrappers

  type Byte = x: int | 0 <= x < 256

  /** A digit value 0..63, or `Pad` (64) for the `=` character. */
  type Symbol = x: int | 0 <= x <= 64
  const Pad: Symbol := 64

  /** The character of a symbol (Table 1 of RFC 4648, and `=` for the pad). */
  function CharOf(v: Symbol): char {
    if v < 26 then (65 + v) as char
    else if v < 52 then (97 + v - 26) as char
    else if v < 62 then (48 + v - 52) as char
    else if v == 62 then '+'
    else if v == 63 then '/'
    else '='
  }

  /** The symbol a character stands for, if it belongs to the alphabet or is the pad. */
  function SymbolOf(c: char): (r: Option<Symbol>)
    ensures r.Some? ==> CharOf(r.value) == c
  {
    if 'A' <= c <= 'Z' then Some(c as int - 65)
    else if 'a' <= c <= 'z' then Some(c as int - 97 + 26)
    else if '0' <= c <= '9' then Some(c as int - 48 + 52)
    else if c == '+' then Some(62)
    else if c == '/' then Some(63)
    else if c == '=' then Some(Pad)
    else None
  }

  lemma SymbolOfCharOf(v: Symbol)
    ensures SymbolOf(CharOf(v)) == Some(v)
  {
  }

  /** Characters that may appear in an encoding: the alphabet and the pad. */
  predicate IsBase64Char(c: char) {
    SymbolOf(c).Some?
  }

  function ToChars(vs: seq<Symbol>): (s: string)
    ensures |s| == |vs|
    ensures forall k :: 0 <= k < |s| ==> s[k] == CharOf(vs[k])
  {
    seq(|vs|, k requires 0 <= k < |vs| => CharOf(vs[k]))
  }

  function FromChars(s: string): Option<seq<Symbol>> {
    if |s| == 0 then Some([])
    else
      match (SymbolOf(s[0]), FromChars(s[1..]))
      case (Some(v), Some(rest)) => Some([v] + rest)
      case _ => None
  }

  lemma {:induction false} FromCharsToChars(vs: seq<Symbol>)
    ensures FromChars(ToChars(vs)) == Some(vs)
  {
    if |vs| > 0 {
      SymbolOfCharOf(vs[0]);
      assert ToChars(vs)[1..] == ToChars(vs[1..]);
      FromCharsToChars(vs[1..]);
      assert vs == [vs[0]] + vs[1..];
    }
  }

  /** Splits every three bytes into four 6-bit digits, padding the last group. */
  function Symbols(b: seq<Byte>): (vs: seq<Symbol>)
    decreases |b|
  {
    if |b| == 0 then []
    else if |b| == 1 then [b[0] / 4, (b[0] % 4) * 16, Pad, Pad]
    else if |b| == 2 then [b[0] / 4, (b[0] % 4) * 16 + b[1] / 16, (b[1] % 16) * 4, Pad]
    else [b[0] / 4, (b[0] % 4) * 16 + b[1] / 16, (b[1] % 16) * 4 + b[2] / 64, b[2] % 64] + Symbols(b[3..])
  }

  /** Joins digits back into bytes; pads may only close the last group of four. */
  function Bytes(vs: seq<Symbol>): Option<seq<Byte>>
    decreases |vs|
  {
    if |vs| == 0 then Some([])
    else if |vs| < 4 then None
    else
      var v0, v1, v2, v3 := vs[0], vs[1], vs[2], vs[3];
      if |vs| == 4 && v0 < Pad && v1 < Pad && v2 == Pad && v3 == Pad then
        Some([v0 * 4 + v1 / 16])
      else if |vs| == 4 && v0 < Pad && v1 < Pad && v2 < Pad && v3 == Pad then
        Some([v0 * 4 + v1 / 16, (v1 % 16) * 16 + v2 / 4])
      else if v0 < Pad && v1 < Pad && v2 < Pad && v3 < Pad then
        match Bytes(vs[4..])
        case Some(rest) => Some([v0 * 4 + v1 / 16, (v1 % 16) * 16 + v2 / 4, (v2 % 4) * 64 + v3] + rest)
        case None => None
      else None
  }

  /** The encoding of a byte string. */
  function Encode(b: seq<Byte>): string {
    ToChars(Symbols(b))
  }

  /** Strict decoding: only alphabet characters, length a multiple of four, pads only at the end. */
  function Decode(s: string): Option<seq<Byte>> {
    match FromChars(s)
    case None => None
    case Some(vs) => Bytes(vs)
  }

  lemma GroupArithmetic(b0: Byte, b1: Byte, b2: Byte)
    ensures (b0 / 4) * 4 + ((b0 % 4) * 16 + b1 / 16) / 16 == b0
    ensures (((b0 % 4) * 16 + b1 / 16) % 16) * 16 + ((b1 % 16) * 4 + b2 / 64) / 4 == b1
    ensures (((b1 % 16) * 4 + b2 / 64) % 4) * 64 + b2 % 64 == b2
  {
    var c1 := (b0 % 4) * 16 + b1 / 16;
    var c2 := (b1 % 16) * 4 + b2 / 64;
    assert c1 / 16 == b0 % 4 && c1 % 16 == b1 / 16;
    assert c2 / 4 == b1 % 16 && c2 % 4 == b2 / 64;
  }

  /** A group of four digits joins into three bytes ahead of whatever the rest joins into. */
  lemma BytesFullGroup(v0: Symbol, v1: Symbol, v2: Symbol, v3: Symbol, rest: seq<Symbol>, t: seq<Byte>)
    requires v0 < Pad && v1 < Pad && v2 < Pad && v3 < Pad
    requires Bytes(rest) == Some(t)
    ensures Bytes([v0, v1, v2, v3] + rest) == Some([v0 * 4 + v1 / 16, (v1 % 16) * 16 + v2 / 4, (v2 % 4) * 64 + v3] + t)
  {
    assert ([v0, v1, v2, v3] + rest)[4..] == rest;
  }

  /** A last group with two pads joins into one byte. */
  lemma BytesTwoPads(v0: Symbol, v1: Symbol)
    requires v0 < Pad && v1 < Pad
    ensures Bytes([v0, v1, Pad, Pad]) == Some([v0 * 4 + v1 / 16])
  {
  }

  /** A last group with one pad joins into two bytes. */
  lemma BytesOnePad(v0: Symbol, v1: Symbol, v2: Symbol)
    requires v0 < Pad && v1 < Pad && v2 < Pad
    ensures Bytes([v0, v1, v2, Pad]) == Some([v0 * 4 + v1 / 16, (v1 % 16) * 16 + v2 / 4])
  {
  }

  lemma OneByteArithmetic(b0: Byte)
    ensures (b0 / 4) * 4 + ((b0 % 4) * 16) / 16 == b0
  {
    var c1 := (b0 % 4) * 16;
    assert c1 / 16 == b0 % 4;
  }

  lemma TwoByteArithmetic(b0: Byte, b1: Byte)
    ensures (b0 / 4) * 4 + ((b0 % 4) * 16 + b1 / 16) / 16 == b0
    ensures (((b0 % 4) * 16 + b1 / 16) % 16) * 16 + ((b1 % 16) * 4) / 4 == b1
  {
    var c1 := (b0 % 4) * 16 + b1 / 16;
    assert c1 / 16 == b0 % 4 && c1 % 16 == b1 / 16;
    assert ((b1 % 16) * 4) / 4 == b1 % 16;
  }

  /** A single byte is encoded as two digits and two pads, and those join back into it. */
  lemma BytesSymbolsOne(b0: Byte)
    ensures Bytes(Symbols([b0])) == Some([b0])
  {
    assert Symbols([b0]) == [b0 / 4, (b0 % 4) * 16, Pad, Pad];
    BytesTwoPads(b0 / 4, (b0 % 4) * 16);
    OneByteArithmetic(b0);
  }

  /** Two bytes are encoded as three digits and a pad, and those join back into them. */
  lemma BytesSymbolsTwo(b0: Byte, b1: Byte)
    ensures Bytes(Symbols([b0, b1])) == Some([b0, b1])
  {
    assert Symbols([b0, b1]) == [b0 / 4, (b0 % 4) * 16 + b1 / 16, (b1 % 16) * 4, Pad];
    BytesOnePad(b0 / 4, (b0 % 4) * 16 + b1 / 16, (b1 % 16) * 4);
    TwoByteArithmetic(b0, b1);
  }

  /** Three leading bytes are encoded as four digits ahead of the encoding of the rest. */
  lemma SymbolsFullGroup(b: seq<Byte>)
    requires |b| >= 3
    ensures Symbols(b) == [b[0] / 4, (b[0] % 4) * 16 + b[1] / 16, (b[1] % 16) * 4 + b[2] / 64, b[2] % 64]
                          + Symbols(b[3..])
  {
  }

  /** Three bytes ahead of any tail come back from their four digits. */
  lemma BytesGroupOfThree(b0: Byte, b1: Byte, b2: Byte, rest: seq<Symbol>, t: seq<Byte>)
    requires Bytes(rest) == Some(t)
    ensures Bytes([b0 / 4, (b0 % 4) * 16 + b1 / 16, (b1 % 16) * 4 + b2 / 64, b2 % 64] + rest)
         == Some([b0, b1, b2] + t)
  {
    var c0: Symbol, c1: Symbol, c2: Symbol, c3: Symbol :=
      b0 / 4, (b0 % 4) * 16 + b1 / 16, (b1 % 16) * 4 + b2 / 64, b2 % 64;
    GroupArithmetic(b0, b1, b2);
    assert [c0 * 4 + c1 / 16, (c1 % 16) * 16 + c2 / 4, (c2 % 4) * 64 + c3] == [b0, b1, b2];
    BytesFullGroup(c0, c1, c2, c3, rest, t);
  }

  lemma {:induction false} BytesSymbols(b: seq<Byte>)
    ensures Bytes(Symbols(b)) == Some(b)
    decreases |b|
  {
    if |b| == 1 {
      BytesSymbolsOne(b[0]);
      assert b == [b[0]];
    } else if |b| == 2 {
      BytesSymbolsTwo(b[0], b[1]);
      assert b == [b[0], b[1]];
    } else if |b| >= 3 {
      SymbolsFullGroup(b);
      BytesSymbols(b[3..]);
      BytesGroupOfThree(b[0], b[1], b[2], Symbols(b[3..]), b[3..]);
      assert b == [b[0], b[1], b[2]] + b[3..];
    }
  }

  /** Decoding an encoding gives back the encoded bytes. */
  lemma DecodeEncode(b: seq<Byte>)
    ensures Decode(Encode(b)) == Some(b)
  {
    FromCharsToChars(Symbols(b));
    BytesSymbols(b);
  }

  /** An encoding uses only the alphabet and the pad; in particular it holds no comma. */
  lemma EncodeAlphabet(b: seq<Byte>)
    ensures forall k :: 0 <= k < |Encode(b)| ==> IsBase64Char(Encode(b)[k])
    ensures ',' !in Encode(b)
  {
    forall k | 0 <= k < |Encode(b)| ensures IsBase64Char(Encode(b)[k]) {
      SymbolOfCharOf(Symbols(b)[k]);
    }
  }
}
