/**
The URL-safe base64 alphabet of section 5 of RFC 4648, as Go's encoding/base64 applies it:
padded text for page tokens (`URLEncoding`) and unpadded text for configuration hashes
(`RawURLEncoding`).
*/
module Base64Url {
  import opened Wrappers

  type Byte = b: int | 0 <= b < 256
  type Sextet = v: int | 0 <= v < 64

  function CharOf(v: Sextet): char {
    if v < 26 then ('A' as int + v) as char
    else if v < 52 then ('a' as int + v - 26) as char
    else if v < 62 then ('0' as int + v - 52) as char
    else if v == 62 then '-'
    else '_'
  }

  function SextetOf(c: char): Option<Sextet> {
    if 'A' <= c <= 'Z' then Some(c as int - 'A' as int)
    else if 'a' <= c <= 'z' then Some(c as int - 'a' as int + 26)
    else if '0' <= c <= '9' then Some(c as int - '0' as int + 52)
    else if c == '-' then Some(62)
    else if c == '_' then Some(63)
    else None
  }

  /** Three bytes become four characters; a final group of one or two bytes becomes two or three. */
  function Quad(a: Byte, b: Byte, c: Byte): string {
    [CharOf(a / 4), CharOf(a % 4 * 16 + b / 16), CharOf(b % 16 * 4 + c / 64), CharOf(c % 64)]
  }

  function EncodeRaw(bytes: seq<Byte>): string {
    if bytes == [] then ""
    else if |bytes| == 1 then Quad(bytes[0], 0, 0)[..2]
    else if |bytes| == 2 then Quad(bytes[0], bytes[1], 0)[..3]
    else Quad(bytes[0], bytes[1], bytes[2]) + EncodeRaw(bytes[3..])
  }

  /** The padding that brings a text of this length to a multiple of four. */
  function Padding(length: nat): string {
    if length % 4 == 2 then "==" else if length % 4 == 3 then "=" else ""
  }

  function Encode(bytes: seq<Byte>): string {
    EncodeRaw(bytes) + Padding(|EncodeRaw(bytes)|)
  }

  /** Go's decoder skips carriage returns and line feeds wherever they stand. */
  function WithoutNewlines(s: string): string {
    if s == "" then ""
    else if s[0] == '\r' || s[0] == '\n' then WithoutNewlines(s[1..])
    else [s[0]] + WithoutNewlines(s[1..])
  }

  /** The three bytes that four sextets spell. */
  function Bytes3(p: int, q: int, r: int, t: int): seq<Byte>
    requires 0 <= p < 64 && 0 <= q < 64 && 0 <= r < 64 && 0 <= t < 64
  {
    [p * 4 + q / 16, q % 16 * 16 + r / 4, r % 4 * 64 + t]
  }

  /**
  Decodes one group of four characters: three bytes, or two or one if it ends in padding. The
  decoder is not in strict mode, so the unused low bits before the padding are ignored.
  */
  function DecodeGroup(p: char, q: char, r: char, t: char): Option<seq<Byte>> {
    match (SextetOf(p), SextetOf(q), SextetOf(r), SextetOf(t))
    case (Some(a), Some(b), Some(c), Some(d)) => Some(Bytes3(a, b, c, d))
    case (Some(a), Some(b), Some(c), None) =>
      if t == '=' then Some(Bytes3(a, b, c, 0)[..2]) else None
    case (Some(a), Some(b), None, None) =>
      if r == '=' && t == '=' then Some(Bytes3(a, b, 0, 0)[..1]) else None
    case _ => None
  }

  /** Decodes padded text; a padded group may only be the last one. */
  function DecodeQuads(s: string): Option<seq<Byte>> {
    if s == "" then Some([])
    else if |s| < 4 then None
    else
      var group, rest := DecodeGroup(s[0], s[1], s[2], s[3]), DecodeQuads(s[4..]);
      if group.None? || rest.None? || (|group.value| < 3 && |s| > 4) then None
      else Some(group.value + rest.value)
  }

  function Decode(s: string): Option<seq<Byte>> {
    DecodeQuads(WithoutNewlines(s))
  }

  lemma SextetOfCharOf(v: Sextet)
    ensures SextetOf(CharOf(v)) == Some(v)
  {
  }

  predicate InAlphabet(s: string) {
    forall i :: 0 <= i < |s| ==> SextetOf(s[i]).Some?
  }

  lemma QuadInAlphabet(a: Byte, b: Byte, c: Byte)
    ensures InAlphabet(Quad(a, b, c))
  {
    SextetOfCharOf(a / 4);
    SextetOfCharOf(a % 4 * 16 + b / 16);
    SextetOfCharOf(b % 16 * 4 + c / 64);
    SextetOfCharOf(c % 64);
  }

  lemma {:induction false} EncodeRawShape(bytes: seq<Byte>)
    ensures InAlphabet(EncodeRaw(bytes))
    ensures |EncodeRaw(bytes)| % 4 != 1
    ensures bytes == [] <==> EncodeRaw(bytes) == ""
  {
    hide SextetOf, CharOf;
    if |bytes| == 1 {
      QuadInAlphabet(bytes[0], 0, 0);
    } else if |bytes| == 2 {
      QuadInAlphabet(bytes[0], bytes[1], 0);
    } else if |bytes| >= 3 {
      EncodeRawShape(bytes[3..]);
      QuadInAlphabet(bytes[0], bytes[1], bytes[2]);
    }
  }

  lemma {:induction false} NothingToSkip(s: string)
    requires forall i :: 0 <= i < |s| ==> s[i] != '\r' && s[i] != '\n'
    ensures WithoutNewlines(s) == s
  {
    if s == "" {
    } else {
      NothingToSkip(s[1..]);
    }
  }

  /** Cutting 24 bits into sextets and joining them again gives the same three bytes. */
  lemma Regroup(a: Byte, b: Byte, c: Byte) returns (p: Sextet, q: Sextet, r: Sextet, t: Sextet)
    ensures Quad(a, b, c) == [CharOf(p), CharOf(q), CharOf(r), CharOf(t)]
    ensures Bytes3(p, q, r, t) == [a, b, c]
    ensures c == 0 ==> t == 0
    ensures b == c == 0 ==> r == t == 0
  {
    p, q, r, t := a / 4, a % 4 * 16 + b / 16, b % 16 * 4 + c / 64, c % 64;
    assert q / 16 == a % 4 && q % 16 == b / 16;
    assert r / 4 == b % 16 && r % 4 == c / 64;
  }

  lemma GroupOfSextets(p: Sextet, q: Sextet, r: Sextet, t: Sextet)
    ensures DecodeGroup(CharOf(p), CharOf(q), CharOf(r), CharOf(t)) == Some(Bytes3(p, q, r, t))
    ensures DecodeGroup(CharOf(p), CharOf(q), CharOf(r), '=') == Some(Bytes3(p, q, r, 0)[..2])
    ensures DecodeGroup(CharOf(p), CharOf(q), '=', '=') == Some(Bytes3(p, q, 0, 0)[..1])
  {
    SextetOfCharOf(p);
    SextetOfCharOf(q);
    SextetOfCharOf(r);
    SextetOfCharOf(t);
  }

  /** Each form of group decodes to exactly the bytes it came from. */
  lemma GroupRoundTrip(a: Byte, b: Byte, c: Byte, s: string)
    requires s == Quad(a, b, c)
    ensures DecodeGroup(s[0], s[1], s[2], s[3]) == Some([a, b, c])
    ensures c == 0 ==> DecodeGroup(s[0], s[1], s[2], '=') == Some([a, b])
    ensures b == c == 0 ==> DecodeGroup(s[0], s[1], '=', '=') == Some([a])
  {
    var p, q, r, t := Regroup(a, b, c);
    GroupOfSextets(p, q, r, t);
    assert [a, b, c][..2] == [a, b] && [a, b, c][..1] == [a];
  }

  lemma LastGroup(s: string, bytes: seq<Byte>)
    requires |s| == 4 && DecodeGroup(s[0], s[1], s[2], s[3]) == Some(bytes)
    ensures DecodeQuads(s) == Some(bytes)
  {
    assert s[4..] == "";
    assert bytes + [] == bytes;
  }

  lemma FirstGroup(s: string, bytes: seq<Byte>, rest: string)
    requires |s| == 4 && DecodeGroup(s[0], s[1], s[2], s[3]) == Some(bytes) && |bytes| == 3
    requires DecodeQuads(rest).Some?
    ensures DecodeQuads(s + rest) == Some(bytes + DecodeQuads(rest).value)
  {
  }

  lemma EncodeSplit(bytes: seq<Byte>)
    requires |bytes| >= 3
    ensures Encode(bytes) == Quad(bytes[0], bytes[1], bytes[2]) + Encode(bytes[3..])
  {
  }

  lemma OneByteTail(a: Byte)
    ensures DecodeQuads(Encode([a])) == Some([a])
  {
    var quad := Quad(a, 0, 0);
    GroupRoundTrip(a, 0, 0, quad);
    assert Encode([a]) == [quad[0], quad[1], '=', '='];
    LastGroup([quad[0], quad[1], '=', '='], [a]);
  }

  lemma TwoByteTail(a: Byte, b: Byte)
    ensures DecodeQuads(Encode([a, b])) == Some([a, b])
  {
    var quad := Quad(a, b, 0);
    GroupRoundTrip(a, b, 0, quad);
    assert Encode([a, b]) == [quad[0], quad[1], quad[2], '='];
    LastGroup([quad[0], quad[1], quad[2], '='], [a, b]);
  }

  lemma {:induction false} DecodeQuadsEncode(bytes: seq<Byte>)
    ensures DecodeQuads(Encode(bytes)) == Some(bytes)
  {
    hide DecodeGroup;
    if |bytes| == 1 {
      OneByteTail(bytes[0]);
      assert bytes == [bytes[0]];
    } else if |bytes| == 2 {
      TwoByteTail(bytes[0], bytes[1]);
      assert bytes == [bytes[0], bytes[1]];
    } else if |bytes| >= 3 {
      DecodeQuadsEncode(bytes[3..]);
      var quad := Quad(bytes[0], bytes[1], bytes[2]);
      GroupRoundTrip(bytes[0], bytes[1], bytes[2], quad);
      EncodeSplit(bytes);
      FirstGroup(quad, [bytes[0], bytes[1], bytes[2]], Encode(bytes[3..]));
      assert [bytes[0], bytes[1], bytes[2]] + bytes[3..] == bytes;
    }
  }

  /** Decoding undoes encoding for every byte string. */
  lemma RoundTrip(bytes: seq<Byte>)
    ensures Decode(Encode(bytes)) == Some(bytes)
    ensures Encode(bytes) == "" <==> bytes == []
  {
    EncodeRawShape(bytes);
    NothingToSkip(Encode(bytes));
    DecodeQuadsEncode(bytes);
  }

  /** The unpadded form used for hashes loses nothing either: it is injective. */
  lemma EncodeRawInjective(a: seq<Byte>, b: seq<Byte>)
    requires EncodeRaw(a) == EncodeRaw(b)
    ensures a == b
  {
    RoundTrip(a);
    RoundTrip(b);
  }

  // ---------------------------------------------------------------- alphabet and malformed text

  /** Only the characters of the alphabet have a value, and each its own. */
  lemma SextetExactly(c: char)
    ensures SextetOf(c).Some? ==> CharOf(SextetOf(c).value) == c
    ensures SextetOf(c).Some? <==> 'A' <= c <= 'Z' || 'a' <= c <= 'z' || '0' <= c <= '9' || c == '-' || c == '_'
  {
  }

  /** The whole alphabet, in the order of section 5 of RFC 4648, four characters from three bytes at a time. */
  lemma LettersInOrder()
    ensures Quad(0x00, 0x10, 0x83) == "ABCD" && Quad(0x10, 0x51, 0x87) == "EFGH" && Quad(0x20, 0x92, 0x8B) == "IJKL"
    ensures Quad(0x30, 0xD3, 0x8F) == "MNOP" && Quad(0x41, 0x14, 0x93) == "QRST" && Quad(0x51, 0x55, 0x97) == "UVWX"
    ensures Quad(0x61, 0x96, 0x9B) == "YZab" && Quad(0x71, 0xD7, 0x9F) == "cdef" && Quad(0x82, 0x18, 0xA3) == "ghij"
  {
  }

  lemma RestInOrder()
    ensures Quad(0x92, 0x59, 0xA7) == "klmn" && Quad(0xA2, 0x9A, 0xAB) == "opqr" && Quad(0xB2, 0xDB, 0xAF) == "stuv"
    ensures Quad(0xC3, 0x1C, 0xB3) == "wxyz" && Quad(0xD3, 0x5D, 0xB7) == "0123" && Quad(0xE3, 0x9E, 0xBB) == "4567"
    ensures Quad(0xF3, 0xDF, 0xBF) == "89-_"
  {
  }

  /** Text of whole groups, whose last one may end in one or two padding characters. */
  predicate WellFormed(s: string, pad: nat) {
    && pad <= 2 && |s| % 4 == 0 && pad <= |s|
    && InAlphabet(s[..|s| - pad]) && forall i :: |s| - pad <= i < |s| ==> s[i] == '='
  }

  lemma GroupDecodes(p: char, q: char, r: char, t: char)
    ensures DecodeGroup(p, q, r, t).Some? <==>
      && SextetOf(p).Some? && SextetOf(q).Some?
      && ((SextetOf(r).Some? && (SextetOf(t).Some? || t == '=')) || (r == '=' && t == '='))
    ensures DecodeGroup(p, q, r, t).Some? ==>
      |DecodeGroup(p, q, r, t).value| == if r == '=' then 1 else if t == '=' then 2 else 3
  {
  }

  lemma {:induction false} QuadsDecode(s: string, pad: nat)
    requires WellFormed(s, pad)
    ensures DecodeQuads(s).Some? && |DecodeQuads(s).value| == |s| / 4 * 3 - pad
  {
    hide DecodeGroup, SextetOf;
    if s == "" {
    } else {
      GroupDecodes(s[0], s[1], s[2], s[3]);
      EqualsIsNoSextet();
      if |s| == 4 {
        assert s[4..] == "";
        LastQuad(s, pad);
      } else {
        assert s[4..][..|s| - 4 - pad] == s[..|s| - pad][4..];
        QuadsDecode(s[4..], pad);
      }
    }
  }

  lemma EqualsIsNoSextet()
    ensures SextetOf('=').None?
  {
  }

  lemma LastQuad(s: string, pad: nat)
    requires WellFormed(s, pad) && |s| == 4
    ensures DecodeGroup(s[0], s[1], s[2], s[3]).Some? && |DecodeGroup(s[0], s[1], s[2], s[3]).value| == 3 - pad
  {
    hide DecodeGroup, SextetOf;
    EqualsIsNoSextet();
    GroupDecodes(s[0], s[1], s[2], s[3]);
    assert forall i :: 0 <= i < 4 - pad ==> s[..4 - pad][i] == s[i];
  }

  lemma QuadBefore(s: string, pad: nat)
    requires |s| > 4 && WellFormed(s[4..], pad)
    requires forall i :: 0 <= i < 4 ==> SextetOf(s[i]).Some?
    ensures WellFormed(s, pad)
  {
    hide SextetOf;
    var body := s[..|s| - pad];
    assert forall i :: 4 <= i < |body| ==> body[i] == s[4..][..|s| - 4 - pad][i - 4];
    assert forall i :: |s| - pad <= i < |s| ==> s[i] == s[4..][i - 4];
  }

  lemma {:induction false} QuadsAreWellFormed(s: string) returns (pad: nat)
    requires DecodeQuads(s).Some?
    ensures WellFormed(s, pad)
  {
    hide DecodeGroup, SextetOf;
    if s == "" {
      pad := 0;
    } else {
      GroupDecodes(s[0], s[1], s[2], s[3]);
      EqualsIsNoSextet();
      if |s| == 4 {
        pad := if s[2] == '=' then 2 else if s[3] == '=' then 1 else 0;
      } else {
        pad := QuadsAreWellFormed(s[4..]);
        hide DecodeQuads;
        QuadBefore(s, pad);
      }
    }
  }

  /** A text without line breaks decodes exactly if it is well-formed. */
  lemma DecodesExactly(s: string)
    requires forall i :: 0 <= i < |s| ==> s[i] != '\r' && s[i] != '\n'
    ensures Decode(s).Some? <==> exists pad :: WellFormed(s, pad)
  {
    hide WellFormed, DecodeQuads;
    NothingToSkip(s);
    if Decode(s).Some? {
      var pad := QuadsAreWellFormed(s);
    }
    if pad: nat :| WellFormed(s, pad) {
      QuadsDecode(s, pad);
    }
  }

  /** Line breaks make no difference, wherever they stand. */
  lemma {:induction false} LineBreaksSkipped(a: string, c: char, b: string)
    requires c == '\r' || c == '\n'
    ensures Decode(a + [c] + b) == Decode(a + b)
  {
    WithoutLineBreak(a, c, b);
  }

  lemma {:induction false} WithoutLineBreak(a: string, c: char, b: string)
    requires c == '\r' || c == '\n'
    ensures WithoutNewlines(a + [c] + b) == WithoutNewlines(a + b)
  {
    if a == "" {
      assert (a + [c] + b)[1..] == b && a + b == b;
    } else {
      WithoutLineBreak(a[1..], c, b);
      assert (a + [c] + b)[1..] == a[1..] + [c] + b && (a + b)[1..] == a[1..] + b;
    }
  }
}
