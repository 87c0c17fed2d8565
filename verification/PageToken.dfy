/**
The page token of api/pagination.go: a Protocol Buffers message with an int64 `start` (field 1)
and an int32 `size` (field 2), written as varints and then as padded base64url text.
*/
module PageTokens {
  import opened Wrappers
  import opened Base64Url

  const TWO_32: int := 0x1_0000_0000
  const TWO_64: int := 0x1_0000_0000_0000_0000

  type Int32 = x: int | -0x8000_0000 <= x < 0x8000_0000
  type Int64 = x: int | -0x8000_0000_0000_0000 <= x < 0x8000_0000_0000_0000
  type Uint64 = x: int | 0 <= x < TWO_64

  /** Two's-complement reading of 64 bits, which is also what int64 addition in Go wraps to. */
  function ToInt64(x: int): Int64 {
    var low := x % TWO_64;
    if low < TWO_64 / 2 then low else low - TWO_64
  }

  function ToInt32(x: int): Int32 {
    var low := x % TWO_32;
    if low < TWO_32 / 2 then low else low - TWO_32
  }

  /** Negative numbers of either width are sign-extended to 64 bits before they are written. */
  function ToUint64(x: Int64): Uint64 {
    x % TWO_64
  }

  /** `unknown` holds fields the schema does not name; the Go runtime keeps and re-emits them. */
  datatype PageToken = PageToken(start: Int64, size: Int32, unknown: seq<Byte>)

  // ---------------------------------------------------------------- base 128 varints

  function Varint(v: nat): seq<Byte> {
    if v < 128 then [v] else [v % 128 + 128] + Varint(v / 128)
  }

  datatype Parsed = Malformed | Parsed(value: nat, rest: seq<Byte>)

  /** A varint has at most ten bytes, of which the tenth may only hold the last bit. */
  function ReadVarint(b: seq<Byte>, index: nat := 0): (r: Parsed)
    requires index <= 9
    ensures r.Parsed? ==> |r.rest| < |b|
    decreases 9 - index
  {
    if b == [] then Malformed
    else if b[0] < (if index == 9 then 2 else 128) then Parsed(b[0], b[1..])
    else if b[0] < 128 || index == 9 then Malformed
    else
      match ReadVarint(b[1..], index + 1)
      case Malformed => Malformed
      case Parsed(v, rest) => Parsed(b[0] - 128 + 128 * v, rest)
  }

  /** Values below this bound fit into the bytes from `index` on. */
  function Limit(index: nat): nat
    requires index <= 9
    decreases 9 - index
  {
    if index == 9 then 2 else 128 * Limit(index + 1)
  }

  lemma LimitIsTwo64()
    ensures Limit(0) == TWO_64
  {
  }

  lemma {:induction false} ReadVarintVarint(v: nat, rest: seq<Byte>, index: nat)
    requires index <= 9 && v < Limit(index)
    ensures ReadVarint(Varint(v) + rest, index) == Parsed(v, rest)
    decreases v
  {
    var b := Varint(v) + rest;
    if v < 128 {
      assert b[1..] == rest;
    } else {
      assert b[1..] == Varint(v / 128) + rest;
      ReadVarintVarint(v / 128, rest, index + 1);
    }
  }

  // ---------------------------------------------------------------- messages

  function Field(number: nat, x: Int64): seq<Byte> {
    if x == 0 then [] else Varint(number * 8) + Varint(ToUint64(x))
  }

  function Marshal(t: PageToken): seq<Byte> {
    Field(1, t.start) + Field(2, t.size) + t.unknown
  }

  /**
  The bytes left after one field value of an unknown field, following the wire types of the
  Protocol Buffers encoding: varint, 64-bit, length-delimited, group, 32-bit.
  */
  function SkipValue(number: nat, wireType: nat, b: seq<Byte>, depth: nat): (r: Parsed)
    ensures r.Parsed? ==> |r.rest| <= |b|
    decreases |b|, 1
  {
    if wireType == 0 then ReadVarint(b)
    else if wireType == 1 then Skip(b, 8)
    else if wireType == 2 then
      match ReadVarint(b)
      case Malformed => Malformed
      case Parsed(n, rest) => Skip(rest, n)
    else if wireType == 3 && depth > 0 then SkipGroup(number, b, depth)
    else if wireType == 5 then Skip(b, 4)
    else Malformed
  }

  function Skip(b: seq<Byte>, n: nat): Parsed {
    if n <= |b| then Parsed(n, b[n..]) else Malformed
  }

  function SkipGroup(number: nat, b: seq<Byte>, depth: nat): (r: Parsed)
    requires depth > 0
    ensures r.Parsed? ==> |r.rest| <= |b|
    decreases |b|, 0
  {
    match ReadVarint(b)
    case Malformed => Malformed
    case Parsed(tag, rest) =>
      if !(1 <= tag / 8 <= 0x7FFF_FFFF) then Malformed
      else if tag % 8 == 4 then (if tag / 8 == number then Parsed(0, rest) else Malformed)
      else
        match SkipValue(tag / 8, tag % 8, rest, depth - 1)
        case Malformed => Malformed
        case Parsed(_, after) => SkipGroup(number, after, depth)
  }

  const GROUP_DEPTH: nat := 10001
  const MAX_FIELD_NUMBER: nat := 0x1FFF_FFFF

  /**
  Reads fields until the bytes are used up. The last occurrence of a field wins, and a field
  whose number or wire type the schema does not know is kept verbatim behind a canonical tag.
  */
  function UnmarshalInto(b: seq<Byte>, t: PageToken): Option<PageToken>
    decreases |b|
  {
    if b == [] then Some(t)
    else
      match ReadVarint(b)
      case Malformed => None
      case Parsed(tag, rest) =>
        if !(1 <= tag / 8 <= MAX_FIELD_NUMBER) then None
        else if tag == 8 || tag == 16 then
          match ReadVarint(rest)
          case Malformed => None
          case Parsed(v, after) =>
            UnmarshalInto(after, if tag == 8 then t.(start := ToInt64(v)) else t.(size := ToInt32(v)))
        else
          match SkipValue(tag / 8, tag % 8, rest, GROUP_DEPTH)
          case Malformed => None
          case Parsed(_, after) =>
            UnmarshalInto(after, t.(unknown := t.unknown + Varint(tag) + rest[..|rest| - |after|]))
  }

  function Unmarshal(b: seq<Byte>): Option<PageToken> {
    UnmarshalInto(b, PageToken(0, 0, []))
  }

  /** `PageToken.Encode` */
  function EncodeToken(t: PageToken): string {
    Encode(Marshal(t))
  }

  /** `DecodePageToken` */
  function DecodeToken(s: string): Option<PageToken> {
    var bytes := Decode(s);
    if bytes.None? then None else Unmarshal(bytes.value)
  }

  // ---------------------------------------------------------------- round trip

  /** Reading the two's-complement bits back at either width restores the number. */
  lemma WidthsRestore(x: Int64)
    ensures ToInt64(ToUint64(x)) == x
    ensures -0x8000_0000 <= x < 0x8000_0000 ==> ToInt32(ToUint64(x)) == x
  {
    if x < 0 {
      assert ToUint64(x) == x + TWO_64;
      assert TWO_64 == TWO_32 * TWO_32;
      if -0x8000_0000 <= x {
        assert (x + TWO_64) % TWO_32 == x + TWO_32;
      }
    }
  }

  /** A field that was written is read back as the next field; an omitted one changes nothing. */
  lemma FieldRoundTrip(number: nat, x: Int64, rest: seq<Byte>, t: PageToken)
    requires number == 1 || number == 2
    requires number == 2 ==> -0x8000_0000 <= x < 0x8000_0000
    requires x == 0 ==> if number == 1 then t.start == 0 else t.size == 0
    ensures UnmarshalInto(Field(number, x) + rest, t)
         == UnmarshalInto(rest, if number == 1 then t.(start := x) else t.(size := x))
  {
    if x == 0 {
      assert Field(number, x) + rest == rest;
    } else {
      var v := ToUint64(x);
      var b := Field(number, x) + rest;
      assert b == [number * 8] + (Varint(v) + rest);
      assert ReadVarint(b) == Parsed(number * 8, Varint(v) + rest) by {
        assert b[1..] == Varint(v) + rest;
      }
      LimitIsTwo64();
      ReadVarintVarint(v, rest, 0);
      WidthsRestore(x);
    }
  }

  lemma UnmarshalMarshal(start: Int64, size: Int32)
    ensures Unmarshal(Marshal(PageToken(start, size, []))) == Some(PageToken(start, size, []))
  {
    var t := PageToken(0, 0, []);
    assert Marshal(PageToken(start, size, [])) == Field(1, start) + (Field(2, size) + []);
    FieldRoundTrip(1, start, Field(2, size) + [], t);
    FieldRoundTrip(2, size, [], t.(start := start));
  }

  /**
  Every token round-trips, negative and omitted zero fields included, and the only token whose
  text is empty is the one with both fields zero: the text a client reads as "no more pages".
  */
  lemma TokenRoundTrip(start: Int64, size: Int32)
    ensures DecodeToken(EncodeToken(PageToken(start, size, []))) == Some(PageToken(start, size, []))
    ensures EncodeToken(PageToken(start, size, [])) == "" <==> start == 0 && size == 0
  {
    var t := PageToken(start, size, []);
    RoundTrip(Marshal(t));
    UnmarshalMarshal(start, size);
    assert Marshal(t) == [] <==> Field(1, start) == [] && Field(2, size) == [];
  }
}
