/** The wire format of page tokens: what is written, and what any other input is read as. */
module TokenLaws {
  import opened Wrappers
  import opened Base64Url
  import opened PageTokens

  // ---------------------------------------------------------------- what is written

  /** Tags, varints and sign extension, byte by byte. */
  lemma Written()
    ensures Marshal(PageToken(50, 7, [])) == [8, 50, 16, 7]
    ensures Marshal(PageToken(0, 7, [])) == [16, 7] && Marshal(PageToken(50, 0, [])) == [8, 50]
    ensures Marshal(PageToken(300, 0, [])) == [8, 172, 2]
    ensures Marshal(PageToken(0, 0, [])) == []
  {
    assert Varint(8) == [8] && Varint(16) == [16] && Varint(50) == [50] && Varint(7) == [7];
    assert 300 % 128 + 128 == 172 && 300 / 128 == 2;
    assert Varint(300) == [172] + Varint(2) == [172, 2];
  }

  lemma SevenOnes(v: nat)
    requires v > 0
    ensures Varint(128 * v + 127) == [255] + Varint(v)
  {
  }

  /** Minus one, of either width, takes ten bytes. */
  lemma MinusOneWritten()
    ensures Marshal(PageToken(-1, 0, [])) == [8, 255, 255, 255, 255, 255, 255, 255, 255, 255, 1]
    ensures Marshal(PageToken(0, -1, [])) == [16, 255, 255, 255, 255, 255, 255, 255, 255, 255, 1]
  {
    assert ToUint64(-1) == 0xFFFF_FFFF_FFFF_FFFF;
    AllOnes();
    SmallVarints();
    hide Varint;
  }

  lemma SmallVarints()
    ensures Varint(1) == [1] && Varint(8) == [8] && Varint(16) == [16]
  {
  }

  lemma AllOnes()
    ensures Varint(0xFFFF_FFFF_FFFF_FFFF) == [255, 255, 255, 255, 255, 255, 255, 255, 255, 1]
  {
    hide Varint;
    SmallVarints();
    SevenOnes(1);
    SevenOnes(0xFF);
    SevenOnes(0x7FFF);
    SevenOnes(0x3F_FFFF);
    SevenOnes(0x1FFF_FFFF);
    SevenOnes(0xF_FFFF_FFFF);
    SevenOnes(0x7FF_FFFF_FFFF);
    SevenOnes(0x3_FFFF_FFFF_FFFF);
    SevenOnes(0x1FF_FFFF_FFFF_FFFF);
  }

  // ---------------------------------------------------------------- reading

  lemma Associative(a: seq<Byte>, b: seq<Byte>, c: seq<Byte>)
    ensures a + b + c == a + (b + c)
  {
  }

  /** Read in front of anything, `head` is a varint with this value. */
  ghost predicate IsVarint(head: seq<Byte>, index: nat, v: nat)
    requires index <= 9
  {
    forall more :: ReadVarint(head + more, index) == Parsed(v, more)
  }

  lemma VarintStep(first: Byte, rest: seq<Byte>, index: nat)
    requires index < 9
    ensures ReadVarint([first] + rest, index)
         == if first < 128 then Parsed(first, rest)
            else match ReadVarint(rest, index + 1)
                 case Malformed => Malformed
                 case Parsed(v, more) => Parsed(first - 128 + 128 * v, more)
  {
    assert ([first] + rest)[1..] == rest;
  }

  lemma LastStep(first: Byte, rest: seq<Byte>)
    ensures ReadVarint([first] + rest, 9) == if first < 2 then Parsed(first, rest) else Malformed
  {
    assert ([first] + rest)[1..] == rest;
  }

  lemma {:induction false} VarintSplits(b: seq<Byte>, index: nat) returns (head: seq<Byte>)
    requires index <= 9 && ReadVarint(b, index).Parsed?
    ensures b == head + ReadVarint(b, index).rest && IsVarint(head, index, ReadVarint(b, index).value)
    decreases 9 - index
  {
    assert b == [b[0]] + b[1..];
    hide ReadVarint;
    if index == 9 {
      LastStep(b[0], b[1..]);
      head := [b[0]];
      forall more
        ensures ReadVarint(head + more, index) == Parsed(b[0], more)
      {
        LastStep(b[0], more);
      }
    } else if b[0] < 128 {
      VarintStep(b[0], b[1..], index);
      head := [b[0]];
      forall more
        ensures ReadVarint(head + more, index) == Parsed(b[0], more)
      {
        VarintStep(b[0], more, index);
      }
    } else {
      VarintStep(b[0], b[1..], index);
      var tail := VarintSplits(b[1..], index + 1);
      head := [b[0]] + tail;
      var v := ReadVarint(b[1..], index + 1).value;
      Associative([b[0]], tail, ReadVarint(b, index).rest);
      LongerIsVarint(b[0], tail, index, v);
    }
  }

  lemma LongerIsVarint(first: Byte, tail: seq<Byte>, index: nat, v: nat)
    requires index < 9 && first >= 128 && IsVarint(tail, index + 1, v)
    ensures IsVarint([first] + tail, index, first - 128 + 128 * v)
  {
    forall more
      ensures ReadVarint([first] + tail + more, index) == Parsed(first - 128 + 128 * v, more)
    {
      hide ReadVarint;
      Associative([first], tail, more);
      VarintReads(tail, index + 1, v, more);
      VarintStep(first, tail + more, index);
    }
  }

  lemma VarintReads(head: seq<Byte>, index: nat, v: nat, more: seq<Byte>)
    requires index <= 9 && IsVarint(head, index, v)
    ensures ReadVarint(head + more, index) == Parsed(v, more)
  {
    hide ReadVarint;
  }

  /** Read in front of anything, `head` is one value of this wire type. */
  ghost predicate IsValue(number: nat, wireType: nat, depth: nat, head: seq<Byte>) {
    forall more :: SkipsTo(SkipValue(number, wireType, head + more, depth), more)
  }

  ghost predicate IsGroup(number: nat, depth: nat, head: seq<Byte>)
    requires depth > 0
  {
    forall more :: SkipsTo(SkipGroup(number, head + more, depth), more)
  }

  predicate SkipsTo(r: Parsed, rest: seq<Byte>) {
    r.Parsed? && r.rest == rest
  }

  lemma ValueSkips(number: nat, wireType: nat, depth: nat, head: seq<Byte>, more: seq<Byte>)
    requires IsValue(number, wireType, depth, head)
    ensures SkipsTo(SkipValue(number, wireType, head + more, depth), more)
  {
    hide SkipValue;
  }

  lemma GroupSkips(number: nat, depth: nat, head: seq<Byte>, more: seq<Byte>)
    requires depth > 0 && IsGroup(number, depth, head)
    ensures SkipsTo(SkipGroup(number, head + more, depth), more)
  {
    hide SkipGroup;
  }

  lemma {:induction false} ValueSplits(number: nat, wireType: nat, b: seq<Byte>, depth: nat) returns (head: seq<Byte>)
    requires SkipValue(number, wireType, b, depth).Parsed?
    ensures b == head + SkipValue(number, wireType, b, depth).rest && IsValue(number, wireType, depth, head)
    decreases |b|, 1
  {
    hide ReadVarint, SkipGroup;
    if wireType == 0 {
      head := VarintSplits(b, 0);
      forall more
        ensures SkipsTo(SkipValue(number, wireType, head + more, depth), more)
      {
        VarintReads(head, 0, ReadVarint(b).value, more);
      }
    } else if wireType == 1 {
      head := b[..8];
      FixedIsValue(number, 1, head, depth);
    } else if wireType == 2 {
      head := BytesSplit(number, b, depth);
    } else if wireType == 3 {
      head := GroupSplits(number, b, depth);
      forall more
        ensures SkipsTo(SkipValue(number, wireType, head + more, depth), more)
      {
        GroupSkips(number, depth, head, more);
      }
    } else {
      head := b[..4];
      FixedIsValue(number, 5, head, depth);
    }
  }

  lemma FixedIsValue(number: nat, wireType: nat, head: seq<Byte>, depth: nat)
    requires (wireType == 1 && |head| == 8) || (wireType == 5 && |head| == 4)
    ensures IsValue(number, wireType, depth, head)
  {
    forall more
      ensures SkipsTo(SkipValue(number, wireType, head + more, depth), more)
    {
      assert (head + more)[|head|..] == more;
    }
  }

  lemma BytesStep(number: nat, b: seq<Byte>, depth: nat)
    ensures SkipValue(number, 2, b, depth)
         == var n := ReadVarint(b); if n.Malformed? then Malformed else Skip(n.rest, n.value)
  {
  }

  lemma BytesSplit(number: nat, b: seq<Byte>, depth: nat) returns (head: seq<Byte>)
    requires SkipValue(number, 2, b, depth).Parsed?
    ensures b == head + SkipValue(number, 2, b, depth).rest && IsValue(number, 2, depth, head)
  {
    hide SkipValue, ReadVarint;
    BytesStep(number, b, depth);
    var n := ReadVarint(b);
    var length := VarintSplits(b, 0);
    var content := n.rest[..n.value];
    head := length + content;
    Associative(length, content, n.rest[n.value..]);
    assert n.rest == content + n.rest[n.value..];
    forall more
      ensures SkipsTo(SkipValue(number, 2, head + more, depth), more)
    {
      Associative(length, content, more);
      VarintReads(length, 0, n.value, content + more);
      BytesStep(number, length + (content + more), depth);
      assert (content + more)[n.value..] == more;
    }
  }

  lemma GroupStep(number: nat, b: seq<Byte>, depth: nat)
    requires depth > 0
    ensures SkipGroup(number, b, depth)
         == var tag := ReadVarint(b);
            if tag.Malformed? || !(1 <= tag.value / 8 <= 0x7FFF_FFFF) then Malformed
            else if tag.value % 8 == 4 then (if tag.value / 8 == number then Parsed(0, tag.rest) else Malformed)
            else
              var value := SkipValue(tag.value / 8, tag.value % 8, tag.rest, depth - 1);
              if value.Malformed? then Malformed else SkipGroup(number, value.rest, depth)
  {
  }

  lemma {:induction false} GroupSplits(number: nat, b: seq<Byte>, depth: nat) returns (head: seq<Byte>)
    requires depth > 0 && SkipGroup(number, b, depth).Parsed?
    ensures b == head + SkipGroup(number, b, depth).rest && IsGroup(number, depth, head)
    decreases |b|, 0
  {
    hide SkipGroup, SkipValue, ReadVarint, IsValue, IsVarint, IsGroup;
    GroupStep(number, b, depth);
    var tag := ReadVarint(b);
    var first := VarintSplits(b, 0);
    if tag.value % 8 == 4 {
      head := first;
      EndIsGroup(number, depth, first, tag.value);
    } else {
      var value := SkipValue(tag.value / 8, tag.value % 8, tag.rest, depth - 1);
      var second := ValueSplits(tag.value / 8, tag.value % 8, tag.rest, depth - 1);
      var third := GroupSplits(number, value.rest, depth);
      head := first + (second + third);
      var rest := SkipGroup(number, value.rest, depth).rest;
      Associative(second, third, rest);
      Associative(first, second + third, rest);
      FieldIsGroup(number, depth, first, second, third, tag.value);
    }
  }

  lemma EndIsGroup(number: nat, depth: nat, head: seq<Byte>, tag: nat)
    requires depth > 0 && IsVarint(head, 0, tag) && tag % 8 == 4 && tag / 8 == number && 1 <= tag / 8 <= 0x7FFF_FFFF
    ensures IsGroup(number, depth, head)
  {
    hide SkipGroup, ReadVarint;
    forall more
      ensures SkipsTo(SkipGroup(number, head + more, depth), more)
    {
      VarintReads(head, 0, tag, more);
      GroupStep(number, head + more, depth);
    }
  }

  lemma FieldIsGroup(number: nat, depth: nat, first: seq<Byte>, second: seq<Byte>, third: seq<Byte>, tag: nat)
    requires depth > 0 && IsVarint(first, 0, tag) && tag % 8 != 4 && 1 <= tag / 8 <= 0x7FFF_FFFF
    requires IsValue(tag / 8, tag % 8, depth - 1, second) && IsGroup(number, depth, third)
    ensures IsGroup(number, depth, first + (second + third))
  {
    forall more
      ensures SkipsTo(SkipGroup(number, first + (second + third) + more, depth), more)
    {
      FieldSkips(number, depth, first, second, third, tag, more);
    }
  }

  lemma FieldSkips(number: nat, depth: nat, first: seq<Byte>, second: seq<Byte>, third: seq<Byte>, tag: nat,
                   more: seq<Byte>)
    requires depth > 0 && IsVarint(first, 0, tag) && tag % 8 != 4 && 1 <= tag / 8 <= 0x7FFF_FFFF
    requires IsValue(tag / 8, tag % 8, depth - 1, second) && IsGroup(number, depth, third)
    ensures SkipsTo(SkipGroup(number, first + (second + third) + more, depth), more)
  {
    hide SkipGroup, SkipValue, ReadVarint, IsValue, IsVarint, IsGroup;
    Associative(first, second + third, more);
    Associative(second, third, more);
    VarintReads(first, 0, tag, second + (third + more));
    GroupStep(number, first + (second + (third + more)), depth);
    ValueSkips(tag / 8, tag % 8, depth - 1, second, third + more);
    GroupSkips(number, depth, third, more);
  }

  // ---------------------------------------------------------------- unknown fields

  /** Read in front of anything, `u` only adds itself to the unknown fields. */
  ghost predicate Kept(u: seq<Byte>) {
    forall more, t :: UnmarshalInto(u + more, t) == UnmarshalInto(more, t.(unknown := t.unknown + u))
  }

  lemma KeptReads(u: seq<Byte>, more: seq<Byte>, t: PageToken)
    requires Kept(u)
    ensures UnmarshalInto(u + more, t) == UnmarshalInto(more, t.(unknown := t.unknown + u))
  {
    hide UnmarshalInto;
  }

  lemma KeptConcat(a: seq<Byte>, b: seq<Byte>)
    requires Kept(a) && Kept(b)
    ensures Kept(a + b)
  {
    forall more, t
      ensures UnmarshalInto(a + b + more, t) == UnmarshalInto(more, t.(unknown := t.unknown + (a + b)))
    {
      BothKept(a, b, more, t);
    }
  }

  lemma BothKept(a: seq<Byte>, b: seq<Byte>, more: seq<Byte>, t: PageToken)
    requires Kept(a) && Kept(b)
    ensures UnmarshalInto(a + b + more, t) == UnmarshalInto(more, t.(unknown := t.unknown + (a + b)))
  {
    hide UnmarshalInto, Kept;
    Associative(a, b, more);
    var t1 := t.(unknown := t.unknown + a);
    KeptReads(a, b + more, t);
    KeptReads(b, more, t1);
    Associative(t.unknown, a, b);
  }

  lemma UnknownStep(b: seq<Byte>, tag: nat, rest: seq<Byte>, t: PageToken)
    requires ReadVarint(b) == Parsed(tag, rest) && 1 <= tag / 8 <= MAX_FIELD_NUMBER && tag != 8 && tag != 16
    requires SkipValue(tag / 8, tag % 8, rest, GROUP_DEPTH).Parsed?
    ensures var after := SkipValue(tag / 8, tag % 8, rest, GROUP_DEPTH).rest;
            UnmarshalInto(b, t)
            == UnmarshalInto(after, t.(unknown := t.unknown + Varint(tag) + rest[..|rest| - |after|]))
  {
    hide ReadVarint, SkipValue;
  }

  /** A field the schema does not know, by number or by wire type, is kept. */
  lemma UnknownIsKept(tag: nat, value: seq<Byte>)
    requires 1 <= tag / 8 <= 0x1FFF_FFFF && tag != 8 && tag != 16 && IsValue(tag / 8, tag % 8, 10001, value)
    ensures Kept(Varint(tag) + value)
  {
    forall more, t
      ensures UnmarshalInto(Varint(tag) + value + more, t)
           == UnmarshalInto(more, t.(unknown := t.unknown + (Varint(tag) + value)))
    {
      OneUnknown(tag, value, more, t);
    }
  }

  lemma OneUnknown(tag: nat, value: seq<Byte>, more: seq<Byte>, t: PageToken)
    requires 1 <= tag / 8 <= MAX_FIELD_NUMBER && tag != 8 && tag != 16 && IsValue(tag / 8, tag % 8, GROUP_DEPTH, value)
    ensures UnmarshalInto(Varint(tag) + value + more, t)
         == UnmarshalInto(more, t.(unknown := t.unknown + (Varint(tag) + value)))
  {
    hide SkipValue, ReadVarint, UnmarshalInto, IsValue, Varint;
    Associative(Varint(tag), value, more);
    LimitIsTwo64();
    ReadVarintVarint(tag, value + more, 0);
    ValueSkips(tag / 8, tag % 8, GROUP_DEPTH, value, more);
    UnknownStep(Varint(tag) + (value + more), tag, value + more, t);
    assert (value + more)[..|value + more| - |more|] == value;
    Associative(t.unknown, Varint(tag), value);
  }

  lemma {:induction false} UnmarshalKeeps(b: seq<Byte>, t: PageToken)
    requires Kept(t.unknown) && UnmarshalInto(b, t).Some?
    ensures Kept(UnmarshalInto(b, t).value.unknown)
    decreases |b|
  {
    hide Kept, SkipValue, ReadVarint, Varint;
    if b == [] {
    } else {
      var tag := ReadVarint(b);
      if tag.value == 8 || tag.value == 16 {
        var v := ReadVarint(tag.rest);
        UnmarshalKeeps(v.rest, if tag.value == 8 then t.(start := ToInt64(v.value)) else t.(size := ToInt32(v.value)));
      } else {
        var after := SkipValue(tag.value / 8, tag.value % 8, tag.rest, GROUP_DEPTH).rest;
        var value := ValueSplits(tag.value / 8, tag.value % 8, tag.rest, GROUP_DEPTH);
        assert tag.rest[..|tag.rest| - |after|] == value;
        UnknownIsKept(tag.value, value);
        KeptConcat(t.unknown, Varint(tag.value) + value);
        Associative(t.unknown, Varint(tag.value), value);
        UnmarshalKeeps(after, t.(unknown := t.unknown + Varint(tag.value) + value));
      }
    }
  }

  /**
  Whatever text a client presents: if it decodes at all, encoding the token it decodes to and decoding
  that again gives the same token, unknown fields included.
  */
  lemma ReencodeIsStable(text: string)
    requires DecodeToken(text).Some?
    ensures DecodeToken(EncodeToken(DecodeToken(text).value)) == DecodeToken(text)
  {
    hide Decode, Encode, UnmarshalInto, Marshal;
    var t := DecodeToken(text).value;
    NothingIsKept();
    UnmarshalKeeps(Decode(text).value, PageToken(0, 0, []));
    RoundTrip(Marshal(t));
    RemarshalReads(t);
  }

  lemma RemarshalReads(t: PageToken)
    requires Kept(t.unknown)
    ensures Unmarshal(Marshal(t)) == Some(t)
  {
    hide UnmarshalInto, Field, Kept;
    var zero := PageToken(0, 0, []);
    assert Marshal(t) == Field(1, t.start) + (Field(2, t.size) + t.unknown);
    FieldRoundTrip(1, t.start, Field(2, t.size) + t.unknown, zero);
    FieldRoundTrip(2, t.size, t.unknown, PageToken(t.start, 0, []));
    UnknownAlone(t);
  }

  lemma NothingIsKept()
    ensures Kept([])
  {
    hide UnmarshalInto;
    forall more: seq<Byte>, t: PageToken
      ensures UnmarshalInto([] + more, t) == UnmarshalInto(more, t.(unknown := t.unknown + []))
    {
      assert [] + more == more && t.unknown + [] == t.unknown;
    }
  }

  lemma UnknownAlone(t: PageToken)
    requires Kept(t.unknown)
    ensures UnmarshalInto(t.unknown, PageToken(t.start, t.size, [])) == Some(t)
  {
    hide Kept;
    assert t.unknown + [] == t.unknown && [] + t.unknown == t.unknown;
    KeptReads(t.unknown, [], PageToken(t.start, t.size, []));
  }

  // ---------------------------------------------------------------- more than one field, and none

  /** Of several occurrences of a field the last one counts, however large the number: the low bits are taken. */
  lemma LastOneWins(number: nat, v: nat, w: nat, rest: seq<Byte>, t: PageToken)
    requires (number == 1 || number == 2) && v < TWO_64 && w < TWO_64
    ensures UnmarshalInto([number * 8] + Varint(v) + ([number * 8] + Varint(w) + rest), t)
         == UnmarshalInto([number * 8] + Varint(w) + rest, t)
    ensures UnmarshalInto([8] + Varint(w) + rest, t)
         == UnmarshalInto(rest, t.(start := if w < 0x8000_0000_0000_0000 then w else w - 0x1_0000_0000_0000_0000))
    ensures UnmarshalInto([16] + Varint(w) + rest, t)
         == UnmarshalInto(rest, t.(size := if w % 0x1_0000_0000 < 0x8000_0000 then w % 0x1_0000_0000
                                           else w % 0x1_0000_0000 - 0x1_0000_0000))
  {
    hide UnmarshalInto, Varint;
    KnownField(1, w, rest, t);
    KnownField(2, w, rest, t);
    OverwritesField(number, v, w, rest, t);
  }

  lemma OverwritesField(number: nat, v: nat, w: nat, rest: seq<Byte>, t: PageToken)
    requires (number == 1 || number == 2) && v < TWO_64 && w < TWO_64
    ensures UnmarshalInto([number * 8] + Varint(v) + ([number * 8] + Varint(w) + rest), t)
         == UnmarshalInto([number * 8] + Varint(w) + rest, t)
  {
    hide UnmarshalInto, Varint, ToInt64, ToInt32;
    KnownField(number, w, rest, t);
    KnownField(number, v, [number * 8] + Varint(w) + rest, t);
    KnownField(number, w, rest, if number == 1 then t.(start := ToInt64(v)) else t.(size := ToInt32(v)));
  }

  lemma KnownField(number: nat, v: nat, rest: seq<Byte>, t: PageToken)
    requires (number == 1 || number == 2) && v < TWO_64
    ensures UnmarshalInto([number * 8] + Varint(v) + rest, t)
         == UnmarshalInto(rest, if number == 1 then t.(start := ToInt64(v)) else t.(size := ToInt32(v)))
  {
    var b := [number * 8] + Varint(v) + rest;
    assert b[1..] == Varint(v) + rest;
    LimitIsTwo64();
    ReadVarintVarint(v, rest, 0);
  }

  /** Input that is refused: a number that is cut off, */
  lemma CutOffRefused(t: PageToken)
    ensures UnmarshalInto([8], t).None? && UnmarshalInto([8, 128], t).None? && UnmarshalInto([128], t).None?
  {
    assert [8][1..] == [] && [8, 128][1..] == [128] && [128][1..] == [];
    assert ReadVarint([8]) == Parsed(8, []) && ReadVarint([8, 128]) == Parsed(8, [128]);
  }

  lemma ShortTag(tag: Byte, rest: seq<Byte>)
    requires tag < 128
    ensures ReadVarint([tag] + rest) == Parsed(tag, rest)
  {
    assert ([tag] + rest)[1..] == rest;
  }

  /** field number 0, an end of a group, a wire type that does not exist, and a value that is cut off. */
  lemma TagRefused(tag: Byte, rest: seq<Byte>, t: PageToken)
    requires tag < 128
    requires || tag < 8 || tag % 8 == 4 || tag % 8 >= 6
             || (tag % 8 == 1 && |rest| < 8) || (tag % 8 == 5 && |rest| < 4)
    ensures UnmarshalInto([tag] + rest, t).None?
  {
    hide ReadVarint, SkipGroup;
    ShortTag(tag, rest);
  }

  /** A field number that is 0 or has more than 29 bits is refused, whatever its wire type. */
  lemma NumberRefused(tag: nat, rest: seq<Byte>, t: PageToken)
    requires tag < TWO_64 && !(1 <= tag / 8 <= 0x1FFF_FFFF)
    ensures UnmarshalInto(Varint(tag) + rest, t).None?
  {
    hide Varint, SkipValue;
    LimitIsTwo64();
    ReadVarintVarint(tag, rest, 0);
    assert Varint(tag) + rest != [] by {
      hide UnmarshalInto;
      assert ReadVarint([]).Malformed?;
    }
    hide ReadVarint;
  }

  /** A number of more than 64 bits is refused; one with superfluous bytes is not. */
  lemma TooLarge(rest: seq<Byte>)
    ensures ReadVarint([255, 255, 255, 255, 255, 255, 255, 255, 255, 2] + rest).Malformed?
    ensures ReadVarint([129, 0] + rest) == Parsed(1, rest)
  {
    var b := [255, 255, 255, 255, 255, 255, 255, 255, 255, 2] + rest;
    AfterMany(b, 0);
    assert ([129, 0] + rest)[1..] == [0] + rest && ([0] + rest)[1..] == rest;
    assert ReadVarint([0] + rest, 1) == Parsed(0, rest);
  }

  lemma {:induction false} AfterMany(b: seq<Byte>, index: nat)
    requires index <= 9 && |b| >= 10 - index && b[9 - index] == 2
    requires forall i :: 0 <= i < 9 - index ==> b[i] == 255
    ensures ReadVarint(b, index).Malformed?
    decreases 9 - index
  {
    if index == 9 {
    } else {
      AfterMany(b[1..], index + 1);
    }
  }

  /** The empty text is the token with both fields zero. */
  lemma EmptyTextIsZero()
    ensures DecodeToken("") == Some(PageToken(0, 0, []))
  {
  }
}
