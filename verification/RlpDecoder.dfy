/** An RLP decoder over bytes, and its agreement with the encoding of Appendix B of the Ethereum Yellow Paper. */
module RlpDecoder {
  import opened Seqs
  import opened Schema
  import opened Rlp
  import opened RlpScanner

  function Left(data: Bytes, pos: nat): nat { if pos < |data| then |data| - pos else 0 }

  /** The shortest form was used: no prefix for a single low byte, no long form below 56 bytes. */
  predicate Canonical(data: Bytes, pos: nat, l: Length)
    requires pos + l.total <= |data| && 0 < l.total && l.content <= l.total
  {
    && (data[pos] == 0x81 && l == Length(1, 2) ==> data[pos + 1] >= 0x80)
    && ((0xb7 < data[pos] <= 0xbf || 0xf7 < data[pos]) ==> l.content >= 56)
  }

  /** The item whose encoding starts at pos. */
  function Item(data: Bytes, pos: nat): Option<Rlp>
    decreases Left(data, pos), 0
  {
    var l :- LengthAt(data, pos);
    if pos + l.total > |data| || !Canonical(data, pos, l) then None
    else if data[pos] < 0xc0 then Some(Str(data[pos + l.total - l.content..pos + l.total]))
    else
      var items :- ItemsIn(data, pos + l.total - l.content, pos + l.total);
      Some(List(items))
  }

  /** The items that fill pos..end. */
  function ItemsIn(data: Bytes, pos: nat, end: nat): Option<seq<Rlp>>
    decreases Left(data, pos), 1
  {
    if pos >= end then Some([]) else
      var l :- LengthAt(data, pos);
      if pos + l.total > end then None else
        var x :- Item(data, pos);
        var rest :- ItemsIn(data, pos + l.total, end);
        Some([x] + rest)
  }

  // ---- decoding inverts encoding ----

  lemma CanonicalEncoding(data: Bytes, pos: nat, x: Rlp)
    requires Encode(x).Some? && At(data, pos, Encode(x).value) && |data| <= USIZE_MAX
    requires LengthAt(data, pos) == Some(Length(PayloadLength(x), |Encode(x).value|))
    ensures Canonical(data, pos, Length(PayloadLength(x), |Encode(x).value|))
    ensures data[pos] < 0xc0 <==> x.Str?
  {
    hide LengthAt, Flat, EncodeItems;
    var e := Encode(x).value;
    ByteAt(data, pos, e);
    FirstByte(x);
    if x.Str? && |x.bytes| == 1 && x.bytes[0] >= 0x80 {
      AtPart(data, pos, [0x81], x.bytes);
      ByteAt(data, pos + 1, x.bytes);
    }
  }

  /** At any encoding, the decoder reads the item that was encoded. */
  lemma {:induction false} DecodesEncoding(data: Bytes, pos: nat, x: Rlp)
    requires Encode(x).Some? && At(data, pos, Encode(x).value) && |data| <= USIZE_MAX
    ensures Item(data, pos) == Some(x)
    decreases x, if x.List? then |x.items| + 1 else 0
  {
    hide LengthAt, Flat, Prefix, Canonical;
    LengthOfEncoding(data, pos, x);
    CanonicalEncoding(data, pos, x);
    match x
    case Str(b) => StringPayload(data, pos, x);
    case List(items) =>
      var s := Flatten(EncodeItems(x, |items|).value);
      var p := Prefix(0xc0, |s|).value;
      AtPart(data, pos, p, s);
      DecodesItems(data, pos + |p|, x, 0);
      NoOffset(EncodeItems(x, |items|).value);
  }

  lemma StringPayload(data: Bytes, pos: nat, x: Rlp)
    requires x.Str? && Encode(x).Some? && At(data, pos, Encode(x).value)
    ensures var end := pos + |Encode(x).value|; |x.bytes| <= end && data[end - |x.bytes|..end] == x.bytes
  {
    hide Prefix;
    var b := x.bytes;
    if !(|b| == 1 && b[0] < 0x80) {
      AtPart(data, pos, Prefix(0x80, |b|).value, b);
    }
  }

  lemma {:induction false} DecodesItems(data: Bytes, from: nat, x: Rlp, i: nat)
    requires x.List? && EncodeItems(x, |x.items|).Some? && i <= |x.items|
    requires At(data, from, Flatten(EncodeItems(x, |x.items|).value)) && |data| <= USIZE_MAX
    ensures var encs := EncodeItems(x, |x.items|).value;
      ItemsIn(data, from + Offset(encs, i), from + |Flatten(encs)|) == Some(x.items[i..])
    decreases x, |x.items| - i
  {
    hide LengthAt, Encode, EncodeItems, Flat, PayloadLength, Item;
    var encs := EncodeItems(x, |x.items|).value;
    if i < |x.items| {
      ItemAt(data, from, x, i);
      NonEmpty(x.items[i]);
      DecodesEncoding(data, from + Offset(encs, i), x.items[i]);
      DecodesItems(data, from, x, i + 1);
      assert x.items[i..] == [x.items[i]] + x.items[i + 1..];
    }
  }

  // ---- nothing else decodes ----

  /** The slices of the items that fill pos..end. */
  ghost predicate Cut(data: Bytes, pos: nat, end: nat, items: seq<Rlp>, encs: seq<Bytes>) {
    && pos <= end <= |data| && |encs| == |items| && Flatten(encs) == data[pos..end]
    && forall i :: 0 <= i < |items| ==> Encode(items[i]) == Some(encs[i])
  }

  lemma {:induction false} AllEncoded(x: Rlp, encs: seq<Bytes>, n: nat)
    requires x.List? && |encs| == |x.items| && n <= |encs|
    requires forall i :: 0 <= i < |encs| ==> Encode(x.items[i]) == Some(encs[i])
    ensures EncodeItems(x, n) == Some(encs[..n])
  {
    hide Encode;
    if n > 0 {
      AllEncoded(x, encs, n - 1);
      assert encs[..n] == encs[..n - 1] + [encs[n - 1]];
    }
  }

  /** The prefix of a canonical item is the one Appendix B gives its payload. */
  lemma PrefixCanonical(data: Bytes, pos: nat, l: Length)
    requires LengthAt(data, pos) == Some(l) && pos + l.total <= |data| && Canonical(data, pos, l) && data[pos] >= 0x80
    ensures Prefix(if data[pos] < 0xc0 then 0x80 else 0xc0, l.content) == Some(data[pos..pos + l.total - l.content])
  {
    hide BigEndian, FromBigEndian, LongLength, UintAt;
    var first := data[pos];
    var off: Byte := if first < 0xc0 then 0x80 else 0xc0;
    if first <= off + 55 {
      assert data[pos..pos + 1] == [first];
    } else {
      LongPrefixCanonical(data, pos, first - off - 55, l, off);
    }
  }

  lemma LongPrefixCanonical(data: Bytes, pos: nat, lol: nat, l: Length, off: Byte)
    requires (off == 0x80 || off == 0xc0) && pos < |data| && 0 < lol <= 8 && data[pos] == off + 55 + lol
    requires LongLength(data, pos, lol) == Some(l) && l.content >= 56 && pos + l.total <= |data|
    ensures l.total - l.content == 1 + lol && Prefix(off, l.content) == Some(data[pos..pos + 1 + lol])
  {
    hide LongLength, FromBigEndian;
    LongPrefix(data, pos, lol, l);
    var be := data[pos + 1..pos + 1 + lol];
    BigEndianUnique(be);
    assert data[pos..pos + 1 + lol] == [data[pos]] + be;
  }

  lemma LongPrefix(data: Bytes, pos: nat, lol: nat, l: Length)
    requires pos < |data| && 0 < lol && LongLength(data, pos, lol) == Some(l) && l.content >= 56
    ensures pos + 1 + lol <= |data| && l.total == 1 + lol + l.content
    ensures var be := data[pos + 1..pos + 1 + lol]; be[0] != 0 && FromBigEndian(be) == l.content
  {
    var be := data[pos + 1..pos + 1 + lol];
    ZeroByte();
    assert be != [0];
  }

  lemma ZeroByte()
    ensures FromBigEndian([0]) == 0
  {
    assert [0][..0] == [];
  }

  /** What the decoder accepts is the encoding of what it returns. */
  lemma {:induction false} OnlyEncodings(data: Bytes, pos: nat)
    requires Item(data, pos).Some?
    ensures var x, l := Item(data, pos).value, LengthAt(data, pos);
      l.Some? && pos + l.value.total <= |data| && Encode(x) == Some(data[pos..pos + l.value.total])
    decreases Left(data, pos), 0
  {
    hide LengthAt, Canonical, Prefix, Flat;
    var l, x := LengthAt(data, pos).value, Item(data, pos).value;
    var from, end := pos + l.total - l.content, pos + l.total;
    ContentFits(data, pos);
    if data[pos] < 0x80 {
      LowByte(data, pos);
    } else {
      PrefixCanonical(data, pos, l);
      assert data[pos..end] == data[pos..from] + data[from..end];
      if data[pos] < 0xc0 {
        ShortByte(data, pos, l);
      } else {
        var encs := OnlyItems(data, from, end);
        AllEncoded(x, encs, |encs|);
        assert encs[..|encs|] == encs;
      }
    }
  }

  lemma ContentFits(data: Bytes, pos: nat)
    requires LengthAt(data, pos).Some?
    ensures pos < |data| && (data[pos] >= 0x80 ==> LengthAt(data, pos).value.content < LengthAt(data, pos).value.total)
  {
  }

  lemma LowByte(data: Bytes, pos: nat)
    requires pos < |data| && data[pos] < 0x80
    ensures LengthAt(data, pos) == Some(Length(1, 1)) && Encode(Str(data[pos..pos + 1])) == Some(data[pos..pos + 1])
  {
  }

  /** A string with a prefix is not a single low byte. */
  lemma ShortByte(data: Bytes, pos: nat, l: Length)
    requires LengthAt(data, pos) == Some(l) && pos + l.total <= |data| && Canonical(data, pos, l)
    requires 0x80 <= data[pos] < 0xc0
    ensures var b := data[pos + l.total - l.content..pos + l.total]; !(|b| == 1 && b[0] < 0x80)
  {
  }

  lemma {:induction false} OnlyItems(data: Bytes, pos: nat, end: nat) returns (encs: seq<Bytes>)
    requires pos <= end <= |data| && ItemsIn(data, pos, end).Some?
    ensures Cut(data, pos, end, ItemsIn(data, pos, end).value, encs)
    decreases Left(data, pos), 1
  {
    hide LengthAt, Item, Encode, Flat;
    if pos >= end {
      encs := [];
      NoOffset(encs);
      assert data[pos..end] == [];
    } else {
      var next := pos + LengthAt(data, pos).value.total;
      OnlyEncodings(data, pos);
      var rest := OnlyItems(data, next, end);
      encs := [data[pos..next]] + rest;
      FlattenCons(data[pos..next], rest);
      assert data[pos..end] == data[pos..next] + data[next..end];
    }
  }

  // ---- records encoded as lists ----

  /** The fields of the list at the start of a buffer; what follows it is not looked at. */
  function Fields(buf: Bytes): Option<seq<Rlp>> {
    var x :- Item(buf, 0);
    if x.List? then Some(x.items) else None
  }

  /** A buffer holds a list of these fields exactly when it starts with that list's encoding. */
  lemma FieldsIff(buf: Bytes, items: seq<Rlp>)
    requires |buf| <= USIZE_MAX
    ensures Fields(buf) == Some(items) <==> exists n :: 0 <= n <= |buf| && Encode(List(items)) == Some(buf[..n])
  {
    hide Item, Encode, LengthAt;
    if Fields(buf) == Some(items) {
      OnlyEncodings(buf, 0);
      var n := LengthAt(buf, 0).value.total;
      assert buf[0..n] == buf[..n];
    }
    if n :| 0 <= n <= |buf| && Encode(List(items)) == Some(buf[..n]) {
      assert buf[0..n] == buf[..n];
      DecodesEncoding(buf, 0, List(items));
    }
  }

  /** Only a first byte of 0xc0 or more opens a list. */
  lemma ListOpens(buf: Bytes)
    requires Fields(buf).Some?
    ensures |buf| > 0 && buf[0] >= 0xc0
  {
    hide LengthAt, Encode;
    OnlyEncodings(buf, 0);
    FirstByte(Item(buf, 0).value);
    ContentFits(buf, 0);
  }

  /** The empty list is one byte, and no other list is that short. */
  lemma ListSize(items: seq<Rlp>)
    requires Encode(List(items)).Some?
    ensures if items == [] then Encode(List(items)) == Some([0xc0]) else |Encode(List(items)).value| >= 2
  {
    hide Flat, Encode, Prefix;
    var x := List(items);
    EncodedList(x);
    var encs := EncodeItems(x, |items|).value;
    NoOffset(encs);
    if items != [] {
      ItemsEncoded(x, |items|, 0);
      NonEmpty(items[0]);
      OffsetStep(encs, 0);
      FlatSplit(encs, 0, 1, |encs|);
    }
  }

  lemma EncodedList(x: Rlp)
    requires x.List? && Encode(x).Some?
    ensures EncodeItems(x, |x.items|).Some?
    ensures var s := Flatten(EncodeItems(x, |x.items|).value);
      Prefix(0xc0, |s|).Some? && |Prefix(0xc0, |s|).value| >= 1 && Encode(x) == Some(Prefix(0xc0, |s|).value + s)
    ensures x.items == [] ==> Encode(x) == Some([0xc0])
  {
    assert [0xc0] + [] == [0xc0];
  }
}
