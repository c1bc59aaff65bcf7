/** Byte ranges of the items of an RLP list, without decoding them (rlp_offset_scanner.rs). */
module RlpScanner {
  import opened Seqs
  import opened Schema
  import opened Rlp

  const USIZE_MAX: nat := 0xFFFF_FFFF_FFFF_FFFF

  datatype RangeRlp = RangeRlp(start: nat, end: nat)

  // ---- lengths ----

  function UintAt(bytes: Bytes): Option<nat> {
    if bytes == [] || (bytes[0] == 0 && |bytes| > 1) || FromBigEndian(bytes) > USIZE_MAX then None
    else Some(FromBigEndian(bytes))
  }

  lemma {:induction false} PrefixSmaller(bytes: Bytes, n: nat)
    requires n <= |bytes|
    ensures FromBigEndian(bytes[..n]) <= FromBigEndian(bytes)
    decreases |bytes| - n
  {
    if n < |bytes| {
      PrefixSmaller(bytes, n + 1);
      assert bytes[..n + 1][..n] == bytes[..n];
    } else {
      assert bytes[..n] == bytes;
    }
  }

  /** decode_uint: rejects empty input, leading zeros and values that do not fit. */
  method DecodeUint(bytes: Bytes) returns (r: Option<nat>)
    ensures r == UintAt(bytes)
  {
    if bytes == [] || (bytes[0] == 0 && |bytes| > 1) {
      return None;
    }
    var result := 0;
    for i := 0 to |bytes|
      invariant result == FromBigEndian(bytes[..i]) <= USIZE_MAX
    {
      assert bytes[..i + 1][..i] == bytes[..i];
      PrefixSmaller(bytes, i + 1);
      if result * 256 > USIZE_MAX || result * 256 + bytes[i] > USIZE_MAX {
        return None;
      }
      result := result * 256 + bytes[i];
    }
    assert bytes[..|bytes|] == bytes;
    return Some(result);
  }

  datatype Length = Length(content: nat, total: nat)

  function LongLength(data: Bytes, pos: nat, lol: nat): (r: Option<Length>)
    requires pos < |data| && 0 < lol
    ensures r.Some? ==> r.value.content < r.value.total <= USIZE_MAX
  {
    if |data| - pos < 1 + lol then None else
      var length :- UintAt(data[pos + 1..pos + 1 + lol]);
      if 1 + lol + length > USIZE_MAX then None else Some(Length(length, 1 + lol + length))
  }

  /** What the prefix at pos says: payload length and total length. */
  function LengthAt(data: Bytes, pos: nat): (r: Option<Length>)
    ensures r.Some? ==> r.value.content <= r.value.total <= USIZE_MAX && 0 < r.value.total
  {
    if pos >= |data| then None else
      var first := data[pos];
      if first <= 0x7f then Some(Length(1, 1))
      else if first <= 0xb7 then Some(Length(first - 0x80, first - 0x80 + 1))
      else if first <= 0xbf then LongLength(data, pos, first - 0xb7)
      else if first <= 0xf7 then Some(Length(first - 0xc0, first - 0xc0 + 1))
      else LongLength(data, pos, first - 0xf7)
  }

  method DecodeLength(data: Bytes, pos: nat) returns (r: Option<Length>)
    ensures r == LengthAt(data, pos)
  {
    if pos >= |data| {
      return None;
    }
    var first := data[pos];
    if first <= 0x7f {
      return Some(Length(1, 1));
    } else if first <= 0xb7 {
      return Some(Length(first - 0x80, first - 0x80 + 1));
    } else if 0xc0 <= first <= 0xf7 {
      return Some(Length(first - 0xc0, first - 0xc0 + 1));
    }
    var lol := if first <= 0xbf then first - 0xb7 else first - 0xf7;
    if |data| - pos < 1 + lol {
      return None;
    }
    var length := DecodeUint(data[pos + 1..pos + 1 + lol]);
    if length.None? || 1 + lol + length.value > USIZE_MAX {
      return None;
    }
    return Some(Length(length.value, 1 + lol + length.value));
  }

  // ---- ranges ----

  /** One range per item from pos, until `end` is reached. */
  function Scan(data: Bytes, pos: nat, end: nat): Option<seq<RangeRlp>>
    decreases if pos < end then end - pos else 0
  {
    if pos >= end then Some([]) else
      var item :- LengthAt(data, pos);
      var rest :- Scan(data, pos + item.total, end);
      Some([RangeRlp(pos, pos + item.total)] + rest)
  }

  function Glue(done: seq<RangeRlp>, rest: Option<seq<RangeRlp>>): Option<seq<RangeRlp>> {
    if rest.Some? then Some(done + rest.value) else None
  }

  lemma GlueNothing(done: seq<RangeRlp>, rest: Option<seq<RangeRlp>>)
    ensures Glue([], rest) == rest && Glue(done, Some([])) == Some(done)
  {
    assert done + [] == done;
    if rest.Some? {
      assert [] + rest.value == rest.value;
    }
  }

  lemma ScanOne(data: Bytes, done: seq<RangeRlp>, pos: nat, end: nat)
    requires pos < end && LengthAt(data, pos).Some?
    ensures var next := pos + LengthAt(data, pos).value.total;
      Glue(done, Scan(data, pos, end)) == Glue(done + [RangeRlp(pos, next)], Scan(data, next, end))
  {
    hide LengthAt;
    var next := pos + LengthAt(data, pos).value.total;
    var rest := Scan(data, next, end);
    if rest.Some? {
      assert done + ([RangeRlp(pos, next)] + rest.value) == done + [RangeRlp(pos, next)] + rest.value;
    }
  }

  method ScanItems(data: Bytes, from: nat, end: nat) returns (r: Option<seq<RangeRlp>>)
    ensures r == Scan(data, from, end)
  {
    hide LengthAt;
    var position, ranges := from, [];
    GlueNothing([], Scan(data, from, end));
    while position < end
      invariant Scan(data, from, end) == Glue(ranges, Scan(data, position, end))
      decreases if position < end then end - position else 0
    {
      var item := DecodeLength(data, position);
      if item.None? {
        return None;
      }
      ScanOne(data, ranges, position, end);
      ranges := ranges + [RangeRlp(position, position + item.value.total)];
      position := position + item.value.total;
    }
    GlueNothing(ranges, Some([]));
    return Some(ranges);
  }

  function ListRanges(data: Bytes, at: nat): Option<seq<RangeRlp>> {
    var list :- LengthAt(data, at);
    Scan(data, at + (list.total - list.content), at + list.total)
  }

  /** get_rlp_list_ranges */
  method GetListRanges(data: Bytes) returns (r: Option<seq<RangeRlp>>)
    ensures r == ListRanges(data, 0)
  {
    var list := DecodeLength(data, 0);
    if list.None? {
      return None;
    }
    var start := list.value.total - list.value.content;
    r := ScanItems(data, start, start + list.value.content);
  }

  /** Where the transaction list of a block starts: after the block's prefix and the header. */
  function TxListAt(block: Bytes): Option<nat> {
    var outer :- LengthAt(block, 0);
    var headerAt := outer.total - outer.content;
    var header :- LengthAt(block, headerAt);
    Some(headerAt + header.total)
  }

  method SkipHeader(block: Bytes) returns (r: Option<nat>)
    ensures r == TxListAt(block)
  {
    var outer := DecodeLength(block, 0);
    if outer.None? {
      return None;
    }
    var position := outer.value.total - outer.value.content;
    var header := DecodeLength(block, position);
    if header.None? {
      return None;
    }
    return Some(position + header.value.total);
  }

  function TransactionRanges(block: Bytes): Option<seq<RangeRlp>> {
    var at :- TxListAt(block);
    ListRanges(block, at)
  }

  /** get_transaction_ranges */
  method GetTransactionRanges(block: Bytes) returns (r: Option<seq<RangeRlp>>)
    ensures r == TransactionRanges(block)
  {
    var at := SkipHeader(block);
    if at.None? {
      return None;
    }
    var txs := DecodeLength(block, at.value);
    if txs.None? {
      return None;
    }
    var start := at.value + (txs.value.total - txs.value.content);
    r := ScanItems(block, start, start + txs.value.content);
  }

  // ---- all offsets ----

  datatype TxByteOffsets = TxByteOffsets(tx: RangeRlp, receipt: RangeRlp, trace: RangeRlp)

  function Shift(ranges: seq<RangeRlp>, base: nat): (r: seq<RangeRlp>)
    ensures |r| == |ranges|
  {
    seq(|ranges|, i requires 0 <= i < |ranges| => RangeRlp(ranges[i].start + base, ranges[i].end + base))
  }

  /** A length read in a slice is the length read in the whole. */
  lemma SliceLength(data: Bytes, lo: nat, hi: nat, pos: nat)
    requires lo <= hi <= |data| && LengthAt(data[lo..hi], pos).Some?
    ensures LengthAt(data, lo + pos) == LengthAt(data[lo..hi], pos)
  {
    var slice := data[lo..hi];
    var first := slice[pos];
    if 0xb7 < first <= 0xbf || 0xf7 < first {
      var lol := if first <= 0xbf then first - 0xb7 else first - 0xf7;
      SubSlice(data, lo, hi, pos + 1, pos + 1 + lol);
    }
  }

  lemma SubSlice(data: Bytes, lo: nat, hi: nat, a: nat, b: nat)
    requires lo <= hi <= |data| && a <= b <= hi - lo
    ensures data[lo..hi][a..b] == data[lo + a..lo + b]
  {
    var x, y := data[lo..hi][a..b], data[lo + a..lo + b];
    forall i | 0 <= i < |x| ensures x[i] == y[i] { assert x[i] == data[lo..hi][a + i]; }
  }

  lemma {:induction false} SliceScan(data: Bytes, lo: nat, hi: nat, pos: nat, end: nat)
    requires lo <= hi <= |data| && Scan(data[lo..hi], pos, end).Some?
    ensures Scan(data, lo + pos, lo + end) == Some(Shift(Scan(data[lo..hi], pos, end).value, lo))
    decreases if pos < end then end - pos else 0
  {
    hide LengthAt;
    if pos < end {
      SliceLength(data, lo, hi, pos);
      var total := LengthAt(data[lo..hi], pos).value.total;
      SliceScan(data, lo, hi, pos + total, end);
      assert lo + (pos + total) == (lo + pos) + total;
      var rest := Scan(data[lo..hi], pos + total, end).value;
      assert Shift([RangeRlp(pos, pos + total)] + rest, lo) == [RangeRlp(lo + pos, lo + pos + total)] + Shift(rest, lo);
    }
  }

  /** Ranges found in the slice of the transaction list, rebased, are the ranges found in the block. */
  lemma RebasedRanges(block: Bytes, at: nat, hi: nat)
    requires at <= hi <= |block| && ListRanges(block[at..hi], 0).Some?
    ensures ListRanges(block, at) == Some(Shift(ListRanges(block[at..hi], 0).value, at))
  {
    hide LengthAt, Scan;
    SliceLength(block, at, hi, 0);
    var list := LengthAt(block[at..hi], 0).value;
    SliceScan(block, at, hi, list.total - list.content, list.total);
  }

  /** The encoded transaction list of a block. */
  function TxSlice(block: Bytes): Option<Bytes> {
    var at :- TxListAt(block);
    var txs :- LengthAt(block, at);
    if at + txs.total > |block| then None else Some(block[at..at + txs.total])
  }

  function Zipped(txs: seq<RangeRlp>, receipts: seq<RangeRlp>, traces: seq<RangeRlp>): (r: Option<seq<TxByteOffsets>>)
    ensures r.Some? ==> |r.value| == |txs|
  {
    if |txs| == |receipts| == |traces|
    then Some(seq(|txs|, i requires 0 <= i < |txs| => TxByteOffsets(txs[i], receipts[i], traces[i])))
    else None
  }

  function AllTxOffsets(block: Bytes, receipts: Bytes, traces: Bytes): Option<seq<TxByteOffsets>> {
    var at :- TxListAt(block);
    var slice :- TxSlice(block);
    var txRanges :- ListRanges(slice, 0);
    var receiptRanges :- ListRanges(receipts, 0);
    var traceRanges :- ListRanges(traces, 0);
    Zipped(Shift(txRanges, at), receiptRanges, traceRanges)
  }

  /** get_all_tx_offsets */
  method GetAllTxOffsets(block: Bytes, receipts: Bytes, traces: Bytes) returns (r: Option<seq<TxByteOffsets>>)
    ensures r == AllTxOffsets(block, receipts, traces)
  {
    hide LengthAt, Scan, ListRanges;
    var at := SkipHeader(block);
    if at.None? {
      return None;
    }
    var txs := DecodeLength(block, at.value);
    if txs.None? || at.value + txs.value.total > |block| {
      return None;
    }
    var slice := block[at.value..at.value + txs.value.total];
    var txRanges := GetListRanges(slice);
    var receiptRanges := GetListRanges(receipts);
    var traceRanges := GetListRanges(traces);
    if txRanges.None? || receiptRanges.None? || traceRanges.None? {
      return None;
    }
    r := Zipped(Shift(txRanges.value, at.value), receiptRanges.value, traceRanges.value);
  }

  /**
   * Whenever all offsets are found, on any bytes, those of transaction i are the i-th ranges of
   * get_transaction_ranges, of the receipts and of the traces.
   */
  lemma OffsetsAreTransactionRanges(block: Bytes, receipts: Bytes, traces: Bytes)
    requires AllTxOffsets(block, receipts, traces).Some?
    ensures var o := AllTxOffsets(block, receipts, traces).value;
      var txs, rs, ts := TransactionRanges(block), ListRanges(receipts, 0), ListRanges(traces, 0);
      && txs.Some? && rs.Some? && ts.Some? && |o| == |txs.value| == |rs.value| == |ts.value|
      && forall i :: 0 <= i < |o| ==>
        o[i].tx == txs.value[i] && o[i].receipt == rs.value[i] && o[i].trace == ts.value[i]
  {
    hide LengthAt, Scan, ListRanges;
    var at := TxListAt(block).value;
    RebasedRanges(block, at, at + LengthAt(block, at).value.total);
  }

  // ---- the scanner on well-formed encodings ----

  /** data holds enc at pos. */
  predicate At(data: Bytes, pos: nat, enc: Bytes) {
    pos + |enc| <= |data| && data[pos..pos + |enc|] == enc
  }

  lemma AtPart(data: Bytes, pos: nat, a: Bytes, b: Bytes)
    requires At(data, pos, a + b)
    ensures At(data, pos, a) && At(data, pos + |a|, b)
  {
    assert data[pos..pos + |a|] == data[pos..pos + |a + b|][..|a|];
    assert data[pos + |a|..pos + |a| + |b|] == data[pos..pos + |a + b|][|a|..];
  }

  lemma PrefixRead(data: Bytes, pos: nat, off: Byte, n: nat)
    requires (off == 0x80 || off == 0xc0) && Prefix(off, n).Some? && At(data, pos, Prefix(off, n).value)
    requires |Prefix(off, n).value| + n <= USIZE_MAX
    ensures LengthAt(data, pos) == Some(Length(n, |Prefix(off, n).value| + n))
  {
    var p := Prefix(off, n).value;
    ByteAt(data, pos, p);
    if n >= 56 {
      AtPart(data, pos, [off + 55 + |BigEndian(n)|], BigEndian(n));
      BigEndianInverts(n);
      LongRead(data, pos, BigEndian(n), off);
    }
  }

  lemma ByteAt(data: Bytes, pos: nat, p: Bytes)
    requires p != [] && At(data, pos, p)
    ensures pos < |data| && data[pos] == p[0]
  {
    assert data[pos..pos + |p|][0] == data[pos];
  }

  lemma LongRead(data: Bytes, pos: nat, be: Bytes, off: Byte)
    requires (off == 0x80 || off == 0xc0) && 0 < |be| <= 8 && be[0] != 0 && pos < |data| && data[pos] == off + 55 + |be|
    requires At(data, pos + 1, be) && 1 + |be| + FromBigEndian(be) <= USIZE_MAX
    ensures LengthAt(data, pos) == Some(Length(FromBigEndian(be), 1 + |be| + FromBigEndian(be)))
  {
    hide FromBigEndian;
    assert LongLength(data, pos, |be|) == Some(Length(FromBigEndian(be), 1 + |be| + FromBigEndian(be)));
  }

  /** The payload of an encoding and its length. */
  function PayloadLength(x: Rlp): nat
    requires Encode(x).Some?
  {
    match x
    case Str(b) => |b|
    case List(items) => |Flatten(EncodeItems(x, |items|).value)|
  }

  /** At an encoding, the scanner reads its true length. */
  lemma LengthOfEncoding(data: Bytes, pos: nat, x: Rlp)
    requires Encode(x).Some? && At(data, pos, Encode(x).value) && |Encode(x).value| <= USIZE_MAX
    ensures LengthAt(data, pos) == Some(Length(PayloadLength(x), |Encode(x).value|))
  {
    hide LengthAt, Prefix;
    match x
    case Str(b) =>
      if |b| == 1 && b[0] < 0x80 {
        SingleByte(data, pos, b[0]);
      } else {
        AtPart(data, pos, Prefix(0x80, |b|).value, b);
        PrefixRead(data, pos, 0x80, |b|);
      }
    case List(items) =>
      var s := Flatten(EncodeItems(x, |items|).value);
      AtPart(data, pos, Prefix(0xc0, |s|).value, s);
      PrefixRead(data, pos, 0xc0, |s|);
  }

  lemma SingleByte(data: Bytes, pos: nat, b: Byte)
    requires b < 0x80 && At(data, pos, [b])
    ensures LengthAt(data, pos) == Some(Length(1, 1))
  {
    assert data[pos] == data[pos..pos + 1][0];
  }

  /** Item i of a list whose payload starts at `from`. */
  function ItemRange(encs: seq<Bytes>, from: nat, i: nat): RangeRlp
    requires i < |encs|
  {
    RangeRlp(from + Offset(encs, i), from + Offset(encs, i + 1))
  }

  function ItemRanges(encs: seq<Bytes>, from: nat, lo: nat): seq<RangeRlp>
    requires lo <= |encs|
  {
    seq(|encs| - lo, i requires 0 <= i < |encs| - lo => ItemRange(encs, from, lo + i))
  }

  lemma ItemAt(data: Bytes, from: nat, x: Rlp, i: nat)
    requires x.List? && EncodeItems(x, |x.items|).Some? && i < |x.items|
    requires At(data, from, Flatten(EncodeItems(x, |x.items|).value)) && |data| <= USIZE_MAX
    ensures var encs := EncodeItems(x, |x.items|).value;
      && Encode(x.items[i]) == Some(encs[i]) && At(data, from + Offset(encs, i), encs[i])
      && Offset(encs, i + 1) == Offset(encs, i) + |encs[i]| <= |Flatten(encs)|
      && LengthAt(data, from + Offset(encs, i)) == Some(Length(PayloadLength(x.items[i]), |encs[i]|))
  {
    hide LengthAt, Encode, EncodeItems, Flat, PayloadLength;
    var encs := EncodeItems(x, |x.items|).value;
    ItemsEncoded(x, |x.items|, i);
    OffsetStep(encs, i);
    FlatSplit(encs, 0, i, |encs|);
    FlatSplit(encs, i, i + 1, |encs|);
    SingleFlat(encs, i);
    AtPart(data, from, Flat(encs, 0, i), Flat(encs, i, |encs|));
    AtPart(data, from + Offset(encs, i), encs[i], Flat(encs, i + 1, |encs|));
    LengthOfEncoding(data, from + Offset(encs, i), x.items[i]);
  }

  lemma SingleFlat<T>(xss: seq<seq<T>>, i: nat)
    requires i < |xss|
    ensures Flat(xss, i, i + 1) == xss[i]
  {
    assert Flat(xss, i, i) == [];
  }

  lemma {:induction false} ScanEncodings(data: Bytes, from: nat, x: Rlp, i: nat)
    requires x.List? && EncodeItems(x, |x.items|).Some? && i <= |x.items|
    requires At(data, from, Flatten(EncodeItems(x, |x.items|).value)) && |data| <= USIZE_MAX
    ensures var encs := EncodeItems(x, |x.items|).value;
      Scan(data, from + Offset(encs, i), from + |Flatten(encs)|) == Some(ItemRanges(encs, from, i))
    decreases |x.items| - i
  {
    hide LengthAt, Encode, EncodeItems, Flat, PayloadLength;
    var encs := EncodeItems(x, |x.items|).value;
    if i < |x.items| {
      ItemAt(data, from, x, i);
      NonEmpty(x.items[i]);
      ScanEncodings(data, from, x, i + 1);
      assert ItemRanges(encs, from, i) == [ItemRange(encs, from, i)] + ItemRanges(encs, from, i + 1);
    }
  }

  lemma NonEmpty(x: Rlp)
    requires Encode(x).Some?
    ensures |Encode(x).value| > 0
  {
  }

  /**
   * For every encoded list the scanner returns one range per item; the ranges tile the payload and
   * their slices are exactly the encodings of the items.
   */
  lemma ListScanned(data: Bytes, at: nat, x: Rlp)
    requires x.List? && Encode(x).Some? && At(data, at, Encode(x).value) && |data| <= USIZE_MAX
    ensures var r := ListRanges(data, at);
      && r.Some? && |r.value| == |x.items|
        && Tiles(r.value, at + |Encode(x).value| - PayloadLength(x), at + |Encode(x).value|)
      && forall i :: 0 <= i < |x.items| ==> Holds(data, r.value[i], x.items[i])
  {
    hide LengthAt, Prefix, Flat, Scan, Holds, Tiles, ItemRanges;
    var encs := EncodeItems(x, |x.items|).value;
    var s := Flatten(encs);
    var p := Prefix(0xc0, |s|).value;
    LengthOfEncoding(data, at, x);
    AtPart(data, at, p, s);
    ScanEncodings(data, at + |p|, x, 0);
    NoOffset(encs);
    RangesTile(encs, at + |p|);
    forall i | 0 <= i < |x.items| ensures Holds(data, ItemRange(encs, at + |p|, i), x.items[i]) {
      ItemHeld(data, at + |p|, x, i);
    }
  }

  lemma ItemHeld(data: Bytes, from: nat, x: Rlp, i: nat)
    requires x.List? && EncodeItems(x, |x.items|).Some? && i < |x.items|
    requires At(data, from, Flatten(EncodeItems(x, |x.items|).value)) && |data| <= USIZE_MAX
    ensures Holds(data, ItemRange(EncodeItems(x, |x.items|).value, from, i), x.items[i])
  {
    hide LengthAt, Encode, EncodeItems, Flat, PayloadLength;
    ItemAt(data, from, x, i);
  }

  lemma RangesTile(encs: seq<Bytes>, from: nat)
    ensures var r := ItemRanges(encs, from, 0);
      |r| == |encs| && Tiles(r, from, from + |Flatten(encs)|) && forall i :: 0 <= i < |encs| ==>
        r[i] == ItemRange(encs, from, i)
  {
    hide Flat;
    NoOffset(encs);
  }

  predicate Holds(data: Bytes, r: RangeRlp, x: Rlp) {
    r.start <= r.end <= |data| && Encode(x) == Some(data[r.start..r.end])
  }

  /** The ranges follow one another from lo to hi. */
  ghost predicate Tiles(ranges: seq<RangeRlp>, lo: nat, hi: nat) {
    if ranges == [] then lo == hi else
      && ranges[0].start == lo && ranges[|ranges| - 1].end == hi
      && forall i, j :: 0 <= i < j < |ranges| && j == i + 1 ==> ranges[i].end == ranges[j].start
  }

  ghost predicate IsBlock(x: Rlp, data: Bytes) {
    x.List? && |x.items| >= 2 && x.items[1].List? && Encode(x) == Some(data) && |data| <= USIZE_MAX
  }

  /** In an encoded block the transaction list stands where the scanner looks for it. */
  lemma TxListOfBlock(data: Bytes, x: Rlp)
    requires IsBlock(x, data)
    ensures var at, txs := TxListAt(data), Encode(x.items[1]);
      && at.Some? && txs.Some? && At(data, at.value, txs.value)
      && LengthAt(data, at.value) == Some(Length(PayloadLength(x.items[1]), |txs.value|))
  {
    hide LengthAt, Prefix, Flat, At;
    var encs := EncodeItems(x, |x.items|).value;
    var s := Flatten(encs);
    var p := Prefix(0xc0, |s|).value;
    AtStart(data);
    LengthOfEncoding(data, 0, x);
    AtPart(data, 0, p, s);
    ItemAt(data, |p|, x, 0);
    ItemAt(data, |p|, x, 1);
    NoOffset(encs);
  }

  lemma AtStart(data: Bytes)
    ensures At(data, 0, data)
  {
    assert data[0..|data|] == data;
  }

  /** The transaction ranges of an encoded block are the encodings of its transactions. */
  lemma BlockScanned(data: Bytes, x: Rlp)
    requires IsBlock(x, data)
    ensures var r := TransactionRanges(data);
      && r.Some? && |r.value| == |x.items[1].items|
      && forall i :: 0 <= i < |r.value| ==> Holds(data, r.value[i], x.items[1].items[i])
  {
    hide LengthAt, Encode, At, ListRanges, Holds, Tiles, TxListAt, PayloadLength;
    TxListOfBlock(data, x);
    ListScanned(data, TxListAt(data).value, x.items[1]);
  }

  /** The transaction list found in an encoded block is that list's own encoding. */
  lemma TxSliceOfBlock(data: Bytes, x: Rlp)
    requires IsBlock(x, data)
    ensures TxSlice(data).Some? && TxSlice(data) == Encode(x.items[1])
  {
    hide LengthAt, Encode, TxListAt, PayloadLength;
    TxListOfBlock(data, x);
  }

  /**
   * For encoded data, offsets are found exactly when the three lists have as many items, and they hold
   * the transaction, the receipt and the trace.
   */
  lemma OffsetsOfEncodings(block: Bytes, receipts: Bytes, traces: Bytes, b: Rlp, r: Rlp, t: Rlp)
    requires IsBlock(b, block) && r.List? && t.List? && Encode(r) == Some(receipts) && Encode(t) == Some(traces)
    requires |receipts| <= USIZE_MAX && |traces| <= USIZE_MAX
    ensures var o := AllTxOffsets(block, receipts, traces);
      && (o.Some? <==> |b.items[1].items| == |r.items| == |t.items|)
      && (o.Some? ==> |o.value| == |r.items|)
      && (o.Some? ==> forall i :: 0 <= i < |r.items| ==>
            && Holds(block, o.value[i].tx, b.items[1].items[i])
            && Holds(receipts, o.value[i].receipt, r.items[i])
            && Holds(traces, o.value[i].trace, t.items[i]))
  {
    hide LengthAt, Encode, EncodeItems, ListRanges, Tiles, Holds, PayloadLength, TransactionRanges;
    OffsetsExist(block, receipts, traces, b, r, t);
    if AllTxOffsets(block, receipts, traces).Some? {
      OffsetsAreTransactionRanges(block, receipts, traces);
      BlockScanned(block, b);
      AtStart(receipts);
      AtStart(traces);
      ListScanned(receipts, 0, r);
      ListScanned(traces, 0, t);
    }
  }

  lemma OffsetsExist(block: Bytes, receipts: Bytes, traces: Bytes, b: Rlp, r: Rlp, t: Rlp)
    requires IsBlock(b, block) && r.List? && t.List? && Encode(r) == Some(receipts) && Encode(t) == Some(traces)
    requires |receipts| <= USIZE_MAX && |traces| <= USIZE_MAX
    ensures AllTxOffsets(block, receipts, traces).Some? <==> |b.items[1].items| == |r.items| == |t.items|
  {
    hide LengthAt, Encode, EncodeItems, ListRanges, Tiles, Holds, PayloadLength;
    TxSliceOfBlock(block, b);
    BlockScanned(block, b);
    var slice := TxSlice(block).value;
    assert |slice| <= |block|;
    AtStart(slice);
    AtStart(receipts);
    AtStart(traces);
    ListScanned(slice, 0, b.items[1]);
    ListScanned(receipts, 0, r);
    ListScanned(traces, 0, t);
  }
}
