/** The tagged storage formats, and archived blocks and receipts in them (block_data_archive.rs). */
module StorageFormats {
  import opened Seqs
  import opened Schema
  import opened RlpScanner
  import opened RlpDecoder
  import Rlp

  type U64 = x: int | 0 <= x < 0x1_0000_0000_0000_0000

  // ---- library encodings of single values ----

  /** How a value is written as one RLP item. */
  datatype ItemCoder<!T(!new)> = ItemCoder(to: T -> Rlp.Rlp, from: Rlp.Rlp -> Option<T>) {
    ghost predicate Lawful() { forall x :: from(to(x)) == Some(x) }
  }

  function ToAll<T(!new)>(c: ItemCoder<T>, xs: seq<T>): (items: seq<Rlp.Rlp>)
    ensures |items| == |xs|
  {
    seq(|xs|, i requires 0 <= i < |xs| => c.to(xs[i]))
  }

  function FromAll<T(!new)>(c: ItemCoder<T>, items: seq<Rlp.Rlp>, n: nat): Option<seq<T>>
    requires n <= |items|
  {
    if n == 0 then Some([]) else
      var before :- FromAll(c, items, n - 1);
      var x :- c.from(items[n - 1]);
      Some(before + [x])
  }

  lemma {:induction false} AllInvert<T(!new)>(c: ItemCoder<T>, xs: seq<T>, n: nat)
    requires c.Lawful() && n <= |xs|
    ensures FromAll(c, ToAll(c, xs), n) == Some(xs[..n])
  {
    if n > 0 {
      AllInvert(c, xs, n - 1);
      assert xs[..n] == xs[..n - 1] + [xs[n - 1]];
    }
  }

  // ---- a format: a two-byte tag, then a list ----

  /**
   * A record r is written as the sentinel, its version marker and the list of its fields. Raw data of
   * version 0, written before there were tags, is the list alone.
   */
  datatype Format<!R(!new)> = Format(
    sentinel: Byte, versions: nat, marker: R -> Byte, fields: R -> seq<Rlp.Rlp>,
      parse: (Byte, seq<Rlp.Rlp>) -> Option<R>)
  {
    /** The fields of a version can be parsed back, and the sentinel is no list prefix. */
    ghost predicate Lawful() {
      sentinel < 0xc0 && forall r :: marker(r) < versions && parse(marker(r), fields(r)) == Some(r)
    }

    /** Nothing longer than the address space is ever encoded. */
    function EncodeRaw(r: R): Option<Bytes> {
      var list :- Rlp.Encode(Rlp.List(fields(r)));
      if |list| + 2 > USIZE_MAX then None else Some(list)
    }

    function Encode(r: R): Option<Bytes> {
      var list :- EncodeRaw(r);
      Some([sentinel, marker(r)] + list)
    }

    predicate Tagged(buf: Bytes) { |buf| >= 2 && buf[0] == sentinel && buf[1] < versions }

    /** What the list decoder is given. */
    function Payload(buf: Bytes): Bytes { if Tagged(buf) then buf[2..] else buf }

    function Version(buf: Bytes): Byte { if Tagged(buf) then buf[1] else 0 }

    /** The first attempt: by tag, raw without one. */
    function Parse(buf: Bytes): Option<R> {
      var items :- Fields(Payload(buf));
      parse(Version(buf), items)
    }

    /** Whatever fails to parse is tried again as raw data. */
    function Decode(buf: Bytes): Option<R> {
      if |buf| < 2 then None
      else if Parse(buf).Some? then Parse(buf)
      else
        var items :- Fields(buf);
        parse(0, items)
    }

    /** The fields that were encoded are the fields that are read. */
    lemma FieldsBack(r: R, list: Bytes)
      requires EncodeRaw(r) == Some(list)
      ensures Fields(list) == Some(fields(r)) && |list| >= 1 && list[0] >= 0xc0
    {
      hide Fields, Rlp.Encode;
      assert list[..|list|] == list;
      FieldsIff(list, fields(r));
      ListOpens(list);
    }

    /** Decoding inverts tagged encoding, for every version. */
    lemma RoundTrip(r: R, buf: Bytes)
      requires Lawful() && Encode(r) == Some(buf)
      ensures Tagged(buf) && Decode(buf) == Some(r)
    {
      hide Fields, EncodeRaw;
      var list := EncodeRaw(r).value;
      FieldsBack(r, list);
      assert marker(r) < versions && parse(marker(r), fields(r)) == Some(r);
      assert buf[2..] == list;
    }

    /** Raw data is read as raw data. */
    lemma LegacyRead(r: R, buf: Bytes)
      requires Lawful() && marker(r) == 0 && EncodeRaw(r) == Some(buf) && |buf| >= 2
      ensures !Tagged(buf) && Decode(buf) == Some(r)
    {
      hide Fields, EncodeRaw;
      FieldsBack(r, buf);
      assert parse(marker(r), fields(r)) == Some(r);
    }

    /** No buffer can be read both ways, so the retry never accepts what the first attempt refused. */
    lemma RetryNeverAccepts(buf: Bytes)
      requires Lawful()
      ensures Tagged(buf) ==> Fields(buf).None?
      ensures |buf| >= 2 ==> Decode(buf) == Parse(buf)
    {
      hide Fields;
      if Fields(buf).Some? {
        ListOpens(buf);
      }
    }
  }

  // ---- blocks ----

  datatype SenderTx = SenderTx(sender: Address, tx: nat)

  datatype BlockOf<T> = BlockOf(header: nat, txs: seq<T>, ommers: nat, withdrawals: Option<nat>)

  type RawBlock = BlockOf<nat>
  type FullBlock = BlockOf<SenderTx>

  const NO_WITHDRAWALS := 0

  datatype BlockRepr = BlockV0(raw: RawBlock) | BlockV1(block: FullBlock) | BlockV2(block: FullBlock)

  /** Encodings of the parts of a block, and signature recovery. */
  datatype BlockLib = BlockLib(
    header: ItemCoder<nat>, ommers: ItemCoder<nat>, withdrawals: ItemCoder<nat>,
    rawTx: ItemCoder<nat>, fullTx: ItemCoder<SenderTx>, recover: nat -> Option<Address>)
  {
    ghost predicate Lawful() {
      header.Lawful() && ommers.Lawful() && withdrawals.Lawful() && rawTx.Lawful() && fullTx.Lawful()
    }

    /** Header, transactions, ommers, and withdrawals if there are any. */
    function BlockFields<T(!new)>(tx: ItemCoder<T>, b: BlockOf<T>): seq<Rlp.Rlp> {
      [header.to(b.header), Rlp.List(ToAll(tx, b.txs)), ommers.to(b.ommers)]
      + (if b.withdrawals.Some? then [withdrawals.to(b.withdrawals.value)] else [])
    }

    function ParseBlock<T(!new)>(tx: ItemCoder<T>, items: seq<Rlp.Rlp>): Option<BlockOf<T>> {
      if !(3 <= |items| <= 4) || !items[1].List? then None else
        var h :- header.from(items[0]);
        var txs :- FromAll(tx, items[1].items, |items[1].items|);
        var o :- ommers.from(items[2]);
        if |items| == 3 then Some(BlockOf(h, txs, o, None)) else
          var w :- withdrawals.from(items[3]);
          Some(BlockOf(h, txs, o, Some(w)))
    }

    lemma BlockInverts<T(!new)>(tx: ItemCoder<T>, b: BlockOf<T>)
      requires Lawful() && tx.Lawful()
      ensures ParseBlock(tx, BlockFields(tx, b)) == Some(b)
    {
      AllInvert(tx, b.txs, |b.txs|);
      assert b.txs[..|b.txs|] == b.txs;
      assert header.from(header.to(b.header)) == Some(b.header) && ommers.from(ommers.to(b.ommers)) == Some(b.ommers);
      if b.withdrawals.Some? {
        assert withdrawals.from(withdrawals.to(b.withdrawals.value)) == b.withdrawals;
      }
    }

    function ReprFields(r: BlockRepr): seq<Rlp.Rlp> {
      match r
      case BlockV0(b) => BlockFields(rawTx, b)
      case BlockV1(b) => BlockFields(fullTx, b)
      case BlockV2(b) => BlockFields(fullTx, b)
    }

    function ParseRepr(version: Byte, items: seq<Rlp.Rlp>): Option<BlockRepr> {
      if version == 0 then
        var b :- ParseBlock(rawTx, items);
        Some(BlockV0(b))
      else
        var b :- ParseBlock(fullTx, items);
        Some(if version == 1 then BlockV1(b) else BlockV2(b))
    }

    function Layout(): Format<BlockRepr> {
      Format(55, 3, BlockMarker, r => ReprFields(r), (v, items) => ParseRepr(v, items))
    }

    lemma LayoutLawful()
      requires Lawful()
      ensures Layout().Lawful()
    {
      forall r: BlockRepr ensures ParseRepr(BlockMarker(r), ReprFields(r)) == Some(r) {
        match r
        case BlockV0(b) => BlockInverts(rawTx, b);
        case BlockV1(b) => BlockInverts(fullTx, b);
        case BlockV2(b) => BlockInverts(fullTx, b);
      }
    }

    /** Raw blocks get their senders recovered and lose their withdrawals. */
    function Convert(r: BlockRepr): Option<FullBlock> {
      match r
      case BlockV0(b) =>
        var txs :- RecoverAll(b.txs, |b.txs|);
        Some(BlockOf(b.header, txs, b.ommers, Some(NO_WITHDRAWALS)))
      case BlockV1(b) => Some(if b.withdrawals.None? then b.(withdrawals := Some(NO_WITHDRAWALS)) else b)
      case BlockV2(b) => Some(b)
    }

    function RecoverAll(txs: seq<nat>, n: nat): (r: Option<seq<SenderTx>>)
      requires n <= |txs|
      ensures r.Some? ==> |r.value| == n
      ensures r.Some? ==>
        forall i :: 0 <= i < n ==> r.value[i].tx == txs[i] && recover(txs[i]) == Some(r.value[i].sender)
    {
      if n == 0 then Some([]) else
        var before :- RecoverAll(txs, n - 1);
        var sender :- recover(txs[n - 1]);
        Some(before + [SenderTx(sender, txs[n - 1])])
    }

    /** decode_and_convert */
    function DecodeAndConvert(buf: Bytes): Option<FullBlock> {
      var r :- Layout().Decode(buf);
      Convert(r)
    }

    /** The tag is 55 and then the version. */
    lemma TagBytes(r: BlockRepr, buf: Bytes)
      requires Layout().Encode(r) == Some(buf)
      ensures |buf| >= 2 && buf[0] == 55 && buf[1] == (if r.BlockV0? then 0 else if r.BlockV1? then 1 else 2)
    {
      hide Rlp.Encode;
    }

    /** What is read back of a stored block: all its parts, with senders recovered and withdrawals filled in. */
    ghost predicate IsRead(r: BlockRepr, b: FullBlock) {
      match r
      case BlockV0(raw) =>
        && b.header == raw.header && b.ommers == raw.ommers && b.withdrawals == Some(NO_WITHDRAWALS)
          && |b.txs| == |raw.txs|
        && forall i :: 0 <= i < |b.txs| ==> b.txs[i].tx == raw.txs[i] && recover(raw.txs[i]) == Some(b.txs[i].sender)
      case BlockV1(full) =>
        && b.header == full.header && b.ommers == full.ommers && b.txs == full.txs
        && b.withdrawals == (if full.withdrawals.Some? then full.withdrawals else Some(NO_WITHDRAWALS))
      case BlockV2(full) => b == full
    }

    lemma {:induction false} RecoverFails(txs: seq<nat>, n: nat)
      requires n <= |txs| && RecoverAll(txs, n).None?
      ensures exists i :: 0 <= i < n && recover(txs[i]).None?
    {
      if RecoverAll(txs, n - 1).None? {
        RecoverFails(txs, n - 1);
      } else {
        assert recover(txs[n - 1]).None?;
      }
    }

    /**
     * A stored block of any version, or a raw one, is read back with all its parts; only a raw block with
     * a signature that cannot be recovered is refused.
     */
    lemma ReadsBack(r: BlockRepr, buf: Bytes)
      requires Lawful()
      requires Layout().Encode(r) == Some(buf) || (r.BlockV0? && Layout().EncodeRaw(r) == Some(buf))
      ensures DecodeAndConvert(buf).Some? ==> IsRead(r, DecodeAndConvert(buf).value)
      ensures DecodeAndConvert(buf).None? ==>
        r.BlockV0? && exists i :: 0 <= i < |r.raw.txs| && recover(r.raw.txs[i]).None?
    {
      hide Format.Decode, Rlp.Encode;
      LayoutLawful();
      if Layout().Encode(r) == Some(buf) {
        Layout().RoundTrip(r, buf);
      } else {
        ListSize(ReprFields(r));
        Layout().LegacyRead(r, buf);
      }
      if r.BlockV0? && RecoverAll(r.raw.txs, |r.raw.txs|).None? {
        RecoverFails(r.raw.txs, |r.raw.txs|);
      }
    }

    /** Only V0 and V1 tags are stripped before offsets are taken. */
    static function RlpListSlice(buf: Bytes): Bytes {
      if |buf| < 2 then buf
      else if (buf[0] == 55 && buf[1] == 0) || (buf[0] == 55 && buf[1] == 1) then buf[2..] else buf
    }

    /** The offset slice is what the decoder reads exactly when the buffer is not tagged V2. */
    lemma SliceIff(buf: Bytes)
      ensures RlpListSlice(buf) == Layout().Payload(buf) <==> !(|buf| >= 2 && buf[0] == 55 && buf[1] == 2)
    {
      if |buf| >= 2 && buf[0] == 55 && buf[1] == 2 {
        assert |buf[2..]| != |buf|;
      }
    }

    /** For raw, V0 and V1 blocks the scanner finds one range per transaction, each holding its encoding. */
    lemma OffsetsOfStored(r: BlockRepr, buf: Bytes)
      requires Lawful() && !r.BlockV2?
      requires Layout().Encode(r) == Some(buf) || (r.BlockV0? && Layout().EncodeRaw(r) == Some(buf))
      ensures var slice, txs := RlpListSlice(buf), ReprFields(r)[1]; var ranges := TransactionRanges(slice);
        && txs.List? && |txs.items| == (if r.BlockV0? then |r.raw.txs| else |r.block.txs|)
        && ranges.Some? && |ranges.value| == |txs.items|
        && forall i :: 0 <= i < |ranges.value| ==> Holds(slice, ranges.value[i], txs.items[i])
    {
      hide Rlp.Encode, TransactionRanges, Holds;
      var list := Layout().EncodeRaw(r).value;
      Layout().FieldsBack(r, list);
      if Layout().Encode(r) == Some(buf) {
        assert buf[2..] == list;
      }
      assert RlpListSlice(buf) == list;
      BlockScanned(list, Rlp.List(ReprFields(r)));
    }
  }

  function BlockMarker(r: BlockRepr): Byte {
    match r
    case BlockV0(_) => 0
    case BlockV1(_) => 1
    case BlockV2(_) => 2
  }

  /** On a V2 buffer the scanner sees one transaction, the marker byte, whatever the block holds. */
  lemma V2Offsets(buf: Bytes)
    requires |buf| >= 2 && buf[0] == 55 && buf[1] == 2
    ensures TransactionRanges(BlockLib.RlpListSlice(buf)) == Some([RangeRlp(1, 2)])
    ensures TxSlice(BlockLib.RlpListSlice(buf)) == Some([2]) && ListRanges([2], 0) == Some([RangeRlp(0, 1)])
  {
    assert LengthAt(buf, 0) == Some(Length(1, 1)) && LengthAt(buf, 1) == Some(Length(1, 1));
    assert [RangeRlp(1, 2)] + [] == [RangeRlp(1, 2)] && [RangeRlp(0, 1)] + [] == [RangeRlp(0, 1)];
    assert Scan(buf, 2, 2) == Some([]);
    assert Scan(buf, 1, 2) == Some([RangeRlp(1, 2)]);
    assert LengthAt([2], 0) == Some(Length(1, 1));
    assert Scan([2], 1, 1) == Some([]);
    assert Scan([2], 0, 1) == Some([RangeRlp(0, 1)]);
    assert buf[1..2] == [2];
  }

  /**
   * So for a V2 block offsets are found only when there is exactly one receipt and one trace, and then they are
   * wrong.
   */
  lemma V2OffsetsIff(buf: Bytes, receipts: Bytes, traces: Bytes)
    requires |buf| >= 2 && buf[0] == 55 && buf[1] == 2
    ensures var r, t := ListRanges(receipts, 0), ListRanges(traces, 0);
      && (AllTxOffsets(BlockLib.RlpListSlice(buf), receipts, traces).Some? <==>
        r.Some? && t.Some? && |r.value| == |t.value| == 1)
      && (AllTxOffsets(BlockLib.RlpListSlice(buf), receipts, traces).Some? ==>
            AllTxOffsets(BlockLib.RlpListSlice(buf), receipts, traces).value[0].tx == RangeRlp(1, 2))
  {
    hide ListRanges, TxSlice, LengthAt, Scan;
    V2Offsets(buf);
    assert TxListAt(buf) == Some(1) by { V2Header(buf); }
    assert Shift([RangeRlp(0, 1)], 1) == [RangeRlp(1, 2)];
  }

  lemma V2Header(buf: Bytes)
    requires |buf| >= 2 && buf[0] == 55 && buf[1] == 2
    ensures TxListAt(buf) == Some(1)
  {
  }

  // ---- receipts ----

  /** A receipt envelope: its logs by count, everything else by `rest`. */
  datatype ReceiptEnvelope = ReceiptEnvelope(cumulativeGas: U64, logs: nat, rest: nat)
  datatype IndexedReceipt = IndexedReceipt(startingLogIndex: nat, receipt: ReceiptEnvelope)

  datatype ReceiptRepr = ReceiptsV0(raw: seq<ReceiptEnvelope>) | ReceiptsV1(receipts: seq<IndexedReceipt>)

  /** Logs of the first n receipts. */
  function LogsBefore(raw: seq<ReceiptEnvelope>, n: nat): nat
    requires n <= |raw|
  {
    if n == 0 then 0 else LogsBefore(raw, n - 1) + raw[n - 1].logs
  }

  /** Every receipt starts where the logs of the receipts before it end. */
  function Indexed(raw: seq<ReceiptEnvelope>): (r: seq<IndexedReceipt>)
    ensures |r| == |raw|
  {
    seq(|raw|, i requires 0 <= i < |raw| => IndexedReceipt(LogsBefore(raw, i), raw[i]))
  }

  /** The conversion of raw receipts, with its running log count. */
  method NumberReceipts(raw: seq<ReceiptEnvelope>) returns (receipts: seq<IndexedReceipt>)
    ensures receipts == Indexed(raw)
  {
    receipts := [];
    var seen := 0;
    for i := 0 to |raw|
      invariant seen == LogsBefore(raw, i) && |receipts| == i
      invariant forall j :: 0 <= j < i ==> receipts[j] == Indexed(raw)[j]
    {
      receipts := receipts + [IndexedReceipt(seen, raw[i])];
      seen := seen + raw[i].logs;
    }
  }

  /** Log numbers of different receipts never meet, and the last one ends at the total. */
  lemma {:induction false} LogNumbersTile(raw: seq<ReceiptEnvelope>, i: nat, j: nat)
    requires i < j <= |raw|
    ensures Indexed(raw)[i].startingLogIndex + raw[i].logs <= LogsBefore(raw, j)
    ensures j == i + 1 ==> Indexed(raw)[i].startingLogIndex + raw[i].logs == LogsBefore(raw, j)
  {
    if i + 1 < j {
      LogNumbersTile(raw, i, j - 1);
    }
  }

  function ReceiptMarker(r: ReceiptRepr): Byte { if r.ReceiptsV0? then 0 else 1 }

  datatype ReceiptLib = ReceiptLib(raw: ItemCoder<ReceiptEnvelope>, full: ItemCoder<IndexedReceipt>) {
    ghost predicate Lawful() { raw.Lawful() && full.Lawful() }

    function ReprFields(r: ReceiptRepr): seq<Rlp.Rlp> {
      match r
      case ReceiptsV0(x) => ToAll(raw, x)
      case ReceiptsV1(x) => ToAll(full, x)
    }

    function ParseRepr(version: Byte, items: seq<Rlp.Rlp>): Option<ReceiptRepr> {
      if version == 0 then
        var x :- FromAll(raw, items, |items|);
        Some(ReceiptsV0(x))
      else
        var x :- FromAll(full, items, |items|);
        Some(ReceiptsV1(x))
    }

    function Layout(): Format<ReceiptRepr> {
      Format(88, 2, ReceiptMarker, r => ReprFields(r), (v, items) => ParseRepr(v, items))
    }

    lemma LayoutLawful()
      requires Lawful()
      ensures Layout().Lawful()
    {
      forall r: ReceiptRepr ensures ParseRepr(ReceiptMarker(r), ReprFields(r)) == Some(r) {
        match r
        case ReceiptsV0(x) =>
          AllInvert(raw, x, |x|);
          assert x[..|x|] == x;
        case ReceiptsV1(x) =>
          AllInvert(full, x, |x|);
          assert x[..|x|] == x;
      }
    }

    function Converted(r: ReceiptRepr): seq<IndexedReceipt> {
      if r.ReceiptsV0? then Indexed(r.raw) else r.receipts
    }

    /** decode_and_convert: the one-byte empty list is let through first. */
    function DecodeAndConvert(buf: Bytes): Option<seq<IndexedReceipt>> {
      if buf == [0xc0] then Some([]) else
        var r :- Layout().Decode(buf);
        Some(Converted(r))
    }

    lemma TagBytes(r: ReceiptRepr, buf: Bytes)
      requires Layout().Encode(r) == Some(buf)
      ensures |buf| >= 2 && buf[0] == 88 && buf[1] == (if r.ReceiptsV0? then 0 else 1)
    {
      hide Rlp.Encode;
    }

    /** Raw receipts are read back in order, each starting at the number of logs before it; others as they are. */
    ghost predicate IsRead(r: ReceiptRepr, receipts: seq<IndexedReceipt>) {
      match r
      case ReceiptsV0(x) =>
        && |receipts| == |x|
        && forall i :: 0 <= i < |x| ==> receipts[i].receipt == x[i] && receipts[i].startingLogIndex == LogsBefore(x, i)
      case ReceiptsV1(x) => receipts == x
    }

    /** Stored receipts of either version read back; every raw list, also the empty one, as raw. */
    lemma ReadsBack(r: ReceiptRepr, buf: Bytes)
      requires Lawful()
      requires Layout().Encode(r) == Some(buf) || (r.ReceiptsV0? && Layout().EncodeRaw(r) == Some(buf))
      ensures DecodeAndConvert(buf).Some? && IsRead(r, DecodeAndConvert(buf).value)
    {
      hide Format.Decode, Rlp.Encode;
      LayoutLawful();
      if Layout().Encode(r) == Some(buf) {
        Layout().RoundTrip(r, buf);
      } else {
        ListSize(ReprFields(r));
        if r.raw != [] {
          Layout().LegacyRead(r, buf);
        }
      }
    }

    static function RlpListSlice(buf: Bytes): Bytes {
      if |buf| < 2 then buf
      else if (buf[0] == 88 && buf[1] == 0) || (buf[0] == 88 && buf[1] == 1) then buf[2..] else buf
    }

    /** For receipts the slice always strips the decoder's tag ... */
    lemma SliceAgrees(buf: Bytes)
      ensures RlpListSlice(buf) == Layout().Payload(buf)
    {
    }

    /** ... so the scanner finds one range per receipt, each holding its encoding. */
    lemma OffsetsOfStored(r: ReceiptRepr, buf: Bytes)
      requires Lawful()
      requires Layout().Encode(r) == Some(buf) || (r.ReceiptsV0? && Layout().EncodeRaw(r) == Some(buf))
      ensures var slice := RlpListSlice(buf); var ranges := ListRanges(slice, 0);
        && ranges.Some? && |ranges.value| == |ReprFields(r)|
        && forall i :: 0 <= i < |ranges.value| ==> Holds(slice, ranges.value[i], ReprFields(r)[i])
    {
      hide Rlp.Encode, ListRanges, Holds, Tiles;
      var list := Layout().EncodeRaw(r).value;
      Layout().FieldsBack(r, list);
      if Layout().Encode(r) == Some(buf) {
        assert buf[2..] == list;
      }
      assert RlpListSlice(buf) == list && list[0..|list|] == list;
      ListScanned(list, 0, Rlp.List(ReprFields(r)));
    }
  }
}
