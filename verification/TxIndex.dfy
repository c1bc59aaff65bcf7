/** The transaction index: records stored inline or by reference (index_repr.rs, tx_index_archive.rs, data/mod.rs). */
module TxIndex {
  import opened Seqs
  import opened Schema
  import opened StorageFormats
  import opened RlpScanner
  import opened RlpDecoder
  import Rlp

  datatype HeaderOf = HeaderOf(number: nat, timestamp: nat, hash: Hash, baseFee: Option<nat>)

  /** One archived block with its receipts and encoded traces. */
  datatype BlockData = BlockData(
    header: HeaderOf, txs: seq<SenderTx>, receipts: seq<IndexedReceipt>, traces: seq<Bytes>)

  datatype HeaderSubset = HeaderSubset(
    blockHash: Hash, blockNumber: nat, timestamp: nat, txIndex: nat, gasUsed: U64, baseFee: Option<nat>)

  datatype TxIndexedData = TxIndexedData(tx: SenderTx, trace: Bytes, receipt: IndexedReceipt, header: HeaderSubset)

  /** The old record has no timestamp ... */
  datatype HeaderSubsetV0 = HeaderSubsetV0(
    blockHash: Hash, blockNumber: nat, txIndex: nat, gasUsed: U64, baseFee: Option<nat>)
  {
    function Convert(timestamp: nat): HeaderSubset {
      HeaderSubset(blockHash, blockNumber, timestamp, txIndex, gasUsed, baseFee)
    }
  }

  /** ... no sender and no log index. */
  datatype InlineV0 = InlineV0(tx: nat, trace: Bytes, receipt: ReceiptEnvelope, header: HeaderSubsetV0)

  datatype ReferenceV0 = ReferenceV0(blockNumber: nat, header: HeaderSubset, offsets: Option<TxByteOffsets>)

  datatype Repr = Old(inlineV0: InlineV0) | Inline(data: TxIndexedData) | Reference(reference: ReferenceV0)

  function ReprMarker(r: Repr): Byte {
    match r
    case Old(_) => 0
    case Inline(_) => 1
    case Reference(_) => 2
  }

  /** The archive: block data by number. */
  type Archive = map<nat, BlockData>

  /** Encodings of the parts of a record, and signature recovery. */
  datatype IndexLib = IndexLib(
    rawTx: ItemCoder<nat>, fullTx: ItemCoder<SenderTx>, trace: ItemCoder<Bytes>,
    envelope: ItemCoder<ReceiptEnvelope>, receipt: ItemCoder<IndexedReceipt>,
    oldHeader: ItemCoder<HeaderSubsetV0>, header: ItemCoder<HeaderSubset>,
    number: ItemCoder<nat>, offsets: ItemCoder<TxByteOffsets>, recover: nat -> Option<Address>)
  {
    ghost predicate Lawful() {
      && rawTx.Lawful() && fullTx.Lawful() && trace.Lawful() && envelope.Lawful() && receipt.Lawful()
      && oldHeader.Lawful() && header.Lawful() && number.Lawful() && offsets.Lawful()
    }

    function ReprFields(r: Repr): seq<Rlp.Rlp> {
      match r
      case Old(x) => [rawTx.to(x.tx), trace.to(x.trace), envelope.to(x.receipt), oldHeader.to(x.header)]
      case Inline(x) => [fullTx.to(x.tx), trace.to(x.trace), receipt.to(x.receipt), header.to(x.header)]
      case Reference(x) =>
        [number.to(x.blockNumber), header.to(x.header)]
          + (if x.offsets.Some? then [offsets.to(x.offsets.value)] else [])
    }

    function ParseOld(items: seq<Rlp.Rlp>): Option<Repr> {
      if |items| != 4 then None else
        var tx :- rawTx.from(items[0]);
        var t :- trace.from(items[1]);
        var r :- envelope.from(items[2]);
        var h :- oldHeader.from(items[3]);
        Some(Old(InlineV0(tx, t, r, h)))
    }

    function ParseInline(items: seq<Rlp.Rlp>): Option<Repr> {
      if |items| != 4 then None else
        var tx :- fullTx.from(items[0]);
        var t :- trace.from(items[1]);
        var r :- receipt.from(items[2]);
        var h :- header.from(items[3]);
        Some(Inline(TxIndexedData(tx, t, r, h)))
    }

    function ParseReference(items: seq<Rlp.Rlp>): Option<Repr> {
      if !(2 <= |items| <= 3) then None else
        var n :- number.from(items[0]);
        var h :- header.from(items[1]);
        if |items| == 2 then Some(Reference(ReferenceV0(n, h, None))) else
          var o :- offsets.from(items[2]);
          Some(Reference(ReferenceV0(n, h, Some(o))))
    }

    function ParseRepr(version: Byte, items: seq<Rlp.Rlp>): Option<Repr> {
      if version == 0 then ParseOld(items) else if version == 1 then ParseInline(items) else ParseReference(items)
    }

    function Layout(): Format<Repr> {
      Format(50, 3, ReprMarker, r => ReprFields(r), (v, items) => ParseRepr(v, items))
    }

    lemma ReprInverts(r: Repr)
      requires Lawful()
      ensures ParseRepr(ReprMarker(r), ReprFields(r)) == Some(r)
    {
      match r
      case Old(x) =>
        assert rawTx.from(rawTx.to(x.tx)) == Some(x.tx) && trace.from(trace.to(x.trace)) == Some(x.trace);
        assert envelope.from(envelope.to(x.receipt)) == Some(x.receipt);
        assert oldHeader.from(oldHeader.to(x.header)) == Some(x.header);
      case Inline(x) =>
        assert fullTx.from(fullTx.to(x.tx)) == Some(x.tx) && trace.from(trace.to(x.trace)) == Some(x.trace);
        assert receipt.from(receipt.to(x.receipt)) == Some(x.receipt)
          && header.from(header.to(x.header)) == Some(x.header);
      case Reference(x) =>
        assert number.from(number.to(x.blockNumber)) == Some(x.blockNumber)
          && header.from(header.to(x.header)) == Some(x.header);
        assert x.offsets.Some? ==> offsets.from(offsets.to(x.offsets.value)) == x.offsets;
    }

    lemma LayoutLawful()
      requires Lawful()
      ensures Layout().Lawful()
    {
      hide ReprFields, ParseRepr;
      forall r: Repr ensures ParseRepr(ReprMarker(r), ReprFields(r)) == Some(r) { ReprInverts(r); }
    }

    /** The tag is 50 and then 0, 1 or 2. */
    lemma TagBytes(r: Repr, buf: Bytes)
      requires Layout().Encode(r) == Some(buf)
      ensures |buf| >= 2 && buf[0] == 50 && buf[1] == (if r.Old? then 0 else if r.Inline? then 1 else 2)
    {
      hide Rlp.Encode;
    }

    /** A stored record of any variant reads back as it was; a raw old one as an old one. */
    lemma ReadsBack(r: Repr, buf: Bytes)
      requires Lawful()
      requires Layout().Encode(r) == Some(buf) || (r.Old? && Layout().EncodeRaw(r) == Some(buf))
      ensures Layout().Decode(buf) == Some(r)
    {
      hide Format.Decode, Rlp.Encode;
      LayoutLawful();
      if Layout().Encode(r) == Some(buf) {
        Layout().RoundTrip(r, buf);
      } else {
        ListSize(ReprFields(r));
        Layout().LegacyRead(r, buf);
      }
    }

    // ---- reading a record ----

    function Convert(r: Repr, archive: Archive): Option<TxIndexedData> {
      match r
      case Inline(data) => Some(data)
      case Old(x) =>
        if x.header.blockNumber !in archive then None else
          var block := archive[x.header.blockNumber];
          var sender :- recover(x.tx);
          if x.header.txIndex >= |block.receipts| then None
          else Some(TxIndexedData(SenderTx(sender, x.tx), x.trace, block.receipts[x.header.txIndex],
                                  x.header.Convert(block.header.timestamp)))
      case Reference(x) =>
        if x.header.blockNumber !in archive then None else
          var block, i := archive[x.header.blockNumber], x.header.txIndex;
          if i >= |block.txs| || i >= |block.traces| || i >= |block.receipts| then None
          else Some(TxIndexedData(block.txs[i], block.traces[i], block.receipts[i], x.header))
    }

    function GetTx(r: Repr, archive: Archive): Option<(SenderTx, HeaderSubset)> {
      match r
      case Inline(data) => Some((data.tx, data.header))
      case Old(x) =>
        if x.header.blockNumber !in archive then None else
          var block := archive[x.header.blockNumber];
          if x.header.txIndex >= |block.txs| then None
          else Some((block.txs[x.header.txIndex], x.header.Convert(block.header.timestamp)))
      case Reference(x) =>
        if x.header.blockNumber !in archive then None else
          var block := archive[x.header.blockNumber];
          if x.header.txIndex >= |block.txs| then None else Some((block.txs[x.header.txIndex], x.header))
    }

    function GetReceipt(r: Repr, archive: Archive): Option<(IndexedReceipt, HeaderSubset)> {
      match r
      case Inline(data) => Some((data.receipt, data.header))
      case Old(_) =>
        var data :- Convert(r, archive);
        Some((data.receipt, data.header))
      case Reference(x) =>
        if x.header.blockNumber !in archive then None else
          var block := archive[x.header.blockNumber];
          if x.header.txIndex >= |block.receipts| then None else Some((block.receipts[x.header.txIndex], x.header))
    }

    function GetTrace(r: Repr, archive: Archive): Option<(Bytes, HeaderSubset)> {
      match r
      case Inline(data) => Some((data.trace, data.header))
      case Old(x) =>
        if x.header.blockNumber !in archive then None
        else Some((x.trace, x.header.Convert(archive[x.header.blockNumber].header.timestamp)))
      case Reference(x) =>
        if x.header.blockNumber !in archive then None else
          var block := archive[x.header.blockNumber];
          if x.header.txIndex >= |block.traces| then None else Some((block.traces[x.header.txIndex], x.header))
    }

    /** The archived block holds the transaction an old record was made from. */
    ghost predicate FromArchive(r: Repr, archive: Archive) {
      r.Old? ==>
        var x := r.inlineV0;
        && x.header.blockNumber in archive && x.header.txIndex < |archive[x.header.blockNumber].txs|
        && var tx := archive[x.header.blockNumber].txs[x.header.txIndex];
           tx.tx == x.tx && recover(x.tx) == Some(tx.sender)
    }

    /** An old record gets its sender recovered, and its receipt and the timestamp from the archived block. */
    lemma OldConverts(x: InlineV0, archive: Archive)
      ensures var r := Convert(Old(x), archive);
        && (r.Some? <==>
              && x.header.blockNumber in archive && recover(x.tx).Some?
              && x.header.txIndex < |archive[x.header.blockNumber].receipts|)
        && (r.Some? ==>
              var block := archive[x.header.blockNumber];
              && r.value.tx.tx == x.tx && Some(r.value.tx.sender) == recover(x.tx) && r.value.trace == x.trace
              && r.value.receipt == block.receipts[x.header.txIndex]
              && r.value.header.timestamp == block.header.timestamp && r.value.header.blockHash == x.header.blockHash
              && r.value.header.blockNumber == x.header.blockNumber && r.value.header.txIndex == x.header.txIndex
              && r.value.header.gasUsed == x.header.gasUsed && r.value.header.baseFee == x.header.baseFee)
    {
    }

    /** The three partial lookups are projections of the full one. */
    lemma Projections(r: Repr, archive: Archive)
      requires Convert(r, archive).Some?
      ensures var data := Convert(r, archive).value;
        && GetReceipt(r, archive) == Some((data.receipt, data.header))
        && GetTrace(r, archive) == Some((data.trace, data.header))
        && (FromArchive(r, archive) ==> GetTx(r, archive) == Some((data.tx, data.header)))
    {
    }
  }

  // ---- gas ----

  const TWO_64: nat := 0x1_0000_0000_0000_0000

  function Cumulative(receipts: seq<IndexedReceipt>, n: nat): U64
    requires n <= |receipts|
  {
    if n == 0 then 0 else receipts[n - 1].receipt.cumulativeGas
  }

  /** Unchecked 64-bit subtraction: it wraps when cumulative gas goes down. */
  function Minus(a: U64, b: U64): U64 { (a - b) % TWO_64 }

  function GasUsed(receipts: seq<IndexedReceipt>, i: nat): U64
    requires i < |receipts|
  {
    Minus(receipts[i].receipt.cumulativeGas, Cumulative(receipts, i))
  }

  function GasSum(receipts: seq<IndexedReceipt>, n: nat): nat
    requires n <= |receipts|
  {
    if n == 0 then 0 else GasSum(receipts, n - 1) + GasUsed(receipts, n - 1)
  }

  /** How often cumulative gas goes down among the first n receipts. */
  function Drops(receipts: seq<IndexedReceipt>, n: nat): nat
    requires n <= |receipts|
  {
    if n == 0 then 0 else
      Drops(receipts, n - 1) + (if receipts[n - 1].receipt.cumulativeGas < Cumulative(receipts, n - 1) then 1 else 0)
  }

  /** Gas used sums to the last cumulative value, plus 2^64 for each time cumulative gas went down. */
  lemma {:induction false} GasConserved(receipts: seq<IndexedReceipt>, n: nat)
    requires n <= |receipts|
    ensures GasSum(receipts, n) == Cumulative(receipts, n) + TWO_64 * Drops(receipts, n)
  {
    if n > 0 {
      GasConserved(receipts, n - 1);
    }
  }

  /** So it is the last cumulative value exactly when cumulative gas never went down. */
  lemma GasConservedIff(receipts: seq<IndexedReceipt>)
    ensures GasSum(receipts, |receipts|) == Cumulative(receipts, |receipts|) <==>
      forall i :: 0 <= i < |receipts| ==> Cumulative(receipts, i) <= receipts[i].receipt.cumulativeGas
  {
    GasConserved(receipts, |receipts|);
    NoDrops(receipts, |receipts|);
  }

  lemma {:induction false} NoDrops(receipts: seq<IndexedReceipt>, n: nat)
    requires n <= |receipts|
    ensures Drops(receipts, n) == 0 <==> forall i :: 0 <= i < n ==>
      Cumulative(receipts, i) <= receipts[i].receipt.cumulativeGas
  {
    if n > 0 {
      NoDrops(receipts, n - 1);
    }
  }

  /** map_block_receipts: the running total of the whole-block path. */
  method MapBlockReceipts(txs: seq<SenderTx>, receipts: seq<IndexedReceipt>) returns (r: Option<seq<U64>>)
    ensures r.Some? <==> |txs| == |receipts|
    ensures r.Some? ==>
      |r.value| == |receipts| && forall i :: 0 <= i < |receipts| ==> r.value[i] == GasUsed(receipts, i)
  {
    if |txs| != |receipts| {
      return None;
    }
    var cumulative: U64, used: seq<U64> := 0, [];
    for i := 0 to |receipts|
      invariant cumulative == Cumulative(receipts, i) && |used| == i
      invariant forall j :: 0 <= j < i ==> used[j] == GasUsed(receipts, j)
    {
      used := used + [Minus(receipts[i].receipt.cumulativeGas, cumulative)];
      cumulative := receipts[i].receipt.cumulativeGas;
    }
    return Some(used);
  }

  /** get_receipt_from_triedb: the single-receipt path looks at the receipt before. */
  function ReceiptGas(receipts: seq<IndexedReceipt>, i: nat): (r: Option<U64>)
    ensures r == if i < |receipts| then Some(GasUsed(receipts, i)) else None
  {
    if i >= |receipts| then None
    else if i > 0 then Some(Minus(receipts[i].receipt.cumulativeGas, receipts[i - 1].receipt.cumulativeGas))
    else Some(receipts[i].receipt.cumulativeGas)
  }

  // ---- indexing a block ----

  type Store = map<Hash, Bytes>

  datatype Indexer = Indexer(lib: IndexLib, txHash: nat -> Hash, maxInline: nat)

  function Subset(block: BlockData, i: nat): HeaderSubset
    requires i < |block.receipts|
  {
    HeaderSubset(block.header.hash, block.header.number, block.header.timestamp, i, GasUsed(block.receipts, i),
      block.header.baseFee)
  }

  /** The record of transaction i. */
  function Record(block: BlockData, i: nat): TxIndexedData
    requires i < |block.receipts| && i < |block.txs| && i < |block.traces|
  {
    TxIndexedData(block.txs[i], block.traces[i], block.receipts[i], Subset(block, i))
  }

  predicate SameCounts(block: BlockData, offsets: Option<seq<TxByteOffsets>>) {
    |block.txs| == |block.traces| == |block.receipts| && (offsets.Some? ==> |offsets.value| == |block.receipts|)
  }

  function ReferenceTo(block: BlockData, offsets: Option<seq<TxByteOffsets>>, i: nat): Repr
    requires SameCounts(block, offsets) && i < |block.txs|
  {
    Reference(ReferenceV0(block.header.number, Subset(block, i), if offsets.Some? then Some(offsets.value[i])
      else None))
  }

  /** The row of transaction i: inline if it is short enough, otherwise a reference to the block. */
  function Row(x: Indexer, block: BlockData, offsets: Option<seq<TxByteOffsets>>, i: nat): Option<Bytes>
    requires SameCounts(block, offsets) && i < |block.txs|
  {
    var encoded :- x.lib.Layout().Encode(Inline(Record(block, i)));
    if |encoded| > x.maxInline then x.lib.Layout().Encode(ReferenceTo(block, offsets, i)) else Some(encoded)
  }

  function KeyOf(x: Indexer, block: BlockData, i: nat): Hash
    requires i < |block.txs|
  {
    x.txHash(block.txs[i].tx)
  }

  /** Under `key`, r holds the row of transaction i. */
  ghost predicate IsRow(x: Indexer, block: BlockData, offsets: Option<seq<TxByteOffsets>>, r: Store, key: Hash, i: nat)
    requires SameCounts(block, offsets)
  {
    i < |block.txs| && key == KeyOf(x, block, i) && key in r && Some(r[key]) == Row(x, block, offsets, i)
  }

  /**
   * What index_block leaves: rows already stored stay, every transaction has a row, and every new row is
   * one of the block's. Of transactions that share a hash any one may win, since puts are unordered.
   */
  ghost predicate Put(x: Indexer, store0: Store, block: BlockData, offsets: Option<seq<TxByteOffsets>>, r: Store)
    requires SameCounts(block, offsets)
  {
    && (forall key :: key in store0 ==> key in r && r[key] == store0[key])
    && (forall i :: 0 <= i < |block.txs| ==> KeyOf(x, block, i) in r)
    && (forall key :: key in r && key !in store0 ==> exists i: nat :: IsRow(x, block, offsets, r, key, i))
  }

  /** index_block; rows already stored are not overwritten. */
  method IndexBlock(x: Indexer, store0: Store, block: BlockData, offsets: Option<seq<TxByteOffsets>>)
    returns (r: Option<Store>)
    ensures r.Some? <==> SameCounts(block, offsets) && forall i :: 0 <= i < |block.txs| ==>
      Row(x, block, offsets, i).Some?
    ensures r.Some? ==> Put(x, store0, block, offsets, r.value)
  {
    hide Row;
    if !SameCounts(block, offsets) {
      return None;
    }
    var prev: U64, rows: seq<Bytes> := 0, [];
    for i := 0 to |block.txs|
      invariant prev == Cumulative(block.receipts, i) && |rows| == i
      invariant forall j :: 0 <= j < i ==> Row(x, block, offsets, j) == Some(rows[j])
    {
      var gas := Minus(block.receipts[i].receipt.cumulativeGas, prev);
      prev := block.receipts[i].receipt.cumulativeGas;
      var row := EncodeRow(x, block, offsets, i, gas);
      if row.None? {
        return None;
      }
      rows := rows + [row.value];
    }
    var store := PutRows(x, store0, block, offsets, rows);
    return Some(store);
  }

  /** bulk_put without clobbering. */
  method PutRows(x: Indexer, store0: Store, block: BlockData, ghost offsets: Option<seq<TxByteOffsets>>,
                 rows: seq<Bytes>)
    returns (store: Store)
    requires SameCounts(block, offsets) && |rows| == |block.txs|
    requires forall j :: 0 <= j < |rows| ==> Row(x, block, offsets, j) == Some(rows[j])
    ensures Put(x, store0, block, offsets, store)
  {
    hide Row;
    store := store0;
    for i := 0 to |rows|
      invariant forall key :: key in store0 ==> key in store && store[key] == store0[key]
      invariant forall j :: 0 <= j < i ==> KeyOf(x, block, j) in store
      invariant forall key :: key in store && key !in store0 ==>
        exists j: nat :: IsRow(x, block, offsets, store, key, j)
    {
      var key := KeyOf(x, block, i);
      if key !in store {
        ghost var before := store;
        store := store[key := rows[i]];
        assert IsRow(x, block, offsets, store, key, i);
        forall k | k in before && k !in store0 ensures exists j: nat :: IsRow(x, block, offsets, store, k, j) {
          var j: nat :| IsRow(x, block, offsets, before, k, j);
          assert IsRow(x, block, offsets, store, k, j);
        }
      }
    }
  }

  /** One row: inline if it is short enough, otherwise a reference to the block. */
  method EncodeRow(x: Indexer, block: BlockData, offsets: Option<seq<TxByteOffsets>>, i: nat, gas: U64)
    returns (row: Option<Bytes>)
    requires SameCounts(block, offsets) && i < |block.txs| && gas == GasUsed(block.receipts, i)
    ensures row == Row(x, block, offsets, i)
  {
    hide Format.Encode;
    var header := HeaderSubset(block.header.hash, block.header.number, block.header.timestamp, i, gas,
      block.header.baseFee);
    row := x.lib.Layout().Encode(Inline(TxIndexedData(block.txs[i], block.traces[i], block.receipts[i], header)));
    if row.Some? && |row.value| > x.maxInline {
      var offset := if offsets.Some? then Some(offsets.value[i]) else None;
      row := x.lib.Layout().Encode(Reference(ReferenceV0(block.header.number, header, offset)));
    }
  }

  /** get_tx_indexed_data; None for an unknown hash, Some(None) for a record that cannot be resolved. */
  function Lookup(x: Indexer, store: Store, archive: Archive, hash: Hash): Option<Option<TxIndexedData>> {
    if hash !in store then None else
      var repr := x.lib.Layout().Decode(store[hash]);
      Some(if repr.Some? then x.lib.Convert(repr.value, archive) else None)
  }

  ghost predicate Archived(block: BlockData, archive: Archive) {
    block.header.number in archive && archive[block.header.number] == block
  }

  /** With the block archived, a row reads back as the record, inline or not. */
  lemma RowReadsBack(x: Indexer, block: BlockData, offsets: Option<seq<TxByteOffsets>>, archive: Archive, i: nat)
    requires x.lib.Lawful() && SameCounts(block, offsets) && i < |block.txs| && Archived(block, archive)
    requires Row(x, block, offsets, i).Some?
    ensures var repr := x.lib.Layout().Decode(Row(x, block, offsets, i).value);
      repr.Some? && x.lib.Convert(repr.value, archive) == Some(Record(block, i))
  {
    hide Format.Encode, Format.Decode, IndexLib.Layout, GasUsed;
    var inline := x.lib.Layout().Encode(Inline(Record(block, i))).value;
    if |inline| > x.maxInline {
      x.lib.ReadsBack(ReferenceTo(block, offsets, i), Row(x, block, offsets, i).value);
    } else {
      x.lib.ReadsBack(Inline(Record(block, i)), inline);
    }
  }

  /** The record is that of transaction i of the block, with the block's own header data. */
  ghost predicate IsRecord(block: BlockData, i: nat, r: TxIndexedData)
    requires SameLengths(block) && i < |block.txs|
  {
    && r.tx == block.txs[i] && r.trace == block.traces[i] && r.receipt == block.receipts[i]
    && IsHeader(block, i, r.header)
  }

  ghost predicate IsHeader(block: BlockData, i: nat, h: HeaderSubset)
    requires i < |block.receipts|
  {
    && h.blockHash == block.header.hash && h.blockNumber == block.header.number
    && h.timestamp == block.header.timestamp && h.baseFee == block.header.baseFee
    && h.txIndex == i && h.gasUsed == GasUsed(block.receipts, i)
  }

  /**
   * What is stored for transaction i: its record in at most maxInline bytes, or, exactly when the record is
   * longer than that, its header data with the transaction's own byte offsets.
   */
  lemma RowSays(x: Indexer, block: BlockData, offsets: Option<seq<TxByteOffsets>>, i: nat)
    requires x.lib.Lawful() && SameCounts(block, offsets) && i < |block.txs| && Row(x, block, offsets, i).Some?
    ensures var row := Row(x, block, offsets, i).value; var stored := x.lib.Layout().Decode(row);
      && stored.Some? && !stored.value.Old?
      && (stored.value.Inline? ==> |row| <= x.maxInline && IsRecord(block, i, stored.value.data))
      && (stored.value.Reference? ==>
            var ref := stored.value.reference;
            var whole := Inline(TxIndexedData(block.txs[i], block.traces[i], block.receipts[i], ref.header));
            && x.lib.Layout().Encode(whole).Some? && |x.lib.Layout().Encode(whole).value| > x.maxInline
            && ref.blockNumber == block.header.number && IsHeader(block, i, ref.header)
            && (ref.offsets.Some? <==> offsets.Some?) && (offsets.Some? ==> ref.offsets.value == offsets.value[i]))
  {
    hide Format.Encode, Format.Decode, IndexLib.Layout, GasUsed;
    var inline := x.lib.Layout().Encode(Inline(Record(block, i))).value;
    if |inline| > x.maxInline {
      x.lib.ReadsBack(ReferenceTo(block, offsets, i), Row(x, block, offsets, i).value);
    } else {
      x.lib.ReadsBack(Inline(Record(block, i)), inline);
    }
  }

  predicate SameLengths(block: BlockData) { |block.txs| == |block.traces| == |block.receipts| }

  /** What a lookup by transaction hash finds after index_block: the stored row if there was one, else the record. */
  lemma LookupAfter(x: Indexer, store0: Store, block: BlockData, offsets: Option<seq<TxByteOffsets>>, archive: Archive,
                    r: Store, i: nat)
    requires x.lib.Lawful() && SameCounts(block, offsets) && i < |block.txs| && Archived(block, archive)
    requires Put(x, store0, block, offsets, r) && DistinctHashes(x, block)
    ensures var key := x.txHash(block.txs[i].tx); var found := Lookup(x, r, archive, key);
      if key in store0 then found == Lookup(x, store0, archive, key)
      else found.Some? && found.value.Some? && IsRecord(block, i, found.value.value)
  {
    hide Row, IndexLib.Layout, IndexLib.Convert, GasUsed;
    var key := KeyOf(x, block, i);
    if key !in store0 {
      var j: nat :| IsRow(x, block, offsets, r, key, j);
      assert i == j;
      RowReadsBack(x, block, offsets, archive, i);
    }
  }

  lemma OneRecord(block: BlockData, i: nat, a: TxIndexedData, b: TxIndexedData)
    requires SameLengths(block) && i < |block.txs| && IsRecord(block, i, a) && IsRecord(block, i, b)
    ensures a == b
  {
    hide GasUsed;
  }

  lemma KeysAfter(x: Indexer, store0: Store, block: BlockData, offsets: Option<seq<TxByteOffsets>>, r: Store,
                  hash: Hash)
    requires SameCounts(block, offsets) && Put(x, store0, block, offsets, r)
    ensures hash in r <==> hash in store0 || exists i :: 0 <= i < |block.txs| && hash == KeyOf(x, block, i)
  {
    hide Row;
    if hash in r && hash !in store0 {
      var i: nat :| IsRow(x, block, offsets, r, hash, i);
      assert hash == KeyOf(x, block, i);
    }
  }

  /** Transactions of a block are told apart by their hashes. */
  ghost predicate DistinctHashes(x: Indexer, block: BlockData) {
    forall i, j :: 0 <= i < |block.txs| && 0 <= j < |block.txs| && KeyOf(x, block, i) == KeyOf(x, block, j) ==> i == j
  }

  /**
   * After indexing the same block into the same store, two indexers that differ only in their threshold answer
   * every lookup alike.
   */
  lemma ThresholdInvisible(x: Indexer, y: Indexer, store0: Store, block: BlockData, offsets: Option<seq<TxByteOffsets>>,
                           archive: Archive, sx: Store, sy: Store, hash: Hash)
    requires y == x.(maxInline := y.maxInline) && x.lib.Lawful() && DistinctHashes(x, block)
    requires SameCounts(block, offsets) && Archived(block, archive)
    requires Put(x, store0, block, offsets, sx) && Put(y, store0, block, offsets, sy)
    ensures Lookup(x, sx, archive, hash) == Lookup(y, sy, archive, hash)
  {
    hide Row, IndexLib.Layout, IndexLib.Convert, Record;
    assert forall i :: 0 <= i < |block.txs| ==> KeyOf(y, block, i) == KeyOf(x, block, i);
    KeysAfter(x, store0, block, offsets, sx, hash);
    KeysAfter(y, store0, block, offsets, sy, hash);
    if hash in sx && hash !in store0 {
      var i: nat :| IsRow(x, block, offsets, sx, hash, i);
      LookupAfter(x, store0, block, offsets, archive, sx, i);
      LookupAfter(y, store0, block, offsets, archive, sy, i);
      OneRecord(block, i, Lookup(x, sx, archive, hash).value.value, Lookup(y, sy, archive, hash).value.value);
    }
  }

  /** The gas recorded in the index is the gas both receipt paths report. */
  lemma GasAgrees(block: BlockData, i: nat)
    requires i < |block.receipts| && i < |block.txs| && i < |block.traces|
    ensures ReceiptGas(block.receipts, i) == Some(Record(block, i).header.gasUsed)
    ensures Record(block, i).header.gasUsed == GasUsed(block.receipts, i)
  {
  }
}
