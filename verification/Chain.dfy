/** The finalized chain seen as one stream of rows per family, with the ids the index gives them. */
module Chain {
  import opened Seqs
  import opened Schema
  import AncestorStatus
  import Payload
  import Bitmap

  /** Blocks start, start + 1, ... of the finalized chain, linked by parent hash. */
  datatype Chain = Chain(start: nat, blocks: seq<Block>) {
    ghost predicate Linked(c: Codec) {
      && (forall i :: 0 <= i < |blocks| ==> blocks[i].Number() == start + i)
      && (forall i, j :: 0 <= i < |blocks| && j == i + 1 && j < |blocks| ==>
        blocks[j].header.parentHash == c.hash(blocks[i].header))
    }
  }

  // ---- rows of a transaction and of a block ----

  function TxRows(tx: Tx, f: Family): seq<Item> {
    match f
    case BlockHeader => []
    case Transaction => [TxItem(tx.envelope)]
    case Log => seq(|tx.logs|, i requires 0 <= i < |tx.logs| => LogItem(tx.logs[i]))
    case Trace => seq(|tx.traces|, i requires 0 <= i < |tx.traces| => TraceItem(tx.traces[i]))
  }

  /** The filters each row of the transaction is indexed under. */
  function TxTags(c: Codec, tx: Tx, f: Family): (tags: seq<seq<Filter>>)
    ensures |tags| == |TxRows(tx, f)|
  {
    match f
    case BlockHeader => []
    case Transaction => [var r := TxFilters(c, tx.envelope); if r.Some? then r.value else []]
    case Log => seq(|tx.logs|, i requires 0 <= i < |tx.logs| => LogFilters(tx.logs[i]))
    case Trace =>
      seq(|tx.traces|, i requires 0 <= i < |tx.traces| =>
        TraceFilters(tx.traces[i], AncestorStatus.FlagAt(tx.traces, i)))
  }

  function TxRowGroups(b: Block, f: Family): (r: seq<seq<Item>>)
    ensures |r| == |b.txs|
  {
    seq(|b.txs|, i requires 0 <= i < |b.txs| => TxRows(b.txs[i], f))
  }

  function TxTagGroups(c: Codec, b: Block, f: Family): (r: seq<seq<seq<Filter>>>)
    ensures |r| == |b.txs|
  {
    seq(|b.txs|, i requires 0 <= i < |b.txs| => TxTags(c, b.txs[i], f))
  }

  function BlockRows(b: Block, f: Family): seq<Item> {
    if f.BlockHeader? then [HeaderItem(b.header)] else Flatten(TxRowGroups(b, f))
  }

  function BlockTags(c: Codec, b: Block, f: Family): (tags: seq<seq<Filter>>)
    ensures |tags| == |BlockRows(b, f)|
  {
    SameShape(TxRowGroups(b, f), TxTagGroups(c, b, f), |b.txs|);
    if f.BlockHeader? then [HeaderFilters(b.header)] else Flatten(TxTagGroups(c, b, f))
  }

  /** The traces of a block, transaction by transaction. */
  function TraceGroups(b: Block): (r: seq<seq<StoredTrace>>)
    ensures |r| == |b.txs|
  {
    seq(|b.txs|, t requires 0 <= t < |b.txs| => b.txs[t].traces)
  }

  /** Flags over the whole block are the flags of the transaction alone. */
  lemma TraceFlag(b: Block, t: nat, j: nat)
    requires AncestorStatus.Grouped(TraceGroups(b)) && t < |b.txs| && j < |b.txs[t].traces|
    ensures var traces := Flatten(TraceGroups(b)); var i := Offset(TraceGroups(b), t) + j;
      i < |traces| && AncestorStatus.FlagAt(traces, i) == AncestorStatus.FlagAt(b.txs[t].traces, j)
  {
    hide AncestorStatus.FlagAt, AncestorStatus.Grouped;
    var groups := TraceGroups(b);
    var flags := AncestorStatus.FlagGroups(groups);
    AncestorStatus.BlockRunIsPerTransaction(groups);
    FlatAt(groups, t, j);
    FlatAt(flags, t, j);
    SameShape(groups, flags, t);
    assert AncestorStatus.Flags(Flatten(groups))[Offset(groups, t) + j] == flags[t][j];
  }

  /** Every signed transaction of the block decodes, so the block can be indexed. */
  predicate Indexable(c: Codec, b: Block) {
    forall i :: 0 <= i < |b.txs| ==> TxFilters(c, b.txs[i].envelope).Some?
  }

  /** Row j of transaction t inside the block, and its filters. */
  lemma RowInTx(c: Codec, b: Block, f: Family, t: nat, j: nat)
    requires f != BlockHeader && t < |b.txs| && j < |TxRows(b.txs[t], f)|
    ensures var i := Offset(TxRowGroups(b, f), t) + j;
      && i < |BlockRows(b, f)| && BlockRows(b, f)[i] == TxRows(b.txs[t], f)[j]
      && BlockTags(c, b, f)[i] == TxTags(c, b.txs[t], f)[j]
  {
    hide TxRows, TxTags;
    FlatAt(TxRowGroups(b, f), t, j);
    FlatAt(TxTagGroups(c, b, f), t, j);
    SameShape(TxRowGroups(b, f), TxTagGroups(c, b, f), t);
  }

  // ---- streams of a list of blocks ----

  function RowGroups(blocks: seq<Block>, f: Family): (r: seq<seq<Item>>)
    ensures |r| == |blocks|
  {
    seq(|blocks|, i requires 0 <= i < |blocks| => BlockRows(blocks[i], f))
  }

  function TagGroups(c: Codec, blocks: seq<Block>, f: Family): (r: seq<seq<seq<Filter>>>)
    ensures |r| == |blocks|
  {
    seq(|blocks|, i requires 0 <= i < |blocks| => BlockTags(c, blocks[i], f))
  }

  function Encode(c: Codec, rows: seq<Item>): (r: seq<Bytes>)
    ensures |r| == |rows|
  {
    seq(|rows|, i requires 0 <= i < |rows| => c.encode(rows[i]))
  }

  function RowStream(c: Codec, blocks: seq<Block>, f: Family, base: nat): Payload.Rows {
    Payload.Rows(base, Encode(c, Flatten(RowGroups(blocks, f))))
  }

  function TagStream(c: Codec, blocks: seq<Block>, f: Family, base: nat): Bitmap.Tags {
    Bitmap.Tags(base, Flatten(TagGroups(c, blocks, f)))
  }

  lemma StreamsAlign(c: Codec, blocks: seq<Block>, f: Family, n: nat)
    requires n <= |blocks|
    ensures Offset(TagGroups(c, blocks, f), n) == Offset(RowGroups(blocks, f), n)
  {
    SameShape(RowGroups(blocks, f), TagGroups(c, blocks, f), n);
  }

  // ---- ids ----

  /** Block headers are numbered by block height, the other families from 0. */
  function Base(ch: Chain, f: Family): nat { if f.BlockHeader? then ch.start else 0 }

  /** The first id of block n, and so the frontier once n blocks are indexed. */
  function Front(ch: Chain, f: Family, n: nat): nat
    requires n <= |ch.blocks|
  {
    Base(ch, f) + Offset(RowGroups(ch.blocks, f), n)
  }

  function RowsOf(c: Codec, ch: Chain, f: Family): Payload.Rows { RowStream(c, ch.blocks, f, Base(ch, f)) }
  function TagsOf(c: Codec, ch: Chain, f: Family): Bitmap.Tags { TagStream(c, ch.blocks, f, Base(ch, f)) }

  lemma FrontStep(ch: Chain, f: Family, n: nat)
    requires n < |ch.blocks|
    ensures Front(ch, f, n + 1) == Front(ch, f, n) + |BlockRows(ch.blocks[n], f)|
  {
  }

  lemma FrontZero(ch: Chain, f: Family)
    ensures Front(ch, f, 0) == Base(ch, f)
  {
  }

  lemma FrontEnd(c: Codec, ch: Chain, f: Family)
    ensures Front(ch, f, |ch.blocks|) == RowsOf(c, ch, f).End() == TagsOf(c, ch, f).End()
  {
    StreamsAlign(c, ch.blocks, f, |ch.blocks|);
  }

  lemma FrontMono(c: Codec, ch: Chain, f: Family, n: nat, m: nat)
    requires n <= m <= |ch.blocks|
    ensures Base(ch, f) <= Front(ch, f, n) <= Front(ch, f, m) <= RowsOf(c, ch, f).End() == TagsOf(c, ch, f).End()
  {
    FlatSlice(RowGroups(ch.blocks, f), n, m);
    StreamsAlign(c, ch.blocks, f, |ch.blocks|);
  }

  lemma {:induction false} HeaderFront(ch: Chain, n: nat)
    requires n <= |ch.blocks|
    ensures Front(ch, BlockHeader, n) == ch.start + n
  {
    if n > 0 {
      HeaderFront(ch, n - 1);
      FrontStep(ch, BlockHeader, n - 1);
    }
  }

  /** Rows n..m of the chain, numbered from the frontier, are the payload batch of those blocks. */
  lemma BatchRows(c: Codec, ch: Chain, f: Family, n: nat, m: nat)
    requires n <= m <= |ch.blocks|
    ensures Base(ch, f) <= Front(ch, f, n) <= Front(ch, f, m) <= RowsOf(c, ch, f).End()
    ensures RowStream(c, ch.blocks[n..m], f, Front(ch, f, n))
         == Payload.BatchRows(RowsOf(c, ch, f), Front(ch, f, n), Front(ch, f, m))
  {
    hide RowGroups, Encode, BlockRows;
    FrontMono(c, ch, f, n, m);
    RowGroupsSlice(ch.blocks, f, n, m);
    FlattenSlice(RowGroups(ch.blocks, f), n, m);
    EncodeSlice(c, Flatten(RowGroups(ch.blocks, f)), Offset(RowGroups(ch.blocks, f), n),
      Offset(RowGroups(ch.blocks, f), m));
  }

  lemma RowGroupsSlice(blocks: seq<Block>, f: Family, n: nat, m: nat)
    requires n <= m <= |blocks|
    ensures RowGroups(blocks[n..m], f) == RowGroups(blocks, f)[n..m]
  {
    hide BlockRows;
  }

  lemma TagGroupsSlice(c: Codec, blocks: seq<Block>, f: Family, n: nat, m: nat)
    requires n <= m <= |blocks|
    ensures TagGroups(c, blocks[n..m], f) == TagGroups(c, blocks, f)[n..m]
  {
    hide BlockTags, BlockRows;
  }

  lemma EncodeSlice(c: Codec, rows: seq<Item>, lo: nat, hi: nat)
    requires lo <= hi <= |rows|
    ensures Encode(c, rows[lo..hi]) == Encode(c, rows)[lo..hi]
  {
  }

  /** The same for the filters. */
  lemma BatchTags(c: Codec, ch: Chain, f: Family, n: nat, m: nat)
    requires n <= m <= |ch.blocks|
    ensures Base(ch, f) <= Front(ch, f, n) <= Front(ch, f, m) <= TagsOf(c, ch, f).End()
    ensures TagStream(c, ch.blocks[n..m], f, Front(ch, f, n))
      == Bitmap.Slice(TagsOf(c, ch, f), Front(ch, f, n), Front(ch, f, m))
  {
    hide TagGroups, RowGroups;
    FrontMono(c, ch, f, n, m);
    StreamsAlign(c, ch.blocks, f, n);
    StreamsAlign(c, ch.blocks, f, m);
    TagGroupsSlice(c, ch.blocks, f, n, m);
    FlattenSlice(TagGroups(c, ch.blocks, f), n, m);
  }
}
