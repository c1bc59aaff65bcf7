/** Every committed row after any run: its id, its stored bytes, and the filters it is found under. */
module IndexedRows {
  import opened Seqs
  import opened Schema
  import opened Chain
  import opened Metadata
  import opened IndexState
  import opened Runs
  import opened Reads
  import opened RowMeaning
  import AncestorStatus
  import Payload

  // ---- ids ----

  /** How many rows of family f a transaction has. */
  function RowCount(tx: Tx, f: Family): nat {
    match f
    case BlockHeader => 0
    case Transaction => 1
    case Log => |tx.logs|
    case Trace => |tx.traces|
  }

  function RowsBefore(b: Block, f: Family, t: nat): nat
    requires t <= |b.txs|
  {
    if t == 0 then 0 else RowsBefore(b, f, t - 1) + RowCount(b.txs[t - 1], f)
  }

  function BlocksBefore(ch: Chain, f: Family, i: nat): nat
    requires i <= |ch.blocks|
  {
    if i == 0 then 0 else BlocksBefore(ch, f, i - 1) + RowsBefore(ch.blocks[i - 1], f, |ch.blocks[i - 1].txs|)
  }

  /** Row j of transaction t of block i: ids count all rows before it, from 0. */
  function RowId(ch: Chain, f: Family, i: nat, t: nat, j: nat): nat
    requires i < |ch.blocks| && t <= |ch.blocks[i].txs|
  {
    BlocksBefore(ch, f, i) + RowsBefore(ch.blocks[i], f, t) + j
  }

  lemma {:induction false} OffsetInBlock(b: Block, f: Family, t: nat)
    requires t <= |b.txs| && f != BlockHeader
    ensures Offset(TxRowGroups(b, f), t) == RowsBefore(b, f, t)
  {
    if t == 0 {
      NoOffset(TxRowGroups(b, f));
    } else {
      OffsetInBlock(b, f, t - 1);
      OffsetStep(TxRowGroups(b, f), t - 1);
    }
  }

  lemma {:induction false} FrontCounts(ch: Chain, f: Family, i: nat)
    requires i <= |ch.blocks| && f != BlockHeader
    ensures Front(ch, f, i) == BlocksBefore(ch, f, i)
  {
    hide Front;
    if i == 0 {
      FrontZero(ch, f);
    } else {
      FrontCounts(ch, f, i - 1);
      FrontStep(ch, f, i - 1);
      OffsetInBlock(ch.blocks[i - 1], f, |ch.blocks[i - 1].txs|);
    }
  }

  // ---- one committed row ----

  /** The row stands at its id with its encoding, and under exactly its filters. */
  lemma CommittedRow(c: Codec, ch: Chain, db: Durable, f: Family, i: nat, t: nat, j: nat, flt: Filter)
    requires i < |ch.blocks| && BlockCommitted(c, ch, db, f, i) && f != BlockHeader
    requires t < |ch.blocks[i].txs| && j < |TxRows(ch.blocks[i].txs[t], f)|
    ensures var id, tx := RowId(ch, f, i, t, j), ch.blocks[i].txs[t];
      && ReadRow(db.blobs.At(f), db.locs.At(f), id) == Some(c.encode(TxRows(tx, f)[j]))
      && (BitSet(db.pages.At(f), flt, id) <==> flt in TxTags(c, tx, f)[j])
  {
    hide BitSet, TxTags, TxRows, BlockTags, BlockRows, ReadRow, Finds, Front, SeekLe, Offset, RowsBefore, BlocksBefore;
    var b := ch.blocks[i];
    RowInTx(c, b, f, t, j);
    OffsetInBlock(b, f, t);
    FrontCounts(ch, f, i);
    assert RowCommitted(c, ch, db, f, i, Offset(TxRowGroups(b, f), t) + j);
    assert Payload.PartStart(0) == 0;
  }

  // ---- what readers find, family by family, after any run ----

  /** The run leaves block i committed. */
  ghost predicate Committed(c: Codec, ch: Chain, ops: seq<Op>, i: nat) {
    && ch.Linked(c) && (forall k :: 0 <= k < |ops| ==> OpOk(ch, ops[k]))
    && i < |ch.blocks| && i < Persisted(ch, Run(c, EMPTY_WORLD, ops, |ops|).db)
  }

  /** Header i is at its block number, found by its beneficiary alone, and read back unless nothing precedes it. */
  lemma HeaderRowSays(c: Codec, ch: Chain, ops: seq<Op>, i: nat, flt: Filter)
    requires Committed(c, ch, ops, i)
    ensures var db, id, h := Run(c, EMPTY_WORLD, ops, |ops|).db, ch.start + i, ch.blocks[i].header;
      && (BitSet(db.pages.header, flt, id) <==> HeaderWants(h, flt))
      && ReadRow(db.blobs.header, db.locs.header, id)
           == if i == 0 && Payload.PartStart(id) != id then None else Some(c.encode(HeaderItem(h)))
  {
    hide Run, OpOk, Persisted, BitSet, ReadRow, Finds, SeekLe, Front, HeaderFilters, HeaderWants, Payload.PartStart;
    var db := Run(c, EMPTY_WORLD, ops, |ops|).db;
    CrashConsistency(c, ch, ops, i, BlockHeader);
    HeaderFront(ch, i);
    HeaderFiltersSay(ch.blocks[i].header, flt);
    assert RowCommitted(c, ch, db, BlockHeader, i, 0);
    assert BitSet(db.pages.At(BlockHeader), flt, ch.start + i) <==> flt in BlockTags(c, ch.blocks[i], BlockHeader)[0];
  }

  /** Transaction t of block i is found by sender, recipient and selector. */
  lemma TxRowSays(c: Codec, ch: Chain, ops: seq<Op>, i: nat, t: nat, flt: Filter)
    requires Committed(c, ch, ops, i) && t < |ch.blocks[i].txs|
    ensures var db, id, tx := Run(c, EMPTY_WORLD, ops, |ops|).db, RowId(ch, Transaction, i, t, 0),
      ch.blocks[i].txs[t].envelope;
      && (BitSet(db.pages.tx, flt, id) <==> TxWants(c, tx, flt))
      && ReadRow(db.blobs.tx, db.locs.tx, id) == Some(c.encode(TxItem(tx)))
  {
    hide Run, OpOk, Persisted, BitSet, ReadRow, BlockCommitted, RowId, TxFilters, TxWants;
    CrashConsistency(c, ch, ops, i, Transaction);
    CommittedRow(c, ch, Run(c, EMPTY_WORLD, ops, |ops|).db, Transaction, i, t, 0, flt);
    TxFiltersSay(c, ch.blocks[i].txs[t].envelope, flt);
  }

  /** Log k of transaction t is found by its address and its topics at their own positions. */
  lemma LogRowSays(c: Codec, ch: Chain, ops: seq<Op>, i: nat, t: nat, k: nat, flt: Filter)
    requires Committed(c, ch, ops, i) && t < |ch.blocks[i].txs| && k < |ch.blocks[i].txs[t].logs|
    ensures var db, id, log := Run(c, EMPTY_WORLD, ops, |ops|).db, RowId(ch, Log, i, t, k), ch.blocks[i].txs[t].logs[k];
      && (BitSet(db.pages.log, flt, id) <==> LogWants(log, flt))
      && ReadRow(db.blobs.log, db.locs.log, id) == Some(c.encode(LogItem(log)))
  {
    hide Run, OpOk, Persisted, BitSet, ReadRow, BlockCommitted, RowId, LogFilters, LogWants;
    CrashConsistency(c, ch, ops, i, Log);
    CommittedRow(c, ch, Run(c, EMPTY_WORLD, ops, |ops|).db, Log, i, t, k, flt);
    LogFiltersSay(ch.blocks[i].txs[t].logs[k], flt);
  }

  /** Trace k of transaction t is found by caller, callee, selector, depth and the value it moved. */
  lemma TraceRowSays(c: Codec, ch: Chain, ops: seq<Op>, i: nat, t: nat, k: nat, flt: Filter)
    requires Committed(c, ch, ops, i) && t < |ch.blocks[i].txs| && k < |ch.blocks[i].txs[t].traces|
    ensures var db, id := Run(c, EMPTY_WORLD, ops, |ops|).db, RowId(ch, Trace, i, t, k);
      var traces := ch.blocks[i].txs[t].traces;
      && (BitSet(db.pages.trace, flt, id) <==> TraceWants(traces[k], AncestorStatus.FlagAt(traces, k), flt))
      && ReadRow(db.blobs.trace, db.locs.trace, id) == Some(c.encode(TraceItem(traces[k])))
  {
    hide Run, OpOk, Persisted, BitSet, ReadRow, BlockCommitted, RowId, TraceFilters, TraceWants, AncestorStatus.FlagAt;
    CrashConsistency(c, ch, ops, i, Trace);
    CommittedRow(c, ch, Run(c, EMPTY_WORLD, ops, |ops|).db, Trace, i, t, k, flt);
    var traces := ch.blocks[i].txs[t].traces;
    TraceFiltersSay(traces[k], AncestorStatus.FlagAt(traces, k), flt);
  }
}
