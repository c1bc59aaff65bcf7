/** From archived call frames to index bits: what the trace bitmaps of a crash-consistent index say. */
module Transfers {
  import opened Seqs
  import opened Schema
  import opened Chain
  import opened Metadata
  import opened IndexState
  import opened Runs
  import opened Reads
  import opened IndexedRows
  import opened BlockReader
  import TraceAddresses
  import AncestorStatus

  /** Every block of the chain was assembled from archived data. */
  ghost predicate Assembled(ch: Chain, data: seq<Archived>) {
    |data| == |ch.blocks| && forall i :: 0 <= i < |data| ==> AssembledBlock(data[i], ch.blocks[i])
  }

  ghost predicate AssembledBlock(data: Archived, block: Block) {
    && |data.txs| == |data.receipts| == |data.traces| == |block.txs|
    && forall t :: 0 <= t < |block.txs| ==> TxOf(data, t, block.txs[t])
  }

  /** A frame moves value: it can transfer, it and the transaction succeeded, and so did every frame above it. */
  ghost predicate Effective(frames: seq<ArchivedFrame>, txStatus: bool, j: nat)
    requires j < |frames|
  {
    && frames[j].kind in {Call, Create, Create2, SelfDestruct} && frames[j].status == 0 && txStatus
    && forall k: nat :: TraceAddresses.Ancestor(FrameDepths(frames), k, j) ==> frames[k].status == 0
  }

  lemma FiltersSay(c: Codec, data: Archived, block: Block, t: nat, j: nat)
    requires AssembledBlock(data, block) && t < |block.txs| && j < |block.txs[t].traces|
    ensures var frames := Flatten(data.traces[t]); var tags := TxTags(c, block.txs[t], Trace);
      && j < |frames| && j < |tags|
      && (HasTransfer in tags[j] <==> Effective(frames, data.receipts[t].status, j))
      && (TopLevel in tags[j] <==> frames[j].depth == 0)
  {
    hide AncestorStatus.FlagAt, TraceAddresses.Address, TraceAddresses.Ancestor, TraceAddresses.NoSkip;
    assert TxOf(data, t, block.txs[t]);
    var frames, traces := Flatten(data.traces[t]), block.txs[t].traces;
    var depths := FrameDepths(frames);
    TraceAddresses.AncestorReverted(traces, depths, t, j);
    TraceAddresses.AncestorInRange(depths, j);
    assert forall k: nat :: TraceAddresses.Ancestor(depths, k, j) ==> traces[k].status == frames[k].status;
    assert TraceOf(frames[j], t, data.receipts[t].status, traces[j]);
    assert TraceAddresses.AddressOf(depths, j) == traces[j].traceAddress;
  }

  /**
   * After any run, crashes and failed flushes included, the transfer bit of a committed trace is set
   * exactly when its call frame took effect, and the top-level bit exactly when it is at depth 0.
   */
  lemma TraceBitsSay(c: Codec, ch: Chain, data: seq<Archived>, ops: seq<Op>, i: nat, t: nat, j: nat)
    requires ch.Linked(c) && (forall k :: 0 <= k < |ops| ==> OpOk(ch, ops[k])) && Assembled(ch, data)
    requires i < |ch.blocks| && i < Persisted(ch, Run(c, EMPTY_WORLD, ops, |ops|).db)
    requires t < |ch.blocks[i].txs| && j < |ch.blocks[i].txs[t].traces|
    ensures var pages, id := Run(c, EMPTY_WORLD, ops, |ops|).db.pages.trace, RowId(ch, Trace, i, t, j);
      var frames := Flatten(data[i].traces[t]);
      && j < |frames|
      && (BitSet(pages, HasTransfer, id) <==> Effective(frames, data[i].receipts[t].status, j))
      && (BitSet(pages, TopLevel, id) <==> frames[j].depth == 0)
  {
    hide Run, OpOk, Persisted, BitSet, Effective, TxTags, BlockCommitted, AssembledBlock, Chain.Linked, RowId;
    var b, db := ch.blocks[i], Run(c, EMPTY_WORLD, ops, |ops|).db;
    assert AssembledBlock(data[i], b);
    CrashConsistency(c, ch, ops, i, Trace);
    FiltersSay(c, data[i], b, t, j);
    CommittedRow(c, ch, db, Trace, i, t, j, HasTransfer);
    CommittedRow(c, ch, db, Trace, i, t, j, TopLevel);
  }
}
