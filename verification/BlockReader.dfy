/** Assembling a block for the writer from archived data (read_finalized_block in index/mod.rs). */
module BlockReader {
  import opened Seqs
  import opened Schema
  import opened TraceAddresses
  import AncestorStatus
  import Chain

  const U8_MAX: nat := 0xFF
  const U32_MAX: nat := 0xFFFF_FFFF
  const U64_MAX: nat := 0xFFFF_FFFF_FFFF_FFFF

  datatype ArchivedFrame = ArchivedFrame(
    kind: CallKind, from: Address, to: Option<Address>, input: Bytes, status: nat, depth: nat,
    gas: nat, gasUsed: nat, rest: nat)

  datatype ArchivedLog = ArchivedLog(address: Address, topics: seq<Hash>, data: Bytes)

  datatype ArchivedReceipt = ArchivedReceipt(status: bool, logs: seq<ArchivedLog>)

  /** Traces are decoded as groups of frames per transaction. */
  datatype Archived = Archived(
    header: Header, txs: seq<StoredTx>, receipts: seq<ArchivedReceipt>, traces: seq<seq<seq<ArchivedFrame>>>)

  function FrameDepths(frames: seq<ArchivedFrame>): (depths: seq<nat>)
    ensures |depths| == |frames|
  {
    seq(|frames|, i requires 0 <= i < |frames| => frames[i].depth)
  }

  /** Trace j is frame j of transaction tx. */
  predicate TraceOf(frame: ArchivedFrame, tx: nat, txStatus: bool, trace: StoredTrace) {
    && trace.kind == frame.kind && trace.from == frame.from && trace.to == frame.to && trace.input == frame.input
    && trace.status == frame.status && trace.rest == frame.rest && trace.txIndex == tx && trace.txStatus == txStatus
  }

  ghost predicate TracesOf(frames: seq<ArchivedFrame>, tx: nat, txStatus: bool, traces: seq<StoredTrace>) {
    && |traces| == |frames| && Addressed(traces, FrameDepths(frames)) && AncestorStatus.AllOf(traces, tx)
    && forall j :: 0 <= j < |frames| ==> TraceOf(frames[j], tx, txStatus, traces[j])
  }

  /** Depth, gas and status fit the widths they are stored with. */
  predicate FrameFits(f: ArchivedFrame) {
    f.depth <= U32_MAX && f.gas <= U64_MAX && f.gasUsed <= U64_MAX && f.status <= U8_MAX
  }

  ghost predicate FramesOk(frames: seq<ArchivedFrame>) {
    NoSkip(FrameDepths(frames)) && forall j :: 0 <= j < |frames| ==> FrameFits(frames[j])
  }

  method AssembleTraces(frames: seq<ArchivedFrame>, tx: nat, txStatus: bool) returns (r: Option<seq<StoredTrace>>)
    ensures r.Some? <==> FramesOk(frames)
    ensures r.Some? ==> TracesOf(frames, tx, txStatus, r.value)
  {
    hide TraceAddresses.Address, NoSkip, Next;
    var depths := FrameDepths(frames);
    var addresses := ComputeTraceAddresses(depths);
    if addresses.None? {
      return None;
    }
    var traces: seq<StoredTrace> := [];
    for j := 0 to |frames|
      invariant |traces| == j && forall i :: 0 <= i < j ==> FrameFits(frames[i])
      invariant forall i :: 0 <= i < j ==>
        TraceOf(frames[i], tx, txStatus, traces[i]) && traces[i].traceAddress == addresses.value[i]
    {
      var f := frames[j];
      if !FrameFits(f) {
        return None;
      }
      traces := traces + [StoredTrace(f.kind, f.from, f.to, f.input, f.status, tx, addresses.value[j], txStatus,
        f.rest)];
    }
    return Some(traces);
  }

  /** Log j of a receipt carries the transaction's index and its own. */
  function LogsOf(logs: seq<ArchivedLog>, tx: nat): (r: seq<StoredLog>)
    ensures |r| == |logs|
  {
    seq(|logs|, j requires 0 <= j < |logs| => StoredLog(tx, j, logs[j].address, logs[j].topics, logs[j].data))
  }

  /** The logs of transaction tx in order, numbered within the transaction. */
  ghost predicate LogsAre(archived: seq<ArchivedLog>, tx: nat, logs: seq<StoredLog>) {
    && |logs| == |archived|
    && forall j :: 0 <= j < |logs| ==>
      && logs[j].txIndex == tx && logs[j].logIndex == j && logs[j].address == archived[j].address
      && logs[j].topics == archived[j].topics && logs[j].data == archived[j].data
  }

  ghost predicate TxOf(data: Archived, t: nat, tx: Tx)
    requires t < |data.txs| && |data.txs| == |data.receipts| == |data.traces|
  {
    && tx.envelope == data.txs[t] && LogsAre(data.receipts[t].logs, t, tx.logs)
    && TracesOf(Flatten(data.traces[t]), t, data.receipts[t].status, tx.traces)
  }

  /** Transaction t has frames with addresses, and its own and its logs' indices fit 32 bits. */
  ghost predicate TxReadable(data: Archived, t: nat)
    requires t < |data.receipts| == |data.traces|
  {
    t <= U32_MAX && FramesOk(Flatten(data.traces[t])) && |data.receipts[t].logs| <= U32_MAX + 1
  }

  ghost predicate Readable(data: Archived) {
    && |data.txs| == |data.receipts| == |data.traces|
    && forall t :: 0 <= t < |data.traces| ==> TxReadable(data, t)
  }

  /** read_finalized_block, after the archive has been read and its traces decoded. */
  method ReadFinalizedBlock(data: Archived) returns (r: Option<Block>)
    ensures r.Some? <==> Readable(data)
    ensures r.Some? ==> r.value.header == data.header && |r.value.txs| == |data.txs|
    ensures r.Some? ==> forall t :: 0 <= t < |data.txs| ==> TxOf(data, t, r.value.txs[t])
    ensures r.Some? ==> AncestorStatus.Grouped(Chain.TraceGroups(r.value))
  {
    hide FramesOk, TracesOf;
    if |data.txs| != |data.receipts| || |data.traces| != |data.txs| {
      return None;
    }
    var txs: seq<Tx> := [];
    for t := 0 to |data.txs|
      invariant |txs| == t && forall i :: 0 <= i < t ==> TxOf(data, i, txs[i]) && TxReadable(data, i)
    {
      if t > U32_MAX || |data.receipts[t].logs| > U32_MAX + 1 {
        assert !TxReadable(data, t);
        return None;
      }
      var traces := AssembleTraces(Flatten(data.traces[t]), t, data.receipts[t].status);
      if traces.None? {
        assert !TxReadable(data, t);
        return None;
      }
      txs := txs + [Tx(data.txs[t], LogsOf(data.receipts[t].logs, t), traces.value)];
    }
    var block := Block(data.header, txs);
    forall t | 0 <= t < |txs| ensures AncestorStatus.AllOf(txs[t].traces, t) { TracesNumbered(data, t, txs[t]); }
    return Some(block);
  }

  lemma TracesNumbered(data: Archived, t: nat, tx: Tx)
    requires t < |data.txs| && |data.txs| == |data.receipts| == |data.traces| && TxOf(data, t, tx)
    ensures AncestorStatus.AllOf(tx.traces, t)
  {
  }

  /**
   * For an assembled block, the flag of trace j of transaction t, computed over the whole block or over
   * the transaction alone, says whether a proper ancestor of its frame failed.
   */
  lemma FlagsOfAssembledBlock(data: Archived, block: Block, t: nat, j: nat)
    requires |data.txs| == |data.receipts| == |data.traces| == |block.txs| && t < |block.txs|
    requires forall i :: 0 <= i < |block.txs| ==> TxOf(data, i, block.txs[i])
    requires j < |block.txs[t].traces|
    ensures var traces, i := Flatten(Chain.TraceGroups(block)), Offset(Chain.TraceGroups(block), t) + j;
      var depths := FrameDepths(Flatten(data.traces[t]));
      && i < |traces| && j < |depths| && AncestorStatus.FlagAt(traces, i)
        == AncestorStatus.FlagAt(block.txs[t].traces, j)
      && (AncestorStatus.FlagAt(traces, i) <==> exists k: nat ::
        Ancestor(depths, k, j) && Flatten(data.traces[t])[k].status != 0)
  {
    hide AncestorStatus.FlagAt, Addressed;
    forall i | 0 <= i < |block.txs| ensures AncestorStatus.AllOf(block.txs[i].traces, i) {
      TracesNumbered(data, i, block.txs[i]);
    }
    Chain.TraceFlag(block, t, j);
    assert TxOf(data, t, block.txs[t]);
    var depths := FrameDepths(Flatten(data.traces[t]));
    AncestorReverted(block.txs[t].traces, depths, t, j);
    assert forall k: nat :: Ancestor(depths, k, j) ==>
      block.txs[t].traces[k].status == Flatten(data.traces[t])[k].status;
  }
}
