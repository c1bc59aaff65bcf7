/** The query index writer and the loop that drives it (lib.rs, index/mod.rs). */
module QueryWriter {
  import opened Seqs
  import opened Schema
  import opened Chain
  import opened Metadata
  import opened IndexState
  import opened Layout
  import opened Runs
  import FlushStages

  // ---- prepare_flush gives consecutive ids ----

  /** The first id of family f the next flush gives out. */
  function Counter(st: StateIndex, f: Family): nat {
    match f
    case BlockHeader => st.nextBlock
    case Transaction => st.nextTx
    case Log => st.nextLog
    case Trace => st.nextTrace
  }

  function RangeOf(st: StateIndex, pending: seq<Block>, f: Family, i: nat): Range
    requires i < |pending|
  {
    Range(Counter(st, f) + Offset(RowGroups(pending, f), i), |BlockRows(pending[i], f)|)
  }

  lemma {:induction false} AssignCounts(st: StateIndex, pending: seq<Block>, k: nat, f: Family)
    requires k <= |pending| && f != BlockHeader && Assign(st, pending, k).Some?
    ensures var r := Assign(st, pending, k).value;
      && |r.0| == k && Counter(r.1, f) == Counter(st, f) + Offset(RowGroups(pending, f), k)
      && forall i :: 0 <= i < k ==> r.0[i].block == pending[i] && r.0[i].Of(f) == RangeOf(st, pending, f, i)
  {
    hide BlockRows, Offset;
    if k > 0 {
      AssignCounts(st, pending, k - 1, f);
      OffsetStep(RowGroups(pending, f), k - 1);
    } else {
      assert Offset(RowGroups(pending, f), 0) == 0 by { NoOffset(RowGroups(pending, f)); }
    }
  }

  /** Rows are counted in 32 bits, and their ids end within 64. */
  predicate FitsWidths(r: Range) { r.count <= U32_MAX && r.End() <= U64_MAX }

  ghost predicate RangesFit(st: StateIndex, pending: seq<Block>, i: nat)
    requires i < |pending|
  {
    forall f: Family :: f != BlockHeader ==> FitsWidths(RangeOf(st, pending, f, i))
  }

  lemma OneFits(batch: seq<Assigned>, st: StateIndex, next: StateIndex, pending: seq<Block>, i: nat)
    requires i < |pending| && forall f :: f != BlockHeader ==> Counter(next, f) == RangeOf(st, pending, f, i).first
    ensures AssignOne(batch, next, pending[i]).Some? <==> RangesFit(st, pending, i)
  {
    hide BlockRows, Offset;
    var tx, log, trace := RangeOf(st, pending, Transaction, i), RangeOf(st, pending, Log, i),
      RangeOf(st, pending, Trace, i);
    assert Counter(next, Transaction) == tx.first && Counter(next, Log) == log.first;
    assert Counter(next, Trace) == trace.first;
    assert RangesFit(st, pending, i) <==> FitsWidths(tx) && FitsWidths(log) && FitsWidths(trace);
  }

  /** Ids are given out exactly when they all fit. */
  lemma {:induction false} AssignIff(st: StateIndex, pending: seq<Block>, k: nat)
    requires k <= |pending|
    ensures Assign(st, pending, k).Some? <==> forall i :: 0 <= i < k ==> RangesFit(st, pending, i)
  {
    hide BlockRows, Offset, AssignOne, RangesFit;
    if k > 0 {
      AssignIff(st, pending, k - 1);
      if Assign(st, pending, k - 1).Some? {
        var before := Assign(st, pending, k - 1).value;
        forall f | f != BlockHeader ensures Counter(before.1, f) == RangeOf(st, pending, f, k - 1).first {
          AssignCounts(st, pending, k - 1, f);
        }
        OneFits(before.0, st, before.1, pending, k - 1);
      }
    }
  }

  ghost predicate InOrder(st: StateIndex, pending: seq<Block>) {
    forall i :: 0 <= i < |pending| ==> pending[i].Number() == st.nextBlock + i
  }

  lemma PreparedRange(st: StateIndex, pending: seq<Block>, i: nat, f: Family)
    requires InOrder(st, pending) && Assign(st, pending, |pending|).Some? && i < |pending|
    ensures var batch := Assign(st, pending, |pending|).value.0;
      |batch| == |pending| && batch[i].block == pending[i] && batch[i].Of(f) == RangeOf(st, pending, f, i)
  {
    hide Assign, Offset, RowGroups;
    if f.BlockHeader? {
      AssignCounts(st, pending, |pending|, Log);
      HeaderFront(Chain(0, pending), i);
    } else {
      AssignCounts(st, pending, |pending|, f);
    }
  }

  lemma PreparedConsecutive(st: StateIndex, pending: seq<Block>)
    requires pending != [] && InOrder(st, pending) && Assign(st, pending, |pending|).Some?
    ensures var batch := Assign(st, pending, |pending|).value.0;
      FlushStages.Consecutive(batch) && Blocks(batch) == pending
  {
    hide Assign, Offset, RowGroups, BlockRows;
    var batch := Assign(st, pending, |pending|).value.0;
    forall i | 0 <= i < |pending| ensures |batch| == |pending| && batch[i].block == pending[i] {
      PreparedRange(st, pending, i, Log);
    }
    assert |batch| == |pending| by { PreparedRange(st, pending, 0, Log); }
    assert Blocks(batch) == pending;
    forall i, f | 0 <= i < |batch| ensures FlushStages.InSequence(batch, i, f) {
      PreparedRange(st, pending, i, f);
      PreparedRange(st, pending, 0, f);
      NoOffset(RowGroups(pending, f));
    }
  }

  /** block.txs.iter().map(..).sum() */
  method CountRows(b: Block, f: Family) returns (n: nat)
    requires f != BlockHeader
    ensures n == |BlockRows(b, f)|
  {
    n := 0;
    for t := 0 to |b.txs|
      invariant n == Offset(TxRowGroups(b, f), t)
    {
      OffsetStep(TxRowGroups(b, f), t);
      n := n + |TxRows(b.txs[t], f)|;
    }
  }

  /** The loop of prepare_flush: ranges for every pending block, or an overflow. */
  method AssignRanges(st: StateIndex, pending: seq<Block>) returns (r: Option<(seq<Assigned>, StateIndex)>)
    ensures r == Assign(st, pending, |pending|)
  {
    hide BlockRows;
    var batch, next := [], st;
    for k := 0 to |pending|
      invariant Assign(st, pending, k) == Some((batch, next))
    {
      var txs := CountRows(pending[k], Transaction);
      var logs := CountRows(pending[k], Log);
      var traces := CountRows(pending[k], Trace);
      if txs > U32_MAX || logs > U32_MAX || traces > U32_MAX
        || next.nextTx + txs > U64_MAX || next.nextLog + logs > U64_MAX || next.nextTrace + traces > U64_MAX
      {
        NeverAssigned(st, pending, k + 1, |pending|);
        return None;
      }
      var entry := Assigned(
        pending[k], Range(next.nextLog, logs), Range(next.nextTx, txs), Range(next.nextTrace, traces));
      batch := batch + [entry];
      next := next.(
        nextTx := next.nextTx + txs, nextLog := next.nextLog + logs, nextTrace := next.nextTrace + traces);
    }
    return Some((batch, next));
  }

  class QueryWriter {
    var db: Durable
    var state: StateIndex
    var lastHash: Option<Hash>
    var pending: seq<Block>

    ghost function View(): Writer
      reads this
    {
      Writer(state, lastHash, pending)
    }

    /** Pending blocks are numbered on from the committed ones. */
    ghost predicate Valid()
      reads this
    {
      InOrder(state, pending)
    }

    constructor (db0: Durable, state0: StateIndex, lastHash0: Option<Hash>)
      ensures Valid() && db == db0 && View() == Writer(state0, lastHash0, [])
    {
      db, state, lastHash, pending := db0, state0, lastHash0, [];
    }

    /** null when the last indexed block has no hash row. */
    static method Open(db: Durable) returns (w: QueryWriter?)
      ensures w == null <==> OpenWriter(db).None?
      ensures w != null ==> fresh(w) && w.Valid() && w.db == db && OpenWriter(db) == Some(w.View())
    {
      var state := EMPTY_STATE;
      if db.state.Some? {
        state := db.state.value;
      }
      var lastHash := None;
      if state.nextBlock > 0 && (state.indexedStart.None? || state.nextBlock - 1 >= state.indexedStart.value) {
        if state.nextBlock - 1 !in db.hashes {
          return null;
        }
        lastHash := Some(db.hashes[state.nextBlock - 1]);
      }
      w := new QueryWriter(db, state, lastHash);
    }

    /** None when the number would not fit in 64 bits. */
    function NextBlockNumber(): (r: Option<nat>)
      reads this
      ensures r.Some? ==> r.value == state.nextBlock + |pending| <= U64_MAX
      ensures r.None? ==> state.nextBlock + |pending| > U64_MAX
    {
      if state.nextBlock + |pending| <= U64_MAX then Some(state.nextBlock + |pending|) else None
    }

    method StartAt(block: nat) returns (ok: bool)
      requires Valid()
      modifies this
      ensures Valid() && db == old(db) && View() == Started(old(View()), block)
      ensures ok == CanStart(old(View()))
    {
      if state.indexedStart.Some? || state.nextBlock != 0 || pending != [] {
        return false;
      }
      state := state.(indexedStart := Some(block), nextBlock := block);
      return true;
    }

    /** Only the successor of the newest block, by number and by parent hash, is taken. */
    method Append(c: Codec, b: Block) returns (ok: bool)
      requires Valid()
      modifies this
      ensures Valid() && db == old(db) && View() == Appended(c, old(View()), b)
      ensures ok == Accepts(c, old(View()), b)
    {
      if NextBlockNumber() != Some(b.Number()) {
        return false;
      }
      var previous := if pending != [] then Some(c.hash(pending[|pending| - 1].header)) else lastHash;
      if previous.Some? && b.header.parentHash != previous.value {
        return false;
      }
      pending := pending + [b];
      return true;
    }

    /** Takes the pending blocks, unless there is nothing to flush or an id would overflow. */
    method PrepareFlush() returns (r: Prepared)
      requires Valid()
      modifies this
      ensures r == Prepare(old(View()))
      ensures r.Nothing? <==> old(pending) == []
      ensures r.Ready? || r.Nothing? <==>
        && (forall i :: 0 <= i < |old(pending)| ==> RangesFit(state, old(pending), i))
        && (old(pending) != [] ==> state.nextBlock + |old(pending)| <= U64_MAX)
      ensures db == old(db) && state == old(state) && lastHash == old(lastHash)
      ensures pending == if r.Ready? then [] else old(pending)
      ensures r.Ready? ==> FlushStages.Consecutive(r.batch) && Blocks(r.batch) == old(pending) != []
    {
      hide Assign, RangesFit, FlushStages.Consecutive;
      if pending == [] {
        return Nothing;
      }
      var ranges := AssignRanges(state, pending);
      AssignIff(state, pending, |pending|);
      if ranges.None? {
        return Rejected;
      }
      var (batch, next) := ranges.value;
      var last := pending[|pending| - 1].Number();
      if last + 1 > U64_MAX {
        return Rejected;
      }
      var start := if state.indexedStart.Some? then state.indexedStart else Some(pending[0].Number());
      PreparedConsecutive(state, pending);
      pending := [];
      return Ready(batch, next.(indexedStart := start, nextBlock := last + 1));
    }

    /** A flush against a store that fails as x says; a failed flush puts the blocks back. */
    method Flush(c: Codec, x: Faults) returns (ok: bool)
      requires Valid()
      modifies this
      ensures Valid()
      ensures db == FlushedDb(c, old(db), old(View()), x) && View() == Flushed(c, old(db), old(View()), x)
      ensures ok == FlushSucceeds(c, old(db), old(View()), x)
      ensures !ok ==> View() == old(View())
      ensures ok ==> pending == []
    {
      hide Assign, FlushDb, FlushOk, FlushStages.Consecutive;
      var prepared := PrepareFlush();
      if !prepared.Ready? {
        return prepared.Nothing?;
      }
      db, ok := FlushStages.FlushBatch(c, db, state, prepared.batch, prepared.state, x);
      if ok {
        var batch := prepared.batch;
        LastOf(batch, old(pending));
        lastHash := Some(c.hash(batch[|batch| - 1].block.header));
        state := prepared.state;
      } else {
        pending := Blocks(prepared.batch);
      }
    }
  }

  lemma LastOf(batch: seq<Assigned>, pending: seq<Block>)
    requires Blocks(batch) == pending != []
    ensures |batch| == |pending| && batch[|batch| - 1].block == pending[|pending| - 1]
  {
    assert Blocks(batch)[|batch| - 1] == batch[|batch| - 1].block;
  }

  lemma {:induction false} NeverAssigned(st: StateIndex, pending: seq<Block>, k: nat, n: nat)
    requires k <= n <= |pending| && Assign(st, pending, k).None?
    ensures Assign(st, pending, n).None?
  {
    hide AssignOne;
    if k < n {
      NeverAssigned(st, pending, k, n - 1);
    }
  }

  predicate FlushSucceeds(c: Codec, db: Durable, w: Writer, x: Faults) {
    match Prepare(w)
    case Nothing => true
    case Rejected => false
    case Ready(batch, _) => FlushOk(c, db, w.state, batch, x)
  }
}
