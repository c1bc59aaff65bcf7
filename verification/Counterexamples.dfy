/** Runs whose index the validator rejects: an unaligned start block, and a failed flush. */
module Counterexamples {
  import opened Seqs
  import opened Schema
  import opened Chain
  import opened Metadata
  import opened IndexState
  import opened Layout
  import opened Consistency
  import opened Runs
  import opened Reads
  import opened Validation
  import opened Acceptance
  import AncestorStatus
  import Payload
  import Bitmap

  const CLEAN := Faults(11, {}, NoRows({}), NoRows({}), NoRows({}), {}, NoRows({}), NoRows({}), false)

  /** The store fails right after the bitmap pages have been written. */
  const AFTER_PAGES := CLEAN.(stop := 6)

  // ---- a failed flush leaves bits behind ----

  lemma BatchTouches(t: Bitmap.Tags, k: Bitmap.PageKey, n: nat, m: nat, n': nat)
    requires n <= m <= n' && t.base <= m && t.Bits(k, m, n') != {}
    ensures t.Bits(k, n, n') != {} && !Below(k, t.Bits(k, t.base, n'), m)
  {
    Bitmap.BitsSplit(t, k, n, m, n');
    Bitmap.BitsSplit(t, k, t.base, m, n');
    var o :| o in t.Bits(k, m, n');
    assert o in t.Bits(k, t.base, n') && k.page + o >= m;
  }

  /** One family: once the pages have landed, a page with a committed bit and one of the batch is stale. */
  lemma PagesLeft(c: Codec, l: Layout, db: Durable, db': Durable, state: StateIndex, batch: seq<Assigned>, x: Faults,
                  n: nat, m: nat, a: nat, f: Family, k: Bitmap.PageKey)
    requires n <= m <= n + |batch| && FlushingFamily(c, l, state, batch, n, f) && BitmapPart(l, db, f, m, a)
    requires Leaves(c, db, db', state, batch, x, f, 11) && 5 < x.stop
    requires l.WfFamily(f) && n + |batch| <= l.Size()
    requires l.tags.At(f).Bits(k, l.tags.At(f).base, l.Front(f, m)) != {}
    requires l.tags.At(f).Bits(k, l.Front(f, m), l.Front(f, n + |batch|)) != {}
    ensures !NoStale(l.tags.At(f), db'.pages.At(f), l.Front(f, m))
  {
    hide Bitmap.BitmapInv, PageRows, StatRows, Landed, FlushingFamily, Layout.Front, Layout.WfFamily, Bitmap.Tags.Bits,
      Below;
    var t, n' := l.tags.At(f), n + |batch|;
    LandedSub(PageRows(c, db, batch, f), 5, 11, x.stop, x.pages.At(f));
    TagsAre(c, l, state, batch, n, f);
    Fronts(l, f, n, n', m, a);
    BatchTouches(t, k, l.Front(f, n), l.Front(f, m), l.Front(f, n'));
    PageStep(c, db, batch, f, t, l.Front(f, n), l.Front(f, n'), l.Front(f, m), l.Front(f, a), k);
    Bitmap.BitsSplit(t, k, t.base, l.Front(f, m), l.Front(f, n'));
  }

  /**
   * A flush that stops after the bitmap pages and before the state row leaves the frontier where it was
   * and a bit above it in every page of committed rows that the batch touches beyond the frontier.
   */
  lemma FailedFlushLeavesBits(c: Codec, ch: Chain, l: Layout, w: World, x: Faults, f: Family, k: Bitmap.PageKey)
    requires ch.Linked(c) && Agrees(c, ch, l) && Inv(c, ch, l, w) && w.writer.Some? && Prepare(w.writer.value).Ready?
    requires w.writer.value.state.nextBlock >= ch.start && AllIndexable(c, Prepare(w.writer.value).batch)
    requires 5 < x.stop < 10
    requires var m, n' := Persisted(ch, w.db),
      w.writer.value.state.nextBlock - ch.start + |Prepare(w.writer.value).batch|;
      && m <= n' <= |l.counts.At(f)|
      && l.tags.At(f).Bits(k, l.tags.At(f).base, l.Front(f, m)) != {}
      && l.tags.At(f).Bits(k, l.Front(f, m), l.Front(f, n')) != {}
    ensures var w' := Exec(c, w, Flush(x));
      Persisted(ch, w'.db) == Persisted(ch, w.db) && !NoStaleBits(l, w'.db, Persisted(ch, w.db))
  {
    hide LiveAt, FlushDb, Chain.Linked, StateMatches, StateRow, BatchFits, AllIndexable, AgreesFamily, Layout.WfFamily,
      HashesInv, Families, FlushingFamily, Assign, ErrorStep, Persisted, Layout.Front, Made, Leaves, NoStale,
      Bitmap.Tags.Bits;
    var wr, w' := w.writer.value, Exec(c, w, Flush(x));
    var m, a, n := Persisted(ch, w.db), Attempted(ch, w), wr.state.nextBlock - ch.start;
    var batch, state' := Prepare(wr).batch, Prepare(wr).state;
    FreshIsLive(c, ch, l, wr, m);
    PreparedIsMade(wr);
    PreparedBatch(c, ch, l, wr, n, m, batch, state');
    LiveBounds(c, ch, l, wr, n, m);
    AllFlush(c, ch, l, wr.state, batch, n, m, a);
    FlushDbKeeps(c, l, w.db, wr.state, batch, state', n, m, a, x);
    PersistedIs(ch, l, w'.db, m);
    FlushLeaves(c, w.db, wr.state, batch, state', x, f);
    assert FlushingFamily(c, l, wr.state, batch, n, f) && l.WfFamily(f);
    Reads.FamilyOf(l, w.db, f, m, a);
    PagesLeft(c, l, w.db, w'.db, wr.state, batch, x, n, m, a, f, k);
  }

  // ---- chains of empty blocks ----

  /** Block i of a chain from `start` of two empty blocks with one beneficiary. */
  function EmptyBlock(c: Codec, start: nat, i: nat): Block {
    if i == 0 then Block(Header(start, 0, 7, 0), [])
    else Block(Header(start + 1, c.hash(Header(start, 0, 7, 0)), 7, 0), [])
  }

  function EmptyChain(c: Codec, start: nat): Chain { Chain(start, [EmptyBlock(c, start, 0), EmptyBlock(c, start, 1)]) }

  lemma EmptyChainOk(c: Codec, start: nat)
    ensures var ch := EmptyChain(c, start); ch.Linked(c) && Indexes(c, ch) && TracesNumbered(ch)
  {
  }

  lemma NoRowsInEmpty(c: Codec, start: nat, i: nat, f: Family)
    requires f != BlockHeader
    ensures BlockRows(EmptyBlock(c, start, i), f) == []
  {
  }

  function StateOf(start: nat, next: nat): StateIndex { StateIndex(Some(start), next, 0, 0, 0) }

  lemma AssignOneEmpty(st: StateIndex, b: Block)
    requires st.nextLog == st.nextTx == st.nextTrace == 0
    requires BlockRows(b, Transaction) == [] && BlockRows(b, Log) == [] && BlockRows(b, Trace) == []
    ensures AssignOne([], st, b) == Some(([Assigned(b, Range(0, 0), Range(0, 0), Range(0, 0))], st))
  {
    hide BlockRows;
    var txs, logs, traces := Range(st.nextTx, 0), Range(st.nextLog, 0), Range(st.nextTrace, 0);
    assert [] + [Assigned(b, logs, txs, traces)] == [Assigned(b, Range(0, 0), Range(0, 0), Range(0, 0))];
  }

  lemma AssignEmpty(st: StateIndex, b: Block)
    requires st.nextLog == st.nextTx == st.nextTrace == 0
    requires BlockRows(b, Transaction) == [] && BlockRows(b, Log) == [] && BlockRows(b, Trace) == []
    ensures var r := Assign(st, [b], 1); r.Some? && |r.value.0| == 1 && r.value.1 == st
  {
    hide BlockRows, AssignOne;
    AssignOneEmpty(st, b);
    assert Assign(st, [b], 0) == Some(([], st));
  }

  /** prepare_flush on one empty block. */
  lemma PrepareEmpty(c: Codec, start: nat, i: nat, last: Option<Hash>)
    requires start + 2 <= U64_MAX && i < 2
    ensures var p := Prepare(Writer(StateOf(start, start + i), last, [EmptyBlock(c, start, i)]));
      p.Ready? && |p.batch| == 1 && p.state == StateOf(start, start + i + 1)
  {
    hide BlockRows, Assign;
    var b := EmptyBlock(c, start, i);
    NoRowsInEmpty(c, start, i, Transaction);
    NoRowsInEmpty(c, start, i, Log);
    NoRowsInEmpty(c, start, i, Trace);
    AssignEmpty(StateOf(start, start + i), b);
    assert b.Number() == start + i;
  }

  /** A clean flush of a prepared batch succeeds. */
  lemma CleanFlushSucceeds(c: Codec, ch: Chain, l: Layout, w: World)
    requires ch.Linked(c) && Agrees(c, ch, l) && Indexes(c, ch) && Inv(c, ch, l, w) && w.writer.Some?
    requires Prepare(w.writer.value).Ready? && w.writer.value.state.nextBlock >= ch.start
    ensures var wr, w' := w.writer.value, Exec(c, w, Flush(CLEAN));
      && w'.writer == Some(Writer(Prepare(wr).state, Tip(c, wr), []))
      && Persisted(ch, w'.db) == wr.state.nextBlock - ch.start + |Prepare(wr).batch|
      && AllIndexable(c, Prepare(wr).batch)
  {
    hide LiveAt, FlushDb, Chain.Linked, StateMatches, StateRow, BatchFits, AllIndexable, AgreesFamily, Layout.WfFamily,
      HashesInv, Families, FlushingFamily, Assign, ErrorStep, Persisted, Made, Indexes;
    var wr, w' := w.writer.value, Exec(c, w, Flush(CLEAN));
    var m, a, n := Persisted(ch, w.db), Attempted(ch, w), wr.state.nextBlock - ch.start;
    var batch, state' := Prepare(wr).batch, Prepare(wr).state;
    FreshIsLive(c, ch, l, wr, m);
    PreparedIsMade(wr);
    PreparedBatch(c, ch, l, wr, n, m, batch, state');
    LiveBounds(c, ch, l, wr, n, m);
    AllFlush(c, ch, l, wr.state, batch, n, m, a);
    FlushDbKeeps(c, l, w.db, wr.state, batch, state', n, m, a, CLEAN);
    BatchIndexable(c, ch, batch, n);
    PersistedIs(ch, l, w'.db, n + |batch|);
  }

  /** The run that indexes the first block without any failure. */
  function FirstOps(c: Codec, start: nat): seq<Op> {
    [Open, StartAt(start), Append(EmptyBlock(c, start, 0)), Flush(CLEAN)]
  }

  lemma BeforeFirstFlush(c: Codec, start: nat, ops: seq<Op>)
    requires start + 2 <= U64_MAX && FirstOps(c, start) <= ops
    ensures var w := Writer(StateOf(start, start), None, [EmptyBlock(c, start, 0)]);
      Run(c, EMPTY_WORLD, ops, 3) == World(EMPTY_DB, Some(w), 0)
  {
    assert ops[0] == Open && ops[1] == StartAt(start) && ops[2] == Append(EmptyBlock(c, start, 0));
    assert Run(c, EMPTY_WORLD, ops, 0) == EMPTY_WORLD;
    assert Run(c, EMPTY_WORLD, ops, 1) == World(EMPTY_DB, Some(Writer(EMPTY_STATE, None, [])), 0);
    assert Run(c, EMPTY_WORLD, ops, 2) == World(EMPTY_DB, Some(Writer(StateOf(start, start), None, [])), 0);
    assert [] + [EmptyBlock(c, start, 0)] == [EmptyBlock(c, start, 0)];
  }

  lemma AfterFirstFlush(c: Codec, start: nat, ops: seq<Op>)
    requires start + 2 <= U64_MAX && FirstOps(c, start) <= ops
    requires forall i :: 0 <= i < |ops| ==> OpOk(EmptyChain(c, start), ops[i])
    ensures var w := Run(c, EMPTY_WORLD, ops, 4);
      && Persisted(EmptyChain(c, start), w.db) == 1
      && w.writer == Some(Writer(StateOf(start, start + 1), Some(c.hash(EmptyBlock(c, start, 0).header)), []))
  {
    hide Run, Inv, LayoutOf, Agrees, Chain.Linked, OpOk, Indexes, Prepare, FlushedDb, Flushed, Attempt, Persisted,
      EmptyBlock, TracesNumbered, EmptyChain;
    var ch, w := EmptyChain(c, start), Run(c, EMPTY_WORLD, ops, 3);
    EmptyChainOk(c, start);
    ChainStarts(c, start);
    LayoutAgrees(c, ch);
    BeforeFirstFlush(c, start, ops);
    RunKeeps(c, ch, ops, 3);
    PrepareEmpty(c, start, 0, None);
    CleanFlushSucceeds(c, ch, LayoutOf(c, ch), w);
    assert ops[3] == FirstOps(c, start)[3] == Flush(CLEAN);
    StepIs(c, ops, 4);
  }

  lemma ChainStarts(c: Codec, start: nat)
    ensures EmptyChain(c, start).start == start && |EmptyChain(c, start).blocks| == 2
    ensures forall i :: 0 <= i < 2 ==> EmptyChain(c, start).blocks[i] == EmptyBlock(c, start, i)
  {
  }

  /** An index started at block 1, with one block and no failure, does not validate. */
  lemma UnalignedStartFails(c: Codec)
    requires c.Lawful()
    ensures var db := Run(c, EMPTY_WORLD, FirstOps(c, 1), 4).db; db.state.Some? && !Passes(c, db, db.state.value, 1, 2)
  {
    hide Run, OpOk, Persisted, Attempted, Passes, Codec.Lawful, Chain.Linked, Indexes, TracesNumbered;
    var ch, ops := EmptyChain(c, 1), FirstOps(c, 1);
    EmptyChainOk(c, 1);
    FirstOpsOk(c, 1);
    AfterFirstFlush(c, 1, ops);
    FailureFreeIndexPasses(c, ch, ops, 1, 2);
    assert !Aligned(ch);
  }

  lemma FirstOpsOk(c: Codec, start: nat)
    ensures forall i :: 0 <= i < |FirstOps(c, start)| ==>
      OpOk(EmptyChain(c, start), FirstOps(c, start)[i]) && NoFault(FirstOps(c, start)[i])
  {
    assert EmptyChain(c, start).blocks[0] == EmptyBlock(c, start, 0);
  }

  /** The first block is indexed, then a flush of the second fails after its bitmap pages. */
  function StaleOps(c: Codec): seq<Op> { FirstOps(c, 0) + [Append(EmptyBlock(c, 0, 1)), Flush(AFTER_PAGES)] }

  lemma StaleOpsOk(c: Codec)
    ensures forall i :: 0 <= i < |StaleOps(c)| ==> OpOk(EmptyChain(c, 0), StaleOps(c)[i])
    ensures |StaleOps(c)| == 6 && FirstOps(c, 0) <= StaleOps(c)
    ensures StaleOps(c)[4] == Append(EmptyBlock(c, 0, 1)) && StaleOps(c)[5] == Flush(AFTER_PAGES)
  {
    FirstOpsOk(c, 0);
    assert EmptyChain(c, 0).blocks[1] == EmptyBlock(c, 0, 1);
  }

  lemma BeforeStaleFlush(c: Codec)
    ensures var w := Run(c, EMPTY_WORLD, StaleOps(c), 5);
      && Persisted(EmptyChain(c, 0), w.db) == 1
      && w.writer == Some(Writer(StateOf(0, 1), Some(c.hash(EmptyBlock(c, 0, 0).header)), [EmptyBlock(c, 0, 1)]))
  {
    hide Run, OpOk, Persisted, StaleOps, Prepare, FlushedDb, Flushed, Attempt, OpenWriter, Started, Appended;
    StaleOpsOk(c);
    AfterFirstFlush(c, 0, StaleOps(c));
    StepIs(c, StaleOps(c), 5);
    SecondAccepted(c);
  }

  lemma SecondAccepted(c: Codec)
    ensures var b, hash := EmptyBlock(c, 0, 1), c.hash(EmptyBlock(c, 0, 0).header);
      Appended(c, Writer(StateOf(0, 1), Some(hash), []), b) == Writer(StateOf(0, 1), Some(hash), [b])
  {
  }

  lemma HeaderBits(c: Codec, l: Layout)
    requires Agrees(c, EmptyChain(c, 0), l)
    ensures var k, t := Bitmap.PageKey(Miner(7), 0), l.tags.header;
      && 2 <= |l.counts.header| && l.Front(BlockHeader, 1) == 1 && l.Front(BlockHeader, 2) == 2
      && t.Bits(k, t.base, 1) != {} && t.Bits(k, 1, 2) != {}
  {
    var ch, k, t := EmptyChain(c, 0), Bitmap.PageKey(Miner(7), 0), l.tags.header;
    assert l.WfFamily(BlockHeader) && AgreesFamily(c, ch, l, BlockHeader);
    HeaderIds(l, 1);
    HeaderIds(l, 2);
    StreamRow(c, ch, BlockHeader, 0, 0);
    StreamRow(c, ch, BlockHeader, 1, 0);
    HeaderFront(ch, 0);
    HeaderFront(ch, 1);
    assert t.filters[0] == [Miner(7)] && t.filters[1] == [Miner(7)];
    assert t.InPage(k, t.base, 1, 0) && t.InPage(k, 1, 2, 1);
    assert 0 in t.Bits(k, t.base, 1) && 1 in t.Bits(k, 1, 2);
  }

  /** After one committed block and one failed flush the full range does not validate, although nothing is missing. */
  lemma StaleBitsFail(c: Codec)
    requires c.Lawful()
    ensures var db := Run(c, EMPTY_WORLD, StaleOps(c), 6).db;
      db.state.Some? && Persisted(EmptyChain(c, 0), db) == 1 && !Passes(c, db, db.state.value, 0, 1)
  {
    hide Inv, Run, OpOk, Persisted, Passes, Codec.Lawful, Chain.Linked, Indexes, TracesNumbered, LayoutOf, Agrees,
      NoStaleBits, Exec, Prepare, EmptyChain, EmptyBlock, Layout.Front, Bitmap.Tags.Bits, AllIndexable, Aligned;
    var ch, ops, l := EmptyChain(c, 0), StaleOps(c), LayoutOf(c, EmptyChain(c, 0));
    EmptyChainOk(c, 0);
    ChainStarts(c, 0);
    StaleOpsOk(c);
    LayoutAgrees(c, ch);
    BeforeStaleFlush(c);
    RunKeeps(c, ch, ops, 5);
    var w := Run(c, EMPTY_WORLD, ops, 5);
    PrepareEmpty(c, 0, 1, w.writer.value.lastHash);
    CleanFlushSucceeds(c, ch, l, w);
    HeaderBits(c, l);
    FailedFlushLeavesBits(c, ch, l, w, AFTER_PAGES, BlockHeader, Bitmap.PageKey(Miner(7), 0));
    StepIs(c, ops, 6);
    EveryRunPassesIff(c, ch, ops, 0, 1);
  }

  lemma StepIs(c: Codec, ops: seq<Op>, n: nat)
    requires 0 < n <= |ops|
    ensures Run(c, EMPTY_WORLD, ops, n) == Exec(c, Run(c, EMPTY_WORLD, ops, n - 1), ops[n - 1])
  {
  }
}
