/** Every run of open, start_at, append, flush and crash on one finalized chain. */
module Runs {
  import opened Seqs
  import opened Schema
  import opened Chain
  import opened Metadata
  import opened IndexState
  import opened Layout
  import opened Consistency
  import Payload
  import Bitmap

  // ---- the invariant of the writer's memory ----

  ghost predicate StateMatches(l: Layout, st: StateIndex, n: nat) {
    && l.WfFamily(Transaction) && l.WfFamily(Log) && l.WfFamily(Trace) && n <= l.Size()
    && st == StateAt(l, n).(indexedStart := st.indexedStart)
    && (st.indexedStart == Some(l.start) || (n == 0 && l.start == 0 && st.indexedStart.None?))
  }

  /** The writer's memory is at block n; the durable state may be ahead of it, within the pending blocks. */
  ghost predicate LiveAt(c: Codec, ch: Chain, l: Layout, w: Writer, n: nat, m: nat) {
    && n <= m <= n + |w.pending| <= |ch.blocks|
    && w.pending == ch.blocks[n..n + |w.pending|]
    && StateMatches(l, w.state, n)
    && w.lastHash == (if n == 0 then None else Some(c.hash(ch.blocks[n - 1].header)))
  }

  ghost predicate WriterInv(c: Codec, ch: Chain, l: Layout, w: Writer, m: nat) {
    || (w == Writer(EMPTY_STATE, None, []) && m == 0)
    || (w.state.nextBlock >= ch.start && LiveAt(c, ch, l, w, w.state.nextBlock - ch.start, m))
  }

  /** Blocks the durable state row admits. */
  function Persisted(ch: Chain, db: Durable): nat {
    if db.state.Some? && db.state.value.nextBlock >= ch.start then db.state.value.nextBlock - ch.start else 0
  }

  /** Blocks some flush has tried to commit. */
  function Attempted(ch: Chain, w: World): nat {
    if w.attempted >= ch.start then w.attempted - ch.start else 0
  }

  ghost predicate Inv(c: Codec, ch: Chain, l: Layout, w: World) {
    && DbInv(l, w.db, Persisted(ch, w.db), Attempted(ch, w))
    && (w.writer.Some? ==> WriterInv(c, ch, l, w.writer.value, Persisted(ch, w.db)))
  }

  // ---- prepare_flush assigns the true ranges ----

  /** Counters stand at the frontiers after k blocks. */
  ghost predicate CountersAt(l: Layout, st: StateIndex, k: nat) {
    && k <= |l.counts.tx| && k <= |l.counts.log| && k <= |l.counts.trace|
    && st.nextTx == l.Front(Transaction, k) && st.nextLog == l.Front(Log, k) && st.nextTrace == l.Front(Trace, k)
  }

  lemma RangeAt(c: Codec, ch: Chain, l: Layout, f: Family, i: nat)
    requires Agrees(c, ch, l) && i < |ch.blocks|
    ensures |l.counts.At(f)| == |ch.blocks|
    ensures l.Ranges(f)[i] == Range(l.Front(f, i), |BlockRows(ch.blocks[i], f)|)
    ensures l.Front(f, i + 1) == l.Front(f, i) + |BlockRows(ch.blocks[i], f)|
  {
    hide BlockRows, RowsOf, TagsOf, Layout.WfFamily;
    assert AgreesFamily(c, ch, l, f);
  }

  lemma AssignOneTrue(c: Codec, ch: Chain, l: Layout, batch: seq<Assigned>, st: StateIndex, i: nat)
    requires ch.Linked(c) && Agrees(c, ch, l) && i < |ch.blocks| && CountersAt(l, st, i)
    requires AssignOne(batch, st, ch.blocks[i]).Some?
    ensures var r := AssignOne(batch, st, ch.blocks[i]).value;
      |r.0| == |batch| + 1 && r.0[..|batch|] == batch && Fits(c, l, r.0[|batch|], i)
        && r.0[|batch|].block == ch.blocks[i] && CountersAt(l, r.1, i + 1)
  {
    hide BlockRows, Layout.WfFamily, AgreesFamily;
    var entry := AssignOne(batch, st, ch.blocks[i]).value.0[|batch|];
    RangeAt(c, ch, l, Transaction, i);
    RangeAt(c, ch, l, Log, i);
    RangeAt(c, ch, l, Trace, i);
    HeaderRange(c, ch, l, i);
    forall f ensures FitsFamily(l, entry, i, f) { RangeAt(c, ch, l, f, i); }
  }

  lemma HeaderRange(c: Codec, ch: Chain, l: Layout, i: nat)
    requires Agrees(c, ch, l) && i < |ch.blocks|
    ensures |l.counts.header| == l.Size() && l.Ranges(BlockHeader)[i] == Range(l.start + i, 1)
  {
    hide AgreesFamily, Layout.Ranges;
    RangeAt(c, ch, l, BlockHeader, i);
    assert l.WfFamily(BlockHeader);
    HeaderIds(l, i);
  }

  lemma {:induction false} AssignTrue(c: Codec, ch: Chain, l: Layout, st: StateIndex, n: nat, pending: seq<Block>,
                                      k: nat)
    requires ch.Linked(c) && Agrees(c, ch, l) && CountersAt(l, st, n) && n + |pending| <= |ch.blocks|
    requires pending == ch.blocks[n..n + |pending|] && k <= |pending| && Assign(st, pending, k).Some?
    ensures var r := Assign(st, pending, k).value;
      && |r.0| == k && CountersAt(l, r.1, n + k)
      && forall i :: 0 <= i < k ==> Fits(c, l, r.0[i], n + i) && r.0[i].block == ch.blocks[n + i]
  {
    hide AssignOne, Agrees, Fits, CountersAt, Chain.Linked;
    if k > 0 {
      AssignTrue(c, ch, l, st, n, pending, k - 1);
      assert pending[k - 1] == ch.blocks[n + k - 1];
      var before := Assign(st, pending, k - 1).value;
      AssignOneTrue(c, ch, l, before.0, before.1, n + k - 1);
    }
  }

  lemma LiveCounters(c: Codec, ch: Chain, l: Layout, w: Writer, n: nat, m: nat)
    requires LiveAt(c, ch, l, w, n, m)
    ensures CountersAt(l, w.state, n) && w.state.nextBlock == l.start + n
  {
  }

  lemma BlocksOf(ch: Chain, batch: seq<Assigned>, n: nat)
    requires n + |batch| <= |ch.blocks| && forall i :: 0 <= i < |batch| ==> batch[i].block == ch.blocks[n + i]
    ensures Blocks(batch) == ch.blocks[n..n + |batch|]
  {
  }

  /** A prepared batch is blocks n.. of the chain ... */
  lemma PrepareBatch(c: Codec, ch: Chain, l: Layout, w: Writer, n: nat, m: nat, r: (seq<Assigned>, StateIndex))
    requires ch.Linked(c) && Agrees(c, ch, l) && LiveAt(c, ch, l, w, n, m)
    requires |w.pending| > 0 && Assign(w.state, w.pending, |w.pending|) == Some(r)
    ensures |r.0| == |w.pending| && BatchFits(c, l, r.0, n) && CountersAt(l, r.1, n + |r.0|)
    ensures Blocks(r.0) == ch.blocks[n..n + |r.0|]
  {
    hide Assign, Fits, CountersAt, Chain.Linked, StateMatches, AgreesFamily, Layout.WfFamily;
    LiveCounters(c, ch, l, w, n, m);
    AssignTrue(c, ch, l, w.state, n, w.pending, |w.pending|);
    BlocksOf(ch, r.0, n);
  }

  /** ... and its new state is the state after them. */
  lemma PrepareState(c: Codec, ch: Chain, l: Layout, w: Writer, n: nat, m: nat, state': StateIndex)
    requires ch.Linked(c) && LiveAt(c, ch, l, w, n, m) && |w.pending| > 0 && l.start == ch.start
    requires n + |w.pending| <= l.Size()
    requires CountersAt(l, state', n + |w.pending|)
    requires state'.nextBlock == w.pending[|w.pending| - 1].Number() + 1
    requires state'.indexedStart == (if w.state.indexedStart.Some? then w.state.indexedStart
      else Some(w.pending[0].Number()))
    ensures StateRow(l, Some(state'), n + |w.pending|)
    ensures StateMatches(l, state', n + |w.pending|)
  {
    hide Layout.WfFamily, Layout.Front;
    assert w.pending[0] == ch.blocks[n] && w.pending[|w.pending| - 1] == ch.blocks[n + |w.pending| - 1];
  }

  lemma CommittedTrue(l: Layout, st: StateIndex, n: nat, f: Family)
    requires l.WfFamily(f) && l.WfFamily(BlockHeader) && StateMatches(l, st, n)
    ensures st.CommittedId(f) == Payload.CommittedId(l.rows.At(f).base, l.Front(f, n))
  {
    HeaderIds(l, n);
  }

  lemma BatchFlushes(c: Codec, ch: Chain, l: Layout, state: StateIndex, batch: seq<Assigned>, n: nat, f: Family)
    requires Agrees(c, ch, l) && BatchFits(c, l, batch, n) && StateMatches(l, state, n)
    requires Blocks(batch) == ch.blocks[n..n + |batch|]
    ensures FlushingFamily(c, l, state, batch, n, f)
  {
    hide RowStream, TagStream, RowsOf, TagsOf, StateMatches, Layout.Front, StateIndex.CommittedId;
    assert l.WfFamily(f) && l.WfFamily(BlockHeader) && AgreesFamily(c, ch, l, f);
    SliceOfChain(c, ch, l, n, n + |batch|, f);
    assert Fits(c, l, batch[0], n + 0) && FitsFamily(l, batch[0], n + 0, f);
    CommittedTrue(l, state, n, f);
  }

  /** prepare_flush made this batch and this new state. */
  ghost predicate Made(w: Writer, batch: seq<Assigned>, state': StateIndex) {
    && |w.pending| > 0
    && var next := Assign(w.state, w.pending, |w.pending|);
       && next.Some? && batch == next.value.0
       && state'.nextBlock == w.pending[|w.pending| - 1].Number() + 1
       && state'.indexedStart == (if w.state.indexedStart.Some? then w.state.indexedStart
         else Some(w.pending[0].Number()))
       && state'.nextTx == next.value.1.nextTx && state'.nextLog == next.value.1.nextLog
         && state'.nextTrace == next.value.1.nextTrace
  }

  lemma PreparedBatch(c: Codec, ch: Chain, l: Layout, w: Writer, n: nat, m: nat, batch: seq<Assigned>,
                      state': StateIndex)
    requires ch.Linked(c) && Agrees(c, ch, l) && LiveAt(c, ch, l, w, n, m) && Made(w, batch, state')
    ensures |batch| == |w.pending| > 0 && BatchFits(c, l, batch, n) && Blocks(batch) == ch.blocks[n..n + |batch|]
    ensures state'.nextBlock == ch.start + n + |batch|
    ensures StateRow(l, Some(state'), n + |batch|) && StateMatches(l, state', n + |batch|)
  {
    hide Assign, BatchFits, Chain.Linked, StateRow, StateMatches, Layout.Front, AgreesFamily, Layout.WfFamily;
    PrepareBatch(c, ch, l, w, n, m, Assign(w.state, w.pending, |w.pending|).value);
    PrepareState(c, ch, l, w, n, m, state');
    assert w.pending[|w.pending| - 1] == ch.blocks[n + |w.pending| - 1];
    NumberAt(c, ch, n + |w.pending| - 1);
  }

  lemma NumberAt(c: Codec, ch: Chain, i: nat)
    requires ch.Linked(c) && i < |ch.blocks|
    ensures ch.blocks[i].Number() == ch.start + i
  {
  }

  lemma AllFlush(c: Codec, ch: Chain, l: Layout, state: StateIndex, batch: seq<Assigned>, n: nat, m: nat, a: nat)
    requires Agrees(c, ch, l) && BatchFits(c, l, batch, n) && StateMatches(l, state, n)
    requires Blocks(batch) == ch.blocks[n..n + |batch|] && n <= m <= n + |batch| && m <= a <= l.Size()
    ensures Flushing(c, l, state, batch, n, m, a)
  {
    hide FlushingFamily, Agrees, StateMatches;
    forall f ensures FlushingFamily(c, l, state, batch, n, f) { BatchFlushes(c, ch, l, state, batch, n, f); }
  }

  // ---- each operation keeps the invariant ----

  /** Blocks come from the one finalized chain, and the configured start block never changes. */
  predicate OpOk(ch: Chain, op: Op) {
    match op
    case StartAt(block) => block == ch.start
    case Append(b) => b in ch.blocks
    case _ => true
  }

  lemma OpenKeeps(c: Codec, ch: Chain, l: Layout, db: Durable, m: nat, a: nat)
    requires Agrees(c, ch, l) && DbInv(l, db, m, a)
    ensures OpenWriter(db).Some? && WriterInv(c, ch, l, OpenWriter(db).value, m)
  {
    hide Families, AgreesFamily, Layout.WfFamily;
    assert ch.blocks[m..m] == [];
  }

  lemma FirstCounters(c: Codec, ch: Chain, l: Layout)
    requires Agrees(c, ch, l)
    ensures l.WfFamily(Transaction) && l.WfFamily(Log) && l.WfFamily(Trace)
    ensures StateAt(l, 0) == StateIndex(Some(ch.start), ch.start, 0, 0, 0) && l.start == ch.start
  {
    hide AgreesFamily;
    assert l.WfFamily(Transaction) && l.WfFamily(Log) && l.WfFamily(Trace);
  }

  lemma CanStartIsFresh(c: Codec, ch: Chain, l: Layout, w: Writer, m: nat)
    requires Agrees(c, ch, l) && WriterInv(c, ch, l, w, m) && CanStart(w)
    ensures w == Writer(EMPTY_STATE, None, []) && m == 0
  {
    hide Agrees, AgreesFamily, Layout.WfFamily, Layout.Front, StateAt;
    FirstCounters(c, ch, l);
  }

  lemma StartedState(c: Codec, ch: Chain, l: Layout)
    requires Agrees(c, ch, l)
    ensures StateMatches(l, StateIndex(Some(ch.start), ch.start, 0, 0, 0), 0)
  {
    hide Agrees, Layout.WfFamily, Layout.Front, StateAt;
    FirstCounters(c, ch, l);
  }

  /** A writer started at the chain's first block is at block 0. */
  lemma StartedLive(c: Codec, ch: Chain, l: Layout, w: Writer)
    requires Agrees(c, ch, l) && w == Writer(StateIndex(Some(ch.start), ch.start, 0, 0, 0), None, [])
    ensures LiveAt(c, ch, l, w, 0, 0)
  {
    hide Agrees, StateMatches;
    StartedState(c, ch, l);
    assert ch.blocks[0..0] == [];
  }

  lemma StartKeeps(c: Codec, ch: Chain, l: Layout, w: Writer, m: nat)
    requires Agrees(c, ch, l) && WriterInv(c, ch, l, w, m)
    ensures WriterInv(c, ch, l, Started(w, ch.start), m)
  {
    hide Agrees, LiveAt;
    if CanStart(w) {
      CanStartIsFresh(c, ch, l, w, m);
      StartedLive(c, ch, l, Started(w, ch.start));
    }
  }

  lemma AppendLive(c: Codec, ch: Chain, l: Layout, w: Writer, n: nat, m: nat, i: nat)
    requires LiveAt(c, ch, l, w, n, m) && n + |w.pending| == i < |ch.blocks|
    ensures LiveAt(c, ch, l, w.(pending := w.pending + [ch.blocks[i]]), n, m)
  {
    assert ch.blocks[n..i + 1] == ch.blocks[n..i] + [ch.blocks[i]];
  }

  lemma AppendKeeps(c: Codec, ch: Chain, l: Layout, w: Writer, m: nat, b: Block)
    requires ch.Linked(c) && Agrees(c, ch, l) && WriterInv(c, ch, l, w, m) && b in ch.blocks
    ensures WriterInv(c, ch, l, Appended(c, w, b), m)
  {
    hide LiveAt, Agrees;
    if Accepts(c, w, b) {
      var i :| 0 <= i < |ch.blocks| && ch.blocks[i] == b;
      assert b.Number() == ch.start + i;
      FreshIsLive(c, ch, l, w, m);
      AppendLive(c, ch, l, w, w.state.nextBlock - ch.start, m, i);
    }
  }

  /** A fresh writer on a chain from block 0 is at block 0. */
  lemma FreshIsLive(c: Codec, ch: Chain, l: Layout, w: Writer, m: nat)
    requires Agrees(c, ch, l) && WriterInv(c, ch, l, w, m) && w.state.nextBlock >= ch.start
    ensures LiveAt(c, ch, l, w, w.state.nextBlock - ch.start, m)
  {
    hide AgreesFamily, Layout.WfFamily, Layout.Front, StateAt;
    FirstCounters(c, ch, l);
    assert ch.blocks[0..0] == [];
  }

  lemma NoMissingData(c: Codec, db: Durable, state: StateIndex, batch: seq<Assigned>)
    requires forall f :: PayloadOk(c, db, state, batch, f)
    ensures ErrorStep(c, db, state, batch) == if AllIndexable(c, batch) then 11 else 5
  {
    assert PayloadOk(c, db, state, batch, BlockHeader) && PayloadOk(c, db, state, batch, Transaction);
    assert PayloadOk(c, db, state, batch, Log) && PayloadOk(c, db, state, batch, Trace);
  }

  /** The flush's own reads never fail in a reachable state: only an undecodable transaction stops it. */
  lemma FlushDbKeeps(c: Codec, l: Layout, db: Durable, state: StateIndex, batch: seq<Assigned>, state': StateIndex,
                     n: nat, m: nat, a: nat, x: Faults)
    requires DbInv(l, db, m, a) && Flushing(c, l, state, batch, n, m, a) && StateRow(l, Some(state'), n + |batch|)
    ensures var e := if AllIndexable(c, batch) then 11 else 5;
      && ErrorStep(c, db, state, batch) == e
      && DbInv(l, FlushDb(c, db, state, batch, state', x), PersistedAfter(e, x, n + |batch|, m), Max(a, n + |batch|))
  {
    hide DbInv, Flushing, StateRow, FlushDb, PayloadOk, AllIndexable, PersistedAfter;
    FlushKeepsDb(c, l, db, state, batch, state', x, n, m, a);
    NoMissingData(c, db, state, batch);
  }

  /** The memory after a flush: advanced and empty on success, untouched on failure. */
  lemma FlushWriterKeeps(c: Codec, ch: Chain, l: Layout, w: Writer, state': StateIndex, ok: bool, n: nat, m: nat,
                         m': nat)
    requires LiveAt(c, ch, l, w, n, m) && |w.pending| > 0 && StateMatches(l, state', n + |w.pending|)
    requires m' == m || m' == n + |w.pending|
    requires ok ==> m' == n + |w.pending|
    ensures ok ==> LiveAt(c, ch, l, Writer(state', Tip(c, w), []), n + |w.pending|, m')
    ensures !ok ==> LiveAt(c, ch, l, w, n, m')
  {
    hide StateMatches;
    var n' := n + |w.pending|;
    assert ch.blocks[n'..n'] == [];
    assert w.pending[|w.pending| - 1] == ch.blocks[n' - 1];
  }

  /** A flush, failing anywhere, keeps the invariant of the world. */
  lemma FlushKeeps(c: Codec, ch: Chain, l: Layout, w: World, x: Faults)
    requires ch.Linked(c) && Agrees(c, ch, l) && Inv(c, ch, l, w) && w.writer.Some?
    ensures Inv(c, ch, l, Exec(c, w, Flush(x)))
  {
    hide DbInv, Agrees, LiveAt, FlushDb, Assign, Chain.Linked;
    var wr := w.writer.value;
    if Prepare(wr).Ready? && wr.state.nextBlock >= ch.start {
      var m, a, n := Persisted(ch, w.db), Attempted(ch, w), wr.state.nextBlock - ch.start;
      FreshIsLive(c, ch, l, wr, m);
      assert Made(wr, Prepare(wr).batch, Prepare(wr).state);
      ReadyKeeps(c, ch, l, w.db, wr, w.attempted, x, n, m, a, Prepare(wr).batch, Prepare(wr).state);
    }
  }

  function After(c: Codec, db: Durable, wr: Writer, batch: seq<Assigned>, state': StateIndex, x: Faults): Writer {
    if FlushOk(c, db, wr.state, batch, x) then Writer(state', Tip(c, wr), []) else wr
  }

  lemma ReadyKeeps(c: Codec, ch: Chain, l: Layout, db: Durable, wr: Writer, attempted: nat, x: Faults, n: nat, m: nat,
                   a: nat, batch: seq<Assigned>, state': StateIndex)
    requires ch.Linked(c) && Agrees(c, ch, l) && DbInv(l, db, m, a) && LiveAt(c, ch, l, wr, n, m)
    requires Made(wr, batch, state') && a == (if attempted >= ch.start then attempted - ch.start else 0)
    ensures Inv(c, ch, l, World(FlushDb(c, db, wr.state, batch, state', x), Some(After(c, db, wr, batch, state', x)),
      Max(attempted, state'.nextBlock)))
  {
    hide Families, HashesInv, FlushDb, Made, Chain.Linked, StateMatches, Flushing, StateRow, BatchFits, AllIndexable,
      AgreesFamily, Layout.WfFamily;
    PreparedBatch(c, ch, l, wr, n, m, batch, state');
    AllFlush(c, ch, l, wr.state, batch, n, m, a);
    FlushDbKeeps(c, l, db, wr.state, batch, state', n, m, a, x);
    var e := if AllIndexable(c, batch) then 11 else 5;
    var m' := PersistedAfter(e, x, n + |batch|, m);
    var ok := FlushOk(c, db, wr.state, batch, x);
    FlushWriterKeeps(c, ch, l, wr, state', ok, n, m, m');
    InvFrom(c, ch, l, FlushDb(c, db, wr.state, batch, state', x), After(c, db, wr, batch, state', x),
      Max(attempted, state'.nextBlock), if ok then n + |batch| else n, m', Max(a, n + |batch|));
  }

  lemma PersistedIs(ch: Chain, l: Layout, db: Durable, m: nat)
    requires l.start == ch.start && StateRow(l, db.state, m)
    ensures Persisted(ch, db) == m
  {
  }

  lemma InvFrom(c: Codec, ch: Chain, l: Layout, db: Durable, wr: Writer, attempted: nat, n: nat, m: nat, a: nat)
    requires l.start == ch.start && DbInv(l, db, m, a) && LiveAt(c, ch, l, wr, n, m)
    requires a == if attempted >= ch.start then attempted - ch.start else 0
    ensures Inv(c, ch, l, World(db, Some(wr), attempted))
  {
    hide Families, HashesInv, StateMatches;
    PersistedIs(ch, l, db, m);
    LiveCounters(c, ch, l, wr, n, m);
    assert WriterInv(c, ch, l, wr, m);
    assert Attempted(ch, World(db, Some(wr), attempted)) == a;
  }

  // ---- every run ----

  lemma ExecKeeps(c: Codec, ch: Chain, l: Layout, w: World, op: Op)
    requires ch.Linked(c) && Agrees(c, ch, l) && Inv(c, ch, l, w) && OpOk(ch, op)
    ensures Inv(c, ch, l, Exec(c, w, op))
  {
    hide DbInv, WriterInv, Agrees, Chain.Linked, Started, Appended, FlushedDb, Flushed, Attempt, OpenWriter;
    var m, a := Persisted(ch, w.db), Attempted(ch, w);
    match op
    case Open => OpenKeeps(c, ch, l, w.db, m, a);
    case Crash =>
    case StartAt(block) => if w.writer.Some? { StartKeeps(c, ch, l, w.writer.value, m); }
    case Append(b) => if w.writer.Some? { AppendKeeps(c, ch, l, w.writer.value, m, b); }
    case Flush(x) => if w.writer.Some? { FlushKeeps(c, ch, l, w, x); }
  }

  lemma EmptyInv(c: Codec, ch: Chain, l: Layout)
    requires Agrees(c, ch, l)
    ensures Inv(c, ch, l, EMPTY_WORLD)
  {
    hide AgreesFamily;
    FirstCounters(c, ch, l);
    forall f ensures FamilyInv(l, EMPTY_DB, f, 0, 0) { EmptyFamily(l, f); }
  }

  lemma EmptyFamily(l: Layout, f: Family)
    requires l.Wf()
    ensures FamilyInv(l, EMPTY_DB, f, 0, 0)
  {
    assert l.WfFamily(f);
    SumMono(l.counts.At(f), 0, l.Size());
    assert EMPTY_DB.blobs.At(f) == map[] && EMPTY_DB.locs.At(f) == map[] && EMPTY_DB.pages.At(f) == map[]
      && EMPTY_DB.stats.At(f) == map[];
    assert EMPTY_DB.ranges.At(f) == map[] && EMPTY_DB.index.At(f) == map[];
    EmptyBitmap(l.tags.At(f));
  }

  lemma EmptyBitmap(t: Bitmap.Tags)
    ensures Bitmap.BitmapInv(t, map[], map[], t.base, t.base)
  {
    forall k ensures t.Bits(k, t.base, t.base) == {} {}
  }

  lemma {:induction false} RunKeeps(c: Codec, ch: Chain, ops: seq<Op>, n: nat)
    requires ch.Linked(c) && n <= |ops| && forall i :: 0 <= i < |ops| ==> OpOk(ch, ops[i])
    ensures Inv(c, ch, LayoutOf(c, ch), Run(c, EMPTY_WORLD, ops, n))
  {
    hide Inv, LayoutOf, Agrees, Chain.Linked, Exec, OpOk;
    LayoutAgrees(c, ch);
    if n == 0 {
      EmptyInv(c, ch, LayoutOf(c, ch));
    } else {
      RunKeeps(c, ch, ops, n - 1);
      ExecKeeps(c, ch, LayoutOf(c, ch), Run(c, EMPTY_WORLD, ops, n - 1), ops[n - 1]);
    }
  }

  // ---- with nothing attempted beyond the frontier, the tables are a function of the chain ----

  lemma FamilyUnique(l: Layout, db: Durable, db': Durable, m: nat, f: Family)
    requires FamilyInv(l, db, f, m, m) && FamilyInv(l, db', f, m, m)
    ensures db.blobs.At(f) == db'.blobs.At(f) && db.locs.At(f) == db'.locs.At(f)
    ensures db.pages.At(f) == db'.pages.At(f) && db.stats.At(f) == db'.stats.At(f)
    ensures db.ranges.At(f) == db'.ranges.At(f) && db.index.At(f) == db'.index.At(f)
  {
    hide Payload.PayloadInv, Bitmap.BitmapInv, RangesInv, IndexInv, Layout.Front, Contiguous, Layout.Ranges;
    Payload.PayloadUnique(l.rows.At(f), db.blobs.At(f), db.locs.At(f), db'.blobs.At(f), db'.locs.At(f), l.Front(f, m));
    Bitmap.BitmapUnique(l.tags.At(f), db.pages.At(f), db.stats.At(f), db'.pages.At(f), db'.stats.At(f), l.Front(f, m));
    RangesContiguous(l, f);
    RangesUnique(l.start, l.Ranges(f), m, db.ranges.At(f), db'.ranges.At(f));
    IndexUnique(l.start, l.Ranges(f), m, db.index.At(f), db'.index.At(f));
  }

  lemma DbUnique(l: Layout, db: Durable, db': Durable, m: nat)
    requires DbInv(l, db, m, m) && DbInv(l, db', m, m)
    ensures db == db'
  {
    hide FamilyInv, HashesInv;
    forall f
      ensures db.blobs.At(f) == db'.blobs.At(f) && db.locs.At(f) == db'.locs.At(f)
      ensures db.pages.At(f) == db'.pages.At(f) && db.stats.At(f) == db'.stats.At(f)
      ensures db.ranges.At(f) == db'.ranges.At(f) && db.index.At(f) == db'.index.At(f)
    {
      assert FamilyInv(l, db, f, m, m) && FamilyInv(l, db', f, m, m);
      FamilyUnique(l, db, db', m, f);
    }
    SameEverywhere(db.blobs, db'.blobs);
    SameEverywhere(db.locs, db'.locs);
    SameEverywhere(db.pages, db'.pages);
    SameEverywhere(db.stats, db'.stats);
    SameEverywhere(db.ranges, db'.ranges);
    SameEverywhere(db.index, db'.index);
    HashesUnique(l.start, l.hashes, m, db.hashes, db'.hashes);
  }

  /**
   * Two runs on the same chain, failures and all, that have committed the same number of blocks and
   * whose last commits cover everything they ever attempted, leave identical tables.
   */
  lemma RecoveredRunsAgree(c: Codec, ch: Chain, ops: seq<Op>, ops': seq<Op>)
    requires ch.Linked(c)
    requires forall i :: 0 <= i < |ops| ==> OpOk(ch, ops[i])
    requires forall i :: 0 <= i < |ops'| ==> OpOk(ch, ops'[i])
    requires var w, w' := Run(c, EMPTY_WORLD, ops, |ops|), Run(c, EMPTY_WORLD, ops', |ops'|);
      Attempted(ch, w) == Persisted(ch, w.db) == Persisted(ch, w'.db) == Attempted(ch, w')
    ensures Run(c, EMPTY_WORLD, ops, |ops|).db == Run(c, EMPTY_WORLD, ops', |ops'|).db
  {
    hide DbInv, WriterInv, LayoutOf, Run, OpOk;
    RunKeeps(c, ch, ops, |ops|);
    RunKeeps(c, ch, ops', |ops'|);
    var w, w' := Run(c, EMPTY_WORLD, ops, |ops|), Run(c, EMPTY_WORLD, ops', |ops'|);
    DbUnique(LayoutOf(c, ch), w.db, w'.db, Persisted(ch, w.db));
  }

  // ---- runs in which the store never fails ----

  predicate NoFault(op: Op) { op.Flush? ==> op.faults.stop > 10 }

  ghost predicate Indexes(c: Codec, ch: Chain) {
    forall i :: 0 <= i < |ch.blocks| ==> Indexable(c, ch.blocks[i])
  }

  lemma BatchIndexable(c: Codec, ch: Chain, batch: seq<Assigned>, n: nat)
    requires Indexes(c, ch) && n + |batch| <= |ch.blocks| && Blocks(batch) == ch.blocks[n..n + |batch|]
    ensures AllIndexable(c, batch)
  {
    forall i | 0 <= i < |batch| ensures Indexable(c, batch[i].block) {
      assert batch[i].block == Blocks(batch)[i] == ch.blocks[n + i];
    }
  }

  lemma CleanReady(c: Codec, ch: Chain, l: Layout, db: Durable, wr: Writer, x: Faults, n: nat, m: nat,
                   batch: seq<Assigned>, state': StateIndex)
    requires ch.Linked(c) && Agrees(c, ch, l) && Indexes(c, ch) && DbInv(l, db, m, m) && LiveAt(c, ch, l, wr, n, m)
    requires Made(wr, batch, state') && x.stop > 10
    ensures Persisted(ch, FlushDb(c, db, wr.state, batch, state', x)) == n + |batch|
    ensures state'.nextBlock == ch.start + n + |batch| && m <= n + |batch|
  {
    hide Families, HashesInv, FlushDb, Made, Chain.Linked, StateMatches, Flushing, StateRow, BatchFits, AllIndexable,
      AgreesFamily, Layout.WfFamily, Persisted;
    PreparedBatch(c, ch, l, wr, n, m, batch, state');
    AllFlush(c, ch, l, wr.state, batch, n, m, m);
    FlushDbKeeps(c, l, db, wr.state, batch, state', n, m, m, x);
    BatchIndexable(c, ch, batch, n);
    PersistedIs(ch, l, FlushDb(c, db, wr.state, batch, state', x), n + |batch|);
  }

  lemma CleanFlush(c: Codec, ch: Chain, l: Layout, w: World, x: Faults)
    requires ch.Linked(c) && Agrees(c, ch, l) && Indexes(c, ch) && Inv(c, ch, l, w) && w.writer.Some? && x.stop > 10
    requires Attempted(ch, w) == Persisted(ch, w.db)
    ensures var w' := Exec(c, w, Flush(x)); Attempted(ch, w') == Persisted(ch, w'.db)
  {
    hide DbInv, Agrees, LiveAt, FlushDb, Assign, Chain.Linked, Persisted, Indexes;
    var wr := w.writer.value;
    if Prepare(wr).Ready? && wr.state.nextBlock >= ch.start {
      var m, n := Persisted(ch, w.db), wr.state.nextBlock - ch.start;
      FreshIsLive(c, ch, l, wr, m);
      assert Made(wr, Prepare(wr).batch, Prepare(wr).state);
      CleanReady(c, ch, l, w.db, wr, x, n, m, Prepare(wr).batch, Prepare(wr).state);
    }
  }

  lemma {:induction false} CleanRun(c: Codec, ch: Chain, ops: seq<Op>, n: nat)
    requires ch.Linked(c) && Indexes(c, ch) && n <= |ops|
    requires forall i :: 0 <= i < |ops| ==> OpOk(ch, ops[i]) && NoFault(ops[i])
    ensures var w := Run(c, EMPTY_WORLD, ops, n); Attempted(ch, w) == Persisted(ch, w.db)
  {
    hide Inv, LayoutOf, Agrees, Chain.Linked, OpOk, Indexes, OpenWriter, Started, Appended, Flushed, FlushedDb, Attempt;
    LayoutAgrees(c, ch);
    if n > 0 {
      CleanRun(c, ch, ops, n - 1);
      RunKeeps(c, ch, ops, n - 1);
      var w := Run(c, EMPTY_WORLD, ops, n - 1);
      if ops[n - 1].Flush? && w.writer.Some? {
        CleanFlush(c, ch, LayoutOf(c, ch), w, ops[n - 1].faults);
      }
    }
  }

  /** Where the flush boundaries fell cannot be told from the tables. */
  lemma BatchingInvisible(c: Codec, ch: Chain, ops: seq<Op>, ops': seq<Op>)
    requires ch.Linked(c) && Indexes(c, ch)
    requires forall i :: 0 <= i < |ops| ==> OpOk(ch, ops[i]) && NoFault(ops[i])
    requires forall i :: 0 <= i < |ops'| ==> OpOk(ch, ops'[i]) && NoFault(ops'[i])
    requires Persisted(ch, Run(c, EMPTY_WORLD, ops, |ops|).db) == Persisted(ch, Run(c, EMPTY_WORLD, ops', |ops'|).db)
    ensures Run(c, EMPTY_WORLD, ops, |ops|).db == Run(c, EMPTY_WORLD, ops', |ops'|).db
  {
    hide Run, Persisted, Attempted, OpOk;
    CleanRun(c, ch, ops, |ops|);
    CleanRun(c, ch, ops', |ops'|);
    RecoveredRunsAgree(c, ch, ops, ops');
  }
}
