/** What readers of the index see after any run of the writer, block by block. */
module Reads {
  import opened Seqs
  import opened Schema
  import opened Chain
  import opened Metadata
  import opened IndexState
  import opened Layout
  import opened Consistency
  import opened Runs
  import Payload
  import Bitmap

  /** Row id read back through its location rows, as validate_payload does. */
  function ReadRow(blobs: map<nat, Bytes>, locs: map<nat, nat>, id: nat): Option<Bytes> {
    var start :- Payload.ReadStart(locs, id);
    if id in locs && Payload.Part(id) in blobs && start <= locs[id] <= |blobs[Payload.Part(id)]|
    then Some(blobs[Payload.Part(id)][start..locs[id]]) else None
  }

  predicate BitSet(pages: Bitmap.Pages, flt: Filter, id: nat) {
    var k := Bitmap.PageKey(flt, Bitmap.PageOf(id));
    k in pages && id - Bitmap.PageOf(id) in pages[k]
  }

  /** Row j of block i sits in the family's stream at its id. */
  lemma StreamRow(c: Codec, ch: Chain, f: Family, i: nat, j: nat)
    requires i < |ch.blocks| && j < |BlockRows(ch.blocks[i], f)|
    ensures var k := Front(ch, f, i) + j - Base(ch, f);
      && k < |RowsOf(c, ch, f).encs| == |TagsOf(c, ch, f).filters|
      && RowsOf(c, ch, f).encs[k] == c.encode(BlockRows(ch.blocks[i], f)[j])
      && TagsOf(c, ch, f).filters[k] == BlockTags(c, ch.blocks[i], f)[j]
      && Front(ch, f, i) + j < Front(ch, f, i + 1)
  {
    hide BlockRows, BlockTags;
    FlatAt(RowGroups(ch.blocks, f), i, j);
    FlatAt(TagGroups(c, ch.blocks, f), i, j);
    StreamsAlign(c, ch.blocks, f, i);
    FrontEnd(c, ch, f);
  }

  lemma BitExact(t: Bitmap.Tags, pages: Bitmap.Pages, stats: Bitmap.Stats, m: nat, a: nat, id: nat, flt: Filter)
    requires Bitmap.BitmapInv(t, pages, stats, m, a) && t.base <= id < m
    ensures BitSet(pages, flt, id) <==> flt in t.filters[id - t.base]
  {
    var k := Bitmap.PageKey(flt, Bitmap.PageOf(id));
    var o := id - k.page;
    if BitSet(pages, flt, id) {
      assert o in t.Bits(k, t.base, a);
    }
    if flt in t.filters[id - t.base] {
      assert t.InPage(k, t.base, m, o);
      assert o in t.Bits(k, t.base, m);
    }
  }

  lemma StreamBases(c: Codec, ch: Chain, f: Family)
    ensures RowsOf(c, ch, f).base == TagsOf(c, ch, f).base == Base(ch, f)
  {
  }

  /**
   * Row j of block i reads back as its encoding, and its bits are exactly its filters. The one row that
   * cannot be read back is the first header when the start block is not a partition start.
   */
  ghost predicate RowCommitted(c: Codec, ch: Chain, db: Durable, f: Family, i: nat, j: nat)
    requires i < |ch.blocks| && j < |BlockRows(ch.blocks[i], f)|
  {
    var id := Front(ch, f, i) + j;
    && ReadRow(db.blobs.At(f), db.locs.At(f), id)
         == (if id == Base(ch, f) && id != Payload.PartStart(id) then None
           else Some(c.encode(BlockRows(ch.blocks[i], f)[j])))
    && forall flt :: BitSet(db.pages.At(f), flt, id) <==> flt in BlockTags(c, ch.blocks[i], f)[j]
  }

  /** Block i has its hash and ranges, every id in its range resolves to it, and its rows are committed. */
  ghost predicate BlockCommitted(c: Codec, ch: Chain, db: Durable, f: Family, i: nat)
    requires i < |ch.blocks|
  {
    && ch.start + i in db.hashes && db.hashes[ch.start + i] == c.hash(ch.blocks[i].header)
    && ch.start + i in db.ranges.At(f)
    && db.ranges.At(f)[ch.start + i] == Range(Front(ch, f, i), |BlockRows(ch.blocks[i], f)|)
    && (forall id: nat, r :: Front(ch, f, i) <= id < Front(ch, f, i + 1) && SeekLe(db.index.At(f), id, r) ==>
          Finds(db.index.At(f), r, ch.start + i))
    && (forall j: nat :: j < |BlockRows(ch.blocks[i], f)| ==> RowCommitted(c, ch, db, f, i, j))
  }

  predicate Finds(index: map<nat, nat>, key: Option<nat>, height: nat) {
    key.Some? && key.value in index && index[key.value] == height
  }

  /** One family's tables, one committed row. */
  lemma FamilyRow(c: Codec, ch: Chain, l: Layout, db: Durable, f: Family, m: nat, a: nat, i: nat, j: nat)
    requires Agrees(c, ch, l) && FamilyInv(l, db, f, m, a) && i < m && j < |BlockRows(ch.blocks[i], f)|
    ensures RowCommitted(c, ch, db, f, i, j)
  {
    hide BlockRows, BlockTags, RowsOf, TagsOf, Front, Base, Payload.PayloadInv, Bitmap.BitmapInv, MetadataPart, BitSet,
      Payload.Part, Payload.PartStart, Payload.ReadStart, Layout.WfFamily;
    assert AgreesFamily(c, ch, l, f);
    StreamRow(c, ch, f, i, j);
    StreamBases(c, ch, f);
    FrontsAgree(c, ch, l, f, m);
    FrontMono(c, ch, f, i + 1, m);
    FrontMono(c, ch, f, 0, i);
    var id := Front(ch, f, i) + j;
    Payload.Addressing(l.rows.At(f), db.blobs.At(f), db.locs.At(f), l.Front(f, m), l.Front(f, a), id);
    forall flt ensures BitSet(db.pages.At(f), flt, id) <==> flt in BlockTags(c, ch.blocks[i], f)[j] {
      BitExact(l.tags.At(f), db.pages.At(f), db.stats.At(f), l.Front(f, m), l.Front(f, a), id, flt);
    }
  }

  lemma FamilyLookup(c: Codec, ch: Chain, l: Layout, db: Durable, f: Family, m: nat, a: nat, i: nat, id: nat,
                     r: Option<nat>)
    requires Agrees(c, ch, l) && FamilyInv(l, db, f, m, a) && i < m
    requires Front(ch, f, i) <= id < Front(ch, f, i + 1) && SeekLe(db.index.At(f), id, r)
    ensures Finds(db.index.At(f), r, ch.start + i)
  {
    hide BlockRows, RowsOf, TagsOf, Front, PayloadPart, BitmapPart, Contiguous, IndexInv, Layout.Front, Layout.Ranges,
      Layout.WfFamily, AgreesFamily;
    assert l.WfFamily(f);
    RangesContiguous(l, f);
    InBlocks(c, ch, l, f, m, i, id);
    LookupResolves(l.start, l.Ranges(f), db.index.At(f), m, a, id, r);
  }

  lemma FamilyRange(c: Codec, ch: Chain, l: Layout, db: Durable, f: Family, m: nat, a: nat, i: nat)
    requires Agrees(c, ch, l) && FamilyInv(l, db, f, m, a) && i < m
    ensures ch.start + i in db.ranges.At(f)
    ensures db.ranges.At(f)[ch.start + i] == Range(Front(ch, f, i), |BlockRows(ch.blocks[i], f)|)
  {
    hide BlockRows, RowsOf, TagsOf, Front, PayloadPart, BitmapPart, IndexInv, Layout.Front, Layout.WfFamily;
    assert AgreesFamily(c, ch, l, f);
    RangeAt(c, ch, l, f, i);
    FrontsAgree(c, ch, l, f, i);
  }

  lemma InBlocks(c: Codec, ch: Chain, l: Layout, f: Family, m: nat, i: nat, id: nat)
    requires Agrees(c, ch, l) && i < m <= |ch.blocks| && Front(ch, f, i) <= id < Front(ch, f, i + 1)
    ensures |l.counts.At(f)| == l.Size() && m > 0
    ensures l.Ranges(f)[0].first <= id < l.Ranges(f)[m - 1].End() && l.Ranges(f)[i].first <= id < l.Ranges(f)[i].End()
  {
    hide BlockRows, RowsOf, TagsOf, Front, Layout.WfFamily;
    assert AgreesFamily(c, ch, l, f);
    FrontsAgree(c, ch, l, f, i);
    FrontsAgree(c, ch, l, f, i + 1);
    SumMono(l.counts.At(f), 0, i);
    SumMono(l.counts.At(f), i + 1, m);
  }

  lemma DbBlock(c: Codec, ch: Chain, l: Layout, db: Durable, m: nat, a: nat, i: nat, f: Family)
    requires Agrees(c, ch, l) && DbInv(l, db, m, a) && i < m
    ensures i < |ch.blocks| && BlockCommitted(c, ch, db, f, i)
  {
    hide BlockRows, Front, FamilyInv, SeekLe, Finds, RowCommitted, AgreesFamily, Layout.WfFamily;
    assert FamilyInv(l, db, f, m, a);
    FamilyRange(c, ch, l, db, f, m, a, i);
    forall id: nat, r | Front(ch, f, i) <= id < Front(ch, f, i + 1) && SeekLe(db.index.At(f), id, r)
      ensures Finds(db.index.At(f), r, ch.start + i)
    {
      FamilyLookup(c, ch, l, db, f, m, a, i, id, r);
    }
    forall j: nat | j < |BlockRows(ch.blocks[i], f)| ensures RowCommitted(c, ch, db, f, i, j) {
      FamilyRow(c, ch, l, db, f, m, a, i, j);
    }
  }

  /**
   * Crash consistency: after any run, with any flush stopping at any write after any subset of that
   * write's rows, the tables describe every block the persisted state row admits.
   */
  lemma CrashConsistency(c: Codec, ch: Chain, ops: seq<Op>, i: nat, f: Family)
    requires ch.Linked(c) && forall k :: 0 <= k < |ops| ==> OpOk(ch, ops[k])
    requires i < Persisted(ch, Run(c, EMPTY_WORLD, ops, |ops|).db)
    ensures i < |ch.blocks| && BlockCommitted(c, ch, Run(c, EMPTY_WORLD, ops, |ops|).db, f, i)
  {
    hide DbInv, WriterInv, Run, LayoutOf, Agrees, OpOk, Persisted, BlockCommitted;
    RunKeeps(c, ch, ops, |ops|);
    LayoutAgrees(c, ch);
    var w := Run(c, EMPTY_WORLD, ops, |ops|);
    DbBlock(c, ch, LayoutOf(c, ch), w.db, Persisted(ch, w.db), Attempted(ch, w), i, f);
  }

  /** The persisted state row is the state after exactly the committed blocks. */
  lemma StateRowExact(c: Codec, ch: Chain, ops: seq<Op>)
    requires ch.Linked(c) && forall k :: 0 <= k < |ops| ==> OpOk(ch, ops[k])
    ensures var db := Run(c, EMPTY_WORLD, ops, |ops|).db; var m := Persisted(ch, db);
      && m <= |ch.blocks|
      && db.state == (if m == 0 then None else
           Some(StateIndex(
             Some(ch.start), ch.start + m, Front(ch, Log, m), Front(ch, Transaction, m), Front(ch, Trace, m))))
  {
    hide Front, Families, Run, LayoutOf, WriterInv, Layout.WfFamily, OpOk, Persisted, Attempted, AgreesFamily,
      HashesInv;
    RunKeeps(c, ch, ops, |ops|);
    LayoutAgrees(c, ch);
    var l, m := LayoutOf(c, ch), Persisted(ch, Run(c, EMPTY_WORLD, ops, |ops|).db);
    forall f ensures |l.counts.At(f)| == |ch.blocks| && l.Front(f, m) == Front(ch, f, m) {
      CountersAgree(c, ch, l, f, m);
    }
  }

  lemma CountersAgree(c: Codec, ch: Chain, l: Layout, f: Family, m: nat)
    requires Agrees(c, ch, l) && m <= |ch.blocks|
    ensures |l.counts.At(f)| == |ch.blocks| && l.Front(f, m) == Front(ch, f, m)
  {
    hide RowsOf, TagsOf, BlockRows, Front, Layout.WfFamily;
    assert AgreesFamily(c, ch, l, f);
    FrontsAgree(c, ch, l, f, m);
  }

  // ---- repair of bitmap pages ----

  lemma PagesLanded(c: Codec, db: Durable, db': Durable, state: StateIndex, batch: seq<Assigned>, x: Faults, f: Family,
                    e: nat)
    requires Leaves(c, db, db', state, batch, x, f, e) && 10 < e && 10 < x.stop
    ensures db'.pages.At(f) == db.pages.At(f) + PageRows(c, db, batch, f)
    ensures db'.stats.At(f) == db.stats.At(f) + StatRows(c, db, batch, f)
  {
    hide PageRows, StatRows, Landed, BlobRows, LocRows;
    LandedSub(PageRows(c, db, batch, f), 5, e, x.stop, x.pages.At(f));
    LandedSub(StatRows(c, db, batch, f), 6, e, x.stop, x.stats.At(f));
  }

  /** A flush that lands in full makes every page it touches exact, with exact statistics. */
  lemma TouchedSettled(c: Codec, l: Layout, db: Durable, db': Durable, state: StateIndex, batch: seq<Assigned>,
                       x: Faults, n: nat, m: nat, a: nat, f: Family, e: nat, k: Bitmap.PageKey)
    requires n <= m <= n + |batch| && FlushingFamily(c, l, state, batch, n, f) && BitmapPart(l, db, f, m, a)
    requires Leaves(c, db, db', state, batch, x, f, e) && 10 < e && 10 < x.stop
    ensures l.WfFamily(f) && n + |batch| <= l.Size()
    ensures l.tags.At(f).Bits(k, l.Front(f, n), l.Front(f, n + |batch|)) != {} ==>
      Bitmap.SettledPage(l.tags.At(f), db'.pages.At(f), db'.stats.At(f), l.Front(f, n + |batch|), k)
  {
    hide Bitmap.BitmapInv, PageRows, StatRows, FlushingFamily, Layout.Front, Layout.WfFamily, Bitmap.SettledPage,
      Leaves, Bitmap.Slice, TagsOfBatch;
    PagesLanded(c, db, db', state, batch, x, f, e);
    TagsAre(c, l, state, batch, n, f);
    Fronts(l, f, n, n + |batch|, m, a);
    PageStep(c, db, batch, f, l.tags.At(f), l.Front(f, n), l.Front(f, n + |batch|), l.Front(f, m), l.Front(f, a), k);
  }

  lemma PageStep(c: Codec, db: Durable, batch: seq<Assigned>, f: Family, t: Bitmap.Tags, lo: nat, hi: nat, m: nat,
                 a: nat, k: Bitmap.PageKey)
    requires Bitmap.BitmapInv(t, db.pages.At(f), db.stats.At(f), m, a) && t.base <= lo <= m <= hi <= t.End()
    requires TagsOfBatch(c, batch, f) == Bitmap.Slice(t, lo, hi)
    ensures t.Bits(k, lo, hi) != {} ==>
      Bitmap.SettledPage(t, db.pages.At(f) + PageRows(c, db, batch, f), db.stats.At(f) + StatRows(c, db, batch, f), hi,
        k)
  {
    hide Bitmap.BitmapInv, TagStream;
    Bitmap.FlushStep(t, db.pages.At(f), db.stats.At(f), lo, hi, m, a, PageRows(c, db, batch, f),
      StatRows(c, db, batch, f));
  }

  /**
   * Whatever earlier failed flushes left behind, after a flush that succeeds every page the batch touches
   * holds exactly the committed ids with its filter, and its statistics row is its cardinality. Once the
   * frontier covers everything ever attempted, that holds for every page.
   */
  lemma FlushRepairsPages(c: Codec, ch: Chain, l: Layout, w: World, x: Faults, f: Family, k: Bitmap.PageKey)
    requires ch.Linked(c) && Agrees(c, ch, l) && Inv(c, ch, l, w) && w.writer.Some?
    requires Prepare(w.writer.value).Ready? && FlushOk(c, w.db, w.writer.value.state, Prepare(w.writer.value).batch, x)
    requires w.writer.value.state.nextBlock >= ch.start
    ensures var w' := Exec(c, w, Flush(x));
      var n, n' := w.writer.value.state.nextBlock - ch.start, Persisted(ch, w'.db);
      && n <= n' <= |ch.blocks| && l.WfFamily(f) && l.Size() == |ch.blocks|
      && (l.tags.At(f).Bits(k, l.Front(f, n), l.Front(f, n')) != {} || Attempted(ch, w') == n' ==>
            Bitmap.SettledPage(l.tags.At(f), w'.db.pages.At(f), w'.db.stats.At(f), l.Front(f, n'), k))
  {
    hide LiveAt, FlushDb, Chain.Linked, StateMatches, StateRow, BatchFits, AllIndexable, AgreesFamily, Layout.WfFamily,
      HashesInv, Families, Bitmap.SettledPage, FlushingFamily, Assign, ErrorStep, Persisted, Layout.Front, Made,
      Leaves;
    var wr, w' := w.writer.value, Exec(c, w, Flush(x));
    var m, a, n := Persisted(ch, w.db), Attempted(ch, w), wr.state.nextBlock - ch.start;
    var batch, state' := Prepare(wr).batch, Prepare(wr).state;
    FreshIsLive(c, ch, l, wr, m);
    PreparedIsMade(wr);
    PreparedBatch(c, ch, l, wr, n, m, batch, state');
    LiveBounds(c, ch, l, wr, n, m);
    AllFlush(c, ch, l, wr.state, batch, n, m, a);
    FlushDbKeeps(c, l, w.db, wr.state, batch, state', n, m, a, x);
    PersistedIs(ch, l, w'.db, n + |batch|);
    FlushLeaves(c, w.db, wr.state, batch, state', x, f);
    assert FlushingFamily(c, l, wr.state, batch, n, f) && l.WfFamily(f);
    FamilyOf(l, w.db, f, m, a);
    TouchedSettled(c, l, w.db, w'.db, wr.state, batch, x, n, m, a, f, ErrorStep(c, w.db, wr.state, batch), k);
    FlushKeeps(c, ch, l, w, x);
    SettledWhenCovered(l, w'.db, n + |batch|, f, k, Attempted(ch, w'));
  }

  lemma FamilyOf(l: Layout, db: Durable, f: Family, m: nat, a: nat)
    requires Families(l, db, m, a)
    ensures FamilyInv(l, db, f, m, a)
  {
    hide FamilyInv;
  }

  lemma PreparedIsMade(w: Writer)
    requires Prepare(w).Ready?
    ensures Made(w, Prepare(w).batch, Prepare(w).state)
  {
    hide Assign;
  }

  lemma LiveBounds(c: Codec, ch: Chain, l: Layout, w: Writer, n: nat, m: nat)
    requires LiveAt(c, ch, l, w, n, m)
    ensures n <= m <= n + |w.pending| && StateMatches(l, w.state, n)
  {
    hide StateMatches;
  }

  lemma SettledWhenCovered(l: Layout, db: Durable, m: nat, f: Family, k: Bitmap.PageKey, a: nat)
    requires DbInv(l, db, m, a)
    ensures l.WfFamily(f)
    ensures a == m ==> Bitmap.SettledPage(l.tags.At(f), db.pages.At(f), db.stats.At(f), l.Front(f, m), k)
  {
    hide Bitmap.SettledPage, Layout.Front, PayloadPart, MetadataPart;
    assert FamilyInv(l, db, f, m, a) && l.WfFamily(f);
    if a == m {
      assert l.tags.At(f).Bits(k, l.Front(f, m), l.Front(f, m)) == {};
    }
  }
}
