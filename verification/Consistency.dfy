/** Crash consistency: what every step of the writer keeps true of the durable tables. */
module Consistency {
  import opened Seqs
  import opened Schema
  import opened Chain
  import opened Metadata
  import opened IndexState
  import opened Layout
  import Payload
  import Bitmap

  // ---- the invariant of the durable tables ----

  function StateAt(l: Layout, m: nat): StateIndex
    requires m <= |l.counts.log| && m <= |l.counts.tx| && m <= |l.counts.trace|
  {
    StateIndex(Some(l.start), l.start + m, l.Front(Log, m), l.Front(Transaction, m), l.Front(Trace, m))
  }

  ghost predicate PayloadPart(l: Layout, db: Durable, f: Family, m: nat, a: nat) {
    && l.WfFamily(f) && m <= a <= l.Size()
    && Payload.PayloadInv(l.rows.At(f), db.blobs.At(f), db.locs.At(f), l.Front(f, m), l.Front(f, a))
  }

  ghost predicate BitmapPart(l: Layout, db: Durable, f: Family, m: nat, a: nat) {
    && l.WfFamily(f) && m <= a <= l.Size()
    && Bitmap.BitmapInv(l.tags.At(f), db.pages.At(f), db.stats.At(f), l.Front(f, m), l.Front(f, a))
  }

  ghost predicate MetadataPart(l: Layout, db: Durable, f: Family, m: nat, a: nat) {
    && |l.counts.At(f)| == l.Size()
    && RangesInv(l.start, l.Ranges(f), db.ranges.At(f), m, a) && IndexInv(l.start, l.Ranges(f), db.index.At(f), m, a)
  }

  /**
   * The tables of one family: nothing wrong anywhere, everything there for the first m blocks,
   * nothing for blocks beyond the first a.
   */
  ghost predicate FamilyInv(l: Layout, db: Durable, f: Family, m: nat, a: nat) {
    PayloadPart(l, db, f, m, a) && BitmapPart(l, db, f, m, a) && MetadataPart(l, db, f, m, a)
  }

  ghost predicate StateRow(l: Layout, state: Option<StateIndex>, m: nat) {
    && l.WfFamily(Transaction) && l.WfFamily(Log) && l.WfFamily(Trace) && m <= l.Size()
    && state == (if m == 0 then None else Some(StateAt(l, m)))
  }

  ghost predicate DbInv(l: Layout, db: Durable, m: nat, a: nat) {
    && l.Wf() && m <= a <= l.Size()
    && StateRow(l, db.state, m)
    && HashesInv(l.start, l.hashes, db.hashes, m, a)
    && Families(l, db, m, a)
  }

  ghost predicate Families(l: Layout, db: Durable, m: nat, a: nat) {
    forall f :: FamilyInv(l, db, f, m, a)
  }

  // ---- one flush, table by table ----

  /** Blocks n..n' are flushed by a writer at n while blocks up to m are durable. */
  ghost predicate Flushing(c: Codec, l: Layout, state: StateIndex, batch: seq<Assigned>, n: nat, m: nat, a: nat) {
    && BatchFits(c, l, batch, n) && n <= m <= n + |batch| <= l.Size() && m <= a <= l.Size()
    && forall f :: FlushingFamily(c, l, state, batch, n, f)
  }

  ghost predicate FlushingFamily(c: Codec, l: Layout, state: StateIndex, batch: seq<Assigned>, n: nat, f: Family) {
    && l.WfFamily(f) && n + |batch| <= l.Size() && First(batch, f) == l.Front(f, n)
    && SliceFits(c, l, Blocks(batch), n, f)
    && state.CommittedId(f) == Payload.CommittedId(l.rows.At(f).base, l.Front(f, n))
  }

  lemma LandedSub<K, V>(rows: map<K, V>, step: nat, error: nat, stop: nat, kept: set<K>)
    ensures SubRows(Landed(rows, step, error, stop, kept), rows)
    ensures step < error && step < stop ==> Landed(rows, step, error, stop, kept) == rows
  {
  }

  /** Any part of the rows of the step that fails may have landed; of later steps nothing, of earlier ones all. */
  lemma AnySubsetLands<K, V>(rows: map<K, V>, w: map<K, V>, step: nat, error: nat, stop: nat, kept: set<K>)
    requires SubRows(w, rows) && step < error
    ensures Landed(rows, step, error, step, w.Keys) == w
    ensures stop < step ==> Landed(rows, step, error, stop, kept) == map[]
    ensures step < stop ==> Landed(rows, step, error, stop, kept) == rows
  {
  }

  lemma PayloadStep(c: Codec, db: Durable, state: StateIndex, batch: seq<Assigned>, f: Family, s: Payload.Rows, lo: nat,
                    hi: nat, m: nat, a: nat, wb: map<nat, Bytes>, wl: map<nat, nat>)
    requires Payload.PayloadInv(s, db.blobs.At(f), db.locs.At(f), m, a) && s.base <= lo <= m <= hi <= s.End()
    requires PayloadOf(c, db, state, batch, f) == Payload.FlushOf(s, db.blobs.At(f), db.locs.At(f), lo, hi)
    requires SubRows(wb, BlobRows(c, db, state, batch, f)) && SubRows(wl, LocRows(c, db, state, batch, f))
    ensures PayloadOk(c, db, state, batch, f)
    ensures Payload.PayloadInv(s, db.blobs.At(f) + wb, db.locs.At(f) + wl, m, Max(a, hi))
    ensures wb == BlobRows(c, db, state, batch, f) && wl == LocRows(c, db, state, batch, f) ==>
      Payload.PayloadInv(s, db.blobs.At(f) + wb, db.locs.At(f) + wl, hi, Max(a, hi))
  {
    hide Payload.PayloadInv, RowStream;
    Payload.FlushStep(s, db.blobs.At(f), db.locs.At(f), lo, hi, m, a, wb, wl);
  }

  lemma BitmapStep(c: Codec, db: Durable, batch: seq<Assigned>, f: Family, t: Bitmap.Tags, lo: nat, hi: nat, m: nat,
                   a: nat, w: Bitmap.Pages, ws: Bitmap.Stats)
    requires Bitmap.BitmapInv(t, db.pages.At(f), db.stats.At(f), m, a) && t.base <= lo <= m <= hi <= t.End()
    requires TagsOfBatch(c, batch, f) == Bitmap.Slice(t, lo, hi)
    requires SubRows(w, PageRows(c, db, batch, f)) && SubRows(ws, StatRows(c, db, batch, f))
    ensures Bitmap.BitmapInv(t, db.pages.At(f) + w, db.stats.At(f) + ws, m, Max(a, hi))
    ensures w == PageRows(c, db, batch, f) && ws == StatRows(c, db, batch, f) ==>
      Bitmap.BitmapInv(t, db.pages.At(f) + w, db.stats.At(f) + ws, hi, Max(a, hi))
  {
    hide Bitmap.BitmapInv, TagStream;
    Bitmap.FlushStep(t, db.pages.At(f), db.stats.At(f), lo, hi, m, a, w, ws);
  }

  lemma BatchMetadata(c: Codec, l: Layout, batch: seq<Assigned>, n: nat, f: Family)
    requires BatchFits(c, l, batch, n)
    ensures |l.counts.At(f)| == l.Size() && BatchHashes(c, l.start, l.hashes, batch, n)
    ensures BatchRanges(l.start, l.Ranges(f), batch, f, n)
  {
    assert Fits(c, l, batch[0], n + 0) && FitsFamily(l, batch[0], n + 0, f);
    forall i | 0 <= i < |batch|
      ensures batch[i].block.Number() == l.start + n + i && c.hash(batch[i].block.header) == l.hashes[n + i]
      ensures batch[i].Of(f) == l.Ranges(f)[n + i]
    {
      assert Fits(c, l, batch[i], n + i) && FitsFamily(l, batch[i], n + i, f);
    }
  }

  /** db' is what a flush leaves in the tables of family f. */
  predicate Leaves(c: Codec, db: Durable, db': Durable, state: StateIndex, batch: seq<Assigned>, x: Faults, f: Family,
                   e: nat) {
    && db'.blobs.At(f) == db.blobs.At(f) + Landed(BlobRows(c, db, state, batch, f), Rank(f), e, x.stop, x.blobs)
    && db'.locs.At(f) == db.locs.At(f) + Landed(LocRows(c, db, state, batch, f), 4, e, x.stop, x.locs.At(f))
    && db'.pages.At(f) == db.pages.At(f) + Landed(PageRows(c, db, batch, f), 5, e, x.stop, x.pages.At(f))
    && db'.stats.At(f) == db.stats.At(f) + Landed(StatRows(c, db, batch, f), 6, e, x.stop, x.stats.At(f))
    && db'.ranges.At(f) == db.ranges.At(f) + Landed(RangeRows(batch, f, |batch|), 8, e, x.stop, x.ranges.At(f))
    && db'.index.At(f) == db.index.At(f) + Landed(IndexRows(batch, f, |batch|), 9, e, x.stop, x.index.At(f))
  }

  lemma FlushLeaves(c: Codec, db: Durable, state: StateIndex, batch: seq<Assigned>, state': StateIndex, x: Faults,
                    f: Family)
    ensures Leaves(c, db, FlushDb(c, db, state, batch, state', x), state, batch, x, f, ErrorStep(c, db, state, batch))
  {
    hide Landed, BlobRows, LocRows, PageRows, StatRows, RangeRows, IndexRows, HashRows, ErrorStep, FlushedHashes,
      FlushedState;
  }

  // ---- one flush, whole database ----

  /** Frontiers grow with the number of blocks. */
  lemma Fronts(l: Layout, f: Family, n: nat, n': nat, m: nat, a: nat)
    requires l.WfFamily(f) && n <= m <= n' <= l.Size() && m <= a <= l.Size()
    ensures l.rows.At(f).base == l.tags.At(f).base <= l.Front(f, n) <= l.Front(f, m) <= l.Front(f, n') <=
      l.rows.At(f).End() == l.tags.At(f).End()
    ensures l.Front(f, m) <= l.Front(f, a) <= l.rows.At(f).End()
    ensures l.Front(f, Max(a, n')) == Max(l.Front(f, a), l.Front(f, n'))
  {
    var counts := l.counts.At(f);
    SumMono(counts, n, m);
    SumMono(counts, m, n');
    SumMono(counts, n', l.Size());
    SumMono(counts, m, a);
    SumMono(counts, a, l.Size());
    SumMono(counts, if a < n' then a else n', if a < n' then n' else a);
  }

  lemma PayloadIs(c: Codec, l: Layout, db: Durable, state: StateIndex, batch: seq<Assigned>, n: nat, f: Family)
    requires FlushingFamily(c, l, state, batch, n, f)
    ensures l.WfFamily(f) && |l.counts.At(f)| == l.Size() && n + |batch| <= l.Size()
    ensures l.rows.At(f).base <= l.Front(f, n) <= l.Front(f, n + |batch|) <= l.rows.At(f).End()
    ensures PayloadOf(c, db, state, batch, f)
      == Payload.FlushOf(l.rows.At(f), db.blobs.At(f), db.locs.At(f), l.Front(f, n), l.Front(f, n + |batch|))
  {
    hide RowStream, TagStream, Sum, StateIndex.CommittedId;
  }

  lemma TagsAre(c: Codec, l: Layout, state: StateIndex, batch: seq<Assigned>, n: nat, f: Family)
    requires FlushingFamily(c, l, state, batch, n, f)
    ensures l.WfFamily(f) && |l.counts.At(f)| == l.Size() && n + |batch| <= l.Size()
    ensures l.tags.At(f).base <= l.Front(f, n) <= l.Front(f, n + |batch|) <= l.tags.At(f).End()
    ensures TagsOfBatch(c, batch, f) == Bitmap.Slice(l.tags.At(f), l.Front(f, n), l.Front(f, n + |batch|))
  {
    hide RowStream, TagStream, Sum, StateIndex.CommittedId;
  }

  lemma FlushPayload(c: Codec, l: Layout, db: Durable, db': Durable, state: StateIndex, batch: seq<Assigned>, x: Faults,
                     n: nat, m: nat, a: nat, f: Family, e: nat)
    requires n <= m <= n + |batch| && FlushingFamily(c, l, state, batch, n, f) && PayloadPart(l, db, f, m, a)
    requires Leaves(c, db, db', state, batch, x, f, e)
    ensures PayloadOk(c, db, state, batch, f)
    ensures PayloadPart(l, db', f, m, Max(a, n + |batch|))
    ensures 10 < e && 10 <= x.stop ==> PayloadPart(l, db', f, n + |batch|, Max(a, n + |batch|))
  {
    hide Payload.PayloadInv, BlobRows, LocRows, PayloadOf, Landed, PayloadOk, FlushingFamily, Layout.Front,
      Layout.WfFamily;
    var wb := Landed(BlobRows(c, db, state, batch, f), Rank(f), e, x.stop, x.blobs);
    var wl := Landed(LocRows(c, db, state, batch, f), 4, e, x.stop, x.locs.At(f));
    LandedSub(BlobRows(c, db, state, batch, f), Rank(f), e, x.stop, x.blobs);
    LandedSub(LocRows(c, db, state, batch, f), 4, e, x.stop, x.locs.At(f));
    PayloadIs(c, l, db, state, batch, n, f);
    Fronts(l, f, n, n + |batch|, m, a);
    PayloadStep(c, db, state, batch, f, l.rows.At(f), l.Front(f, n), l.Front(f, n + |batch|), l.Front(f, m),
      l.Front(f, a), wb, wl);
  }

  lemma FlushBitmap(c: Codec, l: Layout, db: Durable, db': Durable, state: StateIndex, batch: seq<Assigned>, x: Faults,
                    n: nat, m: nat, a: nat, f: Family, e: nat)
    requires n <= m <= n + |batch| && FlushingFamily(c, l, state, batch, n, f) && BitmapPart(l, db, f, m, a)
    requires Leaves(c, db, db', state, batch, x, f, e)
    ensures BitmapPart(l, db', f, m, Max(a, n + |batch|))
    ensures 10 < e && 10 <= x.stop ==> BitmapPart(l, db', f, n + |batch|, Max(a, n + |batch|))
  {
    hide Bitmap.BitmapInv, PageRows, StatRows, TagsOfBatch, Landed, FlushingFamily, Layout.Front, Layout.WfFamily;
    var w := Landed(PageRows(c, db, batch, f), 5, e, x.stop, x.pages.At(f));
    var ws := Landed(StatRows(c, db, batch, f), 6, e, x.stop, x.stats.At(f));
    LandedSub(PageRows(c, db, batch, f), 5, e, x.stop, x.pages.At(f));
    LandedSub(StatRows(c, db, batch, f), 6, e, x.stop, x.stats.At(f));
    TagsAre(c, l, state, batch, n, f);
    Fronts(l, f, n, n + |batch|, m, a);
    BitmapStep(c, db, batch, f, l.tags.At(f), l.Front(f, n), l.Front(f, n + |batch|), l.Front(f, m), l.Front(f, a), w,
      ws);
  }

  lemma FlushMetadata(c: Codec, l: Layout, db: Durable, db': Durable, state: StateIndex, batch: seq<Assigned>,
                      x: Faults, n: nat, m: nat, a: nat, f: Family, e: nat)
    requires BatchFits(c, l, batch, n) && n <= m <= n + |batch| && MetadataPart(l, db, f, m, a)
    requires Leaves(c, db, db', state, batch, x, f, e)
    ensures MetadataPart(l, db', f, m, Max(a, n + |batch|))
    ensures 10 < e && 10 <= x.stop ==> MetadataPart(l, db', f, n + |batch|, Max(a, n + |batch|))
  {
    hide RangesInv, IndexInv, RangeRows, IndexRows, Landed, BatchFits, BatchRanges;
    var wr := Landed(RangeRows(batch, f, |batch|), 8, e, x.stop, x.ranges.At(f));
    var wx := Landed(IndexRows(batch, f, |batch|), 9, e, x.stop, x.index.At(f));
    LandedSub(RangeRows(batch, f, |batch|), 8, e, x.stop, x.ranges.At(f));
    LandedSub(IndexRows(batch, f, |batch|), 9, e, x.stop, x.index.At(f));
    BatchMetadata(c, l, batch, n, f);
    RangeStep(l.start, l.Ranges(f), db.ranges.At(f), batch, f, n, m, a, wr);
    IndexStep(l.start, l.Ranges(f), db.index.At(f), batch, f, n, m, a, wx);
  }

  /** How many blocks the durable state row admits after a flush. */
  function PersistedAfter(e: nat, x: Faults, n': nat, m: nat): nat {
    if 10 < e && (10 < x.stop || (10 == x.stop && x.state)) then n' else m
  }

  lemma FlushFamily(c: Codec, l: Layout, db: Durable, db': Durable, state: StateIndex, batch: seq<Assigned>, x: Faults,
                    n: nat, m: nat, a: nat, f: Family, e: nat)
    requires BatchFits(c, l, batch, n) && n <= m <= n + |batch|
    requires FlushingFamily(c, l, state, batch, n, f) && FamilyInv(l, db, f, m, a)
    requires Leaves(c, db, db', state, batch, x, f, e)
    ensures PayloadOk(c, db, state, batch, f)
    ensures FamilyInv(l, db', f, PersistedAfter(e, x, n + |batch|, m), Max(a, n + |batch|))
  {
    hide PayloadPart, BitmapPart, MetadataPart, FlushingFamily, Leaves, BatchFits, PayloadOk;
    FlushPayload(c, l, db, db', state, batch, x, n, m, a, f, e);
    FlushBitmap(c, l, db, db', state, batch, x, n, m, a, f, e);
    FlushMetadata(c, l, db, db', state, batch, x, n, m, a, f, e);
  }

  lemma FlushHashes(c: Codec, l: Layout, hashes: map<nat, Hash>, batch: seq<Assigned>, x: Faults, n: nat, m: nat,
                    a: nat, e: nat)
    requires BatchFits(c, l, batch, n) && n <= m <= n + |batch| && HashesInv(l.start, l.hashes, hashes, m, a)
    ensures HashesInv(l.start, l.hashes, hashes + Landed(HashRows(c, batch, |batch|), 7, e, x.stop, x.hashes),
                      PersistedAfter(e, x, n + |batch|, m), Max(a, n + |batch|))
  {
    hide HashesInv, HashRows, Landed, BatchFits, BatchHashes;
    BatchMetadata(c, l, batch, n, BlockHeader);
    LandedSub(HashRows(c, batch, |batch|), 7, e, x.stop, x.hashes);
    HashStep(c, l.start, l.hashes, hashes, batch, n, m, a, Landed(HashRows(c, batch, |batch|), 7, e, x.stop, x.hashes));
  }

  lemma FlushFamilies(c: Codec, l: Layout, db: Durable, db': Durable, state: StateIndex, batch: seq<Assigned>,
                      x: Faults, n: nat, m: nat, a: nat, e: nat)
    requires Flushing(c, l, state, batch, n, m, a)
    requires Families(l, db, m, a)
    requires forall f :: Leaves(c, db, db', state, batch, x, f, e)
    ensures forall f :: PayloadOk(c, db, state, batch, f)
    ensures Families(l, db', PersistedAfter(e, x, n + |batch|, m), Max(a, n + |batch|))
  {
    hide FamilyInv, FlushingFamily, Leaves, BatchFits, PayloadOk;
    var m', a' := PersistedAfter(e, x, n + |batch|, m), Max(a, n + |batch|);
    forall f
      ensures PayloadOk(c, db, state, batch, f)
      ensures FamilyInv(l, db', f, m', a')
    {
      assert FlushingFamily(c, l, state, batch, n, f) && FamilyInv(l, db, f, m, a)
        && Leaves(c, db, db', state, batch, x, f, e);
      FlushFamily(c, l, db, db', state, batch, x, n, m, a, f, e);
    }
  }

  lemma FlushLeavesOthers(c: Codec, db: Durable, state: StateIndex, batch: seq<Assigned>, state': StateIndex, x: Faults)
    ensures var db', e := FlushDb(c, db, state, batch, state', x), ErrorStep(c, db, state, batch);
      db'.hashes == FlushedHashes(c, db, batch, x, e) && db'.state == FlushedState(db, state', x, e)
  {
    hide FlushedHashes, FlushedState, Landed, BlobRows, LocRows, PageRows, StatRows, ErrorStep;
  }

  lemma KeepsDb(c: Codec, l: Layout, db: Durable, db': Durable, state: StateIndex, batch: seq<Assigned>, x: Faults,
                n: nat, m: nat, a: nat, e: nat)
    requires Flushing(c, l, state, batch, n, m, a) && DbInv(l, db, m, a)
    requires forall f :: Leaves(c, db, db', state, batch, x, f, e)
    requires db'.hashes == FlushedHashes(c, db, batch, x, e)
    requires StateRow(l, db'.state, PersistedAfter(e, x, n + |batch|, m))
    ensures forall f :: PayloadOk(c, db, state, batch, f)
    ensures DbInv(l, db', PersistedAfter(e, x, n + |batch|, m), Max(a, n + |batch|))
  {
    hide Families, BatchFits, FlushingFamily, HashesInv, StateRow, Leaves, HashRows, Landed, PayloadOk;
    FlushFamilies(c, l, db, db', state, batch, x, n, m, a, e);
    FlushHashes(c, l, db.hashes, batch, x, n, m, a, e);
  }

  /** Wherever the store fails and whatever of the failing step lands, the tables stay consistent. */
  lemma FlushKeepsDb(c: Codec, l: Layout, db: Durable, state: StateIndex, batch: seq<Assigned>, state': StateIndex,
                     x: Faults, n: nat, m: nat, a: nat)
    requires Flushing(c, l, state, batch, n, m, a) && DbInv(l, db, m, a)
    requires StateRow(l, Some(state'), n + |batch|)
    ensures forall f :: PayloadOk(c, db, state, batch, f)
    ensures DbInv(l, FlushDb(c, db, state, batch, state', x),
                  PersistedAfter(ErrorStep(c, db, state, batch), x, n + |batch|, m), Max(a, n + |batch|))
  {
    hide Families, HashesInv, Flushing, Leaves, FlushDb, ErrorStep, HashRows, Landed, PayloadOk, Layout.Front,
      Layout.WfFamily;
    var e := ErrorStep(c, db, state, batch);
    forall f ensures Leaves(c, db, FlushDb(c, db, state, batch, state', x), state, batch, x, f, e) {
      FlushLeaves(c, db, state, batch, state', x, f);
    }
    FlushLeavesOthers(c, db, state, batch, state', x);
    KeepsDb(c, l, db, FlushDb(c, db, state, batch, state', x), state, batch, x, n, m, a, e);
  }
}
