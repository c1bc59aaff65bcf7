/** The four stages of a flush as they run, against a store that may fail (lib.rs, payload.rs, bitmap_index.rs). */
module FlushStages {
  import opened Seqs
  import opened Schema
  import opened Chain
  import opened Metadata
  import opened IndexState
  import opened Consistency
  import AncestorStatus
  import Payload
  import Bitmap

  // ---- ids inside a batch ----

  /** The ranges prepare_flush assigned are consecutive and match the rows of the blocks. */
  ghost predicate Consecutive(batch: seq<Assigned>) {
    forall i, f :: 0 <= i < |batch| ==> InSequence(batch, i, f)
  }

  ghost predicate InSequence(batch: seq<Assigned>, i: nat, f: Family)
    requires i < |batch|
  {
    && batch[i].Of(f).first == First(batch, f) + Offset(RowGroups(Blocks(batch), f), i)
    && batch[i].Of(f).count == |BlockRows(batch[i].block, f)|
  }

  // ---- payload stage ----

  /** The rows of one family in the batch, with the id the source gives each of them. */
  method CollectRows(c: Codec, batch: seq<Assigned>, f: Family) returns (rows: Payload.Rows)
    requires Consecutive(batch)
    ensures rows == RowStream(c, Blocks(batch), f, First(batch, f))
  {
    var encs: seq<Bytes> := [];
    ghost var groups := RowGroups(Blocks(batch), f);
    for i := 0 to |batch|
      invariant encs == Encode(c, Flat(groups, 0, i))
    {
      var more := EncodeRows(c, batch[i].block, f);
      assert InSequence(batch, i, f);
      assert batch[i].Of(f).first == First(batch, f) + |encs|;
      EncodeAppend(c, Flat(groups, 0, i), BlockRows(batch[i].block, f));
      encs := encs + more;
    }
    return Payload.Rows(First(batch, f), encs);
  }

  lemma EncodeAppend(c: Codec, a: seq<Item>, b: seq<Item>)
    ensures Encode(c, a + b) == Encode(c, a) + Encode(c, b)
  {
  }

  /** The flat_map over the transactions of one block. */
  method EncodeRows(c: Codec, b: Block, f: Family) returns (encs: seq<Bytes>)
    ensures encs == Encode(c, BlockRows(b, f))
  {
    if f.BlockHeader? {
      return [c.encode(HeaderItem(b.header))];
    }
    encs := [];
    for t := 0 to |b.txs|
      invariant encs == Encode(c, Flat(TxRowGroups(b, f), 0, t))
    {
      EncodeAppend(c, Flat(TxRowGroups(b, f), 0, t), TxRows(b.txs[t], f));
      encs := encs + Encode(c, TxRows(b.txs[t], f));
    }
  }

  /** put_batch: fails at step `stop`, when any subset of the rows may have landed. */
  method PutBatch<K, V>(table: map<K, V>, rows: map<K, V>, step: nat, stop: nat, kept: set<K>)
    returns (table': map<K, V>, ok: bool)
    requires step <= stop
    ensures forall e: nat :: step < e ==> table' == table + Landed(rows, step, e, stop, kept)
    ensures ok <==> step < stop
  {
    if step < stop {
      return table + rows, true;
    }
    return table + map k | k in rows && k in kept :: rows[k], false;
  }

  /** put_batch on a table keyed by family. */
  method PutFamilies<K, V>(tables0: PerFamily<map<K, V>>, rows: PerFamily<map<K, V>>, step: nat, stop: nat,
                           kept: PerFamily<set<K>>)
    returns (tables: PerFamily<map<K, V>>, ok: bool)
    requires step <= stop
    ensures forall f, e: nat :: step < e ==>
      tables.At(f) == tables0.At(f) + Landed(rows.At(f), step, e, stop, kept.At(f))
    ensures ok <==> step < stop
  {
    hide Landed;
    tables := tables0;
    for k := 0 to 4
      invariant forall f :: Rank(f) >= k ==> tables.At(f) == tables0.At(f)
      invariant forall f, e: nat :: Rank(f) < k && step < e ==>
        tables.At(f) == tables0.At(f) + Landed(rows.At(f), step, e, stop, kept.At(f))
    {
      var f := Nth(k);
      var put, done := PutBatch(tables.At(f), rows.At(f), step, stop, kept.At(f));
      tables := tables.With(f, put);
    }
    ok := step < stop;
  }

  lemma NothingLanded<K, V>(table: map<K, V>, rows: map<K, V>, step: nat, e: nat, stop: nat, kept: set<K>)
    requires step >= e || step > stop
    ensures table + Landed(rows, step, e, stop, kept) == table
  {
  }

  /** The blobs a flush leaves for family f. */
  function BlobsAfter(c: Codec, db: Durable, state: StateIndex, batch: seq<Assigned>, x: Faults,
                      f: Family): map<nat, Bytes> {
    db.blobs.At(f) + Landed(BlobRows(c, db, state, batch, f), Rank(f), ErrorStep(c, db, state, batch), x.stop, x.blobs)
  }

  /** The blobs of each family in turn; the locations are collected for later. */
  method PutBlobs(c: Codec, db: Durable, state: StateIndex, batch: seq<Assigned>, x: Faults)
    returns (blobs: PerFamily<map<nat, Bytes>>, locs: PerFamily<map<nat, nat>>, ok: bool)
    requires Consecutive(batch)
    ensures forall f :: blobs.At(f) == BlobsAfter(c, db, state, batch, x, f)
    ensures ok <==> ErrorStep(c, db, state, batch) >= 5 && x.stop > 3
    ensures ok ==> forall f :: locs.At(f) == LocRows(c, db, state, batch, f)
  {
    hide BlobRows, LocRows, PayloadOk, Landed, Consecutive, BlobsAfter, ErrorStep;
    ghost var e := ErrorStep(c, db, state, batch);
    blobs, locs, ok := db.blobs, NoRows(map[]), true;
    for k := 0 to 4
      invariant k <= e && k <= x.stop && (k == 4 ==> e >= 5)
      invariant forall f :: Rank(f) < k ==> PayloadOk(c, db, state, batch, f)
      invariant forall f :: blobs.At(f) == if Rank(f) < k then BlobsAfter(c, db, state, batch, x, f) else db.blobs.At(f)
      invariant forall f :: Rank(f) < k ==> locs.At(f) == LocRows(c, db, state, batch, f)
    {
      var f := Nth(k);
      var r := PayloadRowsOf(c, db, state, batch, f);
      if r.None? {
        ErrorAt(c, db, state, batch, k);
        RestUntouched(c, db, state, batch, x, k);
        return blobs, locs, false;
      }
      NoErrorAt(c, db, state, batch, k);
      var put, done := PutBatch(db.blobs.At(f), r.value.0, k, x.stop, x.blobs);
      BlobsAre(c, db, state, batch, x, f, put);
      blobs := blobs.With(f, put);
      locs := locs.With(f, r.value.1);
      if !done {
        RestUntouched(c, db, state, batch, x, k + 1);
        return blobs, locs, false;
      }
    }
  }

  lemma BlobsAre(c: Codec, db: Durable, state: StateIndex, batch: seq<Assigned>, x: Faults, f: Family,
                 put: map<nat, Bytes>)
    requires forall e: nat :: Rank(f) < e ==>
      put == db.blobs.At(f) + Landed(BlobRows(c, db, state, batch, f), Rank(f), e, x.stop, x.blobs)
    requires Rank(f) < ErrorStep(c, db, state, batch)
    ensures put == BlobsAfter(c, db, state, batch, x, f)
  {
    hide BlobRows, Landed, ErrorStep;
  }

  lemma RestUntouched(c: Codec, db: Durable, state: StateIndex, batch: seq<Assigned>, x: Faults, k: nat)
    requires k >= ErrorStep(c, db, state, batch) || k > x.stop
    ensures forall f :: Rank(f) >= k ==> BlobsAfter(c, db, state, batch, x, f) == db.blobs.At(f)
  {
    hide BlobRows, Landed, ErrorStep;
    forall f | Rank(f) >= k ensures BlobsAfter(c, db, state, batch, x, f) == db.blobs.At(f) {
      NothingLanded(db.blobs.At(f), BlobRows(c, db, state, batch, f), Rank(f), ErrorStep(c, db, state, batch), x.stop,
        x.blobs);
    }
  }

  function LocsAfter(c: Codec, db: Durable, state: StateIndex, batch: seq<Assigned>, x: Faults,
                     f: Family): map<nat, nat> {
    db.locs.At(f) + Landed(LocRows(c, db, state, batch, f), 4, ErrorStep(c, db, state, batch), x.stop, x.locs.At(f))
  }

  /** The payload stage: the blobs of each family in turn, then all the locations. */
  method PayloadStage(c: Codec, db: Durable, state: StateIndex, batch: seq<Assigned>, x: Faults)
    returns (blobs: PerFamily<map<nat, Bytes>>, locs: PerFamily<map<nat, nat>>, ok: bool)
    requires Consecutive(batch)
    ensures forall f ::
      blobs.At(f) == BlobsAfter(c, db, state, batch, x, f) && locs.At(f) == LocsAfter(c, db, state, batch, x, f)
    ensures ok <==> ErrorStep(c, db, state, batch) >= 5 && x.stop > 4
  {
    hide BlobRows, LocRows, PayloadOk, Landed, Consecutive, BlobsAfter, ErrorStep;
    var rows;
    blobs, rows, ok := PutBlobs(c, db, state, batch, x);
    locs := db.locs;
    if !ok {
      forall f ensures LocsAfter(c, db, state, batch, x, f) == db.locs.At(f) {
        LocsUntouched(c, db, state, batch, x, f);
      }
      return;
    }
    locs, ok := PutFamilies(db.locs, rows, 4, x.stop, x.locs);
  }

  lemma LocsUntouched(c: Codec, db: Durable, state: StateIndex, batch: seq<Assigned>, x: Faults, f: Family)
    requires ErrorStep(c, db, state, batch) < 5 || x.stop < 4
    ensures LocsAfter(c, db, state, batch, x, f) == db.locs.At(f)
  {
    hide LocRows, Landed, PayloadOk;
    NothingLanded(db.locs.At(f), LocRows(c, db, state, batch, f), 4, ErrorStep(c, db, state, batch), x.stop,
      x.locs.At(f));
  }

  /** A family whose committed state cannot be read back stops the flush there. */
  lemma ErrorAt(c: Codec, db: Durable, state: StateIndex, batch: seq<Assigned>, k: nat)
    requires k < 4 && !PayloadOk(c, db, state, batch, Nth(k))
    requires forall f :: Rank(f) < k ==> PayloadOk(c, db, state, batch, f)
    ensures ErrorStep(c, db, state, batch) == k
  {
    hide PayloadOk;
    assert k > 0 ==> PayloadOk(c, db, state, batch, BlockHeader);
    assert k > 1 ==> PayloadOk(c, db, state, batch, Transaction);
    assert k > 2 ==> PayloadOk(c, db, state, batch, Log);
  }

  lemma NoErrorAt(c: Codec, db: Durable, state: StateIndex, batch: seq<Assigned>, k: nat)
    requires k < 4 && forall f :: Rank(f) <= k ==> PayloadOk(c, db, state, batch, f)
    ensures ErrorStep(c, db, state, batch) > k && (k == 3 ==> ErrorStep(c, db, state, batch) >= 5)
  {
    hide PayloadOk;
    assert PayloadOk(c, db, state, batch, BlockHeader);
    assert k > 0 ==> PayloadOk(c, db, state, batch, Transaction);
    assert k > 1 ==> PayloadOk(c, db, state, batch, Log);
    assert k > 2 ==> PayloadOk(c, db, state, batch, Trace);
  }

  method PayloadRowsOf(c: Codec, db: Durable, state: StateIndex, batch: seq<Assigned>, f: Family)
    returns (r: Option<(map<nat, Bytes>, map<nat, nat>)>)
    requires Consecutive(batch)
    ensures r.Some? <==> PayloadOk(c, db, state, batch, f)
    ensures r.Some? ==> r.value == (BlobRows(c, db, state, batch, f), LocRows(c, db, state, batch, f))
  {
    hide RowStream;
    var rows := CollectRows(c, batch, f);
    r := Payload.FlushFamily(Payload.FamilyFlush(db.blobs.At(f), db.locs.At(f), state.CommittedId(f), rows));
  }

  // ---- bitmap stage: accumulating pages ----

  /** Rows id.. of the stream carry these filters. */
  ghost predicate RowsAt(t: Bitmap.Tags, id: nat, rows: seq<seq<Filter>>) {
    t.base <= id && id + |rows| <= t.End() && forall j :: 0 <= j < |rows| ==> t.filters[id - t.base + j] == rows[j]
  }

  /** The pages hold the bits of each family's rows below ids. */
  ghost predicate Upto(pages: PerFamily<Bitmap.Pages>, tags: PerFamily<Bitmap.Tags>, ids: PerFamily<nat>) {
    forall f :: Bitmap.Represents(pages.At(f), tags.At(f), tags.At(f).base, ids.At(f))
  }

  /** The loop over the logs, or the traces, of one transaction. */
  method AddRows(pending0: Bitmap.Pages, rows: seq<seq<Filter>>, id0: nat, ghost t: Bitmap.Tags)
    returns (pending: Bitmap.Pages, id: nat)
    requires RowsAt(t, id0, rows) && Bitmap.Represents(pending0, t, t.base, id0)
    ensures id == id0 + |rows| && Bitmap.Represents(pending, t, t.base, id)
  {
    hide Bitmap.RowAdded, Bitmap.Represents;
    pending, id := pending0, id0;
    for j := 0 to |rows|
      invariant id == id0 + j && Bitmap.Represents(pending, t, t.base, id)
    {
      assert t.filters[id0 - t.base + j] == rows[j];
      var more := Bitmap.AddRow(pending, rows[j], id);
      Bitmap.RowRepresented(pending, more, t, t.base, id);
      pending := more;
      id := id + 1;
    }
  }

  /** One transaction; None when its envelope does not decode. */
  method AddTx(c: Codec, tx: Tx, txId: nat, logId0: nat, traceId0: nat, pages0: PerFamily<Bitmap.Pages>,
               ghost tags: PerFamily<Bitmap.Tags>, ghost h: nat)
    returns (r: Option<PerFamily<Bitmap.Pages>>, logId: nat, traceId: nat)
    requires RowsAt(tags.tx, txId, TxTags(c, tx, Transaction)) && RowsAt(tags.log, logId0, TxTags(c, tx, Log))
    requires RowsAt(tags.trace, traceId0, TxTags(c, tx, Trace))
    requires Upto(pages0, tags, PerFamily(h, txId, logId0, traceId0))
    ensures r.Some? <==> TxFilters(c, tx.envelope).Some?
    ensures r.Some? ==> Upto(r.value, tags, PerFamily(h, txId + 1, logId, traceId))
    ensures r.Some? ==> logId == logId0 + |tx.logs| && traceId == traceId0 + |tx.traces|
  {
    hide Bitmap.RowAdded, Bitmap.Represents, TxFilters, LogFilters, TraceFilters, AncestorStatus.FlagAt;
    logId, traceId := logId0, traceId0;
    var filters := TxFilters(c, tx.envelope);
    if filters.None? {
      return None, logId, traceId;
    }
    UptoParts(pages0, tags, PerFamily(h, txId, logId0, traceId0));
    assert tags.tx.filters[txId - tags.tx.base + 0] == TxTags(c, tx, Transaction)[0];
    var txPages := Bitmap.AddRow(pages0.tx, filters.value, txId);
    Bitmap.RowRepresented(pages0.tx, txPages, tags.tx, tags.tx.base, txId);
    var logRows := seq(|tx.logs|, i requires 0 <= i < |tx.logs| => LogFilters(tx.logs[i]));
    assert logRows == TxTags(c, tx, Log);
    var logPages, traceRows, tracePages;
    logPages, logId := AddRows(pages0.log, logRows, logId0, tags.log);
    traceRows := TraceRows(c, tx);
    tracePages, traceId := AddRows(pages0.trace, traceRows, traceId0, tags.trace);
    r := Some(PerFamily(pages0.header, txPages, logPages, tracePages));
    UptoWhole(r.value, tags, PerFamily(h, txId + 1, logId, traceId));
  }

  method TraceRows(c: Codec, tx: Tx) returns (rows: seq<seq<Filter>>)
    ensures rows == TxTags(c, tx, Trace)
  {
    hide TraceFilters;
    var flags := AncestorStatus.FromTraces(tx.traces);
    rows := seq(|tx.traces|, i requires 0 <= i < |tx.traces| => TraceFilters(tx.traces[i], flags[i]));
  }

  lemma UptoParts(pages: PerFamily<Bitmap.Pages>, tags: PerFamily<Bitmap.Tags>, ids: PerFamily<nat>)
    requires Upto(pages, tags, ids)
    ensures Bitmap.Represents(pages.header, tags.header, tags.header.base, ids.header)
    ensures Bitmap.Represents(pages.tx, tags.tx, tags.tx.base, ids.tx)
    ensures Bitmap.Represents(pages.log, tags.log, tags.log.base, ids.log)
    ensures Bitmap.Represents(pages.trace, tags.trace, tags.trace.base, ids.trace)
  {
    hide Bitmap.RowAdded, Bitmap.Represents;
    assert tags.At(BlockHeader) == tags.header && tags.At(Transaction) == tags.tx && tags.At(Log) == tags.log
      && tags.At(Trace) == tags.trace;
  }

  lemma UptoWhole(pages: PerFamily<Bitmap.Pages>, tags: PerFamily<Bitmap.Tags>, ids: PerFamily<nat>)
    requires Bitmap.Represents(pages.header, tags.header, tags.header.base, ids.header)
    requires Bitmap.Represents(pages.tx, tags.tx, tags.tx.base, ids.tx)
    requires Bitmap.Represents(pages.log, tags.log, tags.log.base, ids.log)
    requires Bitmap.Represents(pages.trace, tags.trace, tags.trace.base, ids.trace)
    ensures Upto(pages, tags, ids)
  {
    hide Bitmap.RowAdded, Bitmap.Represents;
  }

  /** Rows of a flattening stand after those of the groups before theirs. */
  lemma GroupAt(t: Bitmap.Tags, id: nat, groups: seq<seq<seq<Filter>>>, k: nat)
    requires RowsAt(t, id, Flatten(groups)) && k < |groups|
    ensures RowsAt(t, id + Offset(groups, k), groups[k])
  {
    FlatSplit(groups, 0, k + 1, |groups|);
    forall j | 0 <= j < |groups[k]|
      ensures t.filters[id + Offset(groups, k) - t.base + j] == groups[k][j]
    {
      FlatAt(groups, k, j);
      assert t.filters[id - t.base + (Offset(groups, k) + j)] == Flatten(groups)[Offset(groups, k) + j];
    }
  }

  lemma WholeBatch(c: Codec, batch: seq<Assigned>, f: Family)
    ensures RowsAt(TagsOfBatch(c, batch, f), First(batch, f), Flatten(TagGroups(c, Blocks(batch), f)))
  {
    hide TagGroups, Flatten;
  }

  lemma FromConsecutive(batch: seq<Assigned>, i: nat, f: Family)
    requires Consecutive(batch) && i < |batch|
    ensures InSequence(batch, i, f)
  {
    hide InSequence;
  }

  /** The rows of block i of the batch stand where its ranges say. */
  lemma BlockAt(c: Codec, batch: seq<Assigned>, i: nat, f: Family)
    requires Consecutive(batch) && i < |batch|
    ensures RowsAt(TagsOfBatch(c, batch, f), batch[i].Of(f).first, BlockTags(c, batch[i].block, f))
  {
    hide BlockTags, BlockRows, Flatten, RowsAt, TagsOfBatch, Consecutive, Offset;
    assert InSequence(batch, i, f) by { FromConsecutive(batch, i, f); }
    StreamsAlign(c, Blocks(batch), f, i);
    WholeBatch(c, batch, f);
    GroupAt(TagsOfBatch(c, batch, f), First(batch, f), TagGroups(c, Blocks(batch), f), i);
  }

  /** The rows of transaction k of a block stand after those of the transactions before it. */
  lemma TxAt(c: Codec, t: Bitmap.Tags, b: Block, id: nat, f: Family, k: nat)
    requires RowsAt(t, id, BlockTags(c, b, f)) && k < |b.txs| && f != BlockHeader
    ensures RowsAt(t, id + Offset(TxTagGroups(c, b, f), k), TxTags(c, b.txs[k], f))
    ensures Offset(TxTagGroups(c, b, f), k + 1) == Offset(TxTagGroups(c, b, f), k) + |TxRows(b.txs[k], f)|
  {
    hide TxTags, TxRows, RowsAt, Flatten;
    GroupAt(t, id, TxTagGroups(c, b, f), k);
  }

  function TxEnd(c: Codec, entry: Assigned, f: Family, k: nat): nat
    requires k <= |entry.block.txs|
  {
    entry.Of(f).first + Offset(TxTagGroups(c, entry.block, f), k)
  }

  ghost predicate EntryAt(c: Codec, entry: Assigned, tags: PerFamily<Bitmap.Tags>) {
    forall f :: RowsAt(tags.At(f), entry.Of(f).first, BlockTags(c, entry.block, f))
  }

  lemma TxPlace(c: Codec, entry: Assigned, tags: PerFamily<Bitmap.Tags>, f: Family, k: nat)
    requires EntryAt(c, entry, tags) && k < |entry.block.txs| && f != BlockHeader
    ensures RowsAt(tags.At(f), TxEnd(c, entry, f, k), TxTags(c, entry.block.txs[k], f))
    ensures TxEnd(c, entry, f, k + 1) == TxEnd(c, entry, f, k) + |TxRows(entry.block.txs[k], f)|
  {
    hide BlockTags, TxTags, TxRows, RowsAt;
    assert RowsAt(tags.At(f), entry.Of(f).first, BlockTags(c, entry.block, f));
    TxAt(c, tags.At(f), entry.block, entry.Of(f).first, f, k);
  }

  lemma TxPlaces(c: Codec, entry: Assigned, tags: PerFamily<Bitmap.Tags>, k: nat)
    requires EntryAt(c, entry, tags) && k < |entry.block.txs|
    ensures var tx := entry.block.txs[k];
      && RowsAt(tags.tx, TxEnd(c, entry, Transaction, k), TxTags(c, tx, Transaction))
      && RowsAt(tags.log, TxEnd(c, entry, Log, k), TxTags(c, tx, Log))
      && RowsAt(tags.trace, TxEnd(c, entry, Trace, k), TxTags(c, tx, Trace))
      && TxEnd(c, entry, Transaction, k + 1) == TxEnd(c, entry, Transaction, k) + 1
      && TxEnd(c, entry, Log, k + 1) == TxEnd(c, entry, Log, k) + |tx.logs|
      && TxEnd(c, entry, Trace, k + 1) == TxEnd(c, entry, Trace, k) + |tx.traces|
  {
    hide TxTags, TxEnd, RowsAt, EntryAt;
    TxPlace(c, entry, tags, Transaction, k);
    TxPlace(c, entry, tags, Log, k);
    TxPlace(c, entry, tags, Trace, k);
  }

  /** One block: its header, then its transactions. */
  method AddBlockPages(c: Codec, entry: Assigned, pages0: PerFamily<Bitmap.Pages>, ghost tags: PerFamily<Bitmap.Tags>)
    returns (r: Option<PerFamily<Bitmap.Pages>>)
    requires EntryAt(c, entry, tags)
    requires Upto(pages0, tags, PerFamily(entry.block.Number(), entry.txs.first, entry.logs.first, entry.traces.first))
    ensures r.Some? <==> Indexable(c, entry.block)
    ensures r.Some? ==> forall f ::
      Bitmap.Represents(r.value.At(f), tags.At(f), tags.At(f).base, entry.Of(f).first + |BlockTags(c, entry.block, f)|)
  {
    hide Bitmap.RowAdded, Bitmap.Represents, TxFilters, TxTags, Upto, TxEnd, RowsAt, BlockTags, EntryAt, TxRows;
    var b := entry.block;
    var n := b.Number();
    var pages := AddHeader(c, entry, pages0, tags);
    var logId, traceId := entry.logs.first, entry.traces.first;
    TxStart(c, entry);
    for k := 0 to |b.txs|
      invariant forall i :: 0 <= i < k ==> TxFilters(c, b.txs[i].envelope).Some?
      invariant logId == TxEnd(c, entry, Log, k) && traceId == TxEnd(c, entry, Trace, k)
      invariant entry.txs.first + k == TxEnd(c, entry, Transaction, k)
      invariant Upto(pages, tags, PerFamily(n + 1, entry.txs.first + k, logId, traceId))
    {
      TxPlaces(c, entry, tags, k);
      var next;
      next, logId, traceId := AddTx(c, b.txs[k], entry.txs.first + k, logId, traceId, pages, tags, n + 1);
      if next.None? {
        return None;
      }
      pages := next.value;
    }
    BlockEnds(c, entry, pages, tags);
    return Some(pages);
  }

  lemma TxStart(c: Codec, entry: Assigned)
    ensures TxEnd(c, entry, Transaction, 0) == entry.txs.first && TxEnd(c, entry, Log, 0) == entry.logs.first
    ensures TxEnd(c, entry, Trace, 0) == entry.traces.first
  {
  }

  lemma BlockEnds(c: Codec, entry: Assigned, pages: PerFamily<Bitmap.Pages>, tags: PerFamily<Bitmap.Tags>)
    requires var k := |entry.block.txs|;
      Upto(pages, tags, PerFamily(
        entry.block.Number() + 1, TxEnd(c, entry, Transaction, k), TxEnd(c, entry, Log, k), TxEnd(c, entry, Trace, k)))
    ensures forall f ::
      Bitmap.Represents(pages.At(f), tags.At(f), tags.At(f).base, entry.Of(f).first + |BlockTags(c, entry.block, f)|)
  {
    hide Bitmap.RowAdded, Bitmap.Represents, TxTags, TxTagGroups, BlockRows, HeaderFilters;
    var k := |entry.block.txs|;
    var ends := PerFamily(
      entry.block.Number() + 1, TxEnd(c, entry, Transaction, k), TxEnd(c, entry, Log, k), TxEnd(c, entry, Trace, k));
    forall f ensures ends.At(f) == entry.Of(f).first + |BlockTags(c, entry.block, f)| {
    }
  }

  method AddHeader(c: Codec, entry: Assigned, pages0: PerFamily<Bitmap.Pages>, ghost tags: PerFamily<Bitmap.Tags>)
    returns (pages: PerFamily<Bitmap.Pages>)
    requires EntryAt(c, entry, tags)
    requires Upto(pages0, tags, PerFamily(entry.block.Number(), entry.txs.first, entry.logs.first, entry.traces.first))
    ensures Upto(pages, tags, PerFamily(entry.block.Number() + 1, entry.txs.first, entry.logs.first,
      entry.traces.first))
  {
    hide Bitmap.RowAdded, Bitmap.Represents, HeaderFilters, TxTags;
    var n := entry.block.Number();
    assert RowsAt(tags.At(BlockHeader), entry.Of(BlockHeader).first, BlockTags(c, entry.block, BlockHeader));
    UptoParts(pages0, tags, PerFamily(n, entry.txs.first, entry.logs.first, entry.traces.first));
    assert tags.header.filters[n - tags.header.base + 0] == BlockTags(c, entry.block, BlockHeader)[0];
    var row := Bitmap.AddRow(pages0.header, HeaderFilters(entry.block.header), n);
    Bitmap.RowRepresented(pages0.header, row, tags.header, tags.header.base, n);
    pages := pages0.(header := row);
    UptoWhole(pages, tags, PerFamily(n + 1, entry.txs.first, entry.logs.first, entry.traces.first));
  }

  function BatchTagsOf(c: Codec, batch: seq<Assigned>): PerFamily<Bitmap.Tags> {
    Tabulate(f => TagsOfBatch(c, batch, f))
  }

  /** The id of family f at which block i of the batch starts; at the end, where the batch stops. */
  function Starts(c: Codec, batch: seq<Assigned>, i: nat): PerFamily<nat>
    requires i <= |batch|
  {
    Tabulate(f => First(batch, f) + Offset(TagGroups(c, Blocks(batch), f), i))
  }

  lemma StartsAt(c: Codec, batch: seq<Assigned>, i: nat)
    requires Consecutive(batch) && i < |batch|
    ensures EntryAt(c, batch[i], BatchTagsOf(c, batch))
    ensures Starts(c, batch, i) == PerFamily(batch[i].block.Number(), batch[i].txs.first, batch[i].logs.first,
      batch[i].traces.first)
    ensures forall f :: Starts(c, batch, i + 1).At(f) == batch[i].Of(f).first + |BlockTags(c, batch[i].block, f)|
  {
    hide RowsAt, BlockTags, BlockRows, TagsOfBatch, Offset;
    forall f ensures RowsAt(BatchTagsOf(c, batch).At(f), batch[i].Of(f).first, BlockTags(c, batch[i].block, f)) {
      BlockAt(c, batch, i, f);
    }
    forall f
      ensures Starts(c, batch, i).At(f) == batch[i].Of(f).first
      ensures Starts(c, batch, i + 1).At(f) == batch[i].Of(f).first + |BlockTags(c, batch[i].block, f)|
    {
      assert InSequence(batch, i, f);
      StreamsAlign(c, Blocks(batch), f, i);
      OffsetStep(TagGroups(c, Blocks(batch), f), i);
    }
    SameEverywhere(Starts(c, batch, i), PerFamily(batch[i].block.Number(), batch[i].txs.first, batch[i].logs.first,
      batch[i].traces.first));
  }

  /** All the pages the batch touches, with their new bits; None when some envelope does not decode. */
  method AccumulatePages(c: Codec, batch: seq<Assigned>) returns (r: Option<PerFamily<Bitmap.Pages>>)
    requires Consecutive(batch)
    ensures r.Some? <==> AllIndexable(c, batch)
    ensures r.Some? ==> forall f :: AllBits(c, batch, r.value, f)
  {
    hide Bitmap.RowAdded, Bitmap.Represents, EntryAt, BlockTags, TagsOfBatch, Indexable, Starts, BatchTagsOf,
      Consecutive, TxFilters, Blocks, AllBits;
    ghost var tags := BatchTagsOf(c, batch);
    var pages: PerFamily<Bitmap.Pages> := NoRows(map[]);
    NothingYet(c, batch);
    for i := 0 to |batch|
      invariant forall j :: 0 <= j < i ==> Indexable(c, batch[j].block)
      invariant Upto(pages, tags, Starts(c, batch, i))
    {
      StartsAt(c, batch, i);
      var next := AddBlockPages(c, batch[i], pages, tags);
      if next.None? {
        return None;
      }
      pages := next.value;
    }
    AllRows(c, batch, pages);
    return Some(pages);
  }

  /** The pages hold exactly the bits of the batch. */
  ghost predicate AllBits(c: Codec, batch: seq<Assigned>, pages: PerFamily<Bitmap.Pages>, f: Family) {
    var t := TagsOfBatch(c, batch, f);
    Bitmap.Represents(pages.At(f), t, t.base, t.End())
  }

  lemma NothingYet(c: Codec, batch: seq<Assigned>)
    ensures Upto(NoRows(map[]), BatchTagsOf(c, batch), Starts(c, batch, 0))
  {
    hide TagGroups;
  }

  lemma AllRows(c: Codec, batch: seq<Assigned>, pages: PerFamily<Bitmap.Pages>)
    requires Upto(pages, BatchTagsOf(c, batch), Starts(c, batch, |batch|))
    ensures forall f :: AllBits(c, batch, pages, f)
  {
    hide Bitmap.RowAdded, Bitmap.Represents, TagGroups;
    forall f ensures AllBits(c, batch, pages, f) {
      assert Bitmap.Represents(pages.At(f), BatchTagsOf(c, batch).At(f), First(batch, f),
        Starts(c, batch, |batch|).At(f));
    }
  }

  // ---- bitmap stage: merging and writing ----

  /** The rows of the two bitmap tables. */
  method BitmapRows(c: Codec, db: Durable, batch: seq<Assigned>, pending: PerFamily<Bitmap.Pages>)
    returns (rows: PerFamily<Bitmap.Pages>, stats: PerFamily<Bitmap.Stats>)
    requires forall f :: AllBits(c, batch, pending, f)
    ensures forall f :: rows.At(f) == PageRows(c, db, batch, f) && stats.At(f) == StatRows(c, db, batch, f)
  {
    hide TagStream, Bitmap.Represents, Bitmap.PageRows, Bitmap.StatRows, First;
    rows, stats := NoRows(map[]), NoRows(map[]);
    for k := 0 to 4
      invariant forall f :: Rank(f) < k ==>
        rows.At(f) == PageRows(c, db, batch, f) && stats.At(f) == StatRows(c, db, batch, f)
    {
      var f := Nth(k);
      assert AllBits(c, batch, pending, f);
      TagsStart(c, batch, f);
      var r, s := Bitmap.PageUpdates(db.pages.At(f), pending.At(f), First(batch, f), TagsOfBatch(c, batch, f));
      rows, stats := rows.With(f, r), stats.With(f, s);
    }
  }

  lemma TagsStart(c: Codec, batch: seq<Assigned>, f: Family)
    ensures TagsOfBatch(c, batch, f).base == First(batch, f)
  {
  }

  /** Nothing of the later steps has reached the store. */
  predicate Before(step: nat, e: nat, stop: nat) { step >= e || step > stop }

  predicate BitmapLeaves(c: Codec, db: Durable, batch: seq<Assigned>, x: Faults, e: nat, pages: Bitmap.Pages,
                         stats: Bitmap.Stats, f: Family) {
    && pages == db.pages.At(f) + Landed(PageRows(c, db, batch, f), 5, e, x.stop, x.pages.At(f))
    && stats == db.stats.At(f) + Landed(StatRows(c, db, batch, f), 6, e, x.stop, x.stats.At(f))
  }

  /** bitmap_index::flush */
  method BitmapStage(c: Codec, db: Durable, batch: seq<Assigned>, x: Faults, ghost e: nat)
    returns (pages: PerFamily<Bitmap.Pages>, stats: PerFamily<Bitmap.Stats>, ok: bool)
    requires Consecutive(batch) && x.stop > 4 && e == if AllIndexable(c, batch) then 11 else 5
    ensures forall f :: BitmapLeaves(c, db, batch, x, e, pages.At(f), stats.At(f), f)
    ensures ok <==> e == 11 && x.stop > 6
  {
    hide Landed, PageRows, StatRows, AllIndexable, AllBits, Consecutive;
    pages, stats := db.pages, db.stats;
    var pending := AccumulatePages(c, batch);
    if pending.None? {
      BitmapSkips(c, db, batch, x, 5);
      return pages, stats, false;
    }
    var rows, counts := BitmapRows(c, db, batch, pending.value);
    pages, ok := PutFamilies(db.pages, rows, 5, x.stop, x.pages);
    if !ok {
      BitmapSkips(c, db, batch, x, 11);
      return pages, stats, false;
    }
    stats, ok := PutFamilies(db.stats, counts, 6, x.stop, x.stats);
  }

  lemma BitmapSkips(c: Codec, db: Durable, batch: seq<Assigned>, x: Faults, e: nat)
    ensures Before(5, e, x.stop) ==>
      forall f :: db.pages.At(f) == db.pages.At(f) + Landed(PageRows(c, db, batch, f), 5, e, x.stop, x.pages.At(f))
    ensures Before(6, e, x.stop) ==>
      forall f :: db.stats.At(f) == db.stats.At(f) + Landed(StatRows(c, db, batch, f), 6, e, x.stop, x.stats.At(f))
  {
    hide Landed, PageRows, StatRows;
    if Before(5, e, x.stop) {
      forall f ensures db.pages.At(f) == db.pages.At(f)
        + Landed(PageRows(c, db, batch, f), 5, e, x.stop, x.pages.At(f)) {
        NothingLanded(db.pages.At(f), PageRows(c, db, batch, f), 5, e, x.stop, x.pages.At(f));
      }
    }
    if Before(6, e, x.stop) {
      forall f ensures db.stats.At(f) == db.stats.At(f)
        + Landed(StatRows(c, db, batch, f), 6, e, x.stop, x.stats.At(f)) {
        NothingLanded(db.stats.At(f), StatRows(c, db, batch, f), 6, e, x.stop, x.stats.At(f));
      }
    }
  }

  // ---- metadata stage ----

  predicate MetadataLeaves(db: Durable, batch: seq<Assigned>, x: Faults, e: nat, ranges: map<nat, Range>,
                           index: map<nat, nat>, f: Family) {
    && ranges == db.ranges.At(f) + Landed(RangeRows(batch, f, |batch|), 8, e, x.stop, x.ranges.At(f))
    && index == db.index.At(f) + Landed(IndexRows(batch, f, |batch|), 9, e, x.stop, x.index.At(f))
  }

  /** metadata::flush: the hashes, then the ranges, then the block index. */
  method MetadataStage(c: Codec, db: Durable, batch: seq<Assigned>, x: Faults)
    returns (hashes: map<nat, Hash>, ranges: PerFamily<map<nat, Range>>, index: PerFamily<map<nat, nat>>, ok: bool)
    requires x.stop > 6
    ensures hashes == FlushedHashes(c, db, batch, x, 11)
    ensures forall f :: MetadataLeaves(db, batch, x, 11, ranges.At(f), index.At(f), f)
    ensures ok <==> x.stop > 9
  {
    hide Landed, HashRows, RangeRows, IndexRows;
    var hashRows, rangeRows, indexRows := Metadata.Flush(c, batch);
    ranges, index := db.ranges, db.index;
    hashes, ok := PutBatch(db.hashes, hashRows, 7, x.stop, x.hashes);
    if !ok {
      RangesSkip(db, batch, x, 11);
      IndexSkips(db, batch, x, 11);
      return;
    }
    ranges, ok := PutFamilies(db.ranges, rangeRows, 8, x.stop, x.ranges);
    if !ok {
      IndexSkips(db, batch, x, 11);
      return;
    }
    index, ok := PutFamilies(db.index, indexRows, 9, x.stop, x.index);
  }

  lemma RangesSkip(db: Durable, batch: seq<Assigned>, x: Faults, e: nat)
    requires Before(8, e, x.stop)
    ensures forall f ::
      db.ranges.At(f) == db.ranges.At(f) + Landed(RangeRows(batch, f, |batch|), 8, e, x.stop, x.ranges.At(f))
  {
    hide Landed, RangeRows;
    forall f ensures db.ranges.At(f) == db.ranges.At(f)
      + Landed(RangeRows(batch, f, |batch|), 8, e, x.stop, x.ranges.At(f)) {
      NothingLanded(db.ranges.At(f), RangeRows(batch, f, |batch|), 8, e, x.stop, x.ranges.At(f));
    }
  }

  lemma IndexSkips(db: Durable, batch: seq<Assigned>, x: Faults, e: nat)
    requires Before(9, e, x.stop)
    ensures forall f ::
      db.index.At(f) == db.index.At(f) + Landed(IndexRows(batch, f, |batch|), 9, e, x.stop, x.index.At(f))
  {
    hide Landed, IndexRows;
    forall f ensures db.index.At(f) == db.index.At(f)
      + Landed(IndexRows(batch, f, |batch|), 9, e, x.stop, x.index.At(f)) {
      NothingLanded(db.index.At(f), IndexRows(batch, f, |batch|), 9, e, x.stop, x.index.At(f));
    }
  }

  lemma MetadataSkips(c: Codec, db: Durable, batch: seq<Assigned>, x: Faults, e: nat)
    requires Before(7, e, x.stop)
    ensures db.hashes == FlushedHashes(c, db, batch, x, e)
    ensures forall f :: MetadataLeaves(db, batch, x, e, db.ranges.At(f), db.index.At(f), f)
  {
    hide Landed, RangeRows, IndexRows, HashRows;
    NothingLanded(db.hashes, HashRows(c, batch, |batch|), 7, e, x.stop, x.hashes);
    RangesSkip(db, batch, x, e);
    IndexSkips(db, batch, x, e);
  }

  // ---- the whole flush ----

  /** flush_batch: the stages in order, each only if the one before succeeded; the state row commits. */
  method FlushBatch(c: Codec, db0: Durable, state: StateIndex, batch: seq<Assigned>, state': StateIndex, x: Faults)
    returns (db: Durable, ok: bool)
    requires Consecutive(batch)
    ensures db == FlushDb(c, db0, state, batch, state', x)
    ensures ok <==> FlushOk(c, db0, state, batch, x)
  {
    hide Landed, PageRows, StatRows, AllIndexable, Consecutive, FlushDb, BlobsAfter, LocsAfter, BitmapLeaves,
      MetadataLeaves, FlushedHashes, ErrorStep;
    ghost var e := ErrorStep(c, db0, state, batch);
    var blobs, locs, done := PayloadStage(c, db0, state, batch, x);
    db, ok := db0.(blobs := blobs, locs := locs), false;
    ErrorSteps(c, db0, state, batch);
    if !done {
      BitmapRests(c, db0, batch, x, e);
      MetadataSkips(c, db0, batch, x, e);
      FlushIs(c, db0, state, batch, state', x, db);
      return;
    }
    var pages, stats;
    pages, stats, done := BitmapStage(c, db0, batch, x, e);
    db := db.(pages := pages, stats := stats);
    if !done {
      MetadataSkips(c, db0, batch, x, e);
      FlushIs(c, db0, state, batch, state', x, db);
      return;
    }
    var hashes, ranges, index;
    hashes, ranges, index, done := MetadataStage(c, db0, batch, x);
    db := db.(hashes := hashes, ranges := ranges, index := index);
    if done {
      db := db.(state := PutState(db.state, state', x));
      ok := x.stop > 10;
    }
    FlushIs(c, db0, state, batch, state', x, db);
  }

  /** The put of the state row, which may land although it reports an error. */
  function PutState(row: Option<StateIndex>, state': StateIndex, x: Faults): Option<StateIndex> {
    if x.stop > 10 || x.state then Some(state'.Stored()) else row
  }

  lemma ErrorSteps(c: Codec, db: Durable, state: StateIndex, batch: seq<Assigned>)
    ensures var e := ErrorStep(c, db, state, batch); e < 4 || e == if AllIndexable(c, batch) then 11 else 5
  {
    hide PayloadOk, AllIndexable;
  }

  lemma BitmapRests(c: Codec, db: Durable, batch: seq<Assigned>, x: Faults, e: nat)
    requires Before(5, e, x.stop)
    ensures forall f :: BitmapLeaves(c, db, batch, x, e, db.pages.At(f), db.stats.At(f), f)
  {
    hide Landed, PageRows, StatRows;
    BitmapSkips(c, db, batch, x, e);
  }

  lemma FlushIs(c: Codec, db0: Durable, state: StateIndex, batch: seq<Assigned>, state': StateIndex, x: Faults,
                db: Durable)
    requires var e := ErrorStep(c, db0, state, batch);
      && (forall f ::
            && db.blobs.At(f) == BlobsAfter(c, db0, state, batch, x, f)
            && db.locs.At(f) == LocsAfter(c, db0, state, batch, x, f))
      && (forall f :: BitmapLeaves(c, db0, batch, x, e, db.pages.At(f), db.stats.At(f), f))
      && (forall f :: MetadataLeaves(db0, batch, x, e, db.ranges.At(f), db.index.At(f), f))
      && db.hashes == FlushedHashes(c, db0, batch, x, e) && db.state == FlushedState(db0, state', x, e)
    ensures db == FlushDb(c, db0, state, batch, state', x)
  {
    hide Landed, BlobRows, LocRows, PageRows, StatRows, RangeRows, IndexRows, HashRows, ErrorStep, FlushedHashes;
    var db' := FlushDb(c, db0, state, batch, state', x);
    forall f
      ensures db.blobs.At(f) == db'.blobs.At(f) && db.locs.At(f) == db'.locs.At(f)
      ensures db.pages.At(f) == db'.pages.At(f) && db.stats.At(f) == db'.stats.At(f)
      ensures db.ranges.At(f) == db'.ranges.At(f) && db.index.At(f) == db'.index.At(f)
    {
      FlushLeaves(c, db0, state, batch, state', x, f);
      assert BitmapLeaves(c, db0, batch, x, ErrorStep(c, db0, state, batch), db.pages.At(f), db.stats.At(f), f);
      assert MetadataLeaves(db0, batch, x, ErrorStep(c, db0, state, batch), db.ranges.At(f), db.index.At(f), f);
    }
    SameEverywhere(db.blobs, db'.blobs);
    SameEverywhere(db.locs, db'.locs);
    SameEverywhere(db.pages, db'.pages);
    SameEverywhere(db.stats, db'.stats);
    SameEverywhere(db.ranges, db'.ranges);
    SameEverywhere(db.index, db'.index);
  }
}
