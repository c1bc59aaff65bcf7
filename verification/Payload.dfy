/** Payload partitions and location rows (payload.rs, store/blob/partition.rs). */
module Payload {
  import opened Seqs
  import opened Schema

  const ITEMS_PER_BLOB: nat := 1024

  /** PayloadKey::from_id, PayloadKey::partition_start. */
  function Part(id: nat): nat { id / ITEMS_PER_BLOB }
  function PartStart(id: nat): nat { id / ITEMS_PER_BLOB * ITEMS_PER_BLOB }

  /** The rows of one family: the row with id base + k has encoding encs[k]. */
  datatype Rows = Rows(base: nat, encs: seq<Bytes>) {
    function End(): nat { base + |encs| }

    /** Ids of partition p at or after base and before end. */
    function Lo(p: nat): nat { Max(base, p * ITEMS_PER_BLOB) }
    function Hi(p: nat, end: nat): nat { Min(end, (p + 1) * ITEMS_PER_BLOB) }
    predicate Touches(p: nat, end: nat) { Lo(p) < Hi(p, end) }

    /** Bytes of the rows of partition p before end. */
    function PartBytes(p: nat, end: nat): Bytes
      requires end <= End()
    {
      Range(Lo(p), Hi(p, end))
    }

    /** Bytes of the rows with ids lo..hi. */
    function Range(lo: nat, hi: nat): Bytes {
      if base <= lo <= hi <= End() then Flat(encs, lo - base, hi - base) else []
    }

    /** Where row id ends inside its partition. */
    function EndOf(id: nat): nat
      requires base <= id < End()
    {
      |PartBytes(Part(id), id + 1)|
    }
  }

  function Get<K, V>(table: map<K, V>, k: K, default: V): V {
    if k in table then table[k] else default
  }

  /** The partitions a batch has rows in. */
  function Parts(batch: Rows): set<nat> {
    set p: nat | Part(batch.base) <= p <= Part(batch.End()) && batch.Touches(p, batch.End())
  }

  /** What one flush reads and writes for one family. */
  datatype FamilyFlush = FamilyFlush(blobs: map<nat, Bytes>, locs: map<nat, nat>, committed: Option<nat>, batch: Rows) {
    /** Where the committed bytes of partition p end; None when the committed location row is missing. */
    function CommittedEnd(p: nat): Option<nat> {
      if committed.Some? && Part(committed.value) == p then
        if committed.value in locs then Some(locs[committed.value]) else None
      else Some(0)
    }

    /** Keep the committed bytes, append the batch's rows of the partition. */
    function BlobRow(p: nat): Option<Bytes> {
      var end :- CommittedEnd(p);
      var stored := Get(blobs, p, []);
      if end > |stored| then None else Some(stored[..end] + batch.PartBytes(p, batch.End()))
    }

    function LocRow(id: nat): nat
      requires batch.base <= id < batch.End() && CommittedEnd(Part(id)).Some?
    {
      CommittedEnd(Part(id)).value + batch.EndOf(id)
    }

    predicate Ok(parts: set<nat>) {
      forall p :: p in parts ==> BlobRow(p).Some?
    }

    function BlobRows(parts: set<nat>): map<nat, Bytes>
      requires Ok(parts)
    {
      map p | p in parts :: BlobRow(p).value
    }

    function LocRows(parts: set<nat>): map<nat, nat>
      requires Ok(parts)
    {
      map id: nat | batch.base <= id < batch.End() && Part(id) in parts :: LocRow(id)
    }
  }

  lemma PartOfRow(batch: Rows, id: nat)
    requires batch.base <= id < batch.End()
    ensures Part(id) in Parts(batch)
  {
    assert batch.Touches(Part(id), batch.End());
  }

  lemma TouchedPart(batch: Rows, p: nat)
    requires batch.Touches(p, batch.End())
    ensures p in Parts(batch)
  {
  }

  // ---- what the tables hold ----

  /** Every location row belongs to a row before id a and points at its true end. */
  ghost predicate LocsSound(s: Rows, locs: map<nat, nat>, a: nat) {
    forall id: nat :: id in locs ==> s.base <= id < a && id < s.End() && locs[id] == s.EndOf(id)
  }

  ghost predicate LocsComplete(s: Rows, locs: map<nat, nat>, m: nat) {
    forall id :: s.base <= id < m ==> id in locs
  }

  /** Every blob is a prefix of the partition's true bytes up to a, and reaches at least up to m. */
  ghost predicate BlobsSound(s: Rows, blobs: map<nat, Bytes>, a: nat)
    requires a <= s.End()
  {
    forall p: nat :: p in blobs ==> s.Touches(p, a) && blobs[p] <= s.PartBytes(p, a)
  }

  ghost predicate BlobsComplete(s: Rows, blobs: map<nat, Bytes>, m: nat)
    requires m <= s.End()
  {
    forall p :: s.Touches(p, m) ==> p in blobs && s.PartBytes(p, m) <= blobs[p]
  }

  lemma RangeSplit(s: Rows, lo: nat, mid: nat, hi: nat)
    requires s.base <= lo <= mid <= hi <= s.End()
    ensures s.Range(lo, hi) == s.Range(lo, mid) + s.Range(mid, hi)
  {
    FlatSplit(s.encs, lo - s.base, mid - s.base, hi - s.base);
  }

  /** A batch has the bytes of the rows it was cut from. */
  lemma BatchRange(s: Rows, n: nat, n': nat, lo: nat, hi: nat)
    requires s.base <= n <= n' <= s.End() && n <= lo && hi <= n'
    ensures BatchRows(s, n, n').Range(lo, hi) == s.Range(lo, hi)
  {
    if lo <= hi {
      FlatSame(BatchRows(s, n, n').encs, lo - n, s.encs, lo - s.base, hi - lo);
    }
  }

  /** The rows of partition p up to hi are those up to n followed by the batch's. */
  lemma PartBytesSplit(s: Rows, p: nat, n: nat, n': nat, hi: nat)
    requires s.base <= n <= hi <= n' <= s.End()
    ensures s.PartBytes(p, hi) == s.PartBytes(p, n) + BatchRows(s, n, n').PartBytes(p, hi)
  {
    var b := BatchRows(s, n, n');
    BatchRange(s, n, n', b.Lo(p), b.Hi(p, hi));
    if s.Lo(p) <= n <= s.Hi(p, hi) {
      RangeSplit(s, s.Lo(p), n, s.Hi(p, hi));
    }
  }

  lemma PartBytesMono(s: Rows, p: nat, lo: nat, hi: nat)
    requires s.base <= lo <= hi <= s.End()
    ensures s.PartBytes(p, lo) <= s.PartBytes(p, hi)
  {
    PartBytesSplit(s, p, lo, hi, hi);
  }

  /** The batch that takes the family from frontier n to frontier n'. */
  function BatchRows(s: Rows, n: nat, n': nat): Rows
    requires s.base <= n <= n' <= s.End()
  {
    Rows(n, s.encs[n - s.base..n' - s.base])
  }

  function CommittedId(base: nat, n: nat): Option<nat> {
    if n > base then Some(n - 1) else None
  }

  function FlushOf(s: Rows, blobs: map<nat, Bytes>, locs: map<nat, nat>, n: nat, n': nat): FamilyFlush
    requires s.base <= n <= n' <= s.End()
  {
    FamilyFlush(blobs, locs, CommittedId(s.base, n), BatchRows(s, n, n'))
  }

  ghost predicate PayloadInv(s: Rows, blobs: map<nat, Bytes>, locs: map<nat, nat>, m: nat, a: nat) {
    && s.base <= m <= a <= s.End()
    && LocsSound(s, locs, a) && LocsComplete(s, locs, m)
    && BlobsSound(s, blobs, a) && BlobsComplete(s, blobs, m)
  }

  /** The committed end read back from the location table is the true one, and the blob holds those bytes. */
  lemma CommittedBytes(s: Rows, blobs: map<nat, Bytes>, locs: map<nat, nat>, n: nat, n': nat, m: nat, a: nat, p: nat)
    requires PayloadInv(s, blobs, locs, m, a) && s.base <= n <= m && n <= n' <= s.End()
    requires s.Touches(p, s.End()) && n < (p + 1) * ITEMS_PER_BLOB
    ensures FlushOf(s, blobs, locs, n, n').CommittedEnd(p) == Some(|s.PartBytes(p, n)|)
    ensures s.PartBytes(p, n) <= Get(blobs, p, [])
  {
    hide Part, Rows.PartBytes;
    LastInPart(s, p, n);
    if s.Touches(p, n) {
      PartBytesMono(s, p, n, m);
      assert s.Touches(p, m);
    }
  }

  /** Whether partition p holds row n - 1, when it reaches beyond n. */
  lemma LastInPart(s: Rows, p: nat, n: nat)
    requires s.base <= n <= s.End() && n < (p + 1) * ITEMS_PER_BLOB
    ensures s.Touches(p, n) <==> n > s.base && Part(n - 1) == p
    ensures !s.Touches(p, n) ==> s.PartBytes(p, n) == []
  {
  }

  /** A flush from frontier n to n' writes the true bytes of every partition it touches ... */
  lemma BlobRowTrue(s: Rows, blobs: map<nat, Bytes>, locs: map<nat, nat>, n: nat, n': nat, m: nat, a: nat, p: nat)
    requires PayloadInv(s, blobs, locs, m, a) && s.base <= n <= m && n <= n' <= s.End()
    requires p in Parts(BatchRows(s, n, n'))
    ensures FlushOf(s, blobs, locs, n, n').BlobRow(p) == Some(s.PartBytes(p, n'))
  {
    hide Rows.PartBytes, PayloadInv, Part;
    var b := BatchRows(s, n, n');
    assert b.Touches(p, n');
    assert s.Touches(p, s.End()) && n < (p + 1) * ITEMS_PER_BLOB;
    CommittedBytes(s, blobs, locs, n, n', m, a, p);
    PartBytesSplit(s, p, n, n', n');
    Extend(s.PartBytes(p, n), Get(blobs, p, []), b.PartBytes(p, n'));
  }

  lemma Extend(kept: Bytes, stored: Bytes, added: Bytes)
    requires kept <= stored
    ensures stored[..|kept|] + added == kept + added
  {
  }

  /** ... and the true end of every row. */
  lemma LocRowTrue(s: Rows, blobs: map<nat, Bytes>, locs: map<nat, nat>, n: nat, n': nat, m: nat, a: nat, id: nat)
    requires PayloadInv(s, blobs, locs, m, a) && s.base <= n <= m && n <= id < n' <= s.End()
    ensures FlushOf(s, blobs, locs, n, n').CommittedEnd(Part(id)).Some?
    ensures FlushOf(s, blobs, locs, n, n').LocRow(id) == s.EndOf(id)
  {
    var p := Part(id);
    assert s.Touches(p, s.End()) && n < (p + 1) * ITEMS_PER_BLOB;
    CommittedBytes(s, blobs, locs, n, n', m, a, p);
    PartBytesSplit(s, p, n, n', id + 1);
  }

  /**
   * Any part of the true rows between frontiers n and n' may be written: what was sound stays sound,
   * and what was complete up to m stays complete.
   */
  lemma PartialBlobs(s: Rows, blobs: map<nat, Bytes>, w: map<nat, Bytes>, n: nat, n': nat, m: nat, a: nat)
    requires s.base <= n <= m <= n' <= s.End() && m <= a <= s.End()
    requires BlobsSound(s, blobs, a) && BlobsComplete(s, blobs, m)
    requires TrueBlobs(s, w, n, n')
    ensures BlobsSound(s, blobs + w, Max(a, n')) && BlobsComplete(s, blobs + w, m)
  {
    hide Rows.PartBytes;
    var b := Max(a, n');
    forall p: nat | p in blobs + w
      ensures s.Touches(p, b) && (blobs + w)[p] <= s.PartBytes(p, b)
    {
      if p in w {
        PartBytesMono(s, p, n', b);
      } else {
        PartBytesMono(s, p, a, b);
      }
    }
    forall p: nat | s.Touches(p, m)
      ensures p in blobs + w && s.PartBytes(p, m) <= (blobs + w)[p]
    {
      PartBytesMono(s, p, m, n');
    }
  }

  lemma FlushRowsTrue(s: Rows, blobs: map<nat, Bytes>, locs: map<nat, nat>, n: nat, n': nat, m: nat, a: nat)
    requires PayloadInv(s, blobs, locs, m, a) && s.base <= n <= m && n <= n' <= s.End()
    ensures var ff := FlushOf(s, blobs, locs, n, n');
      && ff.Ok(Parts(ff.batch))
      && TrueBlobs(s, ff.BlobRows(Parts(ff.batch)), n, n') && TrueLocs(s, ff.LocRows(Parts(ff.batch)), n, n')
      && (forall p: nat :: ff.batch.Touches(p, n') ==> p in ff.BlobRows(Parts(ff.batch)))
      && (forall id: nat :: n <= id < n' ==> id in ff.LocRows(Parts(ff.batch)))
  {
    hide PayloadInv, FamilyFlush.BlobRow, FamilyFlush.LocRows, Rows.PartBytes, TrueLocs;
    var ff := FlushOf(s, blobs, locs, n, n');
    forall p | p in Parts(ff.batch) ensures ff.BlobRow(p) == Some(s.PartBytes(p, n')) {
      BlobRowTrue(s, blobs, locs, n, n', m, a, p);
    }
    LocRowsTrue(s, blobs, locs, n, n', m, a);
    forall p: nat | ff.batch.Touches(p, n') ensures p in Parts(ff.batch) { TouchedPart(ff.batch, p); }
  }

  lemma LocRowsTrue(s: Rows, blobs: map<nat, Bytes>, locs: map<nat, nat>, n: nat, n': nat, m: nat, a: nat)
    requires PayloadInv(s, blobs, locs, m, a) && s.base <= n <= m && n <= n' <= s.End()
    requires FlushOf(s, blobs, locs, n, n').Ok(Parts(BatchRows(s, n, n')))
    ensures var ff := FlushOf(s, blobs, locs, n, n');
      && TrueLocs(s, ff.LocRows(Parts(ff.batch)), n, n')
      && (forall id: nat :: n <= id < n' ==> id in ff.LocRows(Parts(ff.batch)))
  {
    hide PayloadInv, FamilyFlush.Ok, Rows.EndOf, Parts, Part;
    var ff := FlushOf(s, blobs, locs, n, n');
    var rows := ff.LocRows(Parts(ff.batch));
    forall id: nat | n <= id < n' ensures id in rows && rows[id] == s.EndOf(id) {
      PartOfRow(ff.batch, id);
      LocRowTrue(s, blobs, locs, n, n', m, a, id);
    }
  }

  /** Blob rows of a flush from n to n': true bytes, only of partitions the batch touches. */
  ghost predicate TrueBlobs(s: Rows, w: map<nat, Bytes>, n: nat, n': nat)
    requires s.base <= n <= n' <= s.End()
  {
    forall p: nat :: p in w ==> BatchRows(s, n, n').Touches(p, n') && w[p] == s.PartBytes(p, n')
  }

  ghost predicate TrueLocs(s: Rows, w: map<nat, nat>, n: nat, n': nat)
    requires s.base <= n <= n' <= s.End()
  {
    forall id: nat :: id in w ==> n <= id < n' && w[id] == s.EndOf(id)
  }

  lemma PartialWrite(s: Rows, blobs: map<nat, Bytes>, locs: map<nat, nat>, wb: map<nat, Bytes>, wl: map<nat, nat>,
                     n: nat, n': nat, m: nat, a: nat)
    requires PayloadInv(s, blobs, locs, m, a) && s.base <= n <= m <= n' <= s.End()
    requires TrueBlobs(s, wb, n, n') && TrueLocs(s, wl, n, n')
    ensures PayloadInv(s, blobs + wb, locs + wl, m, Max(a, n'))
  {
    PartialBlobs(s, blobs, wb, n, n', m, a);
  }

  lemma PartUntouched(s: Rows, p: nat, n: nat, n': nat, m: nat)
    requires s.base <= n <= m <= n' <= s.End() && s.Touches(p, n') && !BatchRows(s, n, n').Touches(p, n')
    ensures s.Touches(p, m) && s.PartBytes(p, n') == s.PartBytes(p, m)
  {
  }

  /** Once every row is written the family is complete up to the new frontier. */
  lemma FullWrite(s: Rows, blobs: map<nat, Bytes>, locs: map<nat, nat>, wb: map<nat, Bytes>, wl: map<nat, nat>, n: nat,
                  n': nat, m: nat, a: nat)
    requires PayloadInv(s, blobs, locs, m, a) && s.base <= n <= m <= n' <= s.End()
    requires TrueBlobs(s, wb, n, n') && TrueLocs(s, wl, n, n')
    requires forall p: nat :: BatchRows(s, n, n').Touches(p, n') ==> p in wb
    requires forall id: nat :: n <= id < n' ==> id in wl
    ensures PayloadInv(s, blobs + wb, locs + wl, n', Max(a, n'))
  {
    hide Rows.PartBytes, Rows.EndOf;
    PartialWrite(s, blobs, locs, wb, wl, n, n', m, a);
    forall p: nat | s.Touches(p, n')
      ensures p in blobs + wb && s.PartBytes(p, n') <= (blobs + wb)[p]
    {
      if !BatchRows(s, n, n').Touches(p, n') {
        PartUntouched(s, p, n, n', m);
      }
    }
  }

  /** A flush of rows n..n' that lands in part, or in full. */
  lemma FlushStep(s: Rows, blobs: map<nat, Bytes>, locs: map<nat, nat>, n: nat, n': nat, m: nat, a: nat,
                  wb: map<nat, Bytes>, wl: map<nat, nat>)
    requires PayloadInv(s, blobs, locs, m, a) && s.base <= n <= m <= n' <= s.End()
    requires var ff := FlushOf(s, blobs, locs, n, n'); ff.Ok(Parts(ff.batch)) ==>
      SubRows(wb, ff.BlobRows(Parts(ff.batch))) && SubRows(wl, ff.LocRows(Parts(ff.batch)))
    ensures var ff := FlushOf(s, blobs, locs, n, n');
      && ff.Ok(Parts(ff.batch))
      && PayloadInv(s, blobs + wb, locs + wl, m, Max(a, n'))
      && (wb == ff.BlobRows(Parts(ff.batch)) && wl == ff.LocRows(Parts(ff.batch)) ==>
            PayloadInv(s, blobs + wb, locs + wl, n', Max(a, n')))
  {
    hide PayloadInv, Parts, FamilyFlush.Ok, FamilyFlush.BlobRows, FamilyFlush.LocRows, Rows.EndOf, Rows.PartBytes,
      Rows.Touches;
    var ff := FlushOf(s, blobs, locs, n, n');
    FlushRowsTrue(s, blobs, locs, n, n', m, a);
    PartialWrite(s, blobs, locs, wb, wl, n, n', m, a);
    if wb == ff.BlobRows(Parts(ff.batch)) && wl == ff.LocRows(Parts(ff.batch)) {
      FullWrite(s, blobs, locs, wb, wl, n, n', m, a);
    }
  }

  // ---- the payload stage for one family, as the source runs it ----

  /** into_group_map: the first and last id of each partition's group. */
  method GroupByPartition(batch: Rows) returns (groups: map<nat, (nat, nat)>)
    ensures groups.Keys == Parts(batch)
    ensures forall p :: p in groups ==> groups[p] == (batch.Lo(p), batch.Hi(p, batch.End()))
  {
    hide Part, Parts, Rows.Lo, Rows.Hi, Rows.Touches;
    groups := map[];
    var id := batch.base;
    GroupBounds(batch);
    while id < batch.End()
      invariant batch.base <= id <= batch.End()
      invariant forall p: nat :: p in groups <==> batch.Touches(p, id)
      invariant forall p: nat :: p in groups ==> groups[p] == (batch.Lo(p), batch.Hi(p, id))
    {
      var p := Part(id);
      Regroup(batch, id);
      groups := groups[p := (if p in groups then groups[p].0 else id, id + 1)];
      id := id + 1;
    }
  }

  lemma GroupBounds(batch: Rows)
    ensures forall p: nat :: !batch.Touches(p, batch.base)
    ensures forall p: nat :: batch.Touches(p, batch.End()) <==> p in Parts(batch)
  {
  }

  /** Visiting one more id changes only the group of its partition. */
  lemma Regroup(batch: Rows, id: nat)
    requires batch.base <= id < batch.End()
    ensures forall p: nat :: p != Part(id) ==> batch.Touches(p, id + 1) == batch.Touches(p, id)
    ensures forall p: nat :: p != Part(id) && batch.Touches(p, id) ==> batch.Hi(p, id + 1) == batch.Hi(p, id)
    ensures batch.Touches(Part(id), id + 1) && batch.Hi(Part(id), id + 1) == id + 1
    ensures !batch.Touches(Part(id), id) ==> batch.Lo(Part(id)) == id
  {
  }

  /** prepare_append: truncate to the committed end, then append item after item. */
  method PrepareAppend(stored: Bytes, committedEnd: nat, items: seq<Bytes>) returns (r: Option<(Bytes, seq<nat>)>)
    ensures r.None? <==> committedEnd > |stored|
    ensures r.Some? ==> r.value.0 == stored[..committedEnd] + Flatten(items)
    ensures r.Some? ==> |r.value.1| == |items|
    ensures r.Some? ==> forall k :: 0 <= k < |items| ==> r.value.1[k] == committedEnd + Offset(items, k + 1)
  {
    if committedEnd > |stored| {
      return None;
    }
    var bytes := stored[..committedEnd];
    var ends: seq<nat> := [];
    for k := 0 to |items|
      invariant bytes == stored[..committedEnd] + Flat(items, 0, k)
      invariant |ends| == k
      invariant forall j :: 0 <= j < k ==> ends[j] == committedEnd + Offset(items, j + 1)
    {
      bytes := bytes + items[k];
      ends := ends + [|bytes|];
    }
    return Some((bytes, ends));
  }

  /** Pair the ids of one partition with the ends the append returned. */
  method LocationRows(lo: nat, ends: seq<nat>) returns (rows: map<nat, nat>)
    ensures forall id: nat :: id in rows <==> lo <= id < lo + |ends|
    ensures forall id: nat :: id in rows ==> rows[id] == ends[id - lo]
  {
    rows := map[];
    for k := 0 to |ends|
      invariant forall id: nat :: id in rows <==> lo <= id < lo + k
      invariant forall id: nat :: id in rows ==> rows[id] == ends[id - lo]
    {
      rows := rows[lo + k := ends[k]];
    }
  }

  lemma PartitionEnds(batch: Rows, p: nat, id: nat)
    requires batch.Touches(p, batch.End()) && batch.Lo(p) <= id < batch.Hi(p, batch.End())
    ensures Part(id) == p
    ensures batch.EndOf(id) == Offset(batch.encs[batch.Lo(p) - batch.base..batch.Hi(p, batch.End()) - batch.base],
      id - batch.Lo(p) + 1)
  {
    FlatSame(batch.encs, batch.Lo(p) - batch.base,
             batch.encs[batch.Lo(p) - batch.base..batch.Hi(p, batch.End()) - batch.base], 0, id - batch.Lo(p) + 1);
  }

  /** One partition: look up the committed end, append, and name the end of every row. */
  method FlushPartition(ff: FamilyFlush, p: nat, lo: nat, hi: nat) returns (r: Option<(Bytes, map<nat, nat>)>)
    requires ff.batch.Touches(p, ff.batch.End()) && lo == ff.batch.Lo(p) && hi == ff.batch.Hi(p, ff.batch.End())
    ensures r.Some? <==> ff.Ok({p})
    ensures r.Some? ==> Some(r.value.0) == ff.BlobRow(p) && r.value.1 == ff.LocRows({p})
  {
    hide Rows.EndOf, FamilyFlush.LocRows;
    var committedEnd := 0;
    if ff.committed.Some? && Part(ff.committed.value) == Part(lo) {
      if ff.committed.value !in ff.locs {
        assert ff.BlobRow(p).None?;
        return None;
      }
      committedEnd := ff.locs[ff.committed.value];
    }
    assert ff.CommittedEnd(p) == Some(committedEnd);
    var items := ff.batch.encs[lo - ff.batch.base..hi - ff.batch.base];
    var appended := PrepareAppend(Get(ff.blobs, p, []), committedEnd, items);
    if appended.None? {
      assert ff.BlobRow(p).None?;
      return None;
    }
    var rows := LocationRows(lo, appended.value.1);
    LocRowsOfPart(ff, p, committedEnd, appended.value.1, rows);
    FlatSame(items, 0, ff.batch.encs, lo - ff.batch.base, hi - lo);
    return Some((appended.value.0, rows));
  }

  lemma PartIds(batch: Rows, id: nat)
    requires batch.base <= id < batch.End()
    ensures batch.Lo(Part(id)) <= id < batch.Hi(Part(id), batch.End())
  {
  }

  lemma LocRowsOfPart(ff: FamilyFlush, p: nat, committedEnd: nat, ends: seq<nat>, rows: map<nat, nat>)
    requires ff.batch.Touches(p, ff.batch.End()) && ff.Ok({p}) && ff.CommittedEnd(p) == Some(committedEnd)
    requires var lo, hi := ff.batch.Lo(p), ff.batch.Hi(p, ff.batch.End());
      var items := ff.batch.encs[lo - ff.batch.base..hi - ff.batch.base];
      && |ends| == |items| && (forall k :: 0 <= k < |items| ==> ends[k] == committedEnd + Offset(items, k + 1))
      && (forall id: nat :: id in rows <==> lo <= id < lo + |ends|)
      && (forall id: nat :: id in rows ==> rows[id] == ends[id - lo])
    ensures ff.LocRows({p}) == rows
  {
    hide Part, Rows.EndOf, FamilyFlush.CommittedEnd;
    var lo, hi := ff.batch.Lo(p), ff.batch.Hi(p, ff.batch.End());
    var locs := ff.LocRows({p});
    forall id: nat | lo <= id < hi
      ensures id in locs && locs[id] == rows[id]
    {
      PartitionEnds(ff.batch, p, id);
    }
    forall id: nat | id in locs ensures lo <= id < hi { PartIds(ff.batch, id); }
    assert locs == rows;
  }

  /** The rows one flush writes for one family; None when the committed state cannot be read back. */
  method FlushFamily(ff: FamilyFlush) returns (r: Option<(map<nat, Bytes>, map<nat, nat>)>)
    ensures r.Some? <==> ff.Ok(Parts(ff.batch))
    ensures r.Some? ==> r.value == (ff.BlobRows(Parts(ff.batch)), ff.LocRows(Parts(ff.batch)))
  {
    var groups := GroupByPartition(ff.batch);
    var blobRows: map<nat, Bytes> := map[];
    var locRows: map<nat, nat> := map[];
    var todo := groups.Keys;
    ghost var done: set<nat> := {};
    while todo != {}
      invariant done + todo == Parts(ff.batch)
      invariant Done(ff, done, blobRows, locRows)
      decreases todo
    {
      var p :| p in todo;
      var part := FlushPartition(ff, p, groups[p].0, groups[p].1);
      if part.None? {
        NotOk(ff, p);
        return None;
      }
      AddPart(ff, done, p, blobRows, locRows, part.value.0);
      blobRows, locRows := blobRows[p := part.value.0], locRows + part.value.1;
      todo, done := todo - {p}, done + {p};
    }
    assert done == Parts(ff.batch);
    return Some((blobRows, locRows));
  }

  /** The partitions in `done` have been flushed. */
  ghost predicate Done(ff: FamilyFlush, done: set<nat>, blobRows: map<nat, Bytes>, locRows: map<nat, nat>) {
    ff.Ok(done) && blobRows == ff.BlobRows(done) && locRows == ff.LocRows(done)
  }

  lemma NotOk(ff: FamilyFlush, p: nat)
    requires p in Parts(ff.batch) && !ff.Ok({p})
    ensures !ff.Ok(Parts(ff.batch))
  {
    assert ff.BlobRow(p).None?;
  }

  lemma AddRows(ff: FamilyFlush, done: set<nat>, p: nat)
    requires ff.Ok(done) && ff.Ok({p})
    ensures ff.Ok(done + {p})
    ensures ff.BlobRows(done + {p}) == ff.BlobRows(done)[p := ff.BlobRow(p).value]
    ensures ff.LocRows(done + {p}) == ff.LocRows(done) + ff.LocRows({p})
  {
    hide FamilyFlush.BlobRow, FamilyFlush.LocRow, FamilyFlush.CommittedEnd, Part;
  }

  lemma AddPart(ff: FamilyFlush, done: set<nat>, p: nat, blobRows: map<nat, Bytes>, locRows: map<nat, nat>, blob: Bytes)
    requires Done(ff, done, blobRows, locRows) && ff.Ok({p}) && ff.BlobRow(p) == Some(blob)
    ensures Done(ff, done + {p}, blobRows[p := blob], locRows + ff.LocRows({p}))
  {
    hide FamilyFlush.BlobRow, FamilyFlush.BlobRows, FamilyFlush.LocRows, FamilyFlush.Ok;
    AddRows(ff, done, p);
  }

  // ---- addressing ----

  /** Where readers take row id to start: 0 at a partition start, else the end of the row before it. */
  function ReadStart(locs: map<nat, nat>, id: nat): Option<nat> {
    if id == PartStart(id) then Some(0)
    else if id - 1 in locs then Some(locs[id - 1]) else None
  }

  /** A row's location is the end of the rows of its partition up to it. */
  lemma StartOf(s: Rows, locs: map<nat, nat>, m: nat, a: nat, id: nat)
    requires s.base <= id < m <= a <= s.End() && LocsSound(s, locs, a) && LocsComplete(s, locs, m)
    ensures ReadStart(locs, id).None? <==> id == s.base && id != PartStart(id)
    ensures ReadStart(locs, id).Some? ==> ReadStart(locs, id) == Some(|s.PartBytes(Part(id), id)|)
  {
    if id != PartStart(id) {
      assert Part(id - 1) == Part(id);
    } else {
      assert s.Lo(Part(id)) == id;
    }
  }

  /**
   * Every committed row can be read back by its location rows, except the first one when the
   * family does not begin at a partition start: its predecessor's location row never exists.
   */
  lemma Addressing(s: Rows, blobs: map<nat, Bytes>, locs: map<nat, nat>, m: nat, a: nat, id: nat)
    requires PayloadInv(s, blobs, locs, m, a) && s.base <= id < m
    ensures id in locs && Part(id) in blobs && locs[id] <= |blobs[Part(id)]|
    ensures ReadStart(locs, id).None? <==> id == s.base && id != PartStart(id)
    ensures var start := ReadStart(locs, id);
      start.Some? ==> start.value <= locs[id] && blobs[Part(id)][start.value..locs[id]] == s.encs[id - s.base]
  {
    hide Rows.PartBytes, Rows.Touches, Part, PartStart, BlobsSound, BlobsComplete;
    StartOf(s, locs, m, a, id);
    BlobHolds(s, blobs, m, id);
    RowInPart(s, id);
    Slice(blobs[Part(id)], s.PartBytes(Part(id), id), s.encs[id - s.base], s.PartBytes(Part(id), id + 1));
  }

  lemma BlobHolds(s: Rows, blobs: map<nat, Bytes>, m: nat, id: nat)
    requires s.base <= id < m <= s.End() && BlobsComplete(s, blobs, m)
    ensures Part(id) in blobs && s.PartBytes(Part(id), id + 1) <= blobs[Part(id)]
  {
    assert s.Touches(Part(id), m);
    PartBytesMono(s, Part(id), id + 1, m);
  }

  lemma Slice(blob: Bytes, before: Bytes, row: Bytes, through: Bytes)
    requires through == before + row && through <= blob
    ensures |before| <= |through| && blob[|before|..|through|] == row
  {
    assert through[|before|..] == row;
  }

  lemma RowInPart(s: Rows, id: nat)
    requires s.base <= id < s.End()
    ensures s.PartBytes(Part(id), id + 1) == s.PartBytes(Part(id), id) + s.encs[id - s.base]
  {
    RangeSplit(s, s.Lo(Part(id)), id, id + 1);
    OneRow(s, id);
  }

  lemma OneRow(s: Rows, id: nat)
    requires s.base <= id < s.End()
    ensures s.Range(id, id + 1) == s.encs[id - s.base]
  {
    assert Flat(s.encs, id - s.base, id - s.base) == [];
  }

  /** With nothing attempted beyond the frontier, the tables are determined by the rows. */
  lemma PayloadUnique(s: Rows, blobs: map<nat, Bytes>, locs: map<nat, nat>, blobs': map<nat, Bytes>,
                      locs': map<nat, nat>, m: nat)
    requires PayloadInv(s, blobs, locs, m, m) && PayloadInv(s, blobs', locs', m, m)
    ensures blobs == blobs' && locs == locs'
  {
    forall p: nat
      ensures p in blobs <==> p in blobs'
      ensures p in blobs ==> blobs[p] == blobs'[p]
    {
      if p in blobs || p in blobs' {
        assert s.Touches(p, m);
        SamePrefix(blobs[p], s.PartBytes(p, m));
        SamePrefix(blobs'[p], s.PartBytes(p, m));
      }
    }
    assert forall id: nat :: id in locs <==> id in locs';
  }

  lemma SamePrefix(a: Bytes, b: Bytes)
    requires a <= b && b <= a
    ensures a == b
  {
  }
}
