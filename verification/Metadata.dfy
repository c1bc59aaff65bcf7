/** Block hashes, family ranges and the family block index (metadata.rs). */
module Metadata {
  import opened Seqs
  import opened Schema

  datatype Range = Range(first: nat, count: nat) {
    function End(): nat { first + count }
  }

  /** A block with the id ranges prepare_flush gave it. */
  datatype Assigned = Assigned(block: Block, logs: Range, txs: Range, traces: Range) {
    function Of(f: Family): Range {
      match f
      case BlockHeader => Range(block.Number(), 1)
      case Transaction => txs
      case Log => logs
      case Trace => traces
    }
  }

  // ---- rows one flush writes ----

  function HashRows(c: Codec, batch: seq<Assigned>, n: nat): map<nat, Hash>
    requires n <= |batch|
  {
    if n == 0 then map[] else
      var header := batch[n - 1].block.header;
      HashRows(c, batch, n - 1)[header.number := c.hash(header)]
  }

  function RangeRows(batch: seq<Assigned>, f: Family, n: nat): map<nat, Range>
    requires n <= |batch|
  {
    if n == 0 then map[] else RangeRows(batch, f, n - 1)[batch[n - 1].block.Number() := batch[n - 1].Of(f)]
  }

  /** Only blocks that have rows of the family get an index row. */
  function IndexRows(batch: seq<Assigned>, f: Family, n: nat): map<nat, nat>
    requires n <= |batch|
  {
    if n == 0 then map[] else
      AddIndex(IndexRows(batch, f, n - 1), batch[n - 1].Of(f), batch[n - 1].block.Number())
  }

  function AddIndex(rows: map<nat, nat>, r: Range, height: nat): map<nat, nat> {
    if r.count > 0 then rows[r.first := height] else rows
  }

  /** metadata::flush: build the rows of the three tables. */
  method Flush(c: Codec, batch: seq<Assigned>)
    returns (hashes: map<nat, Hash>, ranges: PerFamily<map<nat, Range>>, index: PerFamily<map<nat, nat>>)
    ensures hashes == HashRows(c, batch, |batch|)
    ensures forall f :: ranges.At(f) == RangeRows(batch, f, |batch|)
    ensures forall f :: index.At(f) == IndexRows(batch, f, |batch|)
  {
    hashes := map[];
    ranges := PerFamily(map[], map[], map[], map[]);
    index := PerFamily(map[], map[], map[], map[]);
    for i := 0 to |batch|
      invariant hashes == HashRows(c, batch, i)
      invariant forall f :: ranges.At(f) == RangeRows(batch, f, i)
      invariant forall f :: index.At(f) == IndexRows(batch, f, i)
    {
      hashes := hashes[batch[i].block.Number() := c.hash(batch[i].block.header)];
      ranges, index := AddBlock(batch[i], ranges, index);
    }
  }

  /** The inner loop over the families. */
  method AddBlock(entry: Assigned, ranges0: PerFamily<map<nat, Range>>, index0: PerFamily<map<nat, nat>>)
    returns (ranges: PerFamily<map<nat, Range>>, index: PerFamily<map<nat, nat>>)
    ensures forall f :: ranges.At(f) == ranges0.At(f)[entry.block.Number() := entry.Of(f)]
    ensures forall f :: index.At(f) == AddIndex(index0.At(f), entry.Of(f), entry.block.Number())
  {
    var height := entry.block.Number();
    ranges, index := ranges0, index0;
    for k := 0 to 4
      invariant forall f :: ranges.At(f) == if Rank(f) < k then ranges0.At(f)[height := entry.Of(f)] else ranges0.At(f)
      invariant forall f ::
        index.At(f) == if Rank(f) < k then AddIndex(index0.At(f), entry.Of(f), height) else index0.At(f)
    {
      var f := Nth(k);
      var range := entry.Of(f);
      ranges := ranges.With(f, ranges.At(f)[height := range]);
      if range.count > 0 {
        index := index.With(f, index.At(f)[range.first := height]);
      }
    }
  }

  // ---- what the tables hold ----

  /** hs[i] is the true hash of block start + i; rows below height start + m exist, none at or above start + a. */
  ghost predicate HashesInv(start: nat, hs: seq<Hash>, hashes: map<nat, Hash>, m: nat, a: nat) {
    && m <= a <= |hs|
    && (forall h: nat :: h in hashes ==> start <= h < start + a && hashes[h] == hs[h - start])
    && (forall h: nat :: start <= h < start + m ==> h in hashes)
  }

  /** rs[i] is the true range of block start + i. */
  ghost predicate RangesInv(start: nat, rs: seq<Range>, ranges: map<nat, Range>, m: nat, a: nat) {
    && m <= a <= |rs|
    && (forall h: nat :: h in ranges ==> start <= h < start + a && ranges[h] == rs[h - start])
    && (forall h: nat :: start <= h < start + m ==> h in ranges)
  }

  ghost predicate IndexInv(start: nat, rs: seq<Range>, index: map<nat, nat>, m: nat, a: nat) {
    && m <= a <= |rs|
    && (forall id: nat :: id in index ==> start <= index[id] < start + a && Opens(rs[index[id] - start], id))
    && (forall i: nat :: i < m && rs[i].count > 0 ==> rs[i].first in index)
  }

  predicate Opens(r: Range, id: nat) { r.count > 0 && r.first == id }

  /** Ids are allocated without gaps. */
  ghost predicate Contiguous(rs: seq<Range>) {
    forall i, j :: 0 <= i < j < |rs| && j == i + 1 ==> rs[j].first == rs[i].End()
  }

  lemma {:induction false} Ordered(rs: seq<Range>, i: nat, j: nat)
    requires Contiguous(rs) && i < j < |rs|
    ensures rs[i].End() <= rs[j].first
  {
    if i < j - 1 {
      Ordered(rs, i, j - 1);
      assert rs[j].first == rs[j - 1].End();
    }
  }

  // ---- the rows of a batch are true ----

  ghost predicate BatchHashes(c: Codec, start: nat, hs: seq<Hash>, batch: seq<Assigned>, n: nat) {
    n + |batch| <= |hs| && forall i :: 0 <= i < |batch| ==>
      batch[i].block.Number() == start + n + i && c.hash(batch[i].block.header) == hs[n + i]
  }

  ghost predicate BatchRanges(start: nat, rs: seq<Range>, batch: seq<Assigned>, f: Family, n: nat) {
    n + |batch| <= |rs| && forall i :: 0 <= i < |batch| ==>
      batch[i].block.Number() == start + n + i && batch[i].Of(f) == rs[n + i]
  }

  lemma {:induction false} HashRowsTrue(c: Codec, start: nat, hs: seq<Hash>, batch: seq<Assigned>, n: nat, k: nat)
    requires BatchHashes(c, start, hs, batch, n) && k <= |batch|
    ensures forall h: nat :: h in HashRows(c, batch, k) <==> start + n <= h < start + n + k
    ensures forall h: nat :: h in HashRows(c, batch, k) ==> HashRows(c, batch, k)[h] == hs[h - start]
  {
    if k > 0 {
      HashRowsTrue(c, start, hs, batch, n, k - 1);
    }
  }

  lemma {:induction false} RangeRowsTrue(start: nat, rs: seq<Range>, batch: seq<Assigned>, f: Family, n: nat, k: nat)
    requires BatchRanges(start, rs, batch, f, n) && k <= |batch|
    ensures forall h: nat :: h in RangeRows(batch, f, k) <==> start + n <= h < start + n + k
    ensures forall h: nat :: h in RangeRows(batch, f, k) ==> RangeRows(batch, f, k)[h] == rs[h - start]
  {
    if k > 0 {
      RangeRowsTrue(start, rs, batch, f, n, k - 1);
    }
  }

  lemma {:induction false} IndexRowsTrue(start: nat, rs: seq<Range>, batch: seq<Assigned>, f: Family, n: nat, k: nat)
    requires BatchRanges(start, rs, batch, f, n) && k <= |batch|
    ensures TrueIndex(start, rs, IndexRows(batch, f, k), n, n + k)
  {
    hide TrueIndex, AddIndex;
    if k == 0 {
      NoIndex(start, rs, n);
    } else {
      IndexRowsTrue(start, rs, batch, f, n, k - 1);
      AddIndexTrue(start, rs, IndexRows(batch, f, k - 1), n, n + (k - 1));
    }
  }

  lemma NoIndex(start: nat, rs: seq<Range>, n: nat)
    requires n <= |rs|
    ensures TrueIndex(start, rs, map[], n, n)
  {
  }

  lemma AddIndexTrue(start: nat, rs: seq<Range>, w: map<nat, nat>, n: nat, i: nat)
    requires n <= i < |rs| && TrueIndex(start, rs, w, n, i)
    ensures TrueIndex(start, rs, AddIndex(w, rs[i], start + i), n, i + 1)
  {
  }

  /** Index rows of blocks n..n'. */
  ghost predicate TrueIndex(start: nat, rs: seq<Range>, w: map<nat, nat>, n: nat, n': nat)
    requires n <= n' <= |rs|
  {
    forall id: nat :: id in w ==> start + n <= w[id] < start + n' && Opens(rs[w[id] - start], id)
  }

  lemma {:induction false} IndexRowsAll(start: nat, rs: seq<Range>, batch: seq<Assigned>, f: Family, n: nat, k: nat,
                                        i: nat)
    requires BatchRanges(start, rs, batch, f, n) && k <= |batch| && n <= i < n + k && rs[i].count > 0
    ensures rs[i].first in IndexRows(batch, f, k)
  {
    if i == n + k - 1 {
      assert batch[k - 1].Of(f) == rs[i];
    } else {
      IndexRowsAll(start, rs, batch, f, n, k - 1, i);
    }
  }

  // ---- a flush of blocks n..n' that lands in part, or in full ----

  lemma HashStep(c: Codec, start: nat, hs: seq<Hash>, hashes: map<nat, Hash>, batch: seq<Assigned>, n: nat, m: nat,
                 a: nat, w: map<nat, Hash>)
    requires HashesInv(start, hs, hashes, m, a) && BatchHashes(c, start, hs, batch, n) && n <= m <= n + |batch|
    requires SubRows(w, HashRows(c, batch, |batch|))
    ensures HashesInv(start, hs, hashes + w, m, Max(a, n + |batch|))
    ensures w == HashRows(c, batch, |batch|) ==> HashesInv(start, hs, hashes + w, n + |batch|, Max(a, n + |batch|))
  {
    HashRowsTrue(c, start, hs, batch, n, |batch|);
  }

  lemma RangeStep(start: nat, rs: seq<Range>, ranges: map<nat, Range>, batch: seq<Assigned>, f: Family, n: nat, m: nat,
                  a: nat, w: map<nat, Range>)
    requires RangesInv(start, rs, ranges, m, a) && BatchRanges(start, rs, batch, f, n) && n <= m <= n + |batch|
    requires SubRows(w, RangeRows(batch, f, |batch|))
    ensures RangesInv(start, rs, ranges + w, m, Max(a, n + |batch|))
    ensures w == RangeRows(batch, f, |batch|) ==> RangesInv(start, rs, ranges + w, n + |batch|, Max(a, n + |batch|))
  {
    RangeRowsTrue(start, rs, batch, f, n, |batch|);
  }

  lemma IndexStep(start: nat, rs: seq<Range>, index: map<nat, nat>, batch: seq<Assigned>, f: Family, n: nat, m: nat,
                  a: nat, w: map<nat, nat>)
    requires IndexInv(start, rs, index, m, a) && BatchRanges(start, rs, batch, f, n) && n <= m <= n + |batch|
    requires SubRows(w, IndexRows(batch, f, |batch|))
    ensures IndexInv(start, rs, index + w, m, Max(a, n + |batch|))
    ensures w == IndexRows(batch, f, |batch|) ==> IndexInv(start, rs, index + w, n + |batch|, Max(a, n + |batch|))
  {
    hide IndexRows, IndexInv, TrueIndex;
    IndexRowsTrue(start, rs, batch, f, n, |batch|);
    SubIndex(start, rs, IndexRows(batch, f, |batch|), w, n, n + |batch|);
    IndexPartial(start, rs, index, n, n + |batch|, m, a, w);
    if w == IndexRows(batch, f, |batch|) {
      forall i: nat | n <= i < n + |batch| && rs[i].count > 0 ensures rs[i].first in w {
        IndexRowsAll(start, rs, batch, f, n, |batch|, i);
      }
      IndexFull(start, rs, index, n, n + |batch|, m, a, w);
    }
  }

  lemma SubIndex(start: nat, rs: seq<Range>, rows: map<nat, nat>, w: map<nat, nat>, n: nat, n': nat)
    requires n <= n' <= |rs| && TrueIndex(start, rs, rows, n, n') && SubRows(w, rows)
    ensures TrueIndex(start, rs, w, n, n')
  {
  }

  lemma IndexFull(start: nat, rs: seq<Range>, index: map<nat, nat>, n: nat, n': nat, m: nat, a: nat, w: map<nat, nat>)
    requires IndexInv(start, rs, index, m, a) && IndexInv(start, rs, index + w, m, Max(a, n')) && n <= m <= n' <= |rs|
    requires forall i: nat :: n <= i < n' && rs[i].count > 0 ==> rs[i].first in w
    ensures IndexInv(start, rs, index + w, n', Max(a, n'))
  {
  }

  lemma IndexPartial(start: nat, rs: seq<Range>, index: map<nat, nat>, n: nat, n': nat, m: nat, a: nat,
                     w: map<nat, nat>)
    requires IndexInv(start, rs, index, m, a) && n <= m <= n' <= |rs| && TrueIndex(start, rs, w, n, n')
    ensures IndexInv(start, rs, index + w, m, Max(a, n'))
  {
    forall id: nat | id in index + w
      ensures start <= (index + w)[id] < start + Max(a, n') && Opens(rs[(index + w)[id] - start], id)
    {
      assert id in w ==> start + n <= w[id] < start + n';
    }
  }

  // ---- with nothing attempted beyond the frontier, the tables are determined by the chain ----

  lemma HashesUnique(start: nat, hs: seq<Hash>, m: nat, h: map<nat, Hash>, h': map<nat, Hash>)
    requires HashesInv(start, hs, h, m, m) && HashesInv(start, hs, h', m, m)
    ensures h == h'
  {
    assert forall k: nat :: k in h <==> k in h';
  }

  lemma RangesUnique(start: nat, rs: seq<Range>, m: nat, r: map<nat, Range>, r': map<nat, Range>)
    requires RangesInv(start, rs, r, m, m) && RangesInv(start, rs, r', m, m)
    ensures r == r'
  {
    assert forall k: nat :: k in r <==> k in r';
  }

  lemma IndexUnique(start: nat, rs: seq<Range>, m: nat, x: map<nat, nat>, x': map<nat, nat>)
    requires IndexInv(start, rs, x, m, m) && IndexInv(start, rs, x', m, m) && Contiguous(rs)
    ensures x == x'
  {
    hide Contiguous;
    forall id: nat
      ensures id in x <==> id in x'
      ensures id in x && id in x' ==> x[id] == x'[id]
    {
      if id in x {
        assert Opens(rs[x[id] - start], id);
      }
      if id in x' {
        assert Opens(rs[x'[id] - start], id);
      }
      if id in x && id in x' {
        OneBlock(rs, x[id] - start, x'[id] - start, id);
      }
    }
  }

  // ---- greatest-key-at-most lookup ----

  /** MetaTable::seek_le: the greatest key at most id, if any. */
  ghost predicate SeekLe(index: map<nat, nat>, id: nat, r: Option<nat>) {
    match r
    case None => forall k: nat :: k in index ==> k > id
    case Some(key) => key in index && key <= id && forall k: nat :: k in index && k <= id ==> k <= key
  }

  lemma {:induction false} BlockOfId(rs: seq<Range>, m: nat, id: nat) returns (i: nat)
    requires Contiguous(rs) && 0 < m <= |rs| && rs[0].first <= id < rs[m - 1].End()
    ensures i < m && rs[i].first <= id < rs[i].End()
  {
    if rs[m - 1].first <= id {
      i := m - 1;
    } else {
      assert rs[m - 1].first == rs[m - 2].End();
      i := BlockOfId(rs, m - 1, id);
    }
  }

  lemma OneBlock(rs: seq<Range>, i: nat, j: nat, id: nat)
    requires Contiguous(rs) && i < |rs| && j < |rs|
    requires rs[i].first <= id < rs[i].End() && rs[j].first <= id < rs[j].End()
    ensures i == j
  {
    if i != j {
      Ordered(rs, if i < j then i else j, if i < j then j else i);
    }
  }

  /** The lookup resolves every committed id to the one block whose range contains it. */
  lemma LookupResolves(start: nat, rs: seq<Range>, index: map<nat, nat>, m: nat, a: nat, id: nat, r: Option<nat>)
    requires Contiguous(rs) && IndexInv(start, rs, index, m, a)
    requires m > 0 && rs[0].first <= id < rs[m - 1].End() && SeekLe(index, id, r)
    ensures r.Some? && start <= index[r.value] < start + m
    ensures rs[index[r.value] - start].first <= id < rs[index[r.value] - start].End()
    ensures forall j: nat :: j < |rs| && rs[j].first <= id < rs[j].End() ==> start + j == index[r.value]
  {
    hide Contiguous;
    var i := BlockOfId(rs, m, id);
    assert rs[i].first in index;
    var j := index[r.value] - start;
    assert Opens(rs[j], r.value);
    if j < i {
      Ordered(rs, j, i);
    } else if i < j {
      Ordered(rs, i, j);
    }
    forall k: nat | k < |rs| && rs[k].first <= id < rs[k].End()
      ensures k == i
    {
      OneBlock(rs, i, k, id);
    }
  }
}
