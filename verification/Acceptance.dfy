/** The writer's tables pass the validator. */
module Acceptance {
  import opened Seqs
  import opened Schema
  import opened Chain
  import opened Metadata
  import opened IndexState
  import opened Layout
  import opened Consistency
  import opened Runs
  import opened Reads
  import opened Validation
  import AncestorStatus
  import Payload
  import Bitmap

  // ---- a block's rows, decoded, give back its filters ----

  /** Every trace carries the index of its own transaction, as read_finalized_block sets it. */
  ghost predicate TracesNumbered(ch: Chain) {
    forall i :: 0 <= i < |ch.blocks| ==> AncestorStatus.Grouped(TraceGroups(ch.blocks[i]))
  }

  lemma {:induction false} FlatFamily(b: Block, f: Family, n: nat)
    requires n <= |b.txs| && f != BlockHeader
    ensures AllOfFamily(Flat(TxRowGroups(b, f), 0, n), f)
  {
    if n > 0 {
      FlatFamily(b, f, n - 1);
    }
  }

  lemma RowsOfFamily(b: Block, f: Family)
    ensures AllOfFamily(BlockRows(b, f), f)
  {
    if f != BlockHeader {
      FlatFamily(b, f, |b.txs|);
    }
  }

  lemma {:induction false} FlatTraces(b: Block, n: nat)
    requires n <= |b.txs|
    ensures AllOfFamily(Flat(TxRowGroups(b, Trace), 0, n), Trace)
    ensures Traces(Flat(TxRowGroups(b, Trace), 0, n)) == Flat(TraceGroups(b), 0, n)
  {
    FlatFamily(b, Trace, n);
    if n > 0 {
      FlatTraces(b, n - 1);
      FlatFamily(b, Trace, n - 1);
      var before, more := Flat(TxRowGroups(b, Trace), 0, n - 1), TxRows(b.txs[n - 1], Trace);
      assert Traces(before + more) == Traces(before) + b.txs[n - 1].traces;
    }
  }

  lemma TraceFlagInBlock(b: Block, t: nat, j: nat)
    requires AncestorStatus.Grouped(TraceGroups(b)) && t < |b.txs| && j < |b.txs[t].traces|
    ensures var rows, i := BlockRows(b, Trace), Offset(TxRowGroups(b, Trace), t) + j;
      && AllOfFamily(rows, Trace) && i < |rows|
      && AncestorStatus.FlagAt(Traces(rows), i) == AncestorStatus.FlagAt(b.txs[t].traces, j)
  {
    hide AncestorStatus.FlagAt, AncestorStatus.Grouped;
    FlatTraces(b, |b.txs|);
    TraceFlag(b, t, j);
    SameShape(TxRowGroups(b, Trace), TraceGroups(b), t);
  }

  lemma TagInTx(c: Codec, b: Block, f: Family, t: nat, j: nat)
    requires Indexable(c, b) && AncestorStatus.Grouped(TraceGroups(b)) && f != BlockHeader && t < |b.txs|
    requires j < |TxRows(b.txs[t], f)|
    ensures var i := Offset(TxRowGroups(b, f), t) + j;
      && i < |BlockRows(b, f)| && AllOfFamily(BlockRows(b, f), f)
      && TagOf(c, f, BlockRows(b, f), i) == Some(BlockTags(c, b, f)[i])
  {
    hide TxFilters, LogFilters, TraceFilters, AncestorStatus.FlagAt, AncestorStatus.Grouped, BlockRows, BlockTags,
      Offset, AllOfFamily;
    RowsOfFamily(b, f);
    RowInTx(c, b, f, t, j);
    if f.Trace? {
      TraceFlagInBlock(b, t, j);
    }
  }

  lemma TagsOfBlock(c: Codec, b: Block, f: Family, i: nat)
    requires Indexable(c, b) && AncestorStatus.Grouped(TraceGroups(b)) && i < |BlockRows(b, f)|
    ensures AllOfFamily(BlockRows(b, f), f) && TagOf(c, f, BlockRows(b, f), i) == Some(BlockTags(c, b, f)[i])
  {
    hide TxRows, TxTags, HeaderFilters, TagOf, Indexable, AncestorStatus.Grouped;
    RowsOfFamily(b, f);
    if f != BlockHeader {
      var t := Locate(TxRowGroups(b, f), i, |b.txs|);
      OffsetStep(TxRowGroups(b, f), t);
      TagInTx(c, b, f, t, i - Offset(TxRowGroups(b, f), t));
    } else {
      HeaderTag(c, b);
    }
  }

  lemma HeaderTag(c: Codec, b: Block)
    ensures AllOfFamily(BlockRows(b, BlockHeader), BlockHeader)
    ensures TagOf(c, BlockHeader, BlockRows(b, BlockHeader), 0) == Some(BlockTags(c, b, BlockHeader)[0])
  {
  }

  // ---- a committed block reads back ----

  /** The first header of an index that does not begin at a partition start cannot be read. */
  predicate Readable(ch: Chain, f: Family, i: nat) {
    f.BlockHeader? && i == 0 ==> Payload.PartStart(ch.start) == ch.start
  }

  function RangeAtBlock(ch: Chain, f: Family, i: nat): Range
    requires i < |ch.blocks|
  {
    Range(Front(ch, f, i), |BlockRows(ch.blocks[i], f)|)
  }

  lemma ReadableIds(ch: Chain, f: Family, i: nat, j: nat)
    requires i < |ch.blocks| && j < |BlockRows(ch.blocks[i], f)|
    ensures var id := Front(ch, f, i) + j;
      (id == Base(ch, f) && id != Payload.PartStart(id)) <==> !Readable(ch, f, i)
  {
    if f.BlockHeader? {
      HeaderFront(ch, i);
    }
  }

  lemma OneItem(c: Codec, ch: Chain, db: Durable, f: Family, i: nat, j: nat)
    requires c.Lawful() && i < |ch.blocks| && BlockCommitted(c, ch, db, f, i) && j < |BlockRows(ch.blocks[i], f)|
    ensures ItemAt(c, db, f, RangeAtBlock(ch, f, i), j)
      == if Readable(ch, f, i) then Some(BlockRows(ch.blocks[i], f)[j]) else None
  {
    hide BlockRows, Front, ReadRow, BitSet, Readable, Base, Payload.PartStart;
    assert RowCommitted(c, ch, db, f, i, j);
    ReadableIds(ch, f, i, j);
    RowsOfFamily(ch.blocks[i], f);
  }

  lemma BlockReads(c: Codec, ch: Chain, db: Durable, f: Family, i: nat)
    requires c.Lawful() && i < |ch.blocks| && BlockCommitted(c, ch, db, f, i) && Readable(ch, f, i)
    ensures var r := RangeAtBlock(ch, f, i);
      RowsRead(c, db, f, r) && Items(c, db, f, r) == BlockRows(ch.blocks[i], f)
  {
    hide BlockRows, BlockCommitted, Readable, ItemAt, Front, Codec.Lawful;
    forall j | 0 <= j < |BlockRows(ch.blocks[i], f)|
      ensures ItemAt(c, db, f, RangeAtBlock(ch, f, i), j) == Some(BlockRows(ch.blocks[i], f)[j])
    {
      OneItem(c, ch, db, f, i, j);
    }
  }

  /** A committed bit has its page and its statistics. */
  lemma BitHeld(t: Bitmap.Tags, pages: Bitmap.Pages, stats: Bitmap.Stats, m: nat, a: nat, id: nat, flt: Filter)
    requires Bitmap.BitmapInv(t, pages, stats, m, a) && t.base <= id < m && flt in t.filters[id - t.base]
    ensures BitThere(pages, stats, id, flt)
  {
    var k := Bitmap.PageKey(flt, Bitmap.PageOf(id));
    assert t.InPage(k, t.base, m, id - k.page);
    assert id - k.page in t.Bits(k, t.base, m);
  }

  lemma RowHeld(c: Codec, ch: Chain, l: Layout, db: Durable, f: Family, m: nat, a: nat, i: nat, j: nat)
    requires Agrees(c, ch, l) && FamilyInv(l, db, f, m, a) && i < m && j < |BlockRows(ch.blocks[i], f)|
    ensures BitsThere(db.pages.At(f), db.stats.At(f), Front(ch, f, i) + j, BlockTags(c, ch.blocks[i], f)[j])
  {
    hide BlockRows, BlockTags, RowsOf, TagsOf, Front, Base, Bitmap.BitmapInv, MetadataPart, PayloadPart,
      Layout.WfFamily, BitThere;
    assert AgreesFamily(c, ch, l, f);
    StreamRow(c, ch, f, i, j);
    StreamBases(c, ch, f);
    FrontsAgree(c, ch, l, f, m);
    FrontMono(c, ch, f, i + 1, m);
    FrontMono(c, ch, f, 0, i);
    var id, tags := Front(ch, f, i) + j, BlockTags(c, ch.blocks[i], f)[j];
    forall n | 0 <= n < |tags| ensures BitThere(db.pages.At(f), db.stats.At(f), id, tags[n]) {
      BitHeld(l.tags.At(f), db.pages.At(f), db.stats.At(f), l.Front(f, m), l.Front(f, a), id, tags[n]);
    }
  }

  lemma RowsHeld(c: Codec, ch: Chain, l: Layout, db: Durable, f: Family, m: nat, a: nat, i: nat)
    requires Agrees(c, ch, l) && FamilyInv(l, db, f, m, a) && i < m && i < |ch.blocks|
    requires Indexable(c, ch.blocks[i]) && AncestorStatus.Grouped(TraceGroups(ch.blocks[i]))
    ensures AllOfFamily(BlockRows(ch.blocks[i], f), f)
    ensures AllIndexed(c, db, f, BlockRows(ch.blocks[i], f), Front(ch, f, i))
  {
    hide BlockRows, BlockTags, Front, FamilyInv, AncestorStatus.Grouped, Indexable, Agrees, BitsThere, TagOf,
      AllOfFamily;
    var rows := BlockRows(ch.blocks[i], f);
    RowsOfFamily(ch.blocks[i], f);
    forall j | 0 <= j < |rows| ensures RowIndexed(c, db, f, rows, Front(ch, f, i), j) {
      TagsOfBlock(c, ch.blocks[i], f, j);
      RowHeld(c, ch, l, db, f, m, a, i, j);
    }
  }

  // ---- one block passes ----

  lemma HeaderPasses(c: Codec, ch: Chain, db: Durable, i: nat)
    requires ch.Linked(c) && i < |ch.blocks| && BlockCommitted(c, ch, db, BlockHeader, i)
    ensures ch.start + i in db.hashes
    ensures forall j :: 0 <= j < |BlockRows(ch.blocks[i], BlockHeader)| ==>
      HeaderMatches(c, db, ch.start + i, BlockRows(ch.blocks[i], BlockHeader)[j])
  {
  }

  lemma PayloadPasses(c: Codec, ch: Chain, l: Layout, db: Durable, f: Family, m: nat, a: nat, i: nat)
    requires ch.Linked(c) && c.Lawful() && Agrees(c, ch, l) && FamilyInv(l, db, f, m, a) && i < m && i < |ch.blocks|
    requires BlockCommitted(c, ch, db, f, i) && Indexable(c, ch.blocks[i])
    requires AncestorStatus.Grouped(TraceGroups(ch.blocks[i]))
    requires Readable(ch, f, i)
    ensures PayloadValid(c, db, ch.start + i, f, RangeAtBlock(ch, f, i))
  {
    hide BlockRows, BlockTags, Front, FamilyInv, AncestorStatus.Grouped, Indexable, Agrees, AllIndexed, BlockCommitted,
      Readable, AllOfFamily, Codec.Lawful, Chain.Linked, RowsRead;
    BlockReads(c, ch, db, f, i);
    RowsHeld(c, ch, l, db, f, m, a, i);
    if f.BlockHeader? {
      HeaderPasses(c, ch, db, i);
    }
  }

  lemma PrevEndIs(c: Codec, ch: Chain, l: Layout, db: Durable, f: Family, m: nat, a: nat, i: nat)
    requires Agrees(c, ch, l) && FamilyInv(l, db, f, m, a) && i <= m
    ensures i <= |ch.blocks| && PrevEnd(db, ch.start + i, f) == if i == 0 then None else Some(Front(ch, f, i))
  {
    hide BlockRows, RowsOf, TagsOf, Front, PayloadPart, BitmapPart, IndexInv, Layout.Front, Layout.WfFamily,
      Layout.Ranges, AgreesFamily;
    if i > 0 {
      FamilyRange(c, ch, l, db, f, m, a, i - 1);
      FrontStep(ch, f, i - 1);
    }
  }

  lemma IndexPasses(c: Codec, ch: Chain, l: Layout, db: Durable, f: Family, m: nat, a: nat, i: nat)
    requires Agrees(c, ch, l) && FamilyInv(l, db, f, m, a) && i < m && i < |ch.blocks|
    requires |BlockRows(ch.blocks[i], f)| > 0
    ensures IndexFinds(db.index.At(f), Front(ch, f, i), ch.start + i)
  {
    hide BlockRows, RowsOf, TagsOf, Front, PayloadPart, BitmapPart, Layout.Front, Layout.WfFamily, AgreesFamily, Finds;
    assert AgreesFamily(c, ch, l, f);
    RangeAt(c, ch, l, f, i);
    FrontsAgree(c, ch, l, f, i);
    FrontStep(ch, f, i);
    assert l.Ranges(f)[i].first in db.index.At(f);
    FoundIndex(c, ch, l, db, f, m, a, i);
  }

  lemma FoundIndex(c: Codec, ch: Chain, l: Layout, db: Durable, f: Family, m: nat, a: nat, i: nat)
    requires Agrees(c, ch, l) && FamilyInv(l, db, f, m, a) && i < m && i < |ch.blocks|
    requires Front(ch, f, i) < Front(ch, f, i + 1)
    requires Front(ch, f, i) in db.index.At(f)
    ensures IndexFinds(db.index.At(f), Front(ch, f, i), ch.start + i)
  {
    hide Front, FamilyInv, Agrees;
    FamilyLookup(c, ch, l, db, f, m, a, i, Front(ch, f, i), Some(Front(ch, f, i)));
  }

  lemma FamilyPasses(c: Codec, ch: Chain, l: Layout, db: Durable, f: Family, m: nat, a: nat, i: nat)
    requires ch.Linked(c) && c.Lawful() && Agrees(c, ch, l) && FamilyInv(l, db, f, m, a) && i < m && i < |ch.blocks|
    requires BlockCommitted(c, ch, db, f, i) && Indexable(c, ch.blocks[i])
    requires AncestorStatus.Grouped(TraceGroups(ch.blocks[i]))
    ensures FamilyValid(c, db, ch.start + i, f) <==> Readable(ch, f, i)
  {
    hide BlockRows, BlockTags, Front, FamilyInv, AncestorStatus.Grouped, Indexable, Agrees, PayloadValid, RowCommitted,
      Readable, Codec.Lawful, Chain.Linked, IndexFinds, PrevEnd, SeekLe;
    PrevEndIs(c, ch, l, db, f, m, a, i);
    if |BlockRows(ch.blocks[i], f)| > 0 {
      IndexPasses(c, ch, l, db, f, m, a, i);
    }
    if Readable(ch, f, i) {
      PayloadPasses(c, ch, l, db, f, m, a, i);
    } else {
      HeaderUnread(c, ch, db, f, i);
    }
  }

  lemma HeaderUnread(c: Codec, ch: Chain, db: Durable, f: Family, i: nat)
    requires c.Lawful() && i < |ch.blocks| && BlockCommitted(c, ch, db, f, i) && !Readable(ch, f, i)
    ensures !PayloadValid(c, db, ch.start + i, f, RangeAtBlock(ch, f, i))
  {
    hide Front, BlockCommitted, Codec.Lawful, ItemAt;
    OneItem(c, ch, db, f, i, 0);
    assert ItemAt(c, db, f, RangeAtBlock(ch, f, i), 0).None?;
  }

  lemma BlockPasses(c: Codec, ch: Chain, l: Layout, db: Durable, m: nat, a: nat, i: nat)
    requires ch.Linked(c) && c.Lawful() && Indexes(c, ch) && TracesNumbered(ch) && Agrees(c, ch, l)
    requires DbInv(l, db, m, a) && i < m
    ensures BlockValid(c, db, ch.start + i) <==> Readable(ch, BlockHeader, i)
  {
    hide FamilyInv, AncestorStatus.Grouped, Indexable, BlockCommitted, Codec.Lawful, Chain.Linked, FamilyValid,
      AgreesFamily, Layout.WfFamily;
    var b := ch.start + i;
    assert b in db.hashes;
    forall f ensures FamilyValid(c, db, b, f) <==> Readable(ch, f, i) {
      assert FamilyInv(l, db, f, m, a);
      DbBlock(c, ch, l, db, m, a, i, f);
      FamilyPasses(c, ch, l, db, f, m, a, i);
    }
    assert FamilyValid(c, db, b, BlockHeader) <==> Readable(ch, BlockHeader, i);
  }

  // ---- pages are exact ----

  lemma OneBlockTags(c: Codec, ch: Chain, f: Family, i: nat)
    requires i < |ch.blocks|
    ensures Base(ch, f) == TagsOf(c, ch, f).base <= Front(ch, f, i) <= Front(ch, f, i + 1) <= TagsOf(c, ch, f).End()
    ensures Bitmap.Tags(Front(ch, f, i), BlockTags(c, ch.blocks[i], f))
      == Bitmap.Slice(TagsOf(c, ch, f), Front(ch, f, i), Front(ch, f, i + 1))
  {
    hide BlockTags, TagsOf, Front, Base;
    StreamBases(c, ch, f);
    BatchTags(c, ch, f, i, i + 1);
    var one := ch.blocks[i..i + 1];
    assert Flatten(TagGroups(c, one, f)) == BlockTags(c, ch.blocks[i], f) by { OnlyOne(TagGroups(c, one, f)); }
  }

  lemma OnlyOne<T>(xss: seq<seq<T>>)
    requires |xss| == 1
    ensures Flatten(xss) == xss[0]
  {
    assert Flat(xss, 0, 1) == Flat(xss, 0, 0) + xss[0];
  }

  lemma BlockTagsRead(c: Codec, ch: Chain, db: Durable, f: Family, i: nat)
    requires c.Lawful() && i < |ch.blocks| && BlockCommitted(c, ch, db, f, i) && Readable(ch, f, i)
    requires Indexable(c, ch.blocks[i]) && AncestorStatus.Grouped(TraceGroups(ch.blocks[i]))
    ensures ReadTags(c, db, f, RangeAtBlock(ch, f, i)) == Bitmap.Tags(Front(ch, f, i), BlockTags(c, ch.blocks[i], f))
  {
    hide BlockRows, BlockTags, BlockCommitted, Readable, Front, AncestorStatus.Grouped, Indexable, TagOf, AllOfFamily,
      Codec.Lawful, RowsRead;
    BlockReads(c, ch, db, f, i);
    var rows := BlockRows(ch.blocks[i], f);
    RowsOfFamily(ch.blocks[i], f);
    forall j | 0 <= j < |rows| ensures TagOf(c, f, rows, j) == Some(BlockTags(c, ch.blocks[i], f)[j]) {
      TagsOfBlock(c, ch.blocks[i], f, j);
    }
    assert ItemTags(c, f, rows, Front(ch, f, i)).filters == BlockTags(c, ch.blocks[i], f);
  }

  lemma BlockBitsAre(c: Codec, ch: Chain, db: Durable, f: Family, i: nat, k: Bitmap.PageKey)
    requires c.Lawful() && i < |ch.blocks| && BlockCommitted(c, ch, db, f, i) && Readable(ch, f, i)
    requires Indexable(c, ch.blocks[i]) && AncestorStatus.Grouped(TraceGroups(ch.blocks[i]))
    ensures BlockBits(c, db, f, ch.start + i, k) == TagsOf(c, ch, f).Bits(k, Front(ch, f, i), Front(ch, f, i + 1))
  {
    hide BlockRows, BlockTags, Readable, Front, AncestorStatus.Grouped, Indexable, Codec.Lawful, ReadTags, TagsOf,
      Bitmap.Tags.Bits, Base, RowCommitted, SeekLe, Finds;
    BlockTagsRead(c, ch, db, f, i);
    OneBlockTags(c, ch, f, i);
    Bitmap.SliceBits(TagsOf(c, ch, f), Front(ch, f, i), Front(ch, f, i + 1), k);
  }

  ghost predicate Sound(c: Codec, ch: Chain, db: Durable, f: Family, m: nat) {
    m <= |ch.blocks| && forall i :: 0 <= i < m ==> BlockCommitted(c, ch, db, f, i) && Readable(ch, f, i)
  }

  lemma {:induction false} ExpectIs(c: Codec, ch: Chain, db: Durable, f: Family, m: nat, n: nat, k: Bitmap.PageKey)
    requires c.Lawful() && Indexes(c, ch) && TracesNumbered(ch) && Sound(c, ch, db, f, m) && n <= m
    ensures Expect(c, db, f, ch.start, ch.start + n, k) == TagsOf(c, ch, f).Bits(k, Base(ch, f), Front(ch, f, n))
  {
    hide BlockCommitted, Readable, Front, AncestorStatus.Grouped, Indexable, Codec.Lawful, TagsOf, Bitmap.Tags.Bits,
      Base, BlockBits;
    if n == 0 {
      FrontZero(ch, f);
      assert TagsOf(c, ch, f).Bits(k, Base(ch, f), Base(ch, f)) == {} by { NoBits(TagsOf(c, ch, f), k, Base(ch, f)); }
    } else {
      ExpectIs(c, ch, db, f, m, n - 1, k);
      BlockBitsAre(c, ch, db, f, n - 1, k);
      FrontMono(c, ch, f, n - 1, n);
      Bitmap.BitsSplit(TagsOf(c, ch, f), k, Base(ch, f), Front(ch, f, n - 1), Front(ch, f, n));
    }
  }

  lemma NoBits(t: Bitmap.Tags, k: Bitmap.PageKey, id: nat)
    ensures t.Bits(k, id, id) == {}
  {
  }

  /** No page that holds a committed bit holds one at or above the frontier m. */
  ghost predicate NoStale(t: Bitmap.Tags, pages: Bitmap.Pages, m: nat) {
    forall k :: k in pages && t.Bits(k, t.base, m) != {} ==> Below(k, pages[k], m)
  }

  ghost predicate Below(k: Bitmap.PageKey, bits: set<nat>, m: nat) {
    forall o :: o in bits ==> k.page + o < m
  }

  ghost predicate NoStaleBits(l: Layout, db: Durable, m: nat) {
    forall f :: m <= |l.counts.At(f)| && NoStale(l.tags.At(f), db.pages.At(f), l.Front(f, m))
  }

  /** A page of committed rows is exact iff it holds nothing at or above the frontier. */
  lemma PageIff(t: Bitmap.Tags, pages: Bitmap.Pages, stats: Bitmap.Stats, m: nat, a: nat, k: Bitmap.PageKey)
    requires Bitmap.BitmapInv(t, pages, stats, m, a) && t.Bits(k, t.base, m) != {}
    ensures k in pages && (pages[k] == t.Bits(k, t.base, m) <==> Below(k, pages[k], m))
  {
    if Below(k, pages[k], m) {
      forall o | o in pages[k] ensures o in t.Bits(k, t.base, m) { assert o in t.Bits(k, t.base, a); }
    }
  }

  /** Which bits the validator calls for, family by family. */
  lemma Expected(c: Codec, ch: Chain, l: Layout, db: Durable, f: Family, m: nat, a: nat, k: Bitmap.PageKey)
    requires c.Lawful() && Indexes(c, ch) && TracesNumbered(ch) && Agrees(c, ch, l) && DbInv(l, db, m, a)
    requires Readable(ch, BlockHeader, 0)
    ensures l.WfFamily(f) && m <= l.Size()
    ensures Expect(c, db, f, ch.start, ch.start + m, k) == l.tags.At(f).Bits(k, l.tags.At(f).base, l.Front(f, m))
  {
    hide FamilyInv, Codec.Lawful, BlockCommitted, Bitmap.Tags.Bits, Expect, Front, Base, TagsOf, RowsOf, BlockRows,
      Layout.Front, Layout.WfFamily, HashesInv, StateRow, Indexable, AncestorStatus.Grouped;
    assert AgreesFamily(c, ch, l, f);
    forall i | 0 <= i < m ensures BlockCommitted(c, ch, db, f, i) && Readable(ch, f, i) {
      DbBlock(c, ch, l, db, m, a, i, f);
    }
    ExpectIs(c, ch, db, f, m, m, k);
    FrontsAgree(c, ch, l, f, m);
    StreamBases(c, ch, f);
  }

  lemma FamilyPages(c: Codec, ch: Chain, l: Layout, db: Durable, f: Family, m: nat, a: nat)
    requires c.Lawful() && Indexes(c, ch) && TracesNumbered(ch) && Agrees(c, ch, l) && DbInv(l, db, m, a)
    requires Readable(ch, BlockHeader, 0)
    ensures m <= |l.counts.At(f)|
    ensures NoStale(l.tags.At(f), db.pages.At(f), l.Front(f, m)) <==> FamilyExact(c, db, f, ch.start, ch.start + m)
  {
    hide Codec.Lawful, Indexes, TracesNumbered, Agrees, Readable, PayloadPart, MetadataPart, HashesInv, StateRow,
      Layout.Front, Bitmap.BitmapInv, Bitmap.Tags.Bits, Expect, Below;
    assert FamilyInv(l, db, f, m, a);
    var t, pages, n, e := l.tags.At(f), db.pages.At(f), l.Front(f, m), ch.start + m;
    forall k ensures PageExact(c, db, f, ch.start, e, k) <==>
      (t.Bits(k, t.base, n) != {} ==> k in pages && Below(k, pages[k], n)) {
      Expected(c, ch, l, db, f, m, a, k);
      if t.Bits(k, t.base, n) != {} {
        PageIff(t, pages, db.stats.At(f), n, l.Front(f, a), k);
      }
    }
    forall k | t.Bits(k, t.base, n) != {} ensures k in pages { PageIff(t, pages, db.stats.At(f), n, l.Front(f, a), k); }
  }

  /** Over the full range the exact comparison passes iff no failed flush left a bit in a page of committed rows. */
  lemma PagesIff(c: Codec, ch: Chain, l: Layout, db: Durable, m: nat, a: nat)
    requires c.Lawful() && Indexes(c, ch) && TracesNumbered(ch) && Agrees(c, ch, l) && DbInv(l, db, m, a)
    requires Readable(ch, BlockHeader, 0)
    ensures PagesExact(c, db, ch.start, ch.start + m) <==> NoStaleBits(l, db, m)
  {
    hide Codec.Lawful, Indexes, TracesNumbered, Agrees, Readable, DbInv, NoStale, FamilyExact, Layout.Front;
    var e := ch.start + m;
    forall f
      ensures m <= |l.counts.At(f)|
      ensures NoStale(l.tags.At(f), db.pages.At(f), l.Front(f, m)) <==> FamilyExact(c, db, f, ch.start, e)
    {
      FamilyPages(c, ch, l, db, f, m, a);
    }
  }

  lemma NoStaleWhenCovered(l: Layout, db: Durable, m: nat)
    requires DbInv(l, db, m, m)
    ensures NoStaleBits(l, db, m)
  {
    hide PayloadPart, MetadataPart, Layout.Front, HashesInv, StateRow;
    forall f ensures m <= |l.counts.At(f)| && NoStale(l.tags.At(f), db.pages.At(f), l.Front(f, m)) {
      assert FamilyInv(l, db, f, m, m) && l.WfFamily(f);
    }
  }

  // ---- the theorem ----

  lemma FrontiersPass(c: Codec, ch: Chain, l: Layout, db: Durable, m: nat, a: nat)
    requires Agrees(c, ch, l) && DbInv(l, db, m, a) && 0 < m
    ensures db.state.Some? && LastBlock(db.state.value) == Some(ch.start + m - 1)
    ensures db.state.value.indexedStart == Some(ch.start)
    ensures FrontiersAgree(db, db.state.value, ch.start + m)
  {
    hide FamilyInv, Front, Layout.Front, Layout.WfFamily, HashesInv, AgreesFamily, PrevEnd;
    forall f ensures m <= |l.counts.At(f)| && PrevEnd(db, ch.start + m, f) == Some(l.Front(f, m)) {
      assert FamilyInv(l, db, f, m, a);
      PrevEndIs(c, ch, l, db, f, m, a, m);
      CountersAgree(c, ch, l, f, m);
    }
  }

  predicate Aligned(ch: Chain) { Payload.PartStart(ch.start) == ch.start }

  /**
   * The tables of a reachable state pass over a range of committed blocks if and only if the range does
   * not begin with the header of a start block that is not a partition start and, when it is the full
   * range, no failed flush left a bit at or above the frontier in a page of committed rows.
   */
  lemma PassesIff(c: Codec, ch: Chain, l: Layout, db: Durable, m: nat, a: nat, s: nat, e: nat)
    requires ch.Linked(c) && c.Lawful() && Indexes(c, ch) && TracesNumbered(ch) && Agrees(c, ch, l)
    requires DbInv(l, db, m, a)
    requires ch.start <= s < e <= ch.start + m
    ensures db.state.Some?
    ensures Passes(c, db, db.state.value, s, e) <==>
      (s > ch.start || Aligned(ch)) && (s == ch.start && e == ch.start + m ==> NoStaleBits(l, db, m))
  {
    hide DbInv, Agrees, Codec.Lawful, Chain.Linked, Indexes, TracesNumbered, BlockValid, FrontiersAgree, PagesExact,
      Payload.PartStart, NoStaleBits;
    FrontiersPass(c, ch, l, db, m, a);
    if s > ch.start || Aligned(ch) {
      forall b: nat | s <= b < e ensures BlockValid(c, db, b) { BlockPasses(c, ch, l, db, m, a, b - ch.start); }
      if s == ch.start {
        PagesIff(c, ch, l, db, m, a);
      }
    } else {
      BlockPasses(c, ch, l, db, m, a, 0);
      assert !BlockValid(c, db, s);
    }
  }

  /** So for every run, whatever failed in it ... */
  lemma EveryRunPassesIff(c: Codec, ch: Chain, ops: seq<Op>, s: nat, e: nat)
    requires ch.Linked(c) && c.Lawful() && Indexes(c, ch) && TracesNumbered(ch)
    requires forall i :: 0 <= i < |ops| ==> OpOk(ch, ops[i])
    requires ch.start <= s < e <= ch.start + Persisted(ch, Run(c, EMPTY_WORLD, ops, |ops|).db)
    ensures var db := Run(c, EMPTY_WORLD, ops, |ops|).db; var m := Persisted(ch, db);
      && db.state.Some?
      && (Passes(c, db, db.state.value, s, e) <==>
            (s > ch.start || Aligned(ch))
              && (s == ch.start && e == ch.start + m ==> NoStaleBits(LayoutOf(c, ch), db, m)))
  {
    hide DbInv, WriterInv, Run, LayoutOf, Agrees, OpOk, Persisted, Attempted, Passes, Codec.Lawful, Chain.Linked,
      Indexes, TracesNumbered, Payload.PartStart, NoStaleBits;
    RunKeeps(c, ch, ops, |ops|);
    LayoutAgrees(c, ch);
    var w := Run(c, EMPTY_WORLD, ops, |ops|);
    PassesIff(c, ch, LayoutOf(c, ch), w.db, Persisted(ch, w.db), Attempted(ch, w), s, e);
  }

  /** ... and with the frontier covering all that was attempted, only the alignment counts ... */
  lemma RecoveredIndexPasses(c: Codec, ch: Chain, ops: seq<Op>, s: nat, e: nat)
    requires ch.Linked(c) && c.Lawful() && Indexes(c, ch) && TracesNumbered(ch)
    requires forall i :: 0 <= i < |ops| ==> OpOk(ch, ops[i])
    requires var w := Run(c, EMPTY_WORLD, ops, |ops|);
      Attempted(ch, w) == Persisted(ch, w.db) && ch.start <= s < e <= ch.start + Persisted(ch, w.db)
    ensures var db := Run(c, EMPTY_WORLD, ops, |ops|).db;
      db.state.Some? && (Passes(c, db, db.state.value, s, e) <==> s > ch.start || Aligned(ch))
  {
    hide DbInv, WriterInv, Run, LayoutOf, Agrees, OpOk, Persisted, Attempted, Passes, Codec.Lawful, Chain.Linked,
      Indexes, TracesNumbered, Payload.PartStart, NoStaleBits;
    RunKeeps(c, ch, ops, |ops|);
    var w := Run(c, EMPTY_WORLD, ops, |ops|);
    NoStaleWhenCovered(LayoutOf(c, ch), w.db, Persisted(ch, w.db));
    EveryRunPassesIff(c, ch, ops, s, e);
  }

  /** ... so for every failure-free run. */
  lemma FailureFreeIndexPasses(c: Codec, ch: Chain, ops: seq<Op>, s: nat, e: nat)
    requires ch.Linked(c) && c.Lawful() && Indexes(c, ch) && TracesNumbered(ch)
    requires forall i :: 0 <= i < |ops| ==> OpOk(ch, ops[i]) && NoFault(ops[i])
    requires ch.start <= s < e <= ch.start + Persisted(ch, Run(c, EMPTY_WORLD, ops, |ops|).db)
    ensures var db := Run(c, EMPTY_WORLD, ops, |ops|).db;
      db.state.Some? && (Passes(c, db, db.state.value, s, e) <==> s > ch.start || Aligned(ch))
  {
    hide Run, OpOk, Persisted, Attempted, Passes, Codec.Lawful, Chain.Linked, Indexes, TracesNumbered,
      Payload.PartStart;
    CleanRun(c, ch, ops, |ops|);
    RecoveredIndexPasses(c, ch, ops, s, e);
  }
}
