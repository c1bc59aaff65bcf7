/** What a passed validation guarantees about the tables, whatever wrote them (validate/mod.rs). */
module Soundness {
  import opened Seqs
  import opened Schema
  import opened Metadata
  import opened IndexState
  import opened Reads
  import opened RowMeaning
  import opened Validation
  import AncestorStatus
  import Bitmap

  // ---- rows, as a reader sees them ----

  /** Row id read through its locations and decoded as a record of family f. */
  function Decoded(c: Codec, db: Durable, f: Family, id: nat): Option<Item> {
    var bytes := ReadRow(db.blobs.At(f), db.locs.At(f), id);
    if bytes.None? then None else
      var item := c.decode(f, bytes.value);
      if item.Some? && Schema.FamilyOf(item.value) == f then item else None
  }

  /** `traces` are the decoded traces of a block. */
  ghost predicate TracesOf(c: Codec, db: Durable, r: Range, traces: seq<StoredTrace>) {
    |traces| == r.count && forall k :: 0 <= k < r.count ==>
      Decoded(c, db, Trace, r.first + k) == Some(TraceItem(traces[k]))
  }

  /** Row j of a block's range calls for filter flt. */
  ghost predicate Wanted(c: Codec, db: Durable, f: Family, r: Range, j: nat, flt: Filter) {
    match Decoded(c, db, f, r.first + j)
    case None => false
    case Some(HeaderItem(h)) => HeaderWants(h, flt)
    case Some(TxItem(t)) => TxWants(c, t, flt)
    case Some(LogItem(t)) => LogWants(t, flt)
    case Some(TraceItem(t)) => exists traces ::
      TracesOf(c, db, r, traces) && j < r.count && TraceWants(t, AncestorStatus.FlagAt(traces, j), flt)
  }

  ghost predicate RowSound(c: Codec, db: Durable, b: nat, f: Family, r: Range, j: nat) {
    && Decoded(c, db, f, r.first + j).Some?
    && (f.BlockHeader? ==>
          var h := Decoded(c, db, f, r.first + j).value.header;
          h.number == b && b in db.hashes && db.hashes[b] == c.hash(h))
    && (f.Transaction? ==> c.envelope(Decoded(c, db, f, r.first + j).value.tx.signedTx).Some?)
    && forall flt :: Wanted(c, db, f, r, j, flt) ==> BitSet(db.pages.At(f), flt, r.first + j)
  }

  /** Block b of family f, in terms of reads alone. */
  ghost predicate BlockSound(c: Codec, db: Durable, b: nat, f: Family) {
    && b in db.hashes && b in db.ranges.At(f)
    && var r := db.ranges.At(f)[b];
       && (b > 0 && b - 1 in db.ranges.At(f) ==> db.ranges.At(f)[b - 1].End() == r.first)
       && (r.count > 0 ==> forall key :: SeekLe(db.index.At(f), r.first, key) ==>
         key == Some(r.first) && Finds(db.index.At(f), key, b))
       && forall j :: 0 <= j < r.count ==> RowSound(c, db, b, f, r, j)
  }

  // ---- what the validator's own predicates mean ----

  lemma ItemIsDecoded(c: Codec, db: Durable, f: Family, r: Range, j: nat)
    ensures ItemAt(c, db, f, r, j) == Decoded(c, db, f, r.first + j)
  {
    hide ReadRow;
  }

  lemma DecodedItem(c: Codec, db: Durable, f: Family, r: Range, j: nat)
    requires RowsRead(c, db, f, r) && j < r.count
    ensures Decoded(c, db, f, r.first + j) == Some(Items(c, db, f, r)[j])
  {
    hide RowItem, Decoded;
    assert ItemAt(c, db, f, r, j).Some?;
    ItemIsDecoded(c, db, f, r, j);
  }

  lemma TracesAre(c: Codec, db: Durable, r: Range)
    requires RowsRead(c, db, Trace, r)
    ensures forall traces :: TracesOf(c, db, r, traces) <==> traces == Traces(Items(c, db, Trace, r))
  {
    hide Decoded, RowsRead;
    var items := Items(c, db, Trace, r);
    forall k | 0 <= k < r.count ensures Decoded(c, db, Trace, r.first + k) == Some(items[k]) {
      DecodedItem(c, db, Trace, r, k);
    }
    forall traces | TracesOf(c, db, r, traces) ensures traces == Traces(items) {
      forall k | 0 <= k < r.count ensures traces[k] == Traces(items)[k] {
        assert Decoded(c, db, Trace, r.first + k) == Some(items[k]);
        assert Decoded(c, db, Trace, r.first + k) == Some(TraceItem(traces[k]));
      }
    }
    forall k | 0 <= k < r.count ensures items[k] == TraceItem(Traces(items)[k]) {}
  }

  /** The filters the validator recomputes are the filters the row calls for. */
  lemma WantedIsTag(c: Codec, db: Durable, f: Family, r: Range, j: nat, flt: Filter)
    requires RowsRead(c, db, f, r) && j < r.count
    ensures var tag := TagOf(c, f, Items(c, db, f, r), j);
      Wanted(c, db, f, r, j, flt) <==> tag.Some? && flt in tag.value
  {
    hide Decoded, RowsRead, HeaderFilters, TxFilters, LogFilters, TraceFilters, HeaderWants, TxWants, LogWants,
      TraceWants, AncestorStatus.FlagAt, TracesOf;
    var items := Items(c, db, f, r);
    DecodedItem(c, db, f, r, j);
    match items[j]
    case HeaderItem(h) => HeaderFiltersSay(h, flt);
    case TxItem(t) => TxFiltersSay(c, t, flt);
    case LogItem(t) => LogFiltersSay(t, flt);
    case TraceItem(t) =>
      TracesAre(c, db, r);
      assert TracesOf(c, db, r, Traces(items));
      TraceFiltersSay(t, AncestorStatus.FlagAt(Traces(items), j), flt);
  }

  lemma ThereIsSet(pages: Bitmap.Pages, stats: Bitmap.Stats, id: nat, filters: seq<Filter>, flt: Filter)
    requires BitsThere(pages, stats, id, filters) && flt in filters
    ensures BitSet(pages, flt, id)
  {
    var i :| 0 <= i < |filters| && filters[i] == flt;
    assert BitThere(pages, stats, id, filters[i]);
  }

  lemma RowPassed(c: Codec, db: Durable, b: nat, f: Family, r: Range, j: nat)
    requires PayloadValid(c, db, b, f, r) && j < r.count
    ensures RowSound(c, db, b, f, r, j)
  {
    hide Decoded, RowsRead, TagOf, Wanted, BitsThere, BitSet, TxFilters;
    var items := Items(c, db, f, r);
    DecodedItem(c, db, f, r, j);
    assert RowIndexed(c, db, f, items, r.first, j);
    assert f.BlockHeader? ==> HeaderMatches(c, db, b, items[j]);
    EnvelopeDecodes(c, f, items, j);
    forall flt | Wanted(c, db, f, r, j, flt) ensures BitSet(db.pages.At(f), flt, r.first + j) {
      WantedIsTag(c, db, f, r, j, flt);
      ThereIsSet(db.pages.At(f), db.stats.At(f), r.first + j, TagOf(c, f, items, j).value, flt);
    }
  }

  lemma EnvelopeDecodes(c: Codec, f: Family, items: seq<Item>, j: nat)
    requires AllOfFamily(items, f) && j < |items| && TagOf(c, f, items, j).Some?
    ensures f.Transaction? ==> items[j].TxItem? && c.envelope(items[j].tx.signedTx).Some?
    ensures f.BlockHeader? ==> items[j].HeaderItem?
  {
    assert Schema.FamilyOf(items[j]) == f;
  }

  lemma IndexPassed(index: map<nat, nat>, first: nat, b: nat, key: Option<nat>)
    requires IndexFinds(index, first, b) && SeekLe(index, first, key)
    ensures key == Some(first) && Finds(index, key, b)
  {
  }

  // ---- the verdict ----

  /** A passed range: every block has its hash, its ranges follow on, resolve, decode, match and are fully indexed. */
  lemma PassedBlock(c: Codec, db: Durable, state: StateIndex, s: nat, e: nat, b: nat, f: Family)
    requires Passes(c, db, state, s, e) && s <= b < e
    ensures BlockSound(c, db, b, f)
  {
    hide PayloadValid, RowSound, SeekLe, IndexFinds, Finds, FrontiersAgree, PagesExact;
    assert BlockValid(c, db, b) && FamilyValid(c, db, b, f);
    var r := db.ranges.At(f)[b];
    forall j | 0 <= j < r.count ensures RowSound(c, db, b, f, r, j) { RowPassed(c, db, b, f, r, j); }
    if r.count > 0 {
      forall key | SeekLe(db.index.At(f), r.first, key) ensures key == Some(r.first) && Finds(db.index.At(f), key, b) {
        IndexPassed(db.index.At(f), r.first, b, key);
      }
    }
  }

  /** Inside a passed range the ranges of a family follow one another without gaps. */
  lemma PassedContiguous(c: Codec, db: Durable, state: StateIndex, s: nat, e: nat, b: nat, f: Family)
    requires Passes(c, db, state, s, e) && s < b < e
    ensures b in db.ranges.At(f) && b - 1 in db.ranges.At(f) && db.ranges.At(f)[b - 1].End() == db.ranges.At(f)[b].first
  {
    hide PayloadValid, RowSound, SeekLe, Finds, Passes;
    PassedBlock(c, db, state, s, e, b, f);
    PassedBlock(c, db, state, s, e, b - 1, f);
  }

  /** A passed range that ends at the last indexed block ends at the frontiers of the state row. */
  lemma PassedFrontiers(c: Codec, db: Durable, state: StateIndex, s: nat, e: nat)
    requires Passes(c, db, state, s, e) && s < e && LastBlock(state) == Some(e - 1)
    ensures e == state.nextBlock
    ensures forall f :: f != BlockHeader ==> e - 1 in db.ranges.At(f)
    ensures db.ranges.tx[e - 1].End() == state.nextTx && db.ranges.log[e - 1].End() == state.nextLog
    ensures db.ranges.trace[e - 1].End() == state.nextTrace
  {
    hide AllValid, PagesExact;
    assert db.ranges.At(Transaction) == db.ranges.tx && db.ranges.At(Log) == db.ranges.log;
    assert db.ranges.At(Trace) == db.ranges.trace;
  }

  /** The bits a block calls for in page k. */
  lemma BlockBitsSay(c: Codec, db: Durable, f: Family, b: nat, k: Bitmap.PageKey, o: nat)
    requires b in db.ranges.At(f) && RowsRead(c, db, f, db.ranges.At(f)[b])
    ensures var r := db.ranges.At(f)[b];
      o in BlockBits(c, db, f, b, k) <==>
        && o < Bitmap.PAGE_SPAN && k.page % Bitmap.PAGE_SPAN == 0 && r.first <= k.page + o < r.End()
        && Wanted(c, db, f, r, k.page + o - r.first, k.filter)
  {
    hide RowsRead, Wanted, TagOf, Items;
    var r, id := db.ranges.At(f)[b], k.page + o;
    var items := Items(c, db, f, r);
    var t := ItemTags(c, f, items, r.first);
    if r.first <= id < r.End() {
      WantedIsTag(c, db, f, r, id - r.first, k.filter);
    }
    assert o in t.Bits(k, t.base, t.End()) <==> o < Bitmap.PAGE_SPAN && t.InPage(k, t.base, t.End(), o);
  }

  lemma {:induction false} ExpectSays(c: Codec, db: Durable, f: Family, s: nat, e: nat, k: Bitmap.PageKey, o: nat)
    ensures o in Expect(c, db, f, s, e, k) <==> exists b :: s <= b < e && o in BlockBits(c, db, f, b, k)
    decreases e
  {
    hide BlockBits;
    if s < e {
      ExpectSays(c, db, f, s, e - 1, k, o);
      if o in Expect(c, db, f, s, e - 1, k) {
        var b :| s <= b < e - 1 && o in BlockBits(c, db, f, b, k);
      }
    }
  }

  /** Some row of blocks s..e with this id calls for the filter. */
  ghost predicate Called(c: Codec, db: Durable, f: Family, s: nat, e: nat, id: nat, flt: Filter) {
    exists b :: s <= b < e && CalledAt(c, db, f, b, id, flt)
  }

  ghost predicate CalledAt(c: Codec, db: Durable, f: Family, b: nat, id: nat, flt: Filter) {
    && b in db.ranges.At(f) && db.ranges.At(f)[b].first <= id < db.ranges.At(f)[b].End()
    && Wanted(c, db, f, db.ranges.At(f)[b], id - db.ranges.At(f)[b].first, flt)
  }

  lemma ExpectIsCalled(c: Codec, db: Durable, state: StateIndex, f: Family, s: nat, e: nat, id: nat, flt: Filter)
    requires Passes(c, db, state, s, e)
    ensures var k := Bitmap.PageKey(flt, Bitmap.PageOf(id));
      id - k.page in Expect(c, db, f, s, e, k) <==> Called(c, db, f, s, e, id, flt)
  {
    hide RowsRead, Wanted, BlockBits, Expect, Passes;
    var k := Bitmap.PageKey(flt, Bitmap.PageOf(id));
    var o := id - k.page;
    ExpectSays(c, db, f, s, e, k, o);
    forall b | s <= b < e ensures o in BlockBits(c, db, f, b, k) <==> CalledAt(c, db, f, b, id, flt) {
      RowsPassed(c, db, state, s, e, b, f);
      BlockBitsSay(c, db, f, b, k, o);
    }
  }

  lemma RowsPassed(c: Codec, db: Durable, state: StateIndex, s: nat, e: nat, b: nat, f: Family)
    requires Passes(c, db, state, s, e) && s <= b < e
    ensures b in db.ranges.At(f) && RowsRead(c, db, f, db.ranges.At(f)[b])
  {
    hide RowsRead, AllIndexed, IndexFinds, PagesExact, FrontiersAgree, Items;
    assert BlockValid(c, db, b) && FamilyValid(c, db, b, f);
  }

  /**
   * When the full range passes, a page that some row calls for holds nothing else: each of its bits is a
   * row of the range that calls for its filter.
   */
  lemma PassedExact(c: Codec, db: Durable, state: StateIndex, s: nat, e: nat, f: Family, flt: Filter, id: nat,
                    other: nat)
    requires Passes(c, db, state, s, e) && LastBlock(state) == Some(e - 1) && state.indexedStart == Some(s)
    requires Called(c, db, f, s, e, other, flt) && Bitmap.PageOf(other) == Bitmap.PageOf(id)
    ensures BitSet(db.pages.At(f), flt, id) <==> Called(c, db, f, s, e, id, flt)
  {
    hide AllValid, FrontiersAgree, Expect, Called, Bitmap.PageOf;
    var k := Bitmap.PageKey(flt, Bitmap.PageOf(id));
    ExpectIsCalled(c, db, state, f, s, e, id, flt);
    ExpectIsCalled(c, db, state, f, s, e, other, flt);
    assert FamilyExact(c, db, f, s, e) && PageExact(c, db, f, s, e, k);
  }
}
