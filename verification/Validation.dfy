/** What the validator accepts, said without its loops (validate/mod.rs). */
module Validation {
  import opened Seqs
  import opened Schema
  import opened Metadata
  import opened IndexState
  import Reads
  import Bitmap
  import AncestorStatus

  /** A stored row, found through its locations and decoded. */
  function RowItem(c: Codec, db: Durable, f: Family, id: nat): Option<Item> {
    var bytes :- Reads.ReadRow(db.blobs.At(f), db.locs.At(f), id);
    var item :- c.decode(f, bytes);
    if FamilyOf(item) == f then Some(item) else None
  }

  /** Row j of a block's range. */
  function ItemAt(c: Codec, db: Durable, f: Family, r: Range, j: nat): (item: Option<Item>)
    ensures item.Some? ==> FamilyOf(item.value) == f
  {
    RowItem(c, db, f, r.first + j)
  }

  ghost predicate RowsRead(c: Codec, db: Durable, f: Family, r: Range) {
    forall j :: 0 <= j < r.count ==> ItemAt(c, db, f, r, j).Some?
  }

  predicate AllOfFamily(items: seq<Item>, f: Family) {
    forall j :: 0 <= j < |items| ==> FamilyOf(items[j]) == f
  }

  ghost function Items(c: Codec, db: Durable, f: Family, r: Range): (items: seq<Item>)
    requires RowsRead(c, db, f, r)
    ensures |items| == r.count && AllOfFamily(items, f)
  {
    seq(r.count, j requires 0 <= j < r.count && RowsRead(c, db, f, r) => ItemAt(c, db, f, r, j).value)
  }

  function Traces(items: seq<Item>): (traces: seq<StoredTrace>)
    requires AllOfFamily(items, Trace)
    ensures |traces| == |items|
  {
    seq(|items|, j requires 0 <= j < |items| && AllOfFamily(items, Trace) =>
      match items[j]
      case TraceItem(t) => t)
  }

  /** The filters of item j of a block; a trace's depend on the traces before it. */
  function TagOf(c: Codec, f: Family, items: seq<Item>, j: nat): Option<seq<Filter>>
    requires AllOfFamily(items, f) && j < |items|
  {
    match items[j]
    case HeaderItem(h) => Some(HeaderFilters(h))
    case TxItem(t) => TxFilters(c, t)
    case LogItem(t) => Some(LogFilters(t))
    case TraceItem(t) => Some(TraceFilters(t, AncestorStatus.FlagAt(Traces(items), j)))
  }

  predicate BitThere(pages: Bitmap.Pages, stats: Bitmap.Stats, id: nat, flt: Filter) {
    var k := Bitmap.PageKey(flt, Bitmap.PageOf(id));
    k in pages && k in stats && id - k.page in pages[k]
  }

  predicate BitsThere(pages: Bitmap.Pages, stats: Bitmap.Stats, id: nat, filters: seq<Filter>) {
    forall i :: 0 <= i < |filters| ==> BitThere(pages, stats, id, filters[i])
  }

  predicate RowIndexed(c: Codec, db: Durable, f: Family, items: seq<Item>, first: nat, j: nat)
    requires AllOfFamily(items, f) && j < |items|
  {
    TagOf(c, f, items, j).Some? && BitsThere(db.pages.At(f), db.stats.At(f), first + j, TagOf(c, f, items, j).value)
  }

  predicate AllIndexed(c: Codec, db: Durable, f: Family, items: seq<Item>, first: nat)
    requires AllOfFamily(items, f)
  {
    forall j :: 0 <= j < |items| ==> RowIndexed(c, db, f, items, first, j)
  }

  predicate HeaderMatches(c: Codec, db: Durable, b: nat, item: Item) {
    item.HeaderItem? && b in db.hashes && item.header.number == b && c.hash(item.header) == db.hashes[b]
  }

  ghost predicate PayloadValid(c: Codec, db: Durable, b: nat, f: Family, r: Range) {
    && RowsRead(c, db, f, r)
    && var items := Items(c, db, f, r);
       && (f.BlockHeader? ==> b in db.hashes && forall j :: 0 <= j < |items| ==> HeaderMatches(c, db, b, items[j]))
       && AllIndexed(c, db, f, items, r.first)
  }

  /** Where the family's ids stand before block b, if the block before it is indexed. */
  function PrevEnd(db: Durable, b: nat, f: Family): Option<nat> {
    if b > 0 && b - 1 in db.ranges.At(f) then Some(db.ranges.At(f)[b - 1].End()) else None
  }

  predicate IndexFinds(index: map<nat, nat>, first: nat, b: nat) { first in index && index[first] == b }

  ghost predicate FamilyValid(c: Codec, db: Durable, b: nat, f: Family) {
    && b in db.ranges.At(f)
    && var r := db.ranges.At(f)[b];
       && (PrevEnd(db, b, f).Some? ==> PrevEnd(db, b, f).value == r.first)
       && (r.count > 0 ==> IndexFinds(db.index.At(f), r.first, b))
       && PayloadValid(c, db, b, f, r)
  }

  ghost predicate BlockValid(c: Codec, db: Durable, b: nat) {
    b in db.hashes && forall f :: FamilyValid(c, db, b, f)
  }

  // ---- the bits the rows of a range of blocks call for ----

  ghost function ReadTags(c: Codec, db: Durable, f: Family, r: Range): Bitmap.Tags {
    if RowsRead(c, db, f, r) then ItemTags(c, f, Items(c, db, f, r), r.first) else Bitmap.Tags(0, [])
  }

  function ItemTags(c: Codec, f: Family, items: seq<Item>, first: nat): Bitmap.Tags
    requires AllOfFamily(items, f)
  {
    Bitmap.Tags(first, seq(|items|, j requires 0 <= j < |items| && AllOfFamily(items, f) =>
      var tag := TagOf(c, f, items, j); if tag.Some? then tag.value else []))
  }

  ghost function BlockBits(c: Codec, db: Durable, f: Family, b: nat, k: Bitmap.PageKey): set<nat> {
    if b in db.ranges.At(f) then
      var t := ReadTags(c, db, f, db.ranges.At(f)[b]);
      t.Bits(k, t.base, t.End())
    else {}
  }

  /** What page k must hold for the rows of blocks s..e. */
  ghost function Expect(c: Codec, db: Durable, f: Family, s: nat, e: nat, k: Bitmap.PageKey): set<nat> {
    if e <= s then {} else Expect(c, db, f, s, e - 1, k) + BlockBits(c, db, f, e - 1, k)
  }

  ghost predicate PageExact(c: Codec, db: Durable, f: Family, s: nat, e: nat, k: Bitmap.PageKey) {
    Expect(c, db, f, s, e, k) != {} ==> k in db.pages.At(f) && db.pages.At(f)[k] == Expect(c, db, f, s, e, k)
  }

  ghost predicate FamilyExact(c: Codec, db: Durable, f: Family, s: nat, e: nat) {
    forall k :: PageExact(c, db, f, s, e, k)
  }

  ghost predicate PagesExact(c: Codec, db: Durable, s: nat, e: nat) {
    forall f :: FamilyExact(c, db, f, s, e)
  }

  // ---- the verdict ----

  function LastBlock(state: StateIndex): Option<nat> {
    if state.nextBlock > 0 && (state.indexedStart.None? || state.nextBlock - 1 >= state.indexedStart.value)
    then Some(state.nextBlock - 1) else None
  }

  ghost predicate AllValid(c: Codec, db: Durable, s: nat, e: nat) {
    forall b: nat :: s <= b < e ==> BlockValid(c, db, b)
  }

  predicate FrontiersAgree(db: Durable, state: StateIndex, e: nat) {
    && PrevEnd(db, e, Transaction) == Some(state.nextTx)
    && PrevEnd(db, e, Log) == Some(state.nextLog)
    && PrevEnd(db, e, Trace) == Some(state.nextTrace)
  }

  /** Blocks s up to but not including e pass. */
  ghost predicate Passes(c: Codec, db: Durable, state: StateIndex, s: nat, e: nat) {
    && AllValid(c, db, s, e)
    && (LastBlock(state) == Some(e - 1) ==> FrontiersAgree(db, state, e))
    && (LastBlock(state) == Some(e - 1) && state.indexedStart == Some(s) ==> PagesExact(c, db, s, e))
  }
}
