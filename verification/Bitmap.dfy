/** Bitmap pages and page statistics (bitmap_index.rs). */
module Bitmap {
  import opened Seqs
  import opened Schema

  const PAGE_SPAN: nat := 65536

  function PageOf(id: nat): (page: nat)
    ensures page <= id
  {
    id / PAGE_SPAN * PAGE_SPAN
  }

  datatype PageKey = PageKey(filter: Filter, page: nat)

  type Pages = map<PageKey, set<nat>>
  type Stats = map<PageKey, nat>

  /** The rows of one family: row base + k is indexed under filters[k]. */
  datatype Tags = Tags(base: nat, filters: seq<seq<Filter>>) {
    function End(): nat { base + |filters| }

    predicate Has(id: nat, filter: Filter) { base <= id < End() && filter in filters[id - base] }

    /** The offsets in page k of the rows lo..hi that carry its filter. */
    function Bits(k: PageKey, lo: nat, hi: nat): set<nat> {
      set o: nat | o < PAGE_SPAN && InPage(k, lo, hi, o)
    }

    predicate InPage(k: PageKey, lo: nat, hi: nat, o: nat) {
      k.page % PAGE_SPAN == 0 && lo <= k.page + o < hi && Has(k.page + o, k.filter)
    }
  }

  /** What is kept of the stored page below the committed id. */
  function Kept(stored: set<nat>, page: nat, committed: nat): set<nat> {
    if committed <= page then {}
    else if committed < page + PAGE_SPAN then set o | o in stored && o < committed - page
    else stored
  }

  function Stored(pages: Pages, k: PageKey): set<nat> {
    if k in pages then pages[k] else {}
  }

  // ---- what the tables hold ----

  /** No page holds a bit that is not a row's before id a. */
  ghost predicate PagesSound(t: Tags, pages: Pages, a: nat) {
    forall k :: k in pages ==> pages[k] != {} && pages[k] <= t.Bits(k, t.base, a)
  }

  /** Every bit of a row before id m is set. */
  ghost predicate PagesComplete(t: Tags, pages: Pages, m: nat) {
    forall k :: t.Bits(k, t.base, m) != {} ==> k in pages && t.Bits(k, t.base, m) <= pages[k]
  }

  /** Every page with a bit of a row before id m has a statistics row. */
  ghost predicate StatsComplete(t: Tags, stats: Stats, m: nat) {
    forall k :: t.Bits(k, t.base, m) != {} ==> k in stats
  }

  /** A page that no attempted row beyond m belongs to is exact, and so are its statistics. */
  ghost predicate Settled(t: Tags, pages: Pages, stats: Stats, m: nat, a: nat) {
    forall k :: t.Bits(k, m, a) == {} ==> SettledPage(t, pages, stats, m, k)
  }

  ghost predicate SettledPage(t: Tags, pages: Pages, stats: Stats, m: nat, k: PageKey) {
    var bits := t.Bits(k, t.base, m);
    if bits == {} then k !in pages && k !in stats
    else k in pages && k in stats && pages[k] == bits && stats[k] == |bits|
  }

  ghost predicate BitmapInv(t: Tags, pages: Pages, stats: Stats, m: nat, a: nat) {
    && t.base <= m <= a <= t.End()
    && PagesSound(t, pages, a) && PagesComplete(t, pages, m) && StatsComplete(t, stats, m)
    && Settled(t, pages, stats, m, a)
  }

  lemma BitsSplit(t: Tags, k: PageKey, lo: nat, mid: nat, hi: nat)
    requires lo <= mid <= hi
    ensures t.Bits(k, lo, hi) == t.Bits(k, lo, mid) + t.Bits(k, mid, hi)
  {
  }

  lemma BitsAligned(t: Tags, k: PageKey, lo: nat, hi: nat)
    requires t.Bits(k, lo, hi) != {}
    ensures k.page % PAGE_SPAN == 0
  {
  }

  /** Trimming at the committed id removes exactly what earlier failed flushes left at or above it. */
  lemma TrimRepairs(t: Tags, pages: Pages, n: nat, m: nat, a: nat, k: PageKey)
    requires t.base <= n <= m <= a && PagesSound(t, pages, a) && PagesComplete(t, pages, m)
    requires k.page % PAGE_SPAN == 0
    ensures Kept(Stored(pages, k), k.page, n) == t.Bits(k, t.base, n)
  {
    var kept := Kept(Stored(pages, k), k.page, n);
    forall o | o in t.Bits(k, t.base, n)
      ensures o in kept
    {
      assert o in t.Bits(k, t.base, m);
    }
  }

  /** The page row a flush from n to n' writes is the page's exact content below n'. */
  lemma PageRowExact(t: Tags, pages: Pages, n: nat, n': nat, m: nat, a: nat, k: PageKey)
    requires t.base <= n <= m <= a && n <= n' && PagesSound(t, pages, a) && PagesComplete(t, pages, m)
    requires k.page % PAGE_SPAN == 0
    ensures Kept(Stored(pages, k), k.page, n) + t.Bits(k, n, n') == t.Bits(k, t.base, n')
  {
    TrimRepairs(t, pages, n, m, a, k);
    BitsSplit(t, k, t.base, n, n');
  }

  /** Page and statistics rows of a flush from n to n': exact, only for pages the batch touches. */
  ghost predicate TruePages(t: Tags, w: Pages, n: nat, n': nat) {
    forall k :: k in w ==> t.Bits(k, n, n') != {} && w[k] == t.Bits(k, t.base, n')
  }

  ghost predicate TrueStats(t: Tags, w: Stats, n: nat, n': nat) {
    forall k :: k in w ==> t.Bits(k, n, n') != {} && w[k] == |t.Bits(k, t.base, n')|
  }

  lemma PartialPages(t: Tags, pages: Pages, w: Pages, n: nat, n': nat, m: nat, a: nat)
    requires t.base <= n <= m <= n' && m <= a
    requires PagesSound(t, pages, a) && PagesComplete(t, pages, m) && TruePages(t, w, n, n')
    ensures PagesSound(t, pages + w, Max(a, n')) && PagesComplete(t, pages + w, m)
  {
    hide Tags.Bits;
    forall k | k in pages + w
      ensures (pages + w)[k] != {} && (pages + w)[k] <= t.Bits(k, t.base, Max(a, n'))
    {
      BitsSplit(t, k, t.base, a, Max(a, n'));
      BitsSplit(t, k, t.base, n', Max(a, n'));
      BitsSplit(t, k, t.base, n, n');
    }
    forall k | t.Bits(k, t.base, m) != {}
      ensures k in pages + w && t.Bits(k, t.base, m) <= (pages + w)[k]
    {
      BitsSplit(t, k, t.base, m, n');
    }
  }

  lemma PartialSettled(t: Tags, pages: Pages, stats: Stats, w: Pages, ws: Stats, n: nat, n': nat, m: nat, a: nat)
    requires t.base <= n <= m <= n' && m <= a
    requires Settled(t, pages, stats, m, a) && TruePages(t, w, n, n') && TrueStats(t, ws, n, n')
    ensures Settled(t, pages + w, stats + ws, m, Max(a, n'))
  {
    hide Tags.Bits;
    forall k | t.Bits(k, m, Max(a, n')) == {}
      ensures SettledPage(t, pages + w, stats + ws, m, k)
    {
      BitsSplit(t, k, m, a, Max(a, n'));
      BitsSplit(t, k, m, n', Max(a, n'));
      BitsSplit(t, k, t.base, m, n');
      BitsSplit(t, k, t.base, n, n');
      assert SettledPage(t, pages, stats, m, k);
    }
  }

  lemma PartialWrite(t: Tags, pages: Pages, stats: Stats, w: Pages, ws: Stats, n: nat, n': nat, m: nat, a: nat)
    requires BitmapInv(t, pages, stats, m, a) && t.base <= n <= m <= n' <= t.End()
    requires TruePages(t, w, n, n') && TrueStats(t, ws, n, n')
    ensures BitmapInv(t, pages + w, stats + ws, m, Max(a, n'))
  {
    PartialPages(t, pages, w, n, n', m, a);
    PartialSettled(t, pages, stats, w, ws, n, n', m, a);
  }

  /** After a flush that writes every row, every page it touches is exact, whatever was there before. */
  lemma FullWrite(t: Tags, pages: Pages, stats: Stats, w: Pages, ws: Stats, n: nat, n': nat, m: nat, a: nat)
    requires BitmapInv(t, pages, stats, m, a) && t.base <= n <= m <= n' <= t.End()
    requires TruePages(t, w, n, n') && TrueStats(t, ws, n, n')
    requires forall k :: t.Bits(k, n, n') != {} ==> k in w && k in ws
    ensures BitmapInv(t, pages + w, stats + ws, n', Max(a, n'))
    ensures forall k :: t.Bits(k, n, n') != {} ==> SettledPage(t, pages + w, stats + ws, n', k)
  {
    hide Tags.Bits;
    PartialPages(t, pages, w, n, n', m, a);
    FullStats(t, stats, ws, n, n', m);
    forall k | t.Bits(k, n, n') != {}
      ensures SettledPage(t, pages + w, stats + ws, n', k)
    {
      BitsSplit(t, k, t.base, n, n');
    }
    forall k | t.Bits(k, n', Max(a, n')) == {} && t.Bits(k, n, n') == {}
      ensures SettledPage(t, pages + w, stats + ws, n', k)
    {
      Untouched(t, k, n, n', m, a);
      assert SettledPage(t, pages, stats, m, k);
    }
    forall k | t.Bits(k, t.base, n') != {}
      ensures k in pages + w && t.Bits(k, t.base, n') <= (pages + w)[k]
    {
      BitsSplit(t, k, t.base, n, n');
      BitsSplit(t, k, t.base, n, m);
      BitsSplit(t, k, n, m, n');
    }
  }

  lemma FullStats(t: Tags, stats: Stats, ws: Stats, n: nat, n': nat, m: nat)
    requires t.base <= n <= m <= n' && StatsComplete(t, stats, m)
    requires forall k :: t.Bits(k, n, n') != {} ==> k in ws
    ensures StatsComplete(t, stats + ws, n')
  {
    hide Tags.Bits;
    forall k | t.Bits(k, t.base, n') != {} ensures k in stats + ws {
      BitsSplit(t, k, t.base, n, n');
      BitsSplit(t, k, t.base, n, m);
    }
  }

  /** A page with no bit in the batch and none attempted beyond it had none attempted at all. */
  lemma Untouched(t: Tags, k: PageKey, n: nat, n': nat, m: nat, a: nat)
    requires n <= m <= n' && m <= a && t.base <= m
    requires t.Bits(k, n', Max(a, n')) == {} && t.Bits(k, n, n') == {}
    ensures t.Bits(k, m, a) == {} && t.Bits(k, t.base, n') == t.Bits(k, t.base, m)
  {
    BitsSplit(t, k, n, m, n');
    BitsSplit(t, k, m, n', Max(a, n'));
    BitsSplit(t, k, m, a, Max(a, n'));
    BitsSplit(t, k, t.base, m, n');
  }

  /** With nothing attempted beyond the frontier, the tables are determined by the rows. */
  lemma BitmapUnique(t: Tags, pages: Pages, stats: Stats, pages': Pages, stats': Stats, m: nat)
    requires BitmapInv(t, pages, stats, m, m) && BitmapInv(t, pages', stats', m, m)
    ensures pages == pages' && stats == stats'
  {
    forall k
      ensures k in pages <==> k in pages'
      ensures k in stats <==> k in stats'
      ensures k in pages ==> pages[k] == pages'[k]
      ensures k in stats ==> stats[k] == stats'[k]
    {
      assert t.Bits(k, m, m) == {};
      assert SettledPage(t, pages, stats, m, k) && SettledPage(t, pages', stats', m, k);
    }
  }

  /** Rows n..n' on their own. */
  function Slice(t: Tags, n: nat, n': nat): Tags
    requires t.base <= n <= n' <= t.End()
  {
    Tags(n, t.filters[n - t.base..n' - t.base])
  }

  lemma SliceBits(t: Tags, n: nat, n': nat, k: PageKey)
    requires t.base <= n <= n' <= t.End()
    ensures Slice(t, n, n').End() == n' && Slice(t, n, n').Bits(k, n, n') == t.Bits(k, n, n')
  {
    var s := Slice(t, n, n');
    assert forall o: nat :: s.InPage(k, n, n', o) == t.InPage(k, n, n', o);
  }

  // ---- what one flush writes for one family ----

  function Touched(batch: Tags): set<PageKey> {
    set i, flt | 0 <= i < |batch.filters| && flt in batch.filters[i] :: PageKey(flt, PageOf(batch.base + i))
  }

  lemma TouchedBits(batch: Tags, k: PageKey)
    ensures k in Touched(batch) <==> batch.Bits(k, batch.base, batch.End()) != {}
  {
    if k in Touched(batch) {
      var i, flt :| 0 <= i < |batch.filters| && flt in batch.filters[i] && k == PageKey(flt, PageOf(batch.base + i));
      assert batch.InPage(k, batch.base, batch.End(), batch.base + i - k.page);
      assert batch.base + i - k.page in batch.Bits(k, batch.base, batch.End());
    }
    if batch.Bits(k, batch.base, batch.End()) != {} {
      var o :| o in batch.Bits(k, batch.base, batch.End());
      SamePage(k.page, o);
      var i := k.page + o - batch.base;
      assert 0 <= i < |batch.filters| && k.filter in batch.filters[i];
      assert PageKey(k.filter, PageOf(batch.base + i)) == k;
    }
  }

  lemma SamePage(page: nat, o: nat)
    requires page % PAGE_SPAN == 0 && o < PAGE_SPAN
    ensures PageOf(page + o) == page
  {
  }

  /** The new content of page k: what was committed below the batch, and the batch's own bits. */
  function PageRow(pages: Pages, batch: Tags, k: PageKey): set<nat> {
    Kept(Stored(pages, k), k.page, batch.base) + batch.Bits(k, batch.base, batch.End())
  }

  function PageRows(pages: Pages, batch: Tags): Pages {
    map k | k in Touched(batch) :: PageRow(pages, batch, k)
  }

  function StatRows(pages: Pages, batch: Tags): Stats {
    map k | k in Touched(batch) :: |PageRow(pages, batch, k)|
  }

  lemma FlushRowsTrue(t: Tags, pages: Pages, n: nat, n': nat, m: nat, a: nat)
    requires t.base <= n <= m <= a && n <= n' <= t.End() && PagesSound(t, pages, a) && PagesComplete(t, pages, m)
    ensures var batch := Slice(t, n, n');
      && TruePages(t, PageRows(pages, batch), n, n') && TrueStats(t, StatRows(pages, batch), n, n')
      && (forall k :: t.Bits(k, n, n') != {} ==> k in PageRows(pages, batch) && k in StatRows(pages, batch))
  {
    hide Tags.Bits, Touched, Kept;
    var batch := Slice(t, n, n');
    forall k
      ensures k in Touched(batch) <==> t.Bits(k, n, n') != {}
      ensures k in Touched(batch) ==> PageRow(pages, batch, k) == t.Bits(k, t.base, n')
    {
      TouchedBits(batch, k);
      SliceBits(t, n, n', k);
      if t.Bits(k, n, n') != {} {
        BitsAligned(t, k, n, n');
        PageRowExact(t, pages, n, n', m, a, k);
      }
    }
  }

  /** A flush of rows n..n' that lands in part, or in full. */
  lemma FlushStep(t: Tags, pages: Pages, stats: Stats, n: nat, n': nat, m: nat, a: nat, w: Pages, ws: Stats)
    requires BitmapInv(t, pages, stats, m, a) && t.base <= n <= m <= n' <= t.End()
    requires SubRows(w, PageRows(pages, Slice(t, n, n'))) && SubRows(ws, StatRows(pages, Slice(t, n, n')))
    ensures BitmapInv(t, pages + w, stats + ws, m, Max(a, n'))
    ensures w == PageRows(pages, Slice(t, n, n')) && ws == StatRows(pages, Slice(t, n, n')) ==>
      && BitmapInv(t, pages + w, stats + ws, n', Max(a, n'))
      && forall k :: t.Bits(k, n, n') != {} ==> SettledPage(t, pages + w, stats + ws, n', k)
  {
    hide PageRows, StatRows, Tags.Bits, Slice;
    FlushRowsTrue(t, pages, n, n', m, a);
    PartialWrite(t, pages, stats, w, ws, n, n', m, a);
    if w == PageRows(pages, Slice(t, n, n')) && ws == StatRows(pages, Slice(t, n, n')) {
      FullWrite(t, pages, stats, w, ws, n, n', m, a);
    }
  }

  // ---- the bitmap stage, as the source runs it ----

  /** `pending` holds exactly the bits of rows lo..hi. */
  ghost predicate Represents(pending: Pages, t: Tags, lo: nat, hi: nat) {
    forall k :: (k in pending <==> t.Bits(k, lo, hi) != {}) && (k in pending ==> pending[k] == t.Bits(k, lo, hi))
  }

  /** What row id adds to page k. */
  function RowBits(filters: seq<Filter>, id: nat, k: PageKey): set<nat> {
    if k.page == PageOf(id) && k.filter in filters then {id - k.page} else {}
  }

  ghost predicate RowAdded(pending0: Pages, pending: Pages, filters: seq<Filter>, id: nat) {
    forall k :: RowAddedAt(pending0, pending, filters, id, k)
  }

  ghost predicate RowAddedAt(pending0: Pages, pending: Pages, filters: seq<Filter>, id: nat, k: PageKey) {
    && (k in pending <==> k in pending0 || RowBits(filters, id, k) != {})
    && Stored(pending, k) == Stored(pending0, k) + RowBits(filters, id, k)
  }

  /** The closure `add`, for every filter of row id. */
  method AddRow(pending0: Pages, filters: seq<Filter>, id: nat) returns (pending: Pages)
    ensures RowAdded(pending0, pending, filters, id)
  {
    pending := pending0;
    for n := 0 to |filters|
      invariant RowAdded(pending0, pending, filters[..n], id)
    {
      var page := PageOf(id);
      var key := PageKey(filters[n], page);
      AddBit(pending0, pending, filters, id, n);
      pending := pending[key := Stored(pending, key) + {id - page}];
    }
    assert filters[..|filters|] == filters;
  }

  lemma AddBit(pending0: Pages, pending: Pages, filters: seq<Filter>, id: nat, n: nat)
    requires n < |filters| && RowAdded(pending0, pending, filters[..n], id)
    ensures var key := PageKey(filters[n], PageOf(id));
      RowAdded(pending0, pending[key := Stored(pending, key) + {id - PageOf(id)}], filters[..n + 1], id)
  {
    hide PageOf;
    var filters' := filters[..n + 1];
    assert filters' == filters[..n] + [filters[n]];
    var key := PageKey(filters[n], PageOf(id));
    var pending' := pending[key := Stored(pending, key) + {id - PageOf(id)}];
    forall k ensures RowAddedAt(pending0, pending', filters', id, k) {
      assert RowAddedAt(pending0, pending, filters[..n], id, k);
    }
  }

  lemma RowComplete(t: Tags, k: PageKey, id: nat)
    requires t.base <= id < t.End()
    ensures RowBits(t.filters[id - t.base], id, k) == t.Bits(k, id, id + 1)
  {
    if k.page == PageOf(id) && k.filter in t.filters[id - t.base] {
      assert t.InPage(k, id, id + 1, id - k.page);
    }
    if t.Bits(k, id, id + 1) != {} {
      var o :| o in t.Bits(k, id, id + 1);
      SamePage(k.page, o);
    }
  }

  lemma RowRepresented(pending0: Pages, pending: Pages, t: Tags, lo: nat, id: nat)
    requires t.base <= id < t.End() && lo <= id && Represents(pending0, t, lo, id)
    requires RowAdded(pending0, pending, t.filters[id - t.base], id)
    ensures Represents(pending, t, lo, id + 1)
  {
    hide Tags.Bits, RowBits;
    forall k
      ensures k in pending <==> t.Bits(k, lo, id + 1) != {}
      ensures k in pending ==> pending[k] == t.Bits(k, lo, id + 1)
    {
      assert RowAddedAt(pending0, pending, t.filters[id - t.base], id, k);
      RowComplete(t, k, id);
      BitsSplit(t, k, lo, id, id + 1);
    }
  }

  /** One page: nothing is kept from a page at or after the committed id, else its bits are trimmed there. */
  method UpdatePage(pages: Pages, k: PageKey, bits: set<nat>, committed: nat) returns (bitmap: set<nat>)
    ensures bitmap == Kept(Stored(pages, k), k.page, committed) + bits
  {
    bitmap := {};
    if committed > k.page {
      bitmap := Stored(pages, k);
      if committed < k.page + PAGE_SPAN {
        bitmap := set o | o in bitmap && o < committed - k.page;
      }
    }
    bitmap := bitmap + bits;
  }

  /** Read, trim and merge every touched page; the committed id is the batch's first. */
  method PageUpdates(pages: Pages, pending: Pages, committed: nat, ghost batch: Tags)
    returns (rows: Pages, stats: Stats)
    requires committed == batch.base && Represents(pending, batch, batch.base, batch.End())
    ensures rows == PageRows(pages, batch) && stats == StatRows(pages, batch)
  {
    hide Touched, Kept, PageRows, StatRows, Tags.Bits;
    rows, stats := map[], map[];
    var todo := pending.Keys;
    while todo != {}
      invariant Updated(pages, batch, pending.Keys - todo, rows, stats) && todo <= pending.Keys
      decreases todo
    {
      var k :| k in todo;
      var bitmap := UpdatePage(pages, k, pending[k], committed);
      UpdateOne(pages, batch, pending.Keys - todo, rows, stats, k);
      assert pending.Keys - (todo - {k}) == (pending.Keys - todo) + {k};
      rows := rows[k := bitmap];
      if bitmap != {} {
        stats := stats[k := |bitmap|];
      }
      todo := todo - {k};
    }
    PendingKeys(pending, batch);
    assert pending.Keys - todo == Touched(batch);
    AllUpdated(pages, batch, rows, stats);
  }

  lemma AllUpdated(pages: Pages, batch: Tags, rows: Pages, stats: Stats)
    requires Updated(pages, batch, Touched(batch), rows, stats)
    ensures rows == PageRows(pages, batch) && stats == StatRows(pages, batch)
  {
    hide PageRow, Touched;
  }

  lemma PendingKeys(pending: Pages, batch: Tags)
    requires Represents(pending, batch, batch.base, batch.End())
    ensures pending.Keys == Touched(batch)
  {
    forall k ensures k in pending <==> k in Touched(batch) { TouchedBits(batch, k); }
  }

  lemma UpdateOne(pages: Pages, batch: Tags, done: set<PageKey>, rows: Pages, stats: Stats, k: PageKey)
    requires Updated(pages, batch, done, rows, stats)
    ensures var row := PageRow(pages, batch, k); Updated(pages, batch, done + {k}, rows[k := row], stats[k := |row|])
  {
    hide PageRow;
    MapAdd(rows, done, x => PageRow(pages, batch, x), k);
    MapAdd(stats, done, x => |PageRow(pages, batch, x)|, k);
  }

  ghost predicate Updated(pages: Pages, batch: Tags, done: set<PageKey>, rows: Pages, stats: Stats) {
    && IsMap(rows, done, k => PageRow(pages, batch, k))
    && IsMap(stats, done, k => |PageRow(pages, batch, k)|)
  }
}
