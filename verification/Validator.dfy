/** The index validator as it runs (validate/mod.rs). */
module Validator {
  import opened Seqs
  import opened Schema
  import opened Metadata
  import opened IndexState
  import opened Validation
  import Reads
  import Payload
  import Bitmap
  import AncestorStatus

  /** Pages already read, with their statistics. */
  type Cache = map<Bitmap.PageKey, (set<nat>, nat)>

  ghost predicate CacheTrue(db: Durable, f: Family, cache: Cache) {
    forall k :: k in cache ==>
      k in db.pages.At(f) && k in db.stats.At(f) && cache[k] == (db.pages.At(f)[k], db.stats.At(f)[k])
  }

  // ---- rows ----

  /** The bytes between the end of the row before and the row's own end. */
  method ReadBytes(db: Durable, f: Family, id: nat) returns (r: Option<Bytes>)
    ensures r == Reads.ReadRow(db.blobs.At(f), db.locs.At(f), id)
  {
    var locs := db.locs.At(f);
    if id !in locs {
      return None;
    }
    var end, start := locs[id], 0;
    if id != Payload.PartStart(id) {
      if id - 1 !in locs {
        return None;
      }
      start := locs[id - 1];
    }
    if start > end || Payload.Part(id) !in db.blobs.At(f) {
      return None;
    }
    var blob := db.blobs.At(f)[Payload.Part(id)];
    if end > |blob| {
      return None;
    }
    return Some(blob[start..end]);
  }

  method ReadItem(c: Codec, db: Durable, f: Family, id: nat) returns (r: Option<Item>)
    ensures r == RowItem(c, db, f, id)
  {
    var bytes := ReadBytes(db, f, id);
    if bytes.None? {
      return None;
    }
    r := c.decode(f, bytes.value);
    if r.Some? && FamilyOf(r.value) != f {
      r := None;
    }
  }

  method ReadItems(c: Codec, db: Durable, f: Family, r: Range) returns (items: Option<seq<Item>>)
    ensures items.Some? <==> RowsRead(c, db, f, r)
    ensures items.Some? ==> items.value == Items(c, db, f, r)
  {
    hide RowItem;
    var read: seq<Item> := [];
    for j := 0 to r.count
      invariant |read| == j
      invariant forall i :: 0 <= i < j ==> ItemAt(c, db, f, r, i) == Some(read[i])
    {
      var item := ReadItem(c, db, f, r.first + j);
      if item.None? {
        assert ItemAt(c, db, f, r, j).None?;
        return None;
      }
      read := read + [item.value];
    }
    return Some(read);
  }

  // ---- bitmap membership ----

  method FiltersOf(c: Codec, f: Family, items: seq<Item>) returns (r: Option<seq<seq<Filter>>>)
    requires AllOfFamily(items, f)
    ensures r.Some? <==> forall j :: 0 <= j < |items| ==> TagOf(c, f, items, j).Some?
    ensures r.Some? ==>
      |r.value| == |items| && forall j :: 0 <= j < |items| ==> TagOf(c, f, items, j) == Some(r.value[j])
  {
    hide TxFilters, LogFilters, TraceFilters, HeaderFilters, AncestorStatus.FlagAt;
    var flags: seq<bool> := [];
    if f.Trace? {
      flags := AncestorStatus.FromTraces(Traces(items));
    }
    var read: seq<seq<Filter>> := [];
    for j := 0 to |items|
      invariant |read| == j && forall i :: 0 <= i < j ==> TagOf(c, f, items, i) == Some(read[i])
    {
      var tag := None;
      match items[j] {
        case HeaderItem(h) => tag := Some(HeaderFilters(h));
        case TxItem(t) => tag := TxFilters(c, t);
        case LogItem(t) => tag := Some(LogFilters(t));
        case TraceItem(t) => tag := Some(TraceFilters(t, flags[j]));
      }
      if tag.None? {
        assert TagOf(c, f, items, j).None?;
        return None;
      }
      read := read + [tag.value];
    }
    return Some(read);
  }

  /** Every page of the row must hold its bit; pages are read once. */
  method CheckRow(db: Durable, f: Family, id: nat, filters: seq<Filter>, cache0: Cache) returns (ok: bool, cache: Cache)
    requires CacheTrue(db, f, cache0)
    ensures CacheTrue(db, f, cache) && cache0.Keys <= cache.Keys
    ensures ok <==> BitsThere(db.pages.At(f), db.stats.At(f), id, filters)
    ensures ok ==> forall k :: Bitmap.RowBits(filters, id, k) != {} ==> k in cache
  {
    hide Bitmap.PageOf;
    cache := cache0;
    var page := Bitmap.PageOf(id);
    for i := 0 to |filters|
      invariant CacheTrue(db, f, cache) && cache0.Keys <= cache.Keys
      invariant forall j :: 0 <= j < i ==>
        BitThere(db.pages.At(f), db.stats.At(f), id, filters[j]) && Bitmap.PageKey(filters[j], page) in cache
    {
      var k := Bitmap.PageKey(filters[i], page);
      if k !in cache {
        if k !in db.pages.At(f) || k !in db.stats.At(f) {
          assert !BitThere(db.pages.At(f), db.stats.At(f), id, filters[i]);
          return false, cache;
        }
        cache := cache[k := (db.pages.At(f)[k], db.stats.At(f)[k])];
      }
      if id - page !in cache[k].0 {
        assert !BitThere(db.pages.At(f), db.stats.At(f), id, filters[i]);
        return false, cache;
      }
    }
    return true, cache;
  }

  /** The expected bits grew by those of rows t.base..hi. */
  ghost predicate Grown(p0: Bitmap.Pages, p: Bitmap.Pages, t: Bitmap.Tags, hi: nat) {
    forall k :: GrownAt(p0, p, t, hi, k)
  }

  ghost predicate GrownAt(p0: Bitmap.Pages, p: Bitmap.Pages, t: Bitmap.Tags, hi: nat, k: Bitmap.PageKey) {
    && (k in p <==> k in p0 || t.Bits(k, t.base, hi) != {})
    && Bitmap.Stored(p, k) == Bitmap.Stored(p0, k) + t.Bits(k, t.base, hi)
  }

  lemma GrowRow(p0: Bitmap.Pages, p: Bitmap.Pages, p': Bitmap.Pages, t: Bitmap.Tags, id: nat)
    requires t.base <= id < t.End() && Grown(p0, p, t, id) && Bitmap.RowAdded(p, p', t.filters[id - t.base], id)
    ensures Grown(p0, p', t, id + 1)
  {
    hide Bitmap.Tags.Bits, Bitmap.RowBits;
    var hi := id + 1;
    forall k ensures GrownAt(p0, p', t, hi, k) {
      assert GrownAt(p0, p, t, id, k);
      assert Bitmap.RowAddedAt(p, p', t.filters[id - t.base], id, k);
      Bitmap.RowComplete(t, k, id);
      Bitmap.BitsSplit(t, k, t.base, id, id + 1);
    }
  }

  lemma GrowNothing(p: Bitmap.Pages, t: Bitmap.Tags)
    ensures Grown(p, p, t, t.base)
  {
    forall k ensures GrownAt(p, p, t, t.base, k) {
      assert t.Bits(k, t.base, t.base) == {};
    }
  }

  lemma KeysCovered(p: Bitmap.Pages, p': Bitmap.Pages, filters: seq<Filter>, id: nat, keys: set<Bitmap.PageKey>)
    requires p.Keys <= keys && Bitmap.RowAdded(p, p', filters, id)
    requires forall k :: Bitmap.RowBits(filters, id, k) != {} ==> k in keys
    ensures p'.Keys <= keys
  {
    hide Bitmap.RowBits;
    forall k | k in p' ensures k in keys {
      assert Bitmap.RowAddedAt(p, p', filters, id, k);
    }
  }

  lemma TagsAre(c: Codec, f: Family, items: seq<Item>, first: nat, tags: seq<seq<Filter>>)
    requires AllOfFamily(items, f) && |tags| == |items|
    requires forall j :: 0 <= j < |items| ==> TagOf(c, f, items, j) == Some(tags[j])
    ensures ItemTags(c, f, items, first) == Bitmap.Tags(first, tags)
  {
    hide TagOf;
    assert ItemTags(c, f, items, first).filters == tags;
  }

  method ValidateMembership(c: Codec, db: Durable, f: Family, first: nat, items: seq<Item>, expected0: Bitmap.Pages,
                            cache0: Cache)
    returns (ok: bool, expected: Bitmap.Pages, cache: Cache)
    requires AllOfFamily(items, f) && CacheTrue(db, f, cache0)
    ensures CacheTrue(db, f, cache)
    ensures ok <==> AllIndexed(c, db, f, items, first)
    ensures ok ==> Grown(expected0, expected, ItemTags(c, f, items, first), first + |items|)
    ensures ok && expected0.Keys <= cache0.Keys ==> expected.Keys <= cache.Keys
  {
    hide TagOf, CacheTrue, Grown, BitsThere, Bitmap.RowAdded, Bitmap.RowBits, ItemTags, AllOfFamily;
    expected, cache := expected0, cache0;
    var tags := FiltersOf(c, f, items);
    if tags.None? {
      ghost var j :| 0 <= j < |items| && TagOf(c, f, items, j).None?;
      assert !RowIndexed(c, db, f, items, first, j);
      return false, expected, cache;
    }
    ghost var t := Bitmap.Tags(first, tags.value);
    TagsAre(c, f, items, first, tags.value);
    GrowNothing(expected0, t);
    for j := 0 to |items|
      invariant CacheTrue(db, f, cache) && Grown(expected0, expected, t, first + j)
      invariant expected0.Keys <= cache0.Keys ==> expected.Keys <= cache.Keys
      invariant forall i :: 0 <= i < j ==> RowIndexed(c, db, f, items, first, i)
    {
      var more := Bitmap.AddRow(expected, tags.value[j], first + j);
      GrowRow(expected0, expected, more, t, first + j);
      var cached;
      ok, cached := CheckRow(db, f, first + j, tags.value[j], cache);
      if !ok {
        assert !RowIndexed(c, db, f, items, first, j);
        return false, more, cached;
      }
      if expected0.Keys <= cache0.Keys {
        KeysCovered(expected, more, tags.value[j], first + j, cached.Keys);
      }
      expected, cache := more, cached;
    }
    return true, expected, cache;
  }

  // ---- payload of one family of one block ----

  method ValidatePayload(c: Codec, db: Durable, b: nat, f: Family, r: Range, expected0: Bitmap.Pages, cache0: Cache)
    returns (ok: bool, expected: Bitmap.Pages, cache: Cache)
    requires CacheTrue(db, f, cache0)
    ensures CacheTrue(db, f, cache)
    ensures ok <==> PayloadValid(c, db, b, f, r)
    ensures ok ==> var t := ReadTags(c, db, f, r); Grown(expected0, expected, t, t.End())
    ensures ok && expected0.Keys <= cache0.Keys ==> expected.Keys <= cache.Keys
  {
    hide RowsRead, CacheTrue, Grown, AllIndexed, AllOfFamily;
    expected, cache := expected0, cache0;
    var items := ReadItems(c, db, f, r);
    if items.None? {
      return false, expected, cache;
    }
    if f.BlockHeader? {
      if b !in db.hashes {
        return false, expected, cache;
      }
      for j := 0 to |items.value|
        invariant forall i :: 0 <= i < j ==> HeaderMatches(c, db, b, items.value[i])
      {
        if !HeaderMatches(c, db, b, items.value[j]) {
          return false, expected, cache;
        }
      }
    }
    ok, expected, cache := ValidateMembership(c, db, f, r.first, items.value, expected0, cache0);
  }

  // ---- one family of one block ----

  /** seek_le with the family's own first id. */
  method SeekIndex(index: map<nat, nat>, first: nat, b: nat) returns (ok: bool)
    ensures ok <==> IndexFinds(index, first, b)
    ensures forall key :: SeekLe(index, first, key) ==>
      (ok <==> key == Some(first) && first in index && index[first] == b)
  {
    var k := first;
    while k > 0 && k !in index
      invariant k <= first && forall i :: k < i <= first ==> i !in index
    {
      k := k - 1;
    }
    ok := k in index && k == first && index[k] == b;
  }

  method ValidateFamily(c: Codec, db: Durable, b: nat, f: Family, prev: Option<nat>, expected0: Bitmap.Pages,
                        cache0: Cache)
    returns (issues: nat, next: Option<nat>, expected: Bitmap.Pages, cache: Cache)
    requires CacheTrue(db, f, cache0)
    ensures CacheTrue(db, f, cache)
    ensures prev == PrevEnd(db, b, f) ==> (issues == 0 <==> FamilyValid(c, db, b, f))
    ensures issues == 0 ==> b in db.ranges.At(f) && next == PrevEnd(db, b + 1, f)
    ensures issues == 0 ==> var t := ReadTags(c, db, f, db.ranges.At(f)[b]); Grown(expected0, expected, t, t.End())
    ensures issues == 0 && expected0.Keys <= cache0.Keys ==> expected.Keys <= cache.Keys
  {
    hide CacheTrue, Grown, PayloadValid, ReadTags, IndexFinds;
    expected, cache, next, issues := expected0, cache0, prev, 0;
    if b !in db.ranges.At(f) {
      return 1, next, expected, cache;
    }
    var r := db.ranges.At(f)[b];
    if prev.Some? && prev.value != r.first {
      issues := issues + 1;
    }
    next := Some(r.End());
    if r.count > 0 {
      var found := SeekIndex(db.index.At(f), r.first, b);
      if !found {
        issues := issues + 1;
      }
    }
    var ok;
    ok, expected, cache := ValidatePayload(c, db, b, f, r, expected0, cache0);
    if !ok {
      issues := issues + 1;
    }
  }

  // ---- one block ----

  /** What has been learnt when blocks s..b have passed. */
  ghost predicate Learnt(c: Codec, db: Durable, s: nat, b: nat, f: Family, id: Option<nat>, expected: Bitmap.Pages,
                         cache: Cache) {
    && id == PrevEnd(db, b, f) && expected.Keys <= cache.Keys
    && HoldsAll(c, db, f, s, b, expected)
  }

  ghost predicate HoldsAll(c: Codec, db: Durable, f: Family, s: nat, b: nat, p: Bitmap.Pages) {
    forall k :: HoldsExpected(c, db, f, s, b, p, k)
  }

  ghost predicate HoldsExpected(c: Codec, db: Durable, f: Family, s: nat, b: nat, p: Bitmap.Pages, k: Bitmap.PageKey) {
    var bits := Expect(c, db, f, s, b, k);
    (k in p <==> bits != {}) && (k in p ==> p[k] == bits)
  }

  lemma LearnBlock(c: Codec, db: Durable, s: nat, b: nat, f: Family, p: Bitmap.Pages, p': Bitmap.Pages)
    requires s <= b && b in db.ranges.At(f) && HoldsAll(c, db, f, s, b, p)
    requires var t := ReadTags(c, db, f, db.ranges.At(f)[b]); Grown(p, p', t, t.End())
    ensures HoldsAll(c, db, f, s, b + 1, p')
  {
    hide Bitmap.Tags.Bits, ReadTags;
    var t := ReadTags(c, db, f, db.ranges.At(f)[b]);
    var b' := b + 1;
    forall k ensures HoldsExpected(c, db, f, s, b', p', k) {
      assert HoldsExpected(c, db, f, s, b, p, k);
      assert GrownAt(p, p', t, t.End(), k);
      assert Expect(c, db, f, s, b + 1, k) == Expect(c, db, f, s, b, k) + BlockBits(c, db, f, b, k);
    }
  }

  lemma LearntPrev(c: Codec, db: Durable, s: nat, b: nat, f: Family, id: Option<nat>, p: Bitmap.Pages, cache: Cache)
    requires Learnt(c, db, s, b, f, id, p, cache)
    ensures id == PrevEnd(db, b, f) && p.Keys <= cache.Keys
  {
    hide HoldsAll, PrevEnd;
  }

  lemma LearnFamily(c: Codec, db: Durable, s: nat, b: nat, f: Family, id: Option<nat>, p: Bitmap.Pages, cache: Cache,
                    id': Option<nat>, p': Bitmap.Pages, cache': Cache)
    requires s <= b && b in db.ranges.At(f) && Learnt(c, db, s, b, f, id, p, cache)
    requires id' == PrevEnd(db, b + 1, f) && p'.Keys <= cache'.Keys
    requires var t := ReadTags(c, db, f, db.ranges.At(f)[b]); Grown(p, p', t, t.End())
    ensures Learnt(c, db, s, b + 1, f, id', p', cache')
  {
    hide HoldsAll, PrevEnd, Grown, ReadTags;
    LearnBlock(c, db, s, b, f, p, p');
  }

  method ValidateBlock(c: Codec, db: Durable, s: nat, b: nat, ids0: PerFamily<Option<nat>>,
                       expected0: PerFamily<Bitmap.Pages>, cache0: PerFamily<Cache>)
    returns (issues: nat, ids: PerFamily<Option<nat>>, expected: PerFamily<Bitmap.Pages>, cache: PerFamily<Cache>)
    requires s <= b && forall f :: CacheTrue(db, f, cache0.At(f))
    ensures forall f :: CacheTrue(db, f, cache.At(f))
    ensures (forall f :: Learnt(c, db, s, b, f, ids0.At(f), expected0.At(f), cache0.At(f))) ==>
      && (issues == 0 <==> BlockValid(c, db, b))
      && (issues == 0 ==> forall f :: Learnt(c, db, s, b + 1, f, ids.At(f), expected.At(f), cache.At(f)))
  {
    hide CacheTrue, Grown, FamilyValid, Learnt, ReadTags;
    issues, ids, expected, cache := 0, ids0, expected0, cache0;
    if b !in db.hashes {
      issues := issues + 1;
    }
    ghost var learnt := forall f :: Learnt(c, db, s, b, f, ids0.At(f), expected0.At(f), cache0.At(f));
    for k := 0 to 4
      invariant forall f :: CacheTrue(db, f, cache.At(f))
      invariant forall f :: Rank(f) >= k ==>
        ids.At(f) == ids0.At(f) && expected.At(f) == expected0.At(f) && cache.At(f) == cache0.At(f)
      invariant learnt ==> (issues == 0 <==> b in db.hashes && forall f :: Rank(f) < k ==> FamilyValid(c, db, b, f))
      invariant learnt && issues == 0 ==>
        forall f :: Rank(f) < k ==> Learnt(c, db, s, b + 1, f, ids.At(f), expected.At(f), cache.At(f))
    {
      var f := Nth(k);
      var bad, next, p, pages := ValidateFamily(c, db, b, f, ids.At(f), expected.At(f), cache.At(f));
      if learnt {
        LearntPrev(c, db, s, b, f, ids.At(f), expected.At(f), cache.At(f));
      }
      if learnt && bad == 0 {
        LearnFamily(c, db, s, b, f, ids.At(f), expected.At(f), cache.At(f), next, p, pages);
      }
      issues := issues + bad;
      ids, expected, cache := ids.With(f, next), expected.With(f, p), cache.With(f, pages);
    }
  }

  // ---- the whole run ----

  method ValidateBitmapExact(expected: Bitmap.Pages, cache: Cache) returns (ok: bool)
    ensures ok <==> forall k :: k in expected ==> k in cache && cache[k].0 == expected[k]
  {
    ok := true;
    var todo := expected.Keys;
    while todo != {}
      invariant todo <= expected.Keys
      invariant ok <==> forall k :: k in expected && k !in todo ==> k in cache && cache[k].0 == expected[k]
      decreases todo
    {
      var k :| k in todo;
      if k !in cache || cache[k].0 != expected[k] {
        ok := false;
      }
      todo := todo - {k};
    }
  }

  method ExactAll(c: Codec, db: Durable, s: nat, e: nat, ids: PerFamily<Option<nat>>, expected: PerFamily<Bitmap.Pages>,
                  cache: PerFamily<Cache>)
    returns (ok: bool)
    requires forall f :: CacheTrue(db, f, cache.At(f)) && Learnt(c, db, s, e, f, ids.At(f), expected.At(f), cache.At(f))
    ensures ok <==> PagesExact(c, db, s, e)
  {
    hide PrevEnd, Expect, FamilyExact;
    ok := true;
    for n := 0 to 4
      invariant ok <==> forall f :: Rank(f) < n ==> FamilyExact(c, db, f, s, e)
    {
      var f := Nth(n);
      var same := ValidateBitmapExact(expected.At(f), cache.At(f));
      assert Learnt(c, db, s, e, f, ids.At(f), expected.At(f), cache.At(f));
      ExactFamily(c, db, s, e, f, ids.At(f), expected.At(f), cache.At(f));
      ok := ok && same;
    }
  }

  lemma ExactFamily(c: Codec, db: Durable, s: nat, e: nat, f: Family, id: Option<nat>, expected: Bitmap.Pages,
                    cache: Cache)
    requires CacheTrue(db, f, cache) && Learnt(c, db, s, e, f, id, expected, cache)
    ensures (forall k :: k in expected ==> k in cache && cache[k].0 == expected[k]) <==> FamilyExact(c, db, f, s, e)
  {
    hide PrevEnd, Expect;
    forall k ensures (k in expected ==> k in cache && cache[k].0 == expected[k]) <==> PageExact(c, db, f, s, e, k) {
      assert HoldsExpected(c, db, f, s, e, expected, k);
    }
  }

  /** Refused: nothing to validate, or a range that makes no sense. */
  datatype Verdict = Refused | Interrupted | Passed | Failed

  predicate Refuses(db: Durable, start: nat, end: Option<nat>) {
    db.state.None? || (end.None? && LastBlock(db.state.value).None?) || start > LastOf(db.state.value, end)
  }

  /** The counters of the state row read at the end are those read at the beginning. */
  predicate Unchanged(state: StateIndex, final: Option<StateIndex>) {
    && final.Some? && final.value.nextBlock == state.nextBlock
    && final.value.nextTx == state.nextTx && final.value.nextLog == state.nextLog
      && final.value.nextTrace == state.nextTrace
  }

  /**
   * run_validation; `final` is the state row read at the end, `interrupted` says before which blocks the
   * user has asked to stop.
   */
  method Validate(c: Codec, db: Durable, final: Option<StateIndex>, start: nat, end: Option<nat>,
                  interrupted: nat -> bool)
    returns (v: Verdict)
    ensures v == Refused <==> Refuses(db, start, end)
    ensures v != Refused ==>
      (v == Interrupted <==> exists b :: start <= b <= LastOf(db.state.value, end) && interrupted(b))
    ensures v != Refused && v != Interrupted ==>
      (v == Passed <==>
         Passes(c, db, db.state.value, start, LastOf(db.state.value, end) + 1) && Unchanged(db.state.value, final))
  {
    hide CacheTrue, BlockValid, PagesExact, Learnt;
    if Refuses(db, start, end) {
      return Refused;
    }
    var state := db.state.value;
    var last, endBlock := LastBlock(state), LastOf(state, end);
    var ids := Tabulate(f => PrevEnd(db, start, f));
    var expected: PerFamily<Bitmap.Pages>, cache: PerFamily<Cache> := NoRows(map[]), NoRows(map[]);
    var issues := 0;
    NothingLearnt(c, db, start);
    for b := start to endBlock + 1
      invariant forall i :: start <= i < b ==> !interrupted(i)
      invariant forall f :: CacheTrue(db, f, cache.At(f))
      invariant issues == 0 <==> AllValid(c, db, start, b)
      invariant issues == 0 ==> forall f :: Learnt(c, db, start, b, f, ids.At(f), expected.At(f), cache.At(f))
    {
      if interrupted(b) {
        return Interrupted;
      }
      var bad;
      bad, ids, expected, cache := ValidateBlock(c, db, start, b, ids, expected, cache);
      issues := issues + bad;
      assert AllValid(c, db, start, b + 1) <==> AllValid(c, db, start, b) && BlockValid(c, db, b);
    }
    if issues != 0 {
      return Failed;
    }
    var ok := Finish(c, db, state, final, start, endBlock + 1, ids, expected, cache);
    return if ok then Passed else Failed;
  }

  /** What is checked after the blocks: exact pages over the full range, the state row, the frontiers. */
  method Finish(c: Codec, db: Durable, state: StateIndex, final: Option<StateIndex>, s: nat, e: nat,
                ids: PerFamily<Option<nat>>, expected: PerFamily<Bitmap.Pages>, cache: PerFamily<Cache>)
    returns (ok: bool)
    requires 0 < e && AllValid(c, db, s, e)
    requires forall f :: CacheTrue(db, f, cache.At(f)) && Learnt(c, db, s, e, f, ids.At(f), expected.At(f), cache.At(f))
    ensures ok <==> Passes(c, db, state, s, e) && Unchanged(state, final)
  {
    hide CacheTrue, AllValid, PagesExact, Learnt;
    var last := LastBlock(state);
    ok := true;
    if state.indexedStart == Some(s) && last == Some(e - 1) {
      ok := ExactAll(c, db, s, e, ids, expected, cache);
    }
    if !Unchanged(state, final) {
      ok := false;
    }
    if last == Some(e - 1) {
      FrontiersLearnt(c, db, s, e, ids, expected, cache);
      if ids.tx != Some(state.nextTx) || ids.log != Some(state.nextLog) || ids.trace != Some(state.nextTrace) {
        ok := false;
      }
    }
  }

  /** The last block to validate: the one asked for, else the last one indexed. */
  function LastOf(state: StateIndex, end: Option<nat>): (last: nat)
    ensures end.Some? ==> end == Some(last)
    ensures end.None? && LastBlock(state).Some? ==> last == state.nextBlock - 1
  {
    if end.Some? then end.value else if LastBlock(state).Some? then LastBlock(state).value else 0
  }

  lemma NothingLearnt(c: Codec, db: Durable, s: nat)
    ensures forall f ::
      CacheTrue(db, f, map[]) && Learnt(c, db, s, s, f, Tabulate(g => PrevEnd(db, s, g)).At(f), map[], map[])
  {
  }

  lemma FrontiersLearnt(c: Codec, db: Durable, s: nat, e: nat, ids: PerFamily<Option<nat>>,
                        expected: PerFamily<Bitmap.Pages>, cache: PerFamily<Cache>)
    requires forall f :: Learnt(c, db, s, e, f, ids.At(f), expected.At(f), cache.At(f))
    ensures ids.tx == PrevEnd(db, e, Transaction) && ids.log == PrevEnd(db, e, Log)
    ensures ids.trace == PrevEnd(db, e, Trace)
  {
    hide PrevEnd, HoldsExpected;
    assert Learnt(c, db, s, e, Transaction, ids.At(Transaction), expected.At(Transaction), cache.At(Transaction));
    assert Learnt(c, db, s, e, Log, ids.At(Log), expected.At(Log), cache.At(Log));
    assert Learnt(c, db, s, e, Trace, ids.At(Trace), expected.At(Trace), cache.At(Trace));
  }
}
