/** The loop that feeds finalized blocks to the writer (index/mod.rs). */
module Indexer {
  import opened Seqs
  import opened Schema
  import opened Chain
  import opened IndexState
  import opened Layout
  import opened Consistency
  import opened Runs
  import opened QueryWriter

  /**
   * The writer and its tables are in a state some run on the chain reaches; every flush so far stayed below
   * `attempted`.
   */
  ghost predicate Tracks(c: Codec, ch: Chain, w: QueryWriter, attempted: nat)
    reads w
  {
    w.Valid() && w.state.nextBlock >= ch.start && Inv(c, ch, LayoutOf(c, ch), World(w.db, Some(w.View()), attempted))
  }

  lemma AppendTracks(c: Codec, ch: Chain, db: Durable, v: Writer, a: nat, b: Block)
    requires ch.Linked(c) && Inv(c, ch, LayoutOf(c, ch), World(db, Some(v), a)) && b in ch.blocks
    ensures Inv(c, ch, LayoutOf(c, ch), World(db, Some(Appended(c, v, b)), a))
  {
    hide Inv, LayoutOf, Chain.Linked, Appended;
    LayoutAgrees(c, ch);
    ExecKeeps(c, ch, LayoutOf(c, ch), World(db, Some(v), a), Append(b));
  }

  lemma FlushTracks(c: Codec, ch: Chain, db: Durable, v: Writer, a: nat, x: Faults)
    requires ch.Linked(c) && Inv(c, ch, LayoutOf(c, ch), World(db, Some(v), a))
    ensures Inv(c, ch, LayoutOf(c, ch), World(FlushedDb(c, db, v, x), Some(Flushed(c, db, v, x)), Attempt(v, a)))
  {
    hide Inv, LayoutOf, Chain.Linked, FlushedDb, Flushed, Attempt;
    LayoutAgrees(c, ch);
    ExecKeeps(c, ch, LayoutOf(c, ch), World(db, Some(v), a), Flush(x));
  }

  /** With nothing pending, everything the writer has taken is committed. */
  lemma NothingPending(c: Codec, ch: Chain, w: World)
    requires Inv(c, ch, LayoutOf(c, ch), w) && w.writer.Some? && w.writer.value.pending == []
    requires w.writer.value.state.nextBlock >= ch.start
    ensures w.writer.value.state.nextBlock == ch.start + Persisted(ch, w.db)
    ensures DbInv(LayoutOf(c, ch), w.db, Persisted(ch, w.db), Attempted(ch, w))
  {
    hide DbInv, LayoutOf, StateMatches, Agrees;
    LayoutAgrees(c, ch);
    FreshIsLive(c, ch, LayoutOf(c, ch), w.writer.value, Persisted(ch, w.db));
  }

  /** All blocks lo..hi, in order, or nothing. */
  method Fetch(reader: nat -> Option<Block>, lo: nat, hi: nat, ghost ch: Chain) returns (r: Option<seq<Block>>)
    requires lo <= hi + 1 && forall n :: reader(n).Some? ==> reader(n).value in ch.blocks
    ensures r.Some? ==> |r.value| == hi + 1 - lo && forall i :: 0 <= i < |r.value| ==> r.value[i] in ch.blocks
  {
    var blocks := [];
    for n := lo to hi + 1
      invariant |blocks| == n - lo && forall i :: 0 <= i < |blocks| ==> blocks[i] in ch.blocks
    {
      var b := reader(n);
      if b.None? {
        return None;
      }
      blocks := blocks + [b.value];
    }
    return Some(blocks);
  }

  /** One flush; on success nothing is pending. */
  method FlushAll(c: Codec, w: QueryWriter, x: Faults, ghost ch: Chain, ghost attempted0: nat)
    returns (ok: bool, ghost attempted: nat)
    requires ch.Linked(c) && Tracks(c, ch, w, attempted0) && w.pending != []
    modifies w
    ensures Tracks(c, ch, w, attempted)
    ensures ok ==> w.pending == [] && w.state.nextBlock == old(w.state.nextBlock + |w.pending|)
    ensures ok ==> attempted == Max(attempted0, w.state.nextBlock)
  {
    hide Inv, LayoutOf, Chain.Linked, Assign, FlushDb, FlushOk;
    FlushTracks(c, ch, w.db, w.View(), attempted0, x);
    attempted := Attempt(w.View(), attempted0);
    ok := w.Flush(c, x);
    assert ok ==> attempted == Max(attempted0, w.state.nextBlock);
  }

  /** Appends the fetched blocks, flushing whenever flushEvery of them are pending. */
  method AppendAll(c: Codec, w: QueryWriter, blocks: seq<Block>, next0: nat, flushEvery: nat, store: nat -> Faults,
                   ghost ch: Chain, ghost attempted0: nat)
    returns (r: Option<nat>, ghost attempted: nat)
    requires ch.Linked(c) && flushEvery > 0 && forall i :: 0 <= i < |blocks| ==> blocks[i] in ch.blocks
    requires Tracks(c, ch, w, attempted0) && next0 == w.state.nextBlock + |w.pending|
    modifies w
    ensures Tracks(c, ch, w, attempted)
    ensures r.Some? ==> r.value == next0 + |blocks| == w.state.nextBlock + |w.pending|
    ensures r.Some? ==>
      attempted0 <= attempted <= Max(attempted0, w.state.nextBlock) && old(w.state.nextBlock) <= w.state.nextBlock
  {
    hide Inv, LayoutOf, Chain.Linked, Flushed, FlushedDb;
    var next := next0;
    attempted := attempted0;
    for i := 0 to |blocks|
      invariant Tracks(c, ch, w, attempted) && next == next0 + i == w.state.nextBlock + |w.pending|
      invariant attempted0 <= attempted <= Max(attempted0, w.state.nextBlock)
      invariant old(w.state.nextBlock) <= w.state.nextBlock
    {
      AppendTracks(c, ch, w.db, w.View(), attempted, blocks[i]);
      var ok := w.Append(c, blocks[i]);
      if !ok || next + 1 > U64_MAX {
        return None, attempted;
      }
      next := next + 1;
      if |w.pending| >= flushEvery {
        ok, attempted := FlushAll(c, w, store(next), ch, attempted);
        if !ok {
          return None, attempted;
        }
      }
    }
    return Some(next), attempted;
  }

  /**
   * index_range: whatever the fetch size, the flush interval and the store's failures, the index stays
   * consistent; if it returns, everything up to `latest` is committed, and unless an earlier run had
   * attempted more, the tables are exactly those of the blocks committed.
   */
  method IndexRange(c: Codec, w: QueryWriter, reader: nat -> Option<Block>, next0: nat, latest: nat, fetchSize: nat,
                    flushEvery: nat, store: nat -> Faults, ghost ch: Chain, ghost attempted0: nat)
    returns (r: Option<nat>, ghost attempted: nat)
    requires ch.Linked(c) && forall n :: reader(n).Some? ==> reader(n).value in ch.blocks
    requires Tracks(c, ch, w, attempted0) && w.pending == [] && next0 == w.state.nextBlock
    modifies w
    ensures Tracks(c, ch, w, attempted)
    ensures r.Some? ==> r.value == w.state.nextBlock == Max(next0, latest + 1) && w.pending == []
    ensures r.Some? ==> Persisted(ch, w.db) == r.value - ch.start
    ensures r.Some? && attempted0 <= r.value ==> DbInv(LayoutOf(c, ch), w.db, r.value - ch.start, r.value - ch.start)
  {
    hide Inv, LayoutOf, Chain.Linked, DbInv;
    attempted := attempted0;
    if fetchSize == 0 || flushEvery == 0 {
      return None, attempted;
    }
    var next := next0;
    while next <= latest
      invariant Tracks(c, ch, w, attempted) && next == w.state.nextBlock + |w.pending|
      invariant next0 <= next <= Max(next0, latest + 1)
      invariant attempted0 <= attempted <= Max(attempted0, w.state.nextBlock)
      decreases latest + 1 - next
    {
      var batchEnd := if next + (fetchSize - 1) > U64_MAX then latest else Min(next + (fetchSize - 1), latest);
      var blocks := Fetch(reader, next, batchEnd, ch);
      if blocks.None? {
        return None, attempted;
      }
      var reached;
      reached, attempted := AppendAll(c, w, blocks.value, next, flushEvery, store, ch, attempted);
      if reached.None? {
        return None, attempted;
      }
      next := reached.value;
    }
    if |w.pending| != 0 {
      var ok;
      ok, attempted := FlushAll(c, w, store(next), ch, attempted);
      if !ok {
        return None, attempted;
      }
    }
    ghost var world := World(w.db, Some(w.View()), attempted);
    NothingPending(c, ch, world);
    assert attempted0 <= next ==> Attempted(ch, world) <= next - ch.start;
    assert Persisted(ch, w.db) <= Attempted(ch, world)
      by { PersistedWithin(LayoutOf(c, ch), w.db, Persisted(ch, w.db), Attempted(ch, world)); }
    return Some(next), attempted;
  }

  lemma PersistedWithin(l: Layout, db: Durable, m: nat, a: nat)
    requires DbInv(l, db, m, a)
    ensures m <= a
  {
    hide Families, StateRow;
  }
}
