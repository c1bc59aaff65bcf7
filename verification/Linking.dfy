/** Whatever blocks are offered, in whatever order, the writer only ever extends one hash-linked chain (lib.rs). */
module Linking {
  import opened Seqs
  import opened Schema
  import opened Metadata
  import opened IndexState
  import opened QueryWriter

  /** Each pending block names the one before it as its parent, and the first one the last committed block. */
  ghost predicate PendingLinked(c: Codec, w: Writer) {
    && InOrder(w.state, w.pending)
    && (w.pending != [] && w.lastHash.Some? ==> w.pending[0].header.parentHash == w.lastHash.value)
    && forall i, j :: 0 <= i < j < |w.pending| && j == i + 1 ==>
      w.pending[j].header.parentHash == c.hash(w.pending[i].header)
  }

  /** The last hash is the stored hash of the last committed block, and is missing only if there is none. */
  ghost predicate LastKnown(hashes: map<nat, Hash>, w: Writer) {
    var any := w.state.nextBlock > 0 && (w.state.indexedStart.None?
      || w.state.nextBlock - 1 >= w.state.indexedStart.value);
    && (w.lastHash.Some? <==> any)
    && (any ==> w.state.nextBlock - 1 in hashes && hashes[w.state.nextBlock - 1] == w.lastHash.value)
  }

  ghost predicate Linked(c: Codec, w: World) {
    w.writer.Some? ==> PendingLinked(c, w.writer.value) && LastKnown(w.db.hashes, w.writer.value)
  }

  /** Append takes a block exactly when it has the next number and the newest block for its parent. */
  lemma AppendLinked(c: Codec, w: Writer, b: Block)
    requires PendingLinked(c, w)
    ensures PendingLinked(c, Appended(c, w, b))
    ensures Appended(c, w, b) == if Extends(c, w, b) then w.(pending := w.pending + [b]) else w
  {
  }

  predicate Extends(c: Codec, w: Writer, b: Block) {
    && b.Number() == w.state.nextBlock + |w.pending| <= U64_MAX
    && (w.pending != [] ==> b.header.parentHash == c.hash(w.pending[|w.pending| - 1].header))
    && (w.pending == [] && w.lastHash.Some? ==> b.header.parentHash == w.lastHash.value)
  }

  // ---- the hash rows of a flush ----

  lemma {:induction false} HashRowsAre(c: Codec, batch: seq<Assigned>, first: nat, n: nat, h: nat)
    requires n <= |batch| && forall i :: 0 <= i < |batch| ==> batch[i].block.Number() == first + i
    ensures h in HashRows(c, batch, n) <==> first <= h < first + n
    ensures first <= h < first + n ==> HashRows(c, batch, n)[h] == c.hash(batch[h - first].block.header)
  {
    if n > 0 {
      HashRowsAre(c, batch, first, n - 1, h);
    }
  }

  /** A flush writes hashes at or above the next block only, and on success that of its last block. */
  lemma FlushedHashAt(c: Codec, db: Durable, batch: seq<Assigned>, first: nat, x: Faults, e: nat, h: nat)
    requires forall i :: 0 <= i < |batch| ==> batch[i].block.Number() == first + i
    ensures var hashes := FlushedHashes(c, db, batch, x, e);
      && (h < first ==> (h in hashes <==> h in db.hashes) && (h in hashes ==> hashes[h] == db.hashes[h]))
      && (7 < e && 7 < x.stop && first <= h < first + |batch| ==>
            h in hashes && hashes[h] == c.hash(batch[h - first].block.header))
  {
    hide HashRows;
    HashRowsAre(c, batch, first, |batch|, h);
  }

  lemma BatchOf(w: Writer)
    requires Prepare(w).Ready? && InOrder(w.state, w.pending)
    ensures var batch := Prepare(w).batch;
      && |batch| == |w.pending| > 0
      && forall i :: 0 <= i < |batch| ==>
        batch[i].block == w.pending[i] && batch[i].block.Number() == w.state.nextBlock + i
    ensures Prepare(w).state.nextBlock == w.state.nextBlock + |w.pending| && Prepare(w).state.indexedStart.Some?
    ensures Prepare(w).state.indexedStart.value
         == if w.state.indexedStart.Some? then w.state.indexedStart.value else w.state.nextBlock
  {
    hide Assign, RangeOf;
    AssignCounts(w.state, w.pending, |w.pending|, Log);
  }

  /** On success the last pending block becomes the last committed one. */
  lemma SuccessLinked(c: Codec, db: Durable, w: Writer, hashes: map<nat, Hash>, x: Faults, e: nat)
    requires PendingLinked(c, w) && Prepare(w).Ready? && Below(w.state)
    requires hashes == FlushedHashes(c, db, Prepare(w).batch, x, e) && 7 < e && 7 < x.stop
    ensures var w' := Writer(Prepare(w).state, Tip(c, w), []); PendingLinked(c, w') && LastKnown(hashes, w')
  {
    hide Prepare, FlushedHashes;
    BatchOf(w);
    FlushedHashAt(c, db, Prepare(w).batch, w.state.nextBlock, x, e, Prepare(w).state.nextBlock - 1);
  }

  /** On failure the stored hash of the last committed block is untouched. */
  lemma FailureLinked(c: Codec, db: Durable, w: Writer, hashes: map<nat, Hash>, x: Faults, e: nat)
    requires PendingLinked(c, w) && LastKnown(db.hashes, w) && Prepare(w).Ready?
    requires hashes == FlushedHashes(c, db, Prepare(w).batch, x, e)
    ensures LastKnown(hashes, w)
  {
    hide Prepare, FlushedHashes;
    BatchOf(w);
    if w.state.nextBlock > 0 {
      FlushedHashAt(c, db, Prepare(w).batch, w.state.nextBlock, x, e, w.state.nextBlock - 1);
    }
  }

  lemma HashesOfFlush(c: Codec, db: Durable, w: Writer, x: Faults)
    requires Prepare(w).Ready?
    ensures FlushedDb(c, db, w, x).hashes
         == FlushedHashes(c, db, Prepare(w).batch, x, ErrorStep(c, db, w.state, Prepare(w).batch))
  {
    hide Prepare, ErrorStep, FlushedHashes, BlobRows, LocRows, PageRows, StatRows, Landed, FlushedState;
  }

  lemma FlushLinked(c: Codec, db: Durable, w: Writer, x: Faults)
    requires PendingLinked(c, w) && LastKnown(db.hashes, w) && Prepare(w).Ready? && Below(w.state)
    ensures PendingLinked(c, Flushed(c, db, w, x)) && LastKnown(FlushedDb(c, db, w, x).hashes, Flushed(c, db, w, x))
  {
    hide Prepare, ErrorStep, FlushedHashes, PendingLinked, LastKnown, FlushedDb;
    var e, hashes := ErrorStep(c, db, w.state, Prepare(w).batch), FlushedDb(c, db, w, x).hashes;
    HashesOfFlush(c, db, w, x);
    if FlushOk(c, db, w.state, Prepare(w).batch, x) {
      SuccessLinked(c, db, w, hashes, x, e);
    } else {
      FailureLinked(c, db, w, hashes, x, e);
    }
  }

  // ---- every run, with any blocks at all ----

  /** The start never lies above the next block. */
  ghost predicate StartBelow(w: World) {
    && (w.db.state.Some? ==> Below(w.db.state.value)) && (w.writer.Some? ==> Below(w.writer.value.state))
  }

  predicate Below(st: StateIndex) { st.indexedStart.Some? ==> st.indexedStart.value <= st.nextBlock }

  lemma FlushBelow(c: Codec, db: Durable, w: Writer, x: Faults)
    requires Below(w.state) && (db.state.Some? ==> Below(db.state.value)) && InOrder(w.state, w.pending)
    ensures Below(Flushed(c, db, w, x).state)
    ensures FlushedDb(c, db, w, x).state.Some? ==> Below(FlushedDb(c, db, w, x).state.value)
  {
    hide Prepare, FlushOk, ErrorStep, FlushedHashes, BlobRows, LocRows, PageRows, StatRows, Landed;
    if Prepare(w).Ready? {
      BatchOf(w);
    }
  }

  lemma ExecLinked(c: Codec, w: World, op: Op)
    requires Linked(c, w) && StartBelow(w)
    ensures Linked(c, Exec(c, w, op)) && StartBelow(Exec(c, w, op))
  {
    hide PendingLinked, LastKnown, FlushedDb, Flushed, Appended, InOrder;
    match op
    case Open => OpenLinked(c, w.db);
    case Crash =>
    case StartAt(block) => if w.writer.Some? { StartLinked(c, w.db, w.writer.value, block); }
    case Append(b) =>
      if w.writer.Some? {
        AppendLinked(c, w.writer.value, b);
        AppendKeepsState(c, w.db, w.writer.value, b);
      }
    case Flush(x) =>
      if w.writer.Some? {
        var wr := w.writer.value;
        NumbersOf(c, wr);
        FlushBelow(c, w.db, wr, x);
        if Prepare(wr).Ready? {
          FlushLinked(c, w.db, wr, x);
        } else {
          NothingFlushed(c, w.db, wr, x);
        }
      }
  }

  lemma NumbersOf(c: Codec, w: Writer)
    requires PendingLinked(c, w)
    ensures InOrder(w.state, w.pending)
  {
  }

  lemma NothingFlushed(c: Codec, db: Durable, w: Writer, x: Faults)
    requires !Prepare(w).Ready?
    ensures Flushed(c, db, w, x) == w && FlushedDb(c, db, w, x) == db
  {
  }

  lemma OpenLinked(c: Codec, db: Durable)
    ensures OpenWriter(db).Some? ==>
      PendingLinked(c, OpenWriter(db).value) && LastKnown(db.hashes, OpenWriter(db).value)
    ensures OpenWriter(db).Some? && (db.state.Some? ==> Below(db.state.value)) ==> Below(OpenWriter(db).value.state)
  {
  }

  lemma StartLinked(c: Codec, db: Durable, w: Writer, block: nat)
    requires PendingLinked(c, w) && LastKnown(db.hashes, w) && Below(w.state)
    ensures PendingLinked(c, Started(w, block)) && LastKnown(db.hashes, Started(w, block))
    ensures Below(Started(w, block).state)
  {
  }

  lemma AppendKeepsState(c: Codec, db: Durable, w: Writer, b: Block)
    requires LastKnown(db.hashes, w)
    ensures LastKnown(db.hashes, Appended(c, w, b)) && Appended(c, w, b).state == w.state
  {
  }

  /**
   * In every run, with any blocks offered and any failures of the store, pending blocks are linked by
   * number and parent hash to each other and to the stored hash of the last committed block.
   */
  lemma {:induction false} RunLinked(c: Codec, ops: seq<Op>, n: nat)
    requires n <= |ops|
    ensures Linked(c, Run(c, EMPTY_WORLD, ops, n)) && StartBelow(Run(c, EMPTY_WORLD, ops, n))
  {
    hide PendingLinked, LastKnown, Exec;
    if n > 0 {
      RunLinked(c, ops, n - 1);
      ExecLinked(c, Run(c, EMPTY_WORLD, ops, n - 1), ops[n - 1]);
    }
  }
}
