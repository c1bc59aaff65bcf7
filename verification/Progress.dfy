/** What can be committed: exactly the blocks that decode and whose ids fit (lib.rs, flush.rs). */
module Progress {
  import opened Seqs
  import opened Schema
  import opened Chain
  import opened Metadata
  import opened IndexState
  import opened Layout
  import opened Consistency
  import opened Runs
  import opened QueryWriter

  /** The ids of block i's rows in the chain. */
  function ChainRange(ch: Chain, f: Family, i: nat): Range
    requires i < |ch.blocks|
  {
    Range(Front(ch, f, i), |BlockRows(ch.blocks[i], f)|)
  }

  ghost predicate IdsFit(ch: Chain, i: nat)
    requires i < |ch.blocks|
  {
    forall f: Family :: f != BlockHeader ==> FitsWidths(ChainRange(ch, f, i))
  }

  /** Block i decodes, its ids fit, and so does the number after it. */
  ghost predicate Committable(c: Codec, ch: Chain, i: nat)
    requires i < |ch.blocks|
  {
    Indexable(c, ch.blocks[i]) && IdsFit(ch, i) && ch.start + i + 1 <= U64_MAX
  }

  // ---- ids of pending blocks are ids of the chain ----

  lemma {:induction false} PendingRange(ch: Chain, st: StateIndex, pending: seq<Block>, n: nat, f: Family, j: nat)
    requires n + |pending| <= |ch.blocks| && pending == ch.blocks[n..n + |pending|] && j < |pending|
    requires Counter(st, f) == Front(ch, f, n)
    ensures RangeOf(st, pending, f, j) == ChainRange(ch, f, n + j)
  {
    hide BlockRows, Offset, Front;
    if j == 0 {
      NoOffset(RowGroups(pending, f));
    } else {
      PendingRange(ch, st, pending, n, f, j - 1);
      OffsetStep(RowGroups(pending, f), j - 1);
      FrontStep(ch, f, n + j - 1);
    }
  }

  lemma LiveFronts(c: Codec, ch: Chain, l: Layout, w: Writer, n: nat, m: nat, f: Family)
    requires Agrees(c, ch, l) && LiveAt(c, ch, l, w, n, m) && f != BlockHeader
    ensures Counter(w.state, f) == Front(ch, f, n)
  {
    hide AgreesFamily, Layout.WfFamily, Front;
    LiveCounters(c, ch, l, w, n, m);
    assert AgreesFamily(c, ch, l, f);
    FrontsAgree(c, ch, l, f, n);
  }

  lemma PendingFits(c: Codec, ch: Chain, l: Layout, w: Writer, n: nat, m: nat, j: nat)
    requires Agrees(c, ch, l) && LiveAt(c, ch, l, w, n, m) && j < |w.pending|
    ensures RangesFit(w.state, w.pending, j) <==> IdsFit(ch, n + j)
  {
    hide Agrees, StateMatches, ChainRange, RangeOf, FitsWidths;
    var i := n + j;
    forall f: Family | f != BlockHeader ensures RangeOf(w.state, w.pending, f, j) == ChainRange(ch, f, i) {
      LiveFronts(c, ch, l, w, n, m, f);
      PendingRange(ch, w.state, w.pending, n, f, j);
    }
  }

  ghost predicate AllCommittable(c: Codec, ch: Chain, lo: nat, hi: nat)
    requires hi <= |ch.blocks|
  {
    forall i :: lo <= i < hi ==> Committable(c, ch, i)
  }

  /** A live writer's pending blocks are prepared exactly when their ids fit. */
  lemma ReadyIff(c: Codec, ch: Chain, l: Layout, w: Writer, n: nat, m: nat)
    requires ch.Linked(c) && Agrees(c, ch, l) && LiveAt(c, ch, l, w, n, m) && w.pending != []
    ensures var hi := n + |w.pending|;
      AllCommittable(c, ch, n, hi) <==>
        Prepare(w).Ready? && forall i :: n <= i < hi ==> Indexable(c, ch.blocks[i])
  {
    hide Agrees, StateMatches, IdsFit, RangesFit, Assign, Chain.Linked, Indexable;
    var p := |w.pending|;
    AssignIff(w.state, w.pending, p);
    NumberAt(c, ch, n + p - 1);
    assert w.pending[p - 1] == ch.blocks[n + p - 1];
    forall j | 0 <= j < p ensures RangesFit(w.state, w.pending, j) <==> IdsFit(ch, n + j) {
      PendingFits(c, ch, l, w, n, m, j);
    }
    if AllCommittable(c, ch, n, n + p) {
      assert Committable(c, ch, n + p - 1);
      forall j | 0 <= j < p ensures RangesFit(w.state, w.pending, j) { assert Committable(c, ch, n + j); }
      forall i | n <= i < n + p ensures Indexable(c, ch.blocks[i]) { assert Committable(c, ch, i); }
    }
    if Prepare(w).Ready? && forall i :: n <= i < n + p ==> Indexable(c, ch.blocks[i]) {
      forall i | n <= i < n + p ensures Committable(c, ch, i) { assert RangesFit(w.state, w.pending, i - n); }
    }
  }

  // ---- one flush ----

  lemma IndexableIff(c: Codec, ch: Chain, batch: seq<Assigned>, n: nat)
    requires n + |batch| <= |ch.blocks| && Blocks(batch) == ch.blocks[n..n + |batch|]
    ensures AllIndexable(c, batch) <==> forall i :: n <= i < n + |batch| ==> Indexable(c, ch.blocks[i])
  {
    hide Indexable;
    forall i | 0 <= i < |batch| ensures batch[i].block == ch.blocks[n + i] {
      assert batch[i].block == Blocks(batch)[i];
    }
    if AllIndexable(c, batch) {
      forall i | n <= i < n + |batch| ensures Indexable(c, ch.blocks[i]) { assert Indexable(c, batch[i - n].block); }
    }
  }

  /** The state row moves past the pending blocks exactly when they can be committed and it lands. */
  lemma FlushMoves(c: Codec, ch: Chain, l: Layout, db: Durable, w: Writer, x: Faults, n: nat, m: nat, a: nat)
    requires ch.Linked(c) && Agrees(c, ch, l) && DbInv(l, db, m, a) && LiveAt(c, ch, l, w, n, m) && w.pending != []
    ensures var hi := n + |w.pending|;
      && (FlushSucceeds(c, db, w, x) <==> AllCommittable(c, ch, n, hi) && x.stop > 10)
      && Persisted(ch, FlushedDb(c, db, w, x))
        == if AllCommittable(c, ch, n, hi) && (x.stop > 10 || (x.stop == 10 && x.state)) then hi else m
  {
    hide Families, HashesInv, FlushDb, Made, Chain.Linked, StateMatches, Flushing, StateRow, BatchFits, AllIndexable,
      AgreesFamily, Layout.WfFamily, Persisted, AllCommittable, Indexable, Assign;
    ReadyIff(c, ch, l, w, n, m);
    if Prepare(w).Ready? {
      var batch, state' := Prepare(w).batch, Prepare(w).state;
      assert Made(w, batch, state') by { MadeReady(w); }
      PreparedBatch(c, ch, l, w, n, m, batch, state');
      AllFlush(c, ch, l, w.state, batch, n, m, a);
      FlushDbKeeps(c, l, db, w.state, batch, state', n, m, a, x);
      IndexableIff(c, ch, batch, n);
      var e := if AllIndexable(c, batch) then 11 else 5;
      PersistedIs(ch, l, FlushDb(c, db, w.state, batch, state', x), PersistedAfter(e, x, n + |batch|, m));
    } else {
      PersistedIs(ch, l, db, m);
    }
  }

  lemma MadeReady(w: Writer)
    requires Prepare(w).Ready?
    ensures Made(w, Prepare(w).batch, Prepare(w).state)
  {
    hide Assign;
  }

  // ---- every run ----

  lemma FlushCommittable(c: Codec, ch: Chain, l: Layout, w: World, x: Faults)
    requires ch.Linked(c) && Agrees(c, ch, l) && Inv(c, ch, l, w) && w.writer.Some?
    requires Persisted(ch, w.db) <= |ch.blocks| && AllCommittable(c, ch, 0, Persisted(ch, w.db))
    ensures var w' := Exec(c, w, Flush(x));
      Persisted(ch, w'.db) <= |ch.blocks| && AllCommittable(c, ch, 0, Persisted(ch, w'.db))
  {
    hide DbInv, Agrees, StateMatches, FlushedDb, Flushed, Chain.Linked, Persisted, Committable, Attempt;
    var wr := w.writer.value;
    if wr.pending == [] || wr.state.nextBlock < ch.start {
      NothingToFlush(c, w.db, wr, x);
    } else {
      var n, m := wr.state.nextBlock - ch.start, Persisted(ch, w.db);
      FreshIsLive(c, ch, l, wr, m);
      FlushMoves(c, ch, l, w.db, wr, x, n, m, Attempted(ch, w));
    }
  }

  lemma NothingToFlush(c: Codec, db: Durable, w: Writer, x: Faults)
    requires w.pending == []
    ensures FlushedDb(c, db, w, x) == db
  {
  }

  /** Nothing but committable blocks is ever committed. */
  lemma {:induction false} RunCommits(c: Codec, ch: Chain, ops: seq<Op>, n: nat)
    requires ch.Linked(c) && n <= |ops| && forall i :: 0 <= i < |ops| ==> OpOk(ch, ops[i])
    ensures var m := Persisted(ch, Run(c, EMPTY_WORLD, ops, n).db);
      m <= |ch.blocks| && AllCommittable(c, ch, 0, m)
  {
    hide Inv, LayoutOf, Agrees, Chain.Linked, OpOk, OpenWriter, Started, Appended, Flushed, FlushedDb, Attempt,
      AllCommittable;
    if n == 0 {
      NoneCommitted(c, ch);
    } else {
      RunCommits(c, ch, ops, n - 1);
      RunKeeps(c, ch, ops, n - 1);
      LayoutAgrees(c, ch);
      var w := Run(c, EMPTY_WORLD, ops, n - 1);
      if ops[n - 1].Flush? && w.writer.Some? {
        FlushCommittable(c, ch, LayoutOf(c, ch), w, ops[n - 1].faults);
      }
    }
  }

  lemma NoneCommitted(c: Codec, ch: Chain)
    ensures Persisted(ch, EMPTY_DB) == 0 && AllCommittable(c, ch, 0, 0)
  {
  }

  // ---- catching up after any run ----

  /** Reopen, name the start, append blocks m..k and flush. */
  function CatchUp(ch: Chain, m: nat, k: nat, x: Faults): (ops: seq<Op>)
    requires m <= k <= |ch.blocks|
    ensures |ops| == k - m + 3
  {
    [Open, StartAt(ch.start)] + seq(k - m, i requires 0 <= i < k - m => Append(ch.blocks[m + i])) + [Flush(x)]
  }

  lemma {:induction false} RunAppended(c: Codec, w: World, ops: seq<Op>, more: seq<Op>, n: nat)
    requires n <= |more|
    ensures Run(c, w, ops + more, |ops| + n) == Run(c, Run(c, w, ops, |ops|), more, n)
  {
    hide Exec;
    if n == 0 {
      RunPrefix(c, w, ops, more, |ops|);
    } else {
      RunAppended(c, w, ops, more, n - 1);
      assert (ops + more)[|ops| + n - 1] == more[n - 1];
    }
  }

  lemma {:induction false} RunPrefix(c: Codec, w: World, ops: seq<Op>, more: seq<Op>, n: nat)
    requires n <= |ops|
    ensures Run(c, w, ops + more, n) == Run(c, w, ops, n)
  {
    hide Exec;
    if n > 0 {
      RunPrefix(c, w, ops, more, n - 1);
      assert (ops + more)[n - 1] == ops[n - 1];
    }
  }

  /** A writer with the given tables, at block m of the chain with p blocks pending. */
  ghost predicate Ahead(c: Codec, ch: Chain, l: Layout, w: World, db: Durable, attempted: nat, m: nat, p: nat) {
    && w.db == db && w.attempted == attempted && w.writer.Some? && |w.writer.value.pending| == p
    && LiveAt(c, ch, l, w.writer.value, m, m)
  }

  lemma Reopened(c: Codec, ch: Chain, l: Layout, w: World)
    requires ch.Linked(c) && Agrees(c, ch, l) && Inv(c, ch, l, w)
    ensures var w' := Exec(c, Exec(c, w, Open), StartAt(ch.start));
      Ahead(c, ch, l, w', w.db, w.attempted, Persisted(ch, w.db), 0)
  {
    hide Families, HashesInv, AgreesFamily, Layout.WfFamily, Chain.Linked, StateMatches;
    var m := Persisted(ch, w.db);
    OpenKeeps(c, ch, l, w.db, m, Attempted(ch, w));
    var wr := OpenWriter(w.db).value;
    StartKeeps(c, ch, l, wr, m);
    var wr' := Started(wr, ch.start);
    FreshIsLive(c, ch, l, wr', m);
    LiveCounters(c, ch, l, wr', wr'.state.nextBlock - ch.start, m);
  }

  lemma NextAccepted(c: Codec, ch: Chain, l: Layout, w: World, db: Durable, attempted: nat, m: nat, p: nat)
    requires ch.Linked(c) && l.start == ch.start && Ahead(c, ch, l, w, db, attempted, m, p) && m + p < |ch.blocks|
    requires Committable(c, ch, m + p)
    ensures Ahead(c, ch, l, Exec(c, w, Append(ch.blocks[m + p])), db, attempted, m, p + 1)
  {
    hide StateMatches, Indexable, IdsFit;
    var wr, b := w.writer.value, ch.blocks[m + p];
    LiveCounters(c, ch, l, wr, m, m);
    NumberAt(c, ch, m + p);
    assert p > 0 ==> wr.pending[p - 1] == ch.blocks[m + p - 1];
    AppendLive(c, ch, l, wr, m, m, m + p);
  }

  lemma {:induction false} CaughtUp(c: Codec, ch: Chain, l: Layout, w: World, k: nat, x: Faults, p: nat)
    requires ch.Linked(c) && Agrees(c, ch, l) && Inv(c, ch, l, w)
    requires var m := Persisted(ch, w.db); m <= m + p <= k <= |ch.blocks| && AllCommittable(c, ch, m, k)
    ensures var m := Persisted(ch, w.db);
      Ahead(c, ch, l, Run(c, w, CatchUp(ch, m, k, x), p + 2), w.db, w.attempted, m, p)
  {
    hide Inv, Chain.Linked, Committable, Persisted, Ahead, AgreesFamily, Exec, Layout.Wf;
    var m := Persisted(ch, w.db);
    var ops := CatchUp(ch, m, k, x);
    if p == 0 {
      Reopened(c, ch, l, w);
      assert Run(c, w, ops, 0) == w && Run(c, w, ops, 1) == Exec(c, w, Open);
      assert Run(c, w, ops, 2) == Exec(c, Exec(c, w, Open), StartAt(ch.start));
    } else {
      CaughtUp(c, ch, l, w, k, x, p - 1);
      assert ops[p + 1] == Append(ch.blocks[m + p - 1]);
      NextAccepted(c, ch, l, Run(c, w, ops, p + 1), w.db, w.attempted, m, p - 1);
    }
  }

  lemma TablesOf(c: Codec, ch: Chain, l: Layout, w: World)
    requires Inv(c, ch, l, w)
    ensures DbInv(l, w.db, Persisted(ch, w.db), Attempted(ch, w))
  {
  }

  /** The flush that ends it. */
  lemma LastFlush(c: Codec, ch: Chain, l: Layout, w: World, w': World, m: nat, k: nat, x: Faults)
    requires ch.Linked(c) && Agrees(c, ch, l) && Inv(c, ch, l, w) && m == Persisted(ch, w.db) < k <= |ch.blocks|
    requires AllCommittable(c, ch, m, k) && x.stop > 10 && Ahead(c, ch, l, w', w.db, w.attempted, m, k - m)
    ensures var w'' := Exec(c, w', Flush(x));
      Persisted(ch, w''.db) == k && Attempted(ch, w'') == Max(Attempted(ch, w), k)
  {
    hide DbInv, WriterInv, Chain.Linked, Committable, Persisted, AgreesFamily, Layout.Wf, StateMatches, FlushedDb,
      Flushed, AllIndexable, Assign, FlushOk;
    var wr := w'.writer.value;
    FlushMoves(c, ch, l, w.db, wr, x, m, m, Attempted(ch, w));
    MadeReady(wr);
    PreparedBatch(c, ch, l, wr, m, m, Prepare(wr).batch, Prepare(wr).state);
  }

  ghost predicate OnChain(ch: Chain, ops: seq<Op>) {
    forall i :: 0 <= i < |ops| ==> OpOk(ch, ops[i])
  }

  /** The run ends with the first k blocks committed and has never tried more than a. */
  ghost predicate Ends(c: Codec, ch: Chain, ops: seq<Op>, k: nat, a: nat) {
    var w := Run(c, EMPTY_WORLD, ops, |ops|); OnChain(ch, ops) && Persisted(ch, w.db) == k && Attempted(ch, w) == a
  }

  lemma CatchUpOnChain(ch: Chain, ops: seq<Op>, m: nat, k: nat, x: Faults)
    requires OnChain(ch, ops) && m <= k <= |ch.blocks|
    ensures OnChain(ch, ops + CatchUp(ch, m, k, x))
  {
  }

  /**
   * From whatever a run has left, any committable blocks can be reached: reopening, appending what is
   * missing and one flush that the store completes commit exactly them.
   */
  lemma Resumes(c: Codec, ch: Chain, ops: seq<Op>, m: nat, a: nat, k: nat, x: Faults)
    requires ch.Linked(c) && Ends(c, ch, ops, m, a) && m < k <= |ch.blocks| && x.stop > 10
    requires AllCommittable(c, ch, 0, k)
    ensures Ends(c, ch, ops + CatchUp(ch, m, k, x), k, Max(a, k))
  {
    hide Inv, LayoutOf, Chain.Linked, Committable, Persisted, Attempted, Agrees, OpOk, Ahead, Exec;
    var w, l := Run(c, EMPTY_WORLD, ops, |ops|), LayoutOf(c, ch);
    var more := CatchUp(ch, m, k, x);
    LayoutAgrees(c, ch);
    RunKeeps(c, ch, ops, |ops|);
    CaughtUp(c, ch, l, w, k, x, k - m);
    CatchUpOnChain(ch, ops, m, k, x);
    RunAppended(c, EMPTY_WORLD, ops, more, |more|);
    LastFlush(c, ch, l, w, Run(c, w, more, |more| - 1), m, k, x);
    assert more[|more| - 1] == Flush(x);
  }

  /** Blocks can be committed by some run exactly when each of them is committable. */
  lemma CommitsIff(c: Codec, ch: Chain, k: nat)
    requires ch.Linked(c) && k <= |ch.blocks|
    ensures AllCommittable(c, ch, 0, k) <==> exists ops, a :: Ends(c, ch, ops, k, a)
  {
    hide Chain.Linked, Committable, Persisted, Attempted, OpOk, Run;
    if AllCommittable(c, ch, 0, k) {
      EmptyEnds(c, ch);
      if k > 0 {
        var x := Faults(11, {}, NoRows({}), NoRows({}), NoRows({}), {}, NoRows({}), NoRows({}), false);
        Resumes(c, ch, [], 0, 0, k, x);
      }
    }
    forall ops, a | Ends(c, ch, ops, k, a) ensures AllCommittable(c, ch, 0, k) { RunCommits(c, ch, ops, |ops|); }
  }

  lemma EmptyEnds(c: Codec, ch: Chain)
    ensures Ends(c, ch, [], 0, 0)
  {
  }

  /** ... and recovering with them leaves the tables of a run whose store never failed. */
  lemma RecoversClean(c: Codec, ch: Chain, ops: seq<Op>, m: nat, a: nat, k: nat, x: Faults, clean: seq<Op>)
    requires ch.Linked(c) && Ends(c, ch, ops, m, a) && m < k <= |ch.blocks| && a <= k && x.stop > 10
    requires Indexes(c, ch) && (forall i :: 0 <= i < |clean| ==> OpOk(ch, clean[i]) && NoFault(clean[i]))
    requires Persisted(ch, Run(c, EMPTY_WORLD, clean, |clean|).db) == k
    ensures var all := ops + CatchUp(ch, m, k, x);
      Run(c, EMPTY_WORLD, all, |all|).db == Run(c, EMPTY_WORLD, clean, |clean|).db
  {
    hide Chain.Linked, Committable, Persisted, Attempted, OpOk, Run, Indexes;
    CleanRun(c, ch, clean, |clean|);
    RunCommits(c, ch, clean, |clean|);
    Resumes(c, ch, ops, m, a, k, x);
    RecoveredRunsAgree(c, ch, ops + CatchUp(ch, m, k, x), clean);
  }
}
