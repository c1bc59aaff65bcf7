/** Durable tables, the writer's memory, and what each writer operation does to them (lib.rs). */
module IndexState {
  import opened Seqs
  import opened Schema
  import opened Chain
  import opened Metadata
  import Payload
  import Bitmap

  const U32_MAX: nat := 0xFFFF_FFFF
  const U64_MAX: nat := 0xFFFF_FFFF_FFFF_FFFF

  datatype StateIndex = StateIndex(
    indexedStart: Option<nat>, nextBlock: nat, nextLog: nat, nextTx: nat, nextTrace: nat)
  {
    /** The id a family's rows are committed up to, if any (payload.rs). */
    function CommittedId(f: Family): Option<nat> {
      match f
      case BlockHeader =>
        if nextBlock > 0 && (indexedStart.None? || nextBlock - 1 >= indexedStart.value) then Some(nextBlock - 1)
        else None
      case Transaction => if nextTx > 0 then Some(nextTx - 1) else None
      case Log => if nextLog > 0 then Some(nextLog - 1) else None
      case Trace => if nextTrace > 0 then Some(nextTrace - 1) else None
    }

    /** What the state row reads back as: a missing start is stored as 0. */
    function Stored(): StateIndex {
      this.(indexedStart := Some(if indexedStart.Some? then indexedStart.value else 0))
    }
  }

  const EMPTY_STATE := StateIndex(None, 0, 0, 0, 0)

  datatype Durable = Durable(
    blobs: PerFamily<map<nat, Bytes>>,
    locs: PerFamily<map<nat, nat>>,
    pages: PerFamily<Bitmap.Pages>,
    stats: PerFamily<Bitmap.Stats>,
    hashes: map<nat, Hash>,
    ranges: PerFamily<map<nat, Range>>,
    index: PerFamily<map<nat, nat>>,
    state: Option<StateIndex>)

  datatype Writer = Writer(state: StateIndex, lastHash: Option<Hash>, pending: seq<Block>)

  // ---- prepare_flush ----

  datatype Prepared = Nothing | Rejected | Ready(batch: seq<Assigned>, state: StateIndex)

  /** Ranges for the first n pending blocks, with the counters advanced past them; None on overflow. */
  function Assign(state: StateIndex, pending: seq<Block>, n: nat): Option<(seq<Assigned>, StateIndex)>
    requires n <= |pending|
  {
    if n == 0 then Some(([], state)) else
      var before :- Assign(state, pending, n - 1);
      AssignOne(before.0, before.1, pending[n - 1])
  }

  function AssignOne(batch: seq<Assigned>, next: StateIndex, b: Block): Option<(seq<Assigned>, StateIndex)> {
    var txs := Range(next.nextTx, |BlockRows(b, Transaction)|);
    var logs := Range(next.nextLog, |BlockRows(b, Log)|);
    var traces := Range(next.nextTrace, |BlockRows(b, Trace)|);
    if txs.count > U32_MAX || logs.count > U32_MAX || traces.count > U32_MAX then None
    else if txs.End() > U64_MAX || logs.End() > U64_MAX || traces.End() > U64_MAX then None
    else Some((batch + [Assigned(b, logs, txs, traces)],
               next.(nextTx := txs.End(), nextLog := logs.End(), nextTrace := traces.End())))
  }

  function Prepare(w: Writer): Prepared {
    if w.pending == [] then Nothing else
      var last := w.pending[|w.pending| - 1].Number();
      match Assign(w.state, w.pending, |w.pending|)
      case None => Rejected
      case Some((batch, next)) =>
        if last + 1 > U64_MAX then Rejected else
          var start := if w.state.indexedStart.Some? then w.state.indexedStart else Some(w.pending[0].Number());
          Ready(batch, next.(indexedStart := start, nextBlock := last + 1))
  }

  // ---- flush_batch, with a store that may fail ----

  function Blocks(batch: seq<Assigned>): (r: seq<Block>)
    ensures |r| == |batch|
  {
    seq(|batch|, i requires 0 <= i < |batch| => batch[i].block)
  }

  function First(batch: seq<Assigned>, f: Family): nat {
    if batch == [] then 0 else batch[0].Of(f).first
  }

  function PayloadOf(c: Codec, db: Durable, state: StateIndex, batch: seq<Assigned>, f: Family): Payload.FamilyFlush {
    Payload.FamilyFlush(db.blobs.At(f), db.locs.At(f), state.CommittedId(f),
      RowStream(c, Blocks(batch), f, First(batch, f)))
  }

  function TagsOfBatch(c: Codec, batch: seq<Assigned>, f: Family): Bitmap.Tags {
    TagStream(c, Blocks(batch), f, First(batch, f))
  }

  /**
   * Writes happen in steps: 0..3 the blobs of each family, 4 the locations, 5 the pages, 6 the page
   * statistics, 7 the hashes, 8 the ranges, 9 the block index, 10 the state row. The store fails at
   * step `stop` (no failure if it is above 10); of that step's rows any subset has landed.
   */
  datatype Faults = Faults(
    stop: nat,
    blobs: set<nat>, locs: PerFamily<set<nat>>,
    pages: PerFamily<set<Bitmap.PageKey>>, stats: PerFamily<set<Bitmap.PageKey>>,
    hashes: set<nat>, ranges: PerFamily<set<nat>>, index: PerFamily<set<nat>>, state: bool)

  predicate PayloadOk(c: Codec, db: Durable, state: StateIndex, batch: seq<Assigned>, f: Family) {
    var ff := PayloadOf(c, db, state, batch, f);
    ff.Ok(Payload.Parts(ff.batch))
  }

  predicate AllIndexable(c: Codec, batch: seq<Assigned>) {
    forall i :: 0 <= i < |batch| ==> Indexable(c, batch[i].block)
  }

  /** The step before which the flush itself gives up; 11 if it does not. */
  function ErrorStep(c: Codec, db: Durable, state: StateIndex, batch: seq<Assigned>): nat {
    if !PayloadOk(c, db, state, batch, BlockHeader) then 0
    else if !PayloadOk(c, db, state, batch, Transaction) then 1
    else if !PayloadOk(c, db, state, batch, Log) then 2
    else if !PayloadOk(c, db, state, batch, Trace) then 3
    else if !AllIndexable(c, batch) then 5
    else 11
  }

  /** The rows of a step that are in the store afterwards. */
  function Landed<K, V>(rows: map<K, V>, step: nat, error: nat, stop: nat, kept: set<K>): map<K, V> {
    if step >= error || step > stop then map[]
    else if step < stop then rows
    else map k | k in rows && k in kept :: rows[k]
  }

  function BlobRows(c: Codec, db: Durable, state: StateIndex, batch: seq<Assigned>, f: Family): map<nat, Bytes> {
    var ff := PayloadOf(c, db, state, batch, f);
    if ff.Ok(Payload.Parts(ff.batch)) then ff.BlobRows(Payload.Parts(ff.batch)) else map[]
  }

  function LocRows(c: Codec, db: Durable, state: StateIndex, batch: seq<Assigned>, f: Family): map<nat, nat> {
    var ff := PayloadOf(c, db, state, batch, f);
    if ff.Ok(Payload.Parts(ff.batch)) then ff.LocRows(Payload.Parts(ff.batch)) else map[]
  }

  function PageRows(c: Codec, db: Durable, batch: seq<Assigned>, f: Family): Bitmap.Pages {
    Bitmap.PageRows(db.pages.At(f), TagsOfBatch(c, batch, f))
  }

  function StatRows(c: Codec, db: Durable, batch: seq<Assigned>, f: Family): Bitmap.Stats {
    Bitmap.StatRows(db.pages.At(f), TagsOfBatch(c, batch, f))
  }

  function FlushDb(c: Codec, db: Durable, state: StateIndex, batch: seq<Assigned>, state': StateIndex,
                   x: Faults): Durable {
    var e := ErrorStep(c, db, state, batch);
    Durable(
      Tabulate(f => db.blobs.At(f) + Landed(BlobRows(c, db, state, batch, f), Rank(f), e, x.stop, x.blobs)),
      Tabulate(f => db.locs.At(f) + Landed(LocRows(c, db, state, batch, f), 4, e, x.stop, x.locs.At(f))),
      Tabulate(f => db.pages.At(f) + Landed(PageRows(c, db, batch, f), 5, e, x.stop, x.pages.At(f))),
      Tabulate(f => db.stats.At(f) + Landed(StatRows(c, db, batch, f), 6, e, x.stop, x.stats.At(f))),
      FlushedHashes(c, db, batch, x, e),
      Tabulate(f => db.ranges.At(f) + Landed(RangeRows(batch, f, |batch|), 8, e, x.stop, x.ranges.At(f))),
      Tabulate(f => db.index.At(f) + Landed(IndexRows(batch, f, |batch|), 9, e, x.stop, x.index.At(f))),
      FlushedState(db, state', x, e))
  }

  function FlushedHashes(c: Codec, db: Durable, batch: seq<Assigned>, x: Faults, e: nat): map<nat, Hash> {
    db.hashes + Landed(HashRows(c, batch, |batch|), 7, e, x.stop, x.hashes)
  }

  function FlushedState(db: Durable, state': StateIndex, x: Faults, e: nat): Option<StateIndex> {
    if 10 < e && (10 < x.stop || (10 == x.stop && x.state)) then Some(state'.Stored()) else db.state
  }

  predicate FlushOk(c: Codec, db: Durable, state: StateIndex, batch: seq<Assigned>, x: Faults) {
    10 < ErrorStep(c, db, state, batch) && 10 < x.stop
  }

  // ---- operations ----

  /** `attempted` records the highest next_block_id any flush has tried to commit. */
  datatype World = World(db: Durable, writer: Option<Writer>, attempted: nat)

  datatype Op = Open | Crash | StartAt(block: nat) | Append(b: Block) | Flush(faults: Faults)

  function OpenWriter(db: Durable): Option<Writer> {
    var state := if db.state.Some? then db.state.value else EMPTY_STATE;
    if state.nextBlock > 0 && (state.indexedStart.None? || state.nextBlock - 1 >= state.indexedStart.value) then
      if state.nextBlock - 1 in db.hashes then Some(Writer(state, Some(db.hashes[state.nextBlock - 1]), [])) else None
    else Some(Writer(state, None, []))
  }

  predicate CanStart(w: Writer) {
    w.state.indexedStart.None? && w.state.nextBlock == 0 && w.pending == []
  }

  function Started(w: Writer, block: nat): Writer {
    if CanStart(w) then w.(state := w.state.(indexedStart := Some(block), nextBlock := block)) else w
  }

  function Tip(c: Codec, w: Writer): Option<Hash> {
    if w.pending != [] then Some(c.hash(w.pending[|w.pending| - 1].header)) else w.lastHash
  }

  predicate Accepts(c: Codec, w: Writer, b: Block) {
    && w.state.nextBlock + |w.pending| <= U64_MAX
    && b.Number() == w.state.nextBlock + |w.pending|
    && (Tip(c, w).Some? ==> b.header.parentHash == Tip(c, w).value)
  }

  function Appended(c: Codec, w: Writer, b: Block): Writer {
    if Accepts(c, w, b) then w.(pending := w.pending + [b]) else w
  }

  function Flushed(c: Codec, db: Durable, w: Writer, x: Faults): Writer {
    match Prepare(w)
    case Ready(batch, state') =>
      if FlushOk(c, db, w.state, batch, x) then Writer(state', Tip(c, w), []) else w
    case _ => w
  }

  function FlushedDb(c: Codec, db: Durable, w: Writer, x: Faults): Durable {
    match Prepare(w)
    case Ready(batch, state') => FlushDb(c, db, w.state, batch, state', x)
    case _ => db
  }

  function Attempt(w: Writer, attempted: nat): nat {
    match Prepare(w)
    case Ready(_, state') => Max(attempted, state'.nextBlock)
    case _ => attempted
  }

  function Exec(c: Codec, w: World, op: Op): World {
    match op
    case Open => w.(writer := OpenWriter(w.db))
    case Crash => w.(writer := None)
    case StartAt(block) => if w.writer.None? then w else w.(writer := Some(Started(w.writer.value, block)))
    case Append(b) => if w.writer.None? then w else w.(writer := Some(Appended(c, w.writer.value, b)))
    case Flush(x) =>
      if w.writer.None? then w else
        World(FlushedDb(c, w.db, w.writer.value, x), Some(Flushed(c, w.db, w.writer.value, x)),
          Attempt(w.writer.value, w.attempted))
  }

  function Run(c: Codec, w: World, ops: seq<Op>, n: nat): World
    requires n <= |ops|
  {
    if n == 0 then w else Exec(c, Run(c, w, ops, n - 1), ops[n - 1])
  }

  function NoRows<T>(empty: T): PerFamily<T> { PerFamily(empty, empty, empty, empty) }

  const EMPTY_DB := Durable(NoRows(map[]), NoRows(map[]), NoRows(map[]), NoRows(map[]), map[], NoRows(map[]),
    NoRows(map[]), None)

  const EMPTY_WORLD := World(EMPTY_DB, None, 0)
}
