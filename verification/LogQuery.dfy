/** eth_getLogs: the superset index and the exact scan (logs_index.rs, data/mod.rs). */
module LogQuery {
  import opened Seqs
  import opened Schema

  /** A log with everything the response says about it; addresses and topics as bytes. */
  datatype EthLog = EthLog(address: Bytes, topics: seq<Bytes>, rest: nat)

  /** The logs of one transaction. */
  type Receipt = seq<EthLog>

  /** An empty set stands for any value. */
  datatype LogFilter = LogFilter(addresses: set<Bytes>, topics: seq<set<Bytes>>)

  predicate TopicMatches(f: LogFilter, log: EthLog, i: nat)
    requires i < |f.topics|
  {
    f.topics[i] == {} || (i < |log.topics| && log.topics[i] in f.topics[i])
  }

  predicate Matches(f: LogFilter, log: EthLog) {
    && (f.addresses == {} || log.address in f.addresses)
    && forall i :: 0 <= i < |f.topics| ==> TopicMatches(f, log, i)
  }

  /** receipt_envelope_to_logs_iter */
  function Select(f: LogFilter, logs: seq<EthLog>, n: nat): seq<EthLog>
    requires n <= |logs|
  {
    if n == 0 then [] else Select(f, logs, n - 1) + (if Matches(f, logs[n - 1]) then [logs[n - 1]] else [])
  }

  function Filtered(f: LogFilter, receipt: Receipt): seq<EthLog> { Select(f, receipt, |receipt|) }

  lemma {:induction false} NoneSelected(f: LogFilter, logs: seq<EthLog>, n: nat)
    requires n <= |logs| && forall i :: 0 <= i < |logs| ==> !Matches(f, logs[i])
    ensures Select(f, logs, n) == []
  {
    if n > 0 {
      NoneSelected(f, logs, n - 1);
    }
  }

  // ---- the index ----

  /** fb_to_bson keeps four bytes. */
  function Prefix(b: Bytes): Bytes { if |b| <= 4 then b else b[..4] }

  function Prefixes(values: set<Bytes>): set<Bytes> { set b | b in values :: Prefix(b) }

  datatype LogDoc = LogDoc(address: Bytes, topics: seq<Bytes>)

  function DocOf(log: EthLog): (d: LogDoc)
    ensures |d.topics| == |log.topics|
  {
    LogDoc(Prefix(log.address), seq(|log.topics|, i requires 0 <= i < |log.topics| => Prefix(log.topics[i])))
  }

  /** logs_to_doc */
  function DocsOf(receipt: Receipt): (docs: seq<LogDoc>)
    ensures |docs| == |receipt|
  {
    seq(|receipt|, j requires 0 <= j < |receipt| => DocOf(receipt[j]))
  }

  /** The query document: conditions on single elements of the `logs` array, each met by any element. */
  datatype Query = Query(addresses: Option<set<Bytes>>, topics: map<nat, set<Bytes>>)

  predicate QueryFor(f: LogFilter, q: Query) {
    && q.addresses == (if f.addresses == {} then None else Some(Prefixes(f.addresses)))
    && (forall i :: i in q.topics ==> i < |f.topics| && f.topics[i] != {} && q.topics[i] == Prefixes(f.topics[i]))
    && (forall i :: 0 <= i < |f.topics| && f.topics[i] != {} ==> i in q.topics)
  }

  method BuildQuery(f: LogFilter) returns (q: Query)
    ensures QueryFor(f, q)
  {
    var addresses := None;
    if f.addresses != {} {
      addresses := Some(Prefixes(f.addresses));
    }
    var topics: map<nat, set<Bytes>> := map[];
    for i := 0 to |f.topics|
      invariant forall j :: j in topics ==> j < i && f.topics[j] != {} && topics[j] == Prefixes(f.topics[j])
      invariant forall j :: 0 <= j < i && f.topics[j] != {} ==> j in topics
    {
      if f.topics[i] != {} {
        topics := topics[i := Prefixes(f.topics[i])];
      }
    }
    return Query(addresses, topics);
  }

  predicate AddressHit(q: Query, docs: seq<LogDoc>) {
    q.addresses.Some? ==> exists j :: 0 <= j < |docs| && docs[j].address in q.addresses.value
  }

  predicate TopicHit(q: Query, docs: seq<LogDoc>, i: nat) {
    i in q.topics ==> exists j :: 0 <= j < |docs| && i < |docs[j].topics| && docs[j].topics[i] in q.topics[i]
  }

  ghost predicate Selects(q: Query, docs: seq<LogDoc>) {
    AddressHit(q, docs) && forall i: nat :: i in q.topics ==> TopicHit(q, docs, i)
  }

  /** The index never misses a transaction with a matching log. */
  lemma Superset(f: LogFilter, q: Query, receipt: Receipt, j: nat)
    requires QueryFor(f, q) && j < |receipt| && Matches(f, receipt[j])
    ensures Selects(q, DocsOf(receipt))
  {
    var docs := DocsOf(receipt);
    assert docs[j] == DocOf(receipt[j]);
    forall i: nat | i in q.topics ensures TopicHit(q, docs, i) {
      assert TopicMatches(f, receipt[j], i);
      assert docs[j].topics[i] == Prefix(receipt[j].topics[i]);
    }
  }

  /** What the index does not select has nothing for the filter. */
  lemma NotSelected(f: LogFilter, q: Query, receipt: Receipt)
    requires QueryFor(f, q) && !Selects(q, DocsOf(receipt))
    ensures Filtered(f, receipt) == []
  {
    forall j | 0 <= j < |receipt| ensures !Matches(f, receipt[j]) {
      if Matches(f, receipt[j]) {
        Superset(f, q, receipt, j);
        assert false;
      }
    }
    NoneSelected(f, receipt, |receipt|);
  }

  /** A document resolved to its transaction. */
  datatype Entry = Entry(block: nat, txIndex: nat, receipt: Receipt)

  /** Receipts of blocks from, from + 1, ... */
  type Blocks = seq<seq<Receipt>>

  ghost predicate IsEntry(q: Query, blocks: Blocks, from: nat, e: Entry) {
    && from <= e.block < from + |blocks| && e.txIndex < |blocks[e.block - from]|
    && e.receipt == blocks[e.block - from][e.txIndex] && Selects(q, DocsOf(e.receipt))
  }

  ghost predicate Sorted(entries: seq<Entry>) {
    && (forall i, j :: 0 <= i < j < |entries| ==> entries[i].block <= entries[j].block)
    && (forall i, j :: 0 <= i < j < |entries| ==>
      entries[i].block != entries[j].block || entries[i].txIndex != entries[j].txIndex)
  }

  /**
   * What the database answers when the index covers the blocks: every selected transaction once, by
   * block number, in any order within a block.
   */
  ghost predicate Answers(q: Query, blocks: Blocks, from: nat, entries: seq<Entry>) {
    && Sorted(entries)
    && (forall k :: 0 <= k < |entries| ==> IsEntry(q, blocks, from, entries[k]))
    && (forall b: nat, i: nat :: b < |blocks| && i < |blocks[b]| && Selects(q, DocsOf(blocks[b][i])) ==>
      Entry(from + b, i, blocks[b][i]) in entries)
  }

  // ---- grouping by block ----

  /** Receipts of block b among the first n entries, by transaction index. */
  function Group(entries: seq<Entry>, n: nat, b: nat): map<nat, Receipt>
    requires n <= |entries|
  {
    if n == 0 then map[] else
      var before := Group(entries, n - 1, b);
      if entries[n - 1].block == b then before[entries[n - 1].txIndex := entries[n - 1].receipt] else before
  }

  /** The values of a map with keys below n, in key order. */
  function InOrder<T>(m: map<nat, T>, n: nat): seq<T> {
    if n == 0 then [] else InOrder(m, n - 1) + (if n - 1 in m then [m[n - 1]] else [])
  }

  function Width(entries: seq<Entry>, n: nat): nat
    requires n <= |entries|
  {
    if n == 0 then 0 else Max(Width(entries, n - 1), entries[n - 1].txIndex + 1)
  }

  lemma {:induction false} GroupHas(entries: seq<Entry>, n: nat, b: nat, i: nat)
    requires n <= |entries| && Sorted(entries)
    ensures i in Group(entries, n, b) <==> exists k :: 0 <= k < n && entries[k].block == b && entries[k].txIndex == i
    ensures forall k :: 0 <= k < n && entries[k].block == b ==>
      entries[k].txIndex in Group(entries, n, b) && Group(entries, n, b)[entries[k].txIndex] == entries[k].receipt
  {
    if n > 0 {
      GroupHas(entries, n - 1, b, i);
    }
  }

  /** A block is complete once a later block has been seen. */
  lemma {:induction false} GroupDone(entries: seq<Entry>, n: nat, m: nat, b: nat)
    requires n <= m <= |entries| && forall k :: n <= k < m ==> entries[k].block != b
    ensures Group(entries, m, b) == Group(entries, n, b)
    decreases m
  {
    if n < m {
      GroupDone(entries, n, m - 1, b);
    }
  }

  datatype BlockReceipts = BlockReceipts(block: nat, receipts: seq<Receipt>)

  /** The output so far: one group per block seen before `open`, in order. */
  ghost predicate Grouped(entries: seq<Entry>, out: seq<BlockReceipts>, n: nat)
    requires n <= |entries|
  {
    && (forall g :: 0 <= g < |out| ==>
          out[g].receipts == InOrder(Group(entries, |entries|, out[g].block), Width(entries, |entries|)))
    && (forall g, h :: 0 <= g < h < |out| ==> out[g].block < out[h].block)
    && (forall g :: 0 <= g < |out| ==> exists k :: 0 <= k < n && entries[k].block == out[g].block)
  }

  /** Every block among the first n entries that comes before `open` has its group. */
  ghost predicate Covers(entries: seq<Entry>, out: seq<BlockReceipts>, n: nat, open: nat)
    requires n <= |entries|
  {
    && (forall g :: 0 <= g < |out| ==> out[g].block < open)
    && (forall k :: 0 <= k < n && entries[k].block < open ==> HasGroup(out, entries[k].block))
  }

  ghost predicate HasGroup(out: seq<BlockReceipts>, b: nat) {
    exists g :: 0 <= g < |out| && out[g].block == b
  }

  /** into_values: a map's values in key order. */
  method IntoValues(m: map<nat, Receipt>, width: nat) returns (values: seq<Receipt>)
    ensures values == InOrder(m, width)
  {
    values := [];
    for i := 0 to width
      invariant values == InOrder(m, i)
    {
      if i in m {
        values := values + [m[i]];
      }
    }
  }

  /** Yielding the group of block b once every entry of it has been seen. */
  lemma Yield(entries: seq<Entry>, out: seq<BlockReceipts>, n: nat, b: nat, group: BlockReceipts, next: nat)
    requires Sorted(entries) && 0 < n <= |entries| && entries[n - 1].block == b < next
    requires Grouped(entries, out, n) && Covers(entries, out, n, b)
    requires group == BlockReceipts(b, InOrder(Group(entries, |entries|, b), Width(entries, |entries|)))
    ensures Grouped(entries, out + [group], n) && Covers(entries, out + [group], n, next)
  {
    hide Group, InOrder, Width;
    var out' := out + [group];
    assert out'[|out|].block == b;
    forall k | 0 <= k < n && entries[k].block < next ensures HasGroup(out', entries[k].block) {
      if entries[k].block < b {
        assert HasGroup(out, entries[k].block);
        var g :| 0 <= g < |out| && out[g].block == entries[k].block;
        assert out'[g].block == entries[k].block;
      } else {
        assert k == n - 1 || entries[k].block <= entries[n - 1].block;
      }
    }
  }

  lemma Later(entries: seq<Entry>, out: seq<BlockReceipts>, n: nat)
    requires n < |entries| && Grouped(entries, out, n) && Covers(entries, out, n, entries[n].block)
    ensures Grouped(entries, out, n + 1) && Covers(entries, out, n + 1, entries[n].block)
  {
    hide Group, InOrder, Width, HasGroup;
    forall g | 0 <= g < |out| ensures exists k :: 0 <= k < n + 1 && entries[k].block == out[g].block {
      var k :| 0 <= k < n && entries[k].block == out[g].block;
    }
  }

  /** get_receipts_stream_using_index: none of its assertions can fire. */
  method GroupByBlock(entries: seq<Entry>) returns (out: seq<BlockReceipts>)
    requires Sorted(entries)
    ensures Grouped(entries, out, |entries|) && forall k :: 0 <= k < |entries| ==> HasGroup(out, entries[k].block)
  {
    hide Group, InOrder, Width, HasGroup;
    out := [];
    var width := WidthOf(entries);
    var current: Option<nat>, receipts: map<nat, Receipt> := None, map[];
    for n := 0 to |entries|
      invariant current == if n == 0 then None else Some(entries[n - 1].block)
      invariant current.None? ==> receipts == map[] && out == []
      invariant current.Some? ==> receipts == Group(entries, n, current.value) && receipts != map[]
      invariant Grouped(entries, out, n) && Covers(entries, out, n, if current.Some? then current.value else 0)
    {
      var e := entries[n];
      if current.Some? {
        assert current.value <= e.block;
        assert receipts != map[];
        if current.value != e.block {
          GroupDone(entries, n, |entries|, current.value);
          var values := IntoValues(receipts, width);
          Yield(entries, out, n, current.value, BlockReceipts(current.value, values), e.block);
          out := out + [BlockReceipts(current.value, values)];
          receipts := map[];
          NewGroup(entries, n, e.block);
        }
      } else {
        NewGroup(entries, n, e.block);
      }
      current := Some(e.block);
      GroupHas(entries, n, e.block, e.txIndex);
      assert e.txIndex !in receipts;
      GroupStep(entries, n, e.block);
      Later(entries, out, n);
      receipts := receipts[e.txIndex := e.receipt];
    }
    if current.Some? {
      assert receipts != map[];
      var values := IntoValues(receipts, width);
      Yield(entries, out, |entries|, current.value, BlockReceipts(current.value, values), current.value + 1);
      out := out + [BlockReceipts(current.value, values)];
    }
  }

  method WidthOf(entries: seq<Entry>) returns (width: nat)
    ensures width == Width(entries, |entries|)
  {
    width := 0;
    for n := 0 to |entries|
      invariant width == Width(entries, n)
    {
      width := Max(width, entries[n].txIndex + 1);
    }
  }

  lemma GroupStep(entries: seq<Entry>, n: nat, b: nat)
    requires n < |entries| && entries[n].block == b
    ensures Group(entries, n + 1, b) == Group(entries, n, b)[entries[n].txIndex := entries[n].receipt]
  {
  }

  lemma NewGroup(entries: seq<Entry>, n: nat, b: nat)
    requires Sorted(entries) && n < |entries| && entries[n].block == b && (n > 0 ==> entries[n - 1].block != b)
    ensures Group(entries, n, b) == map[]
  {
    GroupDone(entries, 0, n, b);
  }

  // ---- the same logs in the same order ----

  /** Filtered logs of the first n receipts. */
  function Kept(f: LogFilter, receipts: seq<Receipt>, n: nat): seq<EthLog>
    requires n <= |receipts|
  {
    if n == 0 then [] else Kept(f, receipts, n - 1) + Filtered(f, receipts[n - 1])
  }

  function KeptOf(f: LogFilter, m: map<nat, Receipt>, n: nat): seq<EthLog> {
    if n == 0 then [] else KeptOf(f, m, n - 1) + (if n - 1 in m then Filtered(f, m[n - 1]) else [])
  }

  lemma {:induction false} KeptPrefix(f: LogFilter, a: seq<Receipt>, b: seq<Receipt>, n: nat)
    requires n <= |a|
    ensures Kept(f, a + b, n) == Kept(f, a, n)
  {
    hide Filtered;
    if n > 0 {
      KeptPrefix(f, a, b, n - 1);
    }
  }

  lemma {:induction false} KeptInOrder(f: LogFilter, m: map<nat, Receipt>, n: nat)
    ensures Kept(f, InOrder(m, n), |InOrder(m, n)|) == KeptOf(f, m, n)
  {
    hide Filtered;
    if n > 0 {
      KeptInOrder(f, m, n - 1);
      var before := InOrder(m, n - 1);
      if n - 1 in m {
        KeptPrefix(f, before, [m[n - 1]], |before|);
      } else {
        assert InOrder(m, n) == before;
      }
    }
  }

  lemma {:induction false} KeptBeyond(f: LogFilter, m: map<nat, Receipt>, n: nat, n': nat)
    requires n <= n' && forall i :: i in m ==> i < n
    ensures KeptOf(f, m, n') == KeptOf(f, m, n)
  {
    hide Filtered;
    if n < n' {
      KeptBeyond(f, m, n, n' - 1);
    }
  }

  /** Leaving out receipts with nothing to show changes nothing. */
  lemma {:induction false} KeptSame(f: LogFilter, m: map<nat, Receipt>, receipts: seq<Receipt>, n: nat)
    requires n <= |receipts|
    requires forall i :: 0 <= i < |receipts| ==> if i in m then m[i] == receipts[i] else Filtered(f, receipts[i]) == []
    ensures KeptOf(f, m, n) == Kept(f, receipts, n)
  {
    hide Filtered;
    if n > 0 {
      KeptSame(f, m, receipts, n - 1);
    }
  }

  lemma {:induction false} WidthBounds(entries: seq<Entry>, n: nat, k: nat)
    requires k < n <= |entries|
    ensures entries[k].txIndex < Width(entries, n)
  {
    if k < n - 1 {
      WidthBounds(entries, n - 1, k);
    }
  }

  /** Receipt i of block b is in the block's group, or has nothing for the filter. */
  lemma GroupHolds(f: LogFilter, q: Query, blocks: Blocks, from: nat, entries: seq<Entry>, b: nat, i: nat)
    requires QueryFor(f, q) && Answers(q, blocks, from, entries) && b < |blocks| && i < |blocks[b]|
    ensures var m := Group(entries, |entries|, from + b);
      if i in m then m[i] == blocks[b][i] else Filtered(f, blocks[b][i]) == []
  {
    hide Group, Filtered, Selects, QueryFor;
    var m := Group(entries, |entries|, from + b);
    GroupHas(entries, |entries|, from + b, i);
    if i in m {
      var k :| 0 <= k < |entries| && entries[k].block == from + b && entries[k].txIndex == i;
      assert IsEntry(q, blocks, from, entries[k]);
    } else if Selects(q, DocsOf(blocks[b][i])) {
      assert false;
    } else {
      NotSelected(f, q, blocks[b][i]);
    }
  }

  lemma GroupKeys(q: Query, blocks: Blocks, from: nat, entries: seq<Entry>, b: nat, i: nat)
    requires Answers(q, blocks, from, entries) && b < |blocks| && i in Group(entries, |entries|, from + b)
    ensures i < |blocks[b]| && i < Width(entries, |entries|)
  {
    hide Group, Selects, Width;
    GroupHas(entries, |entries|, from + b, i);
    var k :| 0 <= k < |entries| && entries[k].block == from + b && entries[k].txIndex == i;
    assert IsEntry(q, blocks, from, entries[k]);
    WidthBounds(entries, |entries|, k);
  }

  /** A block's group, filtered, is the block, filtered. */
  lemma BlockSame(f: LogFilter, q: Query, blocks: Blocks, from: nat, entries: seq<Entry>, b: nat)
    requires QueryFor(f, q) && Answers(q, blocks, from, entries) && b < |blocks|
    ensures var receipts := InOrder(Group(entries, |entries|, from + b), Width(entries, |entries|));
      Kept(f, receipts, |receipts|) == Kept(f, blocks[b], |blocks[b]|)
  {
    hide Group, Filtered, Width, QueryFor, Answers, InOrder, Kept, KeptOf;
    var m, w, n := Group(entries, |entries|, from + b), Width(entries, |entries|), |blocks[b]|;
    KeptInOrder(f, m, w);
    forall i | i in m ensures i < n && i < w { GroupKeys(q, blocks, from, entries, b, i); }
    KeptBeyond(f, m, w, Max(w, n));
    KeptBeyond(f, m, n, Max(w, n));
    forall i | 0 <= i < n ensures if i in m then m[i] == blocks[b][i] else Filtered(f, blocks[b][i]) == [] {
      GroupHolds(f, q, blocks, from, entries, b, i);
    }
    KeptSame(f, m, blocks[b], n);
  }

  /** A block without a group has nothing for the filter. */
  lemma BlockEmpty(f: LogFilter, q: Query, blocks: Blocks, from: nat, entries: seq<Entry>, b: nat)
    requires QueryFor(f, q) && Answers(q, blocks, from, entries) && b < |blocks|
    requires forall k :: 0 <= k < |entries| ==> entries[k].block != from + b
    ensures Kept(f, blocks[b], |blocks[b]|) == []
  {
    hide Filtered, Width, QueryFor, Answers, Kept;
    BlockSame(f, q, blocks, from, entries, b);
    GroupDone(entries, 0, |entries|, from + b);
    KeptInOrder(f, map[], Width(entries, |entries|));
    KeptBeyond(f, map[], 0, Width(entries, |entries|));
  }

  // ---- the two streams ----

  datatype BlockLogs = BlockLogs(block: nat, logs: seq<EthLog>)

  function IndexStream(f: LogFilter, out: seq<BlockReceipts>): (r: seq<BlockLogs>)
    ensures |r| == |out|
  {
    seq(|out|, g requires 0 <= g < |out| => BlockLogs(out[g].block, Kept(f, out[g].receipts, |out[g].receipts|)))
  }

  function ScanStream(f: LogFilter, blocks: Blocks, from: nat): (r: seq<BlockLogs>)
    ensures |r| == |blocks|
  {
    seq(|blocks|, b requires 0 <= b < |blocks| => BlockLogs(from + b, Kept(f, blocks[b], |blocks[b]|)))
  }

  /** The scan skips the receipts of a block whose header bloom filter does not match. */
  function BloomStream(f: LogFilter, blocks: Blocks, from: nat, hits: seq<bool>): (r: seq<BlockLogs>)
    requires |hits| == |blocks|
    ensures |r| == |blocks|
  {
    seq(|blocks|, b requires 0 <= b < |blocks| && |hits| == |blocks| =>
      BlockLogs(from + b, if hits[b] then Kept(f, blocks[b], |blocks[b]|) else []))
  }

  /** A bloom filter that does not match means that no log of the block does. */
  ghost predicate NoFalseNegatives(f: LogFilter, blocks: Blocks, hits: seq<bool>) {
    && |hits| == |blocks|
    && forall b, i, j :: 0 <= b < |blocks| && !hits[b] && 0 <= i < |blocks[b]| && 0 <= j < |blocks[b][i]| ==>
      !Matches(f, blocks[b][i][j])
  }

  lemma {:induction false} NothingKept(f: LogFilter, receipts: seq<Receipt>, n: nat)
    requires n <= |receipts|
    requires forall i, j :: 0 <= i < |receipts| && 0 <= j < |receipts[i]| ==> !Matches(f, receipts[i][j])
    ensures Kept(f, receipts, n) == []
  {
    hide Matches;
    if n > 0 {
      NothingKept(f, receipts, n - 1);
      NoneSelected(f, receipts[n - 1], |receipts[n - 1]|);
    }
  }

  /** The bloom filter leaves nothing out. */
  lemma BloomIsScan(f: LogFilter, blocks: Blocks, from: nat, hits: seq<bool>)
    requires NoFalseNegatives(f, blocks, hits)
    ensures BloomStream(f, blocks, from, hits) == ScanStream(f, blocks, from)
  {
    hide Matches, Kept;
    forall b | 0 <= b < |blocks| && !hits[b] ensures Kept(f, blocks[b], |blocks[b]|) == [] {
      NothingKept(f, blocks[b], |blocks[b]|);
    }
  }

  /** The logs of the first n items. */
  function Response(stream: seq<BlockLogs>, n: nat): seq<EthLog>
    requires n <= |stream|
  {
    if n == 0 then [] else Response(stream, n - 1) + stream[n - 1].logs
  }

  lemma NoResponse(a: seq<BlockLogs>, b: seq<BlockLogs>)
    ensures Response(a, 0) == Response(b, 0)
  {
  }

  lemma ResponseStep(stream: seq<BlockLogs>, n: nat)
    requires n < |stream|
    ensures Response(stream, 0) == [] && Response(stream, n + 1) == Response(stream, n) + stream[n].logs
    ensures stream[n].logs == [] ==> Response(stream, n + 1) == Response(stream, n)
  {
  }

  /** The query answered for the filter, and its answer grouped by block. */
  ghost predicate Indexed(f: LogFilter, q: Query, blocks: Blocks, from: nat, entries: seq<Entry>,
                          out: seq<BlockReceipts>) {
    && QueryFor(f, q) && Answers(q, blocks, from, entries) && Grouped(entries, out, |entries|)
    && forall k :: 0 <= k < |entries| ==> HasGroup(out, entries[k].block)
  }

  lemma GroupSame(f: LogFilter, q: Query, blocks: Blocks, from: nat, entries: seq<Entry>, out: seq<BlockReceipts>,
                  g: nat, b: nat)
    requires Indexed(f, q, blocks, from, entries, out) && g < |out| && b < |blocks| && out[g].block == from + b
    ensures g > 0 ==> out[g - 1].block < out[g].block
    ensures IndexStream(f, out)[g].logs == ScanStream(f, blocks, from)[b].logs
  {
    hide QueryFor, Answers, Kept, InOrder, Group, Width, HasGroup, Grouped;
    GroupIs(entries, out, g);
    BlockSame(f, q, blocks, from, entries, b);
  }

  lemma NoGroup(f: LogFilter, q: Query, blocks: Blocks, from: nat, entries: seq<Entry>, out: seq<BlockReceipts>, g: nat,
                b: nat)
    requires Indexed(f, q, blocks, from, entries, out) && g <= |out| && b < |blocks|
    requires (g > 0 ==> out[g - 1].block < from + b) && (g < |out| ==> from + b < out[g].block)
    ensures ScanStream(f, blocks, from)[b].logs == []
  {
    hide QueryFor, Answers, Kept, InOrder, Group, Width, HasGroup, Grouped;
    NoEntries(entries, out, g, from + b);
    BlockEmpty(f, q, blocks, from, entries, b);
  }

  /** The first g groups say what the first b blocks say, when the next group is at or after block b. */
  lemma {:induction false} StreamsAgree(f: LogFilter, q: Query, blocks: Blocks, from: nat, entries: seq<Entry>,
                                        out: seq<BlockReceipts>, g: nat, b: nat)
    requires Indexed(f, q, blocks, from, entries, out) && g <= |out| && b <= |blocks|
    requires (g > 0 ==> out[g - 1].block < from + b) && (g < |out| ==> from + b <= out[g].block)
    ensures Response(IndexStream(f, out), g) == Response(ScanStream(f, blocks, from), b)
    decreases b
  {
    hide Indexed, IndexStream, ScanStream, Response;
    if b == 0 {
      FirstGroup(f, q, blocks, from, entries, out);
      assert g == 0;
      NoResponse(IndexStream(f, out), ScanStream(f, blocks, from));
    } else if g > 0 && out[g - 1].block == from + b - 1 {
      GroupSame(f, q, blocks, from, entries, out, g - 1, b - 1);
      StreamsAgree(f, q, blocks, from, entries, out, g - 1, b - 1);
      ResponseStep(IndexStream(f, out), g - 1);
      ResponseStep(ScanStream(f, blocks, from), b - 1);
    } else {
      NoGroup(f, q, blocks, from, entries, out, g, b - 1);
      StreamsAgree(f, q, blocks, from, entries, out, g, b - 1);
      ResponseStep(ScanStream(f, blocks, from), b - 1);
    }
  }

  lemma NoEntries(entries: seq<Entry>, out: seq<BlockReceipts>, g: nat, block: nat)
    requires Grouped(entries, out, |entries|) && forall k :: 0 <= k < |entries| ==> HasGroup(out, entries[k].block)
    requires g <= |out| && (g > 0 ==> out[g - 1].block < block) && (g < |out| ==> block < out[g].block)
    ensures forall k :: 0 <= k < |entries| ==> entries[k].block != block
  {
    hide InOrder, Group, Width;
    forall k | 0 <= k < |entries| ensures entries[k].block != block {
      assert HasGroup(out, entries[k].block);
      var h :| 0 <= h < |out| && out[h].block == entries[k].block;
      assert h < g - 1 ==> out[h].block < out[g - 1].block;
      assert g < h ==> out[g].block < out[h].block;
    }
  }

  lemma GroupIs(entries: seq<Entry>, out: seq<BlockReceipts>, g: nat)
    requires Grouped(entries, out, |entries|) && g < |out|
    ensures out[g].receipts == InOrder(Group(entries, |entries|, out[g].block), Width(entries, |entries|))
    ensures g > 0 ==> out[g - 1].block < out[g].block
  {
    hide InOrder, Group, Width;
  }

  lemma FirstGroup(f: LogFilter, q: Query, blocks: Blocks, from: nat, entries: seq<Entry>, out: seq<BlockReceipts>)
    requires Indexed(f, q, blocks, from, entries, out)
    ensures forall g :: 0 <= g < |out| ==> from <= out[g].block < from + |blocks|
  {
    hide Selects, InOrder, Group, Width, QueryFor, HasGroup;
    forall g | 0 <= g < |out| ensures from <= out[g].block < from + |blocks| {
      var k :| 0 <= k < |entries| && entries[k].block == out[g].block;
      assert IsEntry(q, blocks, from, entries[k]);
    }
  }

  /** Index, exact filter and grouping give the logs of the scan, in its order. */
  lemma IndexedIsScan(f: LogFilter, q: Query, blocks: Blocks, from: nat, entries: seq<Entry>, out: seq<BlockReceipts>)
    requires Indexed(f, q, blocks, from, entries, out)
    ensures Response(IndexStream(f, out), |out|) == Response(ScanStream(f, blocks, from), |blocks|)
  {
    hide Indexed, IndexStream, ScanStream, Response;
    FirstGroup(f, q, blocks, from, entries, out);
    StreamsAgree(f, q, blocks, from, entries, out, |out|, |blocks|);
  }
}
