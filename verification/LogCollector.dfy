/** Collecting a stream of logs under a response limit (data/mod.rs). */
module LogCollector {
  import opened Seqs
  import opened LogQuery

  const U64_MAX: nat := 0xFFFF_FFFF_FFFF_FFFF
  const U32_MAX: nat := 0xFFFF_FFFF

  const EXTRAPOLATION_MIN_SIZE: nat := 4 * 1024 * 1024
  const EXTRAPOLATION_MIN_BLOCKS: nat := 100

  datatype Outcome = Collected(logs: seq<EthLog>) | StreamFailed | OutOfOrder | OutOfRange | TooLarge

  /** Serialized length of a list of logs. */
  function SizeOf(size: EthLog -> nat, logs: seq<EthLog>): nat {
    if logs == [] then 0 else SizeOf(size, logs[..|logs| - 1]) + size(logs[|logs| - 1])
  }

  lemma {:induction false} SizeOfAppend(size: EthLog -> nat, a: seq<EthLog>, b: seq<EthLog>)
    ensures SizeOf(size, a + b) == SizeOf(size, a) + SizeOf(size, b)
  {
    if b == [] {
      assert a + b == a;
    } else {
      SizeOfAppend(size, a, b[..|b| - 1]);
      assert (a + b)[..|a + b| - 1] == a + b[..|b| - 1];
    }
  }

  lemma SizeOfOne(size: EthLog -> nat, log: EthLog)
    ensures SizeOf(size, [log]) == size(log) && SizeOf(size, []) == 0
  {
    assert [log][..0] == [];
  }

  function SaturatingMul(a: nat, b: nat): nat { Min(a * b, U64_MAX) }

  function Extrapolated(s: nat, total: nat, k: nat): nat
    requires k > 0
  {
    SaturatingMul(s, total) / k
  }

  /** Twice the limit at first, falling to the limit at the last block. */
  function Limit(max: nat, total: nat, k: nat): int
    requires total > 0
  {
    2 * max - SaturatingMul(max, k) / total
  }

  lemma DivBound(a: nat, b: nat, c: nat)
    requires a <= b * c && c > 0
    ensures a / c <= b
  {
    assert a == (a / c) * c + a % c;
  }

  /** The subtraction cannot underflow: the limit stays between max and 2 * max. */
  lemma LimitBounds(max: nat, total: nat, k: nat)
    requires 0 < k <= total
    ensures max <= Limit(max, total, k) <= 2 * max
  {
    MulMono(max, k, total);
    DivBound(SaturatingMul(max, k), max, total);
  }

  lemma MulMono(a: nat, b: nat, c: nat)
    requires b <= c
    ensures a * b <= a * c
  {
  }

  predicate Exceeds(max: nat, total: nat, s: nat, k: nat)
    requires 0 < k && 0 < total
  {
    s > max || (s >= EXTRAPOLATION_MIN_SIZE && k >= EXTRAPOLATION_MIN_BLOCKS
      && Extrapolated(s, total, k) > Limit(max, total, k))
  }

  datatype Request = Request(max: nat, from: nat, to: nat, size: EthLog -> nat) {
    predicate Valid() { max <= U32_MAX && from <= to < U64_MAX }
    function Total(): nat requires Valid() { to + 1 - from }
  }

  /** The first k items are too large, or extrapolate to too much. */
  predicate ExceedsAt(req: Request, stream: seq<BlockLogs>, k: nat)
    requires req.Valid() && 0 < k <= |stream|
  {
    Exceeds(req.max, req.Total(), SizeOf(req.size, Response(stream, k)), k)
  }

  /** Why item k stops the collection, if it does. */
  function StopsAt(req: Request, stream: seq<BlockLogs>, k: nat): Option<Outcome>
    requires req.Valid() && k < |stream|
  {
    if k > 0 && stream[k].block <= stream[k - 1].block then Some(OutOfOrder)
    else if k + 1 > req.Total() then Some(OutOfRange)
    else if ExceedsAt(req, stream, k + 1) then Some(TooLarge)
    else None
  }

  /** The outcome when items before k did not stop it; `broken` says that the stream ends with an error. */
  function OutcomeFrom(req: Request, stream: seq<BlockLogs>, broken: bool, k: nat): Outcome
    requires req.Valid() && k <= |stream|
    decreases |stream| - k
  {
    if k == |stream| then (if broken then StreamFailed else Collected(Response(stream, k)))
    else if StopsAt(req, stream, k).Some? then StopsAt(req, stream, k).value
    else OutcomeFrom(req, stream, broken, k + 1)
  }

  /** try_collect_logs_stream_with_heuristic_response_limit */
  method Collect(req: Request, stream: seq<BlockLogs>, broken: bool) returns (r: Outcome)
    requires req.Valid()
    ensures r == OutcomeFrom(req, stream, broken, 0)
  {
    hide Response, Exceeds;
    var total := req.to + 1 - req.from;
    var last: Option<nat>, processed, size, logs := None, 0, 0, [];
    NoLogs(stream);
    for k := 0 to |stream|
      invariant processed == k && last == (if k == 0 then None else Some(stream[k - 1].block))
      invariant logs == Response(stream, k) && size == SizeOf(req.size, logs)
      invariant OutcomeFrom(req, stream, broken, 0) == OutcomeFrom(req, stream, broken, k)
    {
      var item := stream[k];
      if last.Some? && item.block <= last.value {
        return OutOfOrder;
      }
      last := Some(item.block);
      processed := processed + 1;
      if processed > total {
        return OutOfRange;
      }
      ResponseStep(stream, k);
      SizeOfAppend(req.size, logs, item.logs);
      logs := logs + item.logs;
      size := size + SizeOf(req.size, item.logs);
      var rejected := Check(req.max, total, size, processed);
      if rejected {
        return TooLarge;
      }
    }
    if broken {
      return StreamFailed;
    }
    return Collected(logs);
  }

  lemma NoLogs(stream: seq<BlockLogs>)
    ensures Response(stream, 0) == []
  {
  }

  /** The two size checks. */
  method Check(max: nat, total: nat, size: nat, processed: nat) returns (rejected: bool)
    requires 0 < processed <= total
    ensures rejected == Exceeds(max, total, size, processed)
  {
    if size > max {
      return true;
    }
    rejected := false;
    if size >= EXTRAPOLATION_MIN_SIZE && processed >= EXTRAPOLATION_MIN_BLOCKS {
      var extrapolated := SaturatingMul(size, total) / processed;
      LimitBounds(max, total, processed);
      var limit: nat := max * 2 - SaturatingMul(max, processed) / total;
      rejected := extrapolated > limit;
    }
  }

  /** At the last block of the range only the plain limit counts: extrapolation never rejects there. */
  lemma LastBlockExact(req: Request, stream: seq<BlockLogs>)
    requires req.Valid() && req.Total() <= |stream|
    ensures ExceedsAt(req, stream, req.Total()) <==> SizeOf(req.size, Response(stream, req.Total())) > req.max
  {
    hide SizeOf, Response;
    var s, total := SizeOf(req.size, Response(stream, req.Total())), req.Total();
    DivBound(SaturatingMul(s, total), s, total);
    LimitBounds(req.max, total, total);
  }

  // ---- how extrapolation moves with the number of items ----

  /** The exact ratio: size per item times total is above the limit before rounding, by more than c. */
  predicate OverBy(s: nat, max: nat, total: nat, k: nat, c: nat) {
    SaturatingMul(s, total) * total + SaturatingMul(max, k) * k > (2 * max + c) * (k * total)
  }

  /** Rejecting by extrapolation means the exact ratio is above the limit ... */
  lemma RejectedIsOver(s: nat, max: nat, total: nat, k: nat)
    requires 0 < k && 0 < total && Extrapolated(s, total, k) > Limit(max, total, k)
    ensures OverBy(s, max, total, k, 0)
  {
    var a, b := SaturatingMul(s, total), SaturatingMul(max, k);
    hide SaturatingMul;
    var p, q := a / k, b / total;
    FloorsBelow(a, b, p, q, k, total, 2 * max);
  }

  lemma FloorsBelow(a: nat, b: nat, p: nat, q: nat, k: nat, total: nat, m: nat)
    requires 0 < k && 0 < total && p * k <= a && q * total <= b && p + q > m
    ensures a * total + b * k > m * (k * total)
  {
    MulMono(total, p * k, a);
    MulMono(k, q * total, b);
    Distribute(p, q, k, total);
    Positive(k, total);
    OneMore(m, p + q, k * total);
  }

  lemma Positive(a: nat, b: nat)
    requires 0 < a && 0 < b
    ensures 0 < a * b
  {
  }

  lemma OneMore(m: nat, n: nat, x: nat)
    requires m < n && 0 < x
    ensures m * x < n * x
  {
    MulMono(x, m + 1, n);
    assert (m + 1) * x == m * x + x;
  }

  /** ... and being above by more than two, which rounding cannot hide, means rejecting. */
  lemma FarOverIsRejected(s: nat, max: nat, total: nat, k: nat)
    requires 0 < k && 0 < total && OverBy(s, max, total, k, 2)
    ensures Extrapolated(s, total, k) > Limit(max, total, k)
  {
    var a, b := SaturatingMul(s, total), SaturatingMul(max, k);
    hide SaturatingMul;
    var p, q := a / k, b / total;
    assert a <= (p + 1) * k && b <= (q + 1) * total;
    MulMono(total, a, (p + 1) * k);
    MulMono(k, b, (q + 1) * total);
    assert (p + 1 + (q + 1)) * (k * total) == ((p + 1) * k) * total + ((q + 1) * total) * k
      by { Distribute(p + 1, q + 1, k, total); }
    Cancel(p + 1 + (q + 1), 2 * max + 2, k * total);
  }

  lemma Cancel(x: nat, y: nat, m: nat)
    requires x * m > y * m
    ensures x > y
  {
    if x <= y {
      MulMono(m, x, y);
    }
  }

  lemma Distribute(p: nat, q: nat, k: nat, total: nat)
    ensures (p + q) * (k * total) == (p * k) * total + (q * total) * k
  {
  }

  /** For the same size, more items make the exact test harder to fail. */
  lemma OverFewer(s: nat, max: nat, total: nat, k: nat, k': nat, c: nat)
    requires 0 < k <= k' <= total && OverBy(s, max, total, k', c)
    ensures OverBy(s, max, total, k, c)
  {
    var b, b' := SaturatingMul(max, k), SaturatingMul(max, k');
    var d := k' - k;
    assert b' <= b + max * d && b' <= max * k' by { SaturatedStep(max, k, d); }
    hide SaturatingMul;
    assert b' * k' <= b * k + 2 * max * (d * total) by { Growth(max, total, k, d, b, b'); }
    assert (2 * max + c) * (k' * total) == (2 * max + c) * (k * total) + (2 * max + c) * (d * total)
      by { SplitFactor(2 * max + c, k, d, total); }
    MulMono(d * total, 2 * max, 2 * max + c);
  }

  lemma SaturatedStep(max: nat, k: nat, d: nat)
    ensures SaturatingMul(max, k + d) <= SaturatingMul(max, k) + max * d && SaturatingMul(max, k + d) <= max * (k + d)
  {
    assert max * (k + d) == max * k + max * d;
  }

  lemma SplitFactor(x: nat, k: nat, d: nat, total: nat)
    ensures x * ((k + d) * total) == x * (k * total) + x * (d * total)
  {
    assert (k + d) * total == k * total + d * total;
  }

  lemma GrowthOfCount(max: nat, total: nat, k: nat, d: nat, b: nat, b': nat)
    requires k <= total && b' <= b + max * d
    ensures b' * k <= b * k + max * (d * total)
  {
    MulMono(k, b', b + max * d);
    Rearrange(b, max, d, k);
    MulMono(d, k, total);
    MulMono(max, d * k, d * total);
  }

  lemma GrowthOfStep(max: nat, total: nat, k: nat, d: nat, b': nat)
    requires k + d <= total && b' <= max * (k + d)
    ensures b' * d <= max * (d * total)
  {
    MulMono(d, b', max * (k + d));
    Reorder(max, k + d, d);
    MulMono(d, k + d, total);
    MulMono(max, d * (k + d), d * total);
  }

  lemma Growth(max: nat, total: nat, k: nat, d: nat, b: nat, b': nat)
    requires k + d <= total && b' <= b + max * d && b' <= max * (k + d)
    ensures b' * (k + d) <= b * k + 2 * max * (d * total)
  {
    GrowthOfCount(max, total, k, d, b, b');
    GrowthOfStep(max, total, k, d, b');
    SplitSum(b', k, d);
    Twice(max, d * total);
  }

  lemma SplitSum(x: nat, k: nat, d: nat)
    ensures x * (k + d) == x * k + x * d
  {
  }

  lemma Twice(x: nat, y: nat)
    ensures 2 * x * y == x * y + x * y
  {
  }

  lemma Rearrange(b: nat, max: nat, d: nat, k: nat)
    ensures (b + max * d) * k == b * k + max * (d * k)
  {
  }

  lemma Reorder(a: nat, b: nat, c: nat)
    ensures (a * b) * c == a * (c * b)
  {
  }

  /** Rounding makes the test itself move both ways: here 28300 items pass and one more with nothing in it does not. */
  lemma ExceedsNotMonotone()
    ensures !Exceeds(6780470, 28313, 6780470, 28300) && Exceeds(6780470, 28313, 6780470, 28301)
  {
    assert SaturatingMul(6780470, 28313) / 28300 == 6783584 && SaturatingMul(6780470, 28300) / 28313 == 6777356;
    assert SaturatingMul(6780470, 28313) / 28301 == 6783345 && SaturatingMul(6780470, 28301) / 28313 == 6777596;
  }

  // ---- what the collector promises ----

  /** Sorted by block, inside the range. */
  ghost predicate InRange(req: Request, stream: seq<BlockLogs>) {
    && (forall k :: 0 <= k < |stream| ==> req.from <= stream[k].block <= req.to)
    && (forall i, j :: 0 <= i < j < |stream| ==> stream[i].block < stream[j].block)
  }

  lemma {:induction false} BlocksAdvance(req: Request, stream: seq<BlockLogs>, k: nat)
    requires InRange(req, stream) && k < |stream|
    ensures stream[k].block >= req.from + k
  {
    if k > 0 {
      BlocksAdvance(req, stream, k - 1);
      assert stream[k - 1].block < stream[k].block;
    }
  }

  ghost predicate NeverExceeds(req: Request, stream: seq<BlockLogs>, k: nat)
    requires req.Valid() && k <= |stream|
  {
    forall i :: k < i <= |stream| ==> !ExceedsAt(req, stream, i)
  }

  /**
   * On a sorted stream inside the range, the order and range checks never fire: the response is the whole
   * stream unless some prefix is too large or extrapolates to too much.
   */
  lemma {:induction false} CollectsIff(req: Request, stream: seq<BlockLogs>, k: nat)
    requires req.Valid() && InRange(req, stream) && k <= |stream|
    ensures OutcomeFrom(req, stream, false, k)
      == if NeverExceeds(req, stream, k) then Collected(Response(stream, |stream|)) else TooLarge
    decreases |stream| - k
  {
    hide ExceedsAt;
    if k < |stream| {
      BlocksAdvance(req, stream, k);
      assert k > 0 ==> stream[k - 1].block < stream[k].block;
      CollectsIff(req, stream, k + 1);
    }
  }

  /** Item k is after its predecessor, within the range's count, and the items up to it are not too large. */
  ghost predicate Passes(req: Request, stream: seq<BlockLogs>, k: nat)
    requires req.Valid() && k < |stream|
  {
    (k > 0 ==> stream[k - 1].block < stream[k].block) && k < req.Total() && !ExceedsAt(req, stream, k + 1)
  }

  /** Why a collection ends at item k, the first that does not pass, or at the end of the stream. */
  ghost predicate EndsAt(req: Request, stream: seq<BlockLogs>, broken: bool, r: Outcome, k: nat)
    requires req.Valid() && k <= |stream|
  {
    match r
    case Collected(logs) => k == |stream| && !broken && logs == Response(stream, k)
    case StreamFailed => k == |stream| && broken
    case OutOfOrder => 0 < k < |stream| && stream[k].block <= stream[k - 1].block
    case OutOfRange => k < |stream| && k >= req.Total() && (k > 0 ==> stream[k - 1].block < stream[k].block)
    case TooLarge =>
      && k < |stream| && k < req.Total() && (k > 0 ==> stream[k - 1].block < stream[k].block)
      && ExceedsAt(req, stream, k + 1)
  }

  /** The first item that does not pass decides the outcome; without one it is the whole stream. */
  lemma {:induction false} OutcomeSays(req: Request, stream: seq<BlockLogs>, broken: bool, k: nat) returns (end: nat)
    requires req.Valid() && k <= |stream|
    ensures k <= end <= |stream| && EndsAt(req, stream, broken, OutcomeFrom(req, stream, broken, k), end)
    ensures forall i :: k <= i < end ==> Passes(req, stream, i)
    ensures end < |stream| ==> !Passes(req, stream, end)
    decreases |stream| - k
  {
    hide Response, ExceedsAt;
    end := k;
    if k < |stream| && StopsAt(req, stream, k).None? {
      end := OutcomeSays(req, stream, broken, k + 1);
    }
  }

  /** Answering means that the stream came to its end and every item of it passed, and conversely. */
  lemma AcceptedIff(req: Request, stream: seq<BlockLogs>, broken: bool)
    requires req.Valid()
    ensures OutcomeFrom(req, stream, broken, 0).Collected? <==>
      !broken && forall i :: 0 <= i < |stream| ==> Passes(req, stream, i)
  {
    hide Passes, OutcomeFrom;
    var end := OutcomeSays(req, stream, broken, 0);
  }

  /** An accepted response is the concatenation of the stream, and within the limit. */
  lemma AcceptedWithinLimit(req: Request, stream: seq<BlockLogs>, broken: bool)
    requires req.Valid() && OutcomeFrom(req, stream, broken, 0).Collected?
    ensures !broken && OutcomeFrom(req, stream, broken, 0).logs == Response(stream, |stream|)
    ensures SizeOf(req.size, Response(stream, |stream|)) <= req.max
  {
    hide OutcomeFrom, Response, SizeOf;
    var end := OutcomeSays(req, stream, broken, 0);
    NoSize(req.size, stream);
    if |stream| > 0 {
      assert Passes(req, stream, |stream| - 1);
    }
  }

  /**
   * On the indexed and on the bloom-filtered scanned path only size can stop an answer; whenever both
   * answer, the answers are equal.
   */
  lemma IndexedAnswerIsScanned(req: Request, f: LogFilter, q: Query, blocks: Blocks, entries: seq<Entry>,
                               out: seq<BlockReceipts>, hits: seq<bool>)
    requires req.Valid() && |blocks| == req.Total() && Indexed(f, q, blocks, req.from, entries, out)
    requires NoFalseNegatives(f, blocks, hits)
    ensures InRange(req, IndexStream(f, out)) && InRange(req, BloomStream(f, blocks, req.from, hits))
    ensures var indexed, scanned := IndexedOutcome(req, f, out), ScannedOutcome(req, f, blocks, hits);
      && (indexed.Collected? || indexed.TooLarge?) && (scanned.Collected? || scanned.TooLarge?)
      && (indexed.Collected? && scanned.Collected? ==> indexed == scanned)
  {
    hide Response, NeverExceeds, OutcomeFrom, ScanStream, BloomStream, IndexStream, InRange, Indexed, NoFalseNegatives;
    BloomIsScan(f, blocks, req.from, hits);
    StreamsInRange(req, f, q, blocks, entries, out);
    CollectsIff(req, IndexStream(f, out), 0);
    CollectsIff(req, ScanStream(f, blocks, req.from), 0);
    IndexedIsScan(f, q, blocks, req.from, entries, out);
  }

  function IndexedOutcome(req: Request, f: LogFilter, out: seq<BlockReceipts>): Outcome
    requires req.Valid()
  {
    OutcomeFrom(req, IndexStream(f, out), false, 0)
  }

  function ScannedOutcome(req: Request, f: LogFilter, blocks: Blocks, hits: seq<bool>): Outcome
    requires req.Valid() && |hits| == |blocks|
  {
    OutcomeFrom(req, BloomStream(f, blocks, req.from, hits), false, 0)
  }

  lemma {:induction false} SizeGrows(size: EthLog -> nat, stream: seq<BlockLogs>, k: nat, n: nat)
    requires k <= n <= |stream|
    ensures SizeOf(size, Response(stream, k)) <= SizeOf(size, Response(stream, n))
  {
    hide SizeOf, Response;
    if k < n {
      SizeGrows(size, stream, k, n - 1);
      ResponseStep(stream, n - 1);
      SizeOfAppend(size, Response(stream, n - 1), stream[n - 1].logs);
    }
  }

  /** When the whole response alone decides. */
  lemma SizeDecides(req: Request, stream: seq<BlockLogs>)
    requires req.Valid() && InRange(req, stream)
    ensures var s, r := SizeOf(req.size, Response(stream, |stream|)), OutcomeFrom(req, stream, false, 0);
      && (s > req.max ==> r == TooLarge)
      && (s <= req.max && (s < EXTRAPOLATION_MIN_SIZE || |stream| < EXTRAPOLATION_MIN_BLOCKS) ==> r.Collected?)
  {
    hide SizeOf, Response, InRange, OutcomeFrom;
    CollectsIff(req, stream, 0);
    var s := SizeOf(req.size, Response(stream, |stream|));
    NoSize(req.size, stream);
    if s > req.max {
      assert ExceedsAt(req, stream, |stream|);
    } else if s < EXTRAPOLATION_MIN_SIZE || |stream| < EXTRAPOLATION_MIN_BLOCKS {
      forall k | 0 < k <= |stream| ensures !ExceedsAt(req, stream, k) { SizeGrows(req.size, stream, k, |stream|); }
    }
  }

  lemma NoSize(size: EthLog -> nat, stream: seq<BlockLogs>)
    ensures |stream| == 0 ==> SizeOf(size, Response(stream, |stream|)) == 0
  {
  }

  /**
   * When one path answers and the other does not. A response above the limit stops both; one below
   * 4 MiB stops neither; with fewer than 100 blocks selected only the plain limit stops the indexed path.
   */
  lemma PathsBySize(req: Request, f: LogFilter, q: Query, blocks: Blocks, entries: seq<Entry>, out: seq<BlockReceipts>,
                    hits: seq<bool>)
    requires req.Valid() && |blocks| == req.Total() && Indexed(f, q, blocks, req.from, entries, out)
    requires NoFalseNegatives(f, blocks, hits)
    ensures var s := SizeOf(req.size, Response(IndexStream(f, out), |out|));
      var indexed, scanned := IndexedOutcome(req, f, out), ScannedOutcome(req, f, blocks, hits);
      && (s > req.max ==> indexed == scanned == TooLarge)
      && (s <= req.max && s < EXTRAPOLATION_MIN_SIZE ==> indexed.Collected? && scanned.Collected?)
      && (|out| < EXTRAPOLATION_MIN_BLOCKS ==> (indexed.Collected? <==> s <= req.max))
  {
    hide SizeOf, Response, OutcomeFrom, ScanStream, BloomStream, IndexStream, InRange, Indexed, NoFalseNegatives;
    IndexedAnswerIsScanned(req, f, q, blocks, entries, out, hits);
    BloomIsScan(f, blocks, req.from, hits);
    IndexedIsScan(f, q, blocks, req.from, entries, out);
    SizeDecides(req, IndexStream(f, out));
    SizeDecides(req, ScanStream(f, blocks, req.from));
  }

  /**
   * The indexed stream counts only selected blocks: having read block b it has the size of the scan but
   * at most as many items g. So where the scan extrapolates to more than the limit beyond rounding, the
   * indexed path rejects too once it has 100 items, and where the scan merely rejects, the indexed path
   * is above the limit before rounding.
   */
  lemma FewerItemsRejectMore(req: Request, f: LogFilter, q: Query, blocks: Blocks, entries: seq<Entry>,
                             out: seq<BlockReceipts>, g: nat, b: nat)
    requires req.Valid() && |blocks| == req.Total() && Indexed(f, q, blocks, req.from, entries, out)
    requires 0 < g <= |out| && b <= |blocks| && out[g - 1].block < req.from + b
    requires (g < |out| ==> req.from + b <= out[g].block)
    ensures g <= b && Response(IndexStream(f, out), g) == Response(ScanStream(f, blocks, req.from), b)
    ensures var s, total := SizeOf(req.size, Response(IndexStream(f, out), g)), req.Total();
      && (Extrapolated(s, total, b) > Limit(req.max, total, b) ==> OverBy(s, req.max, total, g, 0))
      && (OverBy(s, req.max, total, b, 2) && s >= EXTRAPOLATION_MIN_SIZE && g >= EXTRAPOLATION_MIN_BLOCKS ==>
            ExceedsAt(req, IndexStream(f, out), g) && IndexedOutcome(req, f, out) == TooLarge)
  {
    hide SizeOf, Response, OutcomeFrom, ScanStream, IndexStream, Indexed, OverBy, Extrapolated, Limit;
    StreamsAgree(f, q, blocks, req.from, entries, out, g, b);
    StreamsInRange(req, f, q, blocks, entries, out);
    BlocksAdvance(req, IndexStream(f, out), g - 1);
    BlockOfGroup(f, out, g - 1);
    var s, total := SizeOf(req.size, Response(IndexStream(f, out), g)), req.Total();
    if Extrapolated(s, total, b) > Limit(req.max, total, b) {
      RejectedIsOver(s, req.max, total, b);
      OverFewer(s, req.max, total, g, b, 0);
    }
    if OverBy(s, req.max, total, b, 2) {
      OverFewer(s, req.max, total, g, b, 2);
      FarOverIsRejected(s, req.max, total, g);
    }
    CollectsIff(req, IndexStream(f, out), 0);
  }

  lemma BlockOfGroup(f: LogFilter, out: seq<BlockReceipts>, g: nat)
    requires g < |out|
    ensures IndexStream(f, out)[g].block == out[g].block
  {
  }

  lemma StreamsInRange(req: Request, f: LogFilter, q: Query, blocks: Blocks, entries: seq<Entry>,
                       out: seq<BlockReceipts>)
    requires req.Valid() && |blocks| == req.Total() && Indexed(f, q, blocks, req.from, entries, out)
    ensures InRange(req, IndexStream(f, out)) && InRange(req, ScanStream(f, blocks, req.from))
  {
    hide Kept, QueryFor, Answers, InOrder, Group, Width, HasGroup;
    FirstGroup(f, q, blocks, req.from, entries, out);
    forall i, j | 0 <= i < j < |out| ensures IndexStream(f, out)[i].block < IndexStream(f, out)[j].block {
      assert out[i].block < out[j].block;
    }
  }
}
