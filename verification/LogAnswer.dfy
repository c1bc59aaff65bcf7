/** What an eth_getLogs answer is: the matching logs of the range, each once, in chain order (data/mod.rs). */
module LogAnswer {
  import opened Seqs
  import opened LogQuery
  import opened LogCollector

  /** Log j of receipt i of block b, counted from the first block of the range. */
  datatype LogAt = LogAt(b: nat, i: nat, j: nat)

  predicate Less(p: LogAt, q: LogAt) {
    p.b < q.b || (p.b == q.b && (p.i < q.i || (p.i == q.i && p.j < q.j)))
  }

  predicate IsLog(blocks: Blocks, p: LogAt) {
    p.b < |blocks| && p.i < |blocks[p.b]| && p.j < |blocks[p.b][p.i]|
  }

  /**
   * What eth_getLogs asks of a log: its address is one of those named, if any are, and at every position
   * for which topics are named it has one of them there.
   */
  predicate Wanted(f: LogFilter, log: EthLog) {
    && (f.addresses != {} ==> log.address in f.addresses)
    && (forall i :: 0 <= i < |f.topics| && f.topics[i] != {} ==> i < |log.topics| && log.topics[i] in f.topics[i])
  }

  lemma MatchesWanted(f: LogFilter, log: EthLog)
    ensures Matches(f, log) <==> Wanted(f, log)
  {
    if Wanted(f, log) {
      forall i | 0 <= i < |f.topics| ensures TopicMatches(f, log, i) {}
    }
    if Matches(f, log) {
      forall i | 0 <= i < |f.topics| && f.topics[i] != {} ensures i < |log.topics| && log.topics[i] in f.topics[i] {
        assert TopicMatches(f, log, i);
      }
    }
  }

  /** p is a log that matches the filter. */
  predicate Hit(f: LogFilter, blocks: Blocks, p: LogAt) {
    IsLog(blocks, p) && Matches(f, blocks[p.b][p.i][p.j])
  }

  /** `at` are the matching positions before `end`, in order, and `out` the logs there. */
  ghost predicate Lists(f: LogFilter, blocks: Blocks, end: LogAt, out: seq<EthLog>, at: seq<LogAt>) {
    && |at| == |out|
    && (forall x, y :: 0 <= x < y < |at| ==> Less(at[x], at[y]))
    && (forall x :: 0 <= x < |at| ==>
          Hit(f, blocks, at[x]) && Less(at[x], end) && out[x] == blocks[at[x].b][at[x].i][at[x].j])
    && (forall p :: Hit(f, blocks, p) && Less(p, end) ==> p in at)
  }

  /** Moving the end over positions that are no logs lists the same. */
  lemma MoveEnd(f: LogFilter, blocks: Blocks, end: LogAt, end': LogAt, out: seq<EthLog>, at: seq<LogAt>)
    requires Lists(f, blocks, end, out, at)
    requires forall p :: IsLog(blocks, p) ==> (Less(p, end) <==> Less(p, end'))
    ensures Lists(f, blocks, end', out, at)
  {
    hide Matches, Less;
  }

  /** One more log. */
  lemma OneLog(f: LogFilter, blocks: Blocks, p: LogAt, out: seq<EthLog>, at: seq<LogAt>)
    requires IsLog(blocks, p) && Lists(f, blocks, p, out, at)
    ensures var log := blocks[p.b][p.i][p.j]; var next := p.(j := p.j + 1);
      if Matches(f, log) then Lists(f, blocks, next, out + [log], at + [p]) else Lists(f, blocks, next, out, at)
  {
    hide Matches;
    var log, next := blocks[p.b][p.i][p.j], p.(j := p.j + 1);
    assert forall q :: Less(q, next) <==> Less(q, p) || q == p;
    if Matches(f, log) {
      var at' := at + [p];
      forall q | Hit(f, blocks, q) && Less(q, next) ensures q in at' {
        assert q == p ==> at'[|at|] == q;
        assert q != p ==> q in at;
      }
    }
  }

  /** One receipt, after what comes before it. */
  lemma {:induction false} SelectLists(f: LogFilter, blocks: Blocks, b: nat, i: nat, j: nat, before: seq<EthLog>,
                                       at0: seq<LogAt>)
    returns (at: seq<LogAt>)
    requires b < |blocks| && i < |blocks[b]| && j <= |blocks[b][i]| && Lists(f, blocks, LogAt(b, i, 0), before, at0)
    ensures Lists(f, blocks, LogAt(b, i, j), before + Select(f, blocks[b][i], j), at)
  {
    hide Lists, Matches;
    if j == 0 {
      at := at0;
      assert before + [] == before;
    } else {
      at := SelectLists(f, blocks, b, i, j - 1, before, at0);
      var logs := blocks[b][i];
      var out, log := before + Select(f, logs, j - 1), logs[j - 1];
      OneLog(f, blocks, LogAt(b, i, j - 1), out, at);
      if Matches(f, log) {
        at := at + [LogAt(b, i, j - 1)];
        assert before + (Select(f, logs, j - 1) + [log]) == out + [log];
      } else {
        assert Select(f, logs, j - 1) + [] == Select(f, logs, j - 1);
      }
    }
  }

  /** The receipts of one block, after what comes before it. */
  lemma {:induction false} KeptLists(f: LogFilter, blocks: Blocks, b: nat, i: nat, before: seq<EthLog>, at0: seq<LogAt>)
    returns (at: seq<LogAt>)
    requires b < |blocks| && i <= |blocks[b]| && Lists(f, blocks, LogAt(b, 0, 0), before, at0)
    ensures Lists(f, blocks, LogAt(b, i, 0), before + Kept(f, blocks[b], i), at)
  {
    hide Lists, Select, Matches;
    if i == 0 {
      at := at0;
      assert before + [] == before;
    } else {
      at := KeptLists(f, blocks, b, i - 1, before, at0);
      var receipt := blocks[b][i - 1];
      var out := before + Kept(f, blocks[b], i - 1);
      at := SelectLists(f, blocks, b, i - 1, |receipt|, out, at);
      assert before + (Kept(f, blocks[b], i - 1) + Filtered(f, receipt)) == out + Filtered(f, receipt);
      MoveEnd(f, blocks, LogAt(b, i - 1, |receipt|), LogAt(b, i, 0), before + Kept(f, blocks[b], i), at);
    }
  }

  /** The scan of the first n blocks lists exactly their matching logs. */
  lemma {:induction false} ScanLists(f: LogFilter, blocks: Blocks, from: nat, n: nat) returns (at: seq<LogAt>)
    requires n <= |blocks|
    ensures Lists(f, blocks, LogAt(n, 0, 0), Response(ScanStream(f, blocks, from), n), at)
  {
    hide Kept, Matches;
    if n == 0 {
      at := [];
    } else {
      at := ScanLists(f, blocks, from, n - 1);
      var before := Response(ScanStream(f, blocks, from), n - 1);
      at := KeptLists(f, blocks, n - 1, |blocks[n - 1]|, before, at);
      MoveEnd(f, blocks, LogAt(n - 1, |blocks[n - 1]|, 0), LogAt(n, 0, 0), Response(ScanStream(f, blocks, from), n),
        at);
    }
  }

  predicate IsWanted(f: LogFilter, blocks: Blocks, p: LogAt) {
    IsLog(blocks, p) && Wanted(f, blocks[p.b][p.i][p.j])
  }

  /** All wanted logs, each once, by block, transaction and log index. */
  ghost predicate IsAnswer(f: LogFilter, blocks: Blocks, out: seq<EthLog>, at: seq<LogAt>) {
    && |at| == |out|
    && (forall x, y :: 0 <= x < y < |at| ==> Less(at[x], at[y]))
    && (forall x :: 0 <= x < |at| ==> IsWanted(f, blocks, at[x]) && out[x] == blocks[at[x].b][at[x].i][at[x].j])
    && (forall p :: IsWanted(f, blocks, p) ==> p in at)
  }

  lemma AllListed(f: LogFilter, blocks: Blocks, out: seq<EthLog>, at: seq<LogAt>)
    requires Lists(f, blocks, LogAt(|blocks|, 0, 0), out, at)
    ensures IsAnswer(f, blocks, out, at)
  {
    hide Matches, Wanted;
    forall p ensures Hit(f, blocks, p) <==> IsWanted(f, blocks, p) {
      if IsLog(blocks, p) {
        MatchesWanted(f, blocks[p.b][p.i][p.j]);
      }
    }
  }

  /** What either path answers, if it answers, is exactly the wanted logs of the range in chain order. */
  lemma AnswersAreExact(req: Request, f: LogFilter, q: Query, blocks: Blocks, entries: seq<Entry>,
                        out: seq<BlockReceipts>, hits: seq<bool>)
    returns (at: seq<LogAt>)
    requires req.Valid() && |blocks| == req.Total() && Indexed(f, q, blocks, req.from, entries, out)
    requires NoFalseNegatives(f, blocks, hits)
    ensures var indexed, scanned := IndexedOutcome(req, f, out), ScannedOutcome(req, f, blocks, hits);
      && (indexed.Collected? ==> IsAnswer(f, blocks, indexed.logs, at))
      && (scanned.Collected? ==> IsAnswer(f, blocks, scanned.logs, at))
  {
    hide Response, NeverExceeds, OutcomeFrom, ScanStream, BloomStream, IndexStream, InRange, Indexed, NoFalseNegatives,
      IsAnswer, Lists;
    BloomIsScan(f, blocks, req.from, hits);
    StreamsInRange(req, f, q, blocks, entries, out);
    CollectsIff(req, IndexStream(f, out), 0);
    CollectsIff(req, ScanStream(f, blocks, req.from), 0);
    IndexedIsScan(f, q, blocks, req.from, entries, out);
    at := ScanLists(f, blocks, req.from, |blocks|);
    AllListed(f, blocks, Response(ScanStream(f, blocks, req.from), |blocks|), at);
  }
}
