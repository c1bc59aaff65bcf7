/** What a row is indexed under, said filter by filter (family/block.rs, log.rs, transaction.rs, trace.rs). */
module RowMeaning {
  import opened Seqs
  import opened Schema

  /** A header is found by its beneficiary. */
  predicate HeaderWants(h: Header, flt: Filter) { flt == Miner(h.beneficiary) }

  /** A transaction that decodes is found by sender, recipient and selector. */
  predicate TxWants(c: Codec, tx: StoredTx, flt: Filter) {
    var e := c.envelope(tx.signedTx);
    && e.Some?
    && match flt
       case From(a) => a == tx.sender
       case To(a) => e.value.to == Some(a)
       case Selector(s) => e.value.selector == Some(s)
       case _ => false
  }

  /** A log is found by its address and by each of its first four topics at the topic's own position. */
  predicate LogWants(log: StoredLog, flt: Filter) {
    match flt
    case ByAddress(a) => a == log.address
    case Topic(p, h) => p < 4 && p < |log.topics| && log.topics[p] == h
    case _ => false
  }

  /** A trace is found by caller, callee, selector, being top level, and having moved value. */
  predicate TraceWants(t: StoredTrace, reverted: bool, flt: Filter) {
    match flt
    case From(a) => a == t.from
    case To(a) => t.to == Some(a)
    case Selector(s) => |t.input| >= 4 && s == t.input[..4]
    case TopLevel => |t.traceAddress| == 0
    case HasTransfer =>
      !reverted && t.txStatus && t.status == 0
        && (t.kind == Call || t.kind == Create || t.kind == Create2 || t.kind == SelfDestruct)
    case _ => false
  }

  lemma HeaderFiltersSay(h: Header, flt: Filter)
    ensures flt in HeaderFilters(h) <==> HeaderWants(h, flt)
  {
  }

  lemma TxFiltersSay(c: Codec, tx: StoredTx, flt: Filter)
    ensures var r := TxFilters(c, tx);
      (r.Some? <==> c.envelope(tx.signedTx).Some?) && (TxWants(c, tx, flt) <==> r.Some? && flt in r.value)
  {
  }

  lemma LogFiltersSay(log: StoredLog, flt: Filter)
    ensures flt in LogFilters(log) <==> LogWants(log, flt)
  {
    var n := Min(4, |log.topics|);
    var topics := seq(n, i requires 0 <= i < n => Topic(i, log.topics[i]));
    assert LogFilters(log) == [ByAddress(log.address)] + topics;
    if LogWants(log, flt) && flt.Topic? {
      assert topics[flt.position] == flt;
    }
  }

  lemma TraceFiltersSay(t: StoredTrace, reverted: bool, flt: Filter)
    ensures flt in TraceFilters(t, reverted) <==> TraceWants(t, reverted, flt)
  {
  }
}
