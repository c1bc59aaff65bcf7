/** Propagation of a failed call frame to the frames below it (family/trace.rs). */
module AncestorStatus {
  import opened Seqs
  import opened Schema

  /** stack[d] says that the open frame at depth d, or one of its ancestors, failed. */
  type Stack = seq<bool>

  predicate ParentFailed(stack: Stack, depth: nat) {
    0 < depth <= |stack| && stack[depth - 1]
  }

  /** Truncate to `depth`, pad with false up to `depth`, push the new frame. */
  function Push(stack: Stack, depth: nat, failed: bool): (r: Stack)
    ensures |r| == depth + 1 && r[depth] == failed
    ensures forall d :: 0 <= d < depth ==> r[d] == (d < |stack| && stack[d])
  {
    stack[..Min(depth, |stack|)] + seq(depth - Min(depth, |stack|), _ => false) + [failed]
  }

  /** The stack after the frame of trace t. */
  function After(stack: Stack, t: StoredTrace): Stack {
    var depth := |t.traceAddress|;
    Push(stack, depth, ParentFailed(stack, depth) || t.status != 0)
  }

  /** The stack of transaction tx after the first n traces. */
  function StackAt(traces: seq<StoredTrace>, n: nat, tx: nat): Stack
    requires n <= |traces|
  {
    if n == 0 then [] else
      var before := StackAt(traces, n - 1, tx);
      if traces[n - 1].txIndex == tx then After(before, traces[n - 1]) else before
  }

  /** The ancestor_reverted flag of trace i. */
  predicate FlagAt(traces: seq<StoredTrace>, i: nat)
    requires i < |traces|
  {
    ParentFailed(StackAt(traces, i, traces[i].txIndex), |traces[i].traceAddress|)
  }

  function Flags(traces: seq<StoredTrace>): (flags: seq<bool>)
    ensures |flags| == |traces|
    ensures forall i :: 0 <= i < |traces| ==> flags[i] == FlagAt(traces, i)
  {
    seq(|traces|, i requires 0 <= i < |traces| => FlagAt(traces, i))
  }

  function StackOf(stacks: map<nat, Stack>, tx: nat): Stack {
    if tx in stacks then stacks[tx] else []
  }

  /** from_traces: one pass that keeps a depth stack per transaction. */
  method FromTraces(traces: seq<StoredTrace>) returns (flags: seq<bool>)
    ensures flags == Flags(traces)
  {
    var stacks: map<nat, Stack> := map[];
    flags := [];
    for i := 0 to |traces|
      invariant forall tx :: StackOf(stacks, tx) == StackAt(traces, i, tx)
      invariant |flags| == i && forall j :: 0 <= j < i ==> flags[j] == FlagAt(traces, j)
    {
      var t := traces[i];
      var reverted, stack := Visit(StackOf(stacks, t.txIndex), t);
      stacks := stacks[t.txIndex := stack];
      flags := flags + [reverted];
    }
  }

  /** The closure applied to each trace: read the parent's flag, then update the stack. */
  method Visit(before: Stack, t: StoredTrace) returns (reverted: bool, stack: Stack)
    ensures reverted == ParentFailed(before, |t.traceAddress|)
    ensures stack == After(before, t)
  {
    var depth := |t.traceAddress|;
    reverted := depth > 0 && depth - 1 < |before| && before[depth - 1];
    stack := before;
    if depth < |stack| {
      stack := stack[..depth];
    }
    if |stack| < depth {
      stack := stack + seq(depth - |stack|, _ => false);
    }
    stack := stack + [reverted || t.status != 0];
  }

  predicate AllOf(traces: seq<StoredTrace>, tx: nat) {
    forall i :: 0 <= i < |traces| ==> traces[i].txIndex == tx
  }

  predicate NoneOf(traces: seq<StoredTrace>, tx: nat) {
    forall i :: 0 <= i < |traces| ==> traces[i].txIndex != tx
  }

  /** Later traces do not change what was computed before them. */
  lemma {:induction false} StackPrefix(a: seq<StoredTrace>, b: seq<StoredTrace>, n: nat, tx: nat)
    requires n <= |a|
    ensures StackAt(a + b, n, tx) == StackAt(a, n, tx)
  {
    if n > 0 {
      StackPrefix(a, b, n - 1, tx);
    }
  }

  /** Traces of other transactions in front leave a transaction's stack alone. */
  lemma {:induction false} StackSuffix(a: seq<StoredTrace>, b: seq<StoredTrace>, n: nat, tx: nat)
    requires NoneOf(a, tx) && n <= |a| + |b|
    ensures StackAt(a + b, n, tx) == StackAt(b, if n <= |a| then 0 else n - |a|, tx)
  {
    if n > 0 {
      StackSuffix(a, b, n - 1, tx);
    }
  }

  lemma AppendTx(a: seq<StoredTrace>, b: seq<StoredTrace>, tx: nat)
    requires NoneOf(a, tx) && AllOf(b, tx)
    ensures Flags(a + b) == Flags(a) + Flags(b)
  {
    forall i | 0 <= i < |a + b|
      ensures Flags(a + b)[i] == (Flags(a) + Flags(b))[i]
    {
      if i < |a| {
        StackPrefix(a, b, i, a[i].txIndex);
      } else {
        StackSuffix(a, b, i, tx);
      }
    }
  }

  /** Group i holds the traces of the transaction with index i. */
  predicate Grouped(groups: seq<seq<StoredTrace>>) {
    forall i :: 0 <= i < |groups| ==> AllOf(groups[i], i)
  }

  function FlagGroups(groups: seq<seq<StoredTrace>>): (r: seq<seq<bool>>)
    ensures |r| == |groups|
  {
    seq(|groups|, i requires 0 <= i < |groups| => Flags(groups[i]))
  }

  /**
   * Running over a whole block's traces, as the validator does, gives the flags of the
   * per-transaction runs, as the writer does, one after another.
   */
  lemma BlockRunIsPerTransaction(groups: seq<seq<StoredTrace>>)
    requires Grouped(groups)
    ensures Flags(Flatten(groups)) == Flatten(FlagGroups(groups))
  {
    PrefixRun(groups, |groups|);
  }

  lemma {:induction false} PrefixRun(groups: seq<seq<StoredTrace>>, n: nat)
    requires Grouped(groups) && n <= |groups|
    ensures Flags(Flat(groups, 0, n)) == Flat(FlagGroups(groups), 0, n)
  {
    if n > 0 {
      PrefixRun(groups, n - 1);
      EarlierGroups(groups, n - 1, n - 1);
      AppendTx(Flat(groups, 0, n - 1), groups[n - 1], n - 1);
    }
  }

  lemma {:induction false} EarlierGroups(groups: seq<seq<StoredTrace>>, n: nat, tx: nat)
    requires Grouped(groups) && n <= |groups| && n <= tx
    ensures NoneOf(Flat(groups, 0, n), tx)
  {
    if n > 0 {
      EarlierGroups(groups, n - 1, tx);
    }
  }
}
