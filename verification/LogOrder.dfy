/** Numbering the logs of a call tree in the order they were emitted (handlers/debug.rs). */
module LogOrder {
  import opened Seqs
  import opened CallTree
  import opened TraceAddresses

  /** Log k of the frame with pre-order index `frame`. */
  datatype LogId = LogId(frame: nat, k: nat)

  function Run(at: nat, lo: nat, hi: nat): seq<LogId>
    requires lo <= hi
  {
    seq(hi - lo, i requires 0 <= i < hi - lo => LogId(at, lo + i))
  }

  /** How far next_if gets from log k with child c next. */
  function Take(logs: seq<CallLog>, c: nat, k: nat): (r: nat)
    requires k <= |logs|
    ensures k <= r <= |logs|
    decreases |logs| - k
  {
    if k < |logs| && logs[k].position <= c then Take(logs, c, k + 1) else k
  }

  /** The logs emitted before child c is entered, counting from the first child. */
  function Done(n: Node, c: nat): (r: nat)
    ensures r <= |n.frame.logs|
  {
    if c == 0 then 0 else Take(n.frame.logs, c - 1, 0)
  }

  /** The highest position among logs 0..k. */
  function RunningMax(logs: seq<CallLog>, k: nat): nat
    requires k < |logs|
  {
    if k == 0 then logs[0].position else Max(RunningMax(logs, k - 1), logs[k].position)
  }

  lemma {:induction false} TakeAll(logs: seq<CallLog>, c: nat, k: nat, j: nat)
    requires k <= j < |logs| && (k > 0 ==> RunningMax(logs, k - 1) <= c)
    ensures j < Take(logs, c, k) <==> RunningMax(logs, j) <= c
    decreases |logs| - k
  {
    if logs[k].position <= c {
      if k < j {
        TakeAll(logs, c, k + 1, j);
      }
    } else {
      MaxMono(logs, k, j);
    }
  }

  lemma {:induction false} MaxMono(logs: seq<CallLog>, k: nat, j: nat)
    requires k <= j < |logs|
    ensures RunningMax(logs, k) <= RunningMax(logs, j)
  {
    if k < j {
      MaxMono(logs, k, j - 1);
    }
  }

  /** Log k comes before child c exactly when no position up to it exceeds c. */
  lemma DoneIff(n: Node, c: nat, k: nat)
    requires k < |n.frame.logs|
    ensures k < Done(n, c + 1) <==> RunningMax(n.frame.logs, k) <= c
  {
    TakeAll(n.frame.logs, c, 0, k);
  }

  /** Going on from the previous child or starting over makes no difference. */
  lemma {:induction false} TakeResumes(logs: seq<CallLog>, c: nat, k: nat, from: nat)
    requires k <= from <= |logs| && forall j :: k <= j < from ==> logs[j].position <= c
    ensures Take(logs, c, k) == Take(logs, c, from)
    decreases from - k
  {
    if k < from {
      TakeResumes(logs, c, k + 1, from);
    }
  }

  lemma {:induction false} TakenSmall(logs: seq<CallLog>, c: nat, k: nat)
    requires k <= |logs|
    ensures forall j :: k <= j < Take(logs, c, k) ==> logs[j].position <= c
    decreases |logs| - k
  {
    if k < |logs| && logs[k].position <= c {
      TakenSmall(logs, c, k + 1);
    }
  }

  lemma DoneStep(n: Node, c: nat)
    ensures Done(n, c) <= Done(n, c + 1) && Done(n, c + 1) == Take(n.frame.logs, c, Done(n, c))
  {
    if c > 0 {
      TakenSmall(n.frame.logs, c - 1, 0);
      TakeResumes(n.frame.logs, c, 0, Done(n, c));
    }
  }

  // ---- the order ----

  /** Logs in emission order: those due before each child, the child's own, then the rest. */
  function Emit(n: Node, at: nat): seq<LogId>
    decreases n, |n.calls| + 1
  {
    Steps(n, at, |n.calls|) + Run(at, Done(n, |n.calls|), |n.frame.logs|)
  }

  function Steps(n: Node, at: nat, c: nat): seq<LogId>
    requires c <= |n.calls|
    decreases n, c
  {
    if c == 0 then [] else
      DoneStep(n, c - 1);
      Steps(n, at, c - 1) + Run(at, Done(n, c - 1), Done(n, c)) + Emit(n.calls[c - 1], ChildAt(n, at, c - 1))
  }

  /** extend_logs_by_emit_order */
  method ExtendLogs(n: Node, at: nat, order0: seq<LogId>) returns (order: seq<LogId>)
    ensures order == order0 + Emit(n, at)
    decreases n
  {
    hide Kids, Emit, Done, Take;
    order := order0;
    var k := 0;
    DoneNone(n);
    for c := 0 to |n.calls|
      invariant k == Done(n, c) && order == order0 + Steps(n, at, c)
    {
      DoneStep(n, c);
      order, k := TakeLogs(n.frame.logs, at, c, k, order);
      order := ExtendLogs(n.calls[c], ChildAt(n, at, c), order);
    }
    order := order + Run(at, k, |n.frame.logs|);
    EmitIs(n, at);
  }

  lemma DoneNone(n: Node)
    ensures Done(n, 0) == 0
  {
  }

  lemma {:induction false} EmitIs(n: Node, at: nat)
    ensures Emit(n, at) == Steps(n, at, |n.calls|) + Run(at, Done(n, |n.calls|), |n.frame.logs|)
  {
  }

  /** The while loop over the frame's own logs. */
  method TakeLogs(logs: seq<CallLog>, at: nat, c: nat, k0: nat, order0: seq<LogId>) returns (order: seq<LogId>, k: nat)
    requires k0 <= |logs|
    ensures k == Take(logs, c, k0) && order == order0 + Run(at, k0, k)
  {
    order, k := order0, k0;
    while k < |logs| && logs[k].position <= c
      invariant k0 <= k <= |logs| && Take(logs, c, k) == Take(logs, c, k0)
      invariant order == order0 + Run(at, k0, k)
      decreases |logs| - k
    {
      order := order + [LogId(at, k)];
      k := k + 1;
    }
  }

  // ---- every log once ----

  /** x is a log of a frame of the tree. */
  predicate Owns(frames: seq<Frame>, at: nat, x: LogId) {
    at <= x.frame < at + |frames| && x.k < |frames[x.frame - at].logs|
  }

  ghost predicate Distinct(xs: seq<LogId>) {
    forall i, j :: 0 <= i < j < |xs| ==> xs[i] != xs[j]
  }

  ghost predicate Lists(xs: seq<LogId>, own: LogId -> bool) {
    Distinct(xs) && forall x :: x in xs <==> own(x)
  }

  lemma Append(a: seq<LogId>, b: seq<LogId>, own: LogId -> bool, more: LogId -> bool, both: LogId -> bool)
    requires Lists(a, own) && Lists(b, more) && forall x :: !(own(x) && more(x)) && (both(x) <==> own(x) || more(x))
    ensures Lists(a + b, both)
  {
    forall i, j | 0 <= i < j < |a + b| ensures (a + b)[i] != (a + b)[j] {
      if i < |a| <= j {
        assert (a + b)[i] in a && (a + b)[j] in b;
      }
    }
  }

  lemma RunLists(at: nat, lo: nat, hi: nat)
    requires lo <= hi
    ensures Lists(Run(at, lo, hi), (x: LogId) => x.frame == at && lo <= x.k < hi)
  {
    var run := Run(at, lo, hi);
    forall x: LogId | x.frame == at && lo <= x.k < hi ensures x in run {
      assert run[x.k - lo] == x;
    }
  }

  /** What the steps up to child c list: the frame's logs due by then, and those below the first c children. */
  predicate Stepped(n: Node, at: nat, c: nat, x: LogId)
    requires c <= |n.calls|
  {
    (x.frame == at && x.k < Done(n, c)) || Owns(Kids(n, c), at + 1, x)
  }

  lemma {:induction false} StepsList(n: Node, at: nat, c: nat)
    requires c <= |n.calls|
    ensures Lists(Steps(n, at, c), (x: LogId) => Stepped(n, at, c, x))
    decreases n, c
  {
    hide Kids, Emit, Lists, Run, Done;
    KidsStart(n);
    DoneNone(n);
    if c == 0 {
      NoneListed((x: LogId) => Stepped(n, at, 0, x));
    } else {
      StepsList(n, at, c - 1);
      DoneStep(n, c - 1);
      RunLists(at, Done(n, c - 1), Done(n, c));
      var from, child := ChildAt(n, at, c - 1), n.calls[c - 1];
      EmitList(child, from);
      KidsStep(n, c - 1);
      var due := (x: LogId) => x.frame == at && Done(n, c - 1) <= x.k < Done(n, c);
      var own := (x: LogId) => Stepped(n, at, c - 1, x) || due(x);
      Append(Steps(n, at, c - 1), Run(at, Done(n, c - 1), Done(n, c)), (x: LogId) =>
        Stepped(n, at, c - 1, x), due, own);
      Append(Steps(n, at, c - 1) + Run(at, Done(n, c - 1), Done(n, c)), Emit(child, from), own,
             (x: LogId) => Owns(Pre(child), from, x), (x: LogId) => Stepped(n, at, c, x));
    }
  }

  lemma KidsStart(n: Node)
    ensures Kids(n, 0) == []
  {
  }

  lemma NoneListed(own: LogId -> bool)
    requires forall x :: !own(x)
    ensures Lists([], own)
  {
  }

  /** The order lists every log of the tree exactly once. */
  lemma {:induction false} EmitList(n: Node, at: nat)
    ensures Lists(Emit(n, at), (x: LogId) => Owns(Pre(n), at, x))
    decreases n, |n.calls| + 1
  {
    hide Kids, Steps, Lists, Run, Done, Emit, Pre;
    var c := |n.calls|;
    StepsList(n, at, c);
    RunLists(at, Done(n, c), |n.frame.logs|);
    EmitIs(n, at);
    PreUnfold(n);
    Append(Steps(n, at, c), Run(at, Done(n, c), |n.frame.logs|), (x: LogId) => Stepped(n, at, c, x),
           (x: LogId) => x.frame == at && Done(n, c) <= x.k < |n.frame.logs|, (x: LogId) => Owns(Pre(n), at, x));
  }

  // ---- the order within a frame and against its children ----

  ghost predicate Precedes(order: seq<LogId>, x: LogId, y: LogId) {
    exists i, j :: 0 <= i < j < |order| && order[i] == x && order[j] == y
  }

  lemma Across(a: seq<LogId>, b: seq<LogId>, x: LogId, y: LogId)
    requires x in a && y in b
    ensures Precedes(a + b, x, y)
  {
    var i :| 0 <= i < |a| && a[i] == x;
    var j :| 0 <= j < |b| && b[j] == y;
    assert (a + b)[i] == x && (a + b)[|a| + j] == y;
  }

  lemma Inside(a: seq<LogId>, b: seq<LogId>, c: seq<LogId>, x: LogId, y: LogId)
    requires Precedes(b, x, y)
    ensures Precedes(a + b + c, x, y)
  {
    var i, j :| 0 <= i < j < |b| && b[i] == x && b[j] == y;
    assert (a + b + c)[|a| + i] == x && (a + b + c)[|a| + j] == y;
  }

  /** What comes after child c. */
  function After(n: Node, at: nat, c: nat): seq<LogId>
    requires c < |n.calls|
  {
    Emit(n, at)[Min(|Emit(n, at)|, |Steps(n, at, c + 1)|)..]
  }

  lemma {:induction false} StepsPrefix(n: Node, at: nat, c: nat, d: nat)
    requires c <= d <= |n.calls|
    ensures Steps(n, at, c) <= Steps(n, at, d)
  {
    hide Emit, Run, Done, ChildAt;
    if c < d {
      StepsPrefix(n, at, c, d - 1);
    }
  }

  /** The order splits at child c: what is due before it, its own subtree, what comes after. */
  lemma SplitAt(n: Node, at: nat, c: nat)
    requires c < |n.calls|
    ensures Done(n, c) <= Done(n, c + 1)
    ensures Emit(n, at) == Steps(n, at, c) + Run(at, Done(n, c), Done(n, c + 1)) + Emit(n.calls[c], ChildAt(n, at, c))
      + After(n, at, c)
  {
    hide Emit, Run, Done, ChildAt;
    DoneStep(n, c);
    StepsPrefix(n, at, c + 1, |n.calls|);
    EmitIs(n, at);
    assert Steps(n, at, c + 1) <= Emit(n, at);
  }

  /** Against child c, log k stands before the whole subtree or after all of it. */
  lemma AgainstChild(n: Node, at: nat, c: nat, k: nat, y: LogId)
    requires c < |n.calls| && k < |n.frame.logs| && Owns(Pre(n.calls[c]), ChildAt(n, at, c), y)
    ensures if RunningMax(n.frame.logs, k) <= c then Precedes(Emit(n, at), LogId(at, k), y)
      else Precedes(Emit(n, at), y, LogId(at, k))
  {
    hide Emit, Run, Done, Precedes, Pre, Kids, Steps, After;
    var x, from := LogId(at, k), ChildAt(n, at, c);
    SplitAt(n, at, c);
    DoneIff(n, c, k);
    RunLists(at, Done(n, c), Done(n, c + 1));
    StepsList(n, at, c);
    EmitList(n.calls[c], from);
    EmitList(n, at);
    RootOwns(n, at, k);
    var due, below := Steps(n, at, c) + Run(at, Done(n, c), Done(n, c + 1)), Emit(n.calls[c], from);
    assert y in below;
    if k < Done(n, c + 1) {
      assert x in due;
      Across(due, below + After(n, at, c), x, y);
      assert due + (below + After(n, at, c)) == Emit(n, at);
    } else {
      assert x !in due && x !in below;
      assert x in Emit(n, at) && Emit(n, at) == (due + below) + After(n, at, c);
      Across(due + below, After(n, at, c), y, x);
    }
  }

  lemma RootOwns(n: Node, at: nat, k: nat)
    requires k < |n.frame.logs|
    ensures Owns(Pre(n), at, LogId(at, k))
  {
    hide Kids;
  }

  /** The frame's own logs keep their order. */
  lemma {:induction false} OwnLogsOrdered(n: Node, at: nat, c: nat, k: nat, k': nat)
    requires c <= |n.calls| && k < k' < Done(n, c)
    ensures Precedes(Steps(n, at, c), LogId(at, k), LogId(at, k'))
    decreases c
  {
    hide Emit, Done, Precedes, Kids, ChildAt, Run;
    DoneNone(n);
    if c > 0 {
      DoneStep(n, c - 1);
      RunLists(at, Done(n, c - 1), Done(n, c));
      StepsList(n, at, c - 1);
      var steps, run, rest := Steps(n, at, c - 1), Run(at, Done(n, c - 1), Done(n, c)),
        Emit(n.calls[c - 1], ChildAt(n, at, c - 1));
      if k' < Done(n, c - 1) {
        OwnLogsOrdered(n, at, c - 1, k, k');
        Inside([], steps, run + rest, LogId(at, k), LogId(at, k'));
        assert [] + steps + (run + rest) == Steps(n, at, c);
      } else if k < Done(n, c - 1) {
        Across(steps, run + rest, LogId(at, k), LogId(at, k'));
        assert steps + (run + rest) == Steps(n, at, c);
      } else {
        RunOrdered(at, Done(n, c - 1), Done(n, c), k, k');
        Inside(steps, run, rest, LogId(at, k), LogId(at, k'));
      }
    }
  }

  lemma RunOrdered(at: nat, lo: nat, hi: nat, k: nat, k': nat)
    requires lo <= k < k' < hi
    ensures Precedes(Run(at, lo, hi), LogId(at, k), LogId(at, k'))
  {
    var run := Run(at, lo, hi);
    assert run[k - lo] == LogId(at, k) && run[k' - lo] == LogId(at, k');
  }

  lemma WithinFrame(n: Node, at: nat, k: nat, k': nat)
    requires k < k' < |n.frame.logs|
    ensures Precedes(Emit(n, at), LogId(at, k), LogId(at, k'))
  {
    hide Emit, Done, Precedes, Kids, Steps, Run;
    var c := |n.calls|;
    EmitIs(n, at);
    StepsList(n, at, c);
    RunLists(at, Done(n, c), |n.frame.logs|);
    var steps, run := Steps(n, at, c), Run(at, Done(n, c), |n.frame.logs|);
    if k' < Done(n, c) {
      OwnLogsOrdered(n, at, c, k, k');
      Inside([], steps, run, LogId(at, k), LogId(at, k'));
      assert [] + steps + run == Emit(n, at);
    } else if k < Done(n, c) {
      Across(steps, run, LogId(at, k), LogId(at, k'));
    } else {
      RunOrdered(at, Done(n, c), |n.frame.logs|, k, k');
      Inside(steps, run, [], LogId(at, k), LogId(at, k'));
      assert steps + run + [] == Emit(n, at);
    }
  }

  /** The order of a subtree is kept in the order of the tree. */
  lemma {:induction false} SubtreeKept(n: Node, at: nat, path: Path, x: LogId, y: LogId)
    requires Leads(n, path) && Precedes(Emit(Sub(n, path), Pos(n, at, path)), x, y)
    ensures Precedes(Emit(n, at), x, y)
    decreases |path|
  {
    hide Emit, Done, Precedes, Kids, Steps, Run, After, ChildAt;
    if path != [] {
      var c := path[0];
      var from := ChildAt(n, at, c);
      SubtreeKept(n.calls[c], from, path[1..], x, y);
      SplitAt(n, at, c);
      Inside(Steps(n, at, c) + Run(at, Done(n, c), Done(n, c + 1)), Emit(n.calls[c], from), After(n, at, c), x, y);
    }
  }

  // ---- numbers ----

  /** The number each log gets: its place in the order. */
  ghost predicate Numbers(order: seq<LogId>, index: map<LogId, nat>) {
    && (forall x :: x in index <==> x in order)
    && forall i :: 0 <= i < |order| ==> index[order[i]] == i
  }

  /** The loop that writes the numbers. */
  method Enumerate(order: seq<LogId>) returns (index: map<LogId, nat>)
    requires Distinct(order)
    ensures Numbers(order, index)
  {
    index := map[];
    for i := 0 to |order|
      invariant forall x :: x in index <==> x in order[..i]
      invariant forall j :: 0 <= j < i ==> index[order[j]] == j
    {
      assert order[..i + 1] == order[..i] + [order[i]];
      index := index[order[i] := i];
    }
    assert order[..|order|] == order;
  }

  method NumberLogs(root: Node) returns (index: map<LogId, nat>)
    ensures Numbers(Emit(root, 0), index)
  {
    hide Emit, Numbers, Distinct;
    var order := ExtendLogs(root, 0, []);
    assert order == Emit(root, 0);
    EmitList(root, 0);
    index := Enumerate(order);
  }

  ghost predicate Gets(index: map<LogId, nat>, i: nat) {
    exists x :: x in index && index[x] == i
  }

  /** The numbers are a bijection between the logs of the tree and 0..n-1. */
  lemma NumbersBijective(root: Node, index: map<LogId, nat>)
    requires Numbers(Emit(root, 0), index)
    ensures forall x :: x in index <==> Owns(Pre(root), 0, x)
    ensures forall x :: x in index ==> index[x] < |Emit(root, 0)|
    ensures forall x, y :: x in index && y in index && index[x] == index[y] ==> x == y
    ensures forall i: nat :: i < |Emit(root, 0)| ==> Gets(index, i)
  {
    hide Emit, Pre;
    EmitList(root, 0);
    var order := Emit(root, 0);
    forall x | x in index ensures index[x] < |order| && order[index[x]] == x {
      var i :| 0 <= i < |order| && order[i] == x;
    }
    forall i: nat | i < |order| ensures Gets(index, i) {
      assert order[i] in index;
    }
  }

  lemma PrecedesIsLess(order: seq<LogId>, index: map<LogId, nat>, x: LogId, y: LogId)
    requires Numbers(order, index) && Precedes(order, x, y)
    ensures x in index && y in index && index[x] < index[y]
  {
  }

  /** Within any frame of the tree, numbers grow with the log's position in the frame. */
  lemma NumbersWithinFrame(root: Node, index: map<LogId, nat>, path: Path, k: nat, k': nat)
    requires Numbers(Emit(root, 0), index) && Leads(root, path) && k < k' < |Sub(root, path).frame.logs|
    ensures var at := Pos(root, 0, path);
      LogId(at, k) in index && LogId(at, k') in index && index[LogId(at, k)] < index[LogId(at, k')]
  {
    hide Emit, Precedes, Numbers, Leads, Sub, Pos;
    var at := Pos(root, 0, path);
    WithinFrame(Sub(root, path), at, k, k');
    SubtreeKept(root, 0, path, LogId(at, k), LogId(at, k'));
    PrecedesIsLess(Emit(root, 0), index, LogId(at, k), LogId(at, k'));
  }

  /**
   * At any frame of the tree, log k is numbered before every log below child c if no position up to it
   * exceeds c, and after every one of them otherwise.
   */
  lemma NumbersAgainstChild(root: Node, index: map<LogId, nat>, path: Path, c: nat, k: nat, y: LogId)
    requires Numbers(Emit(root, 0), index) && Leads(root, path)
    requires var n := Sub(root, path);
      c < |n.calls| && k < |n.frame.logs| && Owns(Pre(n.calls[c]), ChildAt(n, Pos(root, 0, path), c), y)
    ensures var x := LogId(Pos(root, 0, path), k);
      x in index && y in index && (if RunningMax(Sub(root, path).frame.logs, k) <= c then index[x] < index[y]
        else index[y] < index[x])
  {
    hide Emit, Precedes, Numbers, Leads, Sub, Pos, Pre, RunningMax, Owns;
    var n, at := Sub(root, path), Pos(root, 0, path);
    var x := LogId(at, k);
    AgainstChild(n, at, c, k, y);
    if RunningMax(n.frame.logs, k) <= c {
      SubtreeKept(root, 0, path, x, y);
      PrecedesIsLess(Emit(root, 0), index, x, y);
    } else {
      SubtreeKept(root, 0, path, y, x);
      PrecedesIsLess(Emit(root, 0), index, y, x);
    }
  }

  // ---- the numbered tree ----

  function NumberOf(index: map<LogId, nat>, x: LogId): nat {
    if x in index then index[x] else 0
  }

  function Stamp(f: Frame, at: nat, index: map<LogId, nat>): (r: Frame)
    ensures r.depth == f.depth && r.data == f.data && |r.logs| == |f.logs|
  {
    f.(logs := seq(|f.logs|, k requires 0 <= k < |f.logs| => f.logs[k].(index := NumberOf(index, LogId(at, k)))))
  }

  function Numbered(n: Node, at: nat, index: map<LogId, nat>): (r: Node)
    ensures |r.calls| == |n.calls|
  {
    Node(Stamp(n.frame, at, index), seq(|n.calls|, c requires 0 <= c < |n.calls| =>
      Numbered(n.calls[c], ChildAt(n, at, c), index)))
  }

  function Stamps(frames: seq<Frame>, at: nat, index: map<LogId, nat>): (r: seq<Frame>)
    ensures |r| == |frames|
  {
    seq(|frames|, i requires 0 <= i < |frames| => Stamp(frames[i], at + i, index))
  }

  lemma StampsAppend(a: seq<Frame>, b: seq<Frame>, at: nat, index: map<LogId, nat>)
    ensures Stamps(a + b, at, index) == Stamps(a, at, index) + Stamps(b, at + |a|, index)
  {
    hide Stamp;
  }

  lemma {:induction false} NumberedKids(n: Node, at: nat, index: map<LogId, nat>, c: nat)
    requires c <= |n.calls|
    ensures Kids(Numbered(n, at, index), c) == Stamps(Kids(n, c), at + 1, index)
    decreases n, c
  {
    hide Pre, Stamp, Stamps, ChildAt, Kids;
    var m := Numbered(n, at, index);
    KidsStart(n);
    KidsStart(m);
    if c == 0 {
      assert |Stamps([], at + 1, index)| == 0;
    } else {
      KidsStep(n, c - 1);
      KidsStep(m, c - 1);
      ChildPlace(n, at, c - 1);
      NumberedKids(n, at, index, c - 1);
      NumberedPre(n.calls[c - 1], ChildAt(n, at, c - 1), index);
      StampsAppend(Kids(n, c - 1), Pre(n.calls[c - 1]), at + 1, index);
    }
  }

  lemma ChildPlace(n: Node, at: nat, c: nat)
    requires c < |n.calls|
    ensures ChildAt(n, at, c) == at + 1 + |Kids(n, c)|
  {
  }

  /** Numbering changes no frame of the tree but the numbers of its logs. */
  lemma {:induction false} NumberedPre(n: Node, at: nat, index: map<LogId, nat>)
    ensures Pre(Numbered(n, at, index)) == Stamps(Pre(n), at, index)
    decreases n, |n.calls| + 1
  {
    hide Kids, Stamp, Stamps, Pre;
    var m := Numbered(n, at, index);
    NumberedKids(n, at, index, |n.calls|);
    PreUnfold(n);
    PreUnfold(m);
    StampsAppend([n.frame], Kids(n, |n.calls|), at, index);
    assert Stamps([n.frame], at, index) == [Stamp(n.frame, at, index)] by { OneStamp(n.frame, at, index); }
  }

  lemma OneStamp(f: Frame, at: nat, index: map<LogId, nat>)
    ensures Stamps([f], at, index) == [Stamp(f, at, index)]
  {
  }

  lemma {:induction false} NumberedKidParents(n: Node, at: nat, index: map<LogId, nat>, pos: nat, c: nat)
    requires c <= |n.calls|
    ensures KidParents(Numbered(n, at, index), pos, c) == KidParents(n, pos, c)
    decreases n, c
  {
    hide Kids, Stamps, Stamp;
    if c > 0 {
      NumberedKidParents(n, at, index, pos, c - 1);
      NumberedKids(n, at, index, c - 1);
      NumberedParents(n.calls[c - 1], ChildAt(n, at, c - 1), index, ChildAt(n, pos, c - 1), pos);
    }
  }

  /** Numbering moves no frame to another parent. */
  lemma {:induction false} NumberedParents(n: Node, at: nat, index: map<LogId, nat>, pos: nat, up: nat)
    ensures Parents(Numbered(n, at, index), pos, up) == Parents(n, pos, up)
    decreases n, |n.calls| + 1
  {
    hide KidParents;
    NumberedKidParents(n, at, index, pos, |n.calls|);
  }

  /** Every log of every frame has a number, and that number is what the stamped frame carries. */
  ghost predicate Carries(frames: seq<Frame>, stamped: seq<Frame>, index: map<LogId, nat>) {
    && |stamped| == |frames|
    && forall i :: 0 <= i < |frames| ==> FrameCarries(frames[i], stamped[i], i, index)
  }

  ghost predicate FrameCarries(f: Frame, stamped: Frame, i: nat, index: map<LogId, nat>) {
    && stamped.depth == f.depth && stamped.data == f.data && |stamped.logs| == |f.logs|
    && forall k :: 0 <= k < |f.logs| ==>
      LogId(i, k) in index && stamped.logs[k] == f.logs[k].(index := index[LogId(i, k)])
  }

  lemma StampCarries(frames: seq<Frame>, index: map<LogId, nat>, i: nat)
    requires i < |frames| && forall x :: x in index <==> Owns(frames, 0, x)
    ensures FrameCarries(frames[i], Stamp(frames[i], i, index), i, index)
  {
    forall k | 0 <= k < |frames[i].logs| ensures LogId(i, k) in index { assert Owns(frames, 0, LogId(i, k)); }
  }

  lemma StampsCarry(frames: seq<Frame>, index: map<LogId, nat>)
    requires frames != [] && Numbers(Emit(Build(frames, |frames|), 0), index)
    ensures Carries(frames, Stamps(frames, 0, index), index)
  {
    hide Emit, Build, Numbers, Stamp, FrameCarries, Owns;
    NumbersBijective(Build(frames, |frames|), index);
    PreorderOfBuild(frames, |frames|);
    assert frames[..|frames|] == frames;
    forall i | 0 <= i < |frames| ensures FrameCarries(frames[i], Stamps(frames, 0, index)[i], i, index) {
      StampCarries(frames, index, i);
    }
  }

  /** build_call_tree: the frames of the list in pre-order, each log carrying its emission number. */
  method BuildCallTree(frames: seq<Frame>) returns (r: Option<Node>, ghost index: map<LogId, nat>)
    ensures r.None? <==> frames == []
    ensures r.Some? ==> Numbers(Emit(Build(frames, |frames|), 0), index)
    ensures r.Some? ==> r.value == Numbered(Build(frames, |frames|), 0, index)
    ensures r.Some? ==> Carries(frames, Pre(r.value), index)
    ensures r.Some? ==> |Parents(r.value, 0, 0)| == |frames|
    ensures r.Some? ==> forall i :: 0 < i < |frames| ==> IsParent(frames, i, Parents(r.value, 0, 0)[i])
  {
    hide Emit, Numbered, Pre, Numbers, Build, Carries, Parents, IsParent;
    var tree := BuildTree(frames);
    index := map[];
    if tree.None? {
      return None, index;
    }
    var numbers := NumberLogs(tree.value);
    index := numbers;
    r := Some(Numbered(tree.value, 0, numbers));
    NumberedPre(tree.value, 0, index);
    PreorderOfBuild(frames, |frames|);
    assert frames[..|frames|] == frames;
    StampsCarry(frames, index);
    NumberedParents(tree.value, 0, index, 0, 0);
    ParentsOfBuild(frames, |frames|);
  }

  /** The only-top-call path: the root alone, its logs numbered as in the full trace. */
  method TopCall(frames: seq<Frame>) returns (r: Option<Node>, ghost index: map<LogId, nat>)
    ensures r.None? <==> frames == []
    ensures r.Some? ==> Numbers(Emit(Build(frames, |frames|), 0), index)
    ensures r.Some? ==> r.value.calls == [] && FrameCarries(frames[0], r.value.frame, 0, index)
  {
    hide Emit, Numbered, Pre, Numbers, Build, FrameCarries;
    r, index := BuildCallTree(frames);
    if r.Some? {
      PreUnfold(r.value);
      assert r.value.frame == Pre(r.value)[0];
      r := Some(Node(r.value.frame, []));
    }
  }
}
