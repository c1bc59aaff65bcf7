/**
 * Trace addresses (index/mod.rs), the call tree (handlers/debug.rs) and ancestor failure (family/trace.rs) as
 * views of one tree.
 */
module TraceAddresses {
  import opened Seqs
  import opened CallTree
  import Schema
  import AncestorStatus

  /** Child positions from the root down. */
  type Path = seq<nat>

  // ---- addresses from depths ----

  /** The address after `p` of a frame at depth d: a next sibling on the branch of p, or its first child. */
  function Next(p: Path, d: nat): Path
    requires 0 < d <= |p| + 1
  {
    if d <= |p| then p[..d - 1] + [p[d - 1] + 1] else p + [0]
  }

  /** None: the first frame is not at depth 0, or a level was skipped. */
  function Address(depths: seq<nat>, i: nat): (r: Option<Path>)
    requires i < |depths|
    ensures r.Some? ==> |r.value| == depths[i]
  {
    if depths[i] == 0 then Some([])
    else if i == 0 then None
    else
      var p :- Address(depths, i - 1);
      if depths[i] > |p| + 1 then None else Some(Next(p, depths[i]))
  }

  /** compute_trace_addresses: a path and one sibling counter per level of it. */
  method ComputeTraceAddresses(depths: seq<nat>) returns (r: Option<seq<Path>>)
    ensures r.Some? <==> NoSkip(depths)
    ensures r.Some? ==>
      |r.value| == |depths| && forall i :: 0 <= i < |depths| ==> Address(depths, i) == Some(r.value[i])
  {
    var path: Path, counters: seq<nat>, addresses: seq<Path>, seenRoot := [], [], [], false;
    for i := 0 to |depths|
      invariant |addresses| == i && forall k :: 0 <= k < i ==> Address(depths, k) == Some(addresses[k])
      invariant seenRoot <==> i > 0
      invariant i > 0 ==> path == addresses[i - 1]
      invariant |counters| == |path| && forall k :: 0 <= k < |path| ==> counters[k] == path[k] + 1
    {
      var depth := depths[i];
      if depth == 0 {
        path, counters, seenRoot := [], [], true;
      } else {
        if !seenRoot || depth > |path| + 1 {
          SkippedLevel(depths, i);
          return None;
        }
        path, counters := Advance(path, counters, depth);
      }
      addresses := addresses + [path];
    }
    forall i | 0 <= i < |depths| ensures HasAddress(depths, i) { assert Address(depths, i) == Some(addresses[i]); }
    AllAddressed(depths);
    return Some(addresses);
  }

  lemma SkippedLevel(depths: seq<nat>, i: nat)
    requires i < |depths| && depths[i] > 0 && (i > 0 ==> depths[i] > depths[i - 1] + 1)
    ensures !NoSkip(depths)
  {
    if i > 0 {
      assert depths[i] > depths[i - 1] + 1;
    }
  }

  predicate HasAddress(depths: seq<nat>, i: nat)
    requires i < |depths|
  {
    Address(depths, i).Some?
  }

  lemma AllAddressed(depths: seq<nat>)
    requires forall i :: 0 <= i < |depths| ==> HasAddress(depths, i)
    ensures NoSkip(depths)
  {
    assert depths != [] ==> HasAddress(depths, 0);
    forall i, j | 0 <= i < j < |depths| && j == i + 1 ensures depths[j] <= depths[i] + 1 {
      assert HasAddress(depths, j);
    }
  }

  /** Truncate to the level above, then take the next sibling number there. */
  method Advance(path0: Path, counters0: seq<nat>, depth: nat) returns (path: Path, counters: seq<nat>)
    requires 0 < depth <= |path0| + 1 && |counters0| == |path0|
    requires forall k :: 0 <= k < |path0| ==> counters0[k] == path0[k] + 1
    ensures path == Next(path0, depth)
    ensures |counters| == |path| && forall k :: 0 <= k < |path| ==> counters[k] == path[k] + 1
  {
    path, counters := path0[..depth - 1], counters0;
    if depth < |counters| {
      counters := counters[..depth];
    }
    if |counters| < depth {
      counters := counters + seq(depth - |counters|, _ => 0);
    }
    path := path + [counters[depth - 1]];
    counters := counters[depth - 1 := counters[depth - 1] + 1];
  }

  ghost predicate NoSkip(depths: seq<nat>) {
    && (depths != [] ==> depths[0] == 0)
    && forall i, j :: 0 <= i < j < |depths| && j == i + 1 ==> depths[j] <= depths[i] + 1
  }

  lemma {:induction false} AddressExists(depths: seq<nat>, i: nat)
    requires NoSkip(depths) && i < |depths|
    ensures Address(depths, i).Some?
  {
    if i > 0 {
      AddressExists(depths, i - 1);
      assert depths[i] <= depths[i - 1] + 1;
    }
  }

  /** The addresses exist exactly when the list starts at depth 0 and skips no level. */
  lemma AddressesExist(depths: seq<nat>)
    ensures (forall i :: 0 <= i < |depths| ==> HasAddress(depths, i)) <==> NoSkip(depths)
  {
    hide NoSkip, Address;
    if NoSkip(depths) {
      forall i | 0 <= i < |depths| ensures HasAddress(depths, i) { AddressExists(depths, i); }
    }
    if forall i :: 0 <= i < |depths| ==> HasAddress(depths, i) {
      AllAddressed(depths);
    }
  }

  /** The address of frame i. */
  ghost function AddressOf(depths: seq<nat>, i: nat): (p: Path)
    requires NoSkip(depths) && i < |depths|
    ensures Address(depths, i) == Some(p) && |p| == depths[i]
  {
    AddressExists(depths, i);
    Address(depths, i).value
  }

  lemma AddressStep(depths: seq<nat>, i: nat)
    requires NoSkip(depths) && 0 < i < |depths| && depths[i] > 0
    ensures depths[i] <= depths[i - 1] + 1 && AddressOf(depths, i) == Next(AddressOf(depths, i - 1), depths[i])
  {
  }

  // ---- paths in a tree ----

  predicate Leads(n: Node, path: Path)
    decreases |path|
  {
    path == [] || (path[0] < |n.calls| && Leads(n.calls[path[0]], path[1..]))
  }

  function Sub(n: Node, path: Path): Node
    requires Leads(n, path)
    decreases |path|
  {
    if path == [] then n else Sub(n.calls[path[0]], path[1..])
  }

  /** The pre-order index of the node a path leads to. */
  function Pos(n: Node, at: nat, path: Path): nat
    requires Leads(n, path)
    decreases |path|
  {
    if path == [] then at else Pos(n.calls[path[0]], ChildAt(n, at, path[0]), path[1..])
  }

  lemma {:induction false} KidsPrefix(n: Node, c: nat, d: nat)
    requires c <= d <= |n.calls|
    ensures Kids(n, c) <= Kids(n, d)
  {
    if c < d {
      KidsPrefix(n, c, d - 1);
    }
  }

  /** The frame at a path is the frame at its pre-order index. */
  lemma {:induction false} FrameAt(n: Node, at: nat, path: Path)
    requires Leads(n, path)
    ensures at <= Pos(n, at, path) < at + |Pre(n)| && Pre(n)[Pos(n, at, path) - at] == Sub(n, path).frame
    decreases |path|
  {
    hide Pre, Kids;
    PreUnfold(n);
    if path != [] {
      var c := path[0];
      var from := ChildAt(n, at, c);
      FrameAt(n.calls[c], from, path[1..]);
      KidsStep(n, c);
      KidsPrefix(n, c + 1, |n.calls|);
      SliceAt(n, c, Pos(n, at, path) - from);
    }
  }

  lemma KidsStep(n: Node, c: nat)
    requires c < |n.calls|
    ensures Kids(n, c + 1) == Kids(n, c) + Pre(n.calls[c])
  {
  }

  lemma SliceAt(n: Node, c: nat, j: nat)
    requires c < |n.calls| && j < |Pre(n.calls[c])| && Kids(n, c + 1) <= Kids(n, |n.calls|)
    requires Kids(n, c + 1) == Kids(n, c) + Pre(n.calls[c])
    ensures 1 + |Kids(n, c)| + j < |Pre(n)| && Pre(n)[1 + |Kids(n, c)| + j] == Pre(n.calls[c])[j]
  {
    hide Kids, Pre;
    PreUnfold(n);
    assert Kids(n, |n.calls|)[|Kids(n, c)| + j] == Kids(n, c + 1)[|Kids(n, c)| + j];
  }

  /** Inserting a frame leaves every path where it was. */
  lemma {:induction false} InsertKeepsPaths(n: Node, f: Frame, at: nat, path: Path)
    requires Leads(n, path)
    ensures Leads(Insert(n, f), path) && Pos(Insert(n, f), at, path) == Pos(n, at, path)
    decreases |path|
  {
    hide Kids;
    if path != [] {
      var c, m := path[0], Insert(n, f);
      assert n.calls[..c] == m.calls[..c];
      SameKids(n, m, c);
      if Descends(n, f.depth) && c == |n.calls| - 1 {
        InsertKeepsPaths(Last(n), f, ChildAt(n, at, c), path[1..]);
      } else {
        assert m.calls[c] == n.calls[c];
      }
    }
  }

  /** The path to the last frame. */
  function Right(n: Node): Path {
    if n.calls == [] then [] else [|n.calls| - 1] + Right(Last(n))
  }

  /** The inserted frame is at the end of the rightmost path. */
  lemma {:induction false} InsertedAt(n: Node, f: Frame, at: nat)
    ensures var m := Insert(n, f); Leads(m, Right(m)) && Pos(m, at, Right(m)) == at + |Pre(n)|
    decreases n
  {
    hide Kids, Pre;
    var m := Insert(n, f);
    var c := |m.calls| - 1;
    PreUnfold(n);
    assert n.calls[..c] == m.calls[..c];
    SameKids(n, m, c);
    assert Right(m) == [c] + Right(Last(m));
    assert Right(m)[1..] == Right(Last(m));
    if Descends(n, f.depth) {
      InsertedAt(Last(n), f, ChildAt(n, at, c));
    } else {
      assert Right(Last(m)) == [];
    }
  }

  /** On the rightmost branch every frame is one deeper than the frame above it. */
  ghost predicate Spine(n: Node, level: nat) {
    n.frame.depth == level && (n.calls != [] ==> Spine(Last(n), level + 1))
  }

  /** One level up, the next address is the same step with the child position in front. */
  lemma NextBelow(c: nat, r: Path, d: nat)
    requires 1 < d <= |r| + 2
    ensures Next([c] + r, d) == [c] + Next(r, d - 1)
  {
    var p := [c] + r;
    if d <= |p| {
      assert p[..d - 1] == [c] + r[..d - 2];
    }
  }

  lemma InsertDeeper(n: Node, f: Frame)
    requires Descends(n, f.depth)
    ensures var m := Insert(n, f);
      |m.calls| == |n.calls| && m.frame == n.frame && Last(m) == Insert(Last(n), f)
        && Right(m) == [|n.calls| - 1] + Right(Last(m))
  {
  }

  lemma InsertHere(n: Node, f: Frame)
    requires !Descends(n, f.depth)
    ensures var m := Insert(n, f);
      |m.calls| == |n.calls| + 1 && m.frame == n.frame && Last(m) == Leaf(f) && Right(m) == [|n.calls|]
  {
    assert Right(Leaf(f)) == [];
  }

  lemma {:induction false} RightOfInsert(n: Node, f: Frame, level: nat)
    requires Spine(n, level) && level < f.depth <= level + |Right(n)| + 1
    ensures Spine(Insert(n, f), level) && Right(Insert(n, f)) == Next(Right(n), f.depth - level)
    decreases n
  {
    hide Insert;
    if Descends(n, f.depth) {
      InsertDeeper(n, f);
      RightOfInsert(Last(n), f, level + 1);
      NextBelow(|n.calls| - 1, Right(Last(n)), f.depth - level);
    } else {
      InsertHere(n, f);
      assert n.calls != [] ==> Last(n).frame.depth == level + 1;
      assert Spine(Leaf(f), level + 1);
    }
  }

  // ---- the two views agree ----

  function Depths(frames: seq<Frame>): (depths: seq<nat>)
    ensures |depths| == |frames|
  {
    seq(|frames|, i requires 0 <= i < |frames| => frames[i].depth)
  }

  /** One root, and no level skipped. */
  ghost predicate Regular(depths: seq<nat>) {
    NoSkip(depths) && depths != [] && forall i :: 0 < i < |depths| ==> depths[i] > 0
  }

  lemma {:induction false} RightIsAddress(frames: seq<Frame>, k: nat)
    requires 0 < k <= |frames| && Regular(Depths(frames))
    ensures Spine(Build(frames, k), 0) && Right(Build(frames, k)) == AddressOf(Depths(frames), k - 1)
  {
    hide Address, Insert, Next, Right, Spine, NoSkip;
    var depths := Depths(frames);
    if k == 1 {
      RootOnly(frames);
    } else {
      RightIsAddress(frames, k - 1);
      AddressStep(depths, k - 1);
      RightOfInsert(Build(frames, k - 1), frames[k - 1], 0);
    }
  }

  /** In the tree of the first k frames, the address of frame i leads to frame i. */
  ghost predicate Reaches(frames: seq<Frame>, k: nat, i: nat)
    requires i < k <= |frames| && Regular(Depths(frames))
  {
    var address := AddressOf(Depths(frames), i);
    && Leads(Build(frames, k), address)
    && Pos(Build(frames, k), 0, address) == i
    && Sub(Build(frames, k), address).frame == frames[i]
  }

  lemma {:induction false} AddressLeads(frames: seq<Frame>, k: nat, i: nat)
    requires i < k <= |frames| && Regular(Depths(frames))
    ensures var address := AddressOf(Depths(frames), i);
      Leads(Build(frames, k), address) && Pos(Build(frames, k), 0, address) == i
    decreases k
  {
    hide Insert, NoSkip, Depths, Address;
    if i == k - 1 {
      RightIsAddress(frames, k);
      if k > 1 {
        InsertedAt(Build(frames, k - 1), frames[k - 1], 0);
        PreorderOfBuild(frames, k - 1);
      } else {
        RootOnly(frames);
      }
    } else {
      AddressLeads(frames, k - 1, i);
      InsertKeepsPaths(Build(frames, k - 1), frames[k - 1], 0, AddressOf(Depths(frames), i));
    }
  }

  lemma RootOnly(frames: seq<Frame>)
    requires frames != [] && Regular(Depths(frames))
    ensures AddressOf(Depths(frames), 0) == [] && Right(Build(frames, 1)) == [] && Spine(Build(frames, 1), 0)
  {
  }

  /** Following a frame's trace address through the children of the built tree reaches that frame. */
  lemma TwoViewsAgree(frames: seq<Frame>, i: nat)
    requires i < |frames| && Regular(Depths(frames))
    ensures Reaches(frames, |frames|, i)
  {
    hide Build, NoSkip, Depths, Pos, Sub, Leads, Address;
    var k := |frames|;
    AddressLeads(frames, k, i);
    var address := AddressOf(Depths(frames), i);
    FrameAt(Build(frames, k), 0, address);
    PreorderOfBuild(frames, k);
  }

  /** Addresses are distinct ... */
  lemma AddressesDistinct(frames: seq<Frame>, i: nat, j: nat)
    requires i < |frames| && j < |frames| && Regular(Depths(frames))
    requires AddressOf(Depths(frames), i) == AddressOf(Depths(frames), j)
    ensures i == j
  {
    hide Build, NoSkip, Depths, Pos, Sub, Leads, Address;
    TwoViewsAgree(frames, i);
    TwoViewsAgree(frames, j);
  }

  /** ... and every prefix of an address is the address of an earlier frame, or of the frame itself. */
  lemma {:induction false} PrefixClosed(depths: seq<nat>, i: nat, n: nat) returns (j: nat)
    requires NoSkip(depths) && i < |depths| && n <= depths[i]
    ensures j <= i && AddressOf(depths, j) == AddressOf(depths, i)[..n]
  {
    hide Address;
    var a := AddressOf(depths, i);
    if n == |a| {
      assert a[..n] == a;
      return i;
    }
    assert i > 0;
    AddressStep(depths, i);
    assert a[..n] == AddressOf(depths, i - 1)[..n];
    j := PrefixClosed(depths, i - 1, n);
  }

  // ---- ancestors ----

  /** Every frame after j up to i is deeper than j. */
  predicate Ancestor(depths: seq<nat>, j: nat, i: nat)
    requires i < |depths|
  {
    j < i && forall k :: j < k <= i ==> depths[k] > depths[j]
  }

  predicate ProperPrefix(p: Path, q: Path) { |p| < |q| && p == q[..|p|] }

  lemma {:induction false} AncestorIsPrefix(depths: seq<nat>, j: nat, i: nat)
    requires NoSkip(depths) && i < |depths| && Ancestor(depths, j, i)
    ensures ProperPrefix(AddressOf(depths, j), AddressOf(depths, i))
  {
    hide Address, NoSkip;
    assert depths[i] > depths[j];
    AddressStep(depths, i);
    if j < i - 1 {
      AncestorIsPrefix(depths, j, i - 1);
    }
  }

  /** q branched off after p: they agree up to some level, where q is further right. */
  predicate Past(p: Path, q: Path, e: nat) { e < |p| && e < |q| && p[..e] == q[..e] && p[e] < q[e] }

  lemma PastNotPrefix(p: Path, q: Path, e: nat)
    requires Past(p, q, e)
    ensures !ProperPrefix(p, q) && !ProperPrefix(q, p)
  {
  }

  lemma NextPast(p: Path, q: Path, d: nat, e: nat)
    requires 0 < d <= |q| + 1 && Past(p, q, e)
    ensures Past(p, Next(q, d), if d - 1 < e then d - 1 else e)
  {
    if d - 1 < e {
      assert p[..e][..d - 1] == q[..e][..d - 1];
      assert p[..d - 1] == p[..e][..d - 1] && q[..d - 1] == q[..e][..d - 1];
      assert p[d - 1] == p[..e][d - 1] == q[..e][d - 1] == q[d - 1];
    } else if d <= |q| {
      assert q[..d - 1][..e] == q[..e];
    }
  }

  /** The first frame not below p's frame branches off from p. */
  lemma FirstPast(p: Path, q: Path, d: nat)
    requires 0 < d <= |p| <= |q| && p == q[..|p|]
    ensures Past(p, Next(q, d), d - 1)
  {
    assert p[..d - 1] == q[..|p|][..d - 1] == q[..d - 1];
    assert q[d - 1] == q[..|p|][d - 1] == p[d - 1];
  }

  /** A later frame is below j, or has branched off to its right. */
  lemma {:induction false} BelowOrPast(depths: seq<nat>, j: nat, i: nat) returns (e: nat)
    requires Regular(depths) && j < i < |depths|
    ensures Ancestor(depths, j, i) || Past(AddressOf(depths, j), AddressOf(depths, i), e)
  {
    hide Address, NoSkip, Past, Next;
    e := 0;
    if !Ancestor(depths, j, i) {
      var p, q := AddressOf(depths, j), AddressOf(depths, i - 1);
      AddressStep(depths, i);
      if j == i - 1 || Ancestor(depths, j, i - 1) {
        if j < i - 1 {
          AncestorIsPrefix(depths, j, i - 1);
        } else {
          assert p == q[..|p|];
        }
        FirstPast(p, q, depths[i]);
        e := depths[i] - 1;
      } else {
        var before := BelowOrPast(depths, j, i - 1);
        NextPast(p, q, depths[i], before);
        e := if depths[i] - 1 < before then depths[i] - 1 else before;
      }
    }
  }

  /** Under one root, the ancestors of a frame are the frames whose addresses are proper prefixes of its own. */
  lemma AncestorsByAddress(depths: seq<nat>, j: nat, i: nat)
    requires Regular(depths) && i < |depths| && j < |depths|
    ensures Ancestor(depths, j, i) <==> ProperPrefix(AddressOf(depths, j), AddressOf(depths, i))
  {
    hide NoSkip, Address, Past;
    if Ancestor(depths, j, i) {
      AncestorIsPrefix(depths, j, i);
    } else if j < i {
      var e := BelowOrPast(depths, j, i);
      PastNotPrefix(AddressOf(depths, j), AddressOf(depths, i), e);
    } else if i < j {
      var e := BelowOrPast(depths, i, j);
      if Ancestor(depths, i, j) {
        AncestorIsPrefix(depths, i, j);
      } else {
        PastNotPrefix(AddressOf(depths, i), AddressOf(depths, j), e);
      }
    }
  }

  // ---- ancestor failure ----

  /** The traces of one transaction, with the addresses computed for their depths. */
  ghost predicate Addressed(traces: seq<Schema.StoredTrace>, depths: seq<nat>) {
    && |traces| == |depths| && NoSkip(depths)
    && forall i :: 0 <= i < |traces| ==> AddressOf(depths, i) == traces[i].traceAddress
  }

  /** Frame j failed and is still open at depth d when n frames have been seen. */
  predicate OpenFailure(traces: seq<Schema.StoredTrace>, depths: seq<nat>, n: nat, d: nat, j: nat)
    requires n <= |traces| == |depths|
  {
    j < n && depths[j] <= d && traces[j].status != 0 && forall k :: j < k < n ==> depths[k] > depths[j]
  }

  ghost predicate AnyOpen(traces: seq<Schema.StoredTrace>, depths: seq<nat>, n: nat, d: nat)
    requires n <= |traces| == |depths|
  {
    exists j: nat :: OpenFailure(traces, depths, n, d, j)
  }

  lemma {:induction false} StackHolds(traces: seq<Schema.StoredTrace>, depths: seq<nat>, n: nat, tx: nat)
    requires Addressed(traces, depths) && AncestorStatus.AllOf(traces, tx) && 0 < n <= |traces|
    ensures var stack := AncestorStatus.StackAt(traces, n, tx);
      && |stack| == depths[n - 1] + 1
      && forall d :: 0 <= d < |stack| ==> (stack[d] <==> AnyOpen(traces, depths, n, d))
  {
    hide OpenFailure, AnyOpen;
    var stack, depth := AncestorStatus.StackAt(traces, n, tx), depths[n - 1];
    var before := AncestorStatus.StackAt(traces, n - 1, tx);
    assert |traces[n - 1].traceAddress| == depth;
    if n > 1 {
      StackHolds(traces, depths, n - 1, tx);
      assert depths[n - 1] <= depths[n - 2] + 1;
    }
    forall d | 0 <= d < |stack| ensures stack[d] <==> AnyOpen(traces, depths, n, d) {
      OpenStep(traces, depths, n, d);
      if d < depth {
        assert stack[d] == before[d];
      } else {
        assert stack[d] == (AncestorStatus.ParentFailed(before, depth) || traces[n - 1].status != 0);
      }
    }
  }

  /** Failures open after n frames: the last one's own, and those open before it at shallower depths. */
  lemma OpenStep(traces: seq<Schema.StoredTrace>, depths: seq<nat>, n: nat, d: nat)
    requires 0 < n <= |traces| == |depths|
    ensures AnyOpen(traces, depths, n, d) <==>
      || (traces[n - 1].status != 0 && depths[n - 1] <= d)
      || (depths[n - 1] > 0 && AnyOpen(traces, depths, n - 1, Min(d, depths[n - 1] - 1)))
  {
    var last, n' := depths[n - 1], n - 1;
    if AnyOpen(traces, depths, n, d) {
      var j: nat :| OpenFailure(traces, depths, n, d, j);
      if j < n' {
        assert last > depths[j];
        assert OpenFailure(traces, depths, n', Min(d, last - 1), j);
      }
    }
    if traces[n'].status != 0 && last <= d {
      assert OpenFailure(traces, depths, n, d, n');
    }
    if last > 0 && AnyOpen(traces, depths, n', Min(d, last - 1)) {
      var j: nat :| OpenFailure(traces, depths, n', Min(d, last - 1), j);
      assert OpenFailure(traces, depths, n, d, j);
    }
  }

  /** A trace is marked as having a reverted ancestor exactly when some proper ancestor failed. */
  lemma AncestorReverted(traces: seq<Schema.StoredTrace>, depths: seq<nat>, tx: nat, i: nat)
    requires Addressed(traces, depths) && AncestorStatus.AllOf(traces, tx) && i < |traces|
    ensures AncestorStatus.FlagAt(traces, i) <==> exists j: nat :: Ancestor(depths, j, i) && traces[j].status != 0
  {
    var depth := depths[i];
    assert |traces[i].traceAddress| == depth;
    if i > 0 {
      StackHolds(traces, depths, i, tx);
      assert depths[i] <= depths[i - 1] + 1;
    }
    forall j: nat ensures (Ancestor(depths, j, i) && traces[j].status != 0) <==>
      (depth > 0 && OpenFailure(traces, depths, i, depth - 1, j)) {
      assert Ancestor(depths, j, i) ==> depths[i] > depths[j];
    }
  }

  /** Under one root: exactly when a trace at a proper prefix of its address failed. */
  lemma AncestorRevertedByAddress(traces: seq<Schema.StoredTrace>, depths: seq<nat>, tx: nat, i: nat)
    requires Addressed(traces, depths) && AncestorStatus.AllOf(traces, tx) && i < |traces| && Regular(depths)
    ensures AncestorStatus.FlagAt(traces, i) <==>
      exists j :: 0 <= j < |traces| && ProperPrefix(traces[j].traceAddress, traces[i].traceAddress)
        && traces[j].status != 0
  {
    hide NoSkip, AncestorStatus.FlagAt, Ancestor, Address;
    AncestorReverted(traces, depths, tx, i);
    forall j: nat | j < |traces| ensures Ancestor(depths, j, i) <==>
      ProperPrefix(traces[j].traceAddress, traces[i].traceAddress) {
      AncestorsByAddress(depths, j, i);
    }
    AncestorInRange(depths, i);
  }

  lemma AncestorInRange(depths: seq<nat>, i: nat)
    requires i < |depths|
    ensures forall j: nat :: Ancestor(depths, j, i) ==> j < |depths|
  {
  }
}
