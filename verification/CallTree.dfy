/** Call frames: the flat pre-order list and the tree rebuilt from it (handlers/debug.rs). */
module CallTree {
  import opened Seqs

  datatype CallLog = CallLog(position: nat, index: nat, data: nat)

  /** Everything but the depth and the logs is carried by `data`. */
  datatype Frame = Frame(depth: nat, logs: seq<CallLog>, data: nat)

  datatype Node = Node(frame: Frame, calls: seq<Node>)

  function Leaf(f: Frame): Node { Node(f, []) }

  // ---- pre-order ----

  function Pre(n: Node): (frames: seq<Frame>)
    ensures |frames| > 0
    decreases n, |n.calls| + 1
  {
    [n.frame] + Kids(n, |n.calls|)
  }

  /** The frames below the first c children. */
  function Kids(n: Node, c: nat): seq<Frame>
    requires c <= |n.calls|
    decreases n, c
  {
    if c == 0 then [] else Kids(n, c - 1) + Pre(n.calls[c - 1])
  }

  /** The pre-order index of child c, when n itself has index `at`. */
  function ChildAt(n: Node, at: nat, c: nat): nat
    requires c <= |n.calls|
  {
    at + 1 + |Kids(n, c)|
  }

  /** The parent of every frame of the tree, by pre-order index; `up` is the parent of n. */
  function Parents(n: Node, at: nat, up: nat): seq<nat>
    decreases n, |n.calls| + 1
  {
    [up] + KidParents(n, at, |n.calls|)
  }

  function KidParents(n: Node, at: nat, c: nat): seq<nat>
    requires c <= |n.calls|
    decreases n, c
  {
    if c == 0 then [] else KidParents(n, at, c - 1) + Parents(n.calls[c - 1], ChildAt(n, at, c - 1), at)
  }

  lemma {:induction false} SameKids(n: Node, m: Node, c: nat)
    requires c <= |n.calls| && c <= |m.calls| && n.calls[..c] == m.calls[..c]
    ensures Kids(n, c) == Kids(m, c)
  {
    if c > 0 {
      assert n.calls[..c - 1] == n.calls[..c][..c - 1] && m.calls[..c - 1] == m.calls[..c][..c - 1];
      assert n.calls[c - 1] == n.calls[..c][c - 1] == m.calls[c - 1];
      SameKids(n, m, c - 1);
    }
  }

  lemma {:induction false} SameParents(n: Node, m: Node, at: nat, c: nat)
    requires c <= |n.calls| && c <= |m.calls| && n.calls[..c] == m.calls[..c]
    ensures KidParents(n, at, c) == KidParents(m, at, c) && ChildAt(n, at, c) == ChildAt(m, at, c)
  {
    SameKids(n, m, c);
    if c > 0 {
      assert n.calls[..c - 1] == n.calls[..c][..c - 1] && m.calls[..c - 1] == m.calls[..c][..c - 1];
      assert n.calls[c - 1] == n.calls[..c][c - 1] == m.calls[c - 1];
      SameParents(n, m, at, c - 1);
    }
  }

  // ---- the tree, one frame at a time ----

  function Last(n: Node): Node
    requires n.calls != []
  {
    n.calls[|n.calls| - 1]
  }

  predicate Descends(n: Node, depth: nat) {
    n.calls != [] && Last(n).frame.depth < depth
  }

  /** Frame f goes below the deepest frame of the rightmost branch that is shallower than f. */
  function Insert(n: Node, f: Frame): Node {
    if Descends(n, f.depth)
    then Node(n.frame, n.calls[..|n.calls| - 1] + [Insert(Last(n), f)])
    else Node(n.frame, n.calls + [Leaf(f)])
  }

  function Build(frames: seq<Frame>, k: nat): Node
    requires 0 < k <= |frames|
  {
    if k == 1 then Leaf(frames[0]) else Insert(Build(frames, k - 1), frames[k - 1])
  }

  /** The index of the frame that f is inserted below. */
  function Attach(n: Node, at: nat, depth: nat): nat {
    if Descends(n, depth) then Attach(Last(n), ChildAt(n, at, |n.calls| - 1), depth) else at
  }

  /** Inserting a frame puts it last in pre-order, with its parent, and moves nothing else. */
  lemma {:induction false} InsertAppends(n: Node, f: Frame, at: nat, up: nat)
    ensures Pre(Insert(n, f)) == Pre(n) + [f]
    ensures Parents(Insert(n, f), at, up) == Parents(n, at, up) + [Attach(n, at, f.depth)]
    decreases n
  {
    var m, k := Insert(n, f), |n.calls|;
    if Descends(n, f.depth) {
      assert n.calls[..k - 1] == m.calls[..k - 1];
      SameKids(n, m, k - 1);
      SameParents(n, m, at, k - 1);
      InsertAppends(Last(n), f, ChildAt(n, at, k - 1), at);
    } else {
      assert n.calls[..k] == m.calls[..k];
      SameKids(n, m, k);
      SameParents(n, m, at, k);
      assert Pre(Leaf(f)) == [f];
      assert Kids(m, k + 1) == Kids(m, k) + Pre(m.calls[k]);
      assert KidParents(m, at, k + 1) == KidParents(m, at, k) + Parents(m.calls[k], ChildAt(m, at, k), at);
      assert Parents(Leaf(f), ChildAt(m, at, k), at) == [at];
    }
  }

  lemma LeafAlone(f: Frame, at: nat, up: nat)
    ensures Pre(Leaf(f)) == [f] && Parents(Leaf(f), at, up) == [up]
  {
  }

  /** For every frame list, whatever its depths, flattening the tree gives the list back. */
  lemma {:induction false} PreorderOfBuild(frames: seq<Frame>, k: nat)
    requires 0 < k <= |frames|
    ensures Pre(Build(frames, k)) == frames[..k]
  {
    hide Pre, Insert, Parents, Attach, Leaf;
    if k == 1 {
      LeafAlone(frames[0], 0, 0);
    } else {
      PreorderOfBuild(frames, k - 1);
      InsertAppends(Build(frames, k - 1), frames[k - 1], 0, 0);
    }
  }

  // ---- parents ----

  /** No frame below n is shallower than n's last child, and so on down. */
  ghost predicate Heap(n: Node) {
    && (n.calls != [] ==> forall i :: 0 <= i < |Kids(n, |n.calls|)| ==>
      Last(n).frame.depth <= Kids(n, |n.calls|)[i].depth)
    && forall c :: 0 <= c < |n.calls| ==> Heap(n.calls[c])
  }

  lemma InsertedKids(n: Node, f: Frame)
    ensures var m := Insert(n, f); Kids(m, |m.calls|) == Kids(n, |n.calls|) + [f]
    ensures n.calls == [] ==> Kids(n, |n.calls|) == []
  {
    hide Kids, Pre, Insert, Parents, Attach;
    var m := Insert(n, f);
    InsertAppends(n, f, 0, 0);
    PreUnfold(n);
    PreUnfold(m);
    assert Kids(m, |m.calls|) == Pre(m)[1..] && Kids(n, |n.calls|) == Pre(n)[1..];
  }

  lemma {:induction false} InsertHeap(n: Node, f: Frame)
    requires Heap(n)
    ensures Heap(Insert(n, f))
    decreases n
  {
    hide Kids, Pre;
    InsertedKids(n, f);
    if Descends(n, f.depth) {
      InsertHeap(Last(n), f);
    }
  }

  /** p is the nearest earlier frame, other than the root, of strictly smaller depth than i; 0 if there is none. */
  ghost predicate IsParent(frames: seq<Frame>, i: nat, p: nat)
    requires i < |frames|
  {
    && p < i
    && (p > 0 ==> frames[p].depth < frames[i].depth)
    && forall j :: p < j < i ==> frames[j].depth >= frames[i].depth
  }

  /** The insertion point: shallower than f unless it is n itself, and nothing after it is. */
  lemma {:induction false} AttachNearest(n: Node, at: nat, depth: nat)
    requires Heap(n)
    ensures at <= Attach(n, at, depth) < at + |Pre(n)|
    ensures Nearest(Pre(n), Attach(n, at, depth) - at, depth)
    decreases n
  {
    hide Pre, Kids;
    var k, p, pre := |n.calls|, Attach(n, at, depth), Pre(n);
    PreUnfold(n);
    if Descends(n, depth) {
      var from, last := ChildAt(n, at, k - 1), Pre(Last(n));
      AttachNearest(Last(n), from, depth);
      PreUnfold(Last(n));
      NearestLater([n.frame] + Kids(n, k - 1), last, p - from, depth);
    } else {
      forall j | 0 < j < |pre| ensures pre[j].depth >= depth { assert pre[j] == Kids(n, k)[j - 1]; }
    }
  }

  lemma {:induction false} PreUnfold(n: Node)
    ensures Pre(n) == [n.frame] + Kids(n, |n.calls|)
    ensures n.calls == [] ==> Pre(n) == [n.frame]
    ensures n.calls != [] ==> Pre(n) == [n.frame] + Kids(n, |n.calls| - 1) + Pre(Last(n))
  {
  }

  ghost predicate Nearest(pre: seq<Frame>, p: nat, depth: nat) {
    && p < |pre|
    && (p > 0 ==> pre[p].depth < depth)
    && forall j :: p < j < |pre| ==> pre[j].depth >= depth
  }

  lemma NearestLater(before: seq<Frame>, pre: seq<Frame>, p: nat, depth: nat)
    requires Nearest(pre, p, depth) && pre[0].depth < depth
    ensures Nearest(before + pre, |before| + p, depth)
  {
  }

  lemma {:induction false} BuildHeap(frames: seq<Frame>, k: nat)
    requires 0 < k <= |frames|
    ensures Heap(Build(frames, k))
  {
    if k > 1 {
      BuildHeap(frames, k - 1);
      InsertHeap(Build(frames, k - 1), frames[k - 1]);
    }
  }

  /** Every frame but the root hangs below the nearest earlier shallower one, or the root. */
  lemma {:induction false} ParentsOfBuild(frames: seq<Frame>, k: nat)
    requires 0 < k <= |frames|
    ensures |Parents(Build(frames, k), 0, 0)| == k
    ensures forall i :: 0 < i < k ==> IsParent(frames, i, Parents(Build(frames, k), 0, 0)[i])
  {
    hide Pre, Insert, Parents, Attach, Leaf, Heap, IsParent, Nearest;
    if k == 1 {
      LeafAlone(frames[0], 0, 0);
    } else {
      var n, f := Build(frames, k - 1), frames[k - 1];
      ParentsOfBuild(frames, k - 1);
      InsertAppends(n, f, 0, 0);
      BuildHeap(frames, k - 1);
      PreorderOfBuild(frames, k - 1);
      AttachNearest(n, 0, f.depth);
      NearestIsParent(frames, k - 1, Attach(n, 0, f.depth));
    }
  }

  lemma NearestIsParent(frames: seq<Frame>, i: nat, p: nat)
    requires i < |frames| && Nearest(frames[..i], p, frames[i].depth)
    ensures IsParent(frames, i, p)
  {
    assert forall j :: 0 <= j < i ==> frames[..i][j] == frames[j];
  }

  // ---- the stack that builds it ----

  /** The tree once every frame still open is put below the one before it. */
  function Fold(n: Node, open: seq<Node>, lo: nat): Node
    requires lo <= |open|
    decreases |open| - lo
  {
    if lo == |open| then n else Node(n.frame, n.calls + [Fold(open[lo], open, lo + 1)])
  }

  function Top(root: Node, open: seq<Node>): Node {
    if open == [] then root else open[|open| - 1]
  }

  /** The open frames after the last one is completed. */
  function Shut(open: seq<Node>): seq<Node>
    requires |open| > 1
  {
    var k := |open|;
    open[..k - 2] + [Node(open[k - 2].frame, open[k - 2].calls + [open[k - 1]])]
  }

  /** Completing the last open frame does not change the tree. */
  lemma {:induction false} FoldShut(n: Node, open: seq<Node>, lo: nat)
    requires |open| > 1 && lo < |open| - 1
    ensures Fold(n, Shut(open), lo) == Fold(n, open, lo)
    decreases |open| - lo
  {
    if lo < |open| - 2 {
      FoldShut(open[lo], open, lo + 1);
    } else {
      assert Fold(open[lo + 1], open, lo + 2) == open[lo + 1];
      assert Fold(open[lo], open, lo + 1) == Node(open[lo].frame, open[lo].calls + [open[lo + 1]]);
    }
  }

  ghost predicate Shallower(open: seq<Node>, depth: nat) {
    forall i :: 0 <= i < |open| ==> open[i].frame.depth < depth
  }

  /** With only shallower frames open, pushing the next frame inserts it. */
  lemma {:induction false} FoldPush(n: Node, open: seq<Node>, f: Frame, lo: nat)
    requires lo <= |open| && Shallower(open, f.depth)
    requires !Descends(if lo == |open| then n else Top(n, open), f.depth)
    ensures Fold(n, open + [Leaf(f)], lo) == Insert(Fold(n, open, lo), f)
    decreases |open| - lo
  {
    var pushed := open + [Leaf(f)];
    if lo < |open| {
      FoldPush(open[lo], open, f, lo + 1);
      assert Fold(n, open, lo).calls[..|n.calls|] == n.calls;
    } else {
      assert Fold(pushed[lo], pushed, lo + 1) == Leaf(f);
    }
  }

  ghost predicate Increasing(open: seq<Node>) {
    forall i, j :: 0 <= i < j < |open| ==> open[i].frame.depth < open[j].frame.depth
  }

  /** The inner loop: complete every open frame that is not shallower than the next one. */
  method Complete(root0: Node, open0: seq<Node>, depth: nat) returns (root: Node, open: seq<Node>)
    requires Increasing(open0) && Top(root0, open0).calls == []
    ensures Fold(root, open, 0) == Fold(root0, open0, 0)
    ensures Increasing(open) && Shallower(open, depth) && !Descends(Top(root, open), depth)
    ensures depth == 0 ==> open == []
  {
    root, open := root0, open0;
    while open != [] && open[|open| - 1].frame.depth >= depth
      invariant Fold(root, open, 0) == Fold(root0, open0, 0)
      invariant Increasing(open) && !Descends(Top(root, open), depth)
      decreases |open|
    {
      var k := |open|;
      if k == 1 {
        assert Fold(open[0], open, 1) == open[0];
        root := Node(root.frame, root.calls + [open[0]]);
        open := [];
      } else {
        FoldShut(root, open, 0);
        open := Shut(open);
      }
    }
  }

  /** build_call_tree, up to the numbering of the logs. */
  method BuildTree(frames: seq<Frame>) returns (r: Option<Node>)
    ensures r == if frames == [] then None else Some(Build(frames, |frames|))
  {
    if frames == [] {
      return None;
    }
    var root, open := Leaf(frames[0]), [];
    for k := 1 to |frames|
      invariant Fold(root, open, 0) == Build(frames, k)
      invariant Increasing(open) && Top(root, open).calls == []
    {
      root, open := Complete(root, open, frames[k].depth);
      FoldPush(root, open, frames[k], 0);
      open := open + [Leaf(frames[k])];
    }
    root, open := Complete(root, open, 0);
    return Some(root);
  }
}
