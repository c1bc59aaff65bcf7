/** Sequence facts shared by the rest of the project. */
module Seqs {
  datatype Option<+T> = None | Some(value: T) {
    predicate IsFailure() { None? }
    function PropagateFailure<U>(): Option<U> requires None? { None }
    function Extract(): T requires Some? { value }
  }

  function Max(a: nat, b: nat): nat { if a < b then b else a }
  function Min(a: nat, b: nat): nat { if a < b then a else b }

  /** Concatenation of the sequences lo..hi. */
  function Flat<T>(xss: seq<seq<T>>, lo: nat, hi: nat): seq<T>
    requires hi <= |xss|
  {
    if hi <= lo then [] else Flat(xss, lo, hi - 1) + xss[hi - 1]
  }

  function Flatten<T>(xss: seq<seq<T>>): seq<T> { Flat(xss, 0, |xss|) }

  lemma {:induction false} FlatSplit<T>(xss: seq<seq<T>>, lo: nat, mid: nat, hi: nat)
    requires lo <= mid <= hi <= |xss|
    ensures Flat(xss, lo, hi) == Flat(xss, lo, mid) + Flat(xss, mid, hi)
  {
    if mid < hi {
      FlatSplit(xss, lo, mid, hi - 1);
    }
  }

  lemma SliceInit<T>(xs: seq<T>, lo: nat, n: nat)
    requires 0 < n && lo + n <= |xs|
    ensures xs[lo..lo + n - 1] == xs[lo..lo + n][..n - 1] && xs[lo + n - 1] == xs[lo..lo + n][n - 1]
  {
  }

  /** Concatenation depends only on the sequences concatenated. */
  lemma {:induction false} FlatSame<T>(xss: seq<seq<T>>, lo: nat, yss: seq<seq<T>>, lo': nat, n: nat)
    requires lo + n <= |xss| && lo' + n <= |yss|
    requires xss[lo..lo + n] == yss[lo'..lo' + n]
    ensures Flat(xss, lo, lo + n) == Flat(yss, lo', lo' + n)
  {
    if n > 0 {
      SliceInit(xss, lo, n);
      SliceInit(yss, lo', n);
      FlatSame(xss, lo, yss, lo', n - 1);
    }
  }

  /** How many elements the first n sequences hold. */
  function Offset<T>(xss: seq<seq<T>>, n: nat): nat
    requires n <= |xss|
  {
    |Flat(xss, 0, n)|
  }

  lemma NoOffset<T>(xss: seq<seq<T>>)
    ensures Offset(xss, 0) == 0
  {
  }

  lemma OffsetStep<T>(xss: seq<seq<T>>, n: nat)
    requires n < |xss|
    ensures Offset(xss, n + 1) == Offset(xss, n) + |xss[n]|
  {
  }

  /** Elements Offset(n)..Offset(m) of the flattening are the sequences n..m. */
  lemma FlatSlice<T>(xss: seq<seq<T>>, n: nat, m: nat)
    requires n <= m <= |xss|
    ensures Offset(xss, n) <= Offset(xss, m) <= |Flatten(xss)|
    ensures Flatten(xss)[Offset(xss, n)..Offset(xss, m)] == Flat(xss, n, m)
  {
    FlatSplit(xss, 0, n, m);
    FlatSplit(xss, 0, m, |xss|);
  }

  lemma FlattenSlice<T>(xss: seq<seq<T>>, n: nat, m: nat)
    requires n <= m <= |xss|
    ensures Offset(xss, n) <= Offset(xss, m) <= |Flatten(xss)|
    ensures Flatten(xss[n..m]) == Flatten(xss)[Offset(xss, n)..Offset(xss, m)]
  {
    FlatSlice(xss, n, m);
    FlatSame(xss, n, xss[n..m], 0, m - n);
  }

  lemma FlatAt<T>(xss: seq<seq<T>>, n: nat, j: nat)
    requires n < |xss| && j < |xss[n]|
    ensures Offset(xss, n) + j < Offset(xss, n + 1) <= |Flatten(xss)|
    ensures Flatten(xss)[Offset(xss, n) + j] == xss[n][j]
  {
    FlatSplit(xss, 0, n + 1, |xss|);
  }

  lemma FlattenCons<T>(x: seq<T>, xss: seq<seq<T>>)
    ensures Flatten([x] + xss) == x + Flatten(xss)
  {
    var all := [x] + xss;
    FlatSplit(all, 0, 1, |all|);
    FlatSame(all, 1, xss, 0, |xss|);
    assert Flat(all, 0, 1) == Flat(all, 0, 0) + x;
  }

  /** Every element of the flattening comes from one of the sequences. */
  lemma {:induction false} Locate<T>(xss: seq<seq<T>>, k: nat, hi: nat) returns (n: nat)
    requires hi <= |xss| && k < Offset(xss, hi)
    ensures n < hi && Offset(xss, n) <= k < Offset(xss, n + 1)
  {
    if Offset(xss, hi - 1) <= k {
      n := hi - 1;
    } else {
      n := Locate(xss, k, hi - 1);
    }
  }

  lemma {:induction false} SameShape<A, B>(xss: seq<seq<A>>, yss: seq<seq<B>>, n: nat)
    requires n <= |xss| == |yss|
    requires forall i :: 0 <= i < |xss| ==> |xss[i]| == |yss[i]|
    ensures Offset(xss, n) == Offset(yss, n)
  {
    if n > 0 {
      SameShape(xss, yss, n - 1);
    }
  }

  /** m tabulates f on keys. */
  ghost predicate IsMap<K, V>(m: map<K, V>, keys: set<K>, f: K -> V) {
    m.Keys == keys && forall k :: k in m ==> m[k] == f(k)
  }

  lemma MapAdd<K, V>(m: map<K, V>, keys: set<K>, f: K -> V, k: K)
    requires IsMap(m, keys, f)
    ensures IsMap(m[k := f(k)], keys + {k}, f)
  {
  }

  /** Some of the rows, with their values. */
  ghost predicate SubRows<K, V>(w: map<K, V>, rows: map<K, V>) {
    forall k :: k in w ==> k in rows && w[k] == rows[k]
  }
}
