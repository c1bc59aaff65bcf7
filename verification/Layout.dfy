/** The true content of the index for a finalized chain, as plain values. */
module Layout {
  import opened Seqs
  import opened Schema
  import opened Chain
  import opened Metadata
  import Payload
  import Bitmap

  /**
   * Block start + i has hash hashes[i] and counts.At(f)[i] rows of family f; rows and tags give
   * every row's encoding and filters.
   */
  datatype Layout = Layout(start: nat, hashes: seq<Hash>, counts: PerFamily<seq<nat>>,
                           rows: PerFamily<Payload.Rows>, tags: PerFamily<Bitmap.Tags>) {
    function Size(): nat { |hashes| }

    function Base(f: Family): nat { if f.BlockHeader? then start else 0 }

    ghost predicate Wf() {
      forall f :: WfFamily(f)
    }

    ghost predicate WfFamily(f: Family) {
      && |counts.At(f)| == Size()
      && rows.At(f).base == tags.At(f).base == Base(f)
      && rows.At(f).End() == tags.At(f).End() == Front(f, Size())
      && (f.BlockHeader? ==> forall i :: 0 <= i < Size() ==> counts.At(f)[i] == 1)
    }

    /** The frontier of family f after n blocks: the first id of block n. */
    function Front(f: Family, n: nat): nat
      requires n <= |counts.At(f)|
    {
      Base(f) + Sum(counts.At(f), n)
    }

    function Ranges(f: Family): (r: seq<Range>)
      requires |counts.At(f)| == Size()
      ensures |r| == Size()
    {
      seq(Size(), i requires 0 <= i < Size() && |counts.At(f)| == Size() => Range(Front(f, i), counts.At(f)[i]))
    }
  }

  function Sum(counts: seq<nat>, n: nat): nat
    requires n <= |counts|
  {
    if n == 0 then 0 else Sum(counts, n - 1) + counts[n - 1]
  }

  lemma {:induction false} SumMono(counts: seq<nat>, n: nat, m: nat)
    requires n <= m <= |counts|
    ensures Sum(counts, n) <= Sum(counts, m)
  {
    if n < m {
      SumMono(counts, n, m - 1);
    }
  }

  lemma {:induction false} SumOnes(counts: seq<nat>, n: nat)
    requires n <= |counts| && forall i :: 0 <= i < |counts| ==> counts[i] == 1
    ensures Sum(counts, n) == n
  {
    if n > 0 {
      SumOnes(counts, n - 1);
    }
  }

  lemma HeaderIds(l: Layout, n: nat)
    requires l.WfFamily(BlockHeader) && n <= l.Size()
    ensures l.Front(BlockHeader, n) == l.start + n
  {
    SumOnes(l.counts.header, n);
  }

  function LayoutOf(c: Codec, ch: Chain): Layout {
    Layout(
      ch.start,
      seq(|ch.blocks|, i requires 0 <= i < |ch.blocks| => c.hash(ch.blocks[i].header)),
      Tabulate(f => seq(|ch.blocks|, i requires 0 <= i < |ch.blocks| => |BlockRows(ch.blocks[i], f)|)),
      Tabulate(f => RowsOf(c, ch, f)),
      Tabulate(f => TagsOf(c, ch, f)))
  }

  /** Everything later modules use about LayoutOf(c, ch). */
  ghost predicate Agrees(c: Codec, ch: Chain, l: Layout) {
    && l.start == ch.start && l.Size() == |ch.blocks| && l.Wf()
    && (forall i :: 0 <= i < |ch.blocks| ==> l.hashes[i] == c.hash(ch.blocks[i].header))
    && forall f :: AgreesFamily(c, ch, l, f)
  }

  ghost predicate AgreesFamily(c: Codec, ch: Chain, l: Layout, f: Family) {
    && l.rows.At(f) == RowsOf(c, ch, f) && l.tags.At(f) == TagsOf(c, ch, f)
    && |l.counts.At(f)| == |ch.blocks|
    && forall i :: 0 <= i < |ch.blocks| ==> l.counts.At(f)[i] == |BlockRows(ch.blocks[i], f)|
  }

  lemma {:induction false} FrontsAgree(c: Codec, ch: Chain, l: Layout, f: Family, n: nat)
    requires AgreesFamily(c, ch, l, f) && l.start == ch.start && n <= |ch.blocks|
    ensures l.Front(f, n) == Front(ch, f, n)
  {
    hide BlockRows, RowsOf, TagsOf, Front;
    FrontZero(ch, f);
    if n > 0 {
      FrontsAgree(c, ch, l, f, n - 1);
      FrontStep(ch, f, n - 1);
    }
  }

  lemma LayoutFamily(c: Codec, ch: Chain, l: Layout, f: Family)
    requires l == LayoutOf(c, ch)
    ensures AgreesFamily(c, ch, l, f) && l.WfFamily(f)
  {
    hide Flatten, Encode, TagGroups, RowGroups, Front;
    assert AgreesFamily(c, ch, l, f);
    FrontsAgree(c, ch, l, f, |ch.blocks|);
    FrontEnd(c, ch, f);
  }

  lemma LayoutAgrees(c: Codec, ch: Chain)
    ensures Agrees(c, ch, LayoutOf(c, ch))
  {
    var l := LayoutOf(c, ch);
    forall f ensures AgreesFamily(c, ch, l, f) && l.WfFamily(f) { LayoutFamily(c, ch, l, f); }
  }

  lemma RangesContiguous(l: Layout, f: Family)
    requires l.WfFamily(f)
    ensures Contiguous(l.Ranges(f))
  {
  }

  // ---- a batch of blocks n..n' against the layout ----

  /** What the three stages need to know about a batch. */
  ghost predicate BatchFits(c: Codec, l: Layout, batch: seq<Assigned>, n: nat) {
    && l.Wf() && n + |batch| <= l.Size() && |batch| > 0
    && forall i :: 0 <= i < |batch| ==> Fits(c, l, batch[i], n + i)
  }

  /** The assigned block is block i of the layout, with its true ranges. */
  ghost predicate Fits(c: Codec, l: Layout, entry: Assigned, i: nat)
    requires i < l.Size()
  {
    && entry.block.Number() == l.start + i && c.hash(entry.block.header) == l.hashes[i]
    && forall f :: FitsFamily(l, entry, i, f)
  }

  ghost predicate FitsFamily(l: Layout, entry: Assigned, i: nat, f: Family)
    requires i < l.Size()
  {
    |l.counts.At(f)| == l.Size() && entry.Of(f) == l.Ranges(f)[i]
  }

  /** Rows and filters of blocks n..n' are the slices of the chain's streams between the two frontiers. */
  ghost predicate SliceFits(c: Codec, l: Layout, blocks: seq<Block>, n: nat, f: Family) {
    && l.WfFamily(f) && n + |blocks| <= l.Size()
    && l.rows.At(f).base <= l.Front(f, n) <= l.Front(f, n + |blocks|) <= l.rows.At(f).End()
    && RowStream(c, blocks, f, l.Front(f, n))
      == Payload.BatchRows(l.rows.At(f), l.Front(f, n), l.Front(f, n + |blocks|))
    && TagStream(c, blocks, f, l.Front(f, n)) == Bitmap.Slice(l.tags.At(f), l.Front(f, n), l.Front(f, n + |blocks|))
  }

  lemma SliceOfChain(c: Codec, ch: Chain, l: Layout, n: nat, n': nat, f: Family)
    requires n <= n' <= |ch.blocks| == l.Size() && l.WfFamily(f) && AgreesFamily(c, ch, l, f) && l.start == ch.start
    ensures SliceFits(c, l, ch.blocks[n..n'], n, f)
  {
    hide RowStream, TagStream, RowsOf, TagsOf, Front;
    FrontsAgree(c, ch, l, f, n);
    FrontsAgree(c, ch, l, f, n');
    BatchRows(c, ch, f, n, n');
    BatchTags(c, ch, f, n, n');
  }
}
