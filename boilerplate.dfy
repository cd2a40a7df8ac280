/** `_mark_boilerplate_noise`: a normalized text at least 25 characters long
    that occurs on three or more distinct pages is repeated page furniture,
    and every block carrying it is marked as noise, in place. */
module Boilerplate {
  import opened Schema

  /** Shorter repeated texts are not counted. */
  const MinLength: nat := 25

  /** The number of distinct pages that makes a text boilerplate. */
  const MinPages: nat := 3

  /** The pages of the blocks whose normalized text is `t`. */
  function PagesOf(bs: seq<Block>, t: string): set<int> {
    set k | 0 <= k < |bs| && bs[k].normalizedText == t :: bs[k].page
  }

  /** `t` is long enough to count and occurs on at least three pages. */
  predicate Repeated(bs: seq<Block>, t: string) {
    |t| >= MinLength && |PagesOf(bs, t)| >= MinPages
  }

  /** The pass as a function of the blocks: every block whose normalized
      text is repeated gets `is_noise` set. */
  function MarkBoilerplate(bs: seq<Block>): seq<Block> {
    seq(|bs|, k requires 0 <= k < |bs| =>
      if Repeated(bs, bs[k].normalizedText) then bs[k].(isNoise := true) else bs[k])
  }

  /** The indices of the blocks among the first `n` whose normalized text is
      `t`, in increasing order: the key's list in `text_to_indices`. */
  function IndicesUpTo(bs: seq<Block>, t: string, n: nat): (r: seq<nat>)
    requires n <= |bs|
    ensures forall j :: 0 <= j < |r| ==> r[j] < n && bs[r[j]].normalizedText == t
    ensures forall k :: 0 <= k < n && bs[k].normalizedText == t ==> k in r
  {
    if n == 0 then []
    else IndicesUpTo(bs, t, n - 1) + (if bs[n - 1].normalizedText == t then [n - 1] else [])
  }

  /** `{blocks[i]["page"] for i in indices}` */
  function PagesAt(bs: seq<Block>, ix: seq<nat>): set<int> {
    set m | 0 <= m < |ix| && ix[m] < |bs| :: bs[ix[m]].page
  }


  /** `_mark_boilerplate_noise(blocks)`: group the indices of the blocks by
      normalized text (texts shorter than 25 characters are not grouped),
      then mark every block of each group spanning three or more pages. */
  method MarkBoilerplateNoise(blocks: array<Block>)
    modifies blocks
    ensures blocks[..] == MarkBoilerplate(old(blocks[..]))
  {
    ghost var bs := blocks[..];
    var textToIndices := GroupByText(blocks);
    IndicesOfAll(bs, textToIndices);

    var pending := textToIndices.Keys;
    while pending != {}
      invariant pending <= textToIndices.Keys
      invariant blocks.Length == |bs|
      invariant MarkedOutside(bs, blocks[..], pending)
      decreases pending
    {
      var nt :| nt in pending;
      var indices := textToIndices[nt];
      var pages := PagesAt(blocks[..], indices);
      PagesOfGroup(bs, blocks[..], pending, nt);
      ghost var before := blocks[..];
      if |pages| >= MinPages {
        MarkAll(blocks, indices);
      }
      MarkGroup(bs, before, blocks[..], pending, nt);
      pending := pending - {nt};
    }
    MarkedAll(bs, blocks[..]);
  }

  /** The blocks with those at `ix` marked as noise. */
  function MarkAt(bs: seq<Block>, ix: seq<nat>): (r: seq<Block>)
    ensures |r| == |bs|
  {
    seq(|bs|, k requires 0 <= k < |bs| => if k in ix then bs[k].(isNoise := true) else bs[k])
  }

  /** `for i in indices: blocks[i]["is_noise"] = True` */
  method MarkAll(blocks: array<Block>, indices: seq<nat>)
    requires forall j :: 0 <= j < |indices| ==> indices[j] < blocks.Length
    modifies blocks
    ensures blocks[..] == MarkAt(old(blocks[..]), indices)
  {
    ghost var bs := blocks[..];
    for j := 0 to |indices|
      invariant blocks[..] == MarkAt(bs, indices[..j])
    {
      blocks[indices[j]] := blocks[indices[j]].(isNoise := true);
      assert indices[..j + 1] == indices[..j] + [indices[j]];
    }
    assert indices[..|indices|] == indices;
  }

  /** The state of the second loop: the blocks of every group already
      handled (a text not in `pending`) are marked when the text is
      repeated; all else is as it was. */
  ghost predicate MarkedOutside(bs: seq<Block>, cur: seq<Block>, pending: set<string>) {
    && |cur| == |bs|
    && forall k :: 0 <= k < |bs| ==>
      cur[k] == if bs[k].normalizedText !in pending && Repeated(bs, bs[k].normalizedText)
        then bs[k].(isNoise := true) else bs[k]
  }

  /** The pages of a text's group, read off the blocks part way through the
      pass, are the pages of the text: marking keeps every page. */
  lemma PagesOfGroup(bs: seq<Block>, cur: seq<Block>, pending: set<string>, t: string)
    requires MarkedOutside(bs, cur, pending)
    ensures PagesAt(cur, IndicesUpTo(bs, t, |bs|)) == PagesOf(bs, t)
  {
    var ix := IndicesUpTo(bs, t, |bs|);
    forall p | p in PagesOf(bs, t) ensures p in PagesAt(cur, ix) {
      var k :| 0 <= k < |bs| && bs[k].normalizedText == t && bs[k].page == p;
      var m :| 0 <= m < |ix| && ix[m] == k;
      assert cur[ix[m]].page == p;
    }
  }

  /** Once no group is pending, the blocks are those the pass specifies. */
  lemma MarkedAll(bs: seq<Block>, cur: seq<Block>)
    requires MarkedOutside(bs, cur, {})
    ensures cur == MarkBoilerplate(bs)
  {
  }

  /** Handling the group of `nt` (marking its listed blocks exactly when it
      spans three or more pages) takes it off the pending set. */
  lemma MarkGroup(bs: seq<Block>, before: seq<Block>, after: seq<Block>, pending: set<string>, nt: string)
    requires MarkedOutside(bs, before, pending) && nt in pending && |nt| >= MinLength
    requires after == if Repeated(bs, nt) then MarkAt(before, IndicesUpTo(bs, nt, |bs|)) else before
    ensures MarkedOutside(bs, after, pending - {nt})
  {
    var ix := IndicesUpTo(bs, nt, |bs|);
    forall k | 0 <= k < |bs|
      ensures after[k] == if bs[k].normalizedText !in pending - {nt} && Repeated(bs, bs[k].normalizedText)
        then bs[k].(isNoise := true) else bs[k]
    {
      if bs[k].normalizedText == nt {
        assert k in ix;
      } else if Repeated(bs, nt) {
        assert k !in ix;
      }
    }
  }

  /** The first loop of the pass: `text_to_indices`, the indices of the
      blocks grouped by normalized text, texts shorter than 25 characters
      left out. */
  method GroupByText(blocks: array<Block>) returns (textToIndices: map<string, seq<nat>>)
    ensures forall t :: t in textToIndices ==> |t| >= MinLength
    ensures forall t :: |t| >= MinLength ==>
      GetOr(textToIndices, t, []) == IndicesUpTo(blocks[..], t, blocks.Length)
  {
    ghost var bs := blocks[..];
    textToIndices := map[];
    for idx := 0 to blocks.Length
      invariant forall t :: t in textToIndices ==> |t| >= MinLength
      invariant forall t :: |t| >= MinLength ==>
        GetOr(textToIndices, t, []) == IndicesUpTo(bs, t, idx)
    {
      var nt := blocks[idx].normalizedText;
      ghost var prev := textToIndices;
      if |nt| >= MinLength {
        textToIndices := textToIndices[nt := GetOr(textToIndices, nt, []) + [idx]];
      }
      GroupStep(bs, prev, idx);
    }
  }

  /** One step of the grouping loop keeps each list equal to the indices
      seen so far. */
  lemma GroupStep(bs: seq<Block>, prev: map<string, seq<nat>>, idx: nat)
    requires idx < |bs|
    requires forall t :: |t| >= MinLength ==> GetOr(prev, t, []) == IndicesUpTo(bs, t, idx)
    ensures var nt := bs[idx].normalizedText;
      var next := if |nt| >= MinLength then prev[nt := GetOr(prev, nt, []) + [idx]] else prev;
      forall t :: |t| >= MinLength ==> GetOr(next, t, []) == IndicesUpTo(bs, t, idx + 1)
  {
  }

  /** Every grouped text has the list of all its blocks. */
  lemma IndicesOfAll(bs: seq<Block>, groups: map<string, seq<nat>>)
    requires forall t :: |t| >= MinLength ==> GetOr(groups, t, []) == IndicesUpTo(bs, t, |bs|)
    requires forall t :: t in groups ==> |t| >= MinLength
    ensures forall t :: t in groups ==> groups[t] == IndicesUpTo(bs, t, |bs|)
  {
    forall t | t in groups ensures groups[t] == IndicesUpTo(bs, t, |bs|) {
      assert GetOr(groups, t, []) == groups[t];
    }
  }

  /** Marking never clears a noise flag. */
  lemma MarkMonotone(bs: seq<Block>, k: nat)
    requires k < |bs|
    ensures |MarkBoilerplate(bs)| == |bs|
    ensures bs[k].isNoise ==> MarkBoilerplate(bs)[k].isNoise
  {
  }

  /** Marking changes no field but `is_noise`. */
  lemma MarkOnlyNoise(bs: seq<Block>, k: nat)
    requires k < |bs|
    ensures |MarkBoilerplate(bs)| == |bs|
    ensures MarkBoilerplate(bs)[k].(isNoise := bs[k].isNoise) == bs[k]
  {
  }

  /** A block whose text is repeated on three or more pages ends up noise;
      any other block keeps its flag, in particular one whose normalized
      text is shorter than 25 characters. */
  lemma MarkExactly(bs: seq<Block>, k: nat)
    requires k < |bs|
    ensures |MarkBoilerplate(bs)| == |bs|
    ensures MarkBoilerplate(bs)[k].isNoise == (bs[k].isNoise || Repeated(bs, bs[k].normalizedText))
    ensures |bs[k].normalizedText| < MinLength ==> MarkBoilerplate(bs)[k].isNoise == bs[k].isNoise
  {
  }

  /** Marking a second time changes nothing: pages and normalized texts are
      what decide, and marking keeps them. */
  lemma MarkIdempotent(bs: seq<Block>)
    ensures MarkBoilerplate(MarkBoilerplate(bs)) == MarkBoilerplate(bs)
  {
    MarkKeepsPages(bs);
  }

  /** Marking keeps the pages of every text. */
  lemma MarkKeepsPages(bs: seq<Block>)
    ensures forall t :: PagesOf(MarkBoilerplate(bs), t) == PagesOf(bs, t)
  {
    var m := MarkBoilerplate(bs);
    forall t ensures PagesOf(m, t) == PagesOf(bs, t) {
      assert forall k :: 0 <= k < |bs| ==> m[k].page == bs[k].page && m[k].normalizedText == bs[k].normalizedText;
    }
  }

  /** Three blocks of one long text on pages 1, 2 and 3 are all marked; a
      fourth, different text is not. */
  lemma MarkExample(b: Block, c: Block)
    requires |b.normalizedText| >= MinLength && !b.isNoise
    requires c.normalizedText != b.normalizedText && !c.isNoise
    ensures var bs := [b.(page := 1), b.(page := 2), c, b.(page := 3)];
      var m := MarkBoilerplate(bs);
      m[0].isNoise && m[1].isNoise && !m[2].isNoise && m[3].isNoise
  {
    var bs := [b.(page := 1), b.(page := 2), c, b.(page := 3)];
    assert PagesOf(bs, b.normalizedText) == {1, 2, 3} by {
      assert bs[0].page == 1 && bs[1].page == 2 && bs[3].page == 3;
    }
    forall p | p in PagesOf(bs, c.normalizedText) ensures p == c.page {
      var k :| 0 <= k < |bs| && bs[k].normalizedText == c.normalizedText && bs[k].page == p;
      assert k == 2;
    }
    assert bs[2] == c;
    assert c.page in PagesOf(bs, c.normalizedText);
    assert PagesOf(bs, c.normalizedText) == {c.page};
  }
}
