/** `get_embedding_chunks`: the blocks of a structure result collapsed into
    retrieval chunks. Noise and discarded table-of-contents blocks are passed
    over; a title that does not look like an author's name opens a run that
    gathers the content blocks (paragraphs, list items, tables) up to the
    next title, and gives a chunk when it gathered at least one; a content
    block outside such a run opens a titleless chunk with the same run. */
module Chunks {
  import opened PyStr
  import opened Classify
  import opened Schema
  import opened Noise

  // ---- The tests the scan makes ----

  /** `b.get("type") in ("paragraph", "list_item", "table")` */
  predicate IsContent(b: Block) {
    b.kind == Paragraph || b.kind == ListItem || b.kind == Table
  }

  /** `b.get("is_noise") or _should_discard_toc(b)`: the block is passed over. */
  predicate Skipped(b: Block) {
    b.isNoise || ShouldDiscardToc(b)
  }

  /** A block a run gathers into its chunk. */
  predicate Gathered(b: Block) {
    IsContent(b) && !Skipped(b)
  }

  /** `len(t) < 4 or (" " not in t and len(t) < 20)`: a short heading that
      looks like a name rather than a section title. */
  predicate AuthorLike(t: string) {
    |t| < 4 || (' ' !in t && |t| < 20)
  }

  /** The block at the scan position opens a run: a title that is not
      name-like, or a content block, and in either case not passed over. */
  predicate Opens(b: Block) {
    !Skipped(b) && ((b.kind == Title && !AuthorLike(Strip(b.text))) || IsContent(b))
  }

  // ---- Runs ----

  /** Where the run starting at `j` ends: the first title at or after `j`,
      or the end of the blocks. */
  function RunEnd(bs: seq<Block>, j: nat): (e: nat)
    requires j <= |bs|
    ensures j <= e <= |bs|
    decreases |bs| - j
  {
    if j == |bs| || bs[j].kind == Title then j else RunEnd(bs, j + 1)
  }

  /** No block of a run is a title, and a run cut short ends at a title. */
  lemma {:induction false} RunEndShape(bs: seq<Block>, j: nat)
    requires j <= |bs|
    ensures forall k :: j <= k < RunEnd(bs, j) ==> bs[k].kind != Title
    ensures RunEnd(bs, j) < |bs| ==> bs[RunEnd(bs, j)].kind == Title
    decreases |bs| - j
  {
    if j < |bs| && bs[j].kind != Title {
      RunEndShape(bs, j + 1);
    }
  }

  /** A stretch free of titles that stops at a title or at the end is the run. */
  lemma {:induction false} RunEndIs(bs: seq<Block>, j: nat, e: nat)
    requires j <= e <= |bs|
    requires forall k :: j <= k < e ==> bs[k].kind != Title
    requires e == |bs| || bs[e].kind == Title
    ensures RunEnd(bs, j) == e
    decreases e - j
  {
    if j < e {
      RunEndIs(bs, j + 1, e);
    }
  }

  /** The positions in `[lo, hi)` a run gathers, in order. */
  function Members(bs: seq<Block>, lo: nat, hi: nat): (ms: seq<nat>)
    requires lo <= hi <= |bs|
    ensures forall x :: 0 <= x < |ms| ==> lo <= ms[x] < hi
    decreases hi - lo
  {
    if hi == lo then []
    else Members(bs, lo, hi - 1) + (if Gathered(bs[hi - 1]) then [hi - 1] else [])
  }

  /** Strictly increasing. */
  predicate Increasing(s: seq<nat>) {
    forall x, y :: 0 <= x < y < |s| ==> s[x] < s[y]
  }

  /** An increasing sequence stays increasing when a larger value is
      appended. */
  lemma IncreasingSnoc(s: seq<nat>, v: nat)
    requires Increasing(s) && forall x :: 0 <= x < |s| ==> s[x] < v
    ensures Increasing(s + [v])
  {
    var t := s + [v];
    forall x, y | 0 <= x < y < |t| ensures t[x] < t[y] {
      assert t[x] == s[x];
    }
  }

  /** The gathered positions are in increasing order. */
  lemma {:induction false} MembersIncreasing(bs: seq<Block>, lo: nat, hi: nat)
    requires lo <= hi <= |bs|
    ensures Increasing(Members(bs, lo, hi))
    decreases hi - lo
  {
    if hi > lo {
      MembersIncreasing(bs, lo, hi - 1);
      if Gathered(bs[hi - 1]) {
        IncreasingSnoc(Members(bs, lo, hi - 1), hi - 1);
      }
    }
  }

  /** Every gathered position holds a gathered block. */
  lemma {:induction false} MembersGathered(bs: seq<Block>, lo: nat, hi: nat)
    requires lo <= hi <= |bs|
    ensures forall x :: 0 <= x < |Members(bs, lo, hi)| ==> Gathered(bs[Members(bs, lo, hi)[x]])
    decreases hi - lo
  {
    if hi > lo {
      MembersGathered(bs, lo, hi - 1);
      var ms := Members(bs, lo, hi - 1);
      var tail: seq<nat> := if Gathered(bs[hi - 1]) then [hi - 1] else [];
      assert forall x :: 0 <= x < |ms| ==> (ms + tail)[x] == ms[x];
    }
  }

  /** Every gathered block of the range is gathered. */
  lemma {:induction false} MembersComplete(bs: seq<Block>, lo: nat, hi: nat)
    requires lo <= hi <= |bs|
    ensures forall k :: lo <= k < hi && Gathered(bs[k]) ==> k in Members(bs, lo, hi)
    decreases hi - lo
  {
    if hi > lo {
      MembersComplete(bs, lo, hi - 1);
    }
  }

  // ---- The chunk plan ----

  /** One chunk to be emitted: its first block, whether that block is its
      title, and the positions its run gathered. */
  datatype Group = Group(start: nat, titled: bool, members: seq<nat>)

  /** The group a run opened at `i` forms: titled when `i` is a title, with
      the gathered blocks up to the next title. */
  function GroupAt(bs: seq<Block>, i: nat): Group
    requires i < |bs|
  {
    Group(i, bs[i].kind == Title, Members(bs, i + 1, RunEnd(bs, i + 1)))
  }

  /** `if content_parts:`: a titled group is emitted only when it gathered a
      block; a titleless one always is (its first block is a part). */
  predicate Emits(g: Group) {
    !g.titled || g.members != []
  }

  /** The chunks one turn of the outer loop emits at `i`. */
  function Head(bs: seq<Block>, i: nat): (hs: seq<Group>)
    requires i < |bs|
    ensures |hs| <= 1
  {
    if Opens(bs[i]) && Emits(GroupAt(bs, i)) then [GroupAt(bs, i)] else []
  }

  /** Where the outer loop goes after `i`: past the run it opened, or to the
      next block. */
  function Next(bs: seq<Block>, i: nat): (n: nat)
    requires i < |bs|
    ensures i < n <= |bs|
  {
    if Opens(bs[i]) then RunEnd(bs, i + 1) else i + 1
  }

  /** The chunks the scan emits from position `i` on. */
  function PlanFrom(bs: seq<Block>, i: nat): (gs: seq<Group>)
    requires i <= |bs|
    decreases |bs| - i
  {
    if i == |bs| then [] else Head(bs, i) + PlanFrom(bs, Next(bs, i))
  }

  /** Every block of a group lies inside the blocks. */
  predicate InRange(bs: seq<Block>, g: Group) {
    g.start < |bs| && forall x :: 0 <= x < |g.members| ==> g.members[x] < |bs|
  }

  /** The last position of a group. */
  function Last(g: Group): nat {
    if g.members == [] then g.start else g.members[|g.members| - 1]
  }

  /** A group the scan can emit: GroupStart and GroupRun. */
  predicate GroupOk(bs: seq<Block>, g: Group) {
    GroupStart(bs, g) && GroupRun(bs, g)
  }

  /** The first block of a group the scan can emit: it is not passed over;
      a titled group starts at a title that is no name and gathered at
      least one block; a titleless one starts at a content block. */
  predicate GroupStart(bs: seq<Block>, g: Group) {
    && g.start < |bs|
    && !Skipped(bs[g.start])
    && (g.titled <==> bs[g.start].kind == Title)
    && (g.titled ==> !AuthorLike(Strip(bs[g.start].text)) && g.members != [])
    && (!g.titled ==> IsContent(bs[g.start]))
  }

  /** The members of a group the scan can emit: gathered blocks after the
      start, in increasing order, with no title after the start up to the
      last member. */
  predicate GroupRun(bs: seq<Block>, g: Group) {
    && InRange(bs, g)
    && Increasing([g.start] + g.members)
    && (forall x :: 0 <= x < |g.members| ==> Gathered(bs[g.members[x]]))
    && (forall k :: g.start < k <= Last(g) && k < |bs| ==> bs[k].kind != Title)
  }

  /** The positions of all groups, in output order. */
  function Positions(gs: seq<Group>): seq<nat> {
    if gs == [] then [] else [gs[0].start] + gs[0].members + Positions(gs[1..])
  }

  // ---- Rendering ----

  /** `[(blocks[k].get("text") or "").strip() for k in ps]` */
  function Texts(bs: seq<Block>, ps: seq<nat>): (r: seq<string>)
    requires forall x :: 0 <= x < |ps| ==> ps[x] < |bs|
    ensures |r| == |ps|
  {
    seq(|ps|, x requires 0 <= x < |ps| => Strip(bs[ps[x]].text))
  }

  /** `[blocks[k].get("block_id", "") for k in ps]` */
  function Ids(bs: seq<Block>, ps: seq<nat>): (r: seq<string>)
    requires forall x :: 0 <= x < |ps| ==> ps[x] < |bs|
    ensures |r| == |ps|
  {
    seq(|ps|, x requires 0 <= x < |ps| => bs[ps[x]].blockId)
  }

  /** The chunk dictionary of a group: the title (or "" for a titleless
      chunk), the gathered texts joined by blank lines, the page, section
      and chunk id of the first block, and the block ids of all its blocks. */
  function RenderGroup(bs: seq<Block>, g: Group): Chunk
    requires InRange(bs, g)
  {
    var b := bs[g.start];
    var parts := if g.titled then Texts(bs, g.members) else Texts(bs, [g.start] + g.members);
    Chunk(if g.titled then Strip(b.text) else "", Join(parts, "\n\n"),
      b.page, b.sectionId, b.sectionTitle, b.chunkId, Ids(bs, [g.start] + g.members))
  }

  /** The chunks of a sequence of groups, one each, in order. */
  function Render(bs: seq<Block>, gs: seq<Group>): (cs: seq<Chunk>)
    requires forall n :: 0 <= n < |gs| ==> InRange(bs, gs[n])
    ensures |cs| == |gs|
  {
    seq(|gs|, n requires 0 <= n < |gs| => RenderGroup(bs, gs[n]))
  }

  /** The chunk one turn of the outer loop at `i` appends, if any. */
  function Emitted(bs: seq<Block>, i: nat): (cs: seq<Chunk>)
    requires i < |bs|
  {
    if Opens(bs[i]) && Emits(GroupAt(bs, i)) then [RenderGroup(bs, GroupAt(bs, i))] else []
  }

  /** The chunks the scan appends from position `i` on. */
  function ChunksFrom(bs: seq<Block>, i: nat): (cs: seq<Chunk>)
    requires i <= |bs|
    decreases |bs| - i
  {
    if i == |bs| then [] else Emitted(bs, i) + ChunksFrom(bs, Next(bs, i))
  }

  /** What `get_embedding_chunks(result)` returns for the blocks `bs`;
      by ChunksArePlan, the chunks of the plan, one per group. */
  function EmbeddingChunks(bs: seq<Block>): (cs: seq<Chunk>) {
    ChunksFrom(bs, 0)
  }

  // ---- The scan ----

  /** The inner `while j < len(blocks)` loop: from `lo` up to the next
      title, the stripped texts and block ids of the gathered blocks are
      appended to `parts0` and `ids0`. */
  method CollectRun(blocks: seq<Block>, lo: nat, parts0: seq<string>, ids0: seq<string>)
    returns (j: nat, contentParts: seq<string>, blockIds: seq<string>)
    requires lo <= |blocks|
    ensures j == RunEnd(blocks, lo)
    ensures contentParts == parts0 + Texts(blocks, Members(blocks, lo, j))
    ensures blockIds == ids0 + Ids(blocks, Members(blocks, lo, j))
  {
    j := lo;
    contentParts := parts0;
    blockIds := ids0;
    while j < |blocks|
      invariant lo <= j <= |blocks|
      invariant forall k :: lo <= k < j ==> blocks[k].kind != Title
      invariant contentParts == parts0 + Texts(blocks, Members(blocks, lo, j))
      invariant blockIds == ids0 + Ids(blocks, Members(blocks, lo, j))
    {
      var nb := blocks[j];
      if nb.kind == Title {
        break;
      }
      ghost var ms := Members(blocks, lo, j);
      MembersStep(blocks, lo, j);
      if !Skipped(nb) && IsContent(nb) {
        contentParts := contentParts + [Strip(nb.text)];
        blockIds := blockIds + [nb.blockId];
        GatherOne(blocks, ms, j);
      }
      j := j + 1;
    }
    RunEndIs(blocks, lo, j);
  }

  /** One more block in the range adds it to the members exactly when
      it is gathered. */
  lemma MembersStep(bs: seq<Block>, lo: nat, j: nat)
    requires lo <= j < |bs|
    ensures Gathered(bs[j]) ==> Members(bs, lo, j + 1) == Members(bs, lo, j) + [j]
    ensures !Gathered(bs[j]) ==> Members(bs, lo, j + 1) == Members(bs, lo, j)
  {
    assert Members(bs, lo, j) + [] == Members(bs, lo, j);
  }

  /** Appending a position appends its text and its block id. */
  lemma GatherOne(bs: seq<Block>, ms: seq<nat>, j: nat)
    requires j < |bs| && forall x :: 0 <= x < |ms| ==> ms[x] < |bs|
    ensures Texts(bs, ms + [j]) == Texts(bs, ms) + [Strip(bs[j].text)]
    ensures Ids(bs, ms + [j]) == Ids(bs, ms) + [bs[j].blockId]
  {
    assert forall x :: 0 <= x < |ms| ==> (ms + [j])[x] == ms[x];
  }

  /** One turn of the outer loop at `i`: the chunks it appends and where
      the scan goes on. */
  method ScanAt(blocks: seq<Block>, i: nat) returns (next: nat, emitted: seq<Chunk>)
    requires i < |blocks|
    ensures next == Next(blocks, i)
    ensures emitted == Emitted(blocks, i)
  {
    var b := blocks[i];
    if b.isNoise || ShouldDiscardToc(b) {
      next, emitted := i + 1, [];
    } else if b.kind == Title {
      var titleText := Strip(b.text);
      if |titleText| < 4 || (' ' !in titleText && |titleText| < 20) {
        next, emitted := i + 1, [];
      } else {
        assert Opens(b);
        next, emitted := TitledRun(blocks, i, titleText);
      }
    } else if IsContent(b) && !(b.isNoise || ShouldDiscardToc(b)) {
      assert Opens(b);
      next, emitted := ContentRun(blocks, i);
    } else {
      next, emitted := i + 1, [];
    }
  }

  /** A title that opens a run: the chunk of the title and the gathered
      blocks, if it gathered any (`if content_parts:`). */
  method TitledRun(blocks: seq<Block>, i: nat, titleText: string) returns (next: nat, emitted: seq<Chunk>)
    requires i < |blocks| && blocks[i].kind == Title && titleText == Strip(blocks[i].text)
    ensures next == RunEnd(blocks, i + 1)
    ensures emitted == if Emits(GroupAt(blocks, i)) then [RenderGroup(blocks, GroupAt(blocks, i))] else []
  {
    var b := blocks[i];
    var j, contentParts, blockIds := CollectRun(blocks, i + 1, [], [b.blockId]);
    ghost var g := GroupAt(blocks, i);
    FirstOfGroup(blocks, g);
    assert contentParts == Texts(blocks, g.members);
    if contentParts != [] {
      emitted := [Chunk(titleText, Join(contentParts, "\n\n"), b.page,
        b.sectionId, b.sectionTitle, b.chunkId, blockIds)];
    } else {
      emitted := [];
    }
    next := j;
  }

  /** A content block outside a titled run: a titleless chunk of it and the
      blocks its run gathered. */
  method ContentRun(blocks: seq<Block>, i: nat) returns (next: nat, emitted: seq<Chunk>)
    requires i < |blocks| && IsContent(blocks[i])
    ensures next == RunEnd(blocks, i + 1)
    ensures emitted == [RenderGroup(blocks, GroupAt(blocks, i))]
  {
    var b := blocks[i];
    var j, contentParts, blockIds := CollectRun(blocks, i + 1, [Strip(b.text)], [b.blockId]);
    ghost var g := GroupAt(blocks, i);
    FirstOfGroup(blocks, g);
    emitted := [Chunk("", Join(contentParts, "\n\n"), b.page,
      b.sectionId, b.sectionTitle, b.chunkId, blockIds)];
    next := j;
  }

  /** `get_embedding_chunks(result)` */
  method GetEmbeddingChunks(result: Extraction) returns (chunks: seq<Chunk>)
    ensures chunks == EmbeddingChunks(result.blocks)
  {
    var blocks := result.blocks;
    ghost var whole := ChunksFrom(blocks, 0);
    chunks := [];
    var i := 0;
    while i < |blocks|
      invariant i <= |blocks|
      invariant chunks + ChunksFrom(blocks, i) == whole
      decreases |blocks| - i
    {
      var next, emitted := ScanAt(blocks, i);
      ChunksStep(blocks, i);
      AppendAssoc(chunks, emitted, ChunksFrom(blocks, next));
      chunks := chunks + emitted;
      i := next;
    }
    assert chunks + [] == chunks;
  }

  /** One turn of the outer loop: the chunks from `i` are those emitted at
      `i`, then those from the next position. */
  lemma ChunksStep(bs: seq<Block>, i: nat)
    requires i < |bs|
    ensures ChunksFrom(bs, i) == Emitted(bs, i) + ChunksFrom(bs, Next(bs, i))
  {
  }

  lemma AppendAssoc<T>(a: seq<T>, b: seq<T>, c: seq<T>)
    ensures a + b + c == a + (b + c)
  {
  }

  /** Rendering more groups appends their chunks. */
  lemma RenderAppend(bs: seq<Block>, gs: seq<Group>, hs: seq<Group>)
    requires forall n :: 0 <= n < |gs| ==> InRange(bs, gs[n])
    requires forall n :: 0 <= n < |hs| ==> InRange(bs, hs[n])
    ensures forall n :: 0 <= n < |gs + hs| ==> InRange(bs, (gs + hs)[n])
    ensures Render(bs, gs + hs) == Render(bs, gs) + Render(bs, hs)
  {
    assert forall n :: 0 <= n < |gs| ==> (gs + hs)[n] == gs[n];
    assert forall n :: |gs| <= n < |gs + hs| ==> (gs + hs)[n] == hs[n - |gs|];
  }

  /** The texts and ids of a group's blocks are those of its first block,
      then those of its members. */
  lemma FirstOfGroup(bs: seq<Block>, g: Group)
    requires InRange(bs, g)
    ensures Texts(bs, [g.start] + g.members) == [Strip(bs[g.start].text)] + Texts(bs, g.members)
    ensures Ids(bs, [g.start] + g.members) == [bs[g.start].blockId] + Ids(bs, g.members)
  {
    var ps := [g.start] + g.members;
    assert forall x :: 0 < x < |ps| ==> ps[x] == g.members[x - 1];
  }

  // ---- What the plan satisfies ----

  /** The group emitted at `i` is one the scan can emit and ends before
      the scan's next position. */
  lemma OpenedOk(bs: seq<Block>, i: nat)
    requires i < |bs| && Head(bs, i) != []
    ensures GroupOk(bs, GroupAt(bs, i)) && Last(GroupAt(bs, i)) < Next(bs, i)
  {
    OpenedStart(bs, i);
    OpenedRun(bs, i);
  }

  /** The group emitted at `i` starts at a block the scan can open with. */
  lemma OpenedStart(bs: seq<Block>, i: nat)
    requires i < |bs| && Head(bs, i) != []
    ensures GroupStart(bs, GroupAt(bs, i)) && Next(bs, i) == RunEnd(bs, i + 1)
  {
    assert Opens(bs[i]) && Emits(GroupAt(bs, i));
  }

  /** The run opened at `i` gathers blocks that form a group body, all
      before the end of the run. */
  lemma OpenedRun(bs: seq<Block>, i: nat)
    requires i < |bs|
    ensures GroupRun(bs, GroupAt(bs, i)) && Last(GroupAt(bs, i)) < RunEnd(bs, i + 1)
  {
    var e := RunEnd(bs, i + 1);
    var ms := Members(bs, i + 1, e);
    MembersIncreasing(bs, i + 1, e);
    MembersGathered(bs, i + 1, e);
    RunEndShape(bs, i + 1);
    StartThenMembers(i, ms);
    var g := GroupAt(bs, i);
    assert g.members == ms;
    assert i <= Last(g) < e by {
      if ms != [] {
        assert ms[|ms| - 1] < e;
      }
    }
  }

  /** Every group of the plan from `i` is one the scan can emit and starts
      at or after `i`. */
  lemma {:induction false} PlanShape(bs: seq<Block>, i: nat)
    requires i <= |bs|
    ensures forall n :: 0 <= n < |PlanFrom(bs, i)| ==>
      GroupOk(bs, PlanFrom(bs, i)[n]) && i <= PlanFrom(bs, i)[n].start
    decreases |bs| - i
  {
    if i < |bs| {
      var e := Next(bs, i);
      PlanShape(bs, e);
      PlanStep(bs, i);
      if Head(bs, i) != [] {
        OpenedOk(bs, i);
        ShapeCons(bs, GroupAt(bs, i), PlanFrom(bs, e), i, e);
      }
    }
  }

  /** A group the scan can emit at `i`, before groups it can emit later. */
  lemma ShapeCons(bs: seq<Block>, g: Group, rest: seq<Group>, i: nat, e: nat)
    requires GroupOk(bs, g) && i <= g.start && i <= e
    requires forall n :: 0 <= n < |rest| ==> GroupOk(bs, rest[n]) && e <= rest[n].start
    ensures forall n :: 0 <= n < |[g] + rest| ==> GroupOk(bs, ([g] + rest)[n]) && i <= ([g] + rest)[n].start
  {
    assert forall n :: 0 < n < |[g] + rest| ==> ([g] + rest)[n] == rest[n - 1];
  }

  /** Every group of the plan lies inside the blocks. */
  lemma {:induction false} PlanInRange(bs: seq<Block>, i: nat)
    requires i <= |bs|
    ensures forall n :: 0 <= n < |PlanFrom(bs, i)| ==> InRange(bs, PlanFrom(bs, i)[n])
    decreases |bs| - i
  {
    if i < |bs| {
      var hs := Head(bs, i);
      var rest := PlanFrom(bs, Next(bs, i));
      PlanInRange(bs, Next(bs, i));
      assert PlanFrom(bs, i) == hs + rest;
      assert forall n :: |hs| <= n < |hs + rest| ==> (hs + rest)[n] == rest[n - |hs|];
    }
  }

  /** The chunks the scan appends are those of the plan. */
  lemma {:induction false} ChunksArePlan(bs: seq<Block>, i: nat)
    requires i <= |bs|
    ensures forall n :: 0 <= n < |PlanFrom(bs, i)| ==> InRange(bs, PlanFrom(bs, i)[n])
    ensures ChunksFrom(bs, i) == Render(bs, PlanFrom(bs, i))
    decreases |bs| - i
  {
    PlanInRange(bs, i);
    if i < |bs| {
      var hs := Head(bs, i);
      var rest := PlanFrom(bs, Next(bs, i));
      ChunksArePlan(bs, Next(bs, i));
      assert PlanFrom(bs, i) == hs + rest;
      assert forall n :: 0 <= n < |hs| ==> InRange(bs, hs[n]);
      RenderAppend(bs, hs, rest);
      assert Render(bs, hs) == Emitted(bs, i);
    }
  }

  /** A start before increasing members gives an increasing sequence. */
  lemma StartThenMembers(i: nat, ms: seq<nat>)
    requires Increasing(ms) && forall x :: 0 <= x < |ms| ==> i < ms[x]
    ensures Increasing([i] + ms)
  {
    forall x, y | 0 <= x < y < |ms| + 1 ensures ([i] + ms)[x] < ([i] + ms)[y] {
      if x > 0 { assert ([i] + ms)[x] == ms[x - 1]; }
      assert ([i] + ms)[y] == ms[y - 1];
    }
  }

  /** The positions after one group are its own, then the rest's. */
  lemma PositionsCons(g: Group, gs: seq<Group>)
    ensures Positions([g] + gs) == [g.start] + g.members + Positions(gs)
  {
    assert ([g] + gs)[1..] == gs;
  }

  /** Two increasing sequences, the first below the second, concatenate
      to an increasing sequence. */
  lemma IncreasingConcat(s: seq<nat>, t: seq<nat>, m: nat)
    requires Increasing(s) && Increasing(t)
    requires forall x :: 0 <= x < |s| ==> s[x] < m
    requires forall y :: 0 <= y < |t| ==> m <= t[y]
    ensures Increasing(s + t)
  {
    var u := s + t;
    forall x, y | 0 <= x < y < |u| ensures u[x] < u[y] {
      if y < |s| {
        assert u[x] == s[x] && u[y] == s[y];
      } else if x < |s| {
        assert u[x] == s[x] && u[y] == t[y - |s|];
      } else {
        assert u[x] == t[x - |s|] && u[y] == t[y - |s|];
      }
    }
  }

  /** The positions of the chunks from `i` on rise strictly, so no block
      is in two chunks, and lie between `i` and the end of the blocks. */
  lemma {:induction false} PlanDisjoint(bs: seq<Block>, i: nat)
    requires i <= |bs|
    ensures Increasing(Positions(PlanFrom(bs, i)))
    ensures forall x :: 0 <= x < |Positions(PlanFrom(bs, i))| ==> i <= Positions(PlanFrom(bs, i))[x] < |bs|
    decreases |bs| - i
  {
    if i < |bs| {
      var e := Next(bs, i);
      PlanDisjoint(bs, e);
      PlanStep(bs, i);
      var rest := PlanFrom(bs, e);
      if Head(bs, i) != [] {
        OpenedGroup(bs, i);
        GroupBeforeRest(GroupAt(bs, i), PlanFrom(bs, e), i, e, |bs|);
      }
    }
  }

  /** The first block and the members of the group opened at `i` rise
      strictly and lie before the end of its run. */
  lemma OpenedGroup(bs: seq<Block>, i: nat)
    requires i < |bs|
    ensures var own := [i] + GroupAt(bs, i).members;
      Increasing(own) && forall x :: 0 <= x < |own| ==> i <= own[x] < RunEnd(bs, i + 1)
  {
    var ms := GroupAt(bs, i).members;
    MembersIncreasing(bs, i + 1, RunEnd(bs, i + 1));
    StartThenMembers(i, ms);
    var own := [i] + ms;
    assert forall x :: 0 < x < |own| ==> own[x] == ms[x - 1];
  }

  /** A group whose positions rise within `[lo, mid)`, before groups whose
      positions rise within `[mid, hi)`. */
  lemma GroupBeforeRest(g: Group, rest: seq<Group>, lo: nat, mid: nat, hi: nat)
    requires lo <= mid <= hi
    requires Increasing([g.start] + g.members)
    requires forall x :: 0 <= x < |[g.start] + g.members| ==> lo <= ([g.start] + g.members)[x] < mid
    requires Increasing(Positions(rest))
    requires forall x :: 0 <= x < |Positions(rest)| ==> mid <= Positions(rest)[x] < hi
    ensures Increasing(Positions([g] + rest))
    ensures forall x :: 0 <= x < |Positions([g] + rest)| ==> lo <= Positions([g] + rest)[x] < hi
  {
    PositionsCons(g, rest);
    RiseConcat([g.start] + g.members, Positions(rest), lo, mid, hi);
  }

  /** One turn of the scan: the plan from `i` is what it emits at `i`
      followed by the plan from the next position; what it emits is no
      group, or the group opened at `i`, whose run ends at the next
      position. */
  lemma PlanStep(bs: seq<Block>, i: nat)
    requires i < |bs|
    ensures Head(bs, i) == [] ==> PlanFrom(bs, i) == PlanFrom(bs, Next(bs, i))
    ensures Head(bs, i) != [] ==>
      && Head(bs, i) == [GroupAt(bs, i)]
      && Next(bs, i) == RunEnd(bs, i + 1)
      && PlanFrom(bs, i) == [GroupAt(bs, i)] + PlanFrom(bs, Next(bs, i))
  {
    assert [] + PlanFrom(bs, Next(bs, i)) == PlanFrom(bs, Next(bs, i));
  }

  /** An increasing run inside `[lo, mid)` followed by an increasing run
      inside `[mid, hi)` is an increasing run inside `[lo, hi)`. */
  lemma RiseConcat(s: seq<nat>, t: seq<nat>, lo: nat, mid: nat, hi: nat)
    requires Increasing(s) && Increasing(t) && lo <= mid <= hi
    requires forall x :: 0 <= x < |s| ==> lo <= s[x] < mid
    requires forall y :: 0 <= y < |t| ==> mid <= t[y] < hi
    ensures Increasing(s + t)
    ensures forall x :: 0 <= x < |s + t| ==> lo <= (s + t)[x] < hi
  {
    IncreasingConcat(s, t, mid);
    forall x | 0 <= x < |s + t| ensures lo <= (s + t)[x] < hi {
      if x < |s| {
        assert (s + t)[x] == s[x];
      } else {
        assert (s + t)[x] == t[x - |s|];
      }
    }
  }

  /** No gathered block is lost: every content block that is neither noise
      nor a discarded table-of-contents line, at `i` or later, is in one of
      the chunks from `i` on. */
  lemma {:induction false} PlanCovers(bs: seq<Block>, i: nat, k: nat)
    requires i <= k < |bs| && Gathered(bs[k])
    ensures k in Positions(PlanFrom(bs, i))
    decreases |bs| - i
  {
    var hs := Head(bs, i);
    var e := Next(bs, i);
    var rest := PlanFrom(bs, e);
    assert PlanFrom(bs, i) == hs + rest;
    if k < e {
      assert Opens(bs[i]) by {
        if k == i {
          assert Gathered(bs[i]);
        }
      }
      var g := GroupAt(bs, i);
      if k > i {
        MembersComplete(bs, i + 1, e);
        assert k in g.members;
      }
      assert hs == [g];
      PositionsCons(g, rest);
    } else {
      PlanCovers(bs, e, k);
      if hs == [] {
        assert hs + rest == rest;
      } else {
        PositionsCons(hs[0], rest);
      }
    }
  }

  /** Every chunk comes from a group the scan can emit: its block ids are
      those of the group's first block and members, in order; it carries
      the page, section and chunk id of the first block; a titled chunk
      has the stripped title, which is never empty, and at least one
      gathered block besides the title; a titleless one has the title "". */
  lemma ChunkShape(bs: seq<Block>, n: nat)
    requires n < |EmbeddingChunks(bs)|
    ensures |PlanFrom(bs, 0)| == |EmbeddingChunks(bs)|
    ensures var c := EmbeddingChunks(bs)[n];
      var g := PlanFrom(bs, 0)[n];
      && GroupOk(bs, g)
      && c == RenderGroup(bs, g)
      && c.blockIds == Ids(bs, [g.start] + g.members)
      && c.blockIds[0] == bs[g.start].blockId
      && c.page == bs[g.start].page && c.sectionId == bs[g.start].sectionId
      && c.chunkId == bs[g.start].chunkId
      && (g.titled ==> c.title == Strip(bs[g.start].text) && |c.blockIds| >= 2)
      && (c.title != "" <==> g.titled)
  {
    ChunksArePlan(bs, 0);
    PlanShape(bs, 0);
    var g := PlanFrom(bs, 0)[n];
    FirstOfGroup(bs, g);
  }

  /** A section title followed by one paragraph gives a single chunk: the
      stripped title, the paragraph's stripped text as content, the title
      block's page, section and chunk id, and both block ids. */
  lemma TitleThenParagraph(t: Block, p: Block)
    requires t.kind == Title && !t.isNoise && !AuthorLike(Strip(t.text))
    requires p.kind == Paragraph && !p.isNoise
    ensures EmbeddingChunks([t, p]) == [Chunk(Strip(t.text), Strip(p.text), t.page,
      t.sectionId, t.sectionTitle, t.chunkId, [t.blockId, p.blockId])]
  {
    var bs := [t, p];
    assert RunEnd(bs, 2) == 2;
    assert RunEnd(bs, 1) == 2;
    assert Members(bs, 1, 1) == [];
    assert Members(bs, 1, 2) == [1];
    var g := Group(0, true, [1]);
    assert GroupAt(bs, 0) == g;
    assert Texts(bs, [1]) == [Strip(p.text)];
    assert Join([Strip(p.text)], "\n\n") == Strip(p.text);
    assert Ids(bs, [0, 1]) == [t.blockId, p.blockId];
    assert !ShouldDiscardToc(t);
    assert Opens(bs[0]) && Emits(g);
    assert RenderGroup(bs, g) == Chunk(Strip(t.text), Strip(p.text), t.page,
      t.sectionId, t.sectionTitle, t.chunkId, [t.blockId, p.blockId]);
    assert Emitted(bs, 0) == [Chunk(Strip(t.text), Strip(p.text), t.page,
      t.sectionId, t.sectionTitle, t.chunkId, [t.blockId, p.blockId])];
    ChunksStep(bs, 0);
    assert ChunksFrom(bs, 2) == [];
  }

  /** A title with nothing under it but another title gives no chunk, and
      neither does the last one. */
  lemma LoneTitlesDropped(t: Block, u: Block)
    requires t.kind == Title && u.kind == Title
    ensures EmbeddingChunks([t, u]) == []
  {
    var bs := [t, u];
    assert RunEnd(bs, 2) == 2 && RunEnd(bs, 1) == 1;
    assert Members(bs, 1, 1) == [] && Members(bs, 2, 2) == [];
    assert Emitted(bs, 0) == [] && Emitted(bs, 1) == [];
    ChunksStep(bs, 0);
    ChunksStep(bs, 1);
  }
}
