/** `extract_structure`: one block per parser element, in order, annotated
    with the section it falls in (opened by the most recent title), its
    position among the blocks of its page and of its section, its noise
    flag and its normalized text; then the boilerplate pass. */
module Structure {
  import opened PyStr
  import opened Classify
  import opened Format
  import opened Normalize
  import opened Slug
  import opened Noise
  import opened Schema
  import opened Boilerplate

  // ---- Reading an element ----

  /** `el.get("category") or el.get("type") or ""`, stripped. */
  function CategoryOf(el: Element): string {
    var c :=
      if el.category.Some? && el.category.value != [] then el.category.value
      else if el.typeLabel.Some? && el.typeLabel.value != [] then el.typeLabel.value
      else "";
    Strip(c)
  }

  function KindOf(el: Element): BlockType {
    BlockTypeOf(CategoryOf(el))
  }

  /** `el.get("text", "")`, with `None` read as "". */
  function TextOf(el: Element): string {
    if el.text.Some? then el.text.value else ""
  }

  /** A page field Python treats as true in `x or y`. */
  predicate Truthy(f: PageField) {
    f == Unparseable || (f.Number? && f.n != 0)
  }

  /** `el.get("page_number") or el.get("page")`, then `int(...)`, with 0 for
      a missing value or one `int()` rejects. */
  function PageOf(el: Element): (page: int)
    ensures el.pageNumber.Number? && el.pageNumber.n != 0 ==> page == el.pageNumber.n
    ensures el.pageNumber == Unparseable ==> page == 0
    ensures !Truthy(el.pageNumber) ==> page == (if el.page.Number? then el.page.n else 0)
  {
    var f := if Truthy(el.pageNumber) then el.pageNumber else el.page;
    if f.Number? then f.n else 0
  }

  /** What the loop takes from one element: the four fields it reads off
      it, and what it derives from the element's text alone: the section id
      the element opens if it is a title, and its normalized text. */
  datatype Reading = Reading(
    kind: BlockType,
    text: string,
    page: int,
    bbox: Option<BBox>,
    slug: string,
    normalized: string)

  function Read(el: Element): Reading {
    var kind := KindOf(el);
    var text := TextOf(el);
    Reading(kind, text, PageOf(el), el.bbox, SlugOf(text), NormalizeText(text))
  }

  /** The readings of the elements, in order. */
  function Readings(els: seq<Element>): (rs: seq<Reading>)
    ensures |rs| == |els|
  {
    if els == [] then [] else Readings(els[..|els| - 1]) + [Read(els[|els| - 1])]
  }

  /** Reading `k` is that of element `k`. */
  lemma {:induction false} ReadingsAt(els: seq<Element>, k: nat)
    requires k < |els|
    ensures Readings(els)[k] == Read(els[k])
  {
    if k < |els| - 1 {
      ReadingsAt(els[..|els| - 1], k);
    }
  }

  // ---- The loop state ----

  /** The variables the loop of `extract_structure` carries from one element
      to the next. */
  datatype Cursor = Cursor(
    sectionId: string,
    sectionTitle: string,
    pageCounter: map<int, nat>,
    sectionBlockIndex: map<string, nat>)

  /** The state before the first element: the untitled section, no counts. */
  const Start: Cursor := Cursor(Untitled, "", map[], map[])

  /** One iteration's update for reading `r`: a title opens a new section;
      then the block is counted in its section and on its page. */
  function Advance(c: Cursor, r: Reading): Cursor {
    var sid := if r.kind == Title then r.slug else c.sectionId;
    var title := if r.kind == Title then Strip(r.text) else c.sectionTitle;
    Cursor(sid, title,
      c.pageCounter[r.page := GetOr(c.pageCounter, r.page, 0) + 1],
      c.sectionBlockIndex[sid := GetOr(c.sectionBlockIndex, sid, 0) + 1])
  }

  /** The state once the first `n` readings are taken in. What it holds,
      CursorSection, CursorPages and CursorSections state. */
  function CursorAfter(rs: seq<Reading>, n: nat): Cursor
    requires n <= |rs|
  {
    if n == 0 then Start else Advance(CursorAfter(rs, n - 1), rs[n - 1])
  }

  // ---- The blocks ----

  /** The block for element `k` with reading `r`, given the state `c` after
      it: the section it falls in and its two counters. */
  function BlockOf(k: nat, r: Reading, c: Cursor): Block {
    Block(BlockId(k), r.kind, r.text, r.page, r.bbox, c.sectionId, c.sectionTitle,
      HierarchyLevel(r.kind),
      ChunkId(r.page, c.sectionId, GetOr(c.sectionBlockIndex, c.sectionId, 0)),
      GetOr(c.pageCounter, r.page, 0),
      IsNoise(r.kind, r.text, c.sectionTitle), r.normalized)
  }

  /** The block the loop appends for element `k`, before the boilerplate
      pass: the state after the element gives its section and counters. */
  function BlockAt(rs: seq<Reading>, k: nat): Block
    requires k < |rs|
  {
    BlockOf(k, rs[k], CursorAfter(rs, k + 1))
  }

  /** The first `n` blocks, in order. */
  function AnnotateUpTo(rs: seq<Reading>, n: nat): (bs: seq<Block>)
    requires n <= |rs|
    ensures |bs| == n
  {
    if n == 0 then [] else AnnotateUpTo(rs, n - 1) + [BlockAt(rs, n - 1)]
  }

  function Annotate(rs: seq<Reading>): (bs: seq<Block>)
    ensures |bs| == |rs|
  {
    AnnotateUpTo(rs, |rs|)
  }

  /** Block `k` among the first `n` is the one appended for element `k`. */
  lemma {:induction false} AnnotateAt(rs: seq<Reading>, n: nat, k: nat)
    requires k < n <= |rs|
    ensures AnnotateUpTo(rs, n)[k] == BlockAt(rs, k)
  {
    if k < n - 1 {
      AnnotateAt(rs, n - 1, k);
    }
  }

  /** The structure built from the readings of the elements. */
  function Build(rs: seq<Reading>): Extraction {
    Extraction("unknown", MarkBoilerplate(Annotate(rs)))
  }

  /** What `extract_structure(elements)` returns. */
  function ExtractionOf(els: seq<Element>): Extraction {
    Build(Readings(els))
  }

  /** The loop of `extract_structure`: one block per element, in order. */
  method AnnotateElements(elements: seq<Element>) returns (blocks: seq<Block>)
    ensures blocks == Annotate(Readings(elements))
  {
    ghost var rs := Readings(elements);
    blocks := [];
    var currentSectionId := Untitled;
    var currentSectionTitle := "";
    var pageCounter: map<int, nat> := map[];
    var sectionBlockIndex: map<string, nat> := map[];

    for i := 0 to |elements|
      invariant blocks == AnnotateUpTo(rs, i)
      invariant Cursor(currentSectionId, currentSectionTitle, pageCounter, sectionBlockIndex) == CursorAfter(rs, i)
      invariant currentSectionId != []
    {
      ReadingsAt(elements, i);
      currentSectionId, currentSectionTitle, pageCounter, sectionBlockIndex :=
        NextState(elements[i], currentSectionId, currentSectionTitle, pageCounter, sectionBlockIndex);
      var block := MakeBlock(elements[i], i, currentSectionId, currentSectionTitle, pageCounter, sectionBlockIndex);
      assert AnnotateUpTo(rs, i + 1) == AnnotateUpTo(rs, i) + [BlockOf(i, rs[i], CursorAfter(rs, i + 1))];
      blocks := blocks + [block];
    }
  }

  /** The first half of the loop body for element `el`: a title opens a
      section (its slug and trimmed text), then the block is counted in its
      section and on its page. The new loop variables are the state
      `Advance` gives. */
  method NextState(el: Element, sectionId: string, sectionTitle: string,
                   pageCounter: map<int, nat>, sectionBlockIndex: map<string, nat>)
    returns (nextSectionId: string, nextSectionTitle: string,
             nextPageCounter: map<int, nat>, nextSectionBlockIndex: map<string, nat>)
    requires sectionId != []
    ensures nextSectionId != []
    ensures Cursor(nextSectionId, nextSectionTitle, nextPageCounter, nextSectionBlockIndex)
      == Advance(Cursor(sectionId, sectionTitle, pageCounter, sectionBlockIndex), Read(el))
  {
    var blockType := BlockTypeOf(CategoryOf(el));
    var text := TextOf(el);
    var page := PageOf(el);
    ghost var r := Read(el);
    assert r.kind == blockType && r.text == text && r.page == page && r.slug == SlugOf(text);
    nextSectionId, nextSectionTitle := sectionId, sectionTitle;
    if blockType == Title {
      nextSectionId := SlugOf(text);
      nextSectionTitle := Strip(text);
    }
    nextSectionBlockIndex := sectionBlockIndex[nextSectionId := GetOr(sectionBlockIndex, nextSectionId, 0) + 1];
    nextPageCounter := pageCounter[page := GetOr(pageCounter, page, 0) + 1];
  }

  /** The second half: the annotated block for element `i`, built from the
      updated loop variables. Its chunk id and index in the page are the
      counts just taken; `current_section_id or "basliksiz"` is the section
      id itself, which is never empty. */
  method MakeBlock(el: Element, i: nat, sectionId: string, sectionTitle: string,
                   pageCounter: map<int, nat>, sectionBlockIndex: map<string, nat>)
    returns (block: Block)
    requires sectionId != []
    ensures block == BlockOf(i, Read(el), Cursor(sectionId, sectionTitle, pageCounter, sectionBlockIndex))
  {
    var blockType := BlockTypeOf(CategoryOf(el));
    var text := TextOf(el);
    var page := PageOf(el);
    var chunkId := ChunkId(page, sectionId, GetOr(sectionBlockIndex, sectionId, 0));
    var blockIndexInPage := GetOr(pageCounter, page, 0);
    var normText := NormalizeText(text);
    var noise := IsNoise(blockType, text, sectionTitle);
    block := Block(
      BlockId(i), blockType, text, page, el.bbox,
      if sectionId == [] then Untitled else sectionId,
      if sectionTitle == [] then "" else sectionTitle,
      HierarchyLevel(blockType), chunkId, blockIndexInPage, noise, normText);
  }

  /** `extract_structure(elements)`: the blocks of the loop, then the
      boilerplate pass over them in place. */
  method ExtractStructure(elements: seq<Element>) returns (result: Extraction)
    ensures result == ExtractionOf(elements)
  {
    var blocks := AnnotateElements(elements);
    var arr := ToArray(blocks);
    MarkBoilerplateNoise(arr);
    result := Extraction("unknown", arr[..]);
  }

  /** A fresh array holding `s`. */
  method ToArray(s: seq<Block>) returns (arr: array<Block>)
    ensures fresh(arr) && arr[..] == s
  {
    arr := new Block[|s|](k requires 0 <= k < |s| => s[k]);
    assert arr[..] == s;
  }

  // ---- What the loop state holds ----

  /** The position of the last title among the first `n` readings. */
  function LastTitle(rs: seq<Reading>, n: nat): (r: Option<nat>)
    requires n <= |rs|
    ensures r.Some? ==> r.value < n && rs[r.value].kind == Title
    ensures r.Some? ==> forall k :: r.value < k < n ==> rs[k].kind != Title
    ensures r.None? <==> forall k :: 0 <= k < n ==> rs[k].kind != Title
  {
    if n == 0 then None
    else if rs[n - 1].kind == Title then Some(n - 1)
    else LastTitle(rs, n - 1)
  }

  /** The section id in force once the first `n` elements are read. */
  function SectionIdBefore(rs: seq<Reading>, n: nat): string
    requires n <= |rs|
  {
    match LastTitle(rs, n)
    case None => Untitled
    case Some(j) => rs[j].slug
  }

  /** The section title in force once the first `n` elements are read. */
  function SectionTitleBefore(rs: seq<Reading>, n: nat): string
    requires n <= |rs|
  {
    match LastTitle(rs, n)
    case None => ""
    case Some(j) => Strip(rs[j].text)
  }

  /** Title `j` opens the section that element `k` belongs to. */
  predicate OpensSection(rs: seq<Reading>, j: nat, k: nat) {
    && j <= k < |rs|
    && rs[j].kind == Title
    && forall m :: j < m <= k ==> rs[m].kind != Title
  }

  /** Title `j` opening the section of element `k` is the last title among
      the first k + 1 elements. */
  lemma Opener(rs: seq<Reading>, j: nat, k: nat)
    requires OpensSection(rs, j, k)
    ensures LastTitle(rs, k + 1) == Some(j)
  {
    var r := LastTitle(rs, k + 1);
    assert r.Some?;
    assert j <= r.value;
    assert r.value <= j;
  }

  /** After `n` elements the section part of the state is that of the last
      title among them, or the untitled section when there is none. */
  lemma {:induction false} CursorSection(rs: seq<Reading>, n: nat)
    requires n <= |rs|
    ensures CursorAfter(rs, n).sectionId == SectionIdBefore(rs, n)
    ensures CursorAfter(rs, n).sectionTitle == SectionTitleBefore(rs, n)
  {
    if n > 0 {
      CursorSection(rs, n - 1);
    }
  }

  function PageSeq(rs: seq<Reading>): (ps: seq<int>)
    ensures |ps| == |rs|
  {
    seq(|rs|, k requires 0 <= k < |rs| => rs[k].page)
  }

  /** The section ids of the first `n` blocks. */
  function SectionIdsUpTo(rs: seq<Reading>, n: nat): (ids: seq<string>)
    requires n <= |rs|
    ensures |ids| == n
  {
    if n == 0 then [] else SectionIdsUpTo(rs, n - 1) + [SectionIdBefore(rs, n)]
  }

  function SectionSeq(rs: seq<Reading>): (ss: seq<string>)
    ensures |ss| == |rs|
  {
    SectionIdsUpTo(rs, |rs|)
  }

  /** Entry `k` of the section ids is the one in force after element `k`. */
  lemma {:induction false} SectionIdsAt(rs: seq<Reading>, n: nat, k: nat)
    requires k < n <= |rs|
    ensures SectionIdsUpTo(rs, n)[k] == SectionIdBefore(rs, k + 1)
  {
    if k < n - 1 {
      SectionIdsAt(rs, n - 1, k);
    }
  }

  /** How many of the first `n` entries of `s` equal `x`. */
  function CountUpTo<T(==)>(s: seq<T>, x: T, n: nat): nat
    requires n <= |s|
  {
    if n == 0 then 0 else CountUpTo(s, x, n - 1) + (if s[n - 1] == x then 1 else 0)
  }

  /** How many of `s[0..k]` equal `s[k]`, `s[k]` itself included. */
  function Occurrence<T(==)>(s: seq<T>, k: nat): nat
    requires k < |s|
  {
    CountUpTo(s, s[k], k + 1)
  }

  /** One step of a counter map: incrementing the entry of `s[i]` keeps the
      entry of every `x` equal to its count in the prefix. */
  lemma CounterStep<T>(s: seq<T>, i: nat, before: map<T, nat>, key: T, after: map<T, nat>, x: T)
    requires i < |s| && key == s[i]
    requires GetOr(before, x, 0) == CountUpTo(s, x, i)
    requires after == before[key := GetOr(before, key, 0) + 1]
    ensures GetOr(after, x, 0) == CountUpTo(s, x, i + 1)
  {
  }

  /** After `n` elements the page counter holds, for every page, the number
      of those elements on it. */
  lemma {:induction false} CursorPages(rs: seq<Reading>, n: nat)
    requires n <= |rs|
    ensures forall p :: GetOr(CursorAfter(rs, n).pageCounter, p, 0) == CountUpTo(PageSeq(rs), p, n)
  {
    if n > 0 {
      CursorPages(rs, n - 1);
      var before := CursorAfter(rs, n - 1).pageCounter;
      var after := CursorAfter(rs, n).pageCounter;
      assert after == before[rs[n - 1].page := GetOr(before, rs[n - 1].page, 0) + 1];
      forall p ensures GetOr(after, p, 0) == CountUpTo(PageSeq(rs), p, n) {
        CounterStep(PageSeq(rs), n - 1, before, rs[n - 1].page, after, p);
      }
    }
  }

  /** After `n` elements the section counter holds, for every section id,
      the number of those elements in it. */
  lemma {:induction false} CursorSections(rs: seq<Reading>, n: nat)
    requires n <= |rs|
    ensures forall s :: GetOr(CursorAfter(rs, n).sectionBlockIndex, s, 0) == CountUpTo(SectionSeq(rs), s, n)
  {
    if n > 0 {
      CursorSections(rs, n - 1);
      CursorSection(rs, n);
      SectionIdsAt(rs, |rs|, n - 1);
      var before := CursorAfter(rs, n - 1);
      var after := CursorAfter(rs, n);
      assert after == Advance(before, rs[n - 1]);
      forall x ensures GetOr(after.sectionBlockIndex, x, 0) == CountUpTo(SectionSeq(rs), x, n) {
        CounterStep(SectionSeq(rs), n - 1, before.sectionBlockIndex, after.sectionId, after.sectionBlockIndex, x);
      }
    }
  }

  // ---- One field of one block ----

  /** The fields of block `k` that come from its reading. */
  lemma BlockFields(rs: seq<Reading>, k: nat)
    requires k < |rs|
    ensures |Build(rs).blocks| == |rs|
    ensures Build(rs).blocks[k].blockId == BlockId(k)
    ensures Build(rs).blocks[k].kind == rs[k].kind
    ensures Build(rs).blocks[k].text == rs[k].text
    ensures Build(rs).blocks[k].page == rs[k].page
    ensures Build(rs).blocks[k].bbox == rs[k].bbox
    ensures Build(rs).blocks[k].hierarchyLevel == HierarchyLevel(rs[k].kind)
    ensures Build(rs).blocks[k].normalizedText == rs[k].normalized
  {
    AnnotateAt(rs, |rs|, k);
    MarkOnlyNoise(Annotate(rs), k);
  }

  lemma BlockSection(rs: seq<Reading>, k: nat)
    requires k < |rs|
    ensures |Build(rs).blocks| == |rs|
    ensures Build(rs).blocks[k].sectionId == SectionSeq(rs)[k]
    ensures Build(rs).blocks[k].sectionId == SectionIdBefore(rs, k + 1)
    ensures Build(rs).blocks[k].sectionTitle == SectionTitleBefore(rs, k + 1)
  {
    AnnotateAt(rs, |rs|, k);
    MarkOnlyNoise(Annotate(rs), k);
    CursorSection(rs, k + 1);
    SectionIdsAt(rs, |rs|, k);
  }

  lemma BlockCounters(rs: seq<Reading>, k: nat)
    requires k < |rs|
    ensures |Build(rs).blocks| == |rs|
    ensures Build(rs).blocks[k].indexInPage == Occurrence(PageSeq(rs), k)
    ensures Build(rs).blocks[k].chunkId == ChunkId(PageSeq(rs)[k], SectionSeq(rs)[k], Occurrence(SectionSeq(rs), k))
  {
    AnnotateAt(rs, |rs|, k);
    MarkOnlyNoise(Annotate(rs), k);
    CursorSection(rs, k + 1);
    SectionIdsAt(rs, |rs|, k);
    CursorPages(rs, k + 1);
    CursorSections(rs, k + 1);
  }

  // ---- What the result says ----

  /** One block per element, in order, with `block_id` "block_k", carrying
      the element's type, text, page and box, the level of its type and its
      normalized text. */
  lemma ExtractionShape(els: seq<Element>, k: nat)
    requires k < |els|
    ensures ExtractionOf(els).documentType == "unknown"
    ensures |ExtractionOf(els).blocks| == |els|
    ensures ExtractionOf(els).blocks[k].blockId == BlockId(k)
    ensures ExtractionOf(els).blocks[k].kind == KindOf(els[k])
    ensures ExtractionOf(els).blocks[k].text == TextOf(els[k])
    ensures ExtractionOf(els).blocks[k].page == PageOf(els[k])
    ensures ExtractionOf(els).blocks[k].bbox == els[k].bbox
    ensures ExtractionOf(els).blocks[k].hierarchyLevel == HierarchyLevel(KindOf(els[k]))
    ensures ExtractionOf(els).blocks[k].normalizedText == NormalizeText(TextOf(els[k]))
  {
    ReadingsAt(els, k);
    BlockFields(Readings(els), k);
  }

  /** Distinct blocks have distinct block ids. */
  lemma BlockIdsUnique(rs: seq<Reading>, j: nat, k: nat)
    requires j < |rs| && k < |rs| && j != k
    ensures Build(rs).blocks[j].blockId != Build(rs).blocks[k].blockId
  {
    BlockFields(rs, j);
    BlockFields(rs, k);
    if BlockId(j) == BlockId(k) {
      BlockIdInjective(j, k);
    }
  }

  /** A block after title `j`, with no title in between, carries the slug of
      that title as its section id and the trimmed title as its section
      title. (The slug of reading `j` is `SlugOf` of its text, see Read.) */
  lemma SectionOpened(rs: seq<Reading>, j: nat, k: nat)
    requires OpensSection(rs, j, k)
    ensures |Build(rs).blocks| == |rs|
    ensures Build(rs).blocks[k].sectionId == rs[j].slug
    ensures Build(rs).blocks[k].sectionTitle == Strip(rs[j].text)
  {
    Opener(rs, j, k);
    BlockSection(rs, k);
  }

  /** A block before the first title is in the untitled section. */
  lemma SectionBeforeAnyTitle(rs: seq<Reading>, k: nat)
    requires k < |rs|
    requires forall m :: 0 <= m <= k ==> rs[m].kind != Title
    ensures |Build(rs).blocks| == |rs|
    ensures Build(rs).blocks[k].sectionId == Untitled
    ensures Build(rs).blocks[k].sectionTitle == ""
  {
    assert LastTitle(rs, k + 1) == None;
    BlockSection(rs, k);
  }

  /** Every section id has the slug shape; in particular it is never empty,
      so the fallback `or "basliksiz"` never applies. */
  lemma SectionIdShaped(els: seq<Element>, k: nat)
    requires k < |els|
    ensures |ExtractionOf(els).blocks| == |els|
    ensures SlugShaped(ExtractionOf(els).blocks[k].sectionId)
  {
    var rs := Readings(els);
    BlockSection(rs, k);
    match LastTitle(rs, k + 1)
    case None => UntitledShaped();
    case Some(j) => ReadingsAt(els, j);
  }

  /** The count of `x` among the first `n` entries is the number of
      positions below `n` holding `x`. */
  lemma {:induction false} CountIsIndexSet<T>(s: seq<T>, x: T, n: nat)
    requires n <= |s|
    ensures CountUpTo(s, x, n) == |set j | 0 <= j < n && s[j] == x|
  {
    if n > 0 {
      CountIsIndexSet(s, x, n - 1);
      var below := set j | 0 <= j < n - 1 && s[j] == x;
      if s[n - 1] == x {
        assert (set j | 0 <= j < n && s[j] == x) == below + {n - 1};
      } else {
        assert (set j | 0 <= j < n && s[j] == x) == below;
      }
    }
  }

  /** Counting further along never counts fewer. */
  lemma {:induction false} CountGrows<T>(s: seq<T>, x: T, m: nat, n: nat)
    requires m <= n <= |s|
    ensures CountUpTo(s, x, m) <= CountUpTo(s, x, n)
    decreases n
  {
    if m < n {
      CountGrows(s, x, m, n - 1);
    }
  }

  /** The positions up to `k` holding the value at `k`. */
  function PositionsLike<T(==)>(s: seq<T>, k: nat): set<nat>
    requires k < |s|
  {
    set j | 0 <= j <= k && s[j] == s[k]
  }

  /** The positions up to `k` of blocks on the page of block `k`. */
  function SamePage(bs: seq<Block>, k: nat): set<nat>
    requires k < |bs|
  {
    set j | 0 <= j <= k && bs[j].page == bs[k].page
  }

  /** The positions up to `k` of blocks in the section of block `k`. */
  function SameSection(bs: seq<Block>, k: nat): set<nat>
    requires k < |bs|
  {
    set j | 0 <= j <= k && bs[j].sectionId == bs[k].sectionId
  }

  /** The occurrence number of position `k` counts the positions up to `k`
      holding the same value. */
  lemma OccurrenceCounts<T>(s: seq<T>, k: nat)
    requires k < |s|
    ensures Occurrence(s, k) == |PositionsLike(s, k)|
  {
    CountIsIndexSet(s, s[k], k + 1);
    assert PositionsLike(s, k) == (set j | 0 <= j < k + 1 && s[j] == s[k]);
  }

  /** Every block's page is the page its element was read with. */
  lemma PagesAgree(rs: seq<Reading>)
    ensures |Build(rs).blocks| == |rs|
    ensures forall j :: 0 <= j < |rs| ==> Build(rs).blocks[j].page == PageSeq(rs)[j]
  {
    forall j | 0 <= j < |rs| ensures Build(rs).blocks[j].page == PageSeq(rs)[j] {
      BlockFields(rs, j);
    }
  }

  /** Every block's section id is the cursor after its element. */
  lemma SectionsAgree(rs: seq<Reading>)
    ensures |Build(rs).blocks| == |rs|
    ensures forall j :: 0 <= j < |rs| ==> Build(rs).blocks[j].sectionId == SectionSeq(rs)[j]
  {
    forall j | 0 <= j < |rs| ensures Build(rs).blocks[j].sectionId == SectionSeq(rs)[j] {
      BlockSection(rs, j);
    }
  }

  /** Counting blocks on a page is counting positions of a page sequence the
      blocks agree with. */
  lemma SamePageAsPositions(bs: seq<Block>, ps: seq<int>, k: nat)
    requires k < |bs| == |ps|
    requires forall j :: 0 <= j < |bs| ==> bs[j].page == ps[j]
    ensures SamePage(bs, k) == PositionsLike(ps, k)
  {
  }

  /** The same for section ids. */
  lemma SameSectionAsPositions(bs: seq<Block>, ss: seq<string>, k: nat)
    requires k < |bs| == |ss|
    requires forall j :: 0 <= j < |bs| ==> bs[j].sectionId == ss[j]
    ensures SameSection(bs, k) == PositionsLike(ss, k)
  {
  }

  /** `block_index_in_page` of block k is the number of blocks at positions
      up to k on its page. */
  lemma IndexInPageCounts(rs: seq<Reading>, k: nat)
    requires k < |rs|
    ensures |Build(rs).blocks| == |rs|
    ensures Build(rs).blocks[k].indexInPage == |SamePage(Build(rs).blocks, k)|
  {
    BlockCounters(rs, k);
    OccurrenceCounts(PageSeq(rs), k);
    PagesAgree(rs);
    SamePageAsPositions(Build(rs).blocks, PageSeq(rs), k);
  }

  /** The counter in `chunk_id` is the number of blocks at positions up to k
      in the same section. */
  lemma ChunkCounterCounts(rs: seq<Reading>, k: nat)
    requires k < |rs|
    ensures |Build(rs).blocks| == |rs|
    ensures Build(rs).blocks[k].chunkId ==
      ChunkId(Build(rs).blocks[k].page, Build(rs).blocks[k].sectionId, |SameSection(Build(rs).blocks, k)|)
  {
    BlockCounters(rs, k);
    BlockFields(rs, k);
    OccurrenceCounts(SectionSeq(rs), k);
    SectionsAgree(rs);
    SameSectionAsPositions(Build(rs).blocks, SectionSeq(rs), k);
  }

  /** A later position holding the same value has a larger occurrence
      number. */
  lemma OccurrenceIncreases<T>(s: seq<T>, j: nat, k: nat)
    requires j < k < |s| && s[j] == s[k]
    ensures Occurrence(s, j) < Occurrence(s, k)
  {
    CountGrows(s, s[k], j + 1, k);
  }

  /** No two blocks share a chunk id, even in two sections whose headings
      slug alike: the counter is kept per section id, across pages. */
  lemma ChunkIdsUnique(rs: seq<Reading>, j: nat, k: nat)
    requires j < k < |rs|
    ensures Build(rs).blocks[j].chunkId != Build(rs).blocks[k].chunkId
  {
    var ss := SectionSeq(rs);
    var ps := PageSeq(rs);
    BlockCounters(rs, j);
    BlockCounters(rs, k);
    if ChunkId(ps[j], ss[j], Occurrence(ss, j)) == ChunkId(ps[k], ss[k], Occurrence(ss, k)) {
      ChunkIdInjective(ps[j], ss[j], Occurrence(ss, j), ps[k], ss[k], Occurrence(ss, k));
      OccurrenceIncreases(ss, j, k);
    }
  }

  /** The noise flag is the rule cascade on the block's own text and its
      section title, widened by the boilerplate pass. */
  lemma NoiseFlag(els: seq<Element>, k: nat)
    requires k < |els|
    ensures var bs := ExtractionOf(els).blocks;
      |bs| == |els| &&
      bs[k].isNoise == (IsNoise(bs[k].kind, bs[k].text, bs[k].sectionTitle)
        || Repeated(bs, bs[k].normalizedText))
  {
    var rs := Readings(els);
    var a := Annotate(rs);
    ReadingsAt(els, k);
    AnnotateAt(rs, |rs|, k);
    MarkExactly(a, k);
    MarkOnlyNoise(a, k);
    MarkKeepsPages(a);
  }
}
