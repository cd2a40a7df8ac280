# Structure extraction and retrieval chunking, modelled in Dafny

The system turns the elements a document parser emits (a category, a text, a
page, a bounding box) into an annotated block list, and then turns that list
into retrieval chunks for an embedding index. It all lives in `main.py`.

- **Classification.** A parser category maps to one of seven block types
  (`_block_type`). Each type has a hierarchy level (`_hierarchy_level`).
- **Strings.** A heading becomes a section id (`_slug`). Every text gets a
  whitespace-normalized form (`_normalize_text`).
- **Noise.** An ordered cascade of eleven rules flags page furniture, dates,
  copyright lines, links, table-of-contents entries and UI instructions as
  noise (`_is_noise`).
- **Structure.** `extract_structure` makes one pass over the elements. It
  builds one block per element and tracks the current section (opened by
  the most recent title). It keeps a counter per page and a counter per
  section id. Then, in place, `_mark_boilerplate_noise` marks as noise
  every block whose normalized text (25 characters or more) appears on
  three or more distinct pages.
- **Chunks.** `get_embedding_chunks` scans the blocks with nested loops. It
  passes over noise and discarded table-of-contents blocks
  (`_should_discard_toc`). A title that does not look like an author's name
  gathers the paragraphs, list items and tables up to the next title into
  one chunk, and emits it only when it gathered something. A content block
  outside such a run starts a chunk with no title.

## How the model is laid out

- `pystr.dfy` (PyStr): the Python `str` operations the code uses: `strip`,
  `split`, `join`, `lower`, `isdigit`, substring search.
- `classify.dfy` (Classify): block types and hierarchy levels.
- `format.dfy` (Format): decimal rendering and the `block_{i}` and
  `page_{p}_section_{s}_{n:03d}` identifiers.
- `normalize.dfy` (Normalize), `slug.dfy` (Slug): the two text functions.
- `patterns.dfy` (Patterns): the four regular expressions, each written as
  a predicate that says where a match lies.
- `noise.dfy` (Noise): the noise cascade and the table-of-contents discard.
- `schema.dfy` (Schema): elements, blocks, the extraction result and chunks.
- `structure.dfy` (Structure): the loop of `extract_structure`.
  - It is a method over the two counter maps.
  - Its `ensures` ties the result to a function of the elements (`Build`).
  - The section, counter and uniqueness guarantees are proved about that
    function.
- `boilerplate.dfy` (Boilerplate): the in-place pass, written as a method
  on an `array<Block>`. It is proved equal to `MarkBoilerplate` on the old
  contents.
- `chunks.dfy` (Chunks): the nested-loop scan.
  - It is proved equal to `EmbeddingChunks`.
  - A "plan" of groups is the start position, whether it is titled, and the
    gathered positions of each chunk.
  - The lemmas about the plan state order, disjointness, coverage and the
    shape of each chunk.

The link rule counts the characters of `" .,;"`, so full stops count too
(`Noise.UrlRule`). The per-section counter is keyed by the section id and
never reset, so chunk ids are unique across the document, even when two
headings slug alike (`Structure.ChunkIdsUnique`).

Python's `"İçindekiler".lower()` turns the dotted capital İ into `i`
followed by U+0307. So the rule for "içindekiler" does not catch that
capitalised Turkish heading (`Noise.CapitalIcindekilerEscapesRule`). The
model keeps this behaviour of the code.

## Model

| member | source | states |
|---|---|---|
| Classify.BlockTypeOf | main.py:36-50 | the type is `other` exactly when the category is none of the six known labels |
| Classify.BlockTypeOfInverse | main.py:36-50 | for each of the six types, exactly one category maps to it, its own label |
| Classify.HierarchyLevel | main.py:73-81 | the level lies in 1..4; it is 1 exactly for titles, 2 exactly for list items, 4 exactly for headers and footers |
| PyStr.TrimLeft | main.py:69 | `lstrip`, the leading-whitespace skip inside `split()`: a suffix of the input that does not start with whitespace, and only whitespace was removed |
| PyStr.TrimRight | main.py:58 | `rstrip`: a prefix of the input that does not end with whitespace, and only whitespace was removed; with TrimLeft it is the reference for `strip()` (PyStr.StripFacts) |
| PyStr.StripFacts | main.py:114 | `strip()` is `rstrip()` after `lstrip()`, so only leading and trailing whitespace is removed; the result is a trimmed substring of the input, empty exactly when the input is all whitespace, and a trimmed string is left unchanged |
| PyStr.SplitWords | main.py:69 | every word `split()` yields is non-empty and holds no whitespace |
| PyStr.LowerAppend | main.py:58 | `lower()` distributes over concatenation |
| PyStr.LowerKeepsLength | main.py:122 | `lower()` keeps the length of a string without the dotted capital İ |
| Normalize.NormalizeText | main.py:64-70 | the empty text normalizes to ""; the result is trimmed, has no two adjacent whitespace characters, and its only whitespace is plain spaces |
| Normalize.NormalizeKeepsWords | main.py:64-70 | normalizing keeps the sequence of words: `split()` of the result equals `split()` of the input |
| Normalize.NormalizeIdempotent | main.py:64-70 | normalizing a normalized text changes nothing |
| Normalize.SplitJoin | main.py:69 | joining words with single spaces and splitting again gives back the words |
| Slug.Translate | main.py:57-58 | the translation keeps the length; afterwards no space and no letter of `ıİğĞüÜşŞöÖçÇ` is left, and the characters of `[a-z0-9_]` are where they were |
| Slug.TransliterateTable | main.py:57 | each character of `ıİğĞüÜşŞöÖçÇ` and the space becomes its partner in `iIgGuUsSoOcC_`, every other character is kept, and no character of the left side is ever produced |
| Slug.ReplaceRunsFacts | main.py:59 | the replacement keeps the `[a-z0-9_]` characters in order and turns each maximal run of other characters into one `_` (it equals the position-by-position reading MarkRuns); so only allowed characters remain, and a string of allowed characters is unchanged |
| Slug.CollapseShape | main.py:60 | the collapse drops exactly the underscores directly followed by another (it equals the position-by-position reading Squeeze), so each run of `_` becomes one and the other characters stay in order; no `__` is left, only "" gives "", and the result starts with `_` exactly when the input does |
| Slug.StripUnderscores | main.py:60 | `strip("_")` leaves the input with underscores removed from its two ends only: the input is some `_`, then the result, then some `_`, and the result has no `_` at either end; it keeps allowed characters and the absence of `__` |
| Slug.SlugOf | main.py:53-61 | every slug is non-empty, made of `[a-z0-9_]`, has no `_` at either end and no `__`; the empty text gives "basliksiz" |
| Slug.SlugOfBlank | main.py:55-61 | a text of whitespace only gives "basliksiz" |
| Slug.SlugOfShaped | main.py:53-61 | a string already of slug shape is its own slug |
| Slug.SlugIdempotent | main.py:53-61 | slugging a slug changes nothing |
| Slug.SlugExample | main.py:53-61 | " 1. Giriş " becomes "1_giris" |
| Format.DecimalRoundTrip | main.py:203 | the decimal rendering of a natural number reads back as that number |
| Format.PadRoundTrip | main.py:203 | the `:03d` rendering has at least three digits and reads back as the number |
| Format.IntToStringInjective | main.py:203 | distinct integers render as distinct strings |
| Format.BlockIdInjective | main.py:212 | distinct positions give distinct `block_{i}` ids |
| Format.ChunkIdInjective | main.py:203 | the chunk id determines its page, section id and counter |
| Patterns.CopyrightYearSubsumed | main.py:91-94 | the alternative `©\s*\d{4}` only matches where the literal `©` already does |
| Patterns.TocLineNumbered | main.py:96 | a number, `.` or `)`, and an entry of 1 to 100 characters with no newline form a table-of-contents line |
| Patterns.TocLineStartsWithNumber | main.py:96 | every table-of-contents line starts, after whitespace, with a digit |
| Patterns.DateExample | main.py:85-90 | "12/05/2023" is a date |
| Patterns.NamedDateExample | main.py:85-90 | "12 Mayıs 2023" is a date, with the month name matched ignoring case |
| Patterns.CopyrightExample | main.py:91-94 | "Tüm Hakları Saklıdır" is a copyright line |
| Patterns.UrlExample | main.py:95 | "Bkz. www.example.com" carries a link marker |
| Noise.FirstFiresSome | main.py:106-143 | trying rules in order until one answers True answers True exactly when some rule fires, because no rule answers False |
| Noise.NoiseRules | main.py:106-143 | a block is noise exactly when at least one of the eleven rules holds, whatever their order |
| Noise.RuleFiresNoise | main.py:106-143 | each rule on its own is enough to make a block noise |
| Noise.HeaderFooterIsNoise | main.py:112-113 | headers and footers are always noise |
| Noise.BlankIsNoise | main.py:114-116 | a text of whitespace only is always noise |
| Noise.DigitsAreNoise | main.py:119-120 | a bare page number is always noise |
| Noise.NoiseSplits | main.py:106-143 | the section title matters through the table-of-contents section rule only |
| Noise.TocSectionIsNoise | main.py:133-134 | every block of a "Contents" section is noise |
| Noise.DateLineIsNoise | main.py:124-125 | a date line shorter than 80 characters is noise |
| Noise.DateIsNoise | main.py:124-125 | the paragraph "12/05/2023" is noise |
| Noise.CapitalIcindekilerEscapesRule | main.py:122-136 | the capitalised heading "İçindekiler" does not satisfy the "içindekiler" rule, because `lower()` turns İ into two characters |
| Noise.ShouldDiscardToc | main.py:256-271 | only blocks of type `other` are discarded; one is discarded exactly when its trimmed text is empty or all digits, mentions "içindekiler" or "contents" once lowercased, or holds four dots in a row |
| Noise.DotLeaderDiscarded | main.py:256-271 | the dotted entry "Giriş ..... 3" of type other is discarded |
| Structure.PageOf | main.py:187-193 | a non-zero integer `page_number` wins; a truthy `page_number` that `int()` rejects gives page 0; otherwise `page` is used, and a missing or unparseable one gives 0 |
| Structure.AnnotateElements | main.py:169-224 | the loop appends, element by element, exactly the blocks of `Annotate` on the elements' readings |
| Structure.NextState | main.py:197-206 | one iteration's update of the section and the two counters equals the step function Advance; the section, page-count and section-count guarantees are proved about the fold of Advance (Structure.CursorSection, CursorPages, CursorSections) |
| Structure.MakeBlock | main.py:208-224 | the block built from the updated loop variables equals the specified block BlockOf; what each field holds is proved about the whole list (Structure.ExtractionShape, SectionOpened, IndexInPageCounts, ChunkCounterCounts, NoiseFlag) |
| Structure.ExtractStructure | main.py:163-232 | the result is the "unknown" document type with the annotated blocks after the boilerplate pass |
| Structure.CursorSection | main.py:170-199 | after any prefix, the current section is that of the last title in it, or the untitled section |
| Structure.CursorPages | main.py:172-206 | after any prefix, the page counter holds, for every page, the number of those elements on that page |
| Structure.CursorSections | main.py:173-202 | after any prefix, the section counter holds, for every section id, the number of those elements in that section |
| Structure.ExtractionShape | main.py:175-232 | one block per element, in order, carrying `block_{k}`, the element's type, text, page and box, the level of its type and its normalized text |
| Structure.BlockIdsUnique | main.py:212 | no two blocks share a block id |
| Structure.SectionOpened | main.py:197-218 | a block after a title, with no title between them, carries that title's slug and trimmed text as its section |
| Structure.SectionBeforeAnyTitle | main.py:170-218 | a block before the first title is in the section "basliksiz" with an empty section title |
| Structure.SectionIdShaped | main.py:170-217 | every section id has the slug shape, so it is never empty |
| Structure.IndexInPageCounts | main.py:205-221 | `block_index_in_page` is the number of blocks up to and including this one on its page |
| Structure.ChunkCounterCounts | main.py:201-220 | the counter in `chunk_id` is the number of blocks up to and including this one in its section |
| Structure.ChunkIdsUnique | main.py:201-203 | no two blocks share a chunk id, even when two headings slug alike |
| Structure.NoiseFlag | main.py:209-227 | a block's noise flag is the cascade on its text and section title, or its text is repeated on three or more pages |
| Boilerplate.GroupByText | main.py:237-241 | each text of 25 characters or more is mapped to the increasing list of all positions holding it; no shorter text is a key |
| Boilerplate.MarkAll | main.py:245-246 | exactly the listed blocks get their noise flag set and nothing else changes |
| Boilerplate.MarkBoilerplateNoise | main.py:235-246 | in place, the blocks become `MarkBoilerplate` of the old blocks |
| Boilerplate.MarkMonotone | main.py:235-246 | marking never clears a noise flag |
| Boilerplate.MarkOnlyNoise | main.py:235-246 | marking changes no field except the noise flag |
| Boilerplate.MarkExactly | main.py:240-246 | a block ends up noise exactly when it was noise or its normalized text has 25 characters or more and occurs on three or more pages |
| Boilerplate.MarkIdempotent | main.py:235-246 | a second pass changes nothing |
| Boilerplate.MarkExample | main.py:235-246 | three copies of one long text on pages 1, 2 and 3 are all marked; a different text is not |
| Chunks.RunEndShape | main.py:300-303 | a run holds no title, and a run that stops before the end stops at a title |
| Chunks.MembersIncreasing | main.py:300-310 | a run gathers positions in increasing order |
| Chunks.MembersGathered | main.py:304-309 | every gathered block is a content block that is neither noise nor discarded |
| Chunks.MembersComplete | main.py:300-310 | every such content block of the run is gathered |
| Chunks.CollectRun | main.py:297-337 | the inner loop stops at the end of the run and appends the stripped texts and the ids of exactly the gathered blocks |
| Chunks.TitledRun | main.py:292-321 | a title run goes on at the end of its run and emits its chunk exactly when it gathered a block; this step is what the loop is proved equal to, and order, disjointness and coverage are proved about the resulting plan (Chunks.PlanShape, PlanDisjoint, PlanCovers) |
| Chunks.ContentRun | main.py:323-348 | a content block outside a title run always emits a chunk with no title, and the scan goes on at the end of its run; as for TitledRun, the chunk properties are proved about the plan |
| Chunks.ScanAt | main.py:287-349 | one turn of the outer loop emits the step's chunks Emitted and moves to Next; the loop is proved equal to ChunksFrom, about which Chunks.ChunksArePlan, PlanShape, PlanDisjoint and PlanCovers are proved |
| Chunks.GetEmbeddingChunks | main.py:274-350 | the scan returns `EmbeddingChunks` of the blocks |
| Chunks.ChunksArePlan | main.py:274-350 | the chunks are the rendered groups of the plan, one chunk per group |
| Chunks.PlanShape | main.py:286-349 | every group starts at a block that is not passed over; a titled group starts at a title that is no name and gathers at least one block; a group's blocks rise strictly, are all gathered, and no title lies inside it |
| Chunks.PlanDisjoint | main.py:286-349 | across all chunks, the positions rise strictly, so no block is in two chunks and the chunks follow block order |
| Chunks.PlanCovers | main.py:286-349 | no block is lost: every content block that is neither noise nor discarded is in some chunk |
| Chunks.ChunkShape | main.py:311-346 | each chunk's ids are those of its first block and its gathered blocks, in order; page, section and chunk id come from the first block; a titled chunk has the stripped title and at least two block ids; the title is non-empty exactly for titled chunks |
| Chunks.TitleThenParagraph | main.py:291-321 | a section title followed by a paragraph gives one chunk holding both |
| Chunks.LoneTitlesDropped | main.py:302-311 | titles with no content under them give no chunk |

## Left out

- Bounding boxes: `_bbox_from_element` (main.py:146-160) is not modelled.
  An element carries its box already parsed, or none, and the box is
  copied to the block unchanged.
- Input coercion: non-string categories and texts (`str(text)`) are not
  modelled. An element's page is one of three cases: missing, an `int`, or
  a truthy value `int()` rejects. A falsy value that `int()` rejects (`""`,
  `[]`) acts as missing, since `or` passes over it. Strings `int()` accepts
  and floats are not represented: a page of `"0"` would be truthy in
  `page_number or page` and give 0, where `Number(0)` falls through to
  `page`.
- `_element_from_unstructured`, `pdf_to_structure`, `to_json` and `_main`
  are I/O and calls into the parser library.
- Unicode NFC normalization in `_normalize_text` is taken as the identity.
- PyStr.Lower: covers ASCII, the Latin-1 capitals and Ğ, Ş, İ (İ becomes `i` + U+0307), not the whole Unicode case mapping.
- PyStr.IsDigit: ASCII digits only, where Python's `isdigit()` also accepts other Unicode digits.
- Patterns.IsWordChar: `\w` in `\b` is ASCII alphanumerics, `_`, the Latin-1 letters and the Turkish letters, not every Unicode letter.
- Patterns.Fold: case-insensitive regex matching uses the folding of PyStr.Lower plus ı→i and ſ→s, not full Unicode case folding.
- Dictionary iteration order in `_mark_boilerplate_noise`: the second loop
  takes its keys in any order. The result does not depend on the order.
- Structure.AnnotateElements: the loop body is split into NextState and
  MakeBlock. The block list is a `seq`, and it is copied into an array for
  the in-place boilerplate pass (Structure.ToArray).
- Chunks.CollectRun: the source writes the inner loop twice, once per
  branch. The model writes it once and calls it from both branches.
- Chunks.GetEmbeddingChunks: takes an extraction. The
  `result.get("blocks") or []` fallback for a missing key is not modelled.
- Missing dictionary keys in blocks (`b.get("type")`, `b.get("block_id", "")`)
  are not modelled: every block has all its fields.
