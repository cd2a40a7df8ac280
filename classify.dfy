/** Block classification: the category label of a parser element mapped onto
    the fixed block schema, and the structural rank of each block type. */
module Classify {

  /** The schema values of a block's `type` field. */
  datatype BlockType = Title | Paragraph | ListItem | Table | Header | Footer | Other

  /** The parser category that the lookup table maps onto `t`. */
  function CategoryName(t: BlockType): string
    requires t != Other
  {
    match t
    case Title => "Title"
    case Paragraph => "NarrativeText"
    case ListItem => "ListItem"
    case Table => "Table"
    case Header => "Header"
    case Footer => "Footer"
  }

  /** `_block_type`: exact lookup in the category table; every label outside
      the table, the empty one included, is Other. */
  function BlockTypeOf(category: string): (t: BlockType)
    ensures t == Other <==> category !in {"Title", "NarrativeText", "ListItem", "Table", "Header", "Footer"}
  {
    if category == "Title" then Title
    else if category == "NarrativeText" then Paragraph
    else if category == "ListItem" then ListItem
    else if category == "Table" then Table
    else if category == "Header" then Header
    else if category == "Footer" then Footer
    else Other
  }

  /** The table is one-to-one: each schema type other than Other comes from
      exactly one category label. */
  lemma BlockTypeOfInverse(category: string, t: BlockType)
    requires t != Other
    ensures BlockTypeOf(category) == t <==> category == CategoryName(t)
  {
  }

  /** `_hierarchy_level`: a rank in 1..4, lower meaning structurally more
      significant: titles 1, list items 2, headers and footers 4, all else 3. */
  function HierarchyLevel(t: BlockType): (level: int)
    ensures 1 <= level <= 4
    ensures level == 1 <==> t == Title
    ensures level == 2 <==> t == ListItem
    ensures level == 4 <==> t == Header || t == Footer
  {
    if t == Title then 1
    else if t == ListItem then 2
    else if t == Header || t == Footer then 4
    else 3
  }
}
