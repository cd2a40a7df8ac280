/** The records the pipeline reads and writes: parser elements in, annotated
    blocks and retrieval chunks out. */
module Schema {
  import opened Classify

  datatype Option<T> = None | Some(value: T)

  /** `[x1, y1, x2, y2]`, carried from element to block unchanged. */
  datatype BBox = BBox(x1: real, y1: real, x2: real, y2: real)

  /** A `page_number` or `page` entry of an element: absent or `None`, an
      `int`, or a truthy value that `int()` rejects (a non-numeric
      string, for one). */
  datatype PageField = Missing | Number(n: int) | Unparseable

  /** One parser element. `bbox` is the box already extracted from the
      element's coordinate fields. */
  datatype Element = Element(
    category: Option<string>,
    typeLabel: Option<string>,
    text: Option<string>,
    pageNumber: PageField,
    page: PageField,
    bbox: Option<BBox>)

  /** One block of the output schema. */
  datatype Block = Block(
    blockId: string,
    kind: BlockType,
    text: string,
    page: int,
    bbox: Option<BBox>,
    sectionId: string,
    sectionTitle: string,
    hierarchyLevel: int,
    chunkId: string,
    indexInPage: nat,
    isNoise: bool,
    normalizedText: string)

  /** The result of the structure builder. */
  datatype Extraction = Extraction(documentType: string, blocks: seq<Block>)

  /** One retrieval chunk. */
  datatype Chunk = Chunk(
    title: string,
    content: string,
    page: int,
    sectionId: string,
    sectionTitle: string,
    chunkId: string,
    blockIds: seq<string>)

  /** `m.get(k, d)` */
  function GetOr<K, V>(m: map<K, V>, k: K, d: V): (v: V)
    ensures k in m ==> v == m[k]
    ensures k !in m ==> v == d
  {
    if k in m then m[k] else d
  }
}
