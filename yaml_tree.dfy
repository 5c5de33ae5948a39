/** The immutable YAML tree that a YAML recipe visits and rebuilds.
    Every node carries an identity, opaque markers and (except the root) a
    formatting prefix: the whitespace and comments that precede it. */
module Yaml {

  /** Node identities; fresh ones are drawn from a counter. */
  type Id = nat

  /** Markers are metadata the rewrite never inspects; only "empty" matters. */
  datatype Markers = Markers(items: seq<string>)

  const EmptyMarkers: Markers := Markers([])

  datatype Style = DoubleQuoted | SingleQuoted | Literal | Folded | Plain

  datatype Scalar = Scalar(id: Id, prefix: string, markers: Markers, style: Style, text: string)

  /** A value position: a scalar, a mapping of entries or a sequence of items. */
  datatype Block =
    | ScalarBlock(scalar: Scalar)
    | Mapping(id: Id, prefix: string, markers: Markers, entries: seq<Entry>)
    | Sequence(id: Id, prefix: string, markers: Markers, items: seq<SeqEntry>)
  {
    /** The formatting prefix of the block, whatever its kind. */
    function Prefix(): string
    {
      match this
      case ScalarBlock(s) => s.prefix
      case Mapping(_, p, _, _) => p
      case Sequence(_, p, _, _) => p
    }

    /** The identity of the block, whatever its kind. */
    function Ident(): Id
    {
      match this
      case ScalarBlock(s) => s.id
      case Mapping(i, _, _, _) => i
      case Sequence(i, _, _, _) => i
    }
  }

  /** A mapping entry `key: value`. */
  datatype Entry = Entry(id: Id, prefix: string, markers: Markers, key: Scalar, value: Block)

  /** A sequence item `- block`. */
  datatype SeqEntry = SeqEntry(id: Id, prefix: string, markers: Markers, block: Block)

  datatype Document = Document(id: Id, prefix: string, markers: Markers, block: Block)

  /** The root: a stream of documents. */
  datatype Documents = Documents(id: Id, markers: Markers, docs: seq<Document>)

  // ---------------------------------------------------------------------
  // Identities occurring in a tree, in pre-order.

  function BlockIds(b: Block): seq<Id>
  {
    match b
    case ScalarBlock(s) => [s.id]
    case Mapping(id, _, _, es) => [id] + EntriesIds(es)
    case Sequence(id, _, _, items) => [id] + ItemsIds(items)
  }

  function EntryIds(e: Entry): seq<Id>
  {
    [e.id, e.key.id] + BlockIds(e.value)
  }

  function EntriesIds(es: seq<Entry>): seq<Id>
  {
    if es == [] then [] else EntryIds(es[0]) + EntriesIds(es[1..])
  }

  function ItemIds(it: SeqEntry): seq<Id>
  {
    [it.id] + BlockIds(it.block)
  }

  function ItemsIds(items: seq<SeqEntry>): seq<Id>
  {
    if items == [] then [] else ItemIds(items[0]) + ItemsIds(items[1..])
  }

  function DocumentIds(d: Document): seq<Id>
  {
    [d.id] + BlockIds(d.block)
  }

  function DocsIds(ds: seq<Document>): seq<Id>
  {
    if ds == [] then [] else DocumentIds(ds[0]) + DocsIds(ds[1..])
  }

  function DocumentsIds(d: Documents): seq<Id>
  {
    [d.id] + DocsIds(d.docs)
  }

  /** A strict upper bound of a list of identities. */
  function IdBound(ids: seq<Id>): (n: Id)
    ensures forall i :: i in ids ==> i < n
  {
    if ids == [] then 0
    else
      var rest := IdBound(ids[1..]);
      assert forall i :: i in ids ==> i == ids[0] || i in ids[1..];
      if ids[0] < rest then rest else ids[0] + 1
  }

  /** No identity occurs twice. */
  predicate Distinct(ids: seq<Id>)
  {
    forall i, j :: 0 <= i < j < |ids| ==> ids[i] != ids[j]
  }

  // ---------------------------------------------------------------------
  // The same tree with every identity set to 0: equality "up to ids".

  function EraseScalar(s: Scalar): Scalar
  {
    s.(id := 0)
  }

  function EraseBlock(b: Block): Block
  {
    match b
    case ScalarBlock(s) => ScalarBlock(EraseScalar(s))
    case Mapping(_, p, mk, es) => Mapping(0, p, mk, EraseEntries(es))
    case Sequence(_, p, mk, items) => Sequence(0, p, mk, EraseItems(items))
  }

  function EraseEntry(e: Entry): Entry
  {
    Entry(0, e.prefix, e.markers, EraseScalar(e.key), EraseBlock(e.value))
  }

  function EraseEntries(es: seq<Entry>): seq<Entry>
  {
    if es == [] then [] else [EraseEntry(es[0])] + EraseEntries(es[1..])
  }

  function EraseItem(it: SeqEntry): SeqEntry
  {
    SeqEntry(0, it.prefix, it.markers, EraseBlock(it.block))
  }

  function EraseItems(items: seq<SeqEntry>): seq<SeqEntry>
  {
    if items == [] then [] else [EraseItem(items[0])] + EraseItems(items[1..])
  }

  function EraseDocument(d: Document): Document
  {
    Document(0, d.prefix, d.markers, EraseBlock(d.block))
  }

  function EraseDocs(ds: seq<Document>): seq<Document>
  {
    if ds == [] then [] else [EraseDocument(ds[0])] + EraseDocs(ds[1..])
  }

  function EraseDocuments(d: Documents): Documents
  {
    Documents(0, d.markers, EraseDocs(d.docs))
  }
}
