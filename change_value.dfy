/** The "change value" recipe: every mapping entry whose position matches a
    key path gets its value replaced by a plain scalar holding a configured
    literal; the key is left intact.

    The visitor of the source becomes one family of recursive functions. Each
    threads explicitly
    - the matcher `m`, built once and reused for every entry,
    - the literal `value` that replaces matched values,
    - the cursor: the keys of the enclosing mapping entries, outermost first,
    - the fresh-identity supply `next`, a counter standing for `randomId()`,
    and returns the rebuilt node together with the counter after it. */
module ChangeValueRecipe {
  import opened Yaml
  import XPath

  /** A compiled key path, as seen by the visitor: a predicate on cursors. */
  type Matcher = seq<string> -> bool

  /** The cursor seen at an entry under `cursor`. */
  function EntryCursor(cursor: seq<string>, e: Entry): seq<string>
  {
    cursor + [e.key.text]
  }

  // ---------------------------------------------------------------------
  // Positions the matcher is asked about, and how many of them match.

  function BlockPaths(cursor: seq<string>, b: Block): set<seq<string>>
    decreases b
  {
    match b
    case ScalarBlock(_) => {}
    case Mapping(_, _, _, es) => EntriesPaths(cursor, es)
    case Sequence(_, _, _, items) => ItemsPaths(cursor, items)
  }

  function EntryPaths(cursor: seq<string>, e: Entry): set<seq<string>>
    decreases e
  {
    {EntryCursor(cursor, e)} + BlockPaths(EntryCursor(cursor, e), e.value)
  }

  function EntriesPaths(cursor: seq<string>, es: seq<Entry>): set<seq<string>>
    decreases es
  {
    if es == [] then {} else EntryPaths(cursor, es[0]) + EntriesPaths(cursor, es[1..])
  }

  function ItemsPaths(cursor: seq<string>, items: seq<SeqEntry>): set<seq<string>>
    decreases items
  {
    if items == [] then {} else BlockPaths(cursor, items[0].block) + ItemsPaths(cursor, items[1..])
  }

  function BlockMatches(m: Matcher, cursor: seq<string>, b: Block): nat
    decreases b
  {
    match b
    case ScalarBlock(_) => 0
    case Mapping(_, _, _, es) => EntriesMatches(m, cursor, es)
    case Sequence(_, _, _, items) => ItemsMatches(m, cursor, items)
  }

  function EntryMatches(m: Matcher, cursor: seq<string>, e: Entry): nat
    decreases e
  {
    (if m(EntryCursor(cursor, e)) then 1 else 0) + BlockMatches(m, EntryCursor(cursor, e), e.value)
  }

  function EntriesMatches(m: Matcher, cursor: seq<string>, es: seq<Entry>): nat
    decreases es
  {
    if es == [] then 0 else EntryMatches(m, cursor, es[0]) + EntriesMatches(m, cursor, es[1..])
  }

  function ItemsMatches(m: Matcher, cursor: seq<string>, items: seq<SeqEntry>): nat
    decreases items
  {
    if items == [] then 0 else BlockMatches(m, cursor, items[0].block) + ItemsMatches(m, cursor, items[1..])
  }

  // ---------------------------------------------------------------------
  // The rewrite.

  /** Keys, identities, prefixes and markers of a list of entries are kept. */
  predicate EntriesFramesKept(before: seq<Entry>, after: seq<Entry>)
  {
    && |after| == |before|
    && forall i :: 0 <= i < |before| ==>
         && after[i].key == before[i].key
         && after[i].id == before[i].id
         && after[i].prefix == before[i].prefix
         && after[i].markers == before[i].markers
  }

  /** Identities, prefixes and markers of a list of sequence items are kept. */
  predicate ItemsFramesKept(before: seq<SeqEntry>, after: seq<SeqEntry>)
  {
    && |after| == |before|
    && forall i :: 0 <= i < |before| ==>
         && after[i].id == before[i].id
         && after[i].prefix == before[i].prefix
         && after[i].markers == before[i].markers
  }

  /** Only mapping entries are candidates: a block is only traversed and
      rebuilt with its own kind, identity, prefix and markers. */
  function RewriteBlock(m: Matcher, value: string, cursor: seq<string>, b: Block, next: Id): (r: (Block, Id))
    ensures r.1 == next + BlockMatches(m, cursor, b)
    ensures r.0.Prefix() == b.Prefix() && r.0.Ident() == b.Ident()
    ensures b.ScalarBlock? ==> r.0 == b
    ensures b.Mapping? ==> r.0.Mapping? && r.0.markers == b.markers && EntriesFramesKept(b.entries, r.0.entries)
    ensures b.Sequence? ==> r.0.Sequence? && r.0.markers == b.markers && ItemsFramesKept(b.items, r.0.items)
    ensures r.1 == next ==> r.0 == b
    decreases b
  {
    match b
    case ScalarBlock(_) => (b, next)
    case Mapping(id, p, mk, es) =>
      var (es', n) := RewriteEntries(m, value, cursor, es, next);
      (Mapping(id, p, mk, es'), n)
    case Sequence(id, p, mk, items) =>
      var (items', n) := RewriteItems(m, value, cursor, items, next);
      (Sequence(id, p, mk, items'), n)
  }

  /** The overridden entry visit: children first, then the match test on the
      entry's own cursor; a match replaces the value by a fresh plain scalar
      with the visited value's prefix and empty markers. */
  function RewriteEntry(m: Matcher, value: string, cursor: seq<string>, e: Entry, next: Id): (r: (Entry, Id))
    ensures r.0.id == e.id && r.0.prefix == e.prefix && r.0.markers == e.markers && r.0.key == e.key
    ensures r.1 == next + EntryMatches(m, cursor, e)
    ensures m(EntryCursor(cursor, e)) ==>
      r.0.value == ScalarBlock(Scalar(r.1 - 1, e.value.Prefix(), EmptyMarkers, Plain, value))
    ensures m(EntryCursor(cursor, e)) ==>
      r.0.value.scalar.id == next + BlockMatches(m, EntryCursor(cursor, e), e.value)
    ensures !m(EntryCursor(cursor, e)) ==>
      r == (e.(value := RewriteBlock(m, value, EntryCursor(cursor, e), e.value, next).0), r.1)
    ensures r.1 == next ==> r.0 == e
    decreases e
  {
    var path := EntryCursor(cursor, e);
    var (v, n) := RewriteBlock(m, value, path, e.value, next);
    var visited := e.(value := v);
    if m(path) then
      (visited.(value := ScalarBlock(Scalar(n, v.Prefix(), EmptyMarkers, Plain, value))), n + 1)
    else
      (visited, n)
  }

  function RewriteEntries(m: Matcher, value: string, cursor: seq<string>, es: seq<Entry>, next: Id): (r: (seq<Entry>, Id))
    ensures EntriesFramesKept(es, r.0)
    ensures r.1 == next + EntriesMatches(m, cursor, es)
    ensures r.1 == next ==> r.0 == es
    decreases es
  {
    if es == [] then ([], next)
    else
      var (e', n) := RewriteEntry(m, value, cursor, es[0], next);
      var (rest, n') := RewriteEntries(m, value, cursor, es[1..], n);
      var r := [e'] + rest;
      assert r[0] == e' && r[1..] == rest;
      assert n' == next ==> es == [es[0]] + es[1..];
      (r, n')
  }

  function RewriteItem(m: Matcher, value: string, cursor: seq<string>, it: SeqEntry, next: Id): (r: (SeqEntry, Id))
    ensures r.0.id == it.id && r.0.prefix == it.prefix && r.0.markers == it.markers
    ensures r.1 == next + BlockMatches(m, cursor, it.block)
    ensures r.1 == next ==> r.0 == it
    decreases it
  {
    var (b, n) := RewriteBlock(m, value, cursor, it.block, next);
    (it.(block := b), n)
  }

  function RewriteItems(m: Matcher, value: string, cursor: seq<string>, items: seq<SeqEntry>, next: Id): (r: (seq<SeqEntry>, Id))
    ensures ItemsFramesKept(items, r.0)
    ensures r.1 == next + ItemsMatches(m, cursor, items)
    ensures r.1 == next ==> r.0 == items
    decreases items
  {
    if items == [] then ([], next)
    else
      var (it', n) := RewriteItem(m, value, cursor, items[0], next);
      var (rest, n') := RewriteItems(m, value, cursor, items[1..], n);
      var r := [it'] + rest;
      assert r[0] == it' && r[1..] == rest;
      assert n' == next ==> items == [items[0]] + items[1..];
      (r, n')
  }

  // ---------------------------------------------------------------------
  // Documents: the visit starts at the root with an empty cursor.

  function DocsPaths(ds: seq<Document>): set<seq<string>>
  {
    if ds == [] then {} else BlockPaths([], ds[0].block) + DocsPaths(ds[1..])
  }

  function DocsMatches(m: Matcher, ds: seq<Document>): nat
  {
    if ds == [] then 0 else BlockMatches(m, [], ds[0].block) + DocsMatches(m, ds[1..])
  }

  /** Identities, prefixes and markers of a list of documents are kept. */
  predicate DocsFramesKept(before: seq<Document>, after: seq<Document>)
  {
    && |after| == |before|
    && forall i :: 0 <= i < |before| ==>
         && after[i].id == before[i].id
         && after[i].prefix == before[i].prefix
         && after[i].markers == before[i].markers
  }

  function RewriteDocument(m: Matcher, value: string, d: Document, next: Id): (r: (Document, Id))
    ensures r.0.id == d.id && r.0.prefix == d.prefix && r.0.markers == d.markers
    ensures r.1 == next + BlockMatches(m, [], d.block)
    ensures r.1 == next ==> r.0 == d
  {
    var (b, n) := RewriteBlock(m, value, [], d.block, next);
    (d.(block := b), n)
  }

  function RewriteDocs(m: Matcher, value: string, ds: seq<Document>, next: Id): (r: (seq<Document>, Id))
    ensures DocsFramesKept(ds, r.0)
    ensures r.1 == next + DocsMatches(m, ds)
    ensures r.1 == next ==> r.0 == ds
  {
    if ds == [] then ([], next)
    else
      var (d', n) := RewriteDocument(m, value, ds[0], next);
      var (rest, n') := RewriteDocs(m, value, ds[1..], n);
      var r := [d'] + rest;
      assert r[0] == d' && r[1..] == rest;
      assert n' == next ==> ds == [ds[0]] + ds[1..];
      (r, n')
  }

  function RewriteDocuments(m: Matcher, value: string, d: Documents, next: Id): (r: (Documents, Id))
    ensures r.0.id == d.id && r.0.markers == d.markers && DocsFramesKept(d.docs, r.0.docs)
    ensures r.1 == next + DocsMatches(m, d.docs)
    ensures r.1 == next ==> r.0 == d
  {
    var (ds, n) := RewriteDocs(m, value, d.docs, next);
    (d.(docs := ds), n)
  }

  /** The matcher the recipe builds once from its key path. */
  function KeyPathMatcher(oldKeyPath: string): Matcher
  {
    var pm := XPath.Compile(oldKeyPath);
    cursor => XPath.Matches(pm, cursor)
  }

  /** The recipe applied to a document stream: fresh identities are drawn
      above every identity already in the tree. */
  function ChangeValue(oldKeyPath: string, value: string, d: Documents): (r: Documents)
    ensures r.id == d.id && r.markers == d.markers && DocsFramesKept(d.docs, r.docs)
    ensures DocsMatches(KeyPathMatcher(oldKeyPath), d.docs) == 0 ==> r == d
  {
    RewriteDocuments(KeyPathMatcher(oldKeyPath), value, d, IdBound(DocumentsIds(d))).0
  }
}
