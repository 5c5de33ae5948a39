/** Properties of the change-value rewrite that relate several calls or
    hold for the whole tree: no-match safety, locality, idempotence up to
    identities, dependence on the matcher only at entry positions, and
    distinctness of identities. */
module ChangeValueProperties {
  import opened Yaml
  import opened ChangeValueRecipe
  import XPath

  // ---------------------------------------------------------------------
  // "No entry matches" as a count and as a statement about positions.

  lemma {:induction false} BlockNoMatch(m: Matcher, cursor: seq<string>, b: Block)
    ensures BlockMatches(m, cursor, b) == 0 <==> forall p :: p in BlockPaths(cursor, b) ==> !m(p)
    decreases b
  {
    match b
    case ScalarBlock(_) =>
    case Mapping(_, _, _, es) => EntriesNoMatch(m, cursor, es);
    case Sequence(_, _, _, items) => ItemsNoMatch(m, cursor, items);
  }

  lemma {:induction false} EntryNoMatch(m: Matcher, cursor: seq<string>, e: Entry)
    ensures EntryMatches(m, cursor, e) == 0 <==> forall p :: p in EntryPaths(cursor, e) ==> !m(p)
    decreases e
  {
    BlockNoMatch(m, EntryCursor(cursor, e), e.value);
  }

  lemma {:induction false} EntriesNoMatch(m: Matcher, cursor: seq<string>, es: seq<Entry>)
    ensures EntriesMatches(m, cursor, es) == 0 <==> forall p :: p in EntriesPaths(cursor, es) ==> !m(p)
    decreases es
  {
    if es != [] {
      EntryNoMatch(m, cursor, es[0]);
      EntriesNoMatch(m, cursor, es[1..]);
    }
  }

  lemma {:induction false} ItemsNoMatch(m: Matcher, cursor: seq<string>, items: seq<SeqEntry>)
    ensures ItemsMatches(m, cursor, items) == 0 <==> forall p :: p in ItemsPaths(cursor, items) ==> !m(p)
    decreases items
  {
    if items != [] {
      BlockNoMatch(m, cursor, items[0].block);
      ItemsNoMatch(m, cursor, items[1..]);
    }
  }

  lemma {:induction false} DocsNoMatch(m: Matcher, ds: seq<Document>)
    ensures DocsMatches(m, ds) == 0 <==> forall p :: p in DocsPaths(ds) ==> !m(p)
  {
    if ds != [] {
      BlockNoMatch(m, [], ds[0].block);
      DocsNoMatch(m, ds[1..]);
    }
  }

  /** No-match safety: when the matcher accepts no position of the tree, the
      output is the input and no identity is consumed. */
  lemma NoMatchUnchanged(m: Matcher, value: string, d: Documents, next: Id)
    requires forall p :: p in DocsPaths(d.docs) ==> !m(p)
    ensures RewriteDocuments(m, value, d, next) == (d, next)
  {
    DocsNoMatch(m, d.docs);
  }

  /** The recipe leaves a stream unchanged exactly when its key path matches
      no entry position; otherwise some node of the output is new. */
  lemma ChangeValueUnchangedIff(oldKeyPath: string, value: string, d: Documents)
    ensures ChangeValue(oldKeyPath, value, d) == d <==>
      forall p :: p in DocsPaths(d.docs) ==> !XPath.Matches(XPath.Compile(oldKeyPath), p)
  {
    var m := KeyPathMatcher(oldKeyPath);
    var next := IdBound(DocumentsIds(d));
    var r := RewriteDocuments(m, value, d, next);
    DocsNoMatch(m, d.docs);
    assert forall p :: m(p) == XPath.Matches(XPath.Compile(oldKeyPath), p);
    if r.1 != next {
      DocumentsFresh(m, value, d, next);
      assert r.1 - 1 in DocumentsIds(r.0);
      assert r.1 - 1 !in DocumentsIds(d);
    }
  }

  // ---------------------------------------------------------------------
  // Locality: a sibling whose subtree holds no match is shared unchanged.

  lemma {:induction false} UntouchedEntries(m: Matcher, value: string, cursor: seq<string>, es: seq<Entry>, next: Id, k: nat)
    requires k < |es|
    requires forall p :: p in EntryPaths(cursor, es[k]) ==> !m(p)
    ensures RewriteEntries(m, value, cursor, es, next).0[k] == es[k]
    decreases es
  {
    var (e', n) := RewriteEntry(m, value, cursor, es[0], next);
    var rest := RewriteEntries(m, value, cursor, es[1..], n);
    var r := RewriteEntries(m, value, cursor, es, next);
    assert r.0 == [e'] + rest.0;
    if k == 0 {
      EntryNoMatch(m, cursor, es[0]);
      assert e' == es[0];
    } else {
      assert es[1..][k - 1] == es[k];
      UntouchedEntries(m, value, cursor, es[1..], n, k - 1);
      assert r.0[k] == rest.0[k - 1];
    }
  }

  lemma {:induction false} UntouchedItems(m: Matcher, value: string, cursor: seq<string>, items: seq<SeqEntry>, next: Id, k: nat)
    requires k < |items|
    requires forall p :: p in BlockPaths(cursor, items[k].block) ==> !m(p)
    ensures RewriteItems(m, value, cursor, items, next).0[k] == items[k]
    decreases items
  {
    var (it', n) := RewriteItem(m, value, cursor, items[0], next);
    var rest := RewriteItems(m, value, cursor, items[1..], n);
    var r := RewriteItems(m, value, cursor, items, next);
    assert r.0 == [it'] + rest.0;
    if k == 0 {
      BlockNoMatch(m, cursor, items[0].block);
      assert it' == items[0];
    } else {
      assert items[1..][k - 1] == items[k];
      UntouchedItems(m, value, cursor, items[1..], n, k - 1);
      assert r.0[k] == rest.0[k - 1];
    }
  }

  // ---------------------------------------------------------------------
  // Contents of rewritten lists: element k is its own rewrite, with the
  // counter advanced past the draws of the elements before it.

  lemma {:induction false} EntriesAt(m: Matcher, value: string, cursor: seq<string>, es: seq<Entry>, next: Id, k: nat, c: Id)
    requires k < |es| && c == next + EntriesMatches(m, cursor, es[..k])
    ensures RewriteEntries(m, value, cursor, es, next).0[k] == RewriteEntry(m, value, cursor, es[k], c).0
    decreases es
  {
    var first := RewriteEntry(m, value, cursor, es[0], next);
    var rest := RewriteEntries(m, value, cursor, es[1..], first.1);
    assert RewriteEntries(m, value, cursor, es, next).0 == [first.0] + rest.0;
    if k == 0 {
      assert es[..0] == [];
      assert ([first.0] + rest.0)[0] == first.0;
    } else {
      var tail := es[1..];
      EntriesPrefixMatches(m, cursor, es, k);
      EntriesAt(m, value, cursor, tail, first.1, k - 1, c);
      assert tail[k - 1] == es[k];
      assert ([first.0] + rest.0)[k] == rest.0[k - 1];
    }
  }

  lemma EntriesPrefixMatches(m: Matcher, cursor: seq<string>, es: seq<Entry>, k: nat)
    requires 0 < k <= |es|
    ensures EntriesMatches(m, cursor, es[..k]) == EntryMatches(m, cursor, es[0]) + EntriesMatches(m, cursor, es[1..][..k - 1])
  {
    var before := es[..k];
    assert before[0] == es[0] && before[1..] == es[1..][..k - 1];
  }

  /** A matching entry at any position of a mapping keeps its key and frame
      and gets the plain replacement scalar with its old value's prefix. */
  lemma MatchedEntryReplaced(m: Matcher, value: string, cursor: seq<string>, es: seq<Entry>, next: Id, k: nat)
    requires k < |es| && m(EntryCursor(cursor, es[k]))
    ensures var e := RewriteEntries(m, value, cursor, es, next).0[k];
      && e.value.ScalarBlock?
      && e == es[k].(value := ScalarBlock(Scalar(e.value.scalar.id, es[k].value.Prefix(), EmptyMarkers, Plain, value)))
  {
    EntriesAt(m, value, cursor, es, next, k, next + EntriesMatches(m, cursor, es[..k]));
  }

  lemma {:induction false} ItemsAt(m: Matcher, value: string, cursor: seq<string>, items: seq<SeqEntry>, next: Id, k: nat, c: Id)
    requires k < |items| && c == next + ItemsMatches(m, cursor, items[..k])
    ensures RewriteItems(m, value, cursor, items, next).0[k] == RewriteItem(m, value, cursor, items[k], c).0
    decreases items
  {
    var first := RewriteItem(m, value, cursor, items[0], next);
    var rest := RewriteItems(m, value, cursor, items[1..], first.1);
    assert RewriteItems(m, value, cursor, items, next).0 == [first.0] + rest.0;
    if k == 0 {
      assert items[..0] == [];
      assert ([first.0] + rest.0)[0] == first.0;
    } else {
      var tail := items[1..];
      ItemsPrefixMatches(m, cursor, items, k);
      ItemsAt(m, value, cursor, tail, first.1, k - 1, c);
      assert tail[k - 1] == items[k];
      assert ([first.0] + rest.0)[k] == rest.0[k - 1];
    }
  }

  lemma ItemsPrefixMatches(m: Matcher, cursor: seq<string>, items: seq<SeqEntry>, k: nat)
    requires 0 < k <= |items|
    ensures ItemsMatches(m, cursor, items[..k]) == BlockMatches(m, cursor, items[0].block) + ItemsMatches(m, cursor, items[1..][..k - 1])
  {
    var before := items[..k];
    assert before[0] == items[0] && before[1..] == items[1..][..k - 1];
  }

  lemma {:induction false} DocsAt(m: Matcher, value: string, ds: seq<Document>, next: Id, k: nat, c: Id)
    requires k < |ds| && c == next + DocsMatches(m, ds[..k])
    ensures RewriteDocs(m, value, ds, next).0[k] == RewriteDocument(m, value, ds[k], c).0
  {
    var first := RewriteDocument(m, value, ds[0], next);
    var rest := RewriteDocs(m, value, ds[1..], first.1);
    assert RewriteDocs(m, value, ds, next).0 == [first.0] + rest.0;
    if k == 0 {
      assert ds[..0] == [];
      assert ([first.0] + rest.0)[0] == first.0;
    } else {
      var tail := ds[1..];
      DocsPrefixMatches(m, ds, k);
      DocsAt(m, value, tail, first.1, k - 1, c);
      assert tail[k - 1] == ds[k];
      assert ([first.0] + rest.0)[k] == rest.0[k - 1];
    }
  }

  lemma DocsPrefixMatches(m: Matcher, ds: seq<Document>, k: nat)
    requires 0 < k <= |ds|
    ensures DocsMatches(m, ds[..k]) == BlockMatches(m, [], ds[0].block) + DocsMatches(m, ds[1..][..k - 1])
  {
    var before := ds[..k];
    assert before[0] == ds[0] && before[1..] == ds[1..][..k - 1];
  }

  // ---------------------------------------------------------------------
  // Idempotence up to identities: a second run changes only fresh ids.

  lemma {:induction false} BlockIdempotent(m: Matcher, value: string, cursor: seq<string>, b: Block, n: Id, n': Id)
    ensures var once := RewriteBlock(m, value, cursor, b, n).0;
      EraseBlock(RewriteBlock(m, value, cursor, once, n').0) == EraseBlock(once)
    decreases b
  {
    match b
    case ScalarBlock(_) =>
    case Mapping(_, _, _, es) => EntriesIdempotent(m, value, cursor, es, n, n');
    case Sequence(_, _, _, items) => ItemsIdempotent(m, value, cursor, items, n, n');
  }

  lemma {:induction false} EntryIdempotent(m: Matcher, value: string, cursor: seq<string>, e: Entry, n: Id, n': Id)
    ensures var once := RewriteEntry(m, value, cursor, e, n).0;
      EraseEntry(RewriteEntry(m, value, cursor, once, n').0) == EraseEntry(once)
    decreases e
  {
    var path := EntryCursor(cursor, e);
    var once := RewriteEntry(m, value, cursor, e, n).0;
    assert EntryCursor(cursor, once) == path;
    if !m(path) {
      BlockIdempotent(m, value, path, e.value, n, n');
    }
  }

  lemma {:induction false} EntriesIdempotent(m: Matcher, value: string, cursor: seq<string>, es: seq<Entry>, n: Id, n': Id)
    ensures var once := RewriteEntries(m, value, cursor, es, n).0;
      EraseEntries(RewriteEntries(m, value, cursor, once, n').0) == EraseEntries(once)
    decreases es
  {
    if es != [] {
      var (e1, n1) := RewriteEntry(m, value, cursor, es[0], n);
      var rest1 := RewriteEntries(m, value, cursor, es[1..], n1).0;
      var once := RewriteEntries(m, value, cursor, es, n).0;
      assert once == [e1] + rest1;
      assert once[0] == e1 && once[1..] == rest1;
      var (e2, n2) := RewriteEntry(m, value, cursor, e1, n');
      EntryIdempotent(m, value, cursor, es[0], n, n');
      EntriesIdempotent(m, value, cursor, es[1..], n1, n2);
    }
  }

  lemma {:induction false} ItemsIdempotent(m: Matcher, value: string, cursor: seq<string>, items: seq<SeqEntry>, n: Id, n': Id)
    ensures var once := RewriteItems(m, value, cursor, items, n).0;
      EraseItems(RewriteItems(m, value, cursor, once, n').0) == EraseItems(once)
    decreases items
  {
    if items != [] {
      var (it1, n1) := RewriteItem(m, value, cursor, items[0], n);
      var rest1 := RewriteItems(m, value, cursor, items[1..], n1).0;
      var once := RewriteItems(m, value, cursor, items, n).0;
      assert once[0] == it1 && once[1..] == rest1;
      var (it2, n2) := RewriteItem(m, value, cursor, it1, n');
      BlockIdempotent(m, value, cursor, items[0].block, n, n');
      ItemsIdempotent(m, value, cursor, items[1..], n1, n2);
    }
  }

  lemma {:induction false} DocsIdempotent(m: Matcher, value: string, ds: seq<Document>, n: Id, n': Id)
    ensures var once := RewriteDocs(m, value, ds, n).0;
      EraseDocs(RewriteDocs(m, value, once, n').0) == EraseDocs(once)
  {
    if ds != [] {
      var (d1, n1) := RewriteDocument(m, value, ds[0], n);
      var rest1 := RewriteDocs(m, value, ds[1..], n1).0;
      var once := RewriteDocs(m, value, ds, n).0;
      assert once[0] == d1 && once[1..] == rest1;
      var (d2, n2) := RewriteDocument(m, value, d1, n');
      BlockIdempotent(m, value, [], ds[0].block, n, n');
      DocsIdempotent(m, value, ds[1..], n1, n2);
    }
  }

  /** Running the recipe twice gives the tree of running it once, up to the
      identities of the freshly built scalars. */
  lemma ChangeValueIdempotent(oldKeyPath: string, value: string, d: Documents)
    ensures var once := ChangeValue(oldKeyPath, value, d);
      EraseDocuments(ChangeValue(oldKeyPath, value, once)) == EraseDocuments(once)
  {
    var m := KeyPathMatcher(oldKeyPath);
    var once := ChangeValue(oldKeyPath, value, d);
    DocsIdempotent(m, value, d.docs, IdBound(DocumentsIds(d)), IdBound(DocumentsIds(once)));
  }

  // ---------------------------------------------------------------------
  // The matcher is consulted only at entry positions.

  lemma {:induction false} BlockMatcherAgreement(m1: Matcher, m2: Matcher, value: string, cursor: seq<string>, b: Block, next: Id)
    requires forall p :: p in BlockPaths(cursor, b) ==> m1(p) == m2(p)
    ensures RewriteBlock(m1, value, cursor, b, next) == RewriteBlock(m2, value, cursor, b, next)
    decreases b
  {
    match b
    case ScalarBlock(_) =>
    case Mapping(_, _, _, es) => EntriesMatcherAgreement(m1, m2, value, cursor, es, next);
    case Sequence(_, _, _, items) => ItemsMatcherAgreement(m1, m2, value, cursor, items, next);
  }

  lemma {:induction false} EntryMatcherAgreement(m1: Matcher, m2: Matcher, value: string, cursor: seq<string>, e: Entry, next: Id)
    requires forall p :: p in EntryPaths(cursor, e) ==> m1(p) == m2(p)
    ensures RewriteEntry(m1, value, cursor, e, next) == RewriteEntry(m2, value, cursor, e, next)
    decreases e
  {
    BlockMatcherAgreement(m1, m2, value, EntryCursor(cursor, e), e.value, next);
  }

  lemma {:induction false} EntriesMatcherAgreement(m1: Matcher, m2: Matcher, value: string, cursor: seq<string>, es: seq<Entry>, next: Id)
    requires forall p :: p in EntriesPaths(cursor, es) ==> m1(p) == m2(p)
    ensures RewriteEntries(m1, value, cursor, es, next) == RewriteEntries(m2, value, cursor, es, next)
    decreases es
  {
    if es != [] {
      EntryMatcherAgreement(m1, m2, value, cursor, es[0], next);
      var n := RewriteEntry(m1, value, cursor, es[0], next).1;
      EntriesMatcherAgreement(m1, m2, value, cursor, es[1..], n);
    }
  }

  lemma {:induction false} ItemsMatcherAgreement(m1: Matcher, m2: Matcher, value: string, cursor: seq<string>, items: seq<SeqEntry>, next: Id)
    requires forall p :: p in ItemsPaths(cursor, items) ==> m1(p) == m2(p)
    ensures RewriteItems(m1, value, cursor, items, next) == RewriteItems(m2, value, cursor, items, next)
    decreases items
  {
    if items != [] {
      BlockMatcherAgreement(m1, m2, value, cursor, items[0].block, next);
      var n := RewriteItem(m1, value, cursor, items[0], next).1;
      ItemsMatcherAgreement(m1, m2, value, cursor, items[1..], n);
    }
  }

  // ---------------------------------------------------------------------
  // Fresh identities: the rewrite only adds identities drawn from the counter.

  /** The identities of `after` are those of `before` together with
      identities drawn from the counter range [lo, hi); when anything was
      drawn, the last identity drawn is among them. */
  predicate Drawn(after: seq<Id>, before: seq<Id>, lo: Id, hi: Id)
  {
    && (forall i :: i in after ==> i in before || lo <= i < hi)
    && (lo < hi ==> hi - 1 in after)
  }

  lemma DrawnConcat(a: seq<Id>, b: seq<Id>, oa: seq<Id>, ob: seq<Id>, lo: Id, mid: Id, hi: Id)
    requires lo <= mid <= hi
    requires Drawn(a, oa, lo, mid) && Drawn(b, ob, mid, hi)
    ensures Drawn(a + b, oa + ob, lo, hi)
  {
  }

  lemma {:induction false} BlockFresh(m: Matcher, value: string, cursor: seq<string>, b: Block, next: Id)
    ensures var r := RewriteBlock(m, value, cursor, b, next);
      Drawn(BlockIds(r.0), BlockIds(b), next, r.1)
    decreases b
  {
    match b
    case ScalarBlock(_) =>
    case Mapping(id, _, _, es) =>
      var r := RewriteEntries(m, value, cursor, es, next);
      EntriesFresh(m, value, cursor, es, next);
      DrawnConcat([id], EntriesIds(r.0), [id], EntriesIds(es), next, next, r.1);
    case Sequence(id, _, _, items) =>
      var r := RewriteItems(m, value, cursor, items, next);
      ItemsFresh(m, value, cursor, items, next);
      DrawnConcat([id], ItemsIds(r.0), [id], ItemsIds(items), next, next, r.1);
  }

  /** A replaced value leaves none of its old identities behind: a matched
      entry holds its own, its key's and the last identity drawn. */
  lemma {:induction false} EntryFresh(m: Matcher, value: string, cursor: seq<string>, e: Entry, next: Id)
    ensures var r := RewriteEntry(m, value, cursor, e, next);
      Drawn(EntryIds(r.0), EntryIds(e), next, r.1)
    ensures var r := RewriteEntry(m, value, cursor, e, next);
      m(EntryCursor(cursor, e)) ==> EntryIds(r.0) == [e.id, e.key.id, r.1 - 1]
    decreases e
  {
    var path := EntryCursor(cursor, e);
    var v := RewriteBlock(m, value, path, e.value, next);
    BlockFresh(m, value, path, e.value, next);
    var head := [e.id, e.key.id];
    var r := RewriteEntry(m, value, cursor, e, next);
    assert EntryIds(e) == head + BlockIds(e.value);
    if m(path) {
      assert BlockIds(r.0.value) == [v.1];
      assert Drawn([v.1], BlockIds(e.value), next, v.1 + 1);
      DrawnConcat(head, [v.1], head, BlockIds(e.value), next, next, v.1 + 1);
    } else {
      DrawnConcat(head, BlockIds(v.0), head, BlockIds(e.value), next, next, v.1);
    }
  }

  lemma {:induction false} EntriesFresh(m: Matcher, value: string, cursor: seq<string>, es: seq<Entry>, next: Id)
    ensures var r := RewriteEntries(m, value, cursor, es, next);
      Drawn(EntriesIds(r.0), EntriesIds(es), next, r.1)
    decreases es
  {
    if es != [] {
      var (e', n) := RewriteEntry(m, value, cursor, es[0], next);
      var (rest, n') := RewriteEntries(m, value, cursor, es[1..], n);
      EntryFresh(m, value, cursor, es[0], next);
      EntriesFresh(m, value, cursor, es[1..], n);
      var out := [e'] + rest;
      assert out[0] == e' && out[1..] == rest;
      assert EntriesIds(out) == EntryIds(e') + EntriesIds(rest);
      DrawnConcat(EntryIds(e'), EntriesIds(rest), EntryIds(es[0]), EntriesIds(es[1..]), next, n, n');
    }
  }

  lemma {:induction false} ItemsFresh(m: Matcher, value: string, cursor: seq<string>, items: seq<SeqEntry>, next: Id)
    ensures var r := RewriteItems(m, value, cursor, items, next);
      Drawn(ItemsIds(r.0), ItemsIds(items), next, r.1)
    decreases items
  {
    if items != [] {
      var it := items[0];
      var (it', n) := RewriteItem(m, value, cursor, it, next);
      var (rest, n') := RewriteItems(m, value, cursor, items[1..], n);
      BlockFresh(m, value, cursor, it.block, next);
      DrawnConcat([it.id], BlockIds(it'.block), [it.id], BlockIds(it.block), next, next, n);
      ItemsFresh(m, value, cursor, items[1..], n);
      var out := [it'] + rest;
      assert out[0] == it' && out[1..] == rest;
      assert ItemsIds(out) == ItemIds(it') + ItemsIds(rest);
      DrawnConcat(ItemIds(it'), ItemsIds(rest), ItemIds(it), ItemsIds(items[1..]), next, n, n');
    }
  }

  lemma {:induction false} DocsFresh(m: Matcher, value: string, ds: seq<Document>, next: Id)
    ensures var r := RewriteDocs(m, value, ds, next);
      Drawn(DocsIds(r.0), DocsIds(ds), next, r.1)
  {
    if ds != [] {
      var d := ds[0];
      var (d', n) := RewriteDocument(m, value, d, next);
      var (rest, n') := RewriteDocs(m, value, ds[1..], n);
      BlockFresh(m, value, [], d.block, next);
      DrawnConcat([d.id], BlockIds(d'.block), [d.id], BlockIds(d.block), next, next, n);
      DocsFresh(m, value, ds[1..], n);
      var out := [d'] + rest;
      assert out[0] == d' && out[1..] == rest;
      assert DocsIds(out) == DocumentIds(d') + DocsIds(rest);
      DrawnConcat(DocumentIds(d'), DocsIds(rest), DocumentIds(d), DocsIds(ds[1..]), next, n, n');
    }
  }

  /** Every identity of the rewritten stream is an identity of the input or
      one drawn from the counter, and the last one drawn is present. */
  lemma DocumentsFresh(m: Matcher, value: string, d: Documents, next: Id)
    ensures var r := RewriteDocuments(m, value, d, next);
      Drawn(DocumentsIds(r.0), DocumentsIds(d), next, r.1)
  {
    var r := RewriteDocuments(m, value, d, next);
    DocsFresh(m, value, d.docs, next);
    DrawnConcat([d.id], DocsIds(r.0.docs), [d.id], DocsIds(d.docs), next, next, r.1);
  }

  // ---------------------------------------------------------------------
  // Distinct identities stay distinct.

  /** Every identity of the list is below the counter. */
  predicate Below(ids: seq<Id>, next: Id)
  {
    forall i :: i in ids ==> i < next
  }

  lemma BelowConcat(a: seq<Id>, b: seq<Id>, next: Id)
    ensures Below(a + b, next) <==> Below(a, next) && Below(b, next)
  {
    if Below(a, next) && Below(b, next) {
      forall i | i in a + b ensures i < next {
        assert i in a || i in b;
      }
    }
    if Below(a + b, next) {
      forall i | i in a ensures i < next {
        assert i in a + b;
      }
      forall i | i in b ensures i < next {
        assert i in a + b;
      }
    }
  }

  lemma DistinctConcat(a: seq<Id>, b: seq<Id>)
    ensures Distinct(a + b) <==> Distinct(a) && Distinct(b) && forall x :: x in a ==> x !in b
  {
    var ab := a + b;
    if Distinct(a) && Distinct(b) && (forall x :: x in a ==> x !in b) {
      forall i, j | 0 <= i < j < |ab| ensures ab[i] != ab[j] {
        if j < |a| {
          assert ab[i] == a[i] && ab[j] == a[j];
        } else if i >= |a| {
          assert ab[i] == b[i - |a|] && ab[j] == b[j - |a|];
        } else {
          assert ab[i] == a[i] && ab[j] == b[j - |a|];
          assert a[i] in a;
        }
      }
    }
    if Distinct(ab) {
      forall i, j | 0 <= i < j < |a| ensures a[i] != a[j] {
        assert ab[i] == a[i] && ab[j] == a[j];
      }
      forall i, j | 0 <= i < j < |b| ensures b[i] != b[j] {
        assert ab[|a| + i] == b[i] && ab[|a| + j] == b[j];
      }
      forall x | x in a ensures x !in b {
        var i :| 0 <= i < |a| && a[i] == x;
        forall j | 0 <= j < |b| ensures b[j] != x {
          assert ab[i] == a[i] && ab[|a| + j] == b[j];
        }
      }
    }
  }

  lemma {:induction false} BlockDistinct(m: Matcher, value: string, cursor: seq<string>, b: Block, next: Id)
    requires Distinct(BlockIds(b)) && Below(BlockIds(b), next)
    ensures Distinct(BlockIds(RewriteBlock(m, value, cursor, b, next).0))
    decreases b
  {
    var r := RewriteBlock(m, value, cursor, b, next).0;
    match b
    case ScalarBlock(_) =>
    case Mapping(id, _, _, es) =>
      DistinctConcat([id], EntriesIds(es));
      BelowConcat([id], EntriesIds(es), next);
      EntriesDistinct(m, value, cursor, es, next);
      EntriesFresh(m, value, cursor, es, next);
      DistinctConcat([id], EntriesIds(r.entries));
    case Sequence(id, _, _, items) =>
      DistinctConcat([id], ItemsIds(items));
      BelowConcat([id], ItemsIds(items), next);
      ItemsDistinct(m, value, cursor, items, next);
      ItemsFresh(m, value, cursor, items, next);
      DistinctConcat([id], ItemsIds(r.items));
  }

  lemma {:induction false} EntryDistinct(m: Matcher, value: string, cursor: seq<string>, e: Entry, next: Id)
    requires Distinct(EntryIds(e)) && Below(EntryIds(e), next)
    ensures Distinct(EntryIds(RewriteEntry(m, value, cursor, e, next).0))
    decreases e
  {
    var r := RewriteEntry(m, value, cursor, e, next);
    var head := [e.id, e.key.id];
    DistinctConcat(head, BlockIds(e.value));
    assert e.id != e.key.id by {
      assert EntryIds(e)[0] == e.id && EntryIds(e)[1] == e.key.id;
    }
    BelowConcat(head, BlockIds(e.value), next);
    assert e.id < next && e.key.id < next by {
      assert e.id in head && e.key.id in head;
    }
    assert EntryIds(r.0) == head + BlockIds(r.0.value);
    BlockFresh(m, value, EntryCursor(cursor, e), e.value, next);
    if !m(EntryCursor(cursor, e)) {
      BlockDistinct(m, value, EntryCursor(cursor, e), e.value, next);
    }
    DistinctConcat(head, BlockIds(r.0.value));
  }

  lemma {:induction false} EntriesDistinct(m: Matcher, value: string, cursor: seq<string>, es: seq<Entry>, next: Id)
    requires Distinct(EntriesIds(es)) && Below(EntriesIds(es), next)
    ensures Distinct(EntriesIds(RewriteEntries(m, value, cursor, es, next).0))
    decreases es
  {
    if es != [] {
      var (e', n) := RewriteEntry(m, value, cursor, es[0], next);
      var (rest, n') := RewriteEntries(m, value, cursor, es[1..], n);
      DistinctConcat(EntryIds(es[0]), EntriesIds(es[1..]));
      BelowConcat(EntryIds(es[0]), EntriesIds(es[1..]), next);
      EntryDistinct(m, value, cursor, es[0], next);
      EntriesDistinct(m, value, cursor, es[1..], n);
      EntryFresh(m, value, cursor, es[0], next);
      EntriesFresh(m, value, cursor, es[1..], n);
      var out := [e'] + rest;
      assert out[0] == e' && out[1..] == rest;
      assert EntriesIds(out) == EntryIds(e') + EntriesIds(rest);
      DistinctConcat(EntryIds(e'), EntriesIds(rest));
    }
  }

  lemma {:induction false} ItemsDistinct(m: Matcher, value: string, cursor: seq<string>, items: seq<SeqEntry>, next: Id)
    requires Distinct(ItemsIds(items)) && Below(ItemsIds(items), next)
    ensures Distinct(ItemsIds(RewriteItems(m, value, cursor, items, next).0))
    decreases items
  {
    if items != [] {
      var it := items[0];
      var (it', n) := RewriteItem(m, value, cursor, it, next);
      var (rest, n') := RewriteItems(m, value, cursor, items[1..], n);
      DistinctConcat(ItemIds(it), ItemsIds(items[1..]));
      BelowConcat(ItemIds(it), ItemsIds(items[1..]), next);
      DistinctConcat([it.id], BlockIds(it.block));
      BelowConcat([it.id], BlockIds(it.block), next);
      BlockDistinct(m, value, cursor, it.block, next);
      BlockFresh(m, value, cursor, it.block, next);
      DistinctConcat([it.id], BlockIds(it'.block));
      ItemsDistinct(m, value, cursor, items[1..], n);
      ItemsFresh(m, value, cursor, items[1..], n);
      var out := [it'] + rest;
      assert out[0] == it' && out[1..] == rest;
      assert ItemsIds(out) == ItemIds(it') + ItemsIds(rest);
      DistinctConcat(ItemIds(it'), ItemsIds(rest));
    }
  }

  lemma {:induction false} DocsDistinct(m: Matcher, value: string, ds: seq<Document>, next: Id)
    requires Distinct(DocsIds(ds)) && Below(DocsIds(ds), next)
    ensures Distinct(DocsIds(RewriteDocs(m, value, ds, next).0))
  {
    if ds != [] {
      var d := ds[0];
      var (d', n) := RewriteDocument(m, value, d, next);
      var (rest, n') := RewriteDocs(m, value, ds[1..], n);
      DistinctConcat(DocumentIds(d), DocsIds(ds[1..]));
      BelowConcat(DocumentIds(d), DocsIds(ds[1..]), next);
      DistinctConcat([d.id], BlockIds(d.block));
      BelowConcat([d.id], BlockIds(d.block), next);
      BlockDistinct(m, value, [], d.block, next);
      BlockFresh(m, value, [], d.block, next);
      DistinctConcat([d.id], BlockIds(d'.block));
      DocsDistinct(m, value, ds[1..], n);
      DocsFresh(m, value, ds[1..], n);
      var out := [d'] + rest;
      assert out[0] == d' && out[1..] == rest;
      assert DocsIds(out) == DocumentIds(d') + DocsIds(rest);
      DistinctConcat(DocumentIds(d'), DocsIds(rest));
    }
  }

  /** Every identity in the recipe's output is either an identity of the
      input or a fresh one above all of them; distinct identities stay
      distinct, so no replacement scalar collides with another node. */
  lemma ChangeValueFreshIds(oldKeyPath: string, value: string, d: Documents)
    ensures var r := ChangeValue(oldKeyPath, value, d);
      forall i :: i in DocumentsIds(r) ==> i in DocumentsIds(d) || IdBound(DocumentsIds(d)) <= i
    ensures Distinct(DocumentsIds(d)) ==> Distinct(DocumentsIds(ChangeValue(oldKeyPath, value, d)))
  {
    var m := KeyPathMatcher(oldKeyPath);
    var next := IdBound(DocumentsIds(d));
    var r := RewriteDocuments(m, value, d, next).0;
    DocumentsFresh(m, value, d, next);
    if Distinct(DocumentsIds(d)) {
      DistinctConcat([d.id], DocsIds(d.docs));
      BelowConcat([d.id], DocsIds(d.docs), next);
      DocsDistinct(m, value, d.docs, next);
      DocsFresh(m, value, d.docs, next);
      DistinctConcat([d.id], DocsIds(r.docs));
    }
  }
}
