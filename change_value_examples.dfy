/** Worked examples of the change-value recipe on small documents. */
module ChangeValueExamples {
  import opened Yaml
  import opened ChangeValueRecipe
  import opened ChangeValueProperties
  import XPath

  function Key(id: Id, text: string): Scalar
  {
    Scalar(id, "", EmptyMarkers, Plain, text)
  }

  function Value(id: Id, prefix: string, text: string): Block
  {
    ScalarBlock(Scalar(id, prefix, EmptyMarkers, Plain, text))
  }

  function Stream(block: Block): Documents
  {
    Documents(0, EmptyMarkers, [Document(1, "", EmptyMarkers, block)])
  }

  lemma CompileTwoKeys(a: string, b: string)
    requires a != "" && '/' !in a && '/' !in b
    ensures XPath.Compile(a + "/" + b).segments == [XPath.ToSegment(a), XPath.ToSegment(b)]
  {
    var keys := [a, b];
    assert XPath.Join(keys) == a + "/" + b by {
      assert keys[1..] == [b];
    }
    XPath.CompileJoin(keys);
    assert XPath.Segments(keys) == [XPath.ToSegment(a), XPath.ToSegment(b)];
  }

  /** A path of two plain keys matches exactly the cursor of those keys. */
  lemma TwoKeyMatcher(a: string, b: string, c: seq<string>)
    requires a != "" && '/' !in a && '/' !in b && a != "*" && b != "*"
    ensures KeyPathMatcher(a + "/" + b)(c) <==> c == [a, b]
  {
    CompileTwoKeys(a, b);
    var pm := XPath.Compile(a + "/" + b);
    assert pm.segments == [XPath.Key(a), XPath.Key(b)];
    if XPath.Matches(pm, c) {
      assert XPath.SegmentMatches(pm.segments[0], c[0]);
      assert XPath.SegmentMatches(pm.segments[1], c[1]);
    }
  }

  function KindEntry(inner: string, service: string): Entry
  {
    Entry(6, "\n  ", EmptyMarkers, Key(7, inner), Value(8, " ", service))
  }

  function SubjectsEntry(outer: string, kind: Entry): Entry
  {
    Entry(3, "", EmptyMarkers, Key(4, outer), Mapping(5, "", EmptyMarkers, [kind]))
  }

  function SubjectsStream(outer: string, kind: Entry): Documents
  {
    Stream(Mapping(2, "", EmptyMarkers, [SubjectsEntry(outer, kind)]))
  }

  lemma SubjectsEntryIds(outer: string, inner: string, service: string)
    ensures EntryIds(SubjectsEntry(outer, KindEntry(inner, service))) == [3, 4, 5, 6, 7, 8]
  {
    var kind := KindEntry(inner, service);
    var subjects := SubjectsEntry(outer, kind);
    assert [kind][1..] == [];
    assert EntryIds(kind) == [6, 7, 8];
    assert EntriesIds([kind]) == EntryIds(kind) + EntriesIds([]);
    assert BlockIds(subjects.value) == [5, 6, 7, 8];
  }

  lemma SubjectsStreamIdList(outer: string, inner: string, service: string)
    ensures DocumentsIds(SubjectsStream(outer, KindEntry(inner, service))) == [0, 1, 2, 3, 4, 5, 6, 7, 8]
  {
    var subjects := SubjectsEntry(outer, KindEntry(inner, service));
    var before := SubjectsStream(outer, KindEntry(inner, service));
    SubjectsEntryIds(outer, inner, service);
    assert [subjects][1..] == [];
    assert EntriesIds([subjects]) == EntryIds(subjects) + EntriesIds([]);
    assert DocsIds(before.docs) == [1, 2, 3, 4, 5, 6, 7, 8] by {
      assert before.docs[1..] == [];
    }
  }

  /** Of identities listed in increasing order, the bound is one past the last. */
  lemma {:induction false} IdBoundIncreasing(ids: seq<Id>)
    requires |ids| >= 1
    requires forall i :: 0 <= i < |ids| - 1 ==> ids[i] < ids[i + 1]
    ensures IdBound(ids) == ids[|ids| - 1] + 1
  {
    if |ids| > 1 {
      var tail := ids[1..];
      assert forall i :: 0 <= i < |tail| - 1 ==> tail[i] < tail[i + 1] by {
        forall i | 0 <= i < |tail| - 1 ensures tail[i] < tail[i + 1] {
          assert tail[i] == ids[i + 1] && tail[i + 1] == ids[i + 2];
        }
      }
      IdBoundIncreasing(tail);
      assert tail[|tail| - 1] == ids[|ids| - 1];
      assert ids[0] < tail[0];
      assert tail[0] in tail;
    }
  }

  lemma IdBoundNine(ids: seq<Id>)
    requires ids == [0, 1, 2, 3, 4, 5, 6, 7, 8]
    ensures IdBound(ids) == 9
  {
    assert forall i :: 0 <= i < |ids| - 1 ==> ids[i] < ids[i + 1] by {
      forall i | 0 <= i < |ids| - 1 ensures ids[i] < ids[i + 1] {
        assert ids[i] == i && ids[i + 1] == i + 1;
      }
    }
    IdBoundIncreasing(ids);
  }

  lemma SubjectsStreamIds(outer: string, inner: string, service: string)
    ensures IdBound(DocumentsIds(SubjectsStream(outer, KindEntry(inner, service)))) == 9
  {
    SubjectsStreamIdList(outer, inner, service);
    IdBoundNine(DocumentsIds(SubjectsStream(outer, KindEntry(inner, service))));
  }

  /** The inner entry list `[kind: Service]`, under any matcher that accepts
      its cursor, gets the replacement scalar with identity 9. */
  lemma KindRewritten(m: Matcher, outer: string, inner: string, service: string, deployment: string)
    requires m([outer, inner])
    ensures
      var kind := KindEntry(inner, service);
      RewriteEntries(m, deployment, [outer], [kind], 9) == ([kind.(value := Value(9, " ", deployment))], 10)
  {
    var kind := KindEntry(inner, service);
    var kind' := kind.(value := Value(9, " ", deployment));
    assert EntryCursor([outer], kind) == [outer, inner];
    assert RewriteEntry(m, deployment, [outer], kind, 9) == (kind', 10);
    assert [kind][0] == kind && [kind][1..] == [];
    assert RewriteEntries(m, deployment, [outer], [kind], 9) == ([kind'] + [], 10);
    assert [kind'] + [] == [kind'];
  }

  lemma SubjectsRewritten(m: Matcher, outer: string, inner: string, service: string, deployment: string)
    requires m([outer, inner]) && !m([outer])
    ensures
      var kind := KindEntry(inner, service);
      var kind' := kind.(value := Value(9, " ", deployment));
      RewriteEntries(m, deployment, [], [SubjectsEntry(outer, kind)], 9) == ([SubjectsEntry(outer, kind')], 10)
  {
    var kind := KindEntry(inner, service);
    var kind' := kind.(value := Value(9, " ", deployment));
    var subjects := SubjectsEntry(outer, kind);
    var subjects' := SubjectsEntry(outer, kind');
    KindRewritten(m, outer, inner, service, deployment);
    assert EntryCursor([], subjects) == [outer];
    assert RewriteEntry(m, deployment, [], subjects, 9) == (subjects', 10);
    assert [subjects][0] == subjects && [subjects][1..] == [];
    assert RewriteEntries(m, deployment, [], [subjects], 9) == ([subjects'] + [], 10);
    assert [subjects'] + [] == [subjects'];
  }

  /** Spelled with `subjects`, `kind`, `Service` and `Deployment`: the tree
      `subjects: {kind: Service}` with the path `subjects/kind` and the value
      `Deployment` becomes `subjects: {kind: Deployment}`; the new scalar
      keeps the old value's prefix and takes the next free identity. */
  lemma ReplaceNestedValue(outer: string, inner: string, service: string, deployment: string)
    requires outer != "" && '/' !in outer && '/' !in inner && outer != "*" && inner != "*"
    ensures
      var kind := KindEntry(inner, service);
      var kind' := kind.(value := Value(9, " ", deployment));
      ChangeValue(outer + "/" + inner, deployment, SubjectsStream(outer, kind)) == SubjectsStream(outer, kind')
  {
    var kind := KindEntry(inner, service);
    var before := SubjectsStream(outer, kind);
    var m := KeyPathMatcher(outer + "/" + inner);
    TwoKeyMatcher(outer, inner, [outer]);
    TwoKeyMatcher(outer, inner, [outer, inner]);
    SubjectsStreamIds(outer, inner, service);
    SubjectsRewritten(m, outer, inner, service, deployment);
    assert before.docs[1..] == [];
  }

  /** Spelled with `x`, `1`, `y` and `9`: the tree `x: 1` with the path `y`
      is left exactly as it is. */
  lemma NoMatchingKey(x: string, one: string, y: string, nine: string)
    requires '/' !in y && y != "*" && y != "" && x != y
    ensures
      var before := Stream(Mapping(2, "", EmptyMarkers, [Entry(3, "", EmptyMarkers, Key(4, x), Value(5, " ", one))]));
      ChangeValue(y, nine, before) == before
  {
    var e := Entry(3, "", EmptyMarkers, Key(4, x), Value(5, " ", one));
    var before := Stream(Mapping(2, "", EmptyMarkers, [e]));
    XPath.ExactPath([y], [x]);
    assert XPath.Join([y]) == y;
    assert EntryCursor([], e) == [x];
    assert EntryPaths([], e) == {[x]};
    assert EntriesPaths([], [e]) == {[x]};
    assert DocsPaths(before.docs) == {[x]};
    ChangeValueUnchangedIff(y, nine, before);
  }
}
