/** A simplified key-path matcher. The recipe compiles its `oldKeyPath` into
    a matcher once and asks it, at every mapping entry, whether the cursor
    (the keys of the enclosing entries, outermost first, ending with the
    entry's own key) matches. This model reads a path as slash-separated
    segments, one per cursor key, where `*` stands for any single key and a
    single leading `/` is ignored. That reading is an assumption: the
    matcher's own grammar is not part of this model. */
module XPath {

  datatype Segment = Key(name: string) | Wildcard

  datatype PathMatcher = PathMatcher(segments: seq<Segment>)

  /** Splits at every '/'; the inverse of Join. */
  function Split(s: string): (parts: seq<string>)
    ensures |parts| >= 1
  {
    if |s| == 0 then [""]
    else
      var rest := Split(s[1..]);
      if s[0] == '/' then [""] + rest else [[s[0]] + rest[0]] + rest[1..]
  }

  /** Joins keys with '/' between them. */
  function Join(keys: seq<string>): string
    requires |keys| >= 1
  {
    if |keys| == 1 then keys[0] else keys[0] + "/" + Join(keys[1..])
  }

  function ToSegment(part: string): Segment
  {
    if part == "*" then Wildcard else Key(part)
  }

  /** One segment per part, in order. */
  function Segments(parts: seq<string>): (segs: seq<Segment>)
    ensures |segs| == |parts|
    ensures forall i :: 0 <= i < |parts| ==> segs[i] == ToSegment(parts[i])
  {
    if parts == [] then [] else [ToSegment(parts[0])] + Segments(parts[1..])
  }

  /** The path with one leading '/' (a path from the root) removed. */
  function StripRoot(expression: string): string
  {
    if |expression| > 0 && expression[0] == '/' then expression[1..] else expression
  }

  /** Compiles a path expression once; the result is reused for every entry. */
  function Compile(expression: string): PathMatcher
  {
    PathMatcher(Segments(Split(StripRoot(expression))))
  }

  predicate SegmentMatches(seg: Segment, key: string)
  {
    seg.Wildcard? || seg.name == key
  }

  predicate Matches(pm: PathMatcher, cursor: seq<string>)
  {
    && |pm.segments| == |cursor|
    && forall i :: 0 <= i < |cursor| ==> SegmentMatches(pm.segments[i], cursor[i])
  }

  // ---------------------------------------------------------------------

  /** Keys that can be written as one path segment each. */
  predicate PlainKeys(keys: seq<string>)
  {
    forall i :: 0 <= i < |keys| ==> '/' !in keys[i]
  }

  lemma {:induction false} SplitPlain(a: string)
    requires '/' !in a
    ensures Split(a) == [a]
    decreases |a|
  {
    if |a| > 0 {
      SplitPlain(a[1..]);
      assert [a[0]] + a[1..] == a;
    }
  }

  lemma {:induction false} SplitAtSlash(a: string, rest: string)
    requires '/' !in a
    ensures Split(a + "/" + rest) == [a] + Split(rest)
    decreases |a|
  {
    if |a| == 0 {
      assert a + "/" + rest == "/" + rest;
      assert ("/" + rest)[1..] == rest;
    } else {
      var s := a + "/" + rest;
      assert s[0] == a[0];
      assert s[1..] == a[1..] + "/" + rest;
      SplitAtSlash(a[1..], rest);
      assert [a[0]] + a[1..] == a;
    }
  }

  /** Splitting a joined path gives back its keys. */
  lemma {:induction false} SplitJoin(keys: seq<string>)
    requires |keys| >= 1 && PlainKeys(keys)
    ensures Split(Join(keys)) == keys
    decreases |keys|
  {
    if |keys| == 1 {
      SplitPlain(keys[0]);
    } else {
      assert '/' !in keys[0];
      SplitAtSlash(keys[0], Join(keys[1..]));
      SplitJoin(keys[1..]);
      assert [keys[0]] + keys[1..] == keys;
    }
  }

  /** Joining the parts of a split gives back the string. */
  lemma {:induction false} JoinSplit(s: string)
    ensures Join(Split(s)) == s
    decreases |s|
  {
    if |s| > 0 {
      JoinSplit(s[1..]);
      var rest := Split(s[1..]);
      if s[0] == '/' {
        assert Split(s) == [""] + rest;
        assert Split(s)[1..] == rest;
        assert s == "/" + s[1..];
      } else {
        var parts := Split(s);
        assert parts == [[s[0]] + rest[0]] + rest[1..];
        if |rest| == 1 {
          assert parts == [[s[0]] + rest[0]];
          assert rest == [rest[0]];
        } else {
          assert parts[1..] == rest[1..];
          assert Join(rest) == rest[0] + "/" + Join(rest[1..]);
        }
      }
    }
  }

  /** A joined path begins with the first character of its first key. */
  lemma JoinHead(keys: seq<string>)
    requires |keys| >= 1 && keys[0] != ""
    ensures |Join(keys)| > 0 && Join(keys)[0] == keys[0][0]
  {
    if |keys| > 1 {
      assert Join(keys) == keys[0] + "/" + Join(keys[1..]);
    }
  }

  /** Compiling a joined path of plain keys gives one segment per key. */
  lemma CompileJoin(keys: seq<string>)
    requires |keys| >= 1 && PlainKeys(keys) && keys[0] != ""
    ensures Compile(Join(keys)).segments == Segments(keys)
  {
    JoinHead(keys);
    assert keys[0][0] != '/' by {
      assert '/' !in keys[0];
    }
    assert StripRoot(Join(keys)) == Join(keys);
    SplitJoin(keys);
  }

  /** A path written as plain keys, none of them `*` and the first non-empty,
      matches exactly the cursor made of those keys. */
  lemma ExactPath(keys: seq<string>, cursor: seq<string>)
    requires |keys| >= 1 && PlainKeys(keys) && keys[0] != ""
    requires forall i :: 0 <= i < |keys| ==> keys[i] != "*"
    ensures Matches(Compile(Join(keys)), cursor) <==> cursor == keys
  {
    CompileJoin(keys);
    var pm := Compile(Join(keys));
    assert pm.segments == Segments(keys);
    SegmentsExact(keys, pm, cursor);
  }

  lemma SegmentsExact(keys: seq<string>, pm: PathMatcher, cursor: seq<string>)
    requires forall i :: 0 <= i < |keys| ==> keys[i] != "*"
    requires pm.segments == Segments(keys)
    ensures Matches(pm, cursor) <==> cursor == keys
  {
    var segs := Segments(keys);
    assert forall i :: 0 <= i < |keys| ==> segs[i] == Key(keys[i]);
    if Matches(pm, cursor) {
      assert forall i :: 0 <= i < |keys| ==> SegmentMatches(segs[i], cursor[i]);
      assert forall i :: 0 <= i < |keys| ==> cursor[i] == keys[i];
    }
  }

  /** A `*` segment matches any single key in its position. */
  lemma WildcardPath(before: seq<string>, after: seq<string>, cursor: seq<string>)
    requires |before| >= 1 && PlainKeys(before) && before[0] != ""
    requires PlainKeys(after)
    requires forall i :: 0 <= i < |before| ==> before[i] != "*"
    requires forall i :: 0 <= i < |after| ==> after[i] != "*"
    ensures Matches(Compile(Join(before + ["*"] + after)), cursor) <==>
      && |cursor| == |before| + 1 + |after|
      && cursor[..|before|] == before
      && cursor[|before| + 1..] == after
  {
    var keys := before + ["*"] + after;
    PlainWildcardKeys(before, after);
    assert keys[0] == before[0];
    CompileJoin(keys);
    var pm := Compile(Join(keys));
    WildcardKeysAt(before, after);
    SegmentsOfWildcardKeys(before, after, keys);
    SegmentsWildcard(before, after, pm, cursor);
  }

  lemma PlainWildcardKeys(before: seq<string>, after: seq<string>)
    requires PlainKeys(before) && PlainKeys(after)
    ensures PlainKeys(before + ["*"] + after)
  {
    var keys := before + ["*"] + after;
    var n := |before|;
    forall i | 0 <= i < |keys| ensures '/' !in keys[i] {
      if i < n { assert keys[i] == before[i]; }
      else if i == n { assert keys[i] == "*"; }
      else { assert keys[i] == after[i - n - 1]; }
    }
  }

  lemma WildcardKeysAt(before: seq<string>, after: seq<string>)
    ensures var keys := before + ["*"] + after;
      && |keys| == |before| + 1 + |after|
      && (forall i :: 0 <= i < |before| ==> keys[i] == before[i])
      && keys[|before|] == "*"
      && (forall i :: 0 <= i < |after| ==> keys[|before| + 1 + i] == after[i])
  {
  }

  lemma SegmentsOfWildcardKeys(before: seq<string>, after: seq<string>, keys: seq<string>)
    requires forall i :: 0 <= i < |before| ==> before[i] != "*"
    requires forall i :: 0 <= i < |after| ==> after[i] != "*"
    requires |keys| == |before| + 1 + |after|
    requires forall i :: 0 <= i < |before| ==> keys[i] == before[i]
    requires keys[|before|] == "*"
    requires forall i :: 0 <= i < |after| ==> keys[|before| + 1 + i] == after[i]
    ensures var segs := Segments(keys);
      && |segs| == |before| + 1 + |after|
      && (forall i :: 0 <= i < |before| ==> segs[i] == Key(before[i]))
      && segs[|before|] == Wildcard
      && (forall i :: 0 <= i < |after| ==> segs[|before| + 1 + i] == Key(after[i]))
  {
    var n := |before|;
    var segs := Segments(keys);
    forall i | 0 <= i < |after| ensures segs[n + 1 + i] == Key(after[i]) {
      assert segs[n + 1 + i] == ToSegment(keys[n + 1 + i]);
    }
  }

  lemma SegmentsWildcard(before: seq<string>, after: seq<string>, pm: PathMatcher, cursor: seq<string>)
    requires |pm.segments| == |before| + 1 + |after|
    requires forall i :: 0 <= i < |before| ==> pm.segments[i] == Key(before[i])
    requires pm.segments[|before|] == Wildcard
    requires forall i :: 0 <= i < |after| ==> pm.segments[|before| + 1 + i] == Key(after[i])
    ensures Matches(pm, cursor) <==>
      && |cursor| == |before| + 1 + |after|
      && cursor[..|before|] == before
      && cursor[|before| + 1..] == after
  {
    var n := |before|;
    var segs := pm.segments;
    if Matches(pm, cursor) {
      forall i | 0 <= i < n ensures cursor[..n][i] == before[i] {
        assert SegmentMatches(segs[i], cursor[i]);
      }
      forall i | 0 <= i < |after| ensures cursor[n + 1..][i] == after[i] {
        assert SegmentMatches(segs[n + 1 + i], cursor[n + 1 + i]);
      }
    }
    if && |cursor| == n + 1 + |after|
       && cursor[..n] == before
       && cursor[n + 1..] == after {
      forall i | 0 <= i < |cursor| ensures SegmentMatches(segs[i], cursor[i]) {
        if i < n {
          assert cursor[i] == cursor[..n][i];
        } else if i > n {
          assert cursor[i] == cursor[n + 1..][i - n - 1];
          assert segs[n + 1 + (i - n - 1)] == Key(after[i - n - 1]);
        }
      }
    }
  }
}
