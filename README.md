# Change value, and writing octal literals as decimal

This project models two small rewrites from the OpenRewrite code base and proves properties of them in Dafny.

**The YAML `ChangeValue` recipe** (`yaml_tree.dfy`, `xpath.dfy`, `change_value.dfy`, `change_value_properties.dfy`, `change_value_examples.dfy`).
The recipe walks an immutable YAML tree depth-first. At every mapping entry it first visits the entry's children. It then asks a key-path matcher, compiled once from `oldKeyPath`, whether the current cursor matches. If it does, the entry's value is replaced by a new plain scalar. That scalar has a fresh id, the prefix of the visited value, empty markers and the configured `value` as its text. The key is left as it was.

In the model:
- The tree is a family of datatypes: `Documents`, `Document`, `Block` (a scalar, a mapping or a sequence), `Entry` and `SeqEntry`. Each node carries an id, a prefix and markers.
- The visitor is one family of recursive functions: `RewriteBlock`, `RewriteEntry`, `RewriteEntries`, `RewriteItem`, `RewriteItems` and the document-level functions.
- Each function threads the matcher, the replacement literal, the cursor and an id counter explicitly.
- The cursor is the list of key texts of the enclosing mapping entries, outermost first. It ends with the current entry's key.
- `randomId()` is modelled as a counter. `ChangeValue` starts it just above every id already in the tree.
- Every property about the visitor holds for an arbitrary matcher `seq<string> -> bool`. A simplified concrete matcher is given separately (see "Left out").

**The octal-literal rule** (`octal_literals.dfy`), as the test `WriteOctalValuesAsDecimalTest` fixes it. An `int` or `short` literal written as a `0` followed by octal digits becomes the decimal text of its base-8 value. Hexadecimal (`0x…`), binary (`0b…`) and decimal literals are left alone. The model has three layers:
- `WriteAsDecimal` works on one literal text.
- `RewriteLine` and `RewriteSource` work on declaration lines of a source.
- `LiteralValue` is the reference reading of an integer literal's value, and the lemmas are stated against it.

## Model

| member | source | states |
|---|---|---|
| `ChangeValueRecipe.RewriteBlock` | rewrite-yaml/src/main/java/org/openrewrite/yaml/ChangeValue.java:57 | The generic visit of a non-entry node keeps its kind, id, prefix and markers. A scalar comes back unchanged. Mappings and sequences keep the length, keys, ids, prefixes and markers of their children. The counter advances by exactly the number of matching entry positions. When nothing was drawn the block is returned as it was. |
| `ChangeValueRecipe.RewriteEntry` | rewrite-yaml/src/main/java/org/openrewrite/yaml/ChangeValue.java:56-64 | The entry's id, prefix, markers and key are always kept. On a match, the value becomes exactly `Scalar(fresh id, old value's prefix, empty markers, PLAIN, value)`, whatever the old value's kind. The fresh id is taken after every id its descendants drew, so children are visited first. With no match, the entry is the child visit's result. |
| `ChangeValueRecipe.RewriteEntries` | rewrite-yaml/src/main/java/org/openrewrite/yaml/ChangeValue.java:57 | Rewriting a mapping's entries keeps their number, order, keys, ids, prefixes and markers. It draws one id per matching position, and an untouched list comes back unchanged. |
| `ChangeValueRecipe.RewriteItems` | rewrite-yaml/src/main/java/org/openrewrite/yaml/ChangeValue.java:57 | Sequence items are only traversed: their number, ids, prefixes and markers are kept, and ids are drawn only for matches below them. |
| `ChangeValueRecipe.RewriteItem` | rewrite-yaml/src/main/java/org/openrewrite/yaml/ChangeValue.java:57 | A sequence item is only traversed: its id, prefix and markers are kept. Its block's matches are counted, and an item without matches is returned as it was. |
| `ChangeValueRecipe.RewriteDocument` | rewrite-yaml/src/main/java/org/openrewrite/yaml/ChangeValue.java:57 | A document's block is visited from the empty cursor. The document keeps its id, prefix and markers, and one id is drawn per match. |
| `ChangeValueRecipe.RewriteDocs` | rewrite-yaml/src/main/java/org/openrewrite/yaml/ChangeValue.java:57 | The number, ids, prefixes and markers of a stream's documents are kept. One id is drawn per match, and an untouched list comes back unchanged. |
| `ChangeValueRecipe.RewriteDocuments` | rewrite-yaml/src/main/java/org/openrewrite/yaml/ChangeValue.java:54-66 | The visit of a document stream starts at an empty cursor. It keeps the stream's and every document's id, prefix and markers, and returns the stream as it was when no id was drawn. |
| `ChangeValueRecipe.ChangeValue` | rewrite-yaml/src/main/java/org/openrewrite/yaml/ChangeValue.java:52-67 | The recipe builds the matcher once from `oldKeyPath` and rewrites the stream with it. The root and every document keep their id, prefix and markers. With no matching position, the output is the input. |
| `ChangeValueProperties.EntriesAt` | rewrite-yaml/src/main/java/org/openrewrite/yaml/ChangeValue.java:56-64 | Entry k of a rewritten mapping is that entry's own visit. Its counter starts past the draws of the entries before it, so entries are visited in order. |
| `ChangeValueProperties.MatchedEntryReplaced` | rewrite-yaml/src/main/java/org/openrewrite/yaml/ChangeValue.java:58-61 | A matching entry at any position of a mapping keeps its key, id, prefix and markers. Its value becomes `Scalar(_, old value's prefix, EMPTY, PLAIN, value)`. |
| `ChangeValueProperties.ItemsAt` | rewrite-yaml/src/main/java/org/openrewrite/yaml/ChangeValue.java:57 | Item k of a rewritten sequence is that item's own visit. Its counter starts past the draws of the items before it. |
| `ChangeValueProperties.DocsAt` | rewrite-yaml/src/main/java/org/openrewrite/yaml/ChangeValue.java:57 | Document k of a rewritten stream is that document's own visit. Its counter starts past the draws of the documents before it, so documents are visited in order. |
| `ChangeValueProperties.NoMatchUnchanged` | rewrite-yaml/src/main/java/org/openrewrite/yaml/ChangeValue.java:57-64 | For any matcher that accepts no entry position of the tree, the output equals the input and no id is consumed. |
| `ChangeValueProperties.ChangeValueUnchangedIff` | rewrite-yaml/src/main/java/org/openrewrite/yaml/ChangeValue.java:58-64 | The recipe returns its input unchanged if and only if the key path matches no entry position. Any match makes some node of the output new. |
| `ChangeValueProperties.BlockNoMatch` | rewrite-yaml/src/main/java/org/openrewrite/yaml/ChangeValue.java:58 | The number of replacements in a block is zero exactly when the matcher rejects every entry position in it. |
| `ChangeValueProperties.UntouchedEntries` | rewrite-yaml/src/main/java/org/openrewrite/yaml/ChangeValue.java:57-64 | Locality: a sibling entry whose subtree holds no matching position is returned identical to the input, whatever happens to its siblings. |
| `ChangeValueProperties.UntouchedItems` | rewrite-yaml/src/main/java/org/openrewrite/yaml/ChangeValue.java:57 | Locality for sequence items: an item with no matching position below it is returned identical. |
| `ChangeValueProperties.BlockIdempotent` | rewrite-yaml/src/main/java/org/openrewrite/yaml/ChangeValue.java:58-61 | For any matcher and counters, rewriting a rewritten block again gives the same block up to node ids. |
| `ChangeValueProperties.EntryIdempotent` | rewrite-yaml/src/main/java/org/openrewrite/yaml/ChangeValue.java:58-61 | A matched entry keeps its key, so it matches again and gets the same literal and prefix. An unmatched one stays unmatched. Either way the second run changes only ids. |
| `ChangeValueProperties.ChangeValueIdempotent` | rewrite-yaml/src/main/java/org/openrewrite/yaml/ChangeValue.java:52-67 | Applying the recipe twice yields, up to node ids, the tree that applying it once yields. |
| `ChangeValueProperties.BlockMatcherAgreement` | rewrite-yaml/src/main/java/org/openrewrite/yaml/ChangeValue.java:58 | The matcher is consulted only at entry cursors: two matchers that agree on every entry position of a block give the same result. |
| `ChangeValueProperties.BlockFresh` | rewrite-yaml/src/main/java/org/openrewrite/yaml/ChangeValue.java:60 | Every id in a rewritten block is an id of the input block or one drawn from the counter range of that visit. When an id was drawn, the last one is present in the output. |
| `ChangeValueProperties.EntryFresh` | rewrite-yaml/src/main/java/org/openrewrite/yaml/ChangeValue.java:59-61 | Every id of the rewritten entry is an input id or one drawn from the counter. A matched entry's ids are exactly its own, its key's and the last id drawn. For distinct input ids below the counter, the replaced value's old ids and the ids its children drew therefore all leave the output. |
| `ChangeValueProperties.DocumentsFresh` | rewrite-yaml/src/main/java/org/openrewrite/yaml/ChangeValue.java:60 | Over a whole stream, output ids are input ids or ids drawn from the counter, and the last drawn id is present. |
| `ChangeValueProperties.BlockDistinct` | rewrite-yaml/src/main/java/org/openrewrite/yaml/ChangeValue.java:60 | If the input's ids are distinct and below the counter, the output's ids are distinct too. A fresh scalar never collides with another node. |
| `ChangeValueProperties.ChangeValueFreshIds` | rewrite-yaml/src/main/java/org/openrewrite/yaml/ChangeValue.java:60 | Every id in the recipe's output is an input id or an id above all input ids, and distinct input ids stay distinct. |
| `ChangeValueExamples.ReplaceNestedValue` | rewrite-yaml/src/main/java/org/openrewrite/yaml/ChangeValue.java:34-39 | The option examples, for any such key names: `subjects: {kind: Service}` with `subjects/kind` and `Deployment` becomes `subjects: {kind: Deployment}`. The new scalar keeps the old prefix and takes the next free id. Nothing else changes. |
| `ChangeValueExamples.NoMatchingKey` | rewrite-yaml/src/main/java/org/openrewrite/yaml/ChangeValue.java:58-64 | `x: 1` with a path `y` naming another key is left exactly as it is. |
| `XPath.ExactPath` | rewrite-yaml/src/main/java/org/openrewrite/yaml/ChangeValue.java:53 | In the simplified matcher, a slash-joined path of plain keys matches exactly the cursor made of those keys: both directions. |
| `XPath.WildcardPath` | rewrite-yaml/src/main/java/org/openrewrite/yaml/ChangeValue.java:53 | In the simplified matcher, a `*` segment matches any single key at its position and nothing else changes what matches. |
| `XPath.SplitJoin` | rewrite-yaml/src/main/java/org/openrewrite/yaml/ChangeValue.java:53 | Splitting a slash-joined path of keys without `/` gives those keys back. |
| `XPath.JoinSplit` | rewrite-yaml/src/main/java/org/openrewrite/yaml/ChangeValue.java:53 | Joining the segments of any split path gives the path back. |
| `ChangeValueExamples.IdBoundIncreasing` | rewrite-yaml/src/main/java/org/openrewrite/yaml/ChangeValue.java:60 | For ids listed in increasing order, the counter's starting point is one past the last id. |
| `Yaml.IdBound` | rewrite-yaml/src/main/java/org/openrewrite/yaml/ChangeValue.java:60 | The counter's starting point is above every id of the tree, so drawn ids are fresh. |
| `OctalLiterals.WriteAsDecimal` | rewrite-test/src/main/kotlin/org/openrewrite/java/cleanup/WriteOctalValuesAsDecimalTest.kt:34-51 | The literal rule. A text that is not a leading-zero octal literal is returned as it is. An octal literal becomes a decimal literal of the same value, by the reference `LiteralValue`. |
| `OctalLiterals.WriteAsDecimalKeepsValue` | rewrite-test/src/main/kotlin/org/openrewrite/java/cleanup/WriteOctalValuesAsDecimalTest.kt:31-54 | Against the reference `LiteralValue`, the rule keeps the value of every literal. An octal literal's decimal replacement reads back as its base-8 value. |
| `OctalLiterals.WriteAsDecimalChangesOnlyOctal` | rewrite-test/src/main/kotlin/org/openrewrite/java/cleanup/WriteOctalValuesAsDecimalTest.kt:31-54 | A literal changes if and only if it is a leading-zero octal literal, and then it becomes a decimal literal. |
| `OctalLiterals.WriteAsDecimalIdempotent` | rewrite-test/src/main/kotlin/org/openrewrite/java/cleanup/WriteOctalValuesAsDecimalTest.kt:43-54 | Applying the rule to its own output changes nothing. |
| `OctalLiterals.DecimalText` | rewrite-test/src/main/kotlin/org/openrewrite/java/cleanup/WriteOctalValuesAsDecimalTest.kt:46-47 | The decimal text of a number is a decimal literal: digits only, no leading zero. Its base-10 value is the number. |
| `OctalLiterals.RewriteLine` | rewrite-test/src/main/kotlin/org/openrewrite/java/cleanup/WriteOctalValuesAsDecimalTest.kt:34-39 | A line that is not an octal declaration is kept exactly. An octal declaration keeps its indent, type and name, and gets a decimal literal of the same value. |
| `OctalLiterals.RewriteSource` | rewrite-test/src/main/kotlin/org/openrewrite/java/cleanup/WriteOctalValuesAsDecimalTest.kt:31-54 | Over a whole source: same number of lines, every non-octal line kept identically, every octal declaration changed only in its literal, which keeps its value. |
| `OctalLiterals.OctalIntExample` | rewrite-test/src/main/kotlin/org/openrewrite/java/cleanup/WriteOctalValuesAsDecimalTest.kt:34 | `010` becomes `8`. |
| `OctalLiterals.HexUnchanged` | rewrite-test/src/main/kotlin/org/openrewrite/java/cleanup/WriteOctalValuesAsDecimalTest.kt:36 | `0x01` is left unchanged although it starts with `0`. |
| `OctalLiterals.BinaryUnchanged` | rewrite-test/src/main/kotlin/org/openrewrite/java/cleanup/WriteOctalValuesAsDecimalTest.kt:37 | `0b01` is left unchanged. |
| `OctalLiterals.DecimalUnchanged` | rewrite-test/src/main/kotlin/org/openrewrite/java/cleanup/WriteOctalValuesAsDecimalTest.kt:38-39 | `12` and `1` are left unchanged. |
| `OctalLiterals.TestLinePairs` | rewrite-test/src/main/kotlin/org/openrewrite/java/cleanup/WriteOctalValuesAsDecimalTest.kt:31-54 | Each before line of the test becomes the after line at the same position. This covers the `short m2 = 010` line, which becomes `8`. |
| `OctalLiterals.TestLinesRender` | rewrite-test/src/main/kotlin/org/openrewrite/java/cleanup/WriteOctalValuesAsDecimalTest.kt:34-47 | The modelled declarations print as the test's `int m = 010;`, `short m2 = 010;`, `int m = 8;` and `short m2 = 8;`. |
| `OctalLiterals.WriteAsDecimalTestCase` | rewrite-test/src/main/kotlin/org/openrewrite/java/cleanup/WriteOctalValuesAsDecimalTest.kt:29-55 | The test's whole before source rewrites to its whole after source. |

## Left out

- The matcher's expression grammar and compiler (`XPathMatcher`) are not part of this model. The visitor's properties hold for any matcher. The concrete `XPath` module is an assumed simplification: slash-separated segments, one per key, `*` for any one key, and one leading `/` ignored. It has no `//`, no attribute or index syntax, and no construction-time syntax error.
- Structural sharing by reference is modelled as value equality: an unchanged subtree is equal to its input.
- The generated ids are a counter, not random UUIDs. The only property kept is freshness: distinct from every id in the tree, and distinct from each other.
- Markers are an opaque value. Only "empty on the replacement" is modelled.
- The YAML parser and printer, `ExecutionContext`, the recipe's display name and description, and its `@Option` metadata are not modelled.
- Anchors, aliases and comment nodes are not in the modelled tree, and neither are entry and sequence details such as the text before the `:` indicator. The entry key is always a scalar.
- The replacement takes the prefix of the value as the child visit returned it (ChangeValue.java:60). `RewriteBlock` proves that the child visit never changes a value's own prefix, so this is also the input value's prefix.
- The `WriteOctalValuesAsDecimal` implementation is not part of this model. Only the literal rule its test asserts is modelled, for `int` and `short` literals.
- The octal rule does not model `long` suffixes, underscores in literals, or negative values, because the test covers none of them.
- OctalLiterals.WriteAsDecimal: does not model 32-bit wrap-around. Octal literals above 2^31-1 are read by the language as negative `int` values (two's complement); the model writes their unsigned value, because the test only fixes small literals.
- The Java parser and the `assertChanged` test harness are not modelled. Source text is modelled as a list of declaration lines and lines that hold no integer literal.
- Integer literals outside a `<type> <name> = <literal>;` declaration (in calls, expressions or other statements) are not modelled: `Other` lines stand for lines without integer literals and are always kept.
