# Completion candidates of BashSupport, in Dafny

BashSupport is an IDE plugin for shell scripts. Its class
`CompletionProviderUtils` turns raw completion candidates into items of the
editor's completion popup ("lookup elements"). There are four operations:

- `createPsiItems`: one case-sensitive item per named program element.
- `createItems`: one item per string. The item is shown and matched as given, and can also be matched by the string with every `_` removed. Every item carries the same icon.
- `wrapInGroup`: wraps each item, unchanged, with a grouping number that ranks it in the popup.
- `createPathItems`: item building for filesystem paths.
  1. On Windows every path is first converted to the shell's form.
  2. Each path becomes an item whose flag is true when the path does not end with `/`.
  3. The paths are split into relative paths (not starting with `/`) and absolute paths.
  4. The output is the relative items, grouped as `RelativeFilePath`, followed by the absolute items, grouped as `AbsoluteFilePath`. Each group keeps input order.

The model has these files:

- `lookup.dfy` (module `Lookup`): the popup item as a datatype.
  - `Builder` stands for an item from the lookup-element builder. It holds the object it stands for, its lookup string, case sensitivity, one additional lookup string and the icon.
  - `PathElement` stands for a path item: the path and its flag.
  - `Prioritized` stands for the grouping wrapper: the wrapped item and its grouping number.
  - The module also holds the icon token, the named element and the two path groups.
- `collections.dfy` (module `Collections`): the collection views the code builds on.
  - `Transform` and `Filter` are one-to-one mapping and order-keeping filtering, as Guava's `transform` and `filter` views yield them.
  - `Not` is predicate negation.
  - The rest is the theory of the stable split that `createPathItems` performs.
  - `PartitionIndex` is an independent, counting definition of where each element ends up. The lemmas prove that the filter-and-concatenate construction puts every element exactly there.
- `strings.dfy` (module `Strings`): removing underscores, and the two slash tests.
- `completion_provider_utils.dfy` (module `CompletionProviderUtils`): the four operations.
  - `createPsiItems`, `createItems` and `wrapInGroup` are functions, as the source builds them from function objects.
  - `createPathItems` is a method. It conditionally rebinds its path list and fills a fresh result list with two appends.
  - `GroupedPathItems` is the concatenation of the two grouped lists. Its lemmas prove the three properties the method promises: `PlacedByRank`, `CoveredByRank` and `RelativeBeforeAbsolute`.
- `completion_examples.dfy` (module `CompletionExamples`): callers.
  - They show that the contract of `CreatePathItems` alone fixes its output for concrete inputs.
  - For example, `["b", "/a", "c", "/d"]` gives `b`, `c` in the relative group, then `/a`, `/d` in the absolute group.
  - The item for `foo_bar` is also matched by `foobar`.

The Windows test and the path converter are parameters of `CreatePathItems`: `isWindows` and `toBashCompatible`.

A path item's flag is true when the path does not end with `/`, so it means "is a file", not "is a directory". No operation removes duplicate candidates.

## Model

| member | source | states |
|---|---|---|
| `Collections.Transform` | src/com/ansorgit/plugins/bash/editor/codecompletion/CompletionProviderUtils.java:42-46 | the view has one element per input element; element `i` is the function applied to input `i` |
| `Collections.Filter` | src/com/ansorgit/plugins/bash/editor/codecompletion/CompletionProviderUtils.java:90 | every kept element satisfies the predicate and no more elements are kept than given |
| `Collections.FilterAt` | src/com/ansorgit/plugins/bash/editor/codecompletion/CompletionProviderUtils.java:90 | an accepted input element appears in the filtered view at the index equal to the number of accepted elements before it, so the view keeps input order |
| `Collections.FilterSource` | src/com/ansorgit/plugins/bash/editor/codecompletion/CompletionProviderUtils.java:90 | every element of the filtered view is an accepted input element with exactly as many accepted elements before it as its view index |
| `Collections.FilterMultiset` | src/com/ansorgit/plugins/bash/editor/codecompletion/CompletionProviderUtils.java:90 | the filter keeps every occurrence of each accepted value and none of a rejected one |
| `Collections.PartitionIsPermutation` | src/com/ansorgit/plugins/bash/editor/codecompletion/CompletionProviderUtils.java:90-94 | filtering by the relative-path predicate and by its negation splits the input completely and disjointly: the two parts together are a permutation of it |
| `Collections.CountWhereIsFilterSize` | src/com/ansorgit/plugins/bash/editor/codecompletion/CompletionProviderUtils.java:90-94 | the filter keeps as many elements as satisfy the predicate; the negated filter keeps all the others |
| `Collections.PartitionIndexBounds` | src/com/ansorgit/plugins/bash/editor/codecompletion/CompletionProviderUtils.java:96-98 | every element's position lies inside the output; accepted (relative) elements take exactly the first positions, rejected (absolute) ones the rest |
| `Collections.PartitionIndexAcceptedFirst` | src/com/ansorgit/plugins/bash/editor/codecompletion/CompletionProviderUtils.java:96-98 | every relative path is placed before every absolute path |
| `Collections.PartitionIndexKeepsOrder` | src/com/ansorgit/plugins/bash/editor/codecompletion/CompletionProviderUtils.java:90-94 | two paths of the same group keep their input order |
| `Collections.PartitionIndexInjective` | src/com/ansorgit/plugins/bash/editor/codecompletion/CompletionProviderUtils.java:96-98 | no two input paths share an output position |
| `Collections.PartitionIndexCovers` | src/com/ansorgit/plugins/bash/editor/codecompletion/CompletionProviderUtils.java:96-98 | every output position is taken by some input path |
| `Collections.PartitionPlacement` | src/com/ansorgit/plugins/bash/editor/codecompletion/CompletionProviderUtils.java:90-98 | mapping the two filtered parts and concatenating them, accepted part first, puts the image of each input element at that element's partition position |
| `Strings.RemoveUnderscores` | src/com/ansorgit/plugins/bash/editor/codecompletion/CompletionProviderUtils.java:53 | the result contains no `_` and is no longer than the input |
| `Strings.RemoveUnderscoresCounts` | src/com/ansorgit/plugins/bash/editor/codecompletion/CompletionProviderUtils.java:53 | the result holds every non-underscore character of the input as often as the input does, and no underscore; its length is the input length less the number of underscores |
| `Strings.RemoveUnderscoresFixed` | src/com/ansorgit/plugins/bash/editor/codecompletion/CompletionProviderUtils.java:53 | removing underscores leaves a string unchanged exactly when it holds no `_` |
| `Strings.RemoveUnderscoresIdempotent` | src/com/ansorgit/plugins/bash/editor/codecompletion/CompletionProviderUtils.java:53 | removing underscores a second time changes nothing |
| `CompletionProviderUtils.CreatePsiItems` | src/com/ansorgit/plugins/bash/editor/codecompletion/CompletionProviderUtils.java:41-47 | one item per named element, in input order; item `i` stands for element `i`, is matched by its name, is case-sensitive, and has no extra lookup string and no icon |
| `CompletionProviderUtils.CreatePsiItemsInjective` | src/com/ansorgit/plugins/bash/editor/codecompletion/CompletionProviderUtils.java:41-47 | the mapping is one-to-one: equal item lists come only from equal element lists |
| `CompletionProviderUtils.CreateItems` | src/com/ansorgit/plugins/bash/editor/codecompletion/CompletionProviderUtils.java:49-57 | one item per string, in input order; item `i` stands for and is matched by string `i` unmodified, is case-sensitive, carries the given icon, and has an additional lookup string that contains no `_` |
| `CompletionProviderUtils.CreateItemsLookupStrings` | src/com/ansorgit/plugins/bash/editor/codecompletion/CompletionProviderUtils.java:52-54 | the additional lookup string is the input with every `_` removed: same other characters, stable under another removal. The item's lookup strings are the input and that string; they collapse to the input alone exactly when it has no `_` |
| `CompletionProviderUtils.CreateItemsKeepsText` | src/com/ansorgit/plugins/bash/editor/codecompletion/CompletionProviderUtils.java:54 | reading back the primary lookup strings of the items gives the input strings |
| `CompletionProviderUtils.WrapInGroup` | src/com/ansorgit/plugins/bash/editor/codecompletion/CompletionProviderUtils.java:59-65 | same count and order; every output item carries the given grouping number and wraps the corresponding input item unchanged |
| `CompletionProviderUtils.WrapInGroupUnwraps` | src/com/ansorgit/plugins/bash/editor/codecompletion/CompletionProviderUtils.java:61-63 | the function object (`Grouped`) leaves each item unchanged inside its wrapper: unwrapping the grouped items gives back the input items |
| `CompletionProviderUtils.BashPaths` | src/com/ansorgit/plugins/bash/editor/codecompletion/CompletionProviderUtils.java:68-76 | one path per input path; on Windows each is the converter's result for the corresponding input, elsewhere the input path itself |
| `CompletionProviderUtils.CreatePathItems` | src/com/ansorgit/plugins/bash/editor/codecompletion/CompletionProviderUtils.java:67-101 | output length equals input length. `PlacedByRank`: each (converted) path's item sits at its relative-first position (`Rank`), flagged as a file exactly when the path does not end with `/`, and grouped as relative exactly when the path does not start with `/`. `CoveredByRank`: every output position holds a grouped path item and is the position of some input path. `RelativeBeforeAbsolute`: no relative-group item follows an absolute-group item |
| `CompletionProviderUtils.GroupedPathItemsPlaced` | src/com/ansorgit/plugins/bash/editor/codecompletion/CompletionProviderUtils.java:78-82 | the item the transformation function builds for a path (`PathItem`) is a path element for that very path, flagged as a file exactly when the path does not end with `/`; it lands at the path's rank |
| `CompletionProviderUtils.GroupedPathItemsSpec` | src/com/ansorgit/plugins/bash/editor/codecompletion/CompletionProviderUtils.java:84-88 | the relative-path predicate (`IsRelativePath`, true when the path does not start with `/`) decides both the group of a path's item and whether it is placed among the first positions; the filtered, mapped and grouped lists together satisfy `PlacedByRank`, `CoveredByRank` and `RelativeBeforeAbsolute` and hold one item per path |
| `Collections.FilterByNot` | src/com/ansorgit/plugins/bash/editor/codecompletion/CompletionProviderUtils.java:93 | filtering by the negated predicate (`Not`, for `Predicates.not`) keeps every occurrence of each rejected value and no accepted value |
| `CompletionProviderUtils.GroupedPathItemsCovered` | src/com/ansorgit/plugins/bash/editor/codecompletion/CompletionProviderUtils.java:96-98 | every position of the two concatenated groups holds a grouped path element and is the rank of some path |
| `CompletionProviderUtils.GroupOf` | src/com/ansorgit/plugins/bash/editor/codecompletion/CompletionProviderUtils.java:97-98 | a path's item is wrapped with the relative group's number exactly when the path does not start with `/`, and with the absolute group's number exactly when it does |
| `CompletionProviderUtils.PsiItem` | src/com/ansorgit/plugins/bash/editor/codecompletion/CompletionProviderUtils.java:43-45 | the function object builds, for one element, a case-sensitive builder item without icon that stands for the element and is matched by its name and nothing else |
| `CompletionProviderUtils.TextItem` | src/com/ansorgit/plugins/bash/editor/codecompletion/CompletionProviderUtils.java:51-55 | the function object builds, for one string, a case-sensitive builder item carrying the icon that stands for and shows the string, and is matched by exactly the string and the string with every `_` removed |
| `CompletionExamples.FooBarWithoutUnderscores` | src/com/ansorgit/plugins/bash/editor/codecompletion/CompletionProviderUtils.java:53 | the string `foo_bar` loses its underscore and becomes `foobar`, the additional key its item is matched by |

## Left out

- Guava's `transform` and `filter` return lazy live views of their input. The model computes the sequence that one pass over the view yields, which is all this code observes.
- `createPsiItems` and `wrapInGroup` accept any collection; the model takes its iteration order as a sequence.
- The host's lookup-element classes: only the data above is modelled. Rendering, insertion behaviour and the remaining builder state are host code outside this model.
- `PathLookupElement` is not part of this model beyond its constructor arguments: the path and the flag.
- `withLookupString` adds to a set of lookup strings. The model records the single string this code adds.
- Icons are opaque tokens; a null icon is not modelled.
- A named element whose name is absent (null) is not modelled; names are strings.
- `String.replaceAll("[_]", "")` is modelled as removing every `_` character. General regular expressions are not modelled.
- `SystemInfoRt.isWindows` and `OSUtil.toBashCompatible` are host code. They are the parameters `isWindows` and `toBashCompatible`, and nothing is assumed about the converter.
- The `CompletionGrouping` enum is not part of this model. `Lookup.Ordinal` gives its two groups the numbers 0 and 1; only their being different is relied on.
- The fresh `LinkedList` that collects the path items is a local sequence that the method appends to. Its object identity is not modelled.
