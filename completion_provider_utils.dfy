/** Turns raw completion candidates of a shell script (named program
    elements, plain strings and filesystem paths) into popup items, and sorts
    path candidates into a relative group that comes first and an absolute
    group that follows. */
module CompletionProviderUtils {
  import opened Collections
  import opened Lookup
  import opened Strings

  // ---------------------------------------------------------------------------
  // Named elements

  /** The item for one named element: it stands for the element, is matched by
      its name and matches case-sensitively. */
  function PsiItem(e: NamedElement): (r: LookupElement)
    ensures r.Builder? && r.obj == PsiObject(e) && r.caseSensitive && r.icon == None
    ensures AllLookupStrings(r) == {e.name}
  {
    Builder(PsiObject(e), e.name, true, None, None)
  }

  /** One case-sensitive item per named element, in input order. */
  function CreatePsiItems(elements: seq<NamedElement>): (r: seq<LookupElement>)
    ensures |r| == |elements|
    ensures forall i :: 0 <= i < |r| ==>
      r[i].Builder? && r[i].obj == PsiObject(elements[i]) &&
      r[i].lookupString == elements[i].name && r[i].caseSensitive &&
      r[i].extraLookup == None && r[i].icon == None
  {
    Transform(PsiItem, elements)
  }

  /** No two element lists give the same items: each item identifies its element. */
  lemma CreatePsiItemsInjective(a: seq<NamedElement>, b: seq<NamedElement>)
    requires CreatePsiItems(a) == CreatePsiItems(b)
    ensures a == b
  {
  }

  // ---------------------------------------------------------------------------
  // Plain strings

  /** The item for one string: shown and matched as given, additionally matched
      by the string without its underscores, case-sensitive, with the icon. */
  function TextItem(icon: Icon, s: string): (r: LookupElement)
    ensures r.Builder? && r.obj == TextObject(s) && r.lookupString == s
    ensures r.caseSensitive && r.icon == Some(icon)
    ensures AllLookupStrings(r) == {s, RemoveUnderscores(s)}
  {
    Builder(TextObject(s), s, true, Some(RemoveUnderscores(s)), Some(icon))
  }

  /** One item per string, in input order, each carrying the same icon. */
  function CreateItems(items: seq<string>, icon: Icon): (r: seq<LookupElement>)
    ensures |r| == |items|
    ensures forall i :: 0 <= i < |r| ==>
      r[i].Builder? && r[i].obj == TextObject(items[i]) &&
      r[i].lookupString == items[i] && r[i].caseSensitive && r[i].icon == Some(icon) &&
      r[i].extraLookup.Some? && '_' !in r[i].extraLookup.value
  {
    Transform(s => TextItem(icon, s), items)
  }

  /** The additional lookup string of each string item is its text with every
      underscore removed, so it holds no underscore and stripping it again
      changes nothing; the item gains a second lookup string exactly when its
      text holds an underscore. */
  lemma CreateItemsLookupStrings(items: seq<string>, icon: Icon, i: int)
    requires 0 <= i < |items|
    ensures var e := CreateItems(items, icon)[i];
      e.extraLookup == Some(RemoveUnderscores(items[i])) &&
      multiset(e.extraLookup.value) == multiset(items[i])['_' := 0] &&
      RemoveUnderscores(e.extraLookup.value) == e.extraLookup.value &&
      AllLookupStrings(e) == {items[i], RemoveUnderscores(items[i])} &&
      (AllLookupStrings(e) == {items[i]} <==> '_' !in items[i])
  {
    var e := CreateItems(items, icon)[i];
    assert e == TextItem(icon, items[i]);
    RemoveUnderscoresCounts(items[i]);
    RemoveUnderscoresIdempotent(items[i]);
    RemoveUnderscoresFixed(items[i]);
    if AllLookupStrings(e) == {items[i]} {
      assert RemoveUnderscores(items[i]) in AllLookupStrings(e);
    }
  }

  /** The primary lookup strings of the string items give back the input strings. */
  lemma CreateItemsKeepsText(items: seq<string>, icon: Icon)
    ensures Transform((e: LookupElement) => if e.Builder? then e.lookupString else [],
                      CreateItems(items, icon)) == items
  {
  }

  // ---------------------------------------------------------------------------
  // Grouping

  /** Wraps one item, unchanged, with the grouping number. */
  function Grouped(groupId: int): LookupElement -> LookupElement
  {
    e => Prioritized(e, groupId)
  }

  /** Wraps every item, unchanged, with the grouping number, keeping count and order. */
  function WrapInGroup(groupId: int, elements: seq<LookupElement>): (r: seq<LookupElement>)
    ensures |r| == |elements|
    ensures forall i :: 0 <= i < |r| ==>
      r[i].Prioritized? && r[i].grouping == groupId && r[i].delegate == elements[i]
  {
    Transform(Grouped(groupId), elements)
  }

  /** Unwrapping the grouped items gives back the input items. */
  lemma WrapInGroupUnwraps(groupId: int, elements: seq<LookupElement>)
    ensures Transform(Unwrapped, WrapInGroup(groupId, elements)) == elements
  {
  }

  // ---------------------------------------------------------------------------
  // Paths

  /** A path is relative when it does not begin with `/`. */
  predicate IsRelativePath(path: string)
  {
    !StartsWithSlash(path)
  }

  /** The item for one path, flagged as a file exactly when the path does not
      end with `/`. */
  function PathItem(path: string): LookupElement
  {
    PathElement(path, !EndsWithSlash(path))
  }

  /** The grouping number a path's item gets. */
  function GroupOf(path: string): (g: int)
    ensures g == Ordinal(RelativeFilePath) <==> !StartsWithSlash(path)
    ensures g == Ordinal(AbsoluteFilePath) <==> StartsWithSlash(path)
  {
    if IsRelativePath(path) then Ordinal(RelativeFilePath) else Ordinal(AbsoluteFilePath)
  }

  /** The paths as the shell sees them: each converted on Windows, each as
      given elsewhere. */
  function BashPaths(osPaths: seq<string>, isWindows: bool, toBashCompatible: string -> string): (paths: seq<string>)
    ensures |paths| == |osPaths|
    ensures forall i :: 0 <= i < |osPaths| ==>
      paths[i] == if isWindows then toBashCompatible(osPaths[i]) else osPaths[i]
  {
    if isWindows then Transform(toBashCompatible, osPaths) else osPaths
  }

  /** The output position of path `j`: relative paths first, absolute paths
      after them, each group in input order. */
  function Rank(paths: seq<string>, j: int): int
    requires 0 <= j < |paths|
  {
    PartitionIndex(IsRelativePath, paths, j)
  }

  /** The grouped path items of the shell paths: the relative ones, grouped as
      relative paths, then the absolute ones, grouped as absolute paths. */
  function GroupedPathItems(paths: seq<string>): seq<LookupElement>
  {
    WrapInGroup(Ordinal(RelativeFilePath), Transform(PathItem, Filter(IsRelativePath, paths)))
    + WrapInGroup(Ordinal(AbsoluteFilePath), Transform(PathItem, Filter(Not(IsRelativePath), paths)))
  }

  /** Splitting the paths into the two groups loses and adds none. */
  lemma GroupedPathItemsLength(paths: seq<string>)
    ensures |GroupedPathItems(paths)| == |paths|
  {
    CountWhereIsFilterSize(IsRelativePath, paths);
  }

  /** The item of path `j` sits at its rank, flagged and grouped by the path. */
  lemma GroupedPathItemsPlaced(paths: seq<string>, j: int)
    requires 0 <= j < |paths|
    ensures 0 <= Rank(paths, j) < |GroupedPathItems(paths)|
    ensures GroupedPathItems(paths)[Rank(paths, j)]
      == Prioritized(PathElement(paths[j], !EndsWithSlash(paths[j])), GroupOf(paths[j]))
  {
    PartitionPlacement(IsRelativePath, PathItem, Grouped(Ordinal(RelativeFilePath)),
                       Grouped(Ordinal(AbsoluteFilePath)), paths, j);
  }

  /** Every position holds a grouped path item and is the rank of some path. */
  lemma GroupedPathItemsCovered(paths: seq<string>, k: int)
    requires 0 <= k < |paths|
    ensures k < |GroupedPathItems(paths)|
    ensures GroupedPathItems(paths)[k].Prioritized? && GroupedPathItems(paths)[k].delegate.PathElement?
    ensures exists j :: 0 <= j < |paths| && Rank(paths, j) == k
  {
    GroupedPathItemsLength(paths);
    PartitionIndexCovers(IsRelativePath, paths, k);
    var j :| 0 <= j < |paths| && PartitionIndex(IsRelativePath, paths, j) == k;
    assert Rank(paths, j) == k;
  }

  /** Concatenating two groups puts no item of the second before one of the first. */
  lemma GroupsInOrder(g: int, a: seq<LookupElement>, h: int, b: seq<LookupElement>)
    ensures var r := WrapInGroup(g, a) + WrapInGroup(h, b);
      forall i, k :: 0 <= i < k < |r| ==> r[i].grouping == g || r[k].grouping == h
  {
  }

  /** Item `j` of `r` is the grouped item of path `j`, placed at that path's
      rank: a path element flagged as a file exactly when the path does not
      end with `/`, in the relative group exactly when it does not start
      with `/`. */
  predicate PlacedByRank(paths: seq<string>, r: seq<LookupElement>)
  {
    forall j :: 0 <= j < |paths| ==>
      0 <= Rank(paths, j) < |r| &&
      r[Rank(paths, j)] == Prioritized(PathElement(paths[j], !EndsWithSlash(paths[j])), GroupOf(paths[j]))
  }

  /** Every item of `r` is a grouped path element at the rank of some path. */
  predicate CoveredByRank(paths: seq<string>, r: seq<LookupElement>)
  {
    forall k :: 0 <= k < |r| ==>
      r[k].Prioritized? && r[k].delegate.PathElement? &&
      exists j :: 0 <= j < |paths| && Rank(paths, j) == k
  }

  /** No item of the relative group follows an item of the absolute group. */
  predicate RelativeBeforeAbsolute(r: seq<LookupElement>)
  {
    forall i, k :: 0 <= i < k < |r| && r[i].Prioritized? && r[k].Prioritized? ==>
      r[i].grouping == Ordinal(RelativeFilePath) || r[k].grouping == Ordinal(AbsoluteFilePath)
  }

  /** The grouped path items have one item per path, each placed at its
      path's rank, and the relative group first. */
  lemma GroupedPathItemsSpec(paths: seq<string>)
    ensures |GroupedPathItems(paths)| == |paths|
    ensures PlacedByRank(paths, GroupedPathItems(paths))
    ensures CoveredByRank(paths, GroupedPathItems(paths))
    ensures RelativeBeforeAbsolute(GroupedPathItems(paths))
  {
    GroupedPathItemsLength(paths);
    GroupsInOrder(Ordinal(RelativeFilePath), Transform(PathItem, Filter(IsRelativePath, paths)),
                  Ordinal(AbsoluteFilePath), Transform(PathItem, Filter(Not(IsRelativePath), paths)));
    forall j | 0 <= j < |paths|
      ensures 0 <= Rank(paths, j) < |GroupedPathItems(paths)|
      ensures GroupedPathItems(paths)[Rank(paths, j)]
        == Prioritized(PathElement(paths[j], !EndsWithSlash(paths[j])), GroupOf(paths[j]))
    {
      GroupedPathItemsPlaced(paths, j);
    }
    forall k | 0 <= k < |paths|
      ensures GroupedPathItems(paths)[k].Prioritized? && GroupedPathItems(paths)[k].delegate.PathElement?
      ensures exists j :: 0 <= j < |paths| && Rank(paths, j) == k
    {
      GroupedPathItemsCovered(paths, k);
    }
  }

  /** The path items: on Windows every path is first converted to the shell's
      form; each path then becomes one item flagged as a file unless it ends
      with `/`; the relative items, grouped as relative paths, come first and
      the absolute items, grouped as absolute paths, follow, each group in
      input order. */
  method CreatePathItems(osPaths: seq<string>, isWindows: bool, toBashCompatible: string -> string)
    returns (result: seq<LookupElement>)
    ensures |result| == |osPaths|
    ensures PlacedByRank(BashPaths(osPaths, isWindows, toBashCompatible), result)
    ensures CoveredByRank(BashPaths(osPaths, isWindows, toBashCompatible), result)
    ensures RelativeBeforeAbsolute(result)
  {
    var paths := osPaths;
    if isWindows {
      paths := Transform(toBashCompatible, osPaths);
    }

    var relativePathItems := Transform(PathItem, Filter(IsRelativePath, paths));
    var absolutePathItems := Transform(PathItem, Filter(Not(IsRelativePath), paths));

    var relative := WrapInGroup(Ordinal(RelativeFilePath), relativePathItems);
    var absolute := WrapInGroup(Ordinal(AbsoluteFilePath), absolutePathItems);
    result := [];
    result := result + relative;
    result := result + absolute;

    AppendToEmpty(relative, absolute);
    assert paths == BashPaths(osPaths, isWindows, toBashCompatible);
    GroupedPathItemsSpec(paths);
  }
}
