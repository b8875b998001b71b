/** Callers of the completion builder: what its contracts alone determine
    about concrete inputs. */
module CompletionExamples {
  import opened Collections
  import opened Lookup
  import opened Strings
  import opened CompletionProviderUtils

  /** A sequence of length four is the display of its elements. */
  lemma FourElements<T>(r: seq<T>, a: T, b: T, c: T, d: T)
    requires |r| == 4 && r[0] == a && r[1] == b && r[2] == c && r[3] == d
    ensures r == [a, b, c, d]
  {
  }

  /** Relative paths come first, each group in input order. */
  method MixedPaths() {
    var paths := ["b", "/a", "c", "/d"];
    assert paths[..0] == [] && paths[..1] == ["b"] && paths[..2] == ["b", "/a"] && paths[..3] == ["b", "/a", "c"];
    assert CountWhere(IsRelativePath, ["b"]) == 1;
    assert CountWhere(IsRelativePath, ["b", "/a"]) == 1;
    assert CountWhere(IsRelativePath, ["b", "/a", "c"]) == 2;
    assert CountWhere(IsRelativePath, paths) == 2;
    assert Rank(paths, 0) == 0;
    assert Rank(paths, 1) == 2;
    assert Rank(paths, 2) == 1;
    assert Rank(paths, 3) == 3;
    assert BashPaths(paths, false, p => p) == paths;
    var r := CreatePathItems(paths, false, p => p);
    assert r[0] == Prioritized(PathElement("b", true), Ordinal(RelativeFilePath));
    assert r[1] == Prioritized(PathElement("c", true), Ordinal(RelativeFilePath));
    assert r[2] == Prioritized(PathElement("/a", true), Ordinal(AbsoluteFilePath));
    assert r[3] == Prioritized(PathElement("/d", true), Ordinal(AbsoluteFilePath));
    FourElements(r, r[0], r[1], r[2], r[3]);
    assert r == [Prioritized(PathElement("b", true), Ordinal(RelativeFilePath)),
                 Prioritized(PathElement("c", true), Ordinal(RelativeFilePath)),
                 Prioritized(PathElement("/a", true), Ordinal(AbsoluteFilePath)),
                 Prioritized(PathElement("/d", true), Ordinal(AbsoluteFilePath))];
  }

  /** A path ending in `/` is flagged as a directory, any other as a file. */
  method DirectoryFlag() {
    var dir := CreatePathItems(["usr/local/"], false, p => p);
    assert BashPaths(["usr/local/"], false, p => p) == ["usr/local/"];
    assert Rank(["usr/local/"], 0) == 0;
    assert !dir[0].delegate.isFile;
    var file := CreatePathItems(["usr/local/bin"], false, p => p);
    assert BashPaths(["usr/local/bin"], false, p => p) == ["usr/local/bin"];
    assert Rank(["usr/local/bin"], 0) == 0;
    assert file[0].delegate.isFile;
  }

  /** Removing the underscore of `foo_bar` gives `foobar`. */
  lemma FooBarWithoutUnderscores()
    ensures RemoveUnderscores("foo_bar") == "foobar"
  {
    var s := "foo_bar";
    assert s == ['f'] + s[1..];
    assert s[1..][1..] == "o_bar";
    assert RemoveUnderscores("_bar") == RemoveUnderscores("bar");
  }

  /** The item for `foo_bar` is also matched by `foobar`. */
  method UnderscoreKey(icon: Icon) {
    var r := CreateItems(["foo_bar"], icon);
    FooBarWithoutUnderscores();
    CreateItemsLookupStrings(["foo_bar"], icon, 0);
    assert r[0].lookupString == "foo_bar";
    assert r[0].extraLookup == Some("foobar");
    assert AllLookupStrings(r[0]) == {"foo_bar", "foobar"};
  }

  /** Empty input gives empty output. */
  method EmptyInputs(icon: Icon, toBashCompatible: string -> string) {
    var paths := CreatePathItems([], true, toBashCompatible);
    assert paths == [];
    assert CreateItems([], icon) == [] && CreatePsiItems([]) == [];
  }

  /** On Windows the converted path decides the group and the flag. */
  method ConvertedPath() {
    var r := CreatePathItems(["C:\\tmp\\"], true, p => "/cygdrive/c/tmp/");
    assert BashPaths(["C:\\tmp\\"], true, p => "/cygdrive/c/tmp/") == ["/cygdrive/c/tmp/"];
    assert Rank(["/cygdrive/c/tmp/"], 0) == 0;
    assert r == [Prioritized(PathElement("/cygdrive/c/tmp/", false), Ordinal(AbsoluteFilePath))];
  }
}
