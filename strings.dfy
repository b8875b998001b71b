/** The string operations completion needs: removing every underscore (a
    regular-expression replacement of the class `[_]` by nothing) and the two
    slash tests on paths. */
module Strings {
  import opened Collections

  predicate NotUnderscore(c: char)
  {
    c != '_'
  }

  /** The string with every `_` removed and every other character kept, in order. */
  function RemoveUnderscores(s: string): (r: string)
    ensures '_' !in r
    ensures |r| <= |s|
  {
    Filter(NotUnderscore, s)
  }

  /** Removing underscores keeps every other character as often as it occurs
      and drops all underscores. */
  lemma RemoveUnderscoresCounts(s: string)
    ensures multiset(RemoveUnderscores(s)) == multiset(s)['_' := 0]
    ensures |RemoveUnderscores(s)| == |s| - multiset(s)['_']
  {
    FilterMultiset(NotUnderscore, s);
    assert multiset(RemoveUnderscores(s)) == multiset(s)['_' := 0];
  }

  /** A string changes under removal exactly when it holds an underscore. */
  lemma RemoveUnderscoresFixed(s: string)
    ensures RemoveUnderscores(s) == s <==> '_' !in s
  {
    if '_' !in s {
      FilterKeepsAll(NotUnderscore, s);
    }
  }

  /** Removing underscores twice is removing them once. */
  lemma RemoveUnderscoresIdempotent(s: string)
    ensures RemoveUnderscores(RemoveUnderscores(s)) == RemoveUnderscores(s)
  {
    RemoveUnderscoresFixed(RemoveUnderscores(s));
  }

  /** `path` begins with `/`. */
  predicate StartsWithSlash(path: string)
  {
    |path| > 0 && path[0] == '/'
  }

  /** `path` ends with `/`. */
  predicate EndsWithSlash(path: string)
  {
    |path| > 0 && path[|path| - 1] == '/'
  }
}
