/** Sequence views in the shape the completion builder uses them: a one-to-one
    transform (Guava's Collections2.transform and Lists.transform), an
    order-keeping filter (Collections2.filter) and predicate negation
    (Predicates.not). Guava returns lazy live views; iterated once, as the
    completion code does, a view yields exactly the sequence computed here. */
module Collections {

  /** Applies `f` to every element: one output per input, in input order. */
  function Transform<A, B>(f: A -> B, s: seq<A>): (r: seq<B>)
    ensures |r| == |s|
    ensures forall i :: 0 <= i < |s| ==> r[i] == f(s[i])
  {
    if s == [] then [] else [f(s[0])] + Transform(f, s[1..])
  }

  /** Keeps exactly the elements satisfying `p`, in their original order. */
  function Filter<A>(p: A -> bool, s: seq<A>): (r: seq<A>)
    ensures |r| <= |s|
    ensures forall i :: 0 <= i < |r| ==> p(r[i])
  {
    if s == [] then []
    else if p(s[0]) then [s[0]] + Filter(p, s[1..])
    else Filter(p, s[1..])
  }

  /** The negation of a predicate. */
  function Not<A>(p: A -> bool): A -> bool
  {
    x => !p(x)
  }

  /** Filtering a concatenation filters each part. */
  lemma {:induction false} FilterAppend<A>(p: A -> bool, a: seq<A>, b: seq<A>)
    ensures Filter(p, a + b) == Filter(p, a) + Filter(p, b)
  {
    if a == [] {
      assert a + b == b;
    } else {
      assert (a + b)[0] == a[0];
      assert (a + b)[1..] == a[1..] + b;
      FilterAppend(p, a[1..], b);
    }
  }

  /** A sequence whose elements all satisfy `p` passes the filter unchanged. */
  lemma {:induction false} FilterKeepsAll<A>(p: A -> bool, s: seq<A>)
    requires forall i :: 0 <= i < |s| ==> p(s[i])
    ensures Filter(p, s) == s
  {
    if s != [] {
      FilterKeepsAll(p, s[1..]);
    }
  }

  /** The filter keeps every multiplicity of an accepted value and drops every
      rejected one. */
  lemma {:induction false} FilterMultiset<A>(p: A -> bool, s: seq<A>)
    ensures forall x :: multiset(Filter(p, s))[x] == if p(x) then multiset(s)[x] else 0
  {
    if s != [] {
      FilterMultiset(p, s[1..]);
      assert s == [s[0]] + s[1..];
    }
  }

  /** Filtering by the negation of `p` keeps every occurrence of each value
      `p` rejects and none of a value `p` accepts. */
  lemma FilterByNot<A>(p: A -> bool, s: seq<A>)
    ensures forall x :: multiset(Filter(Not(p), s))[x] == if p(x) then 0 else multiset(s)[x]
  {
    FilterMultiset(Not(p), s);
  }

  /** A predicate and its negation split a sequence completely and disjointly:
      together the two filters hold every element exactly as often as the input. */
  lemma {:induction false} PartitionIsPermutation<A>(p: A -> bool, s: seq<A>)
    ensures multiset(Filter(p, s)) + multiset(Filter(Not(p), s)) == multiset(s)
  {
    if s != [] {
      var t := s[1..];
      PartitionIsPermutation(p, t);
      assert s == [s[0]] + t;
      if p(s[0]) {
        assert Filter(p, s) == [s[0]] + Filter(p, t);
        assert Filter(Not(p), s) == Filter(Not(p), t);
      } else {
        assert Filter(p, s) == Filter(p, t);
        assert Filter(Not(p), s) == [s[0]] + Filter(Not(p), t);
      }
    }
  }

  /** An accepted element `s[j]` lands in the filtered sequence at the index
      given by the number of accepted elements before it. */
  lemma FilterAt<A>(p: A -> bool, s: seq<A>, j: int)
    requires 0 <= j < |s| && p(s[j])
    ensures |Filter(p, s[..j])| < |Filter(p, s)|
    ensures Filter(p, s)[|Filter(p, s[..j])|] == s[j]
  {
    assert s == s[..j] + s[j..];
    FilterAppend(p, s[..j], s[j..]);
    assert s[j..][0] == s[j];
    assert s[j..][1..] == s[j + 1..];
  }

  /** Every element of the filtered sequence comes from an accepted input
      element, namely one with exactly `k` accepted elements before it. */
  lemma {:induction false} FilterSource<A>(p: A -> bool, s: seq<A>, k: int)
    requires 0 <= k < |Filter(p, s)|
    ensures exists j :: 0 <= j < |s| && p(s[j]) && |Filter(p, s[..j])| == k
  {
    if p(s[0]) && k == 0 {
      assert s[..0] == [];
      assert 0 <= 0 < |s| && p(s[0]) && |Filter(p, s[..0])| == k;
    } else {
      var k' := if p(s[0]) then k - 1 else k;
      FilterSource(p, s[1..], k');
      var j' :| 0 <= j' < |s[1..]| && p(s[1..][j']) && |Filter(p, s[1..][..j'])| == k';
      var j := j' + 1;
      assert s[..j][0] == s[0];
      assert s[..j][1..] == s[1..][..j'];
      assert 0 <= j < |s| && p(s[j]) && |Filter(p, s[..j])| == k;
    }
  }

  /** The number of elements of `s` that satisfy `p`. */
  function CountWhere<A>(p: A -> bool, s: seq<A>): (n: nat)
    ensures n <= |s|
  {
    if s == [] then 0
    else CountWhere(p, s[..|s| - 1]) + (if p(s[|s| - 1]) then 1 else 0)
  }

  /** Where the stable partition of `s` by `p` (accepted elements first, each
      part in its original order) puts `s[j]`: an accepted element comes after
      the accepted elements before it; a rejected one comes after all accepted
      elements and after the rejected elements before it. */
  function PartitionIndex<A>(p: A -> bool, s: seq<A>, j: int): int
    requires 0 <= j < |s|
  {
    if p(s[j]) then CountWhere(p, s[..j])
    else CountWhere(p, s) + (j - CountWhere(p, s[..j]))
  }

  /** Extending a prefix by one element counts that element if it is accepted. */
  lemma CountWhereStep<A>(p: A -> bool, s: seq<A>, j: int)
    requires 0 <= j < |s|
    ensures CountWhere(p, s[..j + 1]) == CountWhere(p, s[..j]) + (if p(s[j]) then 1 else 0)
  {
    assert s[..j + 1][..j] == s[..j];
  }

  /** Over a longer prefix neither the accepted nor the rejected count
      shrinks, and the count of the kind of `s[i]` grows once past `i`. */
  lemma {:induction false} PrefixCounts<A>(p: A -> bool, s: seq<A>, i: int, j: int)
    requires 0 <= i < j <= |s|
    ensures CountWhere(p, s[..i]) + (if p(s[i]) then 1 else 0) <= CountWhere(p, s[..j])
    ensures (i - CountWhere(p, s[..i])) + (if p(s[i]) then 0 else 1) <= j - CountWhere(p, s[..j])
    decreases j - i
  {
    CountWhereStep(p, s, j - 1);
    if j > i + 1 {
      PrefixCounts(p, s, i, j - 1);
    }
  }

  /** The filter by `p` keeps as many elements as satisfy `p`; the filter by
      its negation keeps the rest. */
  lemma {:induction false} CountWhereIsFilterSize<A>(p: A -> bool, s: seq<A>)
    ensures |Filter(p, s)| == CountWhere(p, s)
    ensures |Filter(Not(p), s)| == |s| - CountWhere(p, s)
  {
    if s != [] {
      var n := |s| - 1;
      assert s == s[..n] + [s[n]];
      CountWhereIsFilterSize(p, s[..n]);
      FilterAppend(p, s[..n], [s[n]]);
      FilterAppend(Not(p), s[..n], [s[n]]);
      assert [s[n]][1..] == [];
    }
  }

  /** Every partition index is a position of the output; accepted elements
      take the first positions, one per accepted element, and rejected
      elements the rest. */
  lemma PartitionIndexBounds<A>(p: A -> bool, s: seq<A>, j: int)
    requires 0 <= j < |s|
    ensures 0 <= PartitionIndex(p, s, j) < |s|
    ensures p(s[j]) <==> PartitionIndex(p, s, j) < CountWhere(p, s)
  {
    PrefixCounts(p, s, j, |s|);
    assert s[..|s|] == s;
  }

  /** Every accepted element is placed before every rejected element. */
  lemma PartitionIndexAcceptedFirst<A>(p: A -> bool, s: seq<A>, i: int, j: int)
    requires 0 <= i < |s| && 0 <= j < |s|
    requires p(s[i]) && !p(s[j])
    ensures PartitionIndex(p, s, i) < PartitionIndex(p, s, j)
  {
    PartitionIndexBounds(p, s, i);
    PartitionIndexBounds(p, s, j);
  }

  /** Within each part, elements keep their input order. */
  lemma PartitionIndexKeepsOrder<A>(p: A -> bool, s: seq<A>, i: int, j: int)
    requires 0 <= i < j < |s|
    requires p(s[i]) == p(s[j])
    ensures PartitionIndex(p, s, i) < PartitionIndex(p, s, j)
  {
    PrefixCounts(p, s, i, j);
  }

  /** Distinct elements are placed at distinct positions. */
  lemma PartitionIndexInjective<A>(p: A -> bool, s: seq<A>, i: int, j: int)
    requires 0 <= i < |s| && 0 <= j < |s| && i != j
    ensures PartitionIndex(p, s, i) != PartitionIndex(p, s, j)
  {
    if p(s[i]) == p(s[j]) {
      if i < j { PartitionIndexKeepsOrder(p, s, i, j); } else { PartitionIndexKeepsOrder(p, s, j, i); }
    } else if p(s[i]) {
      PartitionIndexAcceptedFirst(p, s, i, j);
    } else {
      PartitionIndexAcceptedFirst(p, s, j, i);
    }
  }

  /** Every output position is the partition index of some element. */
  lemma PartitionIndexCovers<A>(p: A -> bool, s: seq<A>, k: int)
    requires 0 <= k < |s|
    ensures exists j :: 0 <= j < |s| && PartitionIndex(p, s, j) == k
  {
    var n := CountWhere(p, s);
    CountWhereIsFilterSize(p, s);
    if k < n {
      FilterSource(p, s, k);
      var j :| 0 <= j < |s| && p(s[j]) && |Filter(p, s[..j])| == k;
      CountWhereIsFilterSize(p, s[..j]);
      assert PartitionIndex(p, s, j) == k;
    } else {
      FilterSource(Not(p), s, k - n);
      var j :| 0 <= j < |s| && Not(p)(s[j]) && |Filter(Not(p), s[..j])| == k - n;
      CountWhereIsFilterSize(p, s[..j]);
      assert !p(s[j]);
      assert PartitionIndex(p, s, j) == k;
    }
  }

  /** Mapping both parts of the split (the accepted part through `f` then `g`,
      the rejected part through `f` then `h`) and concatenating them puts the
      image of `s[j]` at its partition index. */
  lemma PartitionPlacement<A, B, C>(p: A -> bool, f: A -> B, g: B -> C, h: B -> C, s: seq<A>, j: int)
    requires 0 <= j < |s|
    ensures var out := Transform(g, Transform(f, Filter(p, s))) + Transform(h, Transform(f, Filter(Not(p), s)));
      0 <= PartitionIndex(p, s, j) < |out| &&
      out[PartitionIndex(p, s, j)] == if p(s[j]) then g(f(s[j])) else h(f(s[j]))
  {
    var accepted := Transform(g, Transform(f, Filter(p, s)));
    var rejected := Transform(h, Transform(f, Filter(Not(p), s)));
    CountWhereIsFilterSize(p, s);
    CountWhereIsFilterSize(p, s[..j]);
    if p(s[j]) {
      FilterAt(p, s, j);
      var c := |Filter(p, s[..j])|;
      assert (accepted + rejected)[c] == accepted[c];
    } else {
      assert Not(p)(s[j]);
      FilterAt(Not(p), s, j);
      var c := |Filter(Not(p), s[..j])|;
      assert PartitionIndex(p, s, j) == |accepted| + c;
      assert (accepted + rejected)[|accepted| + c] == rejected[c];
    }
  }

  /** Appending two sequences to an empty one gives their concatenation. */
  lemma AppendToEmpty<A>(a: seq<A>, b: seq<A>)
    ensures [] + a + b == a + b
  {
  }
}
