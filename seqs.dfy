/**
 * List operations shared by the screens and the query sets: `filter`,
 * counting, and `sort` with a comparator (modelled by an insertion
 * sort over a "comes no later than" relation).
 */
module Seqs {

  // ---------------------------------------------------------------------------
  // filter

  function Filter<T>(s: seq<T>, p: T -> bool): (r: seq<T>)
    ensures |r| <= |s|
  {
    if s == [] then []
    else if p(s[0]) then [s[0]] + Filter(s[1..], p) else Filter(s[1..], p)
  }

  /** The filter keeps exactly the elements that satisfy the predicate. */
  lemma {:induction false} FilterMembers<T>(s: seq<T>, p: T -> bool)
    ensures forall i :: 0 <= i < |Filter(s, p)| ==> Filter(s, p)[i] in s && p(Filter(s, p)[i])
    ensures forall i :: 0 <= i < |s| && p(s[i]) ==> s[i] in Filter(s, p)
    ensures multiset(Filter(s, p)) <= multiset(s)
  {
    if s != [] {
      assert s == [s[0]] + s[1..];
      FilterMembers(s[1..], p);
    }
  }

  /** An element the predicate keeps occurs in the filter as often as in the list. */
  lemma {:induction false} FilterKeepsMultiplicity<T>(s: seq<T>, p: T -> bool)
    ensures forall x :: p(x) ==> multiset(Filter(s, p))[x] == multiset(s)[x]
  {
    if s != [] {
      assert s == [s[0]] + s[1..];
      FilterKeepsMultiplicity(s[1..], p);
    }
  }

  lemma {:induction false} FilterAppend<T>(a: seq<T>, b: seq<T>, p: T -> bool)
    ensures Filter(a + b, p) == Filter(a, p) + Filter(b, p)
  {
    if a == [] {
      assert a + b == b;
    } else {
      assert (a + b)[0] == a[0];
      assert (a + b)[1..] == a[1..] + b;
      FilterAppend(a[1..], b, p);
    }
  }

  /** Membership in a filtered list, element-wise. */
  lemma FilterContains<T>(s: seq<T>, p: T -> bool)
    ensures forall x :: x in Filter(s, p) <==> x in s && p(x)
  {
    FilterMembers(s, p);
    forall x | x in s && p(x) ensures x in Filter(s, p) {
      var i :| 0 <= i < |s| && s[i] == x;
    }
  }

  /** No two elements of `s` share a key. */
  ghost predicate Injective<T, K>(s: seq<T>, key: T -> K) {
    forall i, j :: 0 <= i < j < |s| ==> key(s[i]) != key(s[j])
  }

  /** Filtering keeps keys distinct. */
  lemma {:induction false} FilterKeepsInjective<T, K>(s: seq<T>, p: T -> bool, key: T -> K)
    requires Injective(s, key)
    ensures Injective(Filter(s, p), key)
  {
    if s != [] {
      FilterKeepsInjective(s[1..], p, key);
      FilterMembers(s[1..], p);
      var r := Filter(s[1..], p);
      forall i | 0 <= i < |r| ensures key(s[0]) != key(r[i]) {
        var k :| 0 <= k < |s[1..]| && s[1..][k] == r[i];
        assert s[k + 1] == r[i];
      }
    }
  }

  /** A filter whose predicate holds everywhere keeps the whole list. */
  lemma {:induction false} FilterKeepsAll<T>(s: seq<T>, p: T -> bool)
    requires forall i :: 0 <= i < |s| ==> p(s[i])
    ensures Filter(s, p) == s
  {
    if s != [] { FilterKeepsAll(s[1..], p); }
  }

  /** Two filters in a row are one filter on the conjunction. */
  lemma {:induction false} FilterFilter<T>(s: seq<T>, p: T -> bool, q: T -> bool, both: T -> bool)
    requires forall x :: both(x) == (p(x) && q(x))
    ensures Filter(Filter(s, p), q) == Filter(s, both)
  {
    if s != [] {
      FilterFilter(s[1..], p, q, both);
    }
  }

  /** Filters with predicates that agree on the list give the same list. */
  lemma {:induction false} FilterCongruent<T>(s: seq<T>, p: T -> bool, q: T -> bool)
    requires forall i :: 0 <= i < |s| ==> p(s[i]) == q(s[i])
    ensures Filter(s, p) == Filter(s, q)
  {
    if s != [] { FilterCongruent(s[1..], p, q); }
  }

  /** `a` is `b` with some elements left out, in the same order. */
  ghost predicate Subsequence<T>(a: seq<T>, b: seq<T>)
    decreases |b|
  {
    if a == [] then true
    else if b == [] then false
    else (a[0] == b[0] && Subsequence(a[1..], b[1..])) || Subsequence(a, b[1..])
  }

  lemma {:induction false} FilterIsSubsequence<T>(s: seq<T>, p: T -> bool)
    ensures Subsequence(Filter(s, p), s)
  {
    if s != [] {
      FilterIsSubsequence(s[1..], p);
    }
  }

  // ---------------------------------------------------------------------------
  // counting

  function Count<T>(s: seq<T>, p: T -> bool): nat {
    if s == [] then 0 else (if p(s[0]) then 1 else 0) + Count(s[1..], p)
  }

  lemma {:induction false} CountIsFilterLength<T>(s: seq<T>, p: T -> bool)
    ensures Count(s, p) == |Filter(s, p)|
  {
    if s != [] { CountIsFilterLength(s[1..], p); }
  }

  lemma {:induction false} CountNone<T>(s: seq<T>, p: T -> bool)
    requires forall x :: !p(x)
    ensures Count(s, p) == 0
  {
    if s != [] { CountNone(s[1..], p); }
  }

  /** Counts of two predicates that never hold together add up to the count of either. */
  lemma {:induction false} CountDisjointUnion<T>(s: seq<T>, p: T -> bool, q: T -> bool, either: T -> bool)
    requires forall x :: !(p(x) && q(x))
    requires forall x :: either(x) == (p(x) || q(x))
    ensures Count(s, p) + Count(s, q) == Count(s, either)
  {
    if s != [] { CountDisjointUnion(s[1..], p, q, either); }
  }

  /** Every element satisfies a predicate or its negation, never both. */
  lemma {:induction false} CountComplement<T>(s: seq<T>, p: T -> bool, q: T -> bool)
    requires forall x :: q(x) == !p(x)
    ensures Count(s, p) + Count(s, q) == |s|
  {
    if s != [] { CountComplement(s[1..], p, q); }
  }

  // ---------------------------------------------------------------------------
  // sort

  /** `le(a, b)`: a comparator puts `a` no later than `b` (compare(a, b) <= 0). */
  ghost predicate Total<T(!new)>(le: (T, T) -> bool) {
    forall a, b :: le(a, b) || le(b, a)
  }

  ghost predicate Transitive<T(!new)>(le: (T, T) -> bool) {
    forall a, b, c :: le(a, b) && le(b, c) ==> le(a, c)
  }

  ghost predicate AdjacentSorted<T>(s: seq<T>, le: (T, T) -> bool) {
    forall i :: 0 <= i < |s| - 1 ==> le(s[i], s[i + 1])
  }

  ghost predicate Sorted<T>(s: seq<T>, le: (T, T) -> bool) {
    forall i, j :: 0 <= i < j < |s| ==> le(s[i], s[j])
  }

  /** Puts `x` in front of the first element it may precede. */
  function Insert<T>(x: T, s: seq<T>, le: (T, T) -> bool): (r: seq<T>)
    ensures multiset(r) == multiset(s) + multiset{x}
    ensures |r| == |s| + 1
  {
    if s == [] then [x]
    else if le(x, s[0]) then [x] + s
    else
      assert s == [s[0]] + s[1..];
      [s[0]] + Insert(x, s[1..], le)
  }

  /** `Array.prototype.sort` with the comparator whose "no later than" relation is `le`. */
  function SortBy<T>(s: seq<T>, le: (T, T) -> bool): (r: seq<T>)
    ensures multiset(r) == multiset(s)
    ensures |r| == |s|
  {
    if s == [] then []
    else
      assert s == [s[0]] + s[1..];
      Insert(s[0], SortBy(s[1..], le), le)
  }

  lemma {:induction false} InsertSorted<T(!new)>(x: T, s: seq<T>, le: (T, T) -> bool)
    requires Total(le) && AdjacentSorted(s, le)
    ensures AdjacentSorted(Insert(x, s, le), le)
    ensures s != [] ==> Insert(x, s, le)[0] == x || Insert(x, s, le)[0] == s[0]
  {
    if s != [] && !le(x, s[0]) {
      InsertSorted(x, s[1..], le);
      var t := Insert(x, s[1..], le);
      assert le(s[0], x);
      assert [s[0]] + t == Insert(x, s, le);
    }
  }

  lemma {:induction false} SortBySorted<T(!new)>(s: seq<T>, le: (T, T) -> bool)
    requires Total(le)
    ensures AdjacentSorted(SortBy(s, le), le)
  {
    if s != [] {
      SortBySorted(s[1..], le);
      InsertSorted(s[0], SortBy(s[1..], le), le);
    }
  }

  lemma {:induction false} AdjacentSortedIsSorted<T(!new)>(s: seq<T>, le: (T, T) -> bool)
    requires Transitive(le) && AdjacentSorted(s, le)
    ensures Sorted(s, le)
  {
    forall i, j | 0 <= i < j < |s| ensures le(s[i], s[j]) {
      var k := i + 1;
      while k < j
        invariant i < k <= j && le(s[i], s[k])
      {
        k := k + 1;
      }
    }
  }

  /** Sorting keeps exactly the same elements. */
  lemma SortByContains<T>(s: seq<T>, le: (T, T) -> bool)
    ensures forall x :: x in SortBy(s, le) <==> x in s
  {
    forall x ensures x in SortBy(s, le) <==> x in s {
      assert x in SortBy(s, le) <==> x in multiset(SortBy(s, le));
      assert x in s <==> x in multiset(s);
    }
  }

  /** A numeric comparator `key(a) - key(b)`, ascending, or `key(b) - key(a)`, descending. */
  function ByKey<T>(key: T -> int, descending: bool): (T, T) -> bool {
    if descending then (a: T, b: T) => key(b) <= key(a) else (a: T, b: T) => key(a) <= key(b)
  }

  lemma ByKeyIsOrder<T(!new)>(key: T -> int, descending: bool)
    ensures Total(ByKey(key, descending)) && Transitive(ByKey(key, descending))
  {
  }

  /** Sorting with a total, transitive relation orders every pair, and keeps the elements. */
  lemma SortByOrders<T(!new)>(s: seq<T>, le: (T, T) -> bool)
    requires Total(le) && Transitive(le)
    ensures Sorted(SortBy(s, le), le)
    ensures forall x :: x in SortBy(s, le) <==> x in s
  {
    SortBySorted(s, le);
    AdjacentSortedIsSorted(SortBy(s, le), le);
    SortByContains(s, le);
  }
}
