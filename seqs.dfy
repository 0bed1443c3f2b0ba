/** Sequence helpers standing for JavaScript's `Array.prototype.filter` and friends. */
module Seqs {
  import opened Wrappers

  /** `r` is an order-preserving sub-list of `s`: `s` with some elements dropped. */
  ghost predicate Sublist<T>(r: seq<T>, s: seq<T>)
    decreases |s|
  {
    r == [] || (s != [] && ((r[0] == s[0] && Sublist(r[1..], s[1..])) || Sublist(r, s[1..])))
  }

  /** `array.filter(p)`: the elements of `s` that satisfy `p`, in their original order. */
  function Filter<T(!new)>(s: seq<T>, p: T -> bool): (r: seq<T>)
    ensures |r| <= |s|
    ensures forall x :: x in r <==> x in s && p(x)
  {
    if s == [] then []
    else if p(s[0]) then [s[0]] + Filter(s[1..], p)
    else Filter(s[1..], p)
  }

  /** Every list is a sub-list of itself. */
  lemma {:induction false} SublistOfSelf<T>(s: seq<T>)
    ensures Sublist(s, s)
  {
    if s != [] {
      SublistOfSelf(s[1..]);
    }
  }

  /** `filter` keeps the order: its result is a sub-list of its input. */
  lemma {:induction false} FilterIsSublist<T(!new)>(s: seq<T>, p: T -> bool)
    ensures Sublist(Filter(s, p), s)
  {
    if s != [] {
      FilterIsSublist(s[1..], p);
    }
  }

  /** `filter` keeps a strict lower bound on a key. */
  lemma {:induction false} FilterKeepsBound<T(!new)>(s: seq<T>, p: T -> bool, key: T -> int, bound: int)
    requires forall i :: 0 <= i < |s| ==> bound < key(s[i])
    ensures forall i :: 0 <= i < |Filter(s, p)| ==> bound < key(Filter(s, p)[i])
  {
    if s != [] {
      var rest := Filter(s[1..], p);
      FilterKeepsBound(s[1..], p, key, bound);
      if p(s[0]) {
        var r := Filter(s, p);
        assert r == [s[0]] + rest;
        forall i | 1 <= i < |r| ensures bound < key(r[i]) {
          assert r[i] == rest[i - 1];
        }
      }
    }
  }

  /** `filter` keeps a strictly increasing key strictly increasing. */
  lemma {:induction false} FilterKeepsIncreasing<T(!new)>(s: seq<T>, p: T -> bool, key: T -> int)
    requires forall i, j :: 0 <= i < j < |s| ==> key(s[i]) < key(s[j])
    ensures forall i, j :: 0 <= i < j < |Filter(s, p)| ==> key(Filter(s, p)[i]) < key(Filter(s, p)[j])
  {
    if s != [] {
      var rest := Filter(s[1..], p);
      FilterKeepsIncreasing(s[1..], p, key);
      if p(s[0]) {
        FilterKeepsBound(s[1..], p, key, key(s[0]));
        var r := Filter(s, p);
        assert r == [s[0]] + rest;
        forall i, j | 0 <= i < j < |r| ensures key(r[i]) < key(r[j]) {
          assert r[j] == rest[j - 1];
          if i > 0 {
            assert r[i] == rest[i - 1];
          }
        }
      }
    }
  }

  /** Two filters in a row are one filter by the conjunction. */
  lemma {:induction false} FilterFilter<T(!new)>(s: seq<T>, p: T -> bool, q: T -> bool, pq: T -> bool)
    requires forall x :: pq(x) == (p(x) && q(x))
    ensures Filter(Filter(s, p), q) == Filter(s, pq)
  {
    if s != [] {
      FilterFilter(s[1..], p, q, pq);
      if p(s[0]) {
        assert ([s[0]] + Filter(s[1..], p))[1..] == Filter(s[1..], p);
      }
    }
  }

  /** `filter` yields nothing exactly when no element satisfies `p`. */
  lemma {:induction false} FilterEmpty<T(!new)>(s: seq<T>, p: T -> bool)
    ensures Filter(s, p) == [] <==> forall i :: 0 <= i < |s| ==> !p(s[i])
  {
    if s != [] {
      FilterEmpty(s[1..], p);
      if Filter(s, p) == [] {
        assert !p(s[0]);
        forall i | 0 <= i < |s| ensures !p(s[i]) {
          if i > 0 { assert s[i] == s[1..][i - 1]; }
        }
      }
    }
  }

  /** `i` is the position `array.find` / `findIndex` stops at: the first element satisfying `p`. */
  ghost predicate IsFirstIndex<T>(s: seq<T>, p: T -> bool, i: int) {
    0 <= i < |s| && p(s[i]) && forall j :: 0 <= j < i ==> !p(s[j])
  }

  /** There is at most one first index. */
  lemma FirstIndexIsUnique<T>(s: seq<T>, p: T -> bool)
    ensures forall i, j :: IsFirstIndex(s, p, i) && IsFirstIndex(s, p, j) ==> i == j
  {
  }

  /** `array.findIndex(p)`, with None for -1. */
  function FirstIndex<T>(s: seq<T>, p: T -> bool): (r: Option<nat>)
    ensures r.None? <==> forall i :: 0 <= i < |s| ==> !p(s[i])
    ensures r.Some? ==> IsFirstIndex(s, p, r.value)
  {
    if s == [] then None
    else if p(s[0]) then Some(0)
    else match FirstIndex(s[1..], p)
      case None => None
      case Some(k) => Some(k + 1)
  }

  /** `array.find(p)`, with None for `undefined`. */
  function Find<T(!new)>(s: seq<T>, p: T -> bool): (r: Option<T>)
    ensures r.None? <==> forall i :: 0 <= i < |s| ==> !p(s[i])
    ensures r.Some? ==> r.value in s && p(r.value)
    ensures r.Some? ==> exists i :: IsFirstIndex(s, p, i) && s[i] == r.value
  {
    if s == [] then None
    else if p(s[0]) then
      assert IsFirstIndex(s, p, 0);
      Some(s[0])
    else
      var r := Find(s[1..], p);
      assert forall i :: 1 <= i < |s| ==> s[i] == s[1..][i - 1];
      assert forall i :: IsFirstIndex(s[1..], p, i) ==> IsFirstIndex(s, p, i + 1);
      r
  }

  /** `array.filter(p)[0]` is `array.find(p)`. */
  lemma {:induction false} FilterHeadIsFind<T(!new)>(s: seq<T>, p: T -> bool)
    ensures Filter(s, p) == [] <==> Find(s, p).None?
    ensures Filter(s, p) != [] ==> Filter(s, p)[0] == Find(s, p).value
  {
    if s != [] && !p(s[0]) {
      FilterHeadIsFind(s[1..], p);
    }
  }

  /** Searching the filtered list for `q` is searching the whole list for `p` and `q` together. */
  lemma {:induction false} FindAfterFilter<T(!new)>(s: seq<T>, p: T -> bool, q: T -> bool, pq: T -> bool)
    requires forall x :: pq(x) == (p(x) && q(x))
    ensures Find(Filter(s, p), q) == Find(s, pq)
  {
    if s != [] {
      FindAfterFilter(s[1..], p, q, pq);
    }
  }

  /** `array.some(p)`. */
  function Any<T>(s: seq<T>, p: T -> bool): (r: bool)
    ensures r <==> exists i :: 0 <= i < |s| && p(s[i])
  {
    if s == [] then false
    else if p(s[0]) then true
    else
      assert forall i :: 1 <= i < |s| ==> s[i] == s[1..][i - 1];
      Any(s[1..], p)
  }

  /** No element occurs twice. */
  predicate Distinct<T(==)>(s: seq<T>) {
    forall i, j :: 0 <= i < j < |s| ==> s[i] != s[j]
  }

  /**
   * A loop that pushes each element of `s` satisfying `p` unless the result
   * already `includes` it: the elements satisfying `p`, each once, in order of
   * first occurrence.
   */
  function FilterNew<T(!new, ==)>(s: seq<T>, p: T -> bool): (r: seq<T>)
    ensures forall x :: x in r <==> x in s && p(x)
    ensures Distinct(r)
  {
    if s == [] then []
    else
      var r := FilterNew(s[..|s| - 1], p);
      var x := s[|s| - 1];
      assert s == s[..|s| - 1] + [x];
      if p(x) && x !in r then r + [x] else r
  }

  lemma AppendAssoc<T>(a: seq<T>, b: seq<T>, c: seq<T>)
    ensures a + b + c == a + (b + c)
  {
  }
}
