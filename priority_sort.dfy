/**
 * `array.sort((a, b) => key(b) - key(a))`: the highest key first. JavaScript's
 * sort is stable, so elements with equal keys keep their list order; the model
 * is a stable insertion sort, and the one consequence of stability the program
 * relies on is that the head is the FIRST element of greatest key.
 */
module PrioritySort {

  /** Keys never increase along `s`. */
  predicate Descending<T(!new)>(s: seq<T>, key: T -> int) {
    forall i, j :: 0 <= i < j < |s| ==> key(s[i]) >= key(s[j])
  }

  /** `k` is the first position holding the greatest key of `s`. */
  predicate IsFirstMax<T(!new)>(s: seq<T>, key: T -> int, k: int) {
    && 0 <= k < |s|
    && (forall j :: 0 <= j < |s| ==> key(s[j]) <= key(s[k]))
    && (forall j :: 0 <= j < k ==> key(s[j]) < key(s[k]))
  }

  /** Places `x` before the first element whose key is not greater than its own. */
  function Insert<T(!new)>(x: T, r: seq<T>, key: T -> int): (q: seq<T>)
    ensures |q| == |r| + 1
    ensures multiset(q) == multiset(r) + multiset{x}
    ensures forall y :: y in q <==> y == x || y in r
    ensures q[0] == if r == [] || key(x) >= key(r[0]) then x else r[0]
  {
    if r == [] || key(x) >= key(r[0]) then [x] + r
    else
      assert r == [r[0]] + r[1..];
      [r[0]] + Insert(x, r[1..], key)
  }

  /** The sorted copy: each element inserted into the sorted rest of the list. */
  function SortDesc<T(!new)>(s: seq<T>, key: T -> int): (r: seq<T>)
    ensures |r| == |s|
    ensures multiset(r) == multiset(s)
    ensures forall x :: x in r <==> x in s
  {
    if s == [] then []
    else
      assert s == [s[0]] + s[1..];
      Insert(s[0], SortDesc(s[1..], key), key)
  }

  lemma {:induction false} InsertKeepsDescending<T(!new)>(x: T, r: seq<T>, key: T -> int)
    requires Descending(r, key)
    ensures Descending(Insert(x, r, key), key)
  {
    if r != [] && key(x) < key(r[0]) {
      var tail := r[1..];
      assert Descending(tail, key) by {
        forall i, j | 0 <= i < j < |tail| ensures key(tail[i]) >= key(tail[j]) {
          assert tail[i] == r[i + 1] && tail[j] == r[j + 1];
        }
      }
      InsertKeepsDescending(x, tail, key);
      var rest := Insert(x, tail, key);
      assert Insert(x, r, key) == [r[0]] + rest;
      forall y | y in rest ensures key(y) <= key(r[0]) {
        if y != x {
          var k :| 0 <= k < |tail| && tail[k] == y;
          assert tail[k] == r[k + 1];
        }
      }
    }
  }

  /** The sorted copy is in descending key order. */
  lemma {:induction false} SortDescIsDescending<T(!new)>(s: seq<T>, key: T -> int)
    ensures Descending(SortDesc(s, key), key)
  {
    if s != [] {
      SortDescIsDescending(s[1..], key);
      InsertKeepsDescending(s[0], SortDesc(s[1..], key), key);
    }
  }

  /** The position the sorted copy's head comes from: the earlier element wins a tie. */
  function FirstMaxIndex<T(!new)>(s: seq<T>, key: T -> int): (k: nat)
    requires s != []
    ensures k < |s|
  {
    if |s| == 1 then 0
    else
      var k := FirstMaxIndex(s[1..], key) + 1;
      if key(s[0]) >= key(s[k]) then 0 else k
  }

  /**
   * Stability where it matters: the head of the sorted copy is the element at
   * `FirstMaxIndex`, which is the first element of greatest key.
   */
  lemma {:induction false} SortHeadIsFirstMax<T(!new)>(s: seq<T>, key: T -> int)
    requires s != []
    ensures IsFirstMax(s, key, FirstMaxIndex(s, key))
    ensures SortDesc(s, key)[0] == s[FirstMaxIndex(s, key)]
  {
    if |s| > 1 {
      SortHeadIsFirstMax(s[1..], key);
      var k := FirstMaxIndex(s, key);
      forall j | 0 <= j < |s| ensures key(s[j]) <= key(s[k]) && (j < k ==> key(s[j]) < key(s[k])) {
        if j > 0 { assert s[j] == s[1..][j - 1]; }
      }
    }
  }

  /** The first element of greatest key is unique. */
  lemma FirstMaxUnique<T(!new)>(s: seq<T>, key: T -> int, k1: int, k2: int)
    requires IsFirstMax(s, key, k1) && IsFirstMax(s, key, k2)
    ensures k1 == k2
  {
    assert key(s[k1]) == key(s[k2]);
  }
}
