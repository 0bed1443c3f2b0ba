/**
 * Pairing two lists the way nested loops do: every element of the first
 * against every element of the second, keeping the results a rule yields, and
 * the same grouped by an integer key (a weekday) taken in increasing order.
 */
module Pairing {
  import opened Wrappers
  import opened Seqs

  /** `f(s, t)` for every `t` of `ts` in order, keeping the results that are present. */
  function PairWith<A(!new), B(!new)>(f: (A, A) -> Option<B>, s: A, ts: seq<A>): seq<B> {
    if ts == [] then []
    else
      var o := f(s, ts[|ts| - 1]);
      PairWith(f, s, ts[..|ts| - 1]) + (if o.Some? then [o.value] else [])
  }

  /** `PairWith` for every `s` of `ss` in order: the nested loops `for s of ss { for t of ts { ... } }`. */
  function CrossWith<A(!new), B(!new)>(f: (A, A) -> Option<B>, ss: seq<A>, ts: seq<A>): seq<B> {
    if ss == [] then [] else CrossWith(f, ss[..|ss| - 1], ts) + PairWith(f, ss[|ss| - 1], ts)
  }

  lemma {:induction false} PairWithMembership<A(!new), B(!new)>(f: (A, A) -> Option<B>, s: A, ts: seq<A>)
    ensures forall x :: x in PairWith(f, s, ts) <==> exists t :: t in ts && f(s, t) == Some(x)
  {
    if ts != [] {
      var init, last := ts[..|ts| - 1], ts[|ts| - 1];
      PairWithMembership(f, s, init);
      assert ts == init + [last];
      forall x ensures x in PairWith(f, s, ts) <==> exists t :: t in ts && f(s, t) == Some(x) {
        if x in PairWith(f, s, ts) && x !in PairWith(f, s, init) {
          assert f(s, last) == Some(x);
        }
      }
    }
  }

  lemma {:induction false} CrossWithMembership<A(!new), B(!new)>(f: (A, A) -> Option<B>, ss: seq<A>, ts: seq<A>)
    ensures forall x :: x in CrossWith(f, ss, ts) <==> exists s, t :: s in ss && t in ts && f(s, t) == Some(x)
  {
    if ss != [] {
      var init, last := ss[..|ss| - 1], ss[|ss| - 1];
      CrossWithMembership(f, init, ts);
      PairWithMembership(f, last, ts);
      assert ss == init + [last];
      forall x ensures x in CrossWith(f, ss, ts) <==> exists s, t :: s in ss && t in ts && f(s, t) == Some(x) {
        if x in CrossWith(f, ss, ts) && x !in CrossWith(f, init, ts) {
          var t :| t in ts && f(last, t) == Some(x);
        }
      }
    }
  }

  /** The elements whose key is `k`, in order. */
  function OnKey<A(!new)>(xs: seq<A>, key: A -> int, k: int): (r: seq<A>)
    ensures forall x :: x in r <==> x in xs && key(x) == k
  {
    Filter(xs, (a: A) => key(a) == k)
  }

  /** `for (let k = 0; k < n; k++)` around the nested loops over the elements with key `k`. */
  function ByKey<A(!new), B(!new)>(f: (A, A) -> Option<B>, key: A -> int, ss: seq<A>, ts: seq<A>, n: nat): seq<B> {
    if n == 0 then [] else ByKey(f, key, ss, ts, n - 1) + CrossWith(f, OnKey(ss, key, n - 1), OnKey(ts, key, n - 1))
  }

  /** Every result comes from a pair with one key below `n`. */
  lemma {:induction false} ByKeySound<A(!new), B(!new)>(f: (A, A) -> Option<B>, key: A -> int, ss: seq<A>, ts: seq<A>, n: nat)
    ensures forall x :: x in ByKey(f, key, ss, ts, n) ==>
      exists s, t :: s in ss && t in ts && 0 <= key(s) < n && key(s) == key(t) && f(s, t) == Some(x)
  {
    if n > 0 {
      ByKeySound(f, key, ss, ts, n - 1);
      CrossWithMembership(f, OnKey(ss, key, n - 1), OnKey(ts, key, n - 1));
      forall x | x in ByKey(f, key, ss, ts, n)
        ensures exists s, t :: s in ss && t in ts && 0 <= key(s) < n && key(s) == key(t) && f(s, t) == Some(x)
      {
        if x !in ByKey(f, key, ss, ts, n - 1) {
          assert ByKey(f, key, ss, ts, n) == ByKey(f, key, ss, ts, n - 1) + CrossWith(f, OnKey(ss, key, n - 1), OnKey(ts, key, n - 1));
          assert x in CrossWith(f, OnKey(ss, key, n - 1), OnKey(ts, key, n - 1));
          var s, t :| s in OnKey(ss, key, n - 1) && t in OnKey(ts, key, n - 1) && f(s, t) == Some(x);
          assert s in ss && key(s) == n - 1 && t in ts && key(t) == n - 1;
        }
      }
    }
  }

  /** Every pair with one key below `n` contributes its result. */
  lemma {:induction false} ByKeyComplete<A(!new), B(!new)>(f: (A, A) -> Option<B>, key: A -> int, ss: seq<A>, ts: seq<A>, n: nat)
    ensures forall s, t :: s in ss && t in ts && 0 <= key(s) < n && key(s) == key(t) && f(s, t).Some? ==>
      f(s, t).value in ByKey(f, key, ss, ts, n)
  {
    if n > 0 {
      ByKeyComplete(f, key, ss, ts, n - 1);
      CrossWithMembership(f, OnKey(ss, key, n - 1), OnKey(ts, key, n - 1));
      forall s, t | s in ss && t in ts && key(s) == n - 1 && key(s) == key(t) && f(s, t).Some?
        ensures f(s, t).value in CrossWith(f, OnKey(ss, key, n - 1), OnKey(ts, key, n - 1))
      {
        assert s in OnKey(ss, key, n - 1) && t in OnKey(ts, key, n - 1);
      }
    }
  }

  /** Keys never decrease along `r`, and all lie in 0 .. n-1. */
  predicate InKeyOrder<B>(r: seq<B>, key: B -> int, n: int) {
    forall i, j :: 0 <= i <= j < |r| ==> 0 <= key(r[i]) <= key(r[j]) < n
  }

  /** When each result carries its first element's key, results come in key order. */
  lemma {:induction false} ByKeyOrdered<A(!new), B(!new)>(f: (A, A) -> Option<B>, key: A -> int, resultKey: B -> int,
                                                    ss: seq<A>, ts: seq<A>, n: nat)
    requires forall s, t :: f(s, t).Some? ==> resultKey(f(s, t).value) == key(s)
    ensures InKeyOrder(ByKey(f, key, ss, ts, n), resultKey, n)
  {
    if n > 0 {
      ByKeyOrdered(f, key, resultKey, ss, ts, n - 1);
      var earlier := ByKey(f, key, ss, ts, n - 1);
      var today := CrossWith(f, OnKey(ss, key, n - 1), OnKey(ts, key, n - 1));
      CrossWithMembership(f, OnKey(ss, key, n - 1), OnKey(ts, key, n - 1));
      assert forall x :: x in today ==> resultKey(x) == n - 1 by {
        forall x | x in today ensures resultKey(x) == n - 1 {
          var s, t :| s in OnKey(ss, key, n - 1) && t in OnKey(ts, key, n - 1) && f(s, t) == Some(x);
        }
      }
      var r := earlier + today;
      forall i, j | 0 <= i <= j < |r| ensures 0 <= resultKey(r[i]) <= resultKey(r[j]) < n {
        if j < |earlier| {
          assert r[i] == earlier[i] && r[j] == earlier[j];
        } else {
          assert r[j] == today[j - |earlier|] && r[j] in today;
          if i < |earlier| {
            assert r[i] == earlier[i] && 0 <= resultKey(earlier[i]) <= resultKey(earlier[i]) < n - 1;
          } else {
            assert r[i] == today[i - |earlier|] && r[i] in today;
          }
        }
      }
    }
  }

  /** Nothing to pair on one side: no results, whatever the other side holds. */
  lemma {:induction false} CrossWithEmpty<A(!new), B(!new)>(f: (A, A) -> Option<B>, ss: seq<A>, ts: seq<A>)
    requires ss == [] || ts == []
    ensures CrossWith(f, ss, ts) == []
  {
    if ss != [] {
      CrossWithEmpty(f, ss[..|ss| - 1], ts);
    }
  }

  /** The same for the loops over the keys: an empty side yields nothing on every key. */
  lemma {:induction false} ByKeyEmpty<A(!new), B(!new)>(f: (A, A) -> Option<B>, key: A -> int, ss: seq<A>, ts: seq<A>, n: nat)
    requires ss == [] || ts == []
    ensures ByKey(f, key, ss, ts, n) == []
  {
    if n > 0 {
      ByKeyEmpty(f, key, ss, ts, n - 1);
      CrossWithEmpty(f, OnKey(ss, key, n - 1), OnKey(ts, key, n - 1));
    }
  }
}
