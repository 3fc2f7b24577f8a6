/** `Array.prototype.sort` with a comparator of the form `key(a) - key(b)`
    (ascending) or `key(b) - key(a)` (descending). The language guarantees that
    this sort is stable, so it is modelled as a stable insertion sort by key. */
module Sorting {

  /** a may stay ahead of b: the comparator does not ask to swap them. */
  predicate InOrder<T>(a: T, b: T, key: T -> int, desc: bool) {
    if desc then key(a) >= key(b) else key(a) <= key(b)
  }

  predicate Sorted<T>(s: seq<T>, key: T -> int, desc: bool) {
    forall i, j :: 0 <= i < j < |s| ==> InOrder(s[i], s[j], key, desc)
  }

  /** The elements of s whose key is k, in their order in s. */
  function WithKey<T>(s: seq<T>, key: T -> int, k: int): seq<T> {
    if s == [] then []
    else (if key(s[0]) == k then [s[0]] else []) + WithKey(s[1..], key, k)
  }

  /** Puts x in front of the first element it may precede. */
  function Insert<T>(x: T, s: seq<T>, key: T -> int, desc: bool): (r: seq<T>)
    ensures |r| == |s| + 1
  {
    if s == [] || InOrder(x, s[0], key, desc) then [x] + s
    else [s[0]] + Insert(x, s[1..], key, desc)
  }

  function SortBy<T>(s: seq<T>, key: T -> int, desc: bool): (r: seq<T>)
    ensures |r| == |s|
  {
    if s == [] then [] else Insert(s[0], SortBy(s[1..], key, desc), key, desc)
  }

  lemma {:induction false} InsertCorrect<T>(x: T, s: seq<T>, key: T -> int, desc: bool)
    requires Sorted(s, key, desc)
    ensures multiset(Insert(x, s, key, desc)) == multiset(s) + multiset{x}
    ensures Sorted(Insert(x, s, key, desc), key, desc)
  {
    if s == [] || InOrder(x, s[0], key, desc) {
      var r := [x] + s;
      forall i, j | 0 <= i < j < |r| ensures InOrder(r[i], r[j], key, desc) {
        if i > 0 { assert InOrder(s[i - 1], s[j - 1], key, desc); }
        else if j > 1 { assert InOrder(s[0], s[j - 1], key, desc); }
      }
    } else {
      var t := s[1..];
      assert Sorted(t, key, desc) by {
        forall i, j | 0 <= i < j < |t| ensures InOrder(t[i], t[j], key, desc) {
          assert InOrder(s[i + 1], s[j + 1], key, desc);
        }
      }
      InsertCorrect(x, t, key, desc);
      var u := Insert(x, t, key, desc);
      assert s == [s[0]] + t;
      var r := [s[0]] + u;
      forall j | 0 <= j < |u| ensures InOrder(s[0], u[j], key, desc) {
        assert u[j] in multiset(u);
        assert u[j] == x || u[j] in multiset(t);
        if u[j] != x {
          var m :| 0 <= m < |t| && t[m] == u[j];
          assert InOrder(s[0], s[m + 1], key, desc);
        }
      }
      forall i, j | 0 <= i < j < |r| ensures InOrder(r[i], r[j], key, desc) {
        if i > 0 { assert InOrder(u[i - 1], u[j - 1], key, desc); }
        else { assert InOrder(s[0], u[j - 1], key, desc); }
      }
    }
  }

  /** The sorted list is a permutation of the input, ordered by the comparator. */
  lemma {:induction false} SortByCorrect<T>(s: seq<T>, key: T -> int, desc: bool)
    ensures multiset(SortBy(s, key, desc)) == multiset(s)
    ensures |SortBy(s, key, desc)| == |s|
    ensures Sorted(SortBy(s, key, desc), key, desc)
  {
    if s != [] {
      SortByCorrect(s[1..], key, desc);
      InsertCorrect(s[0], SortBy(s[1..], key, desc), key, desc);
      assert s == [s[0]] + s[1..];
      assert multiset(s) == multiset{s[0]} + multiset(s[1..]);
    }
  }

  lemma WithKeyCons<T>(x: T, s: seq<T>, key: T -> int, k: int)
    ensures WithKey([x] + s, key, k) == (if key(x) == k then [x] else []) + WithKey(s, key, k)
  {
    assert ([x] + s)[0] == x && ([x] + s)[1..] == s;
  }

  lemma {:induction false} InsertStable<T>(x: T, s: seq<T>, key: T -> int, desc: bool, k: int)
    ensures WithKey(Insert(x, s, key, desc), key, k)
         == (if key(x) == k then [x] else []) + WithKey(s, key, k)
  {
    if s == [] || InOrder(x, s[0], key, desc) {
      WithKeyCons(x, s, key, k);
    } else {
      InsertStable(x, s[1..], key, desc, k);
      WithKeyCons(s[0], Insert(x, s[1..], key, desc), key, k);
      assert s == [s[0]] + s[1..];
      assert key(s[0]) != key(x);
    }
  }

  /** Stability: elements with equal keys keep their relative input order. */
  lemma {:induction false} SortByStable<T>(s: seq<T>, key: T -> int, desc: bool, k: int)
    ensures WithKey(SortBy(s, key, desc), key, k) == WithKey(s, key, k)
  {
    if s != [] {
      SortByStable(s[1..], key, desc, k);
      InsertStable(s[0], SortBy(s[1..], key, desc), key, desc, k);
    }
  }
}
