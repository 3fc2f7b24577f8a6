/** Summing values per key into a JavaScript `Map`, whose entries come back in
    insertion order: the `forEach` + `map.get(k) || 0` + `map.set(k, ...)` loop
    that several dashboard components repeat, and its specification. */
module Grouping {
  import opened Types

  /** One `{ name, value }` entry of `Array.from(map, ([name, value]) => ...)`. */
  datatype Entry<K> = Entry(name: K, value: int)

  function Value<K>(e: Entry<K>): int {
    e.value
  }

  function Name<K>(e: Entry<K>): K {
    e.name
  }

  predicate Distinct<K(==)>(s: seq<K>) {
    forall i, j :: 0 <= i < j < |s| ==> s[i] != s[j]
  }

  /** The distinct keys of the items, in order of first appearance; an item
      whose key is None is skipped. */
  function Keys<T, K(==)>(s: seq<T>, key: T -> Option<K>): seq<K> {
    if s == [] then []
    else
      var p := Keys(Init(s), key);
      match key(Last(s))
      case Some(k) => if k in p then p else p + [k]
      case None => p
  }

  /** The sum of val over the items whose key is k. */
  function SumWhere<T, K(==)>(s: seq<T>, key: T -> Option<K>, val: T -> int, k: K): int {
    if s == [] then 0
    else SumWhere(Init(s), key, val, k) + (if key(Last(s)) == Some(k) then val(Last(s)) else 0)
  }

  /** The sum of val over the items that have a key at all. */
  function SumKeyed<T, K>(s: seq<T>, key: T -> Option<K>, val: T -> int): int {
    if s == [] then 0
    else SumKeyed(Init(s), key, val) + (if key(Last(s)).Some? then val(Last(s)) else 0)
  }

  /** One entry per key of ks, holding that key's sum over s. */
  function EntriesFor<T, K(==)>(ks: seq<K>, s: seq<T>, key: T -> Option<K>, val: T -> int): (r: seq<Entry<K>>)
    ensures |r| == |ks|
    ensures forall i :: 0 <= i < |ks| ==> r[i] == Entry(ks[i], SumWhere(s, key, val, ks[i]))
  {
    seq(|ks|, i requires 0 <= i < |ks| => Entry(ks[i], SumWhere(s, key, val, ks[i])))
  }

  /** The reference result of the grouping loop: every key once, in order of
      first appearance, with the sum of the values of its items. */
  function Grouped<T, K(==)>(s: seq<T>, key: T -> Option<K>, val: T -> int): seq<Entry<K>> {
    EntriesFor(Keys(s, key), s, key, val)
  }

  function EntriesOf<K>(keys: seq<K>, vals: map<K, int>): (r: seq<Entry<K>>)
    requires forall k :: k in keys ==> k in vals
    ensures |r| == |keys|
    ensures forall i :: 0 <= i < |keys| ==> r[i] == Entry(keys[i], vals[keys[i]])
  {
    seq(|keys|, i requires 0 <= i < |keys| => Entry(keys[i], vals[keys[i]]))
  }

  /** A JavaScript `Map<string, number>`: its keys in insertion order and its values. */
  class OrderedMap {
    var keys: seq<string>
    var vals: map<string, int>

    ghost predicate Valid()
      reads this
    {
      Distinct(keys) && forall k :: k in vals <==> k in keys
    }

    /** `Array.from(map)`: the entries in insertion order. */
    function Entries(): seq<Entry<string>>
      reads this
      requires Valid()
    {
      EntriesOf(keys, vals)
    }

    /** `new Map()` */
    constructor ()
      ensures Valid() && keys == [] && vals == map[]
    {
      keys := [];
      vals := map[];
    }

    /** `map.get(k)`: undefined (None) for a key never set. */
    method Get(k: string) returns (r: Option<int>)
      requires Valid()
      ensures r.Some? <==> k in keys
      ensures r.Some? ==> k in vals && r.value == vals[k]
    {
      if k in vals {
        r := Some(vals[k]);
      } else {
        r := None;
      }
    }

    /** `map.set(k, v)`: a new key goes to the end, an existing one keeps its place. */
    method Set(k: string, v: int)
      requires Valid()
      modifies this
      ensures Valid()
      ensures keys == if k in old(keys) then old(keys) else old(keys) + [k]
      ensures vals == old(vals)[k := v]
    {
      if k !in vals {
        keys := keys + [k];
      }
      vals := vals[k := v];
    }
  }

  /** The accumulation loop: for each item with a key k,
      `map.set(k, (map.get(k) || 0) + val(item))`; then `Array.from(map)`. */
  method SumByKey<T>(items: seq<T>, key: T -> Option<string>, val: T -> int) returns (r: seq<Entry<string>>)
    ensures r == Grouped(items, key, val)
  {
    var m := new OrderedMap();
    var i := 0;
    while i < |items|
      invariant 0 <= i <= |items|
      invariant m.Valid()
      invariant m.keys == Keys(items[..i], key)
      invariant forall k :: k in m.vals ==> m.vals[k] == SumWhere(items[..i], key, val, k)
    {
      assert Init(items[..i + 1]) == items[..i] && Last(items[..i + 1]) == items[i];
      match key(items[i]) {
        case Some(k) =>
          var current := m.Get(k);
          if current.None? {
            KeysComplete(items[..i], key, val, k);
          }
          m.Set(k, current.GetOr(0) + val(items[i]));
        case None =>
      }
      i := i + 1;
    }
    assert items[..i] == items;
    r := m.Entries();
  }

  /** A key that no item has sums to zero. */
  lemma {:induction false} KeysComplete<T, K>(s: seq<T>, key: T -> Option<K>, val: T -> int, k: K)
    requires k !in Keys(s, key)
    ensures SumWhere(s, key, val, k) == 0
  {
    if s != [] {
      KeysComplete(Init(s), key, val, k);
    }
  }

  /** The keys are distinct. */
  lemma {:induction false} KeysDistinct<T, K>(s: seq<T>, key: T -> Option<K>)
    ensures Distinct(Keys(s, key))
  {
    if s != [] {
      KeysDistinct(Init(s), key);
    }
  }

  /** A key is listed iff some item has it. */
  lemma {:induction false} KeysMembership<T, K>(s: seq<T>, key: T -> Option<K>, k: K)
    ensures k in Keys(s, key) <==> exists x :: x in s && key(x) == Some(k)
  {
    if s != [] {
      KeysMembership(Init(s), key, k);
      assert s == Init(s) + [Last(s)];
    }
  }

  /** First-appearance order: the keys of a prefix of the items are a prefix of
      the keys of all of them, and each item adds its key iff it is new. */
  lemma {:induction false} KeysPrefix<T, K>(s: seq<T>, key: T -> Option<K>, n: nat)
    requires n <= |s|
    ensures Keys(s[..n], key) <= Keys(s, key)
  {
    if n < |s| {
      assert Init(s) == s[..|s| - 1];
      assert Init(s)[..n] == s[..n];
      KeysPrefix(Init(s), key, n);
    } else {
      assert s[..n] == s;
    }
  }

  /** Summing the per-key sums over any duplicate-free list of keys that covers
      every item's key gives the sum over all keyed items. */
  lemma {:induction false} SumOverCover<T, K>(ks: seq<K>, s: seq<T>, key: T -> Option<K>, val: T -> int)
    requires Distinct(ks)
    requires forall x :: x in s && key(x).Some? ==> key(x).value in ks
    ensures Sum(EntriesFor(ks, s, key, val), Value) == SumKeyed(s, key, val)
  {
    if s == [] {
      EntriesForEmpty(ks, s, key, val);
    } else {
      assert forall x :: x in Init(s) ==> x in s;
      SumOverCover(ks, Init(s), key, val);
      EntriesForStep(ks, Init(s), Last(s), key, val);
      assert Init(s) + [Last(s)] == s;
    }
  }

  lemma {:induction false} EntriesForEmpty<T, K>(ks: seq<K>, s: seq<T>, key: T -> Option<K>, val: T -> int)
    requires s == []
    ensures Sum(EntriesFor(ks, s, key, val), Value) == 0
  {
    if ks != [] {
      assert Init(EntriesFor(ks, s, key, val)) == EntriesFor(Init(ks), s, key, val);
      EntriesForEmpty(Init(ks), s, key, val);
    }
  }

  /** Adding one item adds its value to the sum iff its key is listed once. */
  lemma {:induction false} EntriesForStep<T, K>(ks: seq<K>, s: seq<T>, x: T, key: T -> Option<K>, val: T -> int)
    requires Distinct(ks)
    ensures Sum(EntriesFor(ks, s + [x], key, val), Value)
         == Sum(EntriesFor(ks, s, key, val), Value) + (if key(x).Some? && key(x).value in ks then val(x) else 0)
  {
    if ks != [] {
      var s' := s + [x];
      assert Init(s') == s && Last(s') == x;
      assert Init(EntriesFor(ks, s', key, val)) == EntriesFor(Init(ks), s', key, val);
      assert Init(EntriesFor(ks, s, key, val)) == EntriesFor(Init(ks), s, key, val);
      assert Distinct(Init(ks));
      EntriesForStep(Init(ks), s, x, key, val);
      assert ks == Init(ks) + [Last(ks)];
      assert Last(ks) !in Init(ks);
    }
  }

  /** The values of the grouped entries add up to the sum over all keyed items. */
  lemma GroupedTotal<T, K>(s: seq<T>, key: T -> Option<K>, val: T -> int)
    ensures Sum(Grouped(s, key, val), Value) == SumKeyed(s, key, val)
  {
    KeysDistinct(s, key);
    forall x | x in s && key(x).Some? ensures key(x).value in Keys(s, key) {
      KeysMembership(s, key, key(x).value);
    }
    SumOverCover(Keys(s, key), s, key, val);
  }

  /** When every item has a key, the keyed sum is the plain sum. */
  lemma {:induction false} SumKeyedAll<T, K>(s: seq<T>, key: T -> Option<K>, val: T -> int)
    requires forall x :: x in s ==> key(x).Some?
    ensures SumKeyed(s, key, val) == Sum(s, val)
  {
    if s != [] {
      assert forall x :: x in Init(s) ==> x in s;
      SumKeyedAll(Init(s), key, val);
    }
  }

  /** Non-negative values give non-negative per-key sums. */
  lemma {:induction false} SumWhereNonNegative<T, K>(s: seq<T>, key: T -> Option<K>, val: T -> int, k: K)
    requires forall x :: x in s ==> val(x) >= 0
    ensures SumWhere(s, key, val, k) >= 0
  {
    if s != [] {
      assert forall x :: x in Init(s) ==> x in s;
      SumWhereNonNegative(Init(s), key, val, k);
    }
  }
}
