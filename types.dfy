/** The transaction record shared by every dashboard component, and the small
    folds over lists of records that all of them use. */
module Types {

  datatype Option<+T> = None | Some(value: T) {
    function GetOr(default: T): T {
      match this
      case Some(v) => v
      case None => default
    }
  }

  /** A transaction as it arrives from the store. Every field is optional.
      Amounts are whole cents; dates are milliseconds since the epoch. */
  datatype Transaction = Transaction(
    id: Option<string>,
    userId: Option<string>,
    name: Option<string>,
    amount: Option<int>,
    category: Option<string>,
    date: Option<int>,
    notes: Option<string>,
    userfullname: Option<string>)

  /** JavaScript truthiness of an optional string: present and non-empty. */
  predicate Truthy(s: Option<string>) {
    s.Some? && s.value != ""
  }

  /** `amount || 0` (also `parseFloat(amount?.toString() || "0")`). */
  function Amount(t: Transaction): int {
    t.amount.GetOr(0)
  }

  function Abs(x: int): (r: int)
    ensures r >= 0 && (r == x || r == -x)
  {
    if x < 0 then -x else x
  }

  /** `Math.abs(parseFloat(amount?.toString() || "0"))`. */
  function AbsAmount(t: Transaction): (r: int)
    ensures r >= 0
  {
    Abs(Amount(t))
  }

  /** `new Date(t.date || 0).getTime()`: a missing date is the epoch. */
  function Timestamp(t: Transaction): int {
    t.date.GetOr(0)
  }

  /** The category as a grouping key: only a truthy category groups. */
  function CategoryKey(t: Transaction): (k: Option<string>)
    ensures k.Some? <==> Truthy(t.category)
    ensures k.Some? ==> t.category == k
  {
    if Truthy(t.category) then t.category else None
  }

  /** sub occurs in s starting at position i. */
  predicate OccursAt(s: string, sub: string, i: int) {
    0 <= i <= |s| - |sub| && s[i..i + |sub|] == sub
  }

  /** `s.includes(sub)`: sub occurs in s at some position. */
  function Contains(s: string, sub: string): (r: bool)
    ensures r <==> exists i :: OccursAt(s, sub, i)
  {
    if |s| < |sub| then false
    else if s[..|sub|] == sub then assert OccursAt(s, sub, 0); true
    else
      var r := Contains(s[1..], sub);
      assert r ==> exists i :: OccursAt(s, sub, i) by {
        if r {
          var j :| OccursAt(s[1..], sub, j);
          assert s[j + 1..j + 1 + |sub|] == s[1..][j..j + |sub|];
          assert OccursAt(s, sub, j + 1);
        }
      }
      assert (exists i :: OccursAt(s, sub, i)) ==> r by {
        if exists i :: OccursAt(s, sub, i) {
          var i :| OccursAt(s, sub, i);
          assert i != 0;
          assert s[1..][i - 1..i - 1 + |sub|] == s[i..i + |sub|];
          assert OccursAt(s[1..], sub, i - 1);
        }
      }
      r
  }

  /** `t.notes?.includes(marker)`: false when there are no notes. */
  predicate NotesContain(t: Transaction, marker: string) {
    t.notes.Some? && Contains(t.notes.value, marker)
  }

  /** All but the last element, the shape every left fold below recurses on. */
  function Init<T>(s: seq<T>): seq<T>
    requires |s| > 0
  {
    s[..|s| - 1]
  }

  function Last<T>(s: seq<T>): T
    requires |s| > 0
  {
    s[|s| - 1]
  }

  /** `s.reduce((sum, x) => sum + f(x), 0)`, folded from the left. */
  function Sum<T>(s: seq<T>, f: T -> int): int {
    if s == [] then 0 else Sum(Init(s), f) + f(Last(s))
  }

  /** `s.filter(p)`, in order. */
  function Filter<T>(s: seq<T>, p: T -> bool): seq<T> {
    if s == [] then [] else Filter(Init(s), p) + (if p(Last(s)) then [Last(s)] else [])
  }

  lemma {:induction false} SumAppend<T>(a: seq<T>, b: seq<T>, f: T -> int)
    ensures Sum(a + b, f) == Sum(a, f) + Sum(b, f)
  {
    if b != [] {
      assert Init(a + b) == a + Init(b);
      assert Last(a + b) == Last(b);
      SumAppend(a, Init(b), f);
    } else {
      assert a + b == a;
    }
  }

  lemma {:induction false} SumNonNegative<T>(s: seq<T>, f: T -> int)
    requires forall x :: x in s ==> f(x) >= 0
    ensures Sum(s, f) >= 0
  {
    if s != [] {
      assert forall x :: x in Init(s) ==> x in s;
      SumNonNegative(Init(s), f);
    }
  }

  lemma {:induction false} FilterSubset<T>(s: seq<T>, p: T -> bool)
    ensures |Filter(s, p)| <= |s|
    ensures forall x :: x in Filter(s, p) ==> x in s && p(x)
    ensures forall x :: x in s && p(x) ==> x in Filter(s, p)
  {
    if s != [] {
      FilterSubset(Init(s), p);
      assert s == Init(s) + [Last(s)];
    }
  }
}
