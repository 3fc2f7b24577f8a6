/** The "all transactions" dialog: the category list of its filter menu, the
    filtered and sorted list it shows, and its sort and filter state. */
module ViewAll {
  import opened Types
  import opened Grouping
  import Sorting

  datatype SortField = ByDate | ByAmount
  datatype Direction = Asc | Desc

  /** Every transaction's category, missing ones included, as a Set key. */
  function AnyCategory(t: Transaction): Option<Option<string>> {
    Some(t.category)
  }

  /** `.filter(Boolean)` on a list of optional strings. */
  function TruthyValues(s: seq<Option<string>>): seq<string> {
    if s == [] then []
    else TruthyValues(Init(s)) + (if Truthy(Last(s)) then [Last(s).value] else [])
  }

  /** `[...new Set(transactions.map(t => t.category))].filter(Boolean)`. */
  function Categories(ts: seq<Transaction>): seq<string> {
    TruthyValues(Keys(ts, AnyCategory))
  }

  /** Removing the falsy categories after making them distinct gives the
      distinct truthy categories in order of first appearance, the same list
      the other components build by filtering first. */
  lemma {:induction false} CategoriesAreKeys(ts: seq<Transaction>)
    ensures Categories(ts) == Keys(ts, CategoryKey)
  {
    if ts != [] {
      CategoriesAreKeys(Init(ts));
      var p := Keys(Init(ts), AnyCategory);
      var c := Last(ts).category;
      if Truthy(c) {
        TruthyValueIn(p, c);
      }
      if c !in p {
        assert Init(p + [c]) == p && Last(p + [c]) == c;
      }
    }
  }

  /** A truthy category is among the truthy values iff it is in the list. */
  lemma {:induction false} TruthyValueIn(p: seq<Option<string>>, c: Option<string>)
    requires Truthy(c)
    ensures c.value in TruthyValues(p) <==> c in p
  {
    if p != [] {
      TruthyValueIn(Init(p), c);
      assert p == Init(p) + [Last(p)];
    }
  }

  /** `.filter(transaction => !filterCategory || transaction.category === filterCategory)`. */
  function ByCategory(ts: seq<Transaction>, filter: string): seq<Transaction> {
    if ts == [] then []
    else ByCategory(Init(ts), filter)
         + (if filter == "" || Last(ts).category == Some(filter) then [Last(ts)] else [])
  }

  /** The comparator's key: `new Date(date || 0).getTime()` or
      `parseFloat(amount?.toString() || '0')`. */
  function SortKey(field: SortField): Transaction -> int {
    if field == ByDate then Timestamp else Amount
  }

  /** `sortedAndFilteredTransactions`. */
  function SortedAndFiltered(ts: seq<Transaction>, filter: string, field: SortField, dir: Direction): seq<Transaction> {
    Sorting.SortBy(ByCategory(ts, filter), SortKey(field), dir == Desc)
  }

  /** An empty filter keeps every transaction; any other keeps exactly those of
      that category, in input order. */
  lemma {:induction false} FilterKeeps(ts: seq<Transaction>, filter: string)
    ensures filter == "" ==> ByCategory(ts, filter) == ts
    ensures forall t :: t in ByCategory(ts, filter) <==> t in ts && (filter == "" || t.category == Some(filter))
    ensures |ByCategory(ts, filter)| <= |ts|
  {
    if ts != [] {
      FilterKeeps(Init(ts), filter);
      assert ts == Init(ts) + [Last(ts)];
    }
  }

  /** The shown list is a reordering of the filtered list, ordered by the chosen
      key in the chosen direction, with ties in input order. */
  lemma SortedAndFilteredFacts(ts: seq<Transaction>, filter: string, field: SortField, dir: Direction, k: int)
    ensures var r := SortedAndFiltered(ts, filter, field, dir);
      && multiset(r) == multiset(ByCategory(ts, filter))
      && (forall i, j :: 0 <= i < j < |r| ==>
            if dir == Desc then SortKey(field)(r[i]) >= SortKey(field)(r[j])
            else SortKey(field)(r[i]) <= SortKey(field)(r[j]))
      && Sorting.WithKey(r, SortKey(field), k) == Sorting.WithKey(ByCategory(ts, filter), SortKey(field), k)
  {
    var f := ByCategory(ts, filter);
    var r := SortedAndFiltered(ts, filter, field, dir);
    Sorting.SortByCorrect(f, SortKey(field), dir == Desc);
    Sorting.SortByStable(f, SortKey(field), dir == Desc, k);
    forall i, j | 0 <= i < j < |r|
      ensures if dir == Desc then SortKey(field)(r[i]) >= SortKey(field)(r[j])
              else SortKey(field)(r[i]) <= SortKey(field)(r[j])
    {
      assert Sorting.InOrder(r[i], r[j], SortKey(field), dir == Desc);
    }
  }

  /** Sorting by date newest first puts undated transactions (the epoch) after
      every transaction dated later than the epoch. */
  lemma UndatedLast(ts: seq<Transaction>, filter: string, i: int, j: int)
    requires var r := SortedAndFiltered(ts, filter, ByDate, Desc);
      0 <= i < |r| && 0 <= j < |r| && r[i].date.None? && r[j].date.Some? && r[j].date.value > 0
    ensures j < i
  {
    var r := SortedAndFiltered(ts, filter, ByDate, Desc);
    Sorting.SortByCorrect(ByCategory(ts, filter), Timestamp, true);
    assert i < j ==> Sorting.InOrder(r[i], r[j], Timestamp, true);
  }

  /** `toggleSort(field)` as a function of the sort state. */
  function Toggled(sortBy: SortField, dir: Direction, field: SortField): (SortField, Direction) {
    if sortBy == field then (sortBy, if dir == Asc then Desc else Asc) else (field, Desc)
  }

  /** Toggling the active field twice restores the state; toggling another
      field makes it active in descending order; either way the toggled field
      ends up active. */
  lemma ToggleFacts(sortBy: SortField, dir: Direction, field: SortField)
    ensures Toggled(sortBy, dir, field).0 == field
    ensures field == sortBy ==> Toggled(sortBy, dir, field).1 != dir
    ensures field == sortBy ==> Toggled(Toggled(sortBy, dir, field).0, Toggled(sortBy, dir, field).1, field) == (sortBy, dir)
    ensures field != sortBy ==> Toggled(sortBy, dir, field) == (field, Desc)
    ensures field != sortBy ==> Toggled(field, Desc, field) == (field, Asc)
  {
  }

  /** The dialog's state: `sortBy`, `sortDirection`, `filterCategory`. */
  class ViewState {
    var sortBy: SortField
    var sortDirection: Direction
    var filterCategory: string

    /** The initial state: newest first, no filter. */
    constructor ()
      ensures sortBy == ByDate && sortDirection == Desc && filterCategory == ""
    {
      sortBy := ByDate;
      sortDirection := Desc;
      filterCategory := "";
    }

    /** `toggleSort(field)`. */
    method ToggleSort(field: SortField)
      modifies this
      ensures (sortBy, sortDirection) == Toggled(old(sortBy), old(sortDirection), field)
      ensures filterCategory == old(filterCategory)
    {
      if sortBy == field {
        sortDirection := if sortDirection == Asc then Desc else Asc;
      } else {
        sortBy := field;
        sortDirection := Desc;
      }
    }

    /** The filter menu's `onChange`: `setFilterCategory(e.target.value)`. */
    method SetFilterCategory(category: string)
      modifies this
      ensures filterCategory == category
      ensures sortBy == old(sortBy) && sortDirection == old(sortDirection)
    {
      filterCategory := category;
    }

    /** The list shown for the given transactions in the current state. */
    function Shown(ts: seq<Transaction>): seq<Transaction>
      reads this
    {
      SortedAndFiltered(ts, filterCategory, sortBy, sortDirection)
    }
  }

  /** Toggling, then toggling back, shows the list as before. */
  method ToggleTwiceShowsSame(v: ViewState, ts: seq<Transaction>)
    modifies v
    ensures v.Shown(ts) == old(v.Shown(ts))
  {
    var field := v.sortBy;
    v.ToggleSort(field);
    v.ToggleSort(field);
  }
}
