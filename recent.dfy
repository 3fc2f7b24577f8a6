/** The recent-transactions list: a newest-first copy of the transactions, its
    first `limit` entries, the expense flag of each row and whether the
    "View All" control is shown. */
module RecentList {
  import opened Types
  import Sorting

  /** The `limit` prop's default. */
  const DefaultLimit: int := 5

  /** `[...transactions].sort((a, b) => dateB - dateA)`: a sorted copy. */
  function NewestFirst(ts: seq<Transaction>): seq<Transaction> {
    Sorting.SortBy(ts, Timestamp, true)
  }

  /** `Array.prototype.slice(0, end)`: a negative end counts from the back. */
  function SliceTo<T>(s: seq<T>, end: int): (r: seq<T>)
    ensures end >= 0 ==> r == s[..if end < |s| then end else |s|]
    ensures end < 0 ==> r == s[..if |s| + end > 0 then |s| + end else 0]
  {
    var stop := if end < 0 then (if |s| + end > 0 then |s| + end else 0)
                else (if end < |s| then end else |s|);
    s[..stop]
  }

  /** `displayedTransactions`. */
  function Displayed(ts: seq<Transaction>, limit: int): seq<Transaction> {
    SliceTo(NewestFirst(ts), limit)
  }

  /** `isExpense(transaction)`. */
  predicate IsExpense(t: Transaction) {
    t.category != Some("Income")
  }

  /** The "View All" control's condition. */
  predicate ShowViewAll(ts: seq<Transaction>, limit: int) {
    |ts| > limit
  }

  /** The sorted copy holds the same transactions, newest first (an undated
      one counting as the epoch), ties in input order. */
  lemma NewestFirstFacts(ts: seq<Transaction>, k: int)
    ensures multiset(NewestFirst(ts)) == multiset(ts)
    ensures |NewestFirst(ts)| == |ts|
    ensures forall i, j :: 0 <= i < j < |ts| ==> Timestamp(NewestFirst(ts)[i]) >= Timestamp(NewestFirst(ts)[j])
    ensures Sorting.WithKey(NewestFirst(ts), Timestamp, k) == Sorting.WithKey(ts, Timestamp, k)
  {
    Sorting.SortByCorrect(ts, Timestamp, true);
    Sorting.SortByStable(ts, Timestamp, true, k);
    var s := NewestFirst(ts);
    forall i, j | 0 <= i < j < |ts| ensures Timestamp(s[i]) >= Timestamp(s[j]) {
      assert Sorting.InOrder(s[i], s[j], Timestamp, true);
    }
  }

  /** For a non-negative limit the list shows min(limit, n) transactions, every
      one of them at least as new as any transaction left out; "View All"
      appears exactly when some transaction is left out. */
  lemma DisplayedFacts(ts: seq<Transaction>, limit: int)
    requires limit >= 0
    ensures |Displayed(ts, limit)| == if limit < |ts| then limit else |ts|
    ensures Displayed(ts, limit) <= NewestFirst(ts)
    ensures forall i, j :: 0 <= i < |Displayed(ts, limit)| <= j < |NewestFirst(ts)| ==>
              Timestamp(Displayed(ts, limit)[i]) >= Timestamp(NewestFirst(ts)[j])
    ensures ShowViewAll(ts, limit) <==> |Displayed(ts, limit)| < |ts|
  {
    NewestFirstFacts(ts, 0);
  }

  /** A negative limit drops that many transactions from the end, and the
      "View All" control is shown whenever there is any transaction. */
  lemma NegativeLimit(ts: seq<Transaction>, limit: int)
    requires limit < 0
    ensures |Displayed(ts, limit)| == if |ts| + limit > 0 then |ts| + limit else 0
    ensures |ts| > 0 ==> ShowViewAll(ts, limit)
  {
    NewestFirstFacts(ts, 0);
  }

  /** With the default limit the list shows the five newest transactions (or
      all, when there are fewer), and "View All" appears iff there are more than five. */
  lemma DefaultLimitShown(ts: seq<Transaction>)
    ensures |Displayed(ts, DefaultLimit)| == if |ts| < 5 then |ts| else 5
    ensures ShowViewAll(ts, DefaultLimit) <==> |ts| > 5
  {
    DisplayedFacts(ts, DefaultLimit);
  }
}
