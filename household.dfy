/** The household dashboard's figures: the signed total of every transaction,
    the trailing 30-day total, the current member's contribution and share, and
    the per-category and per-member sums fed to the pie charts. */
module HouseholdData {
  import opened Types
  import opened Grouping
  import Utils

  datatype Contribution = Contribution(amount: int, percentage: real)

  datatype ProcessedTransactionData = ProcessedTransactionData(
    totalExpenses: int,
    recentExpenses: int,
    userContribution: Contribution,
    categoryData: seq<Entry<string>>,
    userContributionData: seq<Entry<string>>)

  /** `parseNumberSafe(transaction.amount)`. */
  function SafeAmount(t: Transaction): (r: int)
    ensures r == Amount(t)
  {
    Utils.ParseAmount(t);
    Utils.ParseNumberSafe(Utils.AmountInput(t), 0)
  }

  /** `totalExpenses`: the signed sum over every transaction, income or not. */
  function TotalExpenses(ts: seq<Transaction>): int {
    Sum(ts, SafeAmount)
  }

  /** `recentExpenses`: the signed sum over the 30-day window. */
  function RecentExpenses(ts: seq<Transaction>, now: int): int {
    Sum(Utils.Last30Days(ts, now), SafeAmount)
  }

  /** Together, the recent and the older transactions make up the total. */
  lemma RecentAndOlder(ts: seq<Transaction>, now: int)
    ensures RecentExpenses(ts, now) + Sum(Utils.Before(ts, Utils.DaysAgo(now, 30)), SafeAmount) == TotalExpenses(ts)
  {
    Utils.RecentSplit(ts, Utils.DaysAgo(now, 30), SafeAmount);
  }

  /** A transaction with no date counts as dated at the epoch, so it is never recent
      once the window starts after the epoch. */
  lemma UndatedNotRecent(ts: seq<Transaction>, now: int, t: Transaction)
    requires t in ts && t.date.None? && now - 30 * 86400000 > 0
    ensures t !in Utils.Last30Days(ts, now)
  {
  }

  /** The member's name as the contribution filter compares it: `userfullname === name`. */
  function FullName(t: Transaction): Option<string> {
    t.userfullname
  }

  /** `calculateUserContribution(transactions, totalExpenses, currentUserName)`. */
  function CalculateUserContribution(ts: seq<Transaction>, totalExpenses: int, currentUserName: Option<string>): (r: Contribution)
    ensures !Truthy(currentUserName) || |ts| == 0 || totalExpenses == 0 ==> r == Contribution(0, 0.0)
    ensures Truthy(currentUserName) && |ts| > 0 && totalExpenses != 0 ==>
              r.amount == SumWhere(ts, FullName, SafeAmount, currentUserName.value)
              && r.percentage * (totalExpenses as real) == (r.amount as real) * 100.0
  {
    if !Truthy(currentUserName) || |ts| == 0 || totalExpenses == 0 then Contribution(0, 0.0)
    else
      var amount := SumWhere(ts, FullName, SafeAmount, currentUserName.value);
      Contribution(amount, (amount as real) / (totalExpenses as real) * 100.0)
  }

  /** When every transaction is the member's own, the member's share of the
      total is 100 percent. */
  lemma {:induction false} SoleContributor(ts: seq<Transaction>, name: string)
    requires name != "" && |ts| > 0 && TotalExpenses(ts) != 0
    requires forall t :: t in ts ==> t.userfullname == Some(name)
    ensures CalculateUserContribution(ts, TotalExpenses(ts), Some(name)).percentage == 100.0
  {
    OwnSumIsTotal(ts, name);
  }

  lemma {:induction false} OwnSumIsTotal(ts: seq<Transaction>, name: string)
    requires forall t :: t in ts ==> t.userfullname == Some(name)
    ensures SumWhere(ts, FullName, SafeAmount, name) == TotalExpenses(ts)
  {
    if ts != [] {
      assert forall t :: t in Init(ts) ==> t in ts;
      OwnSumIsTotal(Init(ts), name);
    }
  }

  /** `prepareCategoryData(transactions)`. */
  method PrepareCategoryData(ts: seq<Transaction>) returns (r: seq<Entry<string>>)
    ensures r == Grouped(ts, CategoryKey, SafeAmount)
    ensures forall i, j :: 0 <= i < j < |r| ==> r[i].name != r[j].name
    ensures forall i :: 0 <= i < |r| ==>
              (r[i].name != "" && r[i].value == SumWhere(ts, CategoryKey, SafeAmount, r[i].name))
    ensures forall t :: t in ts && Truthy(t.category) ==> exists i :: 0 <= i < |r| && r[i].name == t.category.value
    ensures Sum(r, Value) == SumKeyed(ts, CategoryKey, SafeAmount)
  {
    r := SumByKey(ts, CategoryKey, SafeAmount);
    GroupedFacts(ts, CategoryKey, SafeAmount);
    forall i | 0 <= i < |r| ensures r[i].name != "" {
      KeysMembership(ts, CategoryKey, r[i].name);
    }
  }

  /** Keys distinct, and every item's key is the name of some entry. */
  lemma GroupedFacts<T>(s: seq<T>, key: T -> Option<string>, val: T -> int)
    ensures forall i, j :: 0 <= i < j < |Grouped(s, key, val)| ==> Grouped(s, key, val)[i].name != Grouped(s, key, val)[j].name
    ensures forall x :: x in s && key(x).Some? ==>
              exists i :: 0 <= i < |Grouped(s, key, val)| && Grouped(s, key, val)[i].name == key(x).value
    ensures Sum(Grouped(s, key, val), Value) == SumKeyed(s, key, val)
  {
    KeysDistinct(s, key);
    var ks := Keys(s, key);
    forall x | x in s && key(x).Some?
      ensures exists i :: 0 <= i < |Grouped(s, key, val)| && Grouped(s, key, val)[i].name == key(x).value
    {
      KeysMembership(s, key, key(x).value);
      var i :| 0 <= i < |ks| && ks[i] == key(x).value;
      assert Grouped(s, key, val)[i].name == key(x).value;
    }
    GroupedTotal(s, key, val);
  }

  /** `transaction.userfullname || 'Unknown'`. */
  function MemberOf(t: Transaction): (k: Option<string>)
    ensures k.Some?
    ensures Truthy(t.userfullname) ==> k == t.userfullname
    ensures !Truthy(t.userfullname) ==> k == Some("Unknown")
  {
    if Truthy(t.userfullname) then t.userfullname else Some("Unknown")
  }

  /** `prepareUserContributionData(transactions)`: every transaction counted once,
      so the member sums add up to the total. */
  method PrepareUserContributionData(ts: seq<Transaction>) returns (r: seq<Entry<string>>)
    ensures r == Grouped(ts, MemberOf, SafeAmount)
    ensures forall i, j :: 0 <= i < j < |r| ==> r[i].name != r[j].name
    ensures forall i :: 0 <= i < |r| ==> r[i].value == SumWhere(ts, MemberOf, SafeAmount, r[i].name)
    ensures forall t :: t in ts ==> exists i :: 0 <= i < |r| && r[i].name == MemberOf(t).value
    ensures Sum(r, Value) == TotalExpenses(ts)
  {
    r := SumByKey(ts, MemberOf, SafeAmount);
    GroupedFacts(ts, MemberOf, SafeAmount);
    SumKeyedAll(ts, MemberOf, SafeAmount);
  }

  /** For a real member name, the contribution amount is the value of that
      member's entry in the per-member chart (nameless transactions go to
      'Unknown', which is why that name is excluded). */
  lemma {:induction false} ContributionMatchesChart(ts: seq<Transaction>, name: string)
    requires name != "" && name != "Unknown"
    ensures SumWhere(ts, FullName, SafeAmount, name) == SumWhere(ts, MemberOf, SafeAmount, name)
  {
    if ts != [] {
      ContributionMatchesChart(Init(ts), name);
    }
  }

  /** `processTransactionData(transactions, currentUserId, currentUserName)`,
      with the clock reading passed in. `currentUserId` is accepted and unused. */
  method ProcessTransactionData(ts: seq<Transaction>, currentUserId: Option<string>, currentUserName: Option<string>, now: int)
    returns (r: ProcessedTransactionData)
    ensures r.totalExpenses == TotalExpenses(ts)
    ensures r.recentExpenses == RecentExpenses(ts, now)
    ensures r.userContribution == CalculateUserContribution(ts, TotalExpenses(ts), currentUserName)
    ensures r.categoryData == Grouped(ts, CategoryKey, SafeAmount)
    ensures r.userContributionData == Grouped(ts, MemberOf, SafeAmount)
    ensures Sum(r.userContributionData, Value) == r.totalExpenses
  {
    var total := Sum(ts, SafeAmount);
    var recent := Sum(Utils.Last30Days(ts, now), SafeAmount);
    var contribution := CalculateUserContribution(ts, total, currentUserName);
    var categories := PrepareCategoryData(ts);
    var members := PrepareUserContributionData(ts);
    r := ProcessedTransactionData(total, recent, contribution, categories, members);
  }
}
