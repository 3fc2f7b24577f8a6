/** The financial summary card: income and expenses classified by category or
    by the note marker, their balance, the recent expenses classified by sign,
    and the savings rate of the recent period. */
module FinancialSummary {
  import opened Types
  import Utils

  /** `isIncome(t)`: category 'Income', or notes containing 'INCOME:'. */
  predicate IsIncome(t: Transaction) {
    t.category == Some("Income") || NotesContain(t, "INCOME:")
  }

  predicate NotIncome(t: Transaction) {
    !IsIncome(t)
  }

  /** `totalIncome`: the absolute amounts of the income transactions. */
  function TotalIncome(ts: seq<Transaction>): int {
    Sum(Filter(ts, IsIncome), AbsAmount)
  }

  /** `totalExpenses`: the absolute amounts of all other transactions. */
  function TotalExpenses(ts: seq<Transaction>): int {
    Sum(Filter(ts, NotIncome), AbsAmount)
  }

  function Balance(ts: seq<Transaction>): int {
    TotalIncome(ts) - TotalExpenses(ts)
  }

  /** A transaction's contribution to the balance: its absolute amount, counted
      up if it is income and down otherwise. */
  function ClassifiedAmount(t: Transaction): int {
    if IsIncome(t) then AbsAmount(t) else -AbsAmount(t)
  }

  /** Each absolute amount goes to exactly one of the totals; both are
      non-negative; the balance adds up the classified amounts. */
  lemma {:induction false} TotalsPartition(ts: seq<Transaction>)
    ensures TotalIncome(ts) + TotalExpenses(ts) == Sum(ts, AbsAmount)
    ensures TotalIncome(ts) >= 0 && TotalExpenses(ts) >= 0
    ensures Balance(ts) == Sum(ts, ClassifiedAmount)
  {
    if ts != [] {
      TotalsPartition(Init(ts));
      var t := Last(ts);
      SumAppend(Filter(Init(ts), IsIncome), if IsIncome(t) then [t] else [], AbsAmount);
      SumAppend(Filter(Init(ts), NotIncome), if NotIncome(t) then [t] else [], AbsAmount);
      assert Sum([t], AbsAmount) == AbsAmount(t) by { assert Init([t]) == []; }
    }
  }

  /** `recentExpenses`' filter: a negative amount outside the 'Income' category. */
  predicate CountedExpense(t: Transaction) {
    Amount(t) < 0 && t.category != Some("Income")
  }

  /** `recentExpenses` over the 30-day window. */
  function RecentExpenses(ts: seq<Transaction>, now: int): int {
    Sum(Filter(Utils.Last30Days(ts, now), CountedExpense), AbsAmount)
  }

  /** The recent expenses are the size of the recent negative amounts outside
      'Income', so they are non-negative, and zero when no amount is negative. */
  lemma RecentExpensesFacts(ts: seq<Transaction>, now: int)
    ensures RecentExpenses(ts, now) >= 0
    ensures RecentExpenses(ts, now) == -Sum(Filter(Utils.Last30Days(ts, now), CountedExpense), Amount)
    ensures (forall t :: t in ts ==> Amount(t) >= 0) ==> RecentExpenses(ts, now) == 0
  {
    var f := Filter(Utils.Last30Days(ts, now), CountedExpense);
    FilterSubset(Utils.Last30Days(ts, now), CountedExpense);
    SumNonNegative(f, AbsAmount);
    NegatedSum(f);
    if forall t :: t in ts ==> Amount(t) >= 0 {
      assert |f| == 0 || f[0] in f;
    }
  }

  lemma {:induction false} NegatedSum(f: seq<Transaction>)
    requires forall t :: t in f ==> Amount(t) < 0
    ensures Sum(f, AbsAmount) == -Sum(f, Amount)
  {
    if f != [] {
      assert forall t :: t in Init(f) ==> t in f;
      NegatedSum(Init(f));
    }
  }

  /** `savingsRate`, with the recent income given (the source never defines it). */
  function SavingsRate(recentIncome: int, recentExpenses: int): (r: real)
    ensures recentIncome <= 0 ==> r == 0.0
    ensures recentIncome > 0 ==> r * (recentIncome as real) == ((recentIncome - recentExpenses) as real) * 100.0
  {
    if recentIncome > 0 then ((recentIncome - recentExpenses) as real) / (recentIncome as real) * 100.0 else 0.0
  }

  /** With non-negative expenses the savings rate is at most 100, and exactly
      100 when nothing was spent. */
  lemma SavingsRateBounds(income: int, expenses: int)
    requires income > 0 && expenses >= 0
    ensures SavingsRate(income, expenses) <= 100.0
    ensures SavingsRate(income, expenses) == 100.0 <==> expenses == 0
  {
    var r := SavingsRate(income, expenses);
    assert r * (income as real) <= 100.0 * (income as real);
    if r == 100.0 {
      assert 100.0 * (income as real) == ((income - expenses) as real) * 100.0;
    }
  }

  /** The two rules disagree both ways: a negative transaction noted as income
      is income for the totals and an expense for the recent expenses, and a
      positive refund is an expense for the totals and not for the recent expenses. */
  lemma ClassifiersDisagree()
    ensures var t := Transaction(None, None, None, Some(-500), Some("Food"), None, Some("INCOME: refund"), None);
      IsIncome(t) && CountedExpense(t)
    ensures var t := Transaction(None, None, None, Some(500), Some("Food"), None, None, None);
      !IsIncome(t) && !CountedExpense(t)
  {
    assert OccursAt("INCOME: refund", "INCOME:", 0);
  }
}
