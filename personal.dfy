/** `calculateSummary` of the personal dashboard: the signed balance, the
    income and the expenses of the last 30 days told apart by sign, and the
    savings rate. */
module PersonalSummary {
  import opened Types
  import Utils
  import FinancialSummary

  datatype Summary = Summary(totalBalance: int, monthlyIncome: int, monthlyExpenses: int, savingsRate: real)

  predicate Positive(t: Transaction) {
    Amount(t) > 0
  }

  predicate Negative(t: Transaction) {
    Amount(t) < 0
  }

  /** `calculateSummary(transactions)`, with the current time passed in. */
  function CalculateSummary(ts: seq<Transaction>, now: int): Summary {
    var recent := Utils.Last30Days(ts, now);
    var income := Sum(Filter(recent, Positive), Amount);
    var expenses := Sum(Filter(recent, Negative), AbsAmount);
    Summary(Sum(ts, Amount), income, expenses, FinancialSummary.SavingsRate(income, expenses))
  }

  /** Splitting by sign: the positive amounts and the sizes of the negative
      ones are both non-negative, and their difference is the signed sum. */
  lemma {:induction false} SignSplit(s: seq<Transaction>)
    ensures Sum(Filter(s, Positive), Amount) >= 0
    ensures Sum(Filter(s, Negative), AbsAmount) >= 0
    ensures Sum(Filter(s, Positive), Amount) - Sum(Filter(s, Negative), AbsAmount) == Sum(s, Amount)
  {
    if s != [] {
      SignSplit(Init(s));
      var t := Last(s);
      SumAppend(Filter(Init(s), Positive), if Positive(t) then [t] else [], Amount);
      SumAppend(Filter(Init(s), Negative), if Negative(t) then [t] else [], AbsAmount);
      assert Sum([t], Amount) == Amount(t) by { assert Init([t]) == []; }
      assert Sum([t], AbsAmount) == AbsAmount(t) by { assert Init([t]) == []; }
    }
  }

  /** The summary's figures: the balance is the signed sum of all amounts; the
      monthly income and expenses are non-negative and differ by the signed sum
      of the recent amounts; the savings rate is 0 without income and otherwise
      (income - expenses) / income * 100, which is at most 100. */
  lemma SummaryFacts(ts: seq<Transaction>, now: int)
    ensures var s := CalculateSummary(ts, now);
      && s.totalBalance == Sum(ts, Amount)
      && s.monthlyIncome >= 0 && s.monthlyExpenses >= 0
      && s.monthlyIncome - s.monthlyExpenses == Sum(Utils.Last30Days(ts, now), Amount)
      && (s.monthlyIncome <= 0 ==> s.savingsRate == 0.0)
      && (s.monthlyIncome > 0 ==>
            s.savingsRate * (s.monthlyIncome as real) == ((s.monthlyIncome - s.monthlyExpenses) as real) * 100.0
            && s.savingsRate <= 100.0)
  {
    var s := CalculateSummary(ts, now);
    SignSplit(Utils.Last30Days(ts, now));
    if s.monthlyIncome > 0 {
      FinancialSummary.SavingsRateBounds(s.monthlyIncome, s.monthlyExpenses);
    }
  }
}
