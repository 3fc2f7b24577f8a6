/** The personal expense pie chart: the transactions taken as expenses, summed
    by absolute amount per category in order of first appearance. */
module ExpenseChart {
  import opened Types
  import opened Grouping
  import FinancialSummary

  /** The chart's expense filter: the category is not 'Income', and the notes
      carry 'EXPENSE:' or do not carry 'INCOME:' (no notes count as an expense). */
  predicate IsExpense(t: Transaction) {
    t.category != Some("Income") && (NotesContain(t, "EXPENSE:") || !NotesContain(t, "INCOME:"))
  }

  /** `expenseTransactions`. */
  function Expenses(ts: seq<Transaction>): seq<Transaction> {
    Filter(ts, IsExpense)
  }

  /** `categoryData`: the `forEach` loop over the expenses filling the Map. */
  method CategoryData(ts: seq<Transaction>) returns (r: seq<Entry<string>>)
    ensures r == Grouped(Expenses(ts), CategoryKey, AbsAmount)
    ensures forall i, j :: 0 <= i < j < |r| ==> r[i].name != r[j].name
    ensures forall i :: 0 <= i < |r| ==> r[i].name != "" && r[i].name != "Income"
    ensures forall i :: 0 <= i < |r| ==> r[i].value >= 0
    ensures forall t :: t in ts && IsExpense(t) && Truthy(t.category) ==>
              exists i :: 0 <= i < |r| && r[i].name == t.category.value
    ensures Sum(r, Value) == SumKeyed(Expenses(ts), CategoryKey, AbsAmount)
  {
    var e := Expenses(ts);
    r := SumByKey(e, CategoryKey, AbsAmount);
    FilterSubset(ts, IsExpense);
    KeysDistinct(e, CategoryKey);
    GroupedTotal(e, CategoryKey, AbsAmount);
    forall i | 0 <= i < |r| ensures r[i].name != "" && r[i].name != "Income" && r[i].value >= 0 {
      KeysMembership(e, CategoryKey, r[i].name);
      SumWhereNonNegative(e, CategoryKey, AbsAmount, r[i].name);
    }
    forall t | t in ts && IsExpense(t) && Truthy(t.category)
      ensures exists i :: 0 <= i < |r| && r[i].name == t.category.value
    {
      KeysMembership(e, CategoryKey, t.category.value);
      var i :| 0 <= i < |Keys(e, CategoryKey)| && Keys(e, CategoryKey)[i] == t.category.value;
      assert r[i].name == t.category.value;
    }
  }

  /** For notes without the 'EXPENSE:' marker the chart takes exactly the
      transactions that the financial summary does not count as income; with
      the marker, a note that also carries 'INCOME:' is counted by both. */
  lemma ExpenseVersusIncome(t: Transaction)
    ensures !NotesContain(t, "EXPENSE:") ==> (IsExpense(t) <==> !FinancialSummary.IsIncome(t))
    ensures t.category != Some("Income") && NotesContain(t, "EXPENSE:") ==> IsExpense(t)
  {
  }

  /** A note carrying both markers is an expense for the chart and income for the summary. */
  lemma BothMarkers()
    ensures var t := Transaction(None, None, None, Some(-500), Some("Food"), None, Some("EXPENSE: INCOME: mixed"), None);
      IsExpense(t) && FinancialSummary.IsIncome(t)
  {
    assert OccursAt("EXPENSE: INCOME: mixed", "EXPENSE:", 0);
    assert OccursAt("EXPENSE: INCOME: mixed", "INCOME:", 9);
  }
}
