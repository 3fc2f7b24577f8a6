/** The add-transaction form: how a submitted personal transaction's category
    and notes encode its type, how the summaries read that encoding back, and
    the form's state across a submission. */
module AddTransaction {
  import opened Types
  import FinancialSummary
  import ExpenseChart
  import RecentList

  datatype Kind = Expense | Income

  /** `transactionType.toUpperCase()`. */
  function Marker(kind: Kind): string {
    if kind == Income then "INCOME" else "EXPENSE"
  }

  /** `transaction.notes || ''`. */
  function NotesText(form: Transaction): string {
    if Truthy(form.notes) then form.notes.value else ""
  }

  /** `modifiedTransaction`: the form's transaction with the category set from
      the type and the notes prefixed with the type. */
  function BuildTransaction(form: Transaction, kind: Kind): (m: Transaction)
    ensures Truthy(m.category)
    ensures kind == Income ==> m.category == Some("Income")
    ensures kind == Expense ==> m.category == if Truthy(form.category) then form.category else Some("Other")
    ensures m.(category := form.category, notes := form.notes) == form
    ensures m.notes.Some? && |m.notes.value| >= |Marker(kind)| + 2
    ensures m.notes.value[..|Marker(kind)| + 2] == Marker(kind) + ": "
    ensures m.notes.value[|Marker(kind)| + 2..] == NotesText(form)
  {
    var category := if kind == Income then Some("Income")
                    else if Truthy(form.category) then form.category else Some("Other");
    var notes := Marker(kind) + ": " + NotesText(form);
    assert notes[..|Marker(kind)| + 2] == Marker(kind) + ": ";
    assert notes[|Marker(kind)| + 2..] == NotesText(form);
    form.(category := Some(category.value), notes := Some(notes))
  }

  /** Reading the notes back: the type is the text before ': ', the original
      notes the text after it. */
  function DecodeNotes(notes: string): Option<(Kind, string)> {
    if |notes| >= 8 && notes[..8] == "INCOME: " then Some((Income, notes[8..]))
    else if |notes| >= 9 && notes[..9] == "EXPENSE: " then Some((Expense, notes[9..]))
    else None
  }

  /** The notes encoding round-trips: the type and the original notes come back. */
  lemma NotesRoundTrip(form: Transaction, kind: Kind)
    ensures DecodeNotes(BuildTransaction(form, kind).notes.value) == Some((kind, NotesText(form)))
  {
    var n := BuildTransaction(form, kind).notes.value;
    if kind == Expense {
      assert n[..8] != "INCOME: " by {
        assert n[..9] == "EXPENSE: ";
        assert n[0] == 'E';
      }
    }
  }

  /** Every income-type transaction built here is income for the financial
      summary and is not taken by the expense chart. */
  lemma IncomeBuildIsIncome(form: Transaction)
    ensures FinancialSummary.IsIncome(BuildTransaction(form, Income))
    ensures !ExpenseChart.IsExpense(BuildTransaction(form, Income))
    ensures !RecentList.IsExpense(BuildTransaction(form, Income))
  {
  }

  /** An expense-type transaction built here is income for the financial
      summary exactly when its category is 'Income' or its original notes
      carried 'INCOME:' ('EXPENSE: ' cannot supply or split that marker); the
      expense chart and the recent list take it iff the category is not 'Income'. */
  lemma ExpenseBuildClassified(form: Transaction)
    ensures var m := BuildTransaction(form, Expense);
      FinancialSummary.IsIncome(m) <==> m.category == Some("Income") || Contains(NotesText(form), "INCOME:")
    ensures var m := BuildTransaction(form, Expense);
      ExpenseChart.IsExpense(m) <==> m.category != Some("Income")
    ensures var m := BuildTransaction(form, Expense);
      RecentList.IsExpense(m) <==> m.category != Some("Income")
  {
    var m := BuildTransaction(form, Expense);
    var x := NotesText(form);
    assert m.notes.value == "EXPENSE: " + x;
    MarkerNotStraddled(x);
    assert OccursAt(m.notes.value, "EXPENSE:", 0);
  }

  /** 'INCOME:' occurs in 'EXPENSE: ' + x exactly when it occurs in x. */
  lemma MarkerNotStraddled(x: string)
    ensures Contains("EXPENSE: " + x, "INCOME:") <==> Contains(x, "INCOME:")
  {
    var pre := "EXPENSE: ";
    assert forall j :: 0 <= j < |pre| ==> pre[j] != 'I';
    PrefixWithoutStart(pre, x, "INCOME:");
  }

  /** A prefix none of whose letters starts sub neither supplies nor splits an
      occurrence of sub. */
  lemma PrefixWithoutStart(pre: string, x: string, sub: string)
    requires |sub| > 0 && forall j :: 0 <= j < |pre| ==> pre[j] != sub[0]
    ensures Contains(pre + x, sub) <==> Contains(x, sub)
  {
    var s := pre + x;
    if Contains(x, sub) {
      var i :| OccursAt(x, sub, i);
      OccursShifted(pre, x, sub, i);
    }
    if Contains(s, sub) {
      var i :| OccursAt(s, sub, i);
      assert s[i..i + |sub|][0] == sub[0];
      assert s[..|pre|] == pre;
      assert i >= |pre|;
      OccursShifted(pre, x, sub, i - |pre|);
    }
  }

  /** sub occurs in x at i exactly when it occurs in pre + x at i + |pre|. */
  lemma OccursShifted(pre: string, x: string, sub: string, i: int)
    requires i >= 0
    ensures OccursAt(x, sub, i) <==> OccursAt(pre + x, sub, i + |pre|)
  {
    if 0 <= i <= |x| - |sub| {
      assert (pre + x)[i + |pre|..i + |pre| + |sub|] == x[i..i + |sub|];
    }
  }

  /** The form's blank transaction: `{ name: '', amount: undefined, category: '', date: new Date(), notes: '' }`. */
  function BlankDraft(today: int): Transaction {
    Transaction(None, None, Some(""), None, Some(""), Some(today), Some(""), None)
  }

  /** The form's state. `writes` lists the `addTransaction(userId, transaction)`
      calls issued, oldest first; the store's answer is an input of `Submit`. */
  class AddForm {
    var isOpen: bool
    var isSubmitting: bool
    var error: Option<string>
    var kind: Kind
    var draft: Transaction
    var writes: seq<(string, Transaction)>

    constructor (today: int)
      ensures !isOpen && !isSubmitting && error.None? && kind == Expense
      ensures draft == BlankDraft(today) && writes == []
    {
      isOpen := false;
      isSubmitting := false;
      error := None;
      kind := Expense;
      draft := BlankDraft(today);
      writes := [];
    }

    /** The "Add Transaction" button, and the overlay or Cancel closing the form. */
    method SetOpen(open: bool)
      modifies this
      ensures isOpen == open
      ensures isSubmitting == old(isSubmitting) && error == old(error) && kind == old(kind)
      ensures draft == old(draft) && writes == old(writes)
    {
      isOpen := open;
    }

    /** The type buttons: `setTransactionType(kind)`. */
    method SetKind(k: Kind)
      modifies this
      ensures kind == k
      ensures isOpen == old(isOpen) && isSubmitting == old(isSubmitting) && error == old(error)
      ensures draft == old(draft) && writes == old(writes)
    {
      kind := k;
    }

    /** `handleSubmit`, with the store's verdict on the write as `storeAccepts`
        and the reset form's date as `today`. Without a user nothing is
        written; otherwise exactly one write of the encoded transaction is
        issued, and the form is reset and closed if it succeeds or keeps its
        contents and shows the failure if it does not. */
    method Submit(userId: Option<string>, storeAccepts: bool, today: int)
      modifies this
      ensures kind == old(kind) && (Truthy(userId) ==> !isSubmitting)
      ensures !Truthy(userId) ==>
                isSubmitting == old(isSubmitting) && error == Some("User information is missing") && writes == old(writes)
                && isOpen == old(isOpen) && draft == old(draft)
      ensures Truthy(userId) ==> writes == old(writes) + [(userId.value, BuildTransaction(old(draft), old(kind)))]
      ensures Truthy(userId) && storeAccepts ==> error.None? && !isOpen && draft == BlankDraft(today)
      ensures Truthy(userId) && !storeAccepts ==>
                error == Some("Failed to add transaction. Please try again.")
                && isOpen == old(isOpen) && draft == old(draft)
    {
      if !Truthy(userId) {
        error := Some("User information is missing");
        return;
      }
      isSubmitting := true;
      error := None;
      var modified := BuildTransaction(draft, kind);
      writes := writes + [(userId.value, modified)];
      if storeAccepts {
        draft := BlankDraft(today);
        isOpen := false;
      } else {
        error := Some("Failed to add transaction. Please try again.");
      }
      isSubmitting := false;
    }
  }
}
