# Centsible client aggregation, modelled in Dafny

Centsible is a personal and household budgeting web client. This project
models the part of it that turns an in-memory list of transaction records
into the figures the dashboards show, and proves properties of that model:

- the household page's signed totals, the trailing 30-day total, a member's
  contribution and share, and the per-category and per-member sums;
- the shared helpers: safe number parsing, `groupBy`, the required-field
  check, user-name composition, the zero guard of the percentage, `daysAgo`;
- the expense trend chart's monthly records and its top-five categories;
- the "all transactions" dialog's category list, filter, sort and sort toggle;
- the financial summary's category-or-notes income classifier, its totals,
  recent expenses and savings rate;
- the personal expense pie chart's expense filter and absolute-value grouping;
- the recent-transactions preview;
- the personal dashboard's sign-based `calculateSummary`;
- how the add-transaction form encodes a new transaction's type in its
  category and notes, and the form's state across a submission.

A transaction (`Types.Transaction`) has optional fields. Amounts are whole
cents (`Option<int>`). Dates are millisecond timestamps (`Option<int>`).
The current time is a parameter wherever the source reads the clock. Calendar
months are `(year, month)` pairs with months numbered 0 to 11.

Loops that mutate a `Map`, an array of records or a form's state are
methods with loop invariants, proved against reference functions:

- `Grouping.SumByKey` drives an `OrderedMap` class, which models a
  JavaScript `Map` with insertion order;
- `TrendChart.MonthlyData` updates an `array` of month records;
- `AddTransaction.AddForm` is a class with the form's state variables.

Filter and reduce chains are functions, and lemmas state what they compute.
JavaScript's stable `sort` is modelled once, as the stable insertion sort
`Sorting.SortBy`. The `forEach` plus `Map` grouping loop, which four
components repeat, is likewise modelled once by `Grouping.SumByKey`.

Each figure is connected to a partner:

- a reference definition that the method is proved equal to;
- a partition, such as income plus expenses equalling all absolute amounts,
  or recent plus older equalling the total;
- an inverse, such as decoding the notes marker.

The files disagree with each other, and the model pins those disagreements
down:

- signed versus absolute sums;
- the notes-marker income rule versus the sign-based expense rule;
- the pie chart's expense filter versus the summary's income filter.

## Model

| member | source | states |
|---|---|---|
| Types.Contains | client/src/components/FinancialSummary.tsx:13 | `s.includes(sub)` holds iff sub occurs in s at some position |
| Types.AbsAmount | client/src/components/FinancialSummary.tsx:18 | the absolute amount, a missing amount counting as 0, is never negative |
| Types.CategoryKey | client/src/pages/Dashboard/Household/HouseHoldDataProcessing.ts:108-109 | a transaction has a grouping key iff its category is truthy, and the key is that category |
| Types.SumNonNegative | client/src/components/PersonalExpenseChart.tsx:31-34 | a sum of non-negative terms is non-negative |
| Types.FilterSubset | client/src/components/FinancialSummary.tsx:16-23 | `filter` keeps exactly the elements satisfying the predicate and never lengthens the list |
| Sorting.SortByCorrect | client/src/components/ViewAllTransactions.tsx:28-46 | the comparator sort returns a permutation of its input, of the same length, ordered by the key in the chosen direction |
| Sorting.SortByStable | client/src/components/RecentTransactions.tsx:17-21 | the sort is stable: elements with equal keys keep their input order |
| Grouping.OrderedMap.constructor | client/src/pages/Dashboard/Household/HouseHoldDataProcessing.ts:105 | `new Map()` has no keys |
| Grouping.OrderedMap.Get | client/src/pages/Dashboard/Household/HouseHoldDataProcessing.ts:112 | `map.get(k)` is defined iff k was set, and then it is the stored value |
| Grouping.OrderedMap.Set | client/src/pages/Dashboard/Household/HouseHoldDataProcessing.ts:113 | `map.set(k, v)` appends a new key at the end, keeps an existing key in place, stores v, and keeps the keys distinct |
| Grouping.SumByKey | client/src/pages/Dashboard/Household/HouseHoldDataProcessing.ts:105-118 | the `forEach` loop with `get(k) \|\| 0` and `set` yields, per distinct key in first-appearance order, the sum of its items' values |
| Grouping.KeysDistinct | client/src/pages/Dashboard/Household/HouseHoldDataProcessing.ts:118 | the grouped keys are pairwise distinct |
| Grouping.KeysMembership | client/src/components/PersonalExpenseChart.tsx:28-39 | a name is a grouped key iff some item has it as its key |
| Grouping.GroupedTotal | client/src/pages/Dashboard/Household/HouseHoldDataProcessing.ts:107-115 | the values of the grouped entries add up to the sum over the items that have a key |
| Grouping.SumKeyedAll | client/src/pages/Dashboard/Household/HouseHoldDataProcessing.ts:128-134 | when every item has a key, the keyed sum is the sum over all items |
| Grouping.SumWhereNonNegative | client/src/components/PersonalExpenseChart.tsx:31-34 | a per-key sum of non-negative values is non-negative |
| Calendar.SubMonths | client/src/components/ExpenseTrendChart.tsx:58 | `subMonths(m, k)` is the valid month exactly k months before m |
| Calendar.MonthOf | client/src/components/ExpenseTrendChart.tsx:107 | every timestamp falls in a valid calendar month (0 to 11) |
| Calendar.MonthWindow | client/src/components/ExpenseTrendChart.tsx:57-59 | the window holds n consecutive months, oldest first, and the last is the month of now |
| Calendar.WindowDistinct | client/src/components/ExpenseTrendChart.tsx:111-115 | the window's months are pairwise different, so a month matches at most one record |
| Calendar.InWindow | client/src/components/ExpenseTrendChart.tsx:111-116 | a month is in the window iff it lies fewer than n months back from the month of now |
| Calendar.MonthOfExample | client/src/components/ExpenseTrendChart.tsx:107 | 2024-03-15 00:00 UTC falls in March 2024 |
| Utils.Trim | client/src/utils/utils.ts:10 | `trim()` removes exactly the leading and trailing white space: the result sits inside the input, padded on both sides by white space only, and neither starts nor ends with white space |
| Utils.TrimUnchanged | client/src/utils/utils.ts:10 | a string that neither starts nor ends with white space is its own trim |
| Utils.FormatUserName | client/src/utils/utils.ts:8-11 | no user gives ''; a truthy full name is returned as is; otherwise first + ' ' + last, missing parts as '', trimmed |
| Utils.FormatUserNameBoth | client/src/utils/utils.ts:10 | without a full name, two clean non-empty name parts are joined by exactly one space |
| Utils.FormatUserNameFirstOnly | client/src/utils/utils.ts:10 | without a full name or a last name, the result is the first name alone, with no trailing space |
| Utils.FormatUserNameLastOnly | client/src/utils/utils.ts:10 | without a full name or a first name, the result is the last name alone, with no leading space |
| Utils.ParseNumberSafe | client/src/utils/utils.ts:46-51 | a numeric input comes back unchanged; undefined, null, '' and a NaN parse give the default |
| Utils.ParseAmount | client/src/pages/Dashboard/Household/HouseHoldDataProcessing.ts:31 | with the default 0, parsing an amount gives the amount, or 0 when it is missing |
| Utils.CalculatePercentage | client/src/utils/utils.ts:60-69 | the guard branch ('0%') is taken iff the total is 0; otherwise the percentage is value / total * 100, kept with the requested decimal places for `toFixed` |
| Utils.GroupKey | client/src/utils/utils.ts:79 | a falsy field value has the key 'undefined'; a non-empty string is its own key |
| Utils.GroupBy | client/src/utils/utils.ts:77-84 | the `reduce` throws (None) iff some item's key is a name every object inherits, such as 'toString' or '__proto__'; otherwise there is one group per key that occurs, and each group is exactly the items with that key, in input order |
| Utils.MembersExactlyOne | client/src/utils/utils.ts:79-81 | every item lies in the group of its own key and in no other group |
| Utils.GroupSizes | client/src/utils/utils.ts:77-84 | the group sizes add up to the number of items |
| Utils.DaysAgoWindow | client/src/utils/utils.ts:91-95 | `DaysAgo(now, d)` is now less d days: an instant is on or after it iff it lies at most d days before now, and going back one more day is `DaysAgo(now, d + 1)` |
| Utils.OnOrAfter | client/src/pages/Dashboard/Household/HouseHoldDataProcessing.ts:36-45 | the date filter keeps exactly the transactions dated on or after the cut-off, a missing date counting as the epoch |
| Utils.Last30Days | client/src/components/FinancialSummary.tsx:28-38 | the recent set is exactly the transactions dated no earlier than 30 days before now, a missing date counting as the epoch |
| Utils.RecentSplit | client/src/pages/Dashboard/Household/HouseHoldDataProcessing.ts:35-48 | the recent and the older transactions split every sum |
| Utils.HasRequiredFields | client/src/utils/utils.ts:103-110 | false without an object; otherwise true iff every listed field reads as something other than undefined, null or '': an own property with such a value, or a missing property whose name is inherited |
| Utils.InheritedFieldPresent | client/src/utils/utils.ts:106-108 | `hasRequiredFields({}, ['toString'])` is true, while a missing 'amount' is not present |
| Utils.RequiredFieldsExamples | client/src/utils/utils.ts:106-109 | an empty field list gives true, 0 and false count as present, '' does not, and a missing field is absent unless its name is inherited |
| HouseholdData.SafeAmount | client/src/pages/Dashboard/Household/HouseHoldDataProcessing.ts:31 | `parseNumberSafe(amount)` is the amount, or 0 when it is missing |
| HouseholdData.RecentAndOlder | client/src/pages/Dashboard/Household/HouseHoldDataProcessing.ts:30-48 | `TotalExpenses` (the signed sum of `parseNumberSafe(amount)`) equals the 30-day `RecentExpenses` plus the older transactions' total |
| HouseholdData.UndatedNotRecent | client/src/pages/Dashboard/Household/HouseHoldDataProcessing.ts:39-44 | an undated transaction counts as the epoch, so it is never recent once the window starts after the epoch |
| HouseholdData.CalculateUserContribution | client/src/pages/Dashboard/Household/HouseHoldDataProcessing.ts:75-98 | no name, no transactions or a zero total give (0, 0); otherwise the amount sums the transactions whose `userfullname` equals the name exactly, and percentage * total = amount * 100 |
| HouseholdData.SoleContributor | client/src/pages/Dashboard/Household/HouseHoldDataProcessing.ts:85-92 | when every transaction is the member's own, the share is 100 percent |
| HouseholdData.OwnSumIsTotal | client/src/pages/Dashboard/Household/HouseHoldDataProcessing.ts:85-89 | when every transaction carries the member's name, the member's sum is the household total |
| HouseholdData.PrepareCategoryData | client/src/pages/Dashboard/Household/HouseHoldDataProcessing.ts:103-119 | per distinct truthy category in first-appearance order, the signed sum of its amounts; every categorised transaction's category is listed, and the values add up to the sum over the categorised transactions |
| HouseholdData.MemberOf | client/src/pages/Dashboard/Household/HouseHoldDataProcessing.ts:129 | the member key is the truthy `userfullname`, otherwise 'Unknown' |
| HouseholdData.PrepareUserContributionData | client/src/pages/Dashboard/Household/HouseHoldDataProcessing.ts:124-138 | per distinct member in first-appearance order, the signed sum; every transaction is counted once, so the values add up to the total |
| HouseholdData.ContributionMatchesChart | client/src/pages/Dashboard/Household/HouseHoldDataProcessing.ts:85-89 | for a real name other than 'Unknown', the contribution amount equals that member's value in the per-member chart |
| HouseholdData.ProcessTransactionData | client/src/pages/Dashboard/Household/HouseHoldDataProcessing.ts:24-70 | the five figures are the signed total, the 30-day total, the contribution against that total, and the two groupings; the per-member values add up to the total |
| TrendChart.WindowLength | client/src/components/ExpenseTrendChart.tsx:57 | `Array.from({ length: months })` has `months` entries, and none for a negative count |
| TrendChart.ZeroedIsEmptyMonth | client/src/components/ExpenseTrendChart.tsx:62-83 | a freshly initialised record is the record of a month with no transactions |
| TrendChart.BucketStep | client/src/components/ExpenseTrendChart.tsx:117-127 | adding one eligible transaction to its month's record, as the loop body does, gives that month's record with the transaction included |
| TrendChart.FindMonth | client/src/components/ExpenseTrendChart.tsx:111-115 | `findIndex` returns the first record whose Date has the month, or -1 when none has it; it throws (None) when, before any match, it reaches a record whose `monthDate` is not a Date: every record ahead of that one holds a Date of another month |
| TrendChart.InitBuckets | client/src/components/ExpenseTrendChart.tsx:62-83 | the new array holds one empty-month record per window month |
| TrendChart.MonthlyData | client/src/components/ExpenseTrendChart.tsx:48-132 | the array loop computes exactly `MonthlyDataSpec`, the reference records of every window month (or the throw) |
| TrendChart.AccumulateAll | client/src/components/ExpenseTrendChart.tsx:89-129 | the `forEach` throws iff the reference says it does, and otherwise leaves each record equal to the reference record of its month |
| TrendChart.Accumulate | client/src/components/ExpenseTrendChart.tsx:89-129 | one transaction throws iff it is eligible and a category named "monthDate" exists; otherwise exactly its month's record takes it in |
| TrendChart.StampOfSpec | client/src/components/ExpenseTrendChart.tsx:62-83 | a record's `monthDate` holds its month's Date iff no category is named "monthDate" |
| TrendChart.ChartShape | client/src/components/ExpenseTrendChart.tsx:49-69 | no transactions give no records; otherwise, short of the throw, there are exactly `months` records, stamped with the window's months in order |
| TrendChart.DefaultWindowShape | client/src/components/ExpenseTrendChart.tsx:30-69 | with the default of 6 months a non-empty input gives six records, short of the throw, the last stamped with the month of now |
| TrendChart.CategoryFieldsPresent | client/src/components/ExpenseTrendChart.tsx:72-83 | every record has a field for every category of the whole input, 0 in a month without transactions |
| TrendChart.SkippedTransaction | client/src/components/ExpenseTrendChart.tsx:90 | a transaction without a date, with a missing or zero amount, or outside the window changes no record |
| TrendChart.AssignedByMonth | client/src/components/ExpenseTrendChart.tsx:107-116 | an eligible transaction goes to the record of its calendar month and to no other |
| TrendChart.TotalIsMonthSum | client/src/components/ExpenseTrendChart.tsx:120 | without a category named "total", a record's total is the signed sum of its month's amounts |
| TrendChart.TotalMatchesCategories | client/src/components/ExpenseTrendChart.tsx:117-127 | without a category named "total", and with every transaction categorised, a record's total equals the sum of its category fields |
| TrendChart.TotalCategoryCountedTwice | client/src/components/ExpenseTrendChart.tsx:120-126 | as written, one transaction of 100 in a category named "total" gives its month a total of 200 |
| TrendChart.MonthDateCategoryCrashes | client/src/components/ExpenseTrendChart.tsx:79-113 | as written, a category named "monthDate" makes `monthlyData` throw for any positive window |
| TrendChart.IntendedMonthlyData | client/src/components/ExpenseTrendChart.tsx:48-132 | the intended records: none for no transactions, otherwise one per window month |
| TrendChart.IntendedTotals | client/src/components/ExpenseTrendChart.tsx:117-127 | in the intended records the total is the month's signed sum, and it equals the sum of the category sums when every transaction is categorised, whatever the categories are called |
| TrendChart.WrittenMatchesIntended | client/src/components/ExpenseTrendChart.tsx:62-127 | with no category named "month", "monthDate" or "total", the records as written agree field by field with the intended ones |
| TrendChart.RankedKey | client/src/components/ExpenseTrendChart.tsx:143 | a transaction is ranked iff it has a truthy category and a truthy amount |
| TrendChart.TopCategories | client/src/components/ExpenseTrendChart.tsx:135-156 | equal to `Ranked`, the sorted `Object.entries` of the category totals cut to five names: at most five distinct names, each a ranked category, in descending order of sum; a category left out sums to no more than any chosen one; with at most five categories all are chosen |
| TrendChart.TopAreCategories | client/src/components/ExpenseTrendChart.tsx:143-155 | the top list holds at most five distinct names, each a ranked category |
| TrendChart.TopDescending | client/src/components/ExpenseTrendChart.tsx:152-155 | the top list is in non-increasing order of category sum |
| TrendChart.TopExcludedSmaller | client/src/components/ExpenseTrendChart.tsx:152-155 | a ranked category left out of the top list sums to no more than any category in it |
| TrendChart.TopAllWhenFew | client/src/components/ExpenseTrendChart.tsx:153-155 | with at most five ranked categories, every one of them is in the top list |
| TrendChart.RankedEntriesFacts | client/src/components/ExpenseTrendChart.tsx:152-153 | the sorted entries are the category totals reordered, with distinct names, in descending order |
| TrendChart.ObjectEntriesPermutation | client/src/components/ExpenseTrendChart.tsx:152 | `ObjectEntries` (array-index names ascending, then the others in insertion order) returns the same entries, reordered |
| TrendChart.ObjectEntriesExample | client/src/components/ExpenseTrendChart.tsx:152 | a category named like an array index ('7') is listed ahead of an earlier-inserted name |
| ViewAll.CategoriesAreKeys | client/src/components/ViewAllTransactions.tsx:21 | `Categories`, the `Set` of categories with falsy ones removed, is the distinct truthy categories in first-appearance order |
| ViewAll.FilterKeeps | client/src/components/ViewAllTransactions.tsx:25-27 | `ByCategory`: an empty filter keeps every transaction; otherwise exactly those of the filter's category, in input order |
| ViewAll.SortedAndFilteredFacts | client/src/components/ViewAllTransactions.tsx:24-46 | `SortedAndFiltered`, the shown list, is a permutation of the filtered list, ordered by date or amount in the chosen direction, ties in input order |
| ViewAll.UndatedLast | client/src/components/ViewAllTransactions.tsx:31-35 | newest first, an undated transaction comes after every transaction dated after the epoch |
| ViewAll.ToggleFacts | client/src/components/ViewAllTransactions.tsx:56-63 | `Toggled`: toggling the active field flips the direction, and doing it twice restores the state; another field becomes active in descending order |
| ViewAll.ViewState.constructor | client/src/components/ViewAllTransactions.tsx:16-18 | the dialog starts sorted by date, newest first, unfiltered |
| ViewAll.ViewState.ToggleSort | client/src/components/ViewAllTransactions.tsx:56-63 | `toggleSort` moves the sort state as the toggle function says and leaves the filter alone |
| ViewAll.ViewState.SetFilterCategory | client/src/components/ViewAllTransactions.tsx:18 | choosing a category sets the filter and leaves the sort state alone |
| ViewAll.ToggleTwiceShowsSame | client/src/components/ViewAllTransactions.tsx:56-63 | toggling the active field twice shows the same list |
| FinancialSummary.TotalsPartition | client/src/components/FinancialSummary.tsx:12-25 | with `IsIncome` (category 'Income' or notes containing 'INCOME:'), each absolute amount goes to exactly one of `TotalIncome` and `TotalExpenses`; both are non-negative; `Balance` is the sum of the signed classified amounts |
| FinancialSummary.RecentExpensesFacts | client/src/components/FinancialSummary.tsx:43-45 | `RecentExpenses` is the size of the recent negative amounts outside 'Income', so it is non-negative, and 0 without negative amounts |
| FinancialSummary.SavingsRate | client/src/components/FinancialSummary.tsx:48-50 | 0 without positive income; otherwise rate * income = (income - expenses) * 100 |
| FinancialSummary.SavingsRateBounds | client/src/pages/Dashboard/Personal/Personal.tsx:46-48 | with positive income and non-negative expenses the rate is at most 100, and exactly 100 iff nothing was spent |
| FinancialSummary.ClassifiersDisagree | client/src/components/FinancialSummary.tsx:12-45 | a negative amount noted 'INCOME:' is both income and a recent expense; a positive refund is neither income nor a recent expense |
| ExpenseChart.CategoryData | client/src/components/PersonalExpenseChart.tsx:15-40 | per distinct truthy category of the expenses, in first-appearance order, the sum of absolute amounts; no name is '' or 'Income'; all values are non-negative; every categorised expense is listed; the values add up to the keyed sum |
| ExpenseChart.ExpenseVersusIncome | client/src/components/PersonalExpenseChart.tsx:20-25 | `IsExpense`, the filter behind `Expenses`: without the 'EXPENSE:' marker it takes exactly the transactions the summary does not count as income; with it, any non-'Income' category is taken |
| ExpenseChart.BothMarkers | client/src/components/PersonalExpenseChart.tsx:23 | notes with both markers make a transaction an expense for the chart and income for the summary |
| RecentList.SliceTo | client/src/components/RecentTransactions.tsx:24 | `slice(0, end)` takes min(end, n) elements, and a negative end counts from the back |
| RecentList.NewestFirstFacts | client/src/components/RecentTransactions.tsx:17-21 | `NewestFirst`, the sorted copy, is a permutation of the input, newest first, an undated one counting as the epoch, ties in input order |
| RecentList.DisplayedFacts | client/src/components/RecentTransactions.tsx:24-56 | for a non-negative limit, `Displayed` is the first min(limit, n) of `NewestFirst`, none older than any left out, and `ShowViewAll` holds iff some transaction is left out |
| RecentList.DefaultLimitShown | client/src/components/RecentTransactions.tsx:14-56 | with the default limit of 5 the list shows min(5, n) transactions and "View All" appears iff there are more than five |
| RecentList.NegativeLimit | client/src/components/RecentTransactions.tsx:24-56 | a negative limit drops that many transactions from the end and always shows "View All" |
| PersonalSummary.SignSplit | client/src/pages/Dashboard/Personal/Personal.tsx:36-43 | the positive amounts and the sizes of the negative ones are non-negative and differ by the signed sum |
| PersonalSummary.SummaryFacts | client/src/pages/Dashboard/Personal/Personal.tsx:15-56 | `CalculateSummary`: the balance is the signed sum; monthly income and expenses are non-negative and differ by the recent signed sum; the savings rate is 0 without income, otherwise (income - expenses) / income * 100, at most 100 |
| AddTransaction.BuildTransaction | client/src/components/AddTransaction.tsx:43-50 | the category is 'Income' for income, else the chosen category or 'Other', never empty; the notes are the upper-case type, ': ' and the original notes or ''; every other field passes through |
| AddTransaction.NotesRoundTrip | client/src/components/AddTransaction.tsx:49 | the type and the original notes are read back from the notes |
| AddTransaction.IncomeBuildIsIncome | client/src/components/AddTransaction.tsx:47-49 | an income submission is income for the financial summary and is not in the expense chart or flagged as an expense |
| AddTransaction.ExpenseBuildClassified | client/src/components/AddTransaction.tsx:47-49 | an expense submission is income for the summary iff its category is 'Income' or its original notes contain 'INCOME:'; the chart and the recent list's `IsExpense` take it iff its category is not 'Income' |
| AddTransaction.MarkerNotStraddled | client/src/components/AddTransaction.tsx:49 | the 'EXPENSE: ' prefix neither supplies nor splits an 'INCOME:' marker |
| AddTransaction.AddForm.constructor | client/src/components/AddTransaction.tsx:15-28 | the form starts closed, idle, without error, for an expense, with a blank draft dated today and no writes |
| AddTransaction.AddForm.SetOpen | client/src/components/AddTransaction.tsx:15 | opening or closing the form changes nothing else |
| AddTransaction.AddForm.SetKind | client/src/components/AddTransaction.tsx:20 | choosing the type changes nothing else |
| AddTransaction.AddForm.Submit | client/src/components/AddTransaction.tsx:30-76 | without a user it sets "User information is missing" and writes nothing; otherwise it writes the encoded draft once, then resets and closes the form on success or shows the failure message and keeps the draft, and ends not submitting |

## Left out

- Firebase reads and writes, Clerk sign-in and every rendered element are not
  modelled. Transaction lists, the user's name and id, and the store's
  verdict on a write are parameters.
- Calendar.MonthOf: the month is taken in UTC; `getMonth()` and date-fns use
  the browser's local time zone, which is not modelled.
- Utils.DaysAgo: `setDate(getDate() - d)` is taken as d days of 24 hours; a
  daylight-saving change inside the window shifts the real cut-off by an hour.
- Amounts are integer cents. Floating-point rounding, `toFixed`, locale
  formatting, `formatCurrency`, `formatDate`, `parseFloat` prefix parsing,
  NaN amounts and Invalid Date values are not modelled.
- PersonalSummary.CalculateSummary: returns the four numbers; the `toFixed`
  strings the source returns are not modelled.
- FinancialSummary.SavingsRate: `recentIncome` is never declared in the
  source, so it is a parameter here.
- TrendChart.ObjectEntries: the record's array-index names are ordered as
  the language orders them.
- TrendChart.TopCategories: a category named after an `Object.prototype`
  member is not modelled. With 'toString' and the like, `categoryTotals[c] || 0`
  reads the inherited function, so the sum becomes a string; a '__proto__'
  category is dropped. The model sums such a name like any other.
- TrendChart.MonthlyData: a category named '__proto__' is not modelled. The
  assignment `month['__proto__'] = 0` is ignored, so that record gets no such
  field; the model gives it one.
- Utils.CalculatePercentage: the `toFixed` text is not modelled, so a result
  that rounds to 0 (such as `calculatePercentage(0, 100, 0)`) is a different
  value here from the guard's '0%', though the two strings are equal.
- A missing `transactions` prop is treated as an empty list. The `!user` and
  `!obj` guards are modelled for an absent value only.
- TrendChart.WindowLength: `months` is an integer; a fractional or NaN count
  is not modelled.
- RecentList.DisplayedFacts: `limit` is an integer; a fractional limit is not
  modelled.
- HouseholdData.ProcessTransactionData: `currentUserId` is accepted and
  unused, as in the source.
- The form's `handleChange` and `handleDateChange` text-to-value conversions
  are not modelled. The draft is a `Transaction` value. The
  `onTransactionAdded` callback is not modelled, because it calls code
  outside the form.
- `console.log` calls, the chart colours and the tooltip are not modelled.
- `AddHouseholdTransaction`, the household page's loading flows and the
  pending-invitation list are not modelled: they hold no aggregation logic.

## Findings

| source | as written | input that shows it | evidently intended | confidence | as-written member | corrected member |
|---|---|---|---|---|---|---|
| client/src/components/ExpenseTrendChart.tsx:120-126 | a category's sum is stored on the month record under the category's name, so a category named "total" adds each of its amounts to `total` a second time | one transaction of 100, dated now, in category "total": the month's total is 200 | the total is the month's signed sum, kept apart from the per-category sums | not executed | TrendChart.TotalCategoryCountedTwice | TrendChart.IntendedTotals |
| client/src/components/ExpenseTrendChart.tsx:79-113 | zero-initialising a category named "monthDate" overwrites every record's Date with 0, and the `findIndex` callback then calls `getFullYear` on 0 and throws | one transaction of 100, dated now, in category "monthDate", with `months` at least 1 | every transaction is bucketed by its month, whatever the category is called | not executed | TrendChart.MonthDateCategoryCrashes | TrendChart.IntendedMonthlyData |
