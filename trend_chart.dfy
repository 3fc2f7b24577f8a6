/** The expense trend chart: one record per calendar month of a trailing window,
    carrying the month's label, its first-day date, its signed total and one
    numeric field per category; and the five categories with the largest sums.
    A month record is a single string-keyed record, so a category whose name is
    one of the fixed field names lands on that field: this is modelled. */
module TrendChart {
  import opened Types
  import opened Grouping
  import opened Calendar
  import Sorting

  /** The `months` prop's default. */
  const DefaultMonths: int := 6

  /** A field of a month record: the `format(date, 'MMM yyyy')` label, the
      `monthDate` Date, or a number. */
  datatype Field = Label(labelOf: YearMonth) | Stamp(at: YearMonth) | Num(n: int)

  type Bucket = map<string, Field>

  /** What `monthlyData` evaluates to: the records, or the TypeError that the
      `findIndex` callback throws when `monthDate` does not hold a Date. */
  datatype Chart = Buckets(buckets: seq<Bucket>) | Crashed

  /** `Array.from({ length: months })` takes a negative length as 0. */
  function WindowLength(months: int): (n: nat)
    ensures months >= 0 ==> n == months
    ensures months < 0 ==> n == 0
  {
    if months < 0 then 0 else months
  }

  /** Passes `if (!transaction.date || !transaction.amount) return;`. */
  predicate Eligible(t: Transaction) {
    t.date.Some? && t.amount.Some? && t.amount.value != 0
  }

  /** The distinct truthy categories, in order of first appearance. */
  function Categories(ts: seq<Transaction>): seq<string> {
    Keys(ts, CategoryKey)
  }

  /** The eligible transactions whose date falls in month ym, in input order. */
  function InMonth(ts: seq<Transaction>, ym: YearMonth): seq<Transaction> {
    if ts == [] then []
    else InMonth(Init(ts), ym)
         + (if Eligible(Last(ts)) && MonthOf(Last(ts).date.value) == ym then [Last(ts)] else [])
  }

  /** The sum of the amounts of category c among the given transactions. */
  function CategorySum(month: seq<Transaction>, c: string): int {
    SumWhere(month, CategoryKey, Amount, c)
  }

  /** The value of field k of the record of month ym, given that month's transactions. */
  function FieldOf(month: seq<Transaction>, cats: seq<string>, ym: YearMonth, k: string): Field {
    if k == "total" then Num(Sum(month, Amount) + (if "total" in cats then CategorySum(month, "total") else 0))
    else if k in cats then Num(CategorySum(month, k))
    else if k == "month" then Label(ym)
    else Stamp(ym)
  }

  function FieldNames(cats: seq<string>): set<string> {
    {"month", "monthDate", "total"} + set c | c in cats
  }

  function BucketOf(month: seq<Transaction>, cats: seq<string>, ym: YearMonth): Bucket {
    map k | k in FieldNames(cats) :: FieldOf(month, cats, ym, k)
  }

  /** The record of month ym once all of ts has been aggregated. */
  function BucketSpec(ts: seq<Transaction>, cats: seq<string>, ym: YearMonth): Bucket {
    BucketOf(InMonth(ts, ym), cats, ym)
  }

  /** Some transaction reaches the `findIndex` call while every record's
      `monthDate` has been overwritten by a category named "monthDate". */
  predicate Crashes(ts: seq<Transaction>, n: nat) {
    n > 0 && "monthDate" in Categories(ts) && exists i :: 0 <= i < |ts| && Eligible(ts[i])
  }

  /** What `monthlyData` evaluates to, per field of every record. */
  function MonthlyDataSpec(ts: seq<Transaction>, months: int, now: int): Chart {
    var n := WindowLength(months);
    if ts == [] then Buckets([])
    else if Crashes(ts, n) then Crashed
    else
      var w := MonthWindow(n, now);
      Buckets(seq(n, k requires 0 <= k < n => BucketSpec(ts, Categories(ts), w[k])))
  }

  /** `{ month: format(date, 'MMM yyyy'), monthDate: date, total: 0 }`. */
  function BaseBucket(ym: YearMonth): Bucket {
    map["month" := Label(ym), "monthDate" := Stamp(ym), "total" := Num(0)]
  }

  /** b after `b[category] = 0` for each category in turn. */
  function Zeroed(b: Bucket, cats: seq<string>): Bucket {
    if cats == [] then b else Zeroed(b, Init(cats))[Last(cats) := Num(0)]
  }

  /** `(b[field] as number || 0)`. */
  function NumOr0(b: Bucket, field: string): int {
    if field in b && b[field].Num? then b[field].n else 0
  }

  /** `b[field] = (b[field] as number || 0) + amount` (also `b.total += amount`
      while `total` holds a number). */
  function Added(b: Bucket, field: string, amount: int): Bucket {
    b[field := Num(NumOr0(b, field) + amount)]
  }

  /** The month a record's `monthDate` holds, when it holds a Date. */
  function StampOf(b: Bucket): Option<YearMonth> {
    if "monthDate" in b && b["monthDate"].Stamp? then Some(b["monthDate"].at) else None
  }

  /** The zero-initialisation: every category becomes a 0 field, over the base record. */
  lemma {:induction false} ZeroedFields(b: Bucket, cats: seq<string>, k: string)
    ensures k in Zeroed(b, cats) <==> k in b || k in cats
    ensures k in cats ==> Zeroed(b, cats)[k] == Num(0)
    ensures k !in cats && k in b ==> Zeroed(b, cats)[k] == b[k]
  {
    if cats != [] {
      ZeroedFields(b, Init(cats), k);
      assert cats == Init(cats) + [Last(cats)];
    }
  }

  /** Freshly initialised records are the records of empty months. */
  lemma ZeroedIsEmptyMonth(ym: YearMonth, cats: seq<string>)
    ensures Zeroed(BaseBucket(ym), cats) == BucketOf([], cats, ym)
  {
    var z := Zeroed(BaseBucket(ym), cats);
    var e := BucketOf([], cats, ym);
    forall k ensures k in z <==> k in e {
      ZeroedFields(BaseBucket(ym), cats, k);
    }
    assert z.Keys == e.Keys;
    forall k | k in z ensures z[k] == e[k] {
      ZeroedFields(BaseBucket(ym), cats, k);
      assert e[k] == FieldOf([], cats, ym, k);
    }
  }

  /** The loop body's update of the record it found: `total` and then the
      transaction's category field grow by the amount. */
  function WithTransaction(b: Bucket, t: Transaction): Bucket
    requires t.amount.Some?
  {
    var b1 := Added(b, "total", t.amount.value);
    if Truthy(t.category) then Added(b1, t.category.value, t.amount.value) else b1
  }

  /** Adding one eligible transaction of month ym to that month's record, as the
      loop body does, gives the record of the month with it included. */
  lemma BucketStep(month: seq<Transaction>, t: Transaction, cats: seq<string>, ym: YearMonth)
    requires Eligible(t)
    requires Truthy(t.category) ==> t.category.value in cats
    ensures WithTransaction(BucketOf(month, cats, ym), t) == BucketOf(month + [t], cats, ym)
  {
    var b := BucketOf(month, cats, ym);
    var amt := t.amount.value;
    var b1 := Added(b, "total", amt);
    var b2 := if Truthy(t.category) then Added(b1, t.category.value, amt) else b1;
    var m' := month + [t];
    assert Init(m') == month && Last(m') == t;
    var e := BucketOf(m', cats, ym);
    assert b2.Keys == e.Keys;
    forall k | k in e ensures b2[k] == e[k] {
      if k == "total" {
        assert b["total"] == FieldOf(month, cats, ym, "total");
      } else if k in cats {
        assert b[k] == FieldOf(month, cats, ym, k);
      } else {
        assert b[k] == FieldOf(month, cats, ym, k);
      }
    }
  }

  /** `monthlyTotals.findIndex(entry => entry.monthDate has year and month ym)`;
      None when the callback reaches a record whose `monthDate` is not a Date. */
  method FindMonth(a: array<Bucket>, ym: YearMonth) returns (r: Option<int>)
    ensures r.Some? ==> -1 <= r.value < a.Length
    ensures r.Some? && r.value >= 0 ==> StampOf(a[r.value]) == Some(ym)
    ensures r.Some? ==> forall k :: 0 <= k < a.Length && (r.value < 0 || k < r.value) ==>
              StampOf(a[k]).Some? && StampOf(a[k]) != Some(ym)
    ensures r.None? ==>
              exists k :: 0 <= k < a.Length && StampOf(a[k]).None? &&
                forall l :: 0 <= l < k ==> StampOf(a[l]).Some? && StampOf(a[l]) != Some(ym)
  {
    var k := 0;
    while k < a.Length
      invariant 0 <= k <= a.Length
      invariant forall l :: 0 <= l < k ==> StampOf(a[l]).Some? && StampOf(a[l]) != Some(ym)
    {
      var s := StampOf(a[k]);
      if s.None? {
        return None;
      }
      if s == Some(ym) {
        return Some(k);
      }
      k := k + 1;
    }
    return Some(-1);
  }

  /** `monthStarts.map(...)` followed by the nested `forEach` setting every
      category field of every record to 0. */
  method InitBuckets(window: seq<YearMonth>, cats: seq<string>) returns (a: array<Bucket>)
    ensures fresh(a) && a.Length == |window|
    ensures forall k :: 0 <= k < a.Length ==> a[k] == BucketOf([], cats, window[k])
  {
    a := new Bucket[|window|](k requires 0 <= k < |window| => BaseBucket(window[k]));
    var k := 0;
    while k < a.Length
      invariant 0 <= k <= a.Length
      invariant forall l :: 0 <= l < k ==> a[l] == BucketOf([], cats, window[l])
      invariant forall l :: k <= l < a.Length ==> a[l] == BaseBucket(window[l])
    {
      ZeroCategories(a, k, cats);
      ZeroedIsEmptyMonth(window[k], cats);
      k := k + 1;
    }
  }

  /** `categories.forEach(category => { month[category] = 0; })` on the k-th record. */
  method ZeroCategories(a: array<Bucket>, k: int, cats: seq<string>)
    requires 0 <= k < a.Length
    modifies a
    ensures a[k] == Zeroed(old(a[k]), cats)
    ensures forall l :: 0 <= l < a.Length && l != k ==> a[l] == old(a[l])
  {
    ghost var b := a[k];
    var j := 0;
    while j < |cats|
      invariant 0 <= j <= |cats|
      invariant a[k] == Zeroed(b, cats[..j])
      invariant forall l :: 0 <= l < a.Length && l != k ==> a[l] == old(a[l])
    {
      assert Init(cats[..j + 1]) == cats[..j] && Last(cats[..j + 1]) == cats[j];
      a[k] := a[k][cats[j] := Num(0)];
      j := j + 1;
    }
    assert cats[..j] == cats;
  }

  /** `monthlyData`, with the current time passed in. */
  method MonthlyData(ts: seq<Transaction>, months: int, now: int) returns (r: Chart)
    ensures r == MonthlyDataSpec(ts, months, now)
  {
    if |ts| == 0 {
      return Buckets([]);
    }
    var n := WindowLength(months);
    var window := MonthWindow(n, now);
    var cats := Categories(ts);
    var a := InitBuckets(window, cats);
    var crashed := AccumulateAll(a, ts, cats, now);
    if crashed {
      return Crashed;
    }
    assert a[..] == seq(n, k requires 0 <= k < n => BucketSpec(ts, cats, window[k]));
    r := Buckets(a[..]);
  }

  /** `transactions.forEach(...)` over fresh records, stopping at the first throw. */
  method AccumulateAll(a: array<Bucket>, ts: seq<Transaction>, cats: seq<string>, ghost now: int)
    returns (crashed: bool)
    requires cats == Categories(ts)
    requires forall k :: 0 <= k < a.Length ==> a[k] == BucketOf([], cats, MonthWindow(a.Length, now)[k])
    modifies a
    ensures crashed <==> Crashes(ts, a.Length)
    ensures !crashed ==> forall k :: 0 <= k < a.Length ==> a[k] == BucketSpec(ts, cats, MonthWindow(a.Length, now)[k])
  {
    ghost var window := MonthWindow(a.Length, now);
    var i := 0;
    while i < |ts|
      invariant 0 <= i <= |ts|
      invariant forall k :: 0 <= k < a.Length ==> a[k] == BucketSpec(ts[..i], cats, window[k])
      invariant "monthDate" in cats && a.Length > 0 ==> forall l :: 0 <= l < i ==> !Eligible(ts[l])
    {
      CategoryListed(ts, i);
      crashed := Accumulate(a, ts[i], ts[..i], cats, now);
      if crashed {
        assert Eligible(ts[i]);
        return;
      }
      assert ts[..i + 1] == ts[..i] + [ts[i]];
      i := i + 1;
    }
    assert ts[..i] == ts;
    return false;
  }

  /** The `forEach` callback for one transaction: find the record of its month
      and add the amount to its total and to its category's field. True when
      the month lookup throws. */
  method Accumulate(a: array<Bucket>, t: Transaction, ghost prefix: seq<Transaction>, cats: seq<string>, ghost now: int)
    returns (crashed: bool)
    requires forall k :: 0 <= k < a.Length ==> a[k] == BucketSpec(prefix, cats, MonthWindow(a.Length, now)[k])
    requires Truthy(t.category) ==> t.category.value in cats
    modifies a
    ensures crashed <==> Eligible(t) && "monthDate" in cats && a.Length > 0
    ensures !crashed ==> forall k :: 0 <= k < a.Length ==> a[k] == BucketSpec(prefix + [t], cats, MonthWindow(a.Length, now)[k])
  {
    ghost var window := MonthWindow(a.Length, now);
    if !Eligible(t) {
      OthersUnchanged(prefix, t, cats, window, -1);
      return false;
    }
    var ym := MonthOf(t.date.value);
    var found := FindMonth(a, ym);
    if found.None? {
      var k :| 0 <= k < a.Length && StampOf(a[k]).None?;
      StampOfSpec(prefix, cats, window[k]);
      return true;
    }
    var j := found.value;
    if "monthDate" in cats && a.Length > 0 {
      StampOfSpec(prefix, cats, window[0]);
      assert false;
    }
    if j >= 0 {
      StampOfSpec(prefix, cats, window[j]);
      RecordStep(prefix, t, cats, a.Length, now, j);
      a[j] := WithTransaction(a[j], t);
    } else {
      forall k | 0 <= k < a.Length ensures window[k] != ym {
        StampOfSpec(prefix, cats, window[k]);
      }
      OthersUnchanged(prefix, t, cats, window, -1);
    }
    return false;
  }

  /** An eligible transaction of the j-th window month updates that month's
      record as the loop body does and leaves the other records as they were. */
  lemma RecordStep(prefix: seq<Transaction>, t: Transaction, cats: seq<string>, n: nat, now: int, j: int)
    requires 0 <= j < n && Eligible(t) && MonthOf(t.date.value) == MonthWindow(n, now)[j]
    requires Truthy(t.category) ==> t.category.value in cats
    ensures WithTransaction(BucketSpec(prefix, cats, MonthWindow(n, now)[j]), t)
         == BucketSpec(prefix + [t], cats, MonthWindow(n, now)[j])
    ensures forall k :: 0 <= k < n && k != j ==>
              BucketSpec(prefix + [t], cats, MonthWindow(n, now)[k]) == BucketSpec(prefix, cats, MonthWindow(n, now)[k])
  {
    var w := MonthWindow(n, now);
    var ym := w[j];
    BucketStep(InMonth(prefix, ym), t, cats, ym);
    InMonthStep(prefix, t, ym);
    forall k | 0 <= k < n && k != j ensures w[k] != ym {
      WindowDistinct(n, now, if k < j then k else j, if k < j then j else k);
    }
    OthersUnchanged(prefix, t, cats, w, j);
  }

  /** A record's `monthDate` holds its month's Date unless a category took that name. */
  lemma StampOfSpec(ts: seq<Transaction>, cats: seq<string>, ym: YearMonth)
    ensures "monthDate" !in cats <==> StampOf(BucketSpec(ts, cats, ym)) == Some(ym)
    ensures "monthDate" in cats <==> StampOf(BucketSpec(ts, cats, ym)).None?
  {
    assert "monthDate" in FieldNames(cats);
  }

  /** The category of every transaction is among the record fields. */
  lemma CategoryListed(ts: seq<Transaction>, i: int)
    requires 0 <= i < |ts|
    ensures Truthy(ts[i].category) ==> ts[i].category.value in Categories(ts)
  {
    if Truthy(ts[i].category) {
      assert CategoryKey(ts[i]) == Some(ts[i].category.value);
      KeysMembership(ts, CategoryKey, ts[i].category.value);
    }
  }

  lemma {:induction false} InMonthStep(ts: seq<Transaction>, t: Transaction, ym: YearMonth)
    ensures InMonth(ts + [t], ym)
         == InMonth(ts, ym) + (if Eligible(t) && MonthOf(t.date.value) == ym then [t] else [])
  {
    assert Init(ts + [t]) == ts && Last(ts + [t]) == t;
  }

  /** The records of the months other than the j-th are not touched by t. */
  lemma OthersUnchanged(prefix: seq<Transaction>, t: Transaction, cats: seq<string>, w: seq<YearMonth>, j: int)
    requires forall k :: 0 <= k < |w| && k != j ==> !(Eligible(t) && MonthOf(t.date.value) == w[k])
    ensures forall k :: 0 <= k < |w| && k != j ==> BucketSpec(prefix + [t], cats, w[k]) == BucketSpec(prefix, cats, w[k])
  {
    forall k | 0 <= k < |w| && k != j ensures InMonth(prefix + [t], w[k]) == InMonth(prefix, w[k]) {
      InMonthStep(prefix, t, w[k]);
    }
  }

  // ---- What the source promises about the records ----

  /** No transactions give no records at all; otherwise (short of the crash)
      there are exactly `months` records in window order, whose `monthDate`
      fields hold the window's months, the last being the month of now. */
  lemma ChartShape(ts: seq<Transaction>, months: int, now: int)
    ensures ts == [] ==> MonthlyDataSpec(ts, months, now) == Buckets([])
    ensures ts != [] && !Crashes(ts, WindowLength(months)) ==>
              MonthlyDataSpec(ts, months, now).Buckets?
              && |MonthlyDataSpec(ts, months, now).buckets| == WindowLength(months)
    ensures ts != [] && "monthDate" !in Categories(ts) ==>
              forall k :: 0 <= k < WindowLength(months) ==>
                StampOf(MonthlyDataSpec(ts, months, now).buckets[k]) == Some(MonthWindow(WindowLength(months), now)[k])
  {
    var n := WindowLength(months);
    if ts != [] && "monthDate" !in Categories(ts) {
      var w := MonthWindow(n, now);
      var r := MonthlyDataSpec(ts, months, now);
      forall k | 0 <= k < n ensures StampOf(r.buckets[k]) == Some(w[k]) {
        assert r.buckets[k] == BucketSpec(ts, Categories(ts), w[k]);
        StampOfSpec(ts, Categories(ts), w[k]);
      }
    }
  }

  /** With the default window, a non-empty input gives six records, short of
      the crash; without a "monthDate" category the last is the month of now. */
  lemma DefaultWindowShape(ts: seq<Transaction>, now: int)
    requires ts != [] && !Crashes(ts, WindowLength(DefaultMonths))
    ensures MonthlyDataSpec(ts, DefaultMonths, now).Buckets?
    ensures |MonthlyDataSpec(ts, DefaultMonths, now).buckets| == 6
    ensures "monthDate" !in Categories(ts) ==> StampOf(MonthlyDataSpec(ts, DefaultMonths, now).buckets[5]) == Some(MonthOf(now))
  {
    ChartShape(ts, DefaultMonths, now);
  }

  /** Every record carries a field for every category of the whole input; in a
      month with no eligible transaction that field is 0. */
  lemma CategoryFieldsPresent(ts: seq<Transaction>, cats: seq<string>, ym: YearMonth, c: string)
    requires c in cats && c != "total"
    ensures c in BucketSpec(ts, cats, ym)
    ensures BucketSpec(ts, cats, ym)[c] == Num(CategorySum(InMonth(ts, ym), c))
    ensures InMonth(ts, ym) == [] ==> BucketSpec(ts, cats, ym)[c] == Num(0)
  {
  }

  /** A transaction without a date or with a zero amount, or dated outside the
      window, changes no record. */
  lemma {:induction false} SkippedTransaction(ts: seq<Transaction>, t: Transaction, cats: seq<string>, n: nat, now: int)
    requires !Eligible(t) || MonthOf(t.date.value) !in MonthWindow(n, now)
    ensures forall k :: 0 <= k < n ==>
              BucketSpec(ts + [t], cats, MonthWindow(n, now)[k]) == BucketSpec(ts, cats, MonthWindow(n, now)[k])
  {
    var ts' := ts + [t];
    assert Init(ts') == ts && Last(ts') == t;
    forall k | 0 <= k < n ensures InMonth(ts', MonthWindow(n, now)[k]) == InMonth(ts, MonthWindow(n, now)[k]) {
    }
  }

  /** An eligible transaction is added to the record of its calendar month and
      to no other record. */
  lemma {:induction false} AssignedByMonth(ts: seq<Transaction>, t: Transaction, cats: seq<string>, ym: YearMonth, other: YearMonth)
    requires Eligible(t) && MonthOf(t.date.value) == ym && other != ym
    ensures InMonth(ts + [t], ym) == InMonth(ts, ym) + [t]
    ensures BucketSpec(ts + [t], cats, other) == BucketSpec(ts, cats, other)
  {
    InMonthStep(ts, t, ym);
    InMonthStep(ts, t, other);
    assert InMonth(ts + [t], other) == InMonth(ts, other);
  }

  /** The sum of the record's category fields. */
  function CategoryFieldSum(b: Bucket, cats: seq<string>): int {
    if cats == [] then 0 else CategoryFieldSum(b, Init(cats)) + NumOr0(b, Last(cats))
  }

  /** With no category named "total", the total is the signed sum of the month's
      eligible amounts. */
  lemma TotalIsMonthSum(ts: seq<Transaction>, cats: seq<string>, ym: YearMonth)
    requires "total" !in cats
    ensures BucketSpec(ts, cats, ym)["total"] == Num(Sum(InMonth(ts, ym), Amount))
  {
  }

  /** With no category named "total", and every eligible transaction carrying a
      category of the input, the total equals the sum of the category fields. */
  lemma TotalMatchesCategories(ts: seq<Transaction>, ym: YearMonth)
    requires "total" !in Categories(ts)
    requires forall t :: t in ts && Eligible(t) ==> Truthy(t.category)
    ensures Num(CategoryFieldSum(BucketSpec(ts, Categories(ts), ym), Categories(ts))) == BucketSpec(ts, Categories(ts), ym)["total"]
  {
    var cats := Categories(ts);
    var month := InMonth(ts, ym);
    InMonthSubset(ts, ym);
    KeysDistinct(ts, CategoryKey);
    forall x | x in month && CategoryKey(x).Some? ensures CategoryKey(x).value in cats {
      KeysMembership(ts, CategoryKey, CategoryKey(x).value);
    }
    SumOverCover(cats, month, CategoryKey, Amount);
    SumKeyedAll(month, CategoryKey, Amount);
    FieldSumIsEntrySum(month, cats, cats, ym);
  }

  lemma {:induction false} InMonthSubset(ts: seq<Transaction>, ym: YearMonth)
    ensures forall x :: x in InMonth(ts, ym) ==> x in ts && Eligible(x) && MonthOf(x.date.value) == ym
  {
    if ts != [] {
      InMonthSubset(Init(ts), ym);
      assert forall x :: x in Init(ts) ==> x in ts;
    }
  }

  lemma {:induction false} FieldSumIsEntrySum(month: seq<Transaction>, cats: seq<string>, part: seq<string>, ym: YearMonth)
    requires "total" !in cats
    requires forall c :: c in part ==> c in cats
    ensures CategoryFieldSum(BucketOf(month, cats, ym), part) == Sum(EntriesFor(part, month, CategoryKey, Amount), Value)
  {
    if part != [] {
      FieldSumIsEntrySum(month, cats, Init(part), ym);
      assert Init(EntriesFor(part, month, CategoryKey, Amount)) == EntriesFor(Init(part), month, CategoryKey, Amount);
      assert Last(part) in part;
    }
  }

  // ---- The field-name collisions ----

  /** A transaction of 100 in the given category, dated now. */
  function Probe(category: string, now: int): Transaction {
    Transaction(None, None, None, Some(100), Some(category), Some(now), None, None)
  }

  /** As written, a category named "total" is added to the total twice: one
      transaction of 100 in that category gives the month a total of 200. */
  lemma TotalCategoryCountedTwice(now: int)
    ensures MonthlyDataSpec([Probe("total", now)], 1, now).Buckets?
    ensures MonthlyDataSpec([Probe("total", now)], 1, now).buckets[0]["total"] == Num(200)
    ensures Sum(InMonth([Probe("total", now)], MonthOf(now)), Amount) == 100
  {
    var p := Probe("total", now);
    var ts := [p];
    SingleProbe(p, now);
    assert !Crashes(ts, 1);
    var ym := MonthWindow(1, now)[0];
    assert ym == MonthOf(now);
    assert MonthlyDataSpec(ts, 1, now).buckets[0] == BucketSpec(ts, ["total"], ym);
    assert "total" in FieldNames(["total"]);
    assert BucketSpec(ts, ["total"], ym)["total"] == FieldOf(ts, ["total"], ym, "total");
  }

  /** The categories and the month of a one-transaction input. */
  lemma SingleProbe(p: Transaction, now: int)
    requires p.date == Some(now) && p.amount == Some(100) && Truthy(p.category)
    ensures Categories([p]) == [p.category.value]
    ensures InMonth([p], MonthOf(now)) == [p]
    ensures Sum([p], Amount) == 100
    ensures SumWhere([p], CategoryKey, Amount, p.category.value) == 100
  {
    var ts := [p];
    assert Init(ts) == [] && Last(ts) == p;
    assert CategoryKey(p) == p.category;
    assert Keys(Init(ts), CategoryKey) == [];
  }

  /** As written, a category named "monthDate" replaces every record's Date by
      0, and the first dated transaction with an amount makes the month lookup throw. */
  lemma MonthDateCategoryCrashes(now: int, months: int)
    requires months > 0
    ensures MonthlyDataSpec([Probe("monthDate", now)], months, now) == Crashed
  {
    var ts := [Probe("monthDate", now)];
    SingleProbe(ts[0], now);
    assert Eligible(ts[0]);
  }

  /** The month record as intended: the fixed fields apart from the per-category sums. */
  datatype MonthSummary = MonthSummary(month: YearMonth, total: int, byCategory: map<string, int>)

  function SummaryOf(ts: seq<Transaction>, cats: seq<string>, ym: YearMonth): MonthSummary {
    var month := InMonth(ts, ym);
    MonthSummary(ym, Sum(month, Amount), map c | c in cats :: CategorySum(month, c))
  }

  /** The intended `monthlyData`: no collision and no crash, for any category names. */
  function IntendedMonthlyData(ts: seq<Transaction>, months: int, now: int): (r: seq<MonthSummary>)
    ensures ts == [] ==> r == []
    ensures ts != [] ==> |r| == WindowLength(months)
  {
    if ts == [] then []
    else
      var n := WindowLength(months);
      var w := MonthWindow(n, now);
      seq(n, k requires 0 <= k < n => SummaryOf(ts, Categories(ts), w[k]))
  }

  /** The sum of the category sums of a summary, over the given categories. */
  function SummaryCategorySum(s: MonthSummary, cats: seq<string>): int
    requires forall c :: c in cats ==> c in s.byCategory
  {
    if cats == [] then 0 else SummaryCategorySum(s, Init(cats)) + s.byCategory[Last(cats)]
  }

  /** In the intended records the total is the month's signed sum, and when every
      eligible transaction has a category it equals the sum of the category
      sums, whatever the categories are called. */
  lemma IntendedTotals(ts: seq<Transaction>, months: int, now: int, k: int)
    requires ts != [] && 0 <= k < WindowLength(months)
    ensures IntendedMonthlyData(ts, months, now)[k].total
            == Sum(InMonth(ts, MonthWindow(WindowLength(months), now)[k]), Amount)
    ensures (forall t :: t in ts && Eligible(t) ==> Truthy(t.category)) ==>
              SummaryCategorySum(IntendedMonthlyData(ts, months, now)[k], Categories(ts))
              == IntendedMonthlyData(ts, months, now)[k].total
  {
    var cats := Categories(ts);
    var ym := MonthWindow(WindowLength(months), now)[k];
    var month := InMonth(ts, ym);
    var s := SummaryOf(ts, cats, ym);
    assert IntendedMonthlyData(ts, months, now)[k] == s;
    if forall t :: t in ts && Eligible(t) ==> Truthy(t.category) {
      InMonthSubset(ts, ym);
      KeysDistinct(ts, CategoryKey);
      forall x | x in month && CategoryKey(x).Some? ensures CategoryKey(x).value in cats {
        KeysMembership(ts, CategoryKey, CategoryKey(x).value);
      }
      SumOverCover(cats, month, CategoryKey, Amount);
      SumKeyedAll(month, CategoryKey, Amount);
      SummarySumIsEntrySum(s, month, cats, cats);
    }
  }

  lemma {:induction false} SummarySumIsEntrySum(s: MonthSummary, month: seq<Transaction>, cats: seq<string>, part: seq<string>)
    requires s.byCategory == map c | c in cats :: CategorySum(month, c)
    requires forall c :: c in part ==> c in cats
    ensures SummaryCategorySum(s, part) == Sum(EntriesFor(part, month, CategoryKey, Amount), Value)
  {
    if part != [] {
      SummarySumIsEntrySum(s, month, cats, Init(part));
      assert Init(EntriesFor(part, month, CategoryKey, Amount)) == EntriesFor(Init(part), month, CategoryKey, Amount);
      assert Last(part) in part;
    }
  }

  /** Where no category is called "month", "monthDate" or "total", the records as
      written and the intended summaries agree field by field. */
  lemma WrittenMatchesIntended(ts: seq<Transaction>, months: int, now: int, k: int, c: string)
    requires ts != [] && 0 <= k < WindowLength(months)
    requires "month" !in Categories(ts) && "monthDate" !in Categories(ts) && "total" !in Categories(ts)
    ensures MonthlyDataSpec(ts, months, now).Buckets?
    ensures MonthlyDataSpec(ts, months, now).buckets[k]["total"] == Num(IntendedMonthlyData(ts, months, now)[k].total)
    ensures MonthlyDataSpec(ts, months, now).buckets[k]["month"] == Label(IntendedMonthlyData(ts, months, now)[k].month)
    ensures c in Categories(ts) ==>
              MonthlyDataSpec(ts, months, now).buckets[k][c] == Num(IntendedMonthlyData(ts, months, now)[k].byCategory[c])
  {
    var cats := Categories(ts);
    var ym := MonthWindow(WindowLength(months), now)[k];
    var b := BucketSpec(ts, cats, ym);
    var s := SummaryOf(ts, cats, ym);
    assert MonthlyDataSpec(ts, months, now).buckets[k] == b;
    assert IntendedMonthlyData(ts, months, now)[k] == s;
    assert "total" in FieldNames(cats) && "month" in FieldNames(cats);
    assert b["total"] == Num(s.total);
    if c in cats {
      assert c in FieldNames(cats);
      assert b[c] == Num(s.byCategory[c]);
    }
  }

  // ---- topCategories ----

  /** A transaction counted by `topCategories`: truthy category and truthy amount. */
  function RankedKey(t: Transaction): (k: Option<string>)
    ensures k.Some? <==> Truthy(t.category) && t.amount.Some? && t.amount.value != 0
    ensures k.Some? ==> k == t.category
  {
    if Truthy(t.category) && t.amount.Some? && t.amount.value != 0 then t.category else None
  }

  predicate IsDigit(c: char) {
    '0' <= c <= '9'
  }

  function DigitsValue(s: string): nat {
    if s == [] then 0
    else DigitsValue(Init(s)) * 10 + (if IsDigit(Last(s)) then (Last(s) as int - '0' as int) else 0)
  }

  /** A canonical array-index property name: digits without a leading zero, below 2^32 - 1. */
  predicate IsArrayIndex(s: string) {
    |s| > 0 && (forall i :: 0 <= i < |s| ==> IsDigit(s[i])) && (s[0] != '0' || |s| == 1)
    && DigitsValue(s) < 0xFFFF_FFFF
  }

  predicate IndexEntry(e: Entry<string>) {
    IsArrayIndex(e.name)
  }

  predicate NamedEntry(e: Entry<string>) {
    !IsArrayIndex(e.name)
  }

  function IndexValue(e: Entry<string>): int {
    DigitsValue(e.name)
  }

  /** `Object.entries` of a plain object built by inserting these entries in
      order: array-index names first in ascending numeric order, then the other
      names in insertion order. */
  function ObjectEntries(e: seq<Entry<string>>): seq<Entry<string>> {
    Sorting.SortBy(Filter(e, IndexEntry), IndexValue, false) + Filter(e, NamedEntry)
  }

  function Names(s: seq<Entry<string>>): (r: seq<string>)
    ensures |r| == |s|
    ensures forall i :: 0 <= i < |s| ==> r[i] == s[i].name
  {
    seq(|s|, i requires 0 <= i < |s| => s[i].name)
  }

  function Take<T>(s: seq<T>, m: nat): (r: seq<T>)
    ensures |r| <= m && |r| <= |s|
    ensures |s| <= m ==> r == s
    ensures |s| > m ==> |r| == m
  {
    if |s| <= m then s else s[..m]
  }

  /** `.sort((a, b) => b[1] - a[1]).slice(0, 5).map(([category]) => category)`. */
  function Ranked(totals: seq<Entry<string>>): seq<string> {
    Names(Take(Sorting.SortBy(ObjectEntries(totals), Value, true), 5))
  }

  /** The category's sum as `topCategories` accumulates it. */
  function RankedTotal(ts: seq<Transaction>, c: string): int {
    SumWhere(ts, RankedKey, Amount, c)
  }

  /** The category totals in ranking order. */
  function RankedEntries(ts: seq<Transaction>): seq<Entry<string>> {
    Sorting.SortBy(ObjectEntries(Grouped(ts, RankedKey, Amount)), Value, true)
  }

  /** `topCategories`: the loop fills `categoryTotals`, then the entries are
      ranked. At most five distinct names, each a category with a truthy
      amount, in descending order of their sums; a category left out sums to
      no more than any chosen one; and with at most five categories they are
      all chosen. */
  method TopCategories(ts: seq<Transaction>) returns (r: seq<string>)
    ensures r == if ts == [] then [] else Ranked(Grouped(ts, RankedKey, Amount))
    ensures |r| <= 5 && Distinct(r)
    ensures forall i :: 0 <= i < |r| ==> r[i] in Keys(ts, RankedKey)
    ensures forall i, j :: 0 <= i < j < |r| ==> RankedTotal(ts, r[i]) >= RankedTotal(ts, r[j])
    ensures forall c, i :: c in Keys(ts, RankedKey) && c !in r && 0 <= i < |r| ==> RankedTotal(ts, c) <= RankedTotal(ts, r[i])
    ensures |Keys(ts, RankedKey)| <= 5 ==> |r| == |Keys(ts, RankedKey)| && forall c :: c in Keys(ts, RankedKey) ==> c in r
  {
    if |ts| == 0 {
      return [];
    }
    var totals := SumByKey(ts, RankedKey, Amount);
    r := Ranked(totals);
    RankedEntriesFacts(ts);
    TopAreCategories(ts);
    TopDescending(ts);
    TopExcludedSmaller(ts);
    TopAllWhenFew(ts);
  }

  /** The ranked entries are the category totals, reordered, with distinct
      names, sorted by descending sum. */
  lemma RankedEntriesFacts(ts: seq<Transaction>)
    ensures var s := RankedEntries(ts);
      && multiset(s) == multiset(Grouped(ts, RankedKey, Amount))
      && |s| == |Keys(ts, RankedKey)|
      && Sorting.Sorted(s, Value, true)
      && Distinct(Names(s))
      && Ranked(Grouped(ts, RankedKey, Amount)) == Names(Take(s, 5))
      && forall i :: 0 <= i < |s| ==> s[i].name in Keys(ts, RankedKey) && s[i].value == RankedTotal(ts, s[i].name)
  {
    var g := Grouped(ts, RankedKey, Amount);
    KeysDistinct(ts, RankedKey);
    assert Names(g) == Keys(ts, RankedKey);
    var o := ObjectEntries(g);
    ObjectEntriesPermutation(g);
    var s := Sorting.SortBy(o, Value, true);
    Sorting.SortByCorrect(o, Value, true);
    PermutationDistinctNames(g, s);
    assert |o| == |multiset(o)| == |multiset(g)| == |g|;
    forall i | 0 <= i < |s| ensures s[i].name in Keys(ts, RankedKey) && s[i].value == RankedTotal(ts, s[i].name) {
      assert s[i] in multiset(g);
      var p :| 0 <= p < |g| && g[p] == s[i];
    }
  }

  /** At most five distinct names, each a category counted by the ranking. */
  lemma TopAreCategories(ts: seq<Transaction>)
    ensures var r := Ranked(Grouped(ts, RankedKey, Amount));
      |r| <= 5 && Distinct(r) && forall i :: 0 <= i < |r| ==> r[i] in Keys(ts, RankedKey)
  {
    RankedEntriesFacts(ts);
  }

  /** The names come in descending order of their sums. */
  lemma TopDescending(ts: seq<Transaction>)
    ensures var r := Ranked(Grouped(ts, RankedKey, Amount));
      forall i, j :: 0 <= i < j < |r| ==> RankedTotal(ts, r[i]) >= RankedTotal(ts, r[j])
  {
    RankedEntriesFacts(ts);
    var s := RankedEntries(ts);
    var r := Ranked(Grouped(ts, RankedKey, Amount));
    forall i, j | 0 <= i < j < |r| ensures RankedTotal(ts, r[i]) >= RankedTotal(ts, r[j]) {
      assert Sorting.InOrder(s[i], s[j], Value, true);
    }
  }

  /** A category that is not chosen sums to no more than any chosen one. */
  lemma TopExcludedSmaller(ts: seq<Transaction>)
    ensures var r := Ranked(Grouped(ts, RankedKey, Amount));
      forall c, i :: c in Keys(ts, RankedKey) && c !in r && 0 <= i < |r| ==> RankedTotal(ts, c) <= RankedTotal(ts, r[i])
  {
    RankedEntriesFacts(ts);
    var g := Grouped(ts, RankedKey, Amount);
    var ks := Keys(ts, RankedKey);
    var s := RankedEntries(ts);
    var r := Ranked(g);
    forall c, i | c in ks && c !in r && 0 <= i < |r| ensures RankedTotal(ts, c) <= RankedTotal(ts, r[i]) {
      var p :| 0 <= p < |ks| && ks[p] == c;
      assert g[p] in multiset(s);
      var q :| 0 <= q < |s| && s[q] == g[p];
      assert forall m :: 0 <= m < |r| ==> r[m] == s[m].name;
      assert q >= |r|;
      assert Sorting.InOrder(s[i], s[q], Value, true);
    }
  }

  /** With at most five categories, all of them are chosen. */
  lemma TopAllWhenFew(ts: seq<Transaction>)
    ensures var r := Ranked(Grouped(ts, RankedKey, Amount));
      |Keys(ts, RankedKey)| <= 5 ==> |r| == |Keys(ts, RankedKey)| && forall c :: c in Keys(ts, RankedKey) ==> c in r
  {
    RankedEntriesFacts(ts);
    var g := Grouped(ts, RankedKey, Amount);
    var ks := Keys(ts, RankedKey);
    var s := RankedEntries(ts);
    var r := Ranked(g);
    if |ks| <= 5 {
      forall c | c in ks ensures c in r {
        var p :| 0 <= p < |ks| && ks[p] == c;
        assert g[p] in multiset(s);
        var q :| 0 <= q < |s| && s[q] == g[p];
        assert r[q] == c;
      }
    }
  }

  /** `Object.entries` returns the same entries, reordered. */
  lemma ObjectEntriesPermutation(e: seq<Entry<string>>)
    ensures multiset(ObjectEntries(e)) == multiset(e)
  {
    Sorting.SortByCorrect(Filter(e, IndexEntry), IndexValue, false);
    FilterPartition(e);
  }

  lemma {:induction false} FilterPartition(e: seq<Entry<string>>)
    ensures multiset(Filter(e, IndexEntry)) + multiset(Filter(e, NamedEntry)) == multiset(e)
  {
    if e != [] {
      FilterPartition(Init(e));
      assert e == Init(e) + [Last(e)];
    }
  }

  /** A reordering of entries with distinct names has distinct names. */
  lemma PermutationDistinctNames(e: seq<Entry<string>>, s: seq<Entry<string>>)
    requires multiset(s) == multiset(e)
    requires Distinct(Names(e))
    ensures Distinct(Names(s))
  {
    forall i, j | 0 <= i < j < |s| ensures s[i].name != s[j].name {
      if s[i].name == s[j].name {
        assert s[i] in multiset(e) && s[j] in multiset(e);
        var p :| 0 <= p < |e| && e[p] == s[i];
        var q :| 0 <= q < |e| && e[q] == s[j];
        assert p == q;
        TwoPositions(s, i, j);
        DistinctCount(e, s[i]);
        assert false;
      }
    }
  }

  lemma TwoPositions<T>(s: seq<T>, i: int, j: int)
    requires 0 <= i < j < |s| && s[i] == s[j]
    ensures multiset(s)[s[i]] >= 2
  {
    assert s == s[..j] + s[j..];
    assert s[i] in s[..j];
    assert s[j] in s[j..];
  }

  lemma {:induction false} DistinctCount(e: seq<Entry<string>>, x: Entry<string>)
    requires Distinct(Names(e))
    ensures multiset(e)[x] <= 1
  {
    if e != [] {
      assert Names(Init(e)) == Names(e)[..|e| - 1];
      DistinctCount(Init(e), x);
      assert e == Init(e) + [Last(e)];
      if x == Last(e) {
        assert x !in Init(e);
      }
    }
  }

  /** A one-digit name is an array index, so it is listed ahead of earlier-inserted names. */
  lemma ObjectEntriesExample()
    ensures ObjectEntries([Entry("Food", 5), Entry("7", 3)]) == [Entry("7", 3), Entry("Food", 5)]
  {
    var e := [Entry("Food", 5), Entry("7", 3)];
    assert Init(e) == [Entry("Food", 5)] && Last(e) == Entry("7", 3);
    assert Init(Init(e)) == [];
    assert DigitsValue("7") == 7 by {
      assert Init("7") == [] && Last("7") == '7';
    }
    assert IsArrayIndex("7");
    assert !IsArrayIndex("Food") by {
      assert !IsDigit("Food"[0]);
    }
    assert Filter(e, IndexEntry) == [Entry("7", 3)];
    assert Filter(e, NamedEntry) == [Entry("Food", 5)];
    var x := [Entry("7", 3)];
    assert x[1..] == [];
    assert Sorting.SortBy(x, IndexValue, false) == x;
  }
}
