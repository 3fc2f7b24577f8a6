/** Calendar arithmetic that the trend chart gets from the Date object and
    date-fns: the calendar month of a timestamp, and stepping back by months.
    Months are numbered 0..11 as `Date.getMonth()` numbers them. */
module Calendar {

  const MsPerDay: int := 86400000

  datatype YearMonth = YearMonth(year: int, month: int)

  predicate ValidMonth(ym: YearMonth) {
    0 <= ym.month < 12
  }

  /** Months counted from January of year 0. */
  function Index(ym: YearMonth): int {
    ym.year * 12 + ym.month
  }

  function FromIndex(i: int): (ym: YearMonth)
    ensures ValidMonth(ym) && Index(ym) == i
  {
    YearMonth(i / 12, i % 12)
  }

  lemma IndexInjective(a: YearMonth, b: YearMonth)
    requires ValidMonth(a) && ValidMonth(b) && Index(a) == Index(b)
    ensures a == b
  {
  }

  /** `subMonths(monthStart, k)` on the first day of a month. */
  function SubMonths(ym: YearMonth, k: int): (r: YearMonth)
    ensures ValidMonth(r) && Index(r) == Index(ym) - k
  {
    FromIndex(Index(ym) - k)
  }

  /** The UTC calendar month of a millisecond timestamp
      (days-to-civil conversion of the proleptic Gregorian calendar). */
  function MonthOf(ms: int): (ym: YearMonth)
    ensures ValidMonth(ym)
  {
    var days := ms / MsPerDay;
    var z := days + 719468;
    var era := z / 146097;
    var doe := z - era * 146097;
    var yoe := (doe - doe / 1460 + doe / 36524 - doe / 146096) / 365;
    var y := yoe + era * 400;
    var doy := doe - (365 * yoe + yoe / 4 - yoe / 100);
    var mp := (5 * doy + 2) / 153;
    var m := (mp + 2) % 12;
    YearMonth(if m <= 1 then y + 1 else y, m)
  }

  function Reverse<T>(s: seq<T>): (r: seq<T>)
    ensures |r| == |s|
    ensures forall i :: 0 <= i < |s| ==> r[i] == s[|s| - 1 - i]
  {
    if s == [] then [] else Reverse(s[1..]) + [s[0]]
  }

  /** `Array.from({ length: n }, (_, i) => subMonths(current, i)).reverse()`:
      n consecutive months, oldest first, ending with the month of now. */
  function MonthWindow(n: nat, now: int): (w: seq<YearMonth>)
    ensures |w| == n
    ensures n > 0 ==> w[n - 1] == MonthOf(now)
    ensures forall i :: 0 <= i < n ==> ValidMonth(w[i]) && Index(w[i]) == Index(MonthOf(now)) - (n - 1 - i)
    ensures forall i :: 0 <= i < n - 1 ==> Index(w[i + 1]) == Index(w[i]) + 1
  {
    var current := MonthOf(now);
    var w := Reverse(seq(n, i requires 0 <= i < n => SubMonths(current, i)));
    assert n > 0 ==> w[n - 1] == current by {
      if n > 0 { IndexInjective(w[n - 1], current); }
    }
    w
  }

  /** The months of a window are pairwise different, so a month matches at most one bucket. */
  lemma WindowDistinct(n: nat, now: int, i: int, j: int)
    requires 0 <= i < j < n
    ensures MonthWindow(n, now)[i] != MonthWindow(n, now)[j]
  {
  }

  /** Bucket membership is by calendar month only: a month is in the window iff
      its distance back from the month of now is less than n. */
  lemma {:induction false} InWindow(n: nat, now: int, ym: YearMonth)
    requires ValidMonth(ym)
    ensures ym in MonthWindow(n, now) <==> 0 <= Index(MonthOf(now)) - Index(ym) < n
  {
    var w := MonthWindow(n, now);
    var d := Index(MonthOf(now)) - Index(ym);
    if 0 <= d < n {
      IndexInjective(w[n - 1 - d], ym);
    }
  }

  /** 2024-03-15T00:00Z falls in March 2024 (month 2). */
  lemma MonthOfExample()
    ensures MonthOf(1710460800000) == YearMonth(2024, 2)
  {
    var days := 1710460800000 / MsPerDay;
    assert days == 19797;
    var z := days + 719468;
    assert z / 146097 == 5;
    var doe := z - 5 * 146097;
    assert doe == 8780;
    assert doe / 1460 == 6 && doe / 36524 == 0 && doe / 146096 == 0;
    var yoe := (doe - 6) / 365;
    assert yoe == 24;
    var doy := doe - (365 * 24 + 24 / 4 - 24 / 100);
    assert doy == 14;
    assert (5 * doy + 2) / 153 == 0;
  }
}
