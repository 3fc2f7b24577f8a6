/** The shared helpers of the client: name formatting, safe number parsing,
    the percentage guard, grouping by a field, the "n days ago" cut-off and the
    required-field check. */
module Utils {
  import opened Types
  import Grouping
  import Calendar

  // ---------------------------------------------------------------- names

  /** The parts of a signed-in user that name formatting reads. */
  datatype User = User(fullName: Option<string>, firstName: Option<string>, lastName: Option<string>)

  /** The characters `String.prototype.trim` removes: WhiteSpace and LineTerminator. */
  predicate IsSpace(c: char) {
    c == '\t' || c == '\n' || c == '\U{000B}' || c == '\U{000C}' || c == '\r' || c == ' '
    || c == '\U{00A0}' || c == '\U{1680}' || ('\U{2000}' <= c <= '\U{200A}')
    || c == '\U{2028}' || c == '\U{2029}' || c == '\U{202F}' || c == '\U{205F}'
    || c == '\U{3000}' || c == '\U{FEFF}'
  }

  predicate AllSpace(s: string) {
    forall i :: 0 <= i < |s| ==> IsSpace(s[i])
  }

  function TrimStart(s: string): (r: string)
    ensures |r| <= |s| && r == s[|s| - |r|..]
    ensures AllSpace(s[..|s| - |r|])
    ensures r == [] || !IsSpace(r[0])
  {
    if s != [] && IsSpace(s[0]) then
      var r := TrimStart(s[1..]);
      assert s[..|s| - |r|] == [s[0]] + s[1..][..|s[1..]| - |r|];
      r
    else s
  }

  function TrimEnd(s: string): (r: string)
    ensures |r| <= |s| && r == s[..|r|]
    ensures AllSpace(s[|r|..])
    ensures r == [] || !IsSpace(r[|r| - 1])
  {
    if s != [] && IsSpace(s[|s| - 1]) then
      var r := TrimEnd(s[..|s| - 1]);
      assert s[|r|..] == s[..|s| - 1][|r|..] + [s[|s| - 1]];
      r
    else s
  }

  /** r is s with the white space s[..i] and s[i + |r|..] cut off. */
  predicate Padded(s: string, i: int, r: string) {
    0 <= i <= |s| - |r| && s[i..i + |r|] == r && AllSpace(s[..i]) && AllSpace(s[i + |r|..])
  }

  /** `s.trim()`: s with its leading and trailing white space removed. */
  function Trim(s: string): (r: string)
    ensures exists i :: Padded(s, i, r)
    ensures r == [] || (!IsSpace(r[0]) && !IsSpace(r[|r| - 1]))
  {
    var a := TrimStart(s);
    var r := TrimEnd(a);
    PaddedByParts(s, a, r);
    assert r != [] ==> r[0] == a[0];
    r
  }

  /** Cutting white space off the front and then off the back pads r in s. */
  lemma PaddedByParts(s: string, a: string, r: string)
    requires |a| <= |s| && a == s[|s| - |a|..] && AllSpace(s[..|s| - |a|])
    requires |r| <= |a| && r == a[..|r|] && AllSpace(a[|r|..])
    ensures Padded(s, |s| - |a|, r)
  {
    var i := |s| - |a|;
    assert s[i..i + |r|] == a[..|r|];
    assert s[i + |r|..] == a[|r|..];
  }

  /** A string without surrounding white space is its own trim. */
  lemma TrimUnchanged(s: string)
    requires s == [] || (!IsSpace(s[0]) && !IsSpace(s[|s| - 1]))
    ensures Trim(s) == s
  {
  }

  /** `formatUserName(user)`. */
  function FormatUserName(user: Option<User>): (r: string)
    ensures user.None? ==> r == ""
    ensures user.Some? && Truthy(user.value.fullName) ==> r == user.value.fullName.value
    ensures user.Some? && !Truthy(user.value.fullName) ==>
              r == Trim(user.value.firstName.GetOr("") + " " + user.value.lastName.GetOr(""))
  {
    match user
    case None => ""
    case Some(u) =>
      if Truthy(u.fullName) then u.fullName.value
      else Trim(u.firstName.GetOr("") + " " + u.lastName.GetOr(""))
  }

  predicate Clean(s: string) {
    s == [] || (!IsSpace(s[0]) && !IsSpace(s[|s| - 1]))
  }

  /** Without a full name, two clean name parts are joined by one space. */
  lemma FormatUserNameBoth(first: string, last: string)
    requires Clean(first) && Clean(last) && first != [] && last != []
    ensures FormatUserName(Some(User(None, Some(first), Some(last)))) == first + " " + last
  {
    var s := first + " " + last;
    assert s[0] == first[0] && s[|s| - 1] == last[|last| - 1];
    TrimUnchanged(s);
  }

  /** Without a full name or a last name, the first name stands alone. */
  lemma FormatUserNameFirstOnly(first: string)
    requires Clean(first)
    ensures FormatUserName(Some(User(None, Some(first), None))) == first
  {
    var a := first + " " + "";
    if first == [] {
      assert a == " ";
      assert TrimStart(a) == "";
    } else {
      assert a[0] == first[0];
      assert TrimStart(a) == a;
      assert IsSpace(a[|a| - 1]) && a[..|a| - 1] == first;
      assert TrimEnd(first) == first;
      assert TrimEnd(a) == first;
    }
  }

  /** Without a full name or a first name, the last name stands alone. */
  lemma FormatUserNameLastOnly(last: string)
    requires Clean(last)
    ensures FormatUserName(Some(User(None, None, Some(last)))) == last
  {
    var b := "" + " " + last;
    assert b != [] && IsSpace(b[0]) && b[1..] == last;
    assert TrimStart(b) == TrimStart(last);
    if last != [] {
      assert !IsSpace(last[0]);
    }
    assert TrimStart(last) == last;
    assert !(last != [] && IsSpace(last[|last| - 1]));
    assert TrimEnd(last) == last;
  }

  // ------------------------------------------------------------- numbers

  /** The values `parseNumberSafe` is called with. Numbers are whole cents. */
  datatype NumericInput = Undefined | Null | EmptyString | Finite(n: int) | NotANumber

  /** `parseNumberSafe(value, defaultValue)`. */
  function ParseNumberSafe(value: NumericInput, defaultValue: int): (r: int)
    ensures value.Finite? ==> r == value.n
    ensures !value.Finite? ==> r == defaultValue
  {
    match value
    case Undefined => defaultValue
    case Null => defaultValue
    case EmptyString => defaultValue
    case NotANumber => defaultValue
    case Finite(n) => n
  }

  /** What a transaction's `amount` field passes to `parseNumberSafe`. */
  function AmountInput(t: Transaction): NumericInput {
    match t.amount
    case Some(n) => Finite(n)
    case None => Undefined
  }

  /** With the default 0, parsing an amount gives the amount, or 0 if missing. */
  lemma ParseAmount(t: Transaction)
    ensures ParseNumberSafe(AmountInput(t), 0) == Amount(t)
  {
  }

  /** `calculatePercentage`'s result before `toFixed`: the literal '0%' or a ratio. */
  datatype PercentText = ZeroPercent | Percent(percentage: real, decimalPlaces: int)

  /** `calculatePercentage(value, total, decimalPlaces)`. */
  function CalculatePercentage(value: int, total: int, decimalPlaces: int): (r: PercentText)
    ensures total == 0 <==> r == ZeroPercent
    ensures total != 0 ==> r.percentage * (total as real) == (value as real) * 100.0
    ensures total != 0 ==> r.decimalPlaces == decimalPlaces
  {
    if total == 0 then ZeroPercent
    else Percent((value as real) / (total as real) * 100.0, decimalPlaces)
  }

  // ------------------------------------------------------------- groupBy

  /** The JavaScript values `item[key]` may hold. Numbers are integers. */
  datatype JsValue = JsUndefined | JsNull | JsBool(b: bool) | JsNumber(n: int) | JsText(s: string)

  predicate Falsy(v: JsValue) {
    v.JsUndefined? || v.JsNull? || v == JsBool(false) || v == JsNumber(0) || v == JsText("")
  }

  function DigitString(n: nat): (r: string)
    ensures |r| > 0
    ensures forall i :: 0 <= i < |r| ==> '0' <= r[i] <= '9'
  {
    var d := ['0' + ((n % 10) as char)];
    if n < 10 then d else DigitString(n / 10) + d
  }

  /** `String(n)` for an integer. */
  function NumberToString(n: int): string {
    if n < 0 then "-" + DigitString(-n) else DigitString(n)
  }

  /** `String(v)` for a truthy value. */
  function StringOf(v: JsValue): string {
    match v
    case JsUndefined => "undefined"
    case JsNull => "null"
    case JsBool(b) => if b then "true" else "false"
    case JsNumber(n) => NumberToString(n)
    case JsText(s) => s
  }

  /** `String(item[key] || 'undefined')`. */
  function GroupKey(v: JsValue): (k: string)
    ensures Falsy(v) ==> k == "undefined"
    ensures v.JsText? && v.s != "" ==> k == v.s
  {
    if Falsy(v) then "undefined" else StringOf(v)
  }

  /** The items whose group key is k, in input order. */
  function Members<T>(items: seq<T>, field: T -> JsValue, k: string): seq<T> {
    if items == [] then []
    else Members(Init(items), field, k) + (if GroupKey(field(Last(items))) == k then [Last(items)] else [])
  }

  /** The group keys that occur among the items. */
  function KeySet<T>(items: seq<T>, field: T -> JsValue): set<string> {
    if items == [] then {} else KeySet(Init(items), field) + {GroupKey(field(Last(items)))}
  }

  lemma {:induction false} KeySetMembership<T>(items: seq<T>, field: T -> JsValue, k: string)
    ensures k in KeySet(items, field) <==> exists x :: x in items && GroupKey(field(x)) == k
  {
    if items != [] {
      KeySetMembership(Init(items), field, k);
      assert items == Init(items) + [Last(items)];
    }
  }

  /** The reference result of `groupBy`: one group per key that occurs. */
  function GroupBySpec<T>(items: seq<T>, field: T -> JsValue): map<string, seq<T>> {
    map k | k in KeySet(items, field) :: Members(items, field, k)
  }

  /** The names every plain object inherits from `Object.prototype`: reading
      one of them from an object without such an own property gives a
      function (or, for `__proto__`, the prototype object itself). */
  const InheritedNames: set<string> := {
    "constructor", "__proto__", "__defineGetter__", "__defineSetter__",
    "__lookupGetter__", "__lookupSetter__", "hasOwnProperty", "isPrototypeOf",
    "propertyIsEnumerable", "toLocaleString", "toString", "valueOf"}

  /** Some item's group key is an inherited name. */
  predicate AnyInherited<T>(items: seq<T>, field: T -> JsValue) {
    items != [] && (AnyInherited(Init(items), field) || GroupKey(field(Last(items))) in InheritedNames)
  }

  lemma {:induction false} AnyInheritedMembership<T>(items: seq<T>, field: T -> JsValue)
    ensures AnyInherited(items, field) <==> exists x :: x in items && GroupKey(field(x)) in InheritedNames
  {
    if items != [] {
      AnyInheritedMembership(Init(items), field);
      assert items == Init(items) + [Last(items)];
    }
  }

  /** `groupBy(array, key)`: the `reduce` that pushes each item onto the array
      of its key. None is the TypeError thrown when a key is an inherited name:
      `result[groupKey] || []` then yields the inherited value, which has no `push`. */
  method GroupBy<T>(items: seq<T>, field: T -> JsValue) returns (r: Option<map<string, seq<T>>>)
    ensures r.None? <==> exists x :: x in items && GroupKey(field(x)) in InheritedNames
    ensures r.Some? ==> forall k :: k in r.value <==> exists x :: x in items && GroupKey(field(x)) == k
    ensures r.Some? ==> forall k :: k in r.value ==> r.value[k] == Members(items, field, k)
    ensures r.Some? ==> r.value == GroupBySpec(items, field)
  {
    var groups: map<string, seq<T>> := map[];
    var i := 0;
    while i < |items|
      invariant 0 <= i <= |items|
      invariant !AnyInherited(items[..i], field)
      invariant groups.Keys == KeySet(items[..i], field)
      invariant forall k :: k in groups ==> groups[k] == Members(items[..i], field, k)
    {
      assert Init(items[..i + 1]) == items[..i] && Last(items[..i + 1]) == items[i];
      var k := GroupKey(field(items[i]));
      if k in InheritedNames {
        assert items[i] in items;
        return None;
      }
      if k !in groups {
        MembersAbsent(items[..i], field, k);
      }
      var group := if k in groups then groups[k] else [];
      groups := groups[k := group + [items[i]]];
      i := i + 1;
    }
    assert items[..i] == items;
    AnyInheritedMembership(items, field);
    forall k ensures k in groups <==> exists x :: x in items && GroupKey(field(x)) == k {
      KeySetMembership(items, field, k);
    }
    r := Some(groups);
  }

  lemma {:induction false} MembersAbsent<T>(items: seq<T>, field: T -> JsValue, k: string)
    requires k !in KeySet(items, field)
    ensures Members(items, field, k) == []
  {
    if items != [] {
      MembersAbsent(Init(items), field, k);
    }
  }

  /** Each item lands in exactly one group: its own key's, and no other. */
  lemma {:induction false} MembersExactlyOne<T>(items: seq<T>, field: T -> JsValue, x: T, k: string)
    requires x in items
    ensures x in Members(items, field, k) <==> GroupKey(field(x)) == k
  {
    assert items == Init(items) + [Last(items)];
    if x in Init(items) {
      MembersExactlyOne(Init(items), field, x, k);
    } else if Members(Init(items), field, k) != [] && x in Members(Init(items), field, k) {
      MembersInItems(Init(items), field, k);
    }
  }

  lemma {:induction false} MembersInItems<T>(items: seq<T>, field: T -> JsValue, k: string)
    ensures forall y :: y in Members(items, field, k) ==> y in items && GroupKey(field(y)) == k
  {
    if items != [] {
      MembersInItems(Init(items), field, k);
      assert items == Init(items) + [Last(items)];
    }
  }

  /** Summing the group sizes over any duplicate-free listing of the groups
      gives the number of items. */
  function SizesOver<T>(ks: seq<string>, groups: map<string, seq<T>>): nat
    requires forall k :: k in ks ==> k in groups
  {
    if ks == [] then 0 else SizesOver(Init(ks), groups) + |groups[Last(ks)]|
  }

  lemma GroupSizes<T>(items: seq<T>, field: T -> JsValue, ks: seq<string>)
    requires Grouping.Distinct(ks)
    requires forall k :: k in ks <==> k in GroupBySpec(items, field)
    ensures SizesOver(ks, GroupBySpec(items, field)) == |items|
  {
    var key := (x: T) => Some(GroupKey(field(x)));
    var one := (x: T) => 1;
    var g := GroupBySpec(items, field);
    forall x | x in items && key(x).Some? ensures key(x).value in ks {
      KeySetMembership(items, field, GroupKey(field(x)));
    }
    Grouping.SumOverCover(ks, items, key, one);
    Grouping.SumKeyedAll(items, key, one);
    SizesAsSums(ks, items, field, key, one);
    OnesSum(items, one);
  }

  lemma {:induction false} MembersCount<T>(items: seq<T>, field: T -> JsValue, key: T -> Option<string>, one: T -> int, k: string)
    requires forall x :: key(x) == Some(GroupKey(field(x)))
    requires forall x :: one(x) == 1
    ensures |Members(items, field, k)| == Grouping.SumWhere(items, key, one, k)
  {
    if items != [] {
      MembersCount(Init(items), field, key, one, k);
    }
  }

  lemma {:induction false} SizesAsSums<T>(ks: seq<string>, items: seq<T>, field: T -> JsValue, key: T -> Option<string>, one: T -> int)
    requires forall x :: key(x) == Some(GroupKey(field(x)))
    requires forall x :: one(x) == 1
    requires forall k :: k in ks ==> k in GroupBySpec(items, field)
    ensures SizesOver(ks, GroupBySpec(items, field)) == Sum(Grouping.EntriesFor(ks, items, key, one), Grouping.Value)
  {
    if ks != [] {
      assert Init(Grouping.EntriesFor(ks, items, key, one)) == Grouping.EntriesFor(Init(ks), items, key, one);
      SizesAsSums(Init(ks), items, field, key, one);
      MembersCount(items, field, key, one, Last(ks));
    }
  }

  lemma {:induction false} OnesSum<T>(items: seq<T>, one: T -> int)
    requires forall x :: one(x) == 1
    ensures Sum(items, one) == |items|
  {
    if items != [] {
      OnesSum(Init(items), one);
    }
  }

  // ---------------------------------------------------------------- dates

  /** `daysAgo(days)` against an explicit now: the instant `days` whole days earlier. */
  function DaysAgo(now: int, days: int): int {
    now - days * Calendar.MsPerDay
  }

  /** An instant is on or after the cut-off iff it lies at most that many days before now. */
  lemma DaysAgoWindow(now: int, days: int, instant: int)
    ensures instant >= DaysAgo(now, days) <==> now - instant <= days * Calendar.MsPerDay
    ensures DaysAgo(DaysAgo(now, days), 1) == DaysAgo(now, days + 1)
  {
  }

  /** `new Date(t.date || 0) >= cutoff` kept, in order (the 30-day filters). */
  function OnOrAfter(ts: seq<Transaction>, cutoff: int): (r: seq<Transaction>)
    ensures forall t :: t in r <==> t in ts && Timestamp(t) >= cutoff
    ensures |r| <= |ts|
  {
    if ts == [] then []
    else
      var p := OnOrAfter(Init(ts), cutoff);
      assert ts == Init(ts) + [Last(ts)];
      p + (if Timestamp(Last(ts)) >= cutoff then [Last(ts)] else [])
  }

  /** The 30-day window that the household page, the financial summary and the
      personal summary each compute: transactions dated on or after 30 days
      before now, a missing date counting as the epoch. */
  function Last30Days(ts: seq<Transaction>, now: int): (r: seq<Transaction>)
    ensures forall t :: t in r <==> t in ts && Timestamp(t) >= now - 30 * Calendar.MsPerDay
  {
    OnOrAfter(ts, DaysAgo(now, 30))
  }

  /** The complement of OnOrAfter. */
  function Before(ts: seq<Transaction>, cutoff: int): seq<Transaction> {
    if ts == [] then []
    else Before(Init(ts), cutoff) + (if Timestamp(Last(ts)) < cutoff then [Last(ts)] else [])
  }

  /** The recent and the older transactions split every sum. */
  lemma {:induction false} RecentSplit(ts: seq<Transaction>, cutoff: int, f: Transaction -> int)
    ensures Sum(OnOrAfter(ts, cutoff), f) + Sum(Before(ts, cutoff), f) == Sum(ts, f)
  {
    if ts != [] {
      RecentSplit(Init(ts), cutoff, f);
      var t := Last(ts);
      SumAppend(OnOrAfter(Init(ts), cutoff), if Timestamp(t) >= cutoff then [t] else [], f);
      SumAppend(Before(Init(ts), cutoff), if Timestamp(t) < cutoff then [t] else [], f);
      assert Sum([t], f) == f(t) by { assert Init([t]) == []; }
    }
  }

  // ------------------------------------------------------- required fields

  /** `value !== undefined && value !== null && value !== ''`. A property the
      object lacks reads as undefined, unless its name is inherited, in which
      case it reads as a function or the prototype, and so is present. */
  predicate Present(obj: map<string, JsValue>, field: string) {
    if field in obj then !obj[field].JsUndefined? && !obj[field].JsNull? && obj[field] != JsText("")
    else field in InheritedNames
  }

  /** `hasRequiredFields(obj, fields)`. */
  function HasRequiredFields(obj: Option<map<string, JsValue>>, fields: seq<string>): (r: bool)
    ensures obj.None? ==> !r
    ensures obj.Some? ==> (r <==> forall i :: 0 <= i < |fields| ==> Present(obj.value, fields[i]))
  {
    match obj
    case None => false
    case Some(o) => AllPresent(o, fields)
  }

  function AllPresent(o: map<string, JsValue>, fields: seq<string>): (r: bool)
    ensures r <==> forall i :: 0 <= i < |fields| ==> Present(o, fields[i])
  {
    if fields == [] then true
    else
      assert forall i :: 1 <= i < |fields| ==> fields[i] == fields[1..][i - 1];
      Present(o, fields[0]) && AllPresent(o, fields[1..])
  }

  /** An empty field list is satisfied by any object; 0 and false count as
      present; '' does not, nor does a missing field unless its name is inherited. */
  lemma RequiredFieldsExamples(o: map<string, JsValue>, f: string)
    ensures HasRequiredFields(Some(o), [])
    ensures HasRequiredFields(Some(o[f := JsNumber(0)]), [f])
    ensures HasRequiredFields(Some(o[f := JsBool(false)]), [f])
    ensures !HasRequiredFields(Some(o[f := JsText("")]), [f])
    ensures f !in InheritedNames ==> !HasRequiredFields(Some(o - {f}), [f])
    ensures f in InheritedNames ==> HasRequiredFields(Some(o - {f}), [f])
  {
  }

  /** `hasRequiredFields({}, ['toString'])` holds: the inherited method is a value. */
  lemma InheritedFieldPresent()
    ensures HasRequiredFields(Some(map[]), ["toString"])
    ensures !HasRequiredFields(Some(map[]), ["amount"])
  {
  }
}
