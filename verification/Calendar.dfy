/** The proleptic Gregorian calendar of Python's `date`, years 1 to 9999. */
module Calendar {
  import opened Wrappers

  datatype Date = Date(year: int, month: int, day: int)

  predicate IsLeap(y: int) {
    y % 4 == 0 && (y % 100 != 0 || y % 400 == 0)
  }

  function DaysInMonth(y: int, m: int): (n: int)
    ensures 28 <= n <= 31
  {
    if m == 2 then (if IsLeap(y) then 29 else 28)
    else if m == 4 || m == 6 || m == 9 || m == 11 then 30
    else 31
  }

  predicate Valid(d: Date) {
    1 <= d.year <= 9999 && 1 <= d.month <= 12 && 1 <= d.day <= DaysInMonth(d.year, d.month)
  }

  function DaysInYear(y: int): int {
    if IsLeap(y) then 366 else 365
  }

  function DaysBeforeYear(y: int): int {
    if y <= 1 then 0 else DaysBeforeYear(y - 1) + DaysInYear(y - 1)
  }

  function DaysBeforeMonth(y: int, m: int): int {
    if m <= 1 then 0 else DaysBeforeMonth(y, m - 1) + DaysInMonth(y, m - 1)
  }

  /** `toordinal()`: 0001-01-01 is day 1. */
  function Ordinal(d: Date): int {
    DaysBeforeYear(d.year) + DaysBeforeMonth(d.year, d.month) + d.day
  }

  /** `weekday()`: Monday is 0. */
  function Weekday(d: Date): (w: int)
    ensures 0 <= w < 7
  {
    (Ordinal(d) + 6) % 7
  }

  /** `d + timedelta(days=1)`; None for OverflowError. */
  function NextDay(d: Date): Option<Date> {
    if d.day < DaysInMonth(d.year, d.month) then Some(d.(day := d.day + 1))
    else if d.month < 12 then Some(Date(d.year, d.month + 1, 1))
    else if d.year < 9999 then Some(Date(d.year + 1, 1, 1))
    else None
  }

  function PreviousDay(d: Date): Option<Date> {
    if d.day > 1 then Some(d.(day := d.day - 1))
    else if d.month > 1 then Some(Date(d.year, d.month - 1, DaysInMonth(d.year, d.month - 1)))
    else if d.year > 1 then Some(Date(d.year - 1, 12, 31))
    else None
  }

  function AddDays(d: Date, n: nat): Option<Date> {
    if n == 0 then Some(d)
    else match AddDays(d, n - 1) case None => None case Some(e) => NextDay(e)
  }

  function SubtractDays(d: Date, n: nat): Option<Date> {
    if n == 0 then Some(d)
    else match SubtractDays(d, n - 1) case None => None case Some(e) => PreviousDay(e)
  }

  // ---- Year and month lengths ----

  /** Every 4th year, but not every 100th, but every 400th. */
  lemma QuotientStep(x: int, n: int)
    requires n > 0
    ensures x / n == (x - 1) / n + (if x % n == 0 then 1 else 0)
  {
    var q, r := (x - 1) / n, (x - 1) % n;
    assert x - 1 == q * n + r;
    if r == n - 1 {
      assert x == (q + 1) * n;
      QuotientIs(x, n, q + 1, 0);
    } else {
      QuotientIs(x, n, q, r + 1);
    }
  }

  lemma QuotientIs(x: int, n: int, q: int, r: int)
    requires n > 0 && x == q * n + r && 0 <= r < n
    ensures x / n == q && x % n == r
  {
    var gap := x / n - q;
    assert gap * n == r - x % n;
    assert gap >= 1 ==> gap * n >= n;
    assert gap <= -1 ==> gap * n <= -n;
  }

  lemma Multiples(y: int)
    ensures y % 100 == 0 ==> y % 4 == 0
    ensures y % 400 == 0 ==> y % 100 == 0
  {
  }

  function Formula(y: int): int {
    y * 365 + y / 4 - y / 100 + y / 400
  }

  lemma FormulaStep(y: int)
    ensures Formula(y) == Formula(y - 1) + DaysInYear(y)
  {
    QuotientStep(y, 4);
    QuotientStep(y, 100);
    QuotientStep(y, 400);
    Multiples(y);
  }

  /** The count of days before a year is the closed formula `toordinal` uses. */
  lemma {:induction false} DaysBeforeYearFormula(y: int)
    requires y >= 1
    ensures DaysBeforeYear(y) == Formula(y - 1)
  {
    if y > 1 {
      DaysBeforeYearFormula(y - 1);
      FormulaStep(y - 1);
    }
  }

  lemma MonthsFillTheYear(y: int)
    ensures DaysBeforeMonth(y, 12) + 31 == DaysInYear(y)
  {
    assert DaysBeforeMonth(y, 2) == 31;
    assert DaysBeforeMonth(y, 3) == 59 + if IsLeap(y) then 1 else 0;
    assert DaysBeforeMonth(y, 5) == DaysBeforeMonth(y, 3) + 61;
    assert DaysBeforeMonth(y, 7) == DaysBeforeMonth(y, 5) + 61;
    assert DaysBeforeMonth(y, 9) == DaysBeforeMonth(y, 7) + 62;
    assert DaysBeforeMonth(y, 11) == DaysBeforeMonth(y, 9) + 61;
  }

  /** The day number of the first of a month, months counted from year 0. */
  function MonthStart(k: int): int {
    Ordinal(Date(k / 12, k % 12 + 1, 1))
  }

  function MonthIndex(d: Date): int {
    d.year * 12 + d.month - 1
  }

  lemma IndexOfMonth(d: Date)
    requires 1 <= d.month <= 12
    ensures MonthIndex(d) / 12 == d.year && MonthIndex(d) % 12 == d.month - 1
    ensures Ordinal(d) == MonthStart(MonthIndex(d)) + d.day - 1
  {
    QuotientIs(MonthIndex(d), 12, d.year, d.month - 1);
  }

  /** Each month starts where the one before it ends: leap years included. */
  lemma MonthLength(k: int)
    requires k >= 12
    ensures MonthStart(k + 1) == MonthStart(k) + DaysInMonth(k / 12, k % 12 + 1)
  {
    var y, m := k / 12, k % 12;
    if m == 11 {
      QuotientIs(k + 1, 12, y + 1, 0);
      MonthsFillTheYear(y);
    } else {
      QuotientIs(k + 1, 12, y, m + 1);
    }
  }

  lemma {:induction false} MonthsAscend(k: int, l: int)
    requires 12 <= k < l
    ensures MonthStart(k) < MonthStart(l) && MonthStart(k + 1) <= MonthStart(l)
    decreases l - k
  {
    MonthLength(k);
    if k + 1 < l {
      MonthsAscend(k + 1, l);
    }
  }

  /** A valid date's day number falls in its own month. */
  lemma DayInMonth(d: Date)
    requires Valid(d)
    ensures MonthStart(MonthIndex(d)) <= Ordinal(d) < MonthStart(MonthIndex(d) + 1)
  {
    IndexOfMonth(d);
    MonthLength(MonthIndex(d));
  }

  lemma AcrossMonths(last: Date, first: Date)
    requires Valid(last) && Valid(first) && MonthIndex(first) == MonthIndex(last) + 1
    requires last.day == DaysInMonth(last.year, last.month) && first.day == 1
    ensures Ordinal(first) == Ordinal(last) + 1
  {
    IndexOfMonth(last);
    IndexOfMonth(first);
    MonthLength(MonthIndex(last));
  }

  /** Day numbers count days: one step of the calendar is one. */
  lemma NextDayIsNext(d: Date)
    requires Valid(d)
    ensures NextDay(d).Some? ==> Valid(NextDay(d).value) && Ordinal(NextDay(d).value) == Ordinal(d) + 1
    ensures NextDay(d).None? <==> d == Date(9999, 12, 31)
  {
    if NextDay(d).Some? && d.day == DaysInMonth(d.year, d.month) {
      AcrossMonths(d, NextDay(d).value);
    }
  }

  lemma PreviousDayIsPrevious(d: Date)
    requires Valid(d)
    ensures PreviousDay(d).Some? ==> Valid(PreviousDay(d).value) && Ordinal(PreviousDay(d).value) == Ordinal(d) - 1
    ensures PreviousDay(d).None? <==> d == Date(1, 1, 1)
  {
    if PreviousDay(d).Some? && d.day == 1 {
      AcrossMonths(PreviousDay(d).value, d);
    }
  }

  lemma {:induction false} AddDaysAdds(d: Date, n: nat)
    requires Valid(d)
    ensures AddDays(d, n).Some? ==> Valid(AddDays(d, n).value) && Ordinal(AddDays(d, n).value) == Ordinal(d) + n
  {
    if n > 0 {
      AddDaysAdds(d, n - 1);
      if AddDays(d, n - 1).Some? {
        NextDayIsNext(AddDays(d, n - 1).value);
      }
    }
  }

  lemma FirstMonth()
    ensures MonthStart(12) == 1
  {
    assert DaysBeforeYear(1) == 0;
    assert DaysBeforeMonth(1, 1) == 0;
  }

  lemma LaterMonth(d: Date)
    requires Valid(d) && MonthIndex(d) > 12
    ensures Ordinal(d) > 1
  {
    FirstMonth();
    IndexOfMonth(d);
    MonthsAscend(12, MonthIndex(d));
  }

  lemma OrdinalIsPositive(d: Date)
    requires Valid(d)
    ensures Ordinal(d) >= 1 && (Ordinal(d) == 1 <==> d == Date(1, 1, 1))
  {
    if MonthIndex(d) > 12 {
      LaterMonth(d);
    } else {
      assert d.year == 1 && d.month == 1;
      assert DaysBeforeYear(1) == 0 && DaysBeforeMonth(1, 1) == 0;
    }
  }

  lemma {:induction false} SubtractDaysSubtracts(d: Date, n: nat)
    requires Valid(d)
    ensures SubtractDays(d, n).Some? ==>
              Valid(SubtractDays(d, n).value) && Ordinal(SubtractDays(d, n).value) == Ordinal(d) - n
    ensures n < Ordinal(d) ==> SubtractDays(d, n).Some?
  {
    if n > 0 {
      SubtractDaysSubtracts(d, n - 1);
      if SubtractDays(d, n - 1).Some? {
        PreviousDayIsPrevious(SubtractDays(d, n - 1).value);
        OrdinalIsPositive(SubtractDays(d, n - 1).value);
      }
    }
  }

  /** Different dates have different day numbers. */
  lemma OrdinalIdentifies(d: Date, e: Date)
    requires Valid(d) && Valid(e)
    ensures Ordinal(d) == Ordinal(e) <==> d == e
  {
    DayInMonth(d);
    DayInMonth(e);
    IndexOfMonth(d);
    IndexOfMonth(e);
    if MonthIndex(d) < MonthIndex(e) {
      MonthsAscend(MonthIndex(d), MonthIndex(e));
    } else if MonthIndex(e) < MonthIndex(d) {
      MonthsAscend(MonthIndex(e), MonthIndex(d));
    }
  }

  const LAST_DAY := Date(9999, 12, 31)

  /** No date is past the last one, day 3652059 (`date.max.toordinal()`). */
  lemma NoLaterDay(d: Date)
    requires Valid(d)
    ensures Ordinal(d) <= Ordinal(LAST_DAY) == 3652059
  {
    DaysBeforeYearFormula(9999);
    MonthsFillTheYear(9999);
    IndexOfMonth(d);
    IndexOfMonth(LAST_DAY);
    if MonthIndex(d) < MonthIndex(LAST_DAY) {
      DayInMonth(d);
      MonthsAscend(MonthIndex(d), MonthIndex(LAST_DAY));
    }
  }

  /** `timedelta` overflows exactly past the last day. */
  lemma {:induction false} AddDaysExists(d: Date, n: nat)
    requires Valid(d)
    ensures AddDays(d, n).Some? <==> Ordinal(d) + n <= Ordinal(LAST_DAY)
  {
    if n == 0 {
      NoLaterDay(d);
    } else {
      AddDaysExists(d, n - 1);
      if AddDays(d, n - 1).Some? {
        var e := AddDays(d, n - 1).value;
        AddDaysAdds(d, n - 1);
        NextDayIsNext(e);
        NoLaterDay(e);
        OrdinalIdentifies(e, LAST_DAY);
      }
    }
  }

  /** An anchor outside the definitions: 1970-01-01 was day 719163, a Thursday. */
  lemma UnixEpoch()
    ensures Ordinal(Date(1970, 1, 1)) == 719163 && Weekday(Date(1970, 1, 1)) == 3
  {
    DaysBeforeYearFormula(1970);
    assert DaysBeforeMonth(1970, 1) == 0;
  }
}
