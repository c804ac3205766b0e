/**
 Budget periods: the half-open UTC window a daily, weekly or monthly budget is in, and
 the month bounds of the forecast.  Instants are microseconds.
 */
module Period {
  import opened Wrappers
  import opened Calendar

  const DAY := 86_400_000_000

  /** A Python datetime: local date and time of day, and the offset from UTC unless naive. */
  datatype Moment = Moment(date: Date, time: int, offset: Option<int>)

  predicate Real(m: Moment) {
    Valid(m.date) && 0 <= m.time < DAY && (m.offset.Some? ==> -DAY < m.offset.value < DAY)
  }

  function Instant(m: Moment): int
    requires m.offset.Some?
  {
    Ordinal(m.date) * DAY + m.time - m.offset.value
  }

  function UtcMidnight(d: Date): int {
    Ordinal(d) * DAY
  }

  datatype Window = Window(start: int, end: int)

  datatype Error = NaiveNow | UnknownPeriod | DateOverflow

  function StartOfMonth(d: Date): Date {
    Date(d.year, d.month, 1)
  }

  function StartOfNextMonth(d: Date): Option<Date> {
    if d.month < 12 then Some(Date(d.year, d.month + 1, 1))
    else if d.year < 9999 then Some(Date(d.year + 1, 1, 1))
    else None
  }

  function Between(start: Option<Date>, end: Option<Date>): Result<Window, Error> {
    if start.None? || end.None? then Failure(DateOverflow)
    else Success(Window(UtcMidnight(start.value), UtcMidnight(end.value)))
  }

  function Monday(d: Date): Option<Date> {
    SubtractDays(d, Weekday(d))
  }

  datatype Kind = Daily | Weekly | Monthly

  function ParseKind(period: string): Option<Kind> {
    if period == "daily" then Some(Daily)
    else if period == "weekly" then Some(Weekly)
    else if period == "monthly" then Some(Monthly)
    else None
  }

  function WindowOf(kind: Kind, today: Date): Result<Window, Error> {
    match kind
    case Daily => Between(Some(today), AddDays(today, 1))
    case Weekly =>
      (match Monday(today) case None => Failure(DateOverflow) case Some(m) => Between(Some(m), AddDays(m, 7)))
    case Monthly => Between(Some(StartOfMonth(today)), StartOfNextMonth(today))
  }

  /** `current_period_window` */
  function CurrentWindow(period: string, now: Moment): Result<Window, Error> {
    if now.offset.None? then Failure(NaiveNow)
    else
      match ParseKind(period)
      case None => Failure(UnknownPeriod)
      case Some(kind) => WindowOf(kind, now.date)
  }

  /** `days_in_period` */
  function DaysInPeriod(w: Window): int {
    (w.end - w.start) / DAY
  }

  // ---- A window in day numbers ----

  /** First day and length of the period a day is in. */
  function PeriodDays(kind: Kind, d: Date): (int, int) {
    match kind
    case Daily => (Ordinal(d), 1)
    case Weekly => (Ordinal(d) - Weekday(d), 7)
    case Monthly => (MonthStart(MonthIndex(d)), DaysInMonth(d.year, d.month))
  }

  lemma StartOfWeek(x: int)
    ensures (x - (x + 6) % 7 + 6) % 7 == 0
  {
    QuotientIs(x - (x + 6) % 7 + 6, 7, (x + 6) / 7, 0);
  }

  lemma MondayExists(d: Date)
    requires Valid(d)
    ensures Monday(d).Some? && Valid(Monday(d).value)
    ensures Ordinal(Monday(d).value) == Ordinal(d) - Weekday(d) && Weekday(Monday(d).value) == 0
  {
    OrdinalIsPositive(d);
    StartOfWeek(Ordinal(d));
    BeforeMonday(Ordinal(d));
    SubtractDaysSubtracts(d, Weekday(d));
  }

  /** The calendar itself begins on a Monday, so no week starts before it. */
  lemma BeforeMonday(x: int)
    requires x >= 1
    ensures (x + 6) % 7 < x
  {
  }

  lemma NextMonthExists(d: Date)
    requires Valid(d) && StartOfNextMonth(d).Some?
    ensures Ordinal(StartOfMonth(d)) == MonthStart(MonthIndex(d))
    ensures Ordinal(StartOfNextMonth(d).value) == MonthStart(MonthIndex(d)) + DaysInMonth(d.year, d.month)
  {
    var next := StartOfNextMonth(d).value;
    IndexOfMonth(d);
    IndexOfMonth(StartOfMonth(d));
    IndexOfMonth(next);
    assert MonthIndex(next) == MonthIndex(d) + 1;
    MonthLength(MonthIndex(d));
  }

  /** Every window that exists is whole days of its period. */
  lemma WindowInDays(kind: Kind, d: Date)
    requires Valid(d) && WindowOf(kind, d).Success?
    ensures var (first, length) := PeriodDays(kind, d);
            WindowOf(kind, d).value == Window(first * DAY, (first + length) * DAY)
  {
    match kind
    case Daily => AddDaysAdds(d, 1);
    case Weekly =>
      MondayExists(d);
      AddDaysAdds(Monday(d).value, 7);
    case Monthly => NextMonthExists(d);
  }

  lemma DayInPeriod(kind: Kind, d: Date)
    requires Valid(d)
    ensures var (first, length) := PeriodDays(kind, d);
            first <= Ordinal(d) < first + length
  {
    if kind == Monthly {
      IndexOfMonth(d);
    }
  }

  lemma WeeksApart(x: int, y: int)
    ensures var f, g := x - (x + 6) % 7, y - (y + 6) % 7;
            f == g || f + 7 <= g || g + 7 <= f
  {
    var p, q := (x + 6) / 7, (y + 6) / 7;
    assert x - (x + 6) % 7 == p * 7 - 6 && y - (y + 6) % 7 == q * 7 - 6;
  }

  lemma MonthsApart(d: Date, e: Date)
    requires Valid(d) && Valid(e)
    ensures var (f, m) := PeriodDays(Monthly, d);
            var (g, n) := PeriodDays(Monthly, e);
            (f, m) == (g, n) || f + m <= g || g + n <= f
  {
    var k, l := MonthIndex(d), MonthIndex(e);
    IndexOfMonth(d);
    IndexOfMonth(e);
    MonthLength(k);
    MonthLength(l);
    if k < l {
      MonthsAscend(k, l);
    } else if l < k {
      MonthsAscend(l, k);
    }
  }

  lemma WeekPeriodsApart(d: Date, e: Date)
    ensures var (f, m) := PeriodDays(Weekly, d);
            var (g, n) := PeriodDays(Weekly, e);
            (f, m) == (g, n) || f + m <= g || g + n <= f
  {
    WeeksApart(Ordinal(d), Ordinal(e));
  }

  /** Two days are in the same period, or in periods that do not overlap. */
  lemma PeriodsApart(kind: Kind, d: Date, e: Date)
    requires Valid(d) && Valid(e)
    ensures var (f, m) := PeriodDays(kind, d);
            var (g, n) := PeriodDays(kind, e);
            (f, m) == (g, n) || f + m <= g || g + n <= f
  {
    match kind
    case Daily =>
    case Weekly => WeekPeriodsApart(d, e);
    case Monthly => MonthsApart(d, e);
  }

  lemma WeeksAdjoin(x: int, y: int)
    requires y == x - (x + 6) % 7 + 7
    ensures y - (y + 6) % 7 == y
  {
    QuotientIs(y + 6, 7, (x + 6) / 7 + 1, 0);
  }

  lemma MonthsAdjoin(d: Date, e: Date)
    requires Valid(d) && Valid(e) && Ordinal(e) == MonthStart(MonthIndex(d) + 1)
    ensures MonthIndex(e) == MonthIndex(d) + 1
  {
    var k, l := MonthIndex(d), MonthIndex(e);
    DayInMonth(e);
    if k + 1 < l {
      MonthsAscend(k + 1, l);
    } else if l < k + 1 {
      MonthsAscend(l, k + 1);
    }
  }

  /** No gap: the day after a period is the first of its own. */
  lemma PeriodsAdjoin(kind: Kind, d: Date, e: Date)
    requires Valid(d) && Valid(e)
    requires Ordinal(e) == PeriodDays(kind, d).0 + PeriodDays(kind, d).1
    ensures PeriodDays(kind, e).0 == Ordinal(e)
  {
    match kind
    case Daily =>
    case Weekly => WeeksAdjoin(Ordinal(d), Ordinal(e));
    case Monthly =>
      IndexOfMonth(d);
      MonthLength(MonthIndex(d));
      MonthsAdjoin(d, e);
  }

  // ---- The laws ----

  function UtcDay(now: Moment): int
    requires now.offset.Some?
  {
    Instant(now) / DAY
  }

  lemma DayBounds(t: int, a: int, b: int)
    ensures a * DAY <= t < b * DAY <==> a <= t / DAY < b
  {
  }

  lemma UtcDayIsLocal(now: Moment)
    requires Real(now) && now.offset == Some(0)
    ensures UtcDay(now) == Ordinal(now.date)
  {
    DayBounds(Instant(now), Ordinal(now.date), Ordinal(now.date) + 1);
  }

  /** `now.astimezone(utc).date()`: the local date, or a neighbour; None past the calendar's ends. */
  function UtcDate(now: Moment): Option<Date>
    requires now.offset.Some?
  {
    var t := now.time - now.offset.value;
    if t < 0 then PreviousDay(now.date) else if t < DAY then Some(now.date) else NextDay(now.date)
  }

  /** Its UTC date is in the period its local date is in: the same day, week or month. */
  predicate SamePeriodInUtc(kind: Kind, now: Moment)
    requires now.offset.Some?
  {
    && UtcDate(now).Some?
    && match kind
       case Daily => 0 <= now.time - now.offset.value < DAY
       case Weekly => Monday(UtcDate(now).value) == Monday(now.date)
       case Monthly => UtcDate(now).value.year == now.date.year && UtcDate(now).value.month == now.date.month
  }

  lemma DayOfInstant(x: int, t: int)
    requires -DAY < t < 2 * DAY
    ensures (x * DAY + t) / DAY == if t < 0 then x - 1 else if t < DAY then x else x + 1
  {
    var y := if t < 0 then x - 1 else if t < DAY then x else x + 1;
    DayBounds(x * DAY + t, y, y + 1);
  }

  /** How many days the UTC date is ahead of the local one. */
  function DayShift(now: Moment): int
    requires now.offset.Some?
  {
    var t := now.time - now.offset.value;
    if t < 0 then -1 else if t < DAY then 0 else 1
  }

  lemma UtcDayShift(now: Moment)
    requires Real(now) && now.offset.Some?
    ensures UtcDay(now) == Ordinal(now.date) + DayShift(now)
  {
    var x, t := Ordinal(now.date), now.time - now.offset.value;
    assert Instant(now) == x * DAY + t;
    DayOfInstant(x, t);
  }

  lemma UtcDateShift(now: Moment)
    requires Real(now) && now.offset.Some?
    ensures UtcDate(now).Some? ==>
              Valid(UtcDate(now).value) && Ordinal(UtcDate(now).value) == Ordinal(now.date) + DayShift(now)
    ensures UtcDate(now).None? ==>
              if DayShift(now) < 0 then now.date == Date(1, 1, 1) else DayShift(now) == 1 && now.date == LAST_DAY
  {
    if DayShift(now) < 0 {
      PreviousDayIsPrevious(now.date);
    } else if DayShift(now) > 0 {
      NextDayIsNext(now.date);
    }
  }

  lemma UtcDateIsUtcDay(now: Moment)
    requires Real(now) && now.offset.Some? && UtcDate(now).Some?
    ensures Valid(UtcDate(now).value) && Ordinal(UtcDate(now).value) == UtcDay(now)
  {
    UtcDayShift(now);
    UtcDateShift(now);
  }

  lemma NoUtcDate(now: Moment)
    requires Real(now) && now.offset.Some? && UtcDate(now).None?
    ensures UtcDay(now) < 1 || UtcDay(now) > Ordinal(LAST_DAY)
  {
    UtcDayShift(now);
    UtcDateShift(now);
    if DayShift(now) < 0 {
      OrdinalIsPositive(now.date);
    }
  }

  /** Two days are in one period exactly when they have the same Monday, or the same month. */
  lemma PeriodOfDay(kind: Kind, d: Date, e: Date)
    requires Valid(d) && Valid(e)
    ensures var (first, length) := PeriodDays(kind, d);
            first <= Ordinal(e) < first + length <==>
            match kind
            case Daily => e == d
            case Weekly => Monday(e) == Monday(d)
            case Monthly => e.year == d.year && e.month == d.month
  {
    PeriodsApart(kind, d, e);
    DayInPeriod(kind, e);
    match kind
    case Daily => OrdinalIdentifies(d, e);
    case Weekly =>
      MondayExists(d);
      MondayExists(e);
      OrdinalIdentifies(Monday(d).value, Monday(e).value);
    case Monthly => MonthOfDay(d, e);
  }

  lemma MonthOfDay(d: Date, e: Date)
    requires Valid(d) && Valid(e)
    ensures var (first, length) := PeriodDays(Monthly, d);
            first <= Ordinal(e) < first + length <==> e.year == d.year && e.month == d.month
  {
    IndexOfMonth(d);
    IndexOfMonth(e);
    MonthLength(MonthIndex(d));
    DayInMonth(e);
    if MonthIndex(d) < MonthIndex(e) {
      MonthsAscend(MonthIndex(d), MonthIndex(e));
    } else if MonthIndex(e) < MonthIndex(d) {
      MonthsAscend(MonthIndex(e), MonthIndex(d));
    }
  }

  lemma WindowEndExists(kind: Kind, d: Date)
    requires Valid(d) && WindowOf(kind, d).Success?
    ensures var (first, length) := PeriodDays(kind, d);
            first + length <= Ordinal(LAST_DAY)
  {
    match kind
    case Daily => AddDaysExists(d, 1);
    case Weekly =>
      MondayExists(d);
      AddDaysExists(Monday(d).value, 7);
    case Monthly =>
      NextMonthExists(d);
      NoLaterDay(StartOfNextMonth(d).value);
  }

  lemma PeriodIsInCalendar(kind: Kind, d: Date)
    requires Valid(d)
    ensures PeriodDays(kind, d).0 >= 1
  {
    OrdinalIsPositive(d);
    BeforeMonday(Ordinal(d));
    if kind == Monthly {
      OrdinalIsPositive(StartOfMonth(d));
      IndexOfMonth(d);
      IndexOfMonth(StartOfMonth(d));
    }
  }

  lemma SameDayInUtc(now: Moment)
    requires Real(now) && now.offset.Some? && UtcDate(now).Some?
    ensures UtcDate(now).value == now.date <==> 0 <= now.time - now.offset.value < DAY
  {
  }

  lemma SamePeriodByDays(kind: Kind, now: Moment)
    requires Real(now) && now.offset.Some? && WindowOf(kind, now.date).Success?
    ensures var (first, length) := PeriodDays(kind, now.date);
            first <= UtcDay(now) < first + length <==> SamePeriodInUtc(kind, now)
  {
    if UtcDate(now).Some? {
      UtcDateIsUtcDay(now);
      PeriodOfDay(kind, now.date, UtcDate(now).value);
      SameDayInUtc(now);
    } else {
      NoUtcDate(now);
      PeriodIsInCalendar(kind, now.date);
      WindowEndExists(kind, now.date);
    }
  }

  /** A window holds its `now` exactly when the UTC date of `now` is in the same day, week or
      month as its local date: always for a UTC `now`, not for every aware one. */
  lemma WindowHoldsNow(kind: Kind, now: Moment)
    requires Real(now) && now.offset.Some? && WindowOf(kind, now.date).Success?
    ensures var w := WindowOf(kind, now.date).value;
            && (w.start <= Instant(now) < w.end <==> SamePeriodInUtc(kind, now))
            && (now.offset == Some(0) ==> w.start <= Instant(now) < w.end)
  {
    WindowInDays(kind, now.date);
    var (first, length) := PeriodDays(kind, now.date);
    DayBounds(Instant(now), first, first + length);
    SamePeriodByDays(kind, now);
  }

  /** Midnight by its own clock, and an hour before its own daily window. */
  lemma WindowMissesNow()
    ensures var now := Moment(Date(1970, 1, 1), 0, Some(3_600_000_000));
            && Real(now) && WindowOf(Daily, now.date).Success?
            && Instant(now) < WindowOf(Daily, now.date).value.start
  {
    assert AddDays(Date(1970, 1, 1), 0) == Some(Date(1970, 1, 1));
    assert AddDays(Date(1970, 1, 1), 1) == NextDay(Date(1970, 1, 1));
  }

  /** The windows of one period tile the timeline: a UTC moment inside a window has that very
      window, one at its end starts the next, and any other has a disjoint one. */
  lemma WindowsTile(kind: Kind, a: Moment, b: Moment)
    requires Real(a) && Real(b) && a.offset == Some(0) && b.offset == Some(0)
    requires WindowOf(kind, a.date).Success? && WindowOf(kind, b.date).Success?
    ensures var v, w := WindowOf(kind, a.date).value, WindowOf(kind, b.date).value;
            && (v.start <= Instant(b) < v.end <==> v == w)
            && (Instant(b) == v.end ==> w.start == v.end)
            && (v == w || v.end <= w.start || w.end <= v.start)
  {
    WindowInDays(kind, a.date);
    WindowInDays(kind, b.date);
    WindowHoldsNow(kind, b);
    PeriodsApart(kind, a.date, b.date);
    if Instant(b) == WindowOf(kind, a.date).value.end {
      var (first, length) := PeriodDays(kind, a.date);
      UtcDayIsLocal(b);
      DayBounds(Instant(b), first + length, first + length + 1);
      PeriodsAdjoin(kind, a.date, b.date);
    }
  }

  lemma WholeDays(a: int, n: int)
    ensures ((a + n) * DAY - a * DAY) / DAY == n
  {
  }

  /** The Monday of a day's week, its midnight the start of the weekly window. */
  predicate StartsWeekOf(m: Date, d: Date) {
    Valid(m) && Weekday(m) == 0 && Ordinal(m) <= Ordinal(d) < Ordinal(m) + 7
  }

  lemma ShapeOf(kind: Kind, d: Date)
    requires Valid(d) && WindowOf(kind, d).Success?
    ensures var w := WindowOf(kind, d).value;
            match kind
            case Daily => DaysInPeriod(w) == 1 && w.start == UtcMidnight(d)
            case Weekly => DaysInPeriod(w) == 7 && exists m :: StartsWeekOf(m, d) && w.start == UtcMidnight(m)
            case Monthly =>
              DaysInPeriod(w) == DaysInMonth(d.year, d.month) && w.start == UtcMidnight(Date(d.year, d.month, 1))
  {
    WindowInDays(kind, d);
    WholeDays(PeriodDays(kind, d).0, PeriodDays(kind, d).1);
    DayInPeriod(kind, d);
    if kind == Weekly {
      MondayExists(d);
      assert StartsWeekOf(Monday(d).value, d);
    } else if kind == Monthly {
      NextMonthExists(d);
    }
  }

  /** By the name of the period: a day lasts one day; a week starts on the Monday at or before the
      date and lasts 7; a month starts on its 1st and lasts as long as the month. */
  lemma WindowShape(period: string, now: Moment)
    requires Real(now) && CurrentWindow(period, now).Success?
    ensures period in {"daily", "weekly", "monthly"}
    ensures var w, d := CurrentWindow(period, now).value, now.date;
            && (period == "daily" ==> DaysInPeriod(w) == 1 && w.start == UtcMidnight(d))
            && (period == "weekly" ==>
                  DaysInPeriod(w) == 7 && exists m :: StartsWeekOf(m, d) && w.start == UtcMidnight(m))
            && (period == "monthly" ==>
                  DaysInPeriod(w) == DaysInMonth(d.year, d.month) && w.start == UtcMidnight(Date(d.year, d.month, 1)))
  {
    ShapeOf(ParseKind(period).value, now.date);
  }

  lemma LastWeek(d: Date)
    requires Valid(d)
    ensures Ordinal(d) - Weekday(d) + 7 <= Ordinal(LAST_DAY) <==> !(d.year == 9999 && d.month == 12 && d.day >= 27)
  {
    var monday := Date(9999, 12, 27);
    NoLaterDay(d);
    assert Ordinal(monday) == Ordinal(LAST_DAY) - 4;
    PeriodsApart(Weekly, d, monday);
    DayInPeriod(Weekly, d);
    IndexOfMonth(d);
    IndexOfMonth(monday);
    if MonthIndex(d) < MonthIndex(monday) {
      DayInMonth(d);
      MonthsAscend(MonthIndex(d), MonthIndex(monday));
    }
  }

  lemma DayExists(d: Date)
    requires Valid(d)
    ensures WindowOf(Daily, d).Success? <==> d != LAST_DAY
  {
    AddDaysExists(d, 1);
    NoLaterDay(d);
    OrdinalIdentifies(d, LAST_DAY);
  }

  lemma WeekExists(d: Date)
    requires Valid(d)
    ensures WindowOf(Weekly, d).Success? <==> !(d.year == 9999 && d.month == 12 && d.day >= 27)
  {
    MondayExists(d);
    AddDaysExists(Monday(d).value, 7);
    LastWeek(d);
  }

  /** When a window exists: naive moments and unknown periods are refused, and the calendar's
      last day, last week (from Monday 9999-12-27) and last month have no end. */
  lemma WindowExists(period: string, now: Moment)
    requires Real(now)
    ensures CurrentWindow(period, now) == Failure(NaiveNow) <==> now.offset.None?
    ensures CurrentWindow(period, now) == Failure(UnknownPeriod)
       <==> now.offset.Some? && period !in {"daily", "weekly", "monthly"}
    ensures now.offset.Some? && period == "daily" ==>
              (CurrentWindow(period, now).Success? <==> now.date != LAST_DAY)
    ensures now.offset.Some? && period == "weekly" ==>
              (CurrentWindow(period, now).Success?
               <==> !(now.date.year == 9999 && now.date.month == 12 && now.date.day >= 27))
    ensures now.offset.Some? && period == "monthly" ==>
              (CurrentWindow(period, now).Success? <==> !(now.date.year == 9999 && now.date.month == 12))
  {
    DayExists(now.date);
    WeekExists(now.date);
  }

  // ---- The forecast's month ----

  /** `project_period_end`: first and last day of the month, and whole days to the last. */
  function MonthBounds(today: Date): (Date, Date, int) {
    var last := today.(day := DaysInMonth(today.year, today.month));
    (today.(day := 1), last, Ordinal(last) - Ordinal(today))
  }

  /** The forecast's month is the monthly budget window, its last day included. */
  lemma ForecastMonthIsWindow(today: Date)
    requires Valid(today) && WindowOf(Monthly, today).Success?
    ensures var (start, end, remaining) := MonthBounds(today);
            && WindowOf(Monthly, today).value == Window(UtcMidnight(start), UtcMidnight(end) + DAY)
            && remaining == DaysInMonth(today.year, today.month) - today.day && remaining >= 0
  {
    var (start, end, remaining) := MonthBounds(today);
    WindowInDays(Monthly, today);
    IndexOfMonth(start);
    IndexOfMonth(end);
    IndexOfMonth(today);
  }
}
