/** The proleptic Gregorian calendar, and `period_bounds` of backend/app/jobs/telegram_bot.py. */
module Calendar {
  import opened Wrappers

  const MIN_YEAR := 1
  const MAX_YEAR := 9999
  const MAX_ORDINAL := 3_652_059
  const DAY_MICROS := 86_400_000_000

  predicate IsLeap(year: int) {
    year % 4 == 0 && (year % 100 != 0 || year % 400 == 0)
  }

  function DaysInMonth(year: int, month: int): int {
    if month == 2 then (if IsLeap(year) then 29 else 28)
    else if month == 4 || month == 6 || month == 9 || month == 11 then 30
    else 31
  }

  datatype Date = Date(year: int, month: int, day: int)

  predicate Valid(date: Date) {
    1 <= date.month <= 12 && 1 <= date.day <= DaysInMonth(date.year, date.month)
  }

  /** The year range of the datetime type. */
  predicate InRange(date: Date) {
    MIN_YEAR <= date.year <= MAX_YEAR
  }

  function DaysInYear(year: int): int {
    if IsLeap(year) then 366 else 365
  }

  /** Days from 1 January of year 1 to 1 January of `year`. */
  function DaysBeforeYear(year: int): int {
    var y := year - 1;
    y * 365 + y / 4 - y / 100 + y / 400
  }

  /** Days of an ordinary year before the month. */
  function DaysBeforeOrdinaryMonth(month: int): int {
    match month
    case 1 => 0
    case 2 => 31
    case 3 => 59
    case 4 => 90
    case 5 => 120
    case 6 => 151
    case 7 => 181
    case 8 => 212
    case 9 => 243
    case 10 => 273
    case 11 => 304
    case _ => 334
  }

  function DaysBeforeMonth(year: int, month: int): int {
    DaysBeforeOrdinaryMonth(month) + if month > 2 && IsLeap(year) then 1 else 0
  }

  /** `toordinal`: 0001-01-01 is day 1. */
  function Ordinal(date: Date): int
    requires Valid(date)
  {
    DaysBeforeYear(date.year) + DaysBeforeMonth(date.year, date.month) + date.day
  }

  function NextDay(date: Date): Date
    requires Valid(date)
  {
    if date.day < DaysInMonth(date.year, date.month) then date.(day := date.day + 1)
    else if date.month < 12 then Date(date.year, date.month + 1, 1)
    else Date(date.year + 1, 1, 1)
  }

  function PreviousDay(date: Date): Date
    requires Valid(date)
  {
    if date.day > 1 then date.(day := date.day - 1)
    else if date.month > 1 then Date(date.year, date.month - 1, DaysInMonth(date.year, date.month - 1))
    else Date(date.year - 1, 12, 31)
  }

  /** `date + timedelta(days=days)`. */
  function AddDays(date: Date, days: int): (later: Date)
    requires Valid(date)
    ensures Valid(later)
    decreases if days < 0 then -days else days, date
  {
    if days == 0 then date
    else if days > 0 then AddDays(NextDay(date), days - 1)
    else AddDays(PreviousDay(date), days + 1)
  }

  /** `weekday`: Monday is 0. */
  function Weekday(date: Date): int
    requires Valid(date)
  {
    (Ordinal(date) + 6) % 7
  }

  // ---------------------------------------------------------------------------
  // Dates and ordinals
  // ---------------------------------------------------------------------------

  /** How a quotient by a constant moves when the dividend grows by one. */
  lemma QuotientStep(y: int, k: int)
    requires k == 4 || k == 100 || k == 400
    ensures (y + 1) / k == y / k + (if (y + 1) % k == 0 then 1 else 0)
  {
    if k == 4 {
    } else if k == 100 {
    } else {
    }
  }

  lemma CenturiesAreFourths(year: int)
    ensures year % 100 == 0 ==> year % 4 == 0
    ensures year % 400 == 0 ==> year % 100 == 0
  {
    if year % 100 == 0 {
      var centuries := year / 100;
      assert year == 4 * (25 * centuries);
    }
    if year % 400 == 0 {
      var cycles := year / 400;
      assert year == 100 * (4 * cycles);
    }
  }

  /** Consecutive years are as far apart as the first of them is long. */
  lemma YearLength(year: int)
    ensures DaysBeforeYear(year + 1) == DaysBeforeYear(year) + DaysInYear(year)
  {
    var y := year - 1;
    QuotientStep(y, 4);
    QuotientStep(y, 100);
    QuotientStep(y, 400);
    CenturiesAreFourths(year);
    var fourth, hundredth, cycle := y / 4, y / 100, y / 400;
    assert DaysBeforeYear(year) == y * 365 + fourth - hundredth + cycle;
    assert DaysBeforeYear(year + 1) == year * 365 + year / 4 - year / 100 + year / 400;
  }

  /** The table of month starts agrees with the lengths of the months. */
  lemma MonthsFill(year: int, month: int)
    requires 1 <= month <= 12
    ensures DaysBeforeMonth(year, month) + DaysInMonth(year, month)
         == if month < 12 then DaysBeforeMonth(year, month + 1) else DaysInYear(year)
  {
  }

  lemma NextOrdinal(date: Date)
    requires Valid(date)
    ensures Ordinal(NextDay(date)) == Ordinal(date) + 1
    ensures PreviousDay(NextDay(date)) == date
  {
    YearLength(date.year);
    MonthsFill(date.year, date.month);
  }

  lemma PreviousOrdinal(date: Date)
    requires Valid(date)
    ensures Ordinal(PreviousDay(date)) == Ordinal(date) - 1
  {
    YearLength(date.year - 1);
    MonthsFill(date.year - 1, 12);
    if date.month > 1 {
      MonthsFill(date.year, date.month - 1);
    }
  }

  lemma {:induction false} AddDaysOrdinal(date: Date, days: int)
    requires Valid(date)
    ensures Ordinal(AddDays(date, days)) == Ordinal(date) + days
    decreases if days < 0 then -days else days
  {
    if days > 0 {
      NextOrdinal(date);
      AddDaysOrdinal(NextDay(date), days - 1);
    } else if days < 0 {
      PreviousOrdinal(date);
      AddDaysOrdinal(PreviousDay(date), days + 1);
    }
  }

  predicate Before(a: Date, b: Date) {
    a.year < b.year || (a.year == b.year && (a.month < b.month || (a.month == b.month && a.day < b.day)))
  }

  lemma {:induction false} MonthsGrow(year: int, first: int, last: int)
    requires 1 <= first < last <= 12
    ensures DaysBeforeMonth(year, first) + DaysInMonth(year, first) <= DaysBeforeMonth(year, last)
    decreases last
  {
    MonthsFill(year, last - 1);
    if first < last - 1 {
      MonthsGrow(year, first, last - 1);
    }
  }

  lemma {:induction false} YearsGrow(first: int, last: int)
    requires first < last
    ensures DaysBeforeYear(first) + DaysInYear(first) <= DaysBeforeYear(last)
    decreases last - first
  {
    YearLength(first);
    if first + 1 < last {
      YearsGrow(first + 1, last);
    }
  }

  /** Ordinals order dates as the calendar does, so they determine them. */
  lemma OrdinalMonotone(a: Date, b: Date)
    requires Valid(a) && Valid(b)
    ensures Before(a, b) <==> Ordinal(a) < Ordinal(b)
    ensures Ordinal(a) == Ordinal(b) ==> a == b
  {
    if Before(a, b) { OrdinalGrows(a, b); }
    if Before(b, a) { OrdinalGrows(b, a); }
  }

  lemma OrdinalGrows(a: Date, b: Date)
    requires Valid(a) && Valid(b) && Before(a, b)
    ensures Ordinal(a) < Ordinal(b)
  {
    if a.year < b.year {
      YearsGrow(a.year, b.year);
      MonthsFill(a.year, 12);
      if a.month < 12 {
        MonthsGrow(a.year, a.month, 12);
      }
      MonthsPositive(b.year, b.month);
    } else if a.month < b.month {
      MonthsGrow(a.year, a.month, b.month);
    }
  }

  lemma {:induction false} MonthsPositive(year: int, month: int)
    requires 1 <= month <= 12
    ensures 0 <= DaysBeforeMonth(year, month)
    decreases month
  {
    if month > 1 {
      MonthsPositive(year, month - 1);
    }
  }

  lemma OrdinalAtEnd(date: Date)
    requires Valid(date) && date.year == MAX_YEAR && date.month == 12
    ensures Ordinal(date) == MAX_ORDINAL - 31 + date.day
  {
  }

  lemma RangeBetween(date: Date, first: Date, last: Date)
    requires Valid(date)
    requires first.year == MIN_YEAR && first.month == 1 && first.day == 1
    requires last.year == MAX_YEAR && last.month == 12 && last.day == 31
    ensures InRange(date) <==> 1 <= Ordinal(date) <= MAX_ORDINAL
  {
    OrdinalAtEnd(last);
    OrdinalMonotone(date, first);
    OrdinalMonotone(last, date);
  }

  lemma RangeByOrdinal(date: Date)
    requires Valid(date)
    ensures InRange(date) <==> 1 <= Ordinal(date) <= MAX_ORDINAL
  {
    RangeBetween(date, Date(MIN_YEAR, 1, 1), Date(MAX_YEAR, 12, 31));
  }

  /** Ordinal of the Monday on or before the day with ordinal `n`. */
  function MondayOf(n: int): int {
    n - (n + 6) % 7
  }

  lemma Weeks(n: int, m: int)
    ensures (MondayOf(n) + 6) % 7 == 0
    ensures n >= 1 ==> MondayOf(n) >= 1
    ensures MondayOf(n) <= m < MondayOf(n) + 7 ==> MondayOf(m) == MondayOf(n)
    ensures n <= MAX_ORDINAL ==> (MondayOf(n) + 7 <= MAX_ORDINAL <==> n < MAX_ORDINAL - 4)
  {
  }

  /** A date is fixed by its ordinal, so `AddDays` is the only date so many days later. */
  lemma AddDaysUnique(date: Date, days: int, other: Date)
    requires Valid(date) && Valid(other)
    ensures AddDays(date, days) == other <==> Ordinal(other) == Ordinal(date) + days
  {
    AddDaysOrdinal(date, days);
    OrdinalMonotone(AddDays(date, days), other);
  }

  // ---------------------------------------------------------------------------
  // Instants and period windows
  // ---------------------------------------------------------------------------

  /** A UTC datetime: a date and the microseconds since its midnight. */
  datatype Instant = Instant(date: Date, micros: int)

  predicate ValidInstant(instant: Instant) {
    Valid(instant.date) && InRange(instant.date) && 0 <= instant.micros < DAY_MICROS
  }

  /** Microseconds on the time line, by which instants are compared. */
  function Timeline(instant: Instant): int
    requires Valid(instant.date)
  {
    Ordinal(instant.date) * DAY_MICROS + instant.micros
  }

  datatype Overflow = Overflow

  /** `instant + timedelta(days=days)`, which raises outside the years 1 to 9999. */
  function Shift(instant: Instant, days: int): (shifted: Result<Instant, Overflow>)
    requires Valid(instant.date)
  {
    var date := AddDays(instant.date, days);
    if InRange(date) then Ok(Instant(date, instant.micros)) else Err(Overflow)
  }

  datatype Window = Window(start: Instant, end: Instant)

  predicate Within(window: Window, instant: Instant)
    requires Valid(window.start.date) && Valid(window.end.date) && Valid(instant.date)
  {
    Timeline(window.start) <= Timeline(instant) < Timeline(window.end)
  }

  function TodayBounds(now: Instant): (bounds: Result<Window, Overflow>)
    requires ValidInstant(now)
  {
    var midnight := Instant(now.date, 0);
    match Shift(midnight, 1)
    case Err(e) => Err(e)
    case Ok(end) => Ok(Window(midnight, end))
  }

  function WeekBounds(now: Instant): (bounds: Result<Window, Overflow>)
    requires ValidInstant(now)
  {
    match Shift(Instant(now.date, 0), -Weekday(now.date))
    case Err(e) => Err(e)
    case Ok(start) =>
      match Shift(start, 7)
      case Err(e) => Err(e)
      case Ok(end) => Ok(Window(start, end))
  }

  function MonthBounds(now: Instant): (bounds: Result<Window, Overflow>)
    requires ValidInstant(now)
  {
    var start := Instant(now.date.(day := 1), 0);
    match Shift(Instant(start.date.(day := 28), 0), 4)
    case Err(e) => Err(e)
    case Ok(spill) => Ok(Window(start, Instant(spill.date.(day := 1), 0)))
  }

  /** `period_bounds`; no window stands for all time. */
  function PeriodBounds(period: string, now: Instant): (bounds: Result<Option<Window>, Overflow>)
    requires ValidInstant(now)
  {
    if period !in ["today", "week", "month"] then Ok(None)
    else
      match (if period == "today" then TodayBounds(now)
             else if period == "week" then WeekBounds(now)
             else MonthBounds(now))
      case Err(e) => Err(e)
      case Ok(window) => Ok(Some(window))
  }

  function FirstOfNextMonth(date: Date): Date {
    if date.month < 12 then Date(date.year, date.month + 1, 1) else Date(date.year + 1, 1, 1)
  }

  /** Four days after the 28th is always in the next month, and in no later one. */
  lemma MonthSpill(date: Date)
    requires Valid(date)
    ensures AddDays(date.(day := 28), 4).(day := 1) == FirstOfNextMonth(date)
  {
    var twentyNinth := NextDay(date.(day := 28));
    var thirtieth := NextDay(twentyNinth);
    var thirtyFirst := NextDay(thirtieth);
    var spill := NextDay(thirtyFirst);
    assert AddDays(thirtyFirst, 1) == AddDays(spill, 0) == spill;
    assert AddDays(thirtieth, 2) == spill;
    assert AddDays(twentyNinth, 3) == spill;
  }

  /** The Monday on or before the date. */
  function ThisMonday(date: Date): (monday: Date)
    requires Valid(date)
    ensures Valid(monday)
  {
    AddDays(date, -Weekday(date))
  }

  lemma MondayOrdinal(date: Date)
    requires Valid(date)
    ensures Weekday(ThisMonday(date)) == 0
    ensures Ordinal(ThisMonday(date)) == MondayOf(Ordinal(date))
    ensures Ordinal(AddDays(ThisMonday(date), 7)) == MondayOf(Ordinal(date)) + 7
  {
    AddDaysOrdinal(date, -Weekday(date));
    AddDaysOrdinal(ThisMonday(date), 7);
    Weeks(Ordinal(date), Ordinal(date));
  }

  lemma MondayInRange(date: Date)
    requires Valid(date) && InRange(date)
    ensures InRange(ThisMonday(date))
  {
    MondayOrdinal(date);
    Weeks(Ordinal(date), Ordinal(date));
    RangeByOrdinal(date);
    RangeByOrdinal(ThisMonday(date));
  }

  predicate LastDays(date: Date) {
    date.year == MAX_YEAR && date.month == 12 && date.day >= 27
  }

  lemma LastWeek(date: Date, lastMonday: Date)
    requires Valid(date) && InRange(date)
    requires lastMonday.year == MAX_YEAR && lastMonday.month == 12 && lastMonday.day == 27
    ensures LastDays(date) <==> Ordinal(date) >= MAX_ORDINAL - 4
  {
    OrdinalAtEnd(lastMonday);
    OrdinalMonotone(date, lastMonday);
  }

  lemma TodayMeaning(now: Instant)
    requires ValidInstant(now)
    ensures
      var bounds := TodayBounds(now);
      && (bounds.Err? <==> now.date == Date(MAX_YEAR, 12, 31))
      && (bounds.Ok? ==> bounds.value == Window(Instant(now.date, 0), Instant(NextDay(now.date), 0)))
      && Ordinal(NextDay(now.date)) == Ordinal(now.date) + 1
  {
    NextOrdinal(now.date);
    assert AddDays(now.date, 1) == AddDays(NextDay(now.date), 0) == NextDay(now.date);
  }

  lemma NextMondayInRange(date: Date)
    requires Valid(date) && InRange(date)
    ensures InRange(AddDays(ThisMonday(date), 7)) <==> !LastDays(date)
  {
    MondayOrdinal(date);
    Weeks(Ordinal(date), Ordinal(date));
    RangeByOrdinal(date);
    RangeByOrdinal(AddDays(ThisMonday(date), 7));
    LastWeek(date, Date(MAX_YEAR, 12, 27));
  }

  /** The week runs from the Monday on or before `now` to the next Monday, seven days later. */
  lemma WeekMeaning(now: Instant)
    requires ValidInstant(now)
    ensures
      var bounds := WeekBounds(now);
      var monday := ThisMonday(now.date);
      var next := AddDays(monday, 7);
      && (bounds.Err? <==> LastDays(now.date))
      && (bounds.Ok? ==> InRange(next) && bounds.value == Window(Instant(monday, 0), Instant(next, 0)))
      && InRange(monday)
  {
    hide Weekday, AddDays;
    MondayInRange(now.date);
    NextMondayInRange(now.date);
  }

  lemma MonthMeaning(now: Instant)
    requires ValidInstant(now)
    ensures
      var bounds := MonthBounds(now);
      var first := now.date.(day := 1);
      && (bounds.Err? <==> now.date.year == MAX_YEAR && now.date.month == 12)
      && (bounds.Ok? ==> bounds.value == Window(Instant(first, 0), Instant(FirstOfNextMonth(now.date), 0)))
      && Ordinal(first) <= Ordinal(now.date) < Ordinal(FirstOfNextMonth(now.date))
  {
    MonthSpill(now.date);
    OrdinalMonotone(now.date, now.date.(day := 1));
    OrdinalMonotone(now.date, FirstOfNextMonth(now.date));
  }

  /**
    Every window contains the instant it was asked for, between midnights; there
    is none exactly where it would have to end after the last representable day.
   */
  lemma WindowMeaning(period: string, now: Instant)
    requires ValidInstant(now)
    requires period == "today" || period == "week" || period == "month"
    ensures
      var bounds := PeriodBounds(period, now);
      var atTheEnd := now.date.year == MAX_YEAR && now.date.month == 12 &&
        (period == "today" ==> now.date.day == 31) && (period == "week" ==> now.date.day >= 27);
      && (bounds.Err? <==> atTheEnd)
      && (bounds.Ok? ==>
            && bounds.value.Some?
            && var window := bounds.value.value;
            && ValidInstant(window.start) && ValidInstant(window.end)
            && window.start.micros == 0 && window.end.micros == 0
            && Within(window, now))
  {
    hide Weekday, AddDays;
    if period == "today" {
      TodayMeaning(now);
    } else if period == "week" {
      WeekMeaning(now);
      MondayOrdinal(now.date);
    } else {
      MonthMeaning(now);
    }
  }

  /** Every instant inside a window has that very window as its own. */
  lemma WindowShared(period: string, now: Instant, other: Instant)
    requires period == "today" || period == "week" || period == "month"
    requires ValidInstant(now) && ValidInstant(other)
    requires PeriodBounds(period, now).Ok?
    requires PeriodBounds(period, now).value.Some?
    requires Within(PeriodBounds(period, now).value.value, other)
    ensures PeriodBounds(period, other) == PeriodBounds(period, now)
  {
    if period == "today" {
      TodayShared(now, other);
    } else if period == "week" {
      WeekShared(now, other);
    } else {
      MonthShared(now, other);
    }
  }

  lemma SameMonday(a: Date, b: Date)
    requires Valid(a) && Valid(b)
    requires MondayOf(Ordinal(a)) <= Ordinal(b) < MondayOf(Ordinal(a)) + 7
    ensures ThisMonday(a) == ThisMonday(b)
  {
    MondayOrdinal(a);
    MondayOrdinal(b);
    Weeks(Ordinal(a), Ordinal(b));
    OrdinalMonotone(ThisMonday(a), ThisMonday(b));
  }

  lemma WithinWeek(now: Instant, other: Instant)
    requires ValidInstant(now) && ValidInstant(other)
    requires WeekBounds(now).Ok? && Within(WeekBounds(now).value, other)
    ensures MondayOf(Ordinal(now.date)) <= Ordinal(other.date) < MondayOf(Ordinal(now.date)) + 7
  {
    WeekMeaning(now);
    MondayOrdinal(now.date);
  }

  lemma TodayShared(now: Instant, other: Instant)
    requires ValidInstant(now) && ValidInstant(other)
    requires TodayBounds(now).Ok? && Within(TodayBounds(now).value, other)
    ensures TodayBounds(other) == TodayBounds(now)
  {
    TodayMeaning(now);
    assert Ordinal(now.date) <= Ordinal(other.date) < Ordinal(now.date) + 1;
    OrdinalMonotone(now.date, other.date);
  }

  lemma WeekShared(now: Instant, other: Instant)
    requires ValidInstant(now) && ValidInstant(other)
    requires WeekBounds(now).Ok? && Within(WeekBounds(now).value, other)
    ensures WeekBounds(other) == WeekBounds(now)
  {
    hide Weekday, AddDays;
    WithinWeek(now, other);
    SameMonday(now.date, other.date);
  }

  lemma MonthShared(now: Instant, other: Instant)
    requires ValidInstant(now) && ValidInstant(other)
    requires MonthBounds(now).Ok? && Within(MonthBounds(now).value, other)
    ensures MonthBounds(other) == MonthBounds(now)
  {
    MonthMeaning(now);
    var first, next := now.date.(day := 1), FirstOfNextMonth(now.date);
    assert Ordinal(first) <= Ordinal(other.date) < Ordinal(next);
    OrdinalMonotone(other.date, first);
    OrdinalMonotone(other.date, next);
  }

  /** The windows of one period kind tile the time line: two of them are equal or do not overlap. */
  lemma WindowsTile(period: string, a: Instant, b: Instant)
    requires period == "today" || period == "week" || period == "month"
    requires ValidInstant(a) && ValidInstant(b)
    requires PeriodBounds(period, a).Ok? && PeriodBounds(period, b).Ok?
    ensures PeriodBounds(period, a).value.Some? && PeriodBounds(period, b).value.Some?
    ensures
      var first, second := PeriodBounds(period, a).value.value, PeriodBounds(period, b).value.value;
      && Valid(first.start.date) && Valid(first.end.date) && Valid(second.start.date) && Valid(second.end.date)
      && (first == second
          || Timeline(first.end) <= Timeline(second.start)
          || Timeline(second.end) <= Timeline(first.start))
  {
    WindowMeaning(period, a);
    WindowMeaning(period, b);
    var first, second := PeriodBounds(period, a).value.value, PeriodBounds(period, b).value.value;
    if Timeline(first.start) <= Timeline(second.start) < Timeline(first.end) {
      WindowShared(period, a, second.start);
      WindowShared(period, b, second.start);
    } else if Timeline(second.start) <= Timeline(first.start) < Timeline(second.end) {
      WindowShared(period, b, first.start);
      WindowShared(period, a, first.start);
    }
  }
}
