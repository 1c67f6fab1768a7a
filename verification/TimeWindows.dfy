/** From "last month" or "Monday morning" to an inclusive pair of UTC instants, for a time zone with a
    fixed offset. Instants are microseconds; day 0 is the first of January of year 1, a Monday. */
module TimeWindows {
  import opened Leases

  const DAY := 86400000000
  const HOUR := 3600000000

  // --- the calendar ---------------------------------------------------------------------

  predicate IsLeap(year: nat) {
    year % 4 == 0 && (year % 100 != 0 || year % 400 == 0)
  }

  function DaysBeforeYear(year: nat): nat
    requires year >= 1
  {
    var y := year - 1;
    y * 365 + y / 4 - y / 100 + y / 400
  }

  function YearLength(year: nat): nat {
    if IsLeap(year) then 366 else 365
  }

  function MonthLength(year: nat, month: nat): nat {
    if month == 2 then (if IsLeap(year) then 29 else 28)
    else if month in {4, 6, 9, 11} then 30 else 31
  }

  function DaysBeforeMonth(year: nat, month: nat): nat
    requires month >= 1
  {
    if month == 1 then 0 else DaysBeforeMonth(year, month - 1) + MonthLength(year, month - 1)
  }

  lemma NextFour(y: nat)
    ensures (y + 1) / 4 - y / 4 == if (y + 1) % 4 == 0 then 1 else 0
  {
  }

  lemma NextCentury(y: nat)
    ensures (y + 1) / 100 - y / 100 == if (y + 1) % 100 == 0 then 1 else 0
    ensures (y + 1) % 100 == 0 ==> (y + 1) % 4 == 0
  {
    var c := (y + 1) / 100;
    assert (y + 1) % 100 == 0 ==> y + 1 == 4 * (25 * c);
  }

  lemma NextFourCenturies(y: nat)
    ensures (y + 1) / 400 - y / 400 == if (y + 1) % 400 == 0 then 1 else 0
    ensures (y + 1) % 400 == 0 ==> (y + 1) % 100 == 0
  {
    var c := (y + 1) / 400;
    assert (y + 1) % 400 == 0 ==> y + 1 == 100 * (4 * c);
  }

  lemma YearsFollowEachOther(year: nat)
    requires year >= 1
    ensures DaysBeforeYear(year + 1) == DaysBeforeYear(year) + YearLength(year)
  {
    NextFour(year - 1);
    NextCentury(year - 1);
    NextFourCenturies(year - 1);
  }

  lemma MonthsFollowEachOther(year: nat, month: nat)
    requires month >= 1
    ensures DaysBeforeMonth(year, month + 1) == DaysBeforeMonth(year, month) + MonthLength(year, month)
  {
  }

  lemma MonthsFillTheYear(year: nat)
    ensures DaysBeforeMonth(year, 13) == YearLength(year)
  {
    hide IsLeap, DaysBeforeMonth;
    assert DaysBeforeMonth(year, 1) == 0 by { FirstMonth(year); }
    for month := 1 to 13
      invariant DaysBeforeMonth(year, month) == Days(month) + (if month > 2 && IsLeap(year) then 1 else 0)
    {
      MonthsFollowEachOther(year, month);
    }
  }

  lemma FirstMonth(year: nat)
    ensures DaysBeforeMonth(year, 1) == 0
  {
  }

  /** Days before a month of a common year. */
  function Days(month: nat): nat
    requires 1 <= month <= 13
  {
    [0, 31, 59, 90, 120, 151, 181, 212, 243, 273, 304, 334, 365][month - 1]
  }

  lemma {:induction false} LaterYearsStartLater(a: nat, b: nat)
    requires 1 <= a <= b
    ensures DaysBeforeYear(a) + 365 * (b - a) <= DaysBeforeYear(b)
    decreases b
  {
    if a < b {
      LaterYearsStartLater(a, b - 1);
      YearsFollowEachOther(b - 1);
    }
  }

  lemma {:induction false} LaterMonthsStartLater(year: nat, a: nat, b: nat)
    requires 1 <= a <= b
    ensures DaysBeforeMonth(year, a) + 28 * (b - a) <= DaysBeforeMonth(year, b)
  {
    if a < b {
      LaterMonthsStartLater(year, a, b - 1);
    }
  }

  /** The year that a day lies in. */
  function YearOf(day: nat): (y: nat)
    ensures y >= 1 && DaysBeforeYear(y) <= day < DaysBeforeYear(y + 1)
  {
    YearFrom(day, 1)
  }

  function YearFrom(day: nat, year: nat): (y: nat)
    requires year >= 1 && DaysBeforeYear(year) <= day
    ensures y >= 1 && DaysBeforeYear(y) <= day < DaysBeforeYear(y + 1)
    decreases day - DaysBeforeYear(year)
  {
    YearsFollowEachOther(year);
    if day < DaysBeforeYear(year + 1) then year else YearFrom(day, year + 1)
  }

  function MonthOf(day: nat): (m: nat)
    ensures 1 <= m <= 12 && MonthStart(YearOf(day), m) <= day < MonthStart(YearOf(day), m + 1)
  {
    MonthsFillTheYear(YearOf(day));
    YearsFollowEachOther(YearOf(day));
    MonthFrom(YearOf(day), day, 1)
  }

  function MonthFrom(year: nat, day: nat, month: nat): (m: nat)
    requires year >= 1 && 1 <= month <= 12 && MonthStart(year, month) <= day < MonthStart(year, 13)
    ensures 1 <= m <= 12 && MonthStart(year, m) <= day < MonthStart(year, m + 1)
    decreases 12 - month
  {
    if day < MonthStart(year, month + 1) then month else MonthFrom(year, day, month + 1)
  }

  /** The first day of a month; month 13 is the January after. */
  function MonthStart(year: nat, month: nat): nat
    requires year >= 1 && month >= 1
  {
    DaysBeforeYear(year) + DaysBeforeMonth(year, month)
  }

  lemma MonthThirteenIsJanuary(year: nat)
    requires year >= 1
    ensures MonthStart(year, 13) == MonthStart(year + 1, 1)
  {
    MonthsFillTheYear(year);
    YearsFollowEachOther(year);
  }

  /** The lengths of the months, one by one. */
  lemma MonthsHaveTheirLengths(year: nat, month: nat)
    requires year >= 1 && 1 <= month <= 12
    ensures var leap := year % 400 == 0 || (year % 4 == 0 && year % 100 != 0);
            MonthStart(year, month + 1) - MonthStart(year, month)
            == [31, if leap then 29 else 28, 31, 30, 31, 30, 31, 31, 30, 31, 30, 31][month - 1]
  {
    hide DaysBeforeYear, DaysBeforeMonth, MonthLength;
    MonthsFollowEachOther(year, month);
    LengthsOfTheMonths(year, month);
  }

  lemma LengthsOfTheMonths(year: nat, month: nat)
    requires 1 <= month <= 12
    ensures var leap := year % 400 == 0 || (year % 4 == 0 && year % 100 != 0);
            MonthLength(year, month) == [31, if leap then 29 else 28, 31, 30, 31, 30, 31, 31, 30, 31, 30, 31][month - 1]
  {
    assert year % 400 == 0 ==> year % 4 == 0 by {
      assert year == 400 * (year / 400) + year % 400;
      assert year % 400 == 0 ==> year == 4 * (100 * (year / 400));
    }
  }

  /** Days are counted from Monday, the first of January of year 1: the first of January 1970 is day 719162,
      a Thursday. */
  lemma TheEpochIsAThursday()
    ensures MonthStart(1, 1) == 0 && WeekdayOf(0) == 0
    ensures MonthStart(1970, 1) == 719162 && WeekdayOf(719162) == 3
  {
  }

  lemma YearIsUnique(day: nat, year: nat)
    requires year >= 1 && DaysBeforeYear(year) <= day < DaysBeforeYear(year + 1)
    ensures YearOf(day) == year
  {
    hide DaysBeforeYear;
    if YearOf(day) < year {
      LaterYearsStartLater(YearOf(day) + 1, year);
    } else if year < YearOf(day) {
      LaterYearsStartLater(year + 1, YearOf(day));
    }
  }

  lemma MonthIsUnique(day: nat, year: nat, month: nat)
    requires year >= 1 && 1 <= month <= 12 && MonthStart(year, month) <= day < MonthStart(year, month + 1)
    ensures YearOf(day) == year && MonthOf(day) == month
  {
    hide DaysBeforeYear, DaysBeforeMonth;
    FirstMonth(year);
    FirstMonth(year + 1);
    LaterMonthsStartLater(year, 1, month);
    LaterMonthsStartLater(year, month + 1, 13);
    MonthThirteenIsJanuary(year);
    YearIsUnique(day, year);
    if MonthOf(day) < month {
      LaterMonthsStartLater(year, MonthOf(day) + 1, month);
    } else if month < MonthOf(day) {
      LaterMonthsStartLater(year, month + 1, MonthOf(day));
    }
  }

  // --- the windows ----------------------------------------------------------------------

  datatype Kind =
    | Today | Yesterday | ThisWeek | LastWeek | ThisMonth | LastMonth | ThisYear | LastYear
    | PastDays(days: Option<int>) | Weekday(weekday: Option<int>)

  datatype Period = FullDay | Morning | Afternoon | Evening

  datatype Intent = Intent(kind: Kind, period: Option<Period>)

  datatype Window = Window(from: int, to: int)

  /** The local calendar day and the time of day of an instant. */
  function DayAt(t: int): int { t / DAY }

  function WeekdayOf(day: int): int { day % 7 }

  /** From the first instant of one day to the last of another. */
  function WholeDays(first: int, last: int): Window {
    Window(first * DAY, last * DAY + DAY - 1)
  }

  function LocalWindow(kind: Kind, now: nat): Window
    requires YearOf(DayAt(now)) >= 2
  {
    var today := DayAt(now);
    var year, month := YearOf(today), MonthOf(today);
    match kind
    case Today => WholeDays(today, today)
    case Yesterday => WholeDays(today - 1, today - 1)
    case ThisWeek => var monday := today - WeekdayOf(today); WholeDays(monday, monday + 6)
    case LastWeek => var monday := today - (WeekdayOf(today) + 7); WholeDays(monday, monday + 6)
    case ThisMonth =>
      var next := if month == 12 then MonthStart(year + 1, 1) else MonthStart(year, month + 1);
      Window(MonthStart(year, month) * DAY, next * DAY - 1)
    case LastMonth =>
      var end := MonthStart(year, month) * DAY - 1;
      var last := DayAt(end);
      LaterYearsStartLater(2, year);
      Window(MonthStart(YearOf(last), MonthOf(last)) * DAY, end)
    case ThisYear => WholeDays(MonthStart(year, 1), MonthStart(year, 12) + 30)
    case LastYear => WholeDays(MonthStart(year - 1, 1), MonthStart(year - 1, 12) + 30)
    case PastDays(days) =>
      var n := if days.Some? && days.value != 0 then days.value else 1;
      Window((today - n) * DAY, now)
    case Weekday(weekday) =>
      var target := if weekday.Some? then weekday.value else 0;
      var back := (WeekdayOf(today) - target) % 7;
      WholeDays(today - back, today - back)
  }

  /** Replace the time of day. */
  function AtTime(t: int, timeOfDay: int): int {
    DayAt(t) * DAY + timeOfDay
  }

  function Refine(w: Window, period: Option<Period>): Window {
    match period
    case Some(Morning) => Window(AtTime(w.from, 6 * HOUR), AtTime(w.to, 12 * HOUR - 1))
    case Some(Afternoon) => Window(AtTime(w.from, 12 * HOUR), AtTime(w.to, 18 * HOUR - 1))
    case Some(Evening) => Window(AtTime(w.from, 18 * HOUR), AtTime(w.to, 24 * HOUR - 1))
    case _ => w
  }

  /** Inclusive UTC boundaries of an intent at an instant, in a zone that is ahead by the offset. */
  function Translate(intent: Intent, offset: int, nowUtc: int): Window
    requires nowUtc + offset >= 0 && YearOf(DayAt(nowUtc + offset)) >= 2
  {
    var local := Refine(LocalWindow(intent.kind, nowUtc + offset), intent.period);
    Window(local.from - offset, local.to - offset)
  }

  predicate Contains(w: Window, t: int) { w.from <= t <= w.to }

  // --- what they mean -------------------------------------------------------------------

  /** Months counted through the years. */
  function MonthNumber(day: nat): int { YearOf(day) * 12 + MonthOf(day) }

  /** Which local instants a whole-day intent is about, by the calendar alone. */
  predicate Means(kind: Kind, now: nat, t: nat) {
    var today, day := DayAt(now), DayAt(t);
    match kind
    case Today => day == today
    case Yesterday => day == today - 1
    case ThisWeek => day / 7 == today / 7
    case LastWeek => day / 7 == today / 7 - 1
    case ThisMonth => MonthNumber(day) == MonthNumber(today)
    case LastMonth => MonthNumber(day) == MonthNumber(today) - 1
    case ThisYear => YearOf(day) == YearOf(today)
    case LastYear => YearOf(day) == YearOf(today) - 1
    case PastDays(days) =>
      today - (if days.Some? && days.value != 0 then days.value else 1) <= day && t <= now
    case Weekday(weekday) =>
      var target := if weekday.Some? then weekday.value else 0;
      today - 6 <= day <= today && (WeekdayOf(day) - target) % 7 == 0
  }

  lemma WholeDaysContain(first: int, last: int, t: int)
    ensures Contains(WholeDays(first, last), t) <==> first <= DayAt(t) <= last
  {
  }

  lemma OnlyMatchingDay(today: int, day: int, target: int)
    requires today - 6 <= day <= today
    ensures (WeekdayOf(day) - target) % 7 == 0 <==> day == today - (WeekdayOf(today) - target) % 7
  {
    var back := (WeekdayOf(today) - target) % 7;
    var k := (WeekdayOf(today) - target) / 7;
    assert today % 7 - target == 7 * k + back;
    assert today == 7 * (today / 7) + today % 7 && day == 7 * (day / 7) + day % 7;
    var j := today - day;
    assert day % 7 - target == 7 * (k + today / 7 - day / 7) + back - j;
    MultipleOfSeven(day % 7 - target, k + today / 7 - day / 7, back - j);
  }

  lemma MultipleOfSeven(x: int, k: int, r: int)
    requires x == 7 * k + r && -7 < r < 7
    ensures x % 7 == 0 <==> r == 0
  {
  }

  /** A day belongs to a month exactly when it lies between the first and the first of the next. */
  lemma InMonth(day: nat, year: nat, month: nat)
    requires year >= 1 && 1 <= month <= 12
    ensures MonthStart(year, month) <= day < MonthStart(year, month + 1) <==>
              YearOf(day) == year
              && MonthOf(day) == month
  {
    hide MonthStart, YearOf, MonthOf;
    if MonthStart(year, month) <= day < MonthStart(year, month + 1) {
      MonthIsUnique(day, year, month);
    }
    MonthBounds(day);
  }

  lemma MonthBounds(day: nat)
    ensures MonthStart(YearOf(day), MonthOf(day)) <= day < MonthStart(YearOf(day), MonthOf(day) + 1)
  {
  }

  lemma SameMonthNumber(a: nat, year: nat, month: nat)
    requires 1 <= month <= 12
    ensures MonthNumber(a) == year * 12 + month <==> YearOf(a) == year && MonthOf(a) == month
  {
    hide YearOf, MonthOf;
    assert 1 <= MonthOf(a) <= 12 by { MonthInRange(a); }
  }

  lemma MonthInRange(day: nat)
    ensures 1 <= MonthOf(day) <= 12 && YearOf(day) >= 1
  {
  }

  lemma BeforeJanuary(year: nat)
    requires year >= 2
    ensures var first := MonthStart(year, 1);
            first >= 1 && YearOf(first - 1) == year - 1 && MonthOf(first - 1) == 12 && MonthStart(year - 1, 13) == first
  {
    LaterYearsStartLater(2, year);
    MonthThirteenIsJanuary(year - 1);
    MonthsFollowEachOther(year - 1, 12);
    hide DaysBeforeYear, DaysBeforeMonth, YearOf, MonthOf;
    FirstMonth(year);
    MonthIsUnique(MonthStart(year, 1) - 1, year - 1, 12);
  }

  lemma BeforeAnotherMonth(year: nat, month: nat)
    requires year >= 1 && 2 <= month <= 12
    ensures var first := MonthStart(year, month);
            first >= 1 && YearOf(first - 1) == year && MonthOf(first - 1) == month - 1
  {
    hide DaysBeforeYear, DaysBeforeMonth, YearOf, MonthOf;
    LaterMonthsStartLater(year, month - 1, month);
    MonthIsUnique(MonthStart(year, month) - 1, year, month - 1);
  }

  /** The month before, across the turn of the year. */
  lemma LastDayOfTheMonthBefore(day: nat)
    requires YearOf(day) >= 2
    ensures var first := MonthStart(YearOf(day), MonthOf(day));
            && first >= 1
            && MonthNumber(first - 1) == MonthNumber(day) - 1
            && MonthStart(YearOf(first - 1), MonthOf(first - 1) + 1) == first
  {
    hide MonthStart, YearOf, MonthOf;
    MonthInRange(day);
    if MonthOf(day) == 1 {
      BeforeJanuary(YearOf(day));
    } else {
      BeforeAnotherMonth(YearOf(day), MonthOf(day));
    }
  }

  lemma ThisMonthMeans(now: nat, t: nat)
    requires YearOf(DayAt(now)) >= 2
    ensures Contains(LocalWindow(ThisMonth, now), t) <==> Means(ThisMonth, now, t)
  {
    hide MonthStart, YearOf, MonthOf;
    var today := DayAt(now);
    var year, month := YearOf(today), MonthOf(today);
    MonthInRange(today);
    MonthThirteenIsJanuary(year);
    InMonth(DayAt(t), year, month);
    SameMonthNumber(DayAt(t), year, month);
  }

  lemma LastMonthWindow(now: nat)
    requires YearOf(DayAt(now)) >= 2
    ensures var first := MonthStart(YearOf(DayAt(now)), MonthOf(DayAt(now)));
            first >= 1
            && LocalWindow(LastMonth, now) == WholeDays(MonthStart(YearOf(first - 1), MonthOf(first - 1)), first - 1)
  {
    hide MonthStart, YearOf, MonthOf;
    LastDayOfTheMonthBefore(DayAt(now));
    LastInstantOfTheDayBefore(MonthStart(YearOf(DayAt(now)), MonthOf(DayAt(now))));
  }

  lemma LastInstantOfTheDayBefore(day: int)
    ensures DayAt(day * DAY - 1) == day - 1
  {
  }

  lemma LastMonthMeans(now: nat, t: nat)
    requires YearOf(DayAt(now)) >= 2
    ensures Contains(LocalWindow(LastMonth, now), t) <==> Means(LastMonth, now, t)
  {
    hide MonthStart, YearOf, MonthOf, LocalWindow, MonthNumber, WholeDays;
    LastMonthWindow(now);
    LastDayOfTheMonthBefore(DayAt(now));
    var last := MonthStart(YearOf(DayAt(now)), MonthOf(DayAt(now))) - 1;
    WholeDaysContain(MonthStart(YearOf(last), MonthOf(last)), last, t);
    MonthInRange(last);
    InMonth(DayAt(t), YearOf(last), MonthOf(last));
    SameMonthNumber(DayAt(t), YearOf(last), MonthOf(last));
    SameMonthNumber(last, YearOf(last), MonthOf(last));
  }

  /** The first and the last day of a year. */
  lemma YearSpan(year: nat, day: nat)
    requires year >= 1
    ensures MonthStart(year, 1) <= day <= MonthStart(year, 12) + 30 <==> YearOf(day) == year
  {
    MonthsFollowEachOther(year, 12);
    MonthThirteenIsJanuary(year);
    FirstMonth(year + 1);
    if MonthStart(year, 1) <= day <= MonthStart(year, 12) + 30 {
      YearIsUnique(day, year);
    }
  }

  lemma YearsMean(now: nat, t: nat)
    requires YearOf(DayAt(now)) >= 2
    ensures Contains(LocalWindow(ThisYear, now), t) <==> Means(ThisYear, now, t)
    ensures Contains(LocalWindow(LastYear, now), t) <==> Means(LastYear, now, t)
  {
    hide MonthStart, YearOf;
    var year := YearOf(DayAt(now));
    YearSpan(year, DayAt(t));
    YearSpan(year - 1, DayAt(t));
    WholeDaysContain(MonthStart(year, 1), MonthStart(year, 12) + 30, t);
    WholeDaysContain(MonthStart(year - 1, 1), MonthStart(year - 1, 12) + 30, t);
  }

  /** Each window holds exactly the instants that the words mean by the calendar: the same week, the
      month before across a turn of the year, the most recent such weekday, and so on. */
  lemma WindowsMeanWhatTheySay(kind: Kind, now: nat, t: nat)
    requires YearOf(DayAt(now)) >= 2
    ensures Contains(LocalWindow(kind, now), t) <==> Means(kind, now, t)
  {
    hide MonthStart, YearOf, MonthOf;
    match kind
    case ThisMonth => ThisMonthMeans(now, t);
    case LastMonth => LastMonthMeans(now, t);
    case ThisYear => YearsMean(now, t);
    case LastYear => YearsMean(now, t);
    case Weekday(weekday) =>
      if DayAt(now) - 6 <= DayAt(t) <= DayAt(now) {
        OnlyMatchingDay(DayAt(now), DayAt(t), if weekday.Some? then weekday.value else 0);
      }
    case _ =>
  }

  function HourOf(t: int): int { t % DAY / HOUR }

  /** What a clock shows: the day and the hour of an instant in microseconds. */
  lemma ClockShows(day: int, hour: nat, minute: nat, second: nat, microsecond: nat)
    requires hour < 24 && minute < 60 && second < 60 && microsecond < 1000000
    ensures var t := (((day * 24 + hour) * 60 + minute) * 60 + second) * 1000000 + microsecond;
            DayAt(t) == day && HourOf(t) == hour
  {
    var rest := (minute * 60 + second) * 1000000 + microsecond;
    var t := day * DAY + (hour * HOUR + rest);
    assert t == (((day * 24 + hour) * 60 + minute) * 60 + second) * 1000000 + microsecond;
    assert 0 <= hour * HOUR + rest < DAY;
  }

  predicate InPeriod(period: Option<Period>, t: int) {
    match period
    case Some(Morning) => 6 <= HourOf(t) <= 11
    case Some(Afternoon) => 12 <= HourOf(t) <= 17
    case Some(Evening) => 18 <= HourOf(t) <= 23
    case _ => true
  }

  predicate OneDay(kind: Kind) {
    kind.Today? || kind.Yesterday? || kind.Weekday?
  }

  lemma PeriodOfADay(day: int, period: Option<Period>, t: int)
    ensures Contains(Refine(WholeDays(day, day), period), t) <==> DayAt(t) == day && InPeriod(period, t)
  {
    var timeOfDay := t % DAY;
    assert t == DayAt(t) * DAY + timeOfDay && 0 <= timeOfDay < DAY;
    assert AtTime(day * DAY, 6 * HOUR) == day * DAY + 6 * HOUR;
  }

  function DayMeant(kind: Kind, today: int): int
    requires OneDay(kind)
  {
    match kind
    case Today => today
    case Yesterday => today - 1
    case Weekday(weekday) => today - (WeekdayOf(today) - (if weekday.Some? then weekday.value else 0)) % 7
  }

  lemma OneDayIsAWholeDay(kind: Kind, now: nat)
    requires YearOf(DayAt(now)) >= 2 && OneDay(kind)
    ensures LocalWindow(kind, now) == WholeDays(DayMeant(kind, DayAt(now)), DayMeant(kind, DayAt(now)))
  {
    hide YearOf, MonthOf, WholeDays;
  }

  lemma NoPeriod(w: Window, period: Option<Period>, t: int)
    requires period in {None, Some(FullDay)}
    ensures Refine(w, period) == w && InPeriod(period, t)
  {
  }

  /** The days that the words name, by the calendar alone; past days end today. */
  predicate Names(kind: Kind, today: nat, day: int) {
    match kind
    case Today => day == today
    case Yesterday => day == today - 1
    case ThisWeek => day / 7 == today / 7
    case LastWeek => day / 7 == today / 7 - 1
    case ThisMonth => day >= 0 && MonthNumber(day) == MonthNumber(today)
    case LastMonth => day >= 0 && MonthNumber(day) == MonthNumber(today) - 1
    case ThisYear => day >= 0 && YearOf(day) == YearOf(today)
    case LastYear => day >= 0 && YearOf(day) == YearOf(today) - 1
    case PastDays(days) => today - (if days.Some? && days.value != 0 then days.value else 1) <= day <= today
    case Weekday(weekday) =>
      today - 6 <= day <= today && (WeekdayOf(day) - (if weekday.Some? then weekday.value else 0)) % 7 == 0
  }

  predicate PartOfDay(period: Option<Period>) {
    period.Some? && !period.value.FullDay?
  }

  /** The hours that bound a part of the day, both included. */
  function FirstHour(period: Option<Period>): int {
    match period case Some(Morning) => 6 case Some(Afternoon) => 12 case Some(Evening) => 18 case _ => 0
  }

  function LastHour(period: Option<Period>): int {
    match period case Some(Morning) => 11 case Some(Afternoon) => 17 case _ => 23
  }

  /** Which local instants an intent is about. A part of the day cuts the first named day at its start
      and the last one at its end; the days between stay whole, and today is not cut at the present. */
  predicate Covers(intent: Intent, now: nat, t: nat) {
    var today, day := DayAt(now), DayAt(t);
    if !PartOfDay(intent.period) then Means(intent.kind, now, t)
    else
      && Names(intent.kind, today, day)
      && (!Names(intent.kind, today, day - 1) ==> FirstHour(intent.period) <= HourOf(t))
      && (!Names(intent.kind, today, day + 1) ==> HourOf(t) <= LastHour(intent.period))
  }

  lemma FromADay(day: int, from: int)
    requires from == day * DAY
    ensures from == DayAt(from) * DAY
  {
  }

  lemma WindowStartsADay(kind: Kind, now: nat)
    requires YearOf(DayAt(now)) >= 2
    ensures LocalWindow(kind, now).from == DayAt(LocalWindow(kind, now).from) * DAY
  {
    if OneDay(kind) {
      OneDayIsAWholeDay(kind, now);
      FromADay(DayMeant(kind, DayAt(now)), LocalWindow(kind, now).from);
    } else if kind.LastMonth? {
      LastMonthWindow(now);
      var last := MonthStart(YearOf(DayAt(now)), MonthOf(DayAt(now))) - 1;
      hide DayAt, LocalWindow, YearOf, MonthOf, MonthStart;
      FromADay(MonthStart(YearOf(last), MonthOf(last)), LocalWindow(kind, now).from);
    } else {
      LongWindowStartsADay(kind, now);
    }
  }

  lemma LongWindowStartsADay(kind: Kind, now: nat)
    requires YearOf(DayAt(now)) >= 2 && !OneDay(kind) && !kind.LastMonth?
    ensures LocalWindow(kind, now).from == DayAt(LocalWindow(kind, now).from) * DAY
  {
    hide DayAt, YearOf, MonthOf, MonthStart, WeekdayOf;
    var today, from := DayAt(now), LocalWindow(kind, now).from;
    match kind
    case ThisWeek => FromADay(today - WeekdayOf(today), from);
    case LastWeek => FromADay(today - (WeekdayOf(today) + 7), from);
    case ThisMonth => FromADay(MonthStart(YearOf(today), MonthOf(today)), from);
    case ThisYear => FromADay(MonthStart(YearOf(today), 1), from);
    case LastYear => FromADay(MonthStart(YearOf(today) - 1, 1), from);
    case PastDays(days) => FromADay(today - (if days.Some? && days.value != 0 then days.value else 1), from);
  }

  lemma NamesAreMeant(kind: Kind, now: nat, day: nat)
    requires !kind.PastDays?
    ensures Means(kind, now, day * DAY) <==> Names(kind, DayAt(now), day)
  {
    hide MonthNumber, YearOf;
    assert DayAt(day * DAY) == day;
  }

  lemma PastDaysEndToday(kind: Kind, now: nat)
    requires YearOf(DayAt(now)) >= 2 && kind.PastDays?
    ensures DayAt(LocalWindow(kind, now).to) == DayAt(now)
    ensures DayAt(LocalWindow(kind, now).from)
            == DayAt(now) - (if kind.days.Some? && kind.days.value != 0 then kind.days.value else 1)
  {
  }

  lemma NamedDaysAreOnTheCalendar(kind: Kind, now: nat)
    requires YearOf(DayAt(now)) >= 2 && !kind.PastDays?
    ensures DayAt(LocalWindow(kind, now).from) >= 0 && !Names(kind, DayAt(now), -1)
  {
    LaterYearsStartLater(2, YearOf(DayAt(now)));
    hide YearOf, MonthOf, MonthNumber;
    if kind.LastMonth? {
      hide MonthStart;
      LastMonthWindow(now);
    }
  }

  /** A window runs from the first to the last day that the words name. */
  lemma NamedDaysAreTheWindow(kind: Kind, now: nat, day: int)
    requires YearOf(DayAt(now)) >= 2 && day >= -1
    ensures var w := LocalWindow(kind, now);
            Names(kind, DayAt(now), day) <==> DayAt(w.from) <= day <= DayAt(w.to)
  {
    hide LocalWindow, Means, YearOf;
    if kind.PastDays? {
      PastDaysEndToday(kind, now);
    } else {
      hide Names;
      NamedDaysAreOnTheCalendar(kind, now);
      if day >= 0 {
        WindowStartsADay(kind, now);
        NamesAreMeant(kind, now, day);
        WindowsMeanWhatTheySay(kind, now, day * DAY);
        StartsWithin(LocalWindow(kind, now), day);
      }
    }
  }

  lemma StartsWithin(w: Window, day: int)
    requires w.from == DayAt(w.from) * DAY
    ensures Contains(w, day * DAY) <==> DayAt(w.from) <= day <= DayAt(w.to)
  {
  }

  lemma PartOfARange(w: Window, period: Option<Period>, t: int)
    requires PartOfDay(period)
    ensures Contains(Refine(w, period), t) <==>
              && DayAt(w.from) <= DayAt(t) <= DayAt(w.to)
              && (DayAt(t) == DayAt(w.from) ==> FirstHour(period) <= HourOf(t))
              && (DayAt(t) == DayAt(w.to) ==> HourOf(t) <= LastHour(period))
  {
    var timeOfDay := t % DAY;
    assert t == DayAt(t) * DAY + timeOfDay && 0 <= timeOfDay < DAY;
  }

  /** From words to UTC: a UTC instant lies in the range of an intent exactly when, on the local clock,
      it is what the words mean; a part of the day narrows a single day down to its hours. */
  lemma TranslationMeansWhatItSays(intent: Intent, offset: int, nowUtc: int, t: int)
    requires nowUtc + offset >= 0 && YearOf(DayAt(nowUtc + offset)) >= 2 && t + offset >= 0
    ensures Contains(Translate(intent, offset, nowUtc), t) <==> Covers(intent, nowUtc + offset, t + offset)
    ensures OneDay(intent.kind) ==>
              (Contains(Translate(intent, offset, nowUtc), t)
               <==> Means(intent.kind, nowUtc + offset, t + offset) && InPeriod(intent.period, t + offset))
  {
    hide LocalWindow, Means, Names, Refine, InPeriod, YearOf, HourOf, FirstHour, LastHour;
    var now, local := nowUtc + offset, t + offset;
    WindowsMeanWhatTheySay(intent.kind, now, local);
    if PartOfDay(intent.period) {
      PartOfARange(LocalWindow(intent.kind, now), intent.period, local);
      NamedDaysAreTheWindow(intent.kind, now, DayAt(local) - 1);
      NamedDaysAreTheWindow(intent.kind, now, DayAt(local));
      NamedDaysAreTheWindow(intent.kind, now, DayAt(local) + 1);
    } else {
      NoPeriod(LocalWindow(intent.kind, now), intent.period, local);
    }
    if OneDay(intent.kind) {
      var day := DayMeant(intent.kind, DayAt(now));
      OneDayIsAWholeDay(intent.kind, now);
      PeriodOfADay(day, intent.period, local);
      WholeDaysContain(day, day, local);
    }
  }

  /** The last day, week, month and year end one microsecond before this one starts. */
  lemma LastEndsAsThisBegins(now: nat)
    requires YearOf(DayAt(now)) >= 2
    ensures LocalWindow(Yesterday, now).to + 1 == LocalWindow(Today, now).from
    ensures LocalWindow(LastWeek, now).to + 1 == LocalWindow(ThisWeek, now).from
    ensures LocalWindow(LastMonth, now).to + 1 == LocalWindow(ThisMonth, now).from
    ensures LocalWindow(LastYear, now).to + 1 == LocalWindow(ThisYear, now).from
  {
    hide MonthStart, YearOf, MonthOf;
    YearEnds(YearOf(DayAt(now)) - 1);
    LastDayOfTheMonthBefore(DayAt(now));
  }

  lemma YearEnds(year: nat)
    requires year >= 1
    ensures MonthStart(year, 12) + 31 == MonthStart(year + 1, 1)
  {
    MonthsFollowEachOther(year, 12);
    MonthThirteenIsJanuary(year);
  }

  /** Every "this" range contains the present instant. */
  lemma ThisContainsNow(kind: Kind, now: nat)
    requires YearOf(DayAt(now)) >= 2 && kind in {Today, ThisWeek, ThisMonth, ThisYear}
    ensures Contains(LocalWindow(kind, now), now)
  {
    WindowsMeanWhatTheySay(kind, now, now);
  }

  /** The seven weekday windows tile the last seven days: an instant lies in exactly one of them if it
      lies in those days, and in none otherwise. */
  lemma WeekdaysTileTheLastSevenDays(now: nat, t: nat)
    requires YearOf(DayAt(now)) >= 2
    ensures DayAt(now) - 6 <= DayAt(t) <= DayAt(now) <==> Contains(LocalWindow(Weekday(Some(WeekdayOf(DayAt(t)))),
                now), t)
    ensures forall w :: 0 <= w <= 6 && Contains(LocalWindow(Weekday(Some(w)), now), t) ==> w == WeekdayOf(DayAt(t))
  {
    hide LocalWindow;
    WindowsMeanWhatTheySay(Weekday(Some(WeekdayOf(DayAt(t)))), now, t);
    forall w | 0 <= w <= 6 && Contains(LocalWindow(Weekday(Some(w)), now), t) ensures w == WeekdayOf(DayAt(t)) {
      WindowsMeanWhatTheySay(Weekday(Some(w)), now, t);
    }
  }

  /** The ranges come out the right way round for every intent, period and offset, if and only if the
      intent does not ask for a negative number of past days; the schema admits only positive ones. */
  lemma FromIsBeforeToIffDaysAreNotNegative(intent: Intent, offset: int, nowUtc: int)
    requires nowUtc + offset >= 0 && YearOf(DayAt(nowUtc + offset)) >= 2
    ensures var w := Translate(intent, offset, nowUtc);
            w.from <= w.to <==> !(intent.kind.PastDays? && intent.kind.days.Some? && intent.kind.days.value < 0)
  {
    hide LocalWindow, Refine, YearOf;
    WindowSpansDays(intent.kind, nowUtc + offset);
    RefiningKeepsTheOrder(LocalWindow(intent.kind, nowUtc + offset), intent.period);
  }

  lemma RefiningKeepsTheOrder(w: Window, period: Option<Period>)
    ensures DayAt(w.from) <= DayAt(w.to) && w.from <= w.to ==> Refine(w, period).from <= Refine(w, period).to
    ensures DayAt(w.from) > DayAt(w.to) && w.from > w.to ==> Refine(w, period).from > Refine(w, period).to
  {
  }

  lemma WindowSpansDays(kind: Kind, now: nat)
    requires YearOf(DayAt(now)) >= 2
    ensures var w, backwards := LocalWindow(kind, now), kind.PastDays? && kind.days.Some? && kind.days.value < 0;
            && (backwards ==> DayAt(w.from) > DayAt(w.to) && w.from > w.to)
            && (!backwards ==> DayAt(w.from) <= DayAt(w.to) && w.from <= w.to)
  {
    var today := DayAt(now);
    var year, month := YearOf(today), MonthOf(today);
    LaterMonthsStartLater(year, month, month + 1);
    LaterMonthsStartLater(year, 1, 12);
    LaterMonthsStartLater(year - 1, 1, 12);
    MonthThirteenIsJanuary(year);
    LastDayOfTheMonthBefore(today);
    hide MonthStart, YearOf, MonthOf;
  }
}
