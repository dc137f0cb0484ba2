/** The proleptic Gregorian calendar and the month helpers of the cron engine. */
module Calendar {

  datatype Date = Date(year: int, month: int, day: int)

  const SUNDAY := 0
  const MONDAY := 1
  const FRIDAY := 5
  const SATURDAY := 6

  const DAYS_PER_CYCLE := 146097
  const YEARS_PER_CYCLE := 400

  predicate Leap(year: int) {
    year % 4 == 0 && (year % 100 != 0 || year % 400 == 0)
  }

  function DaysInMonth(year: int, month: int): (n: int)
    requires 1 <= month <= 12
    ensures 28 <= n <= 31
  {
    if month == 2 then (if Leap(year) then 29 else 28)
    else if month == 4 || month == 6 || month == 9 || month == 11 then 30
    else 31
  }

  predicate Valid(d: Date) {
    1 <= d.month <= 12 && 1 <= d.day <= DaysInMonth(d.year, d.month)
  }

  // ----- Day numbers: 1 is Monday, January 1 of year 1 -----

  function DaysBeforeYear(year: int): int {
    365 * (year - 1) + (year - 1) / 4 - (year - 1) / 100 + (year - 1) / 400
  }

  function DaysBeforeMonth(year: int, month: int): int
    requires 1 <= month <= 12
  {
    (if month > 2 && Leap(year) then 1 else 0) +
    if month == 1 then 0 else if month == 2 then 31 else if month == 3 then 59
    else if month == 4 then 90 else if month == 5 then 120 else if month == 6 then 151
    else if month == 7 then 181 else if month == 8 then 212 else if month == 9 then 243
    else if month == 10 then 273 else if month == 11 then 304 else 334
  }

  function DayNumber(d: Date): int
    requires 1 <= d.month <= 12
  {
    DaysBeforeYear(d.year) + DaysBeforeMonth(d.year, d.month) + d.day
  }

  /** 0 is Sunday, 6 is Saturday. */
  function Weekday(d: Date): (w: int)
    requires 1 <= d.month <= 12
    ensures 0 <= w <= 6
  {
    DayNumber(d) % 7
  }

  predicate Before(a: Date, b: Date) {
    a.year < b.year || (a.year == b.year && (a.month < b.month || (a.month == b.month && a.day < b.day)))
  }

  lemma YearLength(year: int)
    ensures DaysBeforeYear(year + 1) == DaysBeforeYear(year) + (if Leap(year) then 366 else 365)
  {
    var p := year - 1;
    QuotientSteps(p, 4);
    QuotientSteps(p, 100);
    QuotientSteps(p, 400);
    assert year % 400 == 0 ==> year % 100 == 0 by {
      if year % 400 == 0 {
        assert year == 100 * (4 * (year / 400));
      }
    }
    assert year % 100 == 0 ==> year % 4 == 0 by {
      if year % 100 == 0 {
        assert year == 4 * (25 * (year / 100));
      }
    }
  }

  lemma QuotientSteps(p: int, k: int)
    requires k > 1
    ensures (p + 1) / k == p / k + (if (p + 1) % k == 0 then 1 else 0)
  {
    var q, r := p / k, p % k;
    if r + 1 < k {
      UniqueQuotient(p + 1, k, q, r + 1);
    } else {
      UniqueQuotient(p + 1, k, q + 1, 0);
    }
  }

  lemma UniqueQuotient(n: int, k: int, q: int, r: int)
    requires k > 0 && n == k * q + r && 0 <= r < k
    ensures n / k == q && n % k == r
  {
    var d := n / k - q;
    assert k * (n / k) + n % k == n;
    assert k * d == r - n % k by {
      assert k * d == k * (n / k) - k * q;
    }
    assert d >= 1 ==> k * d >= k;
    assert d <= -1 ==> k * d <= -k;
  }

  /** Adding whole multiples moves the quotient and keeps the remainder. */
  lemma ModShift(n: int, k: int, q: int)
    requires k > 0
    ensures (n + k * q) % k == n % k && (n + k * q) / k == n / k + q
  {
    assert k * (n / k + q) == k * (n / k) + k * q;
    UniqueQuotient(n + k * q, k, n / k + q, n % k);
  }

  lemma YearsIncrease(a: int, b: int)
    requires a < b
    ensures DaysBeforeYear(a) + (if Leap(a) then 366 else 365) <= DaysBeforeYear(b)
  {
    YearLength(a);
    var p, q := a, b - 1;
    assert p / 4 - p / 100 <= q / 4 - q / 100 by {
      QuarterCentury(p, q);
    }
  }

  lemma QuarterCentury(p: int, q: int)
    requires p <= q
    ensures p / 4 - p / 100 <= q / 4 - q / 100
  {
    assert p / 100 == (p / 4) / 25 && q / 100 == (q / 4) / 25;
  }

  lemma MonthsIncrease(year: int, a: int, b: int)
    requires 1 <= a < b <= 12
    ensures DaysBeforeMonth(year, a) + DaysInMonth(year, a) <= DaysBeforeMonth(year, b)
  {
  }

  lemma WithinYear(d: Date)
    requires Valid(d)
    ensures 1 <= DaysBeforeMonth(d.year, d.month) + d.day <= (if Leap(d.year) then 366 else 365)
  {
  }

  /** Day numbers order valid dates exactly as the calendar does. */
  lemma DayNumberOrders(a: Date, b: Date)
    requires Valid(a) && Valid(b)
    ensures DayNumber(a) < DayNumber(b) <==> Before(a, b)
    ensures DayNumber(a) == DayNumber(b) <==> a == b
  {
    DayNumberIncreases(a, b);
    DayNumberIncreases(b, a);
  }

  lemma DayNumberIncreases(a: Date, b: Date)
    requires Valid(a) && Valid(b)
    ensures Before(a, b) ==> DayNumber(a) < DayNumber(b)
  {
    WithinYear(a);
    WithinYear(b);
    if a.year < b.year {
      YearsIncrease(a.year, b.year);
    } else if a.year == b.year && a.month < b.month {
      MonthsIncrease(a.year, a.month, b.month);
    }
  }

  // ----- The three normalisations of time.Date the engine relies on -----

  /** time.Date(year, month+1, 1). */
  function FirstOfNextMonth(d: Date): (r: Date)
    requires Valid(d)
    ensures Valid(r) && r.day == 1
  {
    if d.month == 12 then Date(d.year + 1, 1, 1) else Date(d.year, d.month + 1, 1)
  }

  /** time.Date(year, month, day+1). */
  function NextDay(d: Date): (r: Date)
    requires Valid(d)
    ensures Valid(r)
  {
    if d.day < DaysInMonth(d.year, d.month) then Date(d.year, d.month, d.day + 1) else FirstOfNextMonth(d)
  }

  lemma NextMonthNumber(d: Date)
    requires Valid(d)
    ensures DayNumber(FirstOfNextMonth(d)) == DayNumber(d) + DaysInMonth(d.year, d.month) - d.day + 1
  {
    YearLength(d.year);
  }

  lemma NextDayNumber(d: Date)
    requires Valid(d)
    ensures DayNumber(NextDay(d)) == DayNumber(d) + 1
  {
    NextMonthNumber(d);
  }

  /** The day after a date has the next weekday; with one known date this fixes every weekday. */
  lemma WeekdayAdvances(d: Date)
    requires Valid(d)
    ensures Weekday(NextDay(d)) == (Weekday(d) + 1) % 7
  {
    NextDayNumber(d);
    var n := DayNumber(d);
    UniqueQuotient(n, 7, n / 7, n % 7);
    if n % 7 == 6 {
      UniqueQuotient(n + 1, 7, n / 7 + 1, 0);
    } else {
      UniqueQuotient(n + 1, 7, n / 7, n % 7 + 1);
    }
  }

  /** 1 January 1970 was a Thursday. */
  lemma EpochIsThursday()
    ensures Weekday(Date(1970, 1, 1)) == 4
  {
  }

  /** Known dates: the first of each month of 2026, and which centuries have a leap day. */
  lemma KnownDates()
    ensures Weekday(Date(2026, 1, 1)) == 4 && Weekday(Date(2026, 2, 1)) == 0 && Weekday(Date(2026, 3, 1)) == 0
    ensures Weekday(Date(2026, 4, 1)) == 3 && Weekday(Date(2026, 5, 1)) == 5 && Weekday(Date(2026, 6, 1)) == 1
    ensures Weekday(Date(2026, 7, 1)) == 3 && Weekday(Date(2026, 8, 1)) == 6 && Weekday(Date(2026, 9, 1)) == 2
    ensures Weekday(Date(2026, 10, 1)) == 4 && Weekday(Date(2026, 11, 1)) == 0 && Weekday(Date(2026, 12, 1)) == 2
    ensures Valid(Date(2000, 2, 29)) && !Valid(Date(1900, 2, 29))
    ensures Valid(Date(2024, 2, 29)) && !Valid(Date(2026, 2, 29))
  {
    assert DaysBeforeYear(2026) == 739616 && !Leap(2026);
    assert Leap(2000) && !Leap(1900) && Leap(2024);
    hide DaysBeforeYear, Leap;
  }

  /** lastDayOfMonth asks for day 0 of the next month, that is, the day before its first. */
  lemma LastDayOfMonthIsDayZero(year: int, month: int, d: Date)
    requires 1 <= month <= 12 && Valid(d)
    ensures DayNumber(d) == DayNumber(FirstOfNextMonth(Date(year, month, 1))) - 1
            <==> d == Date(year, month, DaysInMonth(year, month))
  {
    NextMonthNumber(Date(year, month, 1));
    DayNumberOrders(d, Date(year, month, DaysInMonth(year, month)));
  }

  // ----- The 400-year cycle -----

  function Shift(d: Date, cycles: int): Date {
    d.(year := d.year + YEARS_PER_CYCLE * cycles)
  }

  lemma LeapRepeats(year: int, cycles: int)
    ensures Leap(year + YEARS_PER_CYCLE * cycles) == Leap(year)
  {
    ModShift(year, 4, 100 * cycles);
    ModShift(year, 100, 4 * cycles);
    ModShift(year, 400, cycles);
  }

  lemma YearsRepeat(year: int, cycles: int)
    ensures DaysBeforeYear(year + YEARS_PER_CYCLE * cycles) == DaysBeforeYear(year) + DAYS_PER_CYCLE * cycles
  {
    var p := year - 1;
    ModShift(p, 4, 100 * cycles);
    ModShift(p, 100, 4 * cycles);
    ModShift(p, 400, cycles);
  }

  /** 146097 days and whole weeks pass in 400 years. */
  lemma CalendarRepeats(d: Date, cycles: int)
    requires Valid(d)
    ensures Valid(Shift(d, cycles))
    ensures DayNumber(Shift(d, cycles)) == DayNumber(d) + DAYS_PER_CYCLE * cycles
    ensures Weekday(Shift(d, cycles)) == Weekday(d)
  {
    LeapRepeats(d.year, cycles);
    YearsRepeat(d.year, cycles);
    hide DaysBeforeYear, Leap;
    ModShift(DayNumber(d), 7, 20871 * cycles);
  }

  /** Some repetition of any date falls in any given run of 146097 days. */
  lemma CycleReaches(d: Date, from: int) returns (cycles: int)
    requires Valid(d)
    ensures Valid(Shift(d, cycles))
    ensures from <= DayNumber(Shift(d, cycles)) < from + DAYS_PER_CYCLE
  {
    cycles := -((DayNumber(d) - from) / DAYS_PER_CYCLE);
    CalendarRepeats(d, cycles);
  }

  // ----- Month helpers, branch for branch -----

  function Clamp(year: int, month: int, target: int): int
    requires 1 <= month <= 12
  {
    if target < 1 then 1 else if target > DaysInMonth(year, month) then DaysInMonth(year, month) else target
  }

  function NearestWeekday(year: int, month: int, target: int): int
    requires 1 <= month <= 12
  {
    var last := DaysInMonth(year, month);
    var day := Clamp(year, month, target);
    var w := Weekday(Date(year, month, day));
    if w == SATURDAY then
      (if day > 1 then day - 1 else if day + 2 <= last then day + 2 else day)
    else if w == SUNDAY then
      (if day < last then day + 1 else if day - 2 >= 1 then day - 2 else day)
    else day
  }

  function LastWeekdayInMonth(year: int, month: int, weekday: int): int
    requires 1 <= month <= 12
  {
    var last := DaysInMonth(year, month);
    last - (Weekday(Date(year, month, last)) - weekday + 7) % 7
  }

  /** 0 when the month has no nth occurrence. */
  function NthWeekdayInMonth(year: int, month: int, weekday: int, n: int): int
    requires 1 <= month <= 12
  {
    if n < 1 || n > 5 then 0
    else
      var day := 1 + (weekday - Weekday(Date(year, month, 1)) + 7) % 7 + (n - 1) * 7;
      if day > DaysInMonth(year, month) then 0 else day
  }

  // ----- What the helpers mean -----

  predicate IsWorkday(d: Date)
    requires 1 <= d.month <= 12
  {
    MONDAY <= Weekday(d) <= FRIDAY
  }

  function Distance(a: int, b: int): int {
    if a < b then b - a else a - b
  }

  /** day is the Monday-to-Friday day of the month closest to the target, ties excluded. */
  ghost predicate IsNearestWorkday(year: int, month: int, target: int, day: int)
    requires 1 <= month <= 12
  {
    && 1 <= day <= DaysInMonth(year, month)
    && IsWorkday(Date(year, month, day))
    && forall e :: 1 <= e <= DaysInMonth(year, month) && e != day && IsWorkday(Date(year, month, e)) ==>
         Distance(day, Clamp(year, month, target)) < Distance(e, Clamp(year, month, target))
  }

  /** How many of the first k days of the month fall on the weekday. */
  ghost function Occurrences(year: int, month: int, weekday: int, k: nat): nat
    requires 1 <= month <= 12
  {
    if k == 0 then 0
    else Occurrences(year, month, weekday, k - 1) + (if Weekday(Date(year, month, k)) == weekday then 1 else 0)
  }

  ghost predicate IsNthOccurrence(year: int, month: int, weekday: int, n: int, day: int)
    requires 1 <= month <= 12
  {
    && 1 <= day <= DaysInMonth(year, month)
    && Weekday(Date(year, month, day)) == weekday
    && Occurrences(year, month, weekday, day) == n
  }

  ghost predicate IsLastOccurrence(year: int, month: int, weekday: int, day: int)
    requires 1 <= month <= 12
  {
    && 1 <= day <= DaysInMonth(year, month)
    && Weekday(Date(year, month, day)) == weekday
    && forall e :: day < e <= DaysInMonth(year, month) ==> Weekday(Date(year, month, e)) != weekday
  }

  lemma WeekdayWithinMonth(year: int, month: int, a: int, b: int)
    requires 1 <= month <= 12
    ensures Weekday(Date(year, month, b)) == (Weekday(Date(year, month, a)) + b - a) % 7
  {
    hide DaysBeforeYear, DaysBeforeMonth;
    var n := DayNumber(Date(year, month, a));
    assert DayNumber(Date(year, month, b)) == n + b - a;
    ModShift(n % 7 + (b - a), 7, n / 7);
    assert n == n % 7 + 7 * (n / 7);
  }

  /** nearestWeekday finds the one workday no other workday of the month ties or beats. */
  lemma NearestWeekdayIsNearest(year: int, month: int, target: int, day: int)
    requires 1 <= month <= 12
    ensures IsNearestWorkday(year, month, target, day) <==> day == NearestWeekday(year, month, target)
  {
    var c := Clamp(year, month, target);
    var r := NearestWeekday(year, month, target);
    WeekdayWithinMonth(year, month, c, r);
    assert IsWorkday(Date(year, month, r));
    forall e | 1 <= e <= DaysInMonth(year, month) && e != r && IsWorkday(Date(year, month, e))
      ensures Distance(r, c) < Distance(e, c)
    {
      WeekdayWithinMonth(year, month, c, e);
    }
    assert IsNearestWorkday(year, month, target, r);
  }

  lemma LastWeekdayIsLast(year: int, month: int, weekday: int, day: int)
    requires 1 <= month <= 12 && 0 <= weekday <= 6
    ensures IsLastOccurrence(year, month, weekday, day) <==> day == LastWeekdayInMonth(year, month, weekday)
  {
    hide Weekday;
    var last := DaysInMonth(year, month);
    var r := LastWeekdayInMonth(year, month, weekday);
    var w := Weekday(Date(year, month, last));
    WeekdayWithinMonth(year, month, last, r);
    SteppingBack(w, weekday);
    forall e | r < e <= last ensures Weekday(Date(year, month, e)) != weekday {
      WeekdayWithinMonth(year, month, r, e);
      SameWeekday(weekday, e - r);
    }
    assert IsLastOccurrence(year, month, weekday, r);
  }

  /** Going back (w - weekday) mod 7 days from weekday w lands on weekday. */
  lemma SteppingBack(w: int, weekday: int)
    requires 0 <= w <= 6 && 0 <= weekday <= 6
    ensures (w - (w - weekday + 7) % 7) % 7 == weekday
  {
    if w < weekday {
      assert (w - weekday + 7) % 7 == w - weekday + 7;
      ModShift(weekday, 7, -1);
    } else {
      ModShift(w - weekday, 7, 1);
    }
  }

  /** In the first k days the weekday falls on its first date and every seventh day after. */
  lemma {:induction false} OccurrencesCount(year: int, month: int, weekday: int, first: int, k: nat)
    requires 1 <= month <= 12 && 0 <= weekday <= 6
    requires 1 <= first <= 7 && Weekday(Date(year, month, first)) == weekday
    ensures Occurrences(year, month, weekday, k) == (k + 7 - first) / 7
  {
    if k > 0 {
      OccurrencesCount(year, month, weekday, first, k - 1);
      WeekdayWithinMonth(year, month, first, k);
      SameWeekday(weekday, k - first);
    }
  }

  lemma SameWeekday(weekday: int, shift: int)
    requires 0 <= weekday <= 6
    ensures (weekday + shift) % 7 == weekday <==> shift % 7 == 0
  {
    var q, r := shift / 7, shift % 7;
    assert weekday + shift == (weekday + r) + 7 * q;
    ModShift(weekday + r, 7, q);
    if weekday + r >= 7 {
      ModShift(weekday + r - 7, 7, 1);
    }
  }

  lemma NthFormula(first: int, day: int, n: int)
    requires 1 <= first <= 7 && day >= 1
    ensures (day - first) % 7 == 0 && (day + 7 - first) / 7 == n <==> day == first + (n - 1) * 7
  {
    var q := (day - first) / 7;
    ModShift(day - first, 7, 1);
    assert (day + 7 - first) / 7 == q + 1;
    if day == first + (n - 1) * 7 {
      UniqueQuotient(day - first, 7, n - 1, 0);
    }
  }

  lemma NthWeekdayIsNth(year: int, month: int, weekday: int, n: int, day: int)
    requires 1 <= month <= 12 && 0 <= weekday <= 6 && n >= 1
    ensures IsNthOccurrence(year, month, weekday, n, day) <==>
            (day != 0 && day == NthWeekdayInMonth(year, month, weekday, n))
  {
    hide Weekday, Occurrences;
    var w := Weekday(Date(year, month, 1));
    var first := 1 + (weekday - w + 7) % 7;
    WeekdayWithinMonth(year, month, 1, first);
    SteppingForward(w, weekday);
    if day >= 1 {
      WeekdayWithinMonth(year, month, first, day);
      SameWeekday(weekday, day - first);
      OccurrencesCount(year, month, weekday, first, day);
      NthFormula(first, day, n);
    }
  }

  /** Going forward (weekday - w) mod 7 days from weekday w lands on weekday. */
  lemma SteppingForward(w: int, weekday: int)
    requires 0 <= w <= 6 && 0 <= weekday <= 6
    ensures (w + (weekday - w + 7) % 7) % 7 == weekday
  {
    if w <= weekday {
      ModShift(weekday - w, 7, 1);
    } else {
      assert (weekday - w + 7) % 7 == weekday - w + 7;
      ModShift(weekday, 7, 1);
    }
  }
}
