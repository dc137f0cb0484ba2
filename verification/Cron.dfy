/** Parsed cron expressions: what matches them, in the code's terms and in the calendar's. */
module Cron {
  import opened Calendar

  datatype CronField = CronField(values: set<int>, wildcard: bool)

  datatype DomField = DomField(
    wildcard: bool,
    values: set<int>,
    lastOffsets: seq<int>,
    nearestW: seq<int>,
    hasLW: bool)

  datatype NthDowEntry = NthDowEntry(dow: int, n: int)

  datatype DowField = DowField(
    wildcard: bool,
    values: set<int>,
    lastDow: seq<int>,
    nthDow: seq<NthDowEntry>)

  datatype Cron = Cron(minutes: CronField, hours: CronField, dom: DomField, month: CronField, dow: DowField)

  // ----- domField.matches, dowField.matches and the day switch of Next -----

  predicate DomMatches(f: DomField, d: Date)
    requires Valid(d)
  {
    var last := DaysInMonth(d.year, d.month);
    || f.wildcard
    || d.day in f.values
    || (exists o | o in f.lastOffsets :: d.day == last - o)
    || (exists n | n in f.nearestW :: d.day == NearestWeekday(d.year, d.month, n))
    || (f.hasLW && d.day == NearestWeekday(d.year, d.month, last))
  }

  predicate DowMatches(f: DowField, d: Date)
    requires Valid(d)
  {
    || f.wildcard
    || Weekday(d) in f.values
    || (exists w | w in f.lastDow :: Weekday(d) == w && d.day == LastWeekdayInMonth(d.year, d.month, w))
    || (exists e | e in f.nthDow ::
          && Weekday(d) == e.dow
          && NthWeekdayInMonth(d.year, d.month, e.dow, e.n) > 0
          && d.day == NthWeekdayInMonth(d.year, d.month, e.dow, e.n))
  }

  predicate DayMatches(c: Cron, d: Date)
    requires Valid(d)
  {
    if !c.dom.wildcard && !c.dow.wildcard then DomMatches(c.dom, d) || DowMatches(c.dow, d)
    else if !c.dom.wildcard then DomMatches(c.dom, d)
    else if !c.dow.wildcard then DowMatches(c.dow, d)
    else true
  }

  // ----- The same in calendar terms, naming none of the helpers -----

  ghost predicate DomFits(f: DomField, d: Date)
    requires Valid(d)
  {
    || f.wildcard
    || d.day in f.values
    || (exists o :: o in f.lastOffsets && d.day + o == DaysInMonth(d.year, d.month))
    || (exists n :: n in f.nearestW && IsNearestWorkday(d.year, d.month, n, d.day))
    || (f.hasLW && IsNearestWorkday(d.year, d.month, DaysInMonth(d.year, d.month), d.day))
  }

  ghost predicate DowFits(f: DowField, d: Date)
    requires Valid(d)
  {
    || f.wildcard
    || Weekday(d) in f.values
    || (exists w :: w in f.lastDow && IsLastOccurrence(d.year, d.month, w, d.day))
    || (exists e :: e in f.nthDow && IsNthOccurrence(d.year, d.month, e.dow, e.n, d.day))
  }

  /** Month, then the vixie rule: two restricted day fields are alternatives, one alone decides. */
  ghost predicate DateFits(c: Cron, d: Date)
    requires Valid(d)
  {
    && d.month in c.month.values
    && (if c.dom.wildcard then DowFits(c.dow, d)
        else if c.dow.wildcard then DomFits(c.dom, d)
        else DomFits(c.dom, d) || DowFits(c.dow, d))
  }

  ghost predicate DowEntriesOk(f: DowField) {
    && (forall w :: w in f.lastDow ==> 0 <= w <= 6)
    && (forall e :: e in f.nthDow ==> 0 <= e.dow <= 6 && 1 <= e.n <= 5)
  }

  lemma DomMatchesIsFits(f: DomField, d: Date)
    requires Valid(d)
    ensures DomMatches(f, d) <==> DomFits(f, d)
  {
    forall n ensures IsNearestWorkday(d.year, d.month, n, d.day) <==> d.day == NearestWeekday(d.year, d.month, n) {
      NearestWeekdayIsNearest(d.year, d.month, n, d.day);
    }
  }

  lemma DowMatchesIsFits(f: DowField, d: Date)
    requires Valid(d) && DowEntriesOk(f)
    ensures DowMatches(f, d) <==> DowFits(f, d)
  {
    forall w | w in f.lastDow
      ensures (Weekday(d) == w && d.day == LastWeekdayInMonth(d.year, d.month, w)) <==>
              IsLastOccurrence(d.year, d.month, w, d.day)
    {
      LastWeekdayIsLast(d.year, d.month, w, d.day);
    }
    forall e | e in f.nthDow
      ensures (Weekday(d) == e.dow && NthWeekdayInMonth(d.year, d.month, e.dow, e.n) > 0
               && d.day == NthWeekdayInMonth(d.year, d.month, e.dow, e.n)) <==>
              IsNthOccurrence(d.year, d.month, e.dow, e.n, d.day)
    {
      NthWeekdayIsNth(d.year, d.month, e.dow, e.n, d.day);
    }
  }

  /** The month test and day switch of Next accept exactly the dates the expression means. */
  lemma DateMatchesIsFits(c: Cron, d: Date)
    requires Valid(d) && DowEntriesOk(c.dow)
    ensures (d.month in c.month.values && DayMatches(c, d)) <==> DateFits(c, d)
  {
    DomMatchesIsFits(c.dom, d);
    DowMatchesIsFits(c.dow, d);
  }

  /** Whether a date fits depends only on its place in the 400-year cycle. */
  lemma FitsRepeats(c: Cron, d: Date, cycles: int)
    requires Valid(d) && Valid(Shift(d, cycles))
    ensures d.month in c.month.values && DayMatches(c, d) <==>
            Shift(d, cycles).month in c.month.values && DayMatches(c, Shift(d, cycles))
  {
    DomRepeats(c.dom, d, cycles);
    DowRepeats(c.dow, d, cycles);
  }

  lemma DomRepeats(f: DomField, d: Date, cycles: int)
    requires Valid(d) && Valid(Shift(d, cycles))
    ensures DomMatches(f, d) <==> DomMatches(f, Shift(d, cycles))
  {
    hide NearestWeekday;
    LeapRepeats(d.year, cycles);
    forall n ensures NearestWeekday(d.year + YEARS_PER_CYCLE * cycles, d.month, n) ==
      NearestWeekday(d.year, d.month, n)
    {
      NearestRepeats(d.year, d.month, n, cycles);
    }
  }

  lemma DowRepeats(f: DowField, d: Date, cycles: int)
    requires Valid(d) && Valid(Shift(d, cycles))
    ensures DowMatches(f, d) <==> DowMatches(f, Shift(d, cycles))
  {
    hide LastWeekdayInMonth, NthWeekdayInMonth, Weekday;
    WeekdayRepeats(d.year, d.month, d.day, cycles);
    forall w ensures LastWeekdayInMonth(d.year + YEARS_PER_CYCLE * cycles, d.month, w) ==
      LastWeekdayInMonth(d.year, d.month, w)
    {
      LastRepeats(d.year, d.month, w, cycles);
    }
    forall w, n ensures NthWeekdayInMonth(d.year + YEARS_PER_CYCLE * cycles, d.month, w, n) ==
      NthWeekdayInMonth(d.year, d.month, w, n)
    {
      NthRepeats(d.year, d.month, w, n, cycles);
    }
  }

  lemma WeekdayRepeats(year: int, month: int, day: int, cycles: int)
    requires 1 <= month <= 12 && 1 <= day <= DaysInMonth(year, month)
    ensures Weekday(Date(year + YEARS_PER_CYCLE * cycles, month, day)) == Weekday(Date(year, month, day))
  {
    CalendarRepeats(Date(year, month, day), cycles);
  }

  lemma NearestRepeats(year: int, month: int, n: int, cycles: int)
    requires 1 <= month <= 12
    ensures NearestWeekday(year + YEARS_PER_CYCLE * cycles, month, n) == NearestWeekday(year, month, n)
  {
    LeapRepeats(year, cycles);
    WeekdayRepeats(year, month, Clamp(year, month, n), cycles);
  }

  lemma LastRepeats(year: int, month: int, w: int, cycles: int)
    requires 1 <= month <= 12
    ensures LastWeekdayInMonth(year + YEARS_PER_CYCLE * cycles, month, w) == LastWeekdayInMonth(year, month, w)
  {
    LeapRepeats(year, cycles);
    WeekdayRepeats(year, month, DaysInMonth(year, month), cycles);
  }

  lemma NthRepeats(year: int, month: int, w: int, n: int, cycles: int)
    requires 1 <= month <= 12
    ensures NthWeekdayInMonth(year + YEARS_PER_CYCLE * cycles, month, w, n) == NthWeekdayInMonth(year, month, w, n)
  {
    LeapRepeats(year, cycles);
    WeekdayRepeats(year, month, 1, cycles);
  }
}
