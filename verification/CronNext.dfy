/**
 * Cron.Next: the skip-ahead search for the next matching minute.
 * Times are local wall-clock minutes of a zone with a fixed offset from UTC.
 */
module CronNext {
  import opened Options
  import opened Calendar
  import opened Cron

  datatype Moment = Moment(date: Date, minute: int)

  const MINUTES_PER_DAY := 1440

  predicate ValidMoment(t: Moment) {
    Valid(t.date) && 0 <= t.minute < MINUTES_PER_DAY
  }

  /** Minutes since the zero day. */
  function Stamp(t: Moment): int
    requires 1 <= t.date.month <= 12
  {
    DayNumber(t.date) * MINUTES_PER_DAY + t.minute
  }

  function AddMinutes(t: Moment, k: int): (r: Moment)
    requires ValidMoment(t) && 0 <= k <= MINUTES_PER_DAY
    ensures ValidMoment(r) && Stamp(r) == Stamp(t) + k
  {
    NextDayNumber(t.date);
    if t.minute + k < MINUTES_PER_DAY then t.(minute := t.minute + k)
    else Moment(NextDay(t.date), t.minute + k - MINUTES_PER_DAY)
  }

  // ----- One iteration -----

  predicate Matches(c: Cron, t: Moment)
    requires ValidMoment(t)
  {
    && t.date.month in c.month.values
    && DayMatches(c, t.date)
    && t.minute / 60 in c.hours.values
    && t.minute % 60 in c.minutes.values
  }

  /** Where an iteration that does not match moves on to; the hour jump truncates absolute time. */
  function Advance(c: Cron, t: Moment, offset: int): (r: Moment)
    requires ValidMoment(t)
    ensures ValidMoment(r) && Stamp(t) < Stamp(r)
  {
    NextMonthNumber(t.date);
    NextDayNumber(t.date);
    if t.date.month !in c.month.values then Moment(FirstOfNextMonth(t.date), 0)
    else if !DayMatches(c, t.date) then Moment(NextDay(t.date), 0)
    else if t.minute / 60 !in c.hours.values then AddMinutes(t, 60 - (Stamp(t) - offset) % 60)
    else AddMinutes(t, 1)
  }

  /** The loop of Next from t with n iterations left. */
  function Search(c: Cron, t: Moment, offset: int, n: nat): (r: Option<Moment>)
    requires ValidMoment(t)
    decreases n
  {
    if n == 0 then None
    else if Matches(c, t) then Some(t)
    else Search(c, Advance(c, t, offset), offset, n - 1)
  }

  // ----- The jumps skip nothing -----

  lemma StampsOrder(t: Moment, u: Moment)
    requires ValidMoment(t) && ValidMoment(u)
    ensures Stamp(t) <= Stamp(u) ==> DayNumber(t.date) <= DayNumber(u.date)
    ensures Stamp(t) < Stamp(u) && t.date == u.date ==> t.minute < u.minute
    ensures Stamp(t) == Stamp(u) ==> t == u
  {
    DayNumberOrders(t.date, u.date);
  }

  /** The dates from d up to the first of the next month are all in d's month. */
  lemma SameMonth(d: Date, e: Date)
    requires Valid(d) && Valid(e)
    requires DayNumber(d) <= DayNumber(e) < DayNumber(FirstOfNextMonth(d))
    ensures e.year == d.year && e.month == d.month
  {
    DayNumberOrders(e, d);
    DayNumberOrders(e, FirstOfNextMonth(d));
  }

  lemma SameDay(d: Date, e: Date)
    requires Valid(d) && Valid(e)
    requires DayNumber(d) <= DayNumber(e) < DayNumber(NextDay(d))
    ensures e == d
  {
    NextDayNumber(d);
    DayNumberOrders(d, e);
  }

  /** Dates passed over by a month or day jump do not fit. */
  lemma JumpSkipsNoDate(c: Cron, t: Moment, offset: int, d: Date)
    requires ValidMoment(t) && Valid(d)
    requires DayNumber(t.date) <= DayNumber(d) < DayNumber(Advance(c, t, offset).date)
    requires !(t.date.month in c.month.values && DayMatches(c, t.date))
    ensures !(d.month in c.month.values && DayMatches(c, d))
  {
    if t.date.month !in c.month.values {
      SameMonth(t.date, d);
    } else {
      SameDay(t.date, d);
    }
  }

  /** With a whole-hour offset no iteration moves past a matching minute. */
  lemma AdvanceSkipsNoMatch(c: Cron, t: Moment, offset: int, u: Moment)
    requires ValidMoment(t) && ValidMoment(u) && !Matches(c, t) && offset % 60 == 0
    requires Stamp(t) <= Stamp(u) < Stamp(Advance(c, t, offset))
    ensures !Matches(c, u)
  {
    hide DayMatches, DayNumber, FirstOfNextMonth, NextDay;
    var r := Advance(c, t, offset);
    StampsOrder(t, u);
    if !(t.date.month in c.month.values && DayMatches(c, t.date)) {
      assert DayNumber(u.date) < DayNumber(r.date);
      JumpSkipsNoDate(c, t, offset, u.date);
    } else if t.minute / 60 !in c.hours.values {
      WholeHourJump(t, offset);
      SameHour(t, u);
    } else {
      StampsOrder(u, t);
    }
  }

  lemma WholeHourJump(t: Moment, offset: int)
    requires ValidMoment(t) && offset % 60 == 0
    ensures (Stamp(t) - offset) % 60 == t.minute % 60
  {
    hide DayNumber;
    var q := 24 * DayNumber(t.date) - offset / 60;
    assert Stamp(t) - offset == t.minute + 60 * q;
    ModShift(t.minute, 60, q);
  }

  lemma SameHour(t: Moment, u: Moment)
    requires ValidMoment(t) && ValidMoment(u)
    requires Stamp(t) <= Stamp(u) < Stamp(t) + 60 - t.minute % 60
    ensures u.date == t.date && u.minute / 60 == t.minute / 60
  {
    var d := DayNumber(u.date) - DayNumber(t.date);
    assert d * 1440 + u.minute - t.minute < 60 - t.minute % 60;
    assert d == 0;
    DayNumberOrders(t.date, u.date);
  }

  // ----- What the search returns -----

  ghost predicate NoMatchBetween(c: Cron, from: int, to: int) {
    forall u: Moment :: ValidMoment(u) && from <= Stamp(u) < to ==> !Matches(c, u)
  }

  /** A returned minute matches and no minute from the start up to it does. */
  lemma {:induction false} FoundIsFirst(c: Cron, t: Moment, offset: int, n: nat)
    requires ValidMoment(t) && offset % 60 == 0
    requires Search(c, t, offset, n).Some?
    ensures var r := Search(c, t, offset, n).value;
            && ValidMoment(r) && Matches(c, r) && Stamp(t) <= Stamp(r)
            && NoMatchBetween(c, Stamp(t), Stamp(r))
    decreases n
  {
    if !Matches(c, t) {
      var s := Advance(c, t, offset);
      FoundIsFirst(c, s, offset, n - 1);
      forall u: Moment | ValidMoment(u) && Stamp(t) <= Stamp(u) < Stamp(s) ensures !Matches(c, u) {
        AdvanceSkipsNoMatch(c, t, offset, u);
      }
    }
  }

  // ----- The iteration budget -----

  /** What parsing guarantees and the search needs: some hour and some minute can match. */
  ghost predicate CronOk(c: Cron) {
    && (exists h :: 0 <= h < 24 && h in c.hours.values)
    && (exists m :: 0 <= m < 60 && m in c.minutes.values)
    && DowEntriesOk(c.dow)
  }

  predicate TimeFits(c: Cron, minute: int) {
    minute / 60 in c.hours.values && minute % 60 in c.minutes.values
  }

  ghost predicate DateMatches(c: Cron, d: Date)
    requires Valid(d)
  {
    d.month in c.month.values && DayMatches(c, d)
  }

  /** f is the earliest minute of a day that the hour and minute fields accept. */
  ghost predicate IsFirstTime(c: Cron, f: int) {
    0 <= f < MINUTES_PER_DAY && TimeFits(c, f) && forall k :: 0 <= k < f ==> !TimeFits(c, k)
  }

  lemma FirstTimeExists(c: Cron) returns (f: int)
    requires CronOk(c)
    ensures IsFirstTime(c, f)
  {
    var h :| 0 <= h < 24 && h in c.hours.values;
    var m :| 0 <= m < 60 && m in c.minutes.values;
    var bound := h * 60 + m;
    assert bound / 60 == h && bound % 60 == m;
    f := 0;
    while !TimeFits(c, f)
      invariant 0 <= f <= bound
      invariant forall k :: 0 <= k < f ==> !TimeFits(c, k)
      decreases bound - f
    {
      f := f + 1;
    }
  }

  /** On a matching day, an iteration before the first time stays on the day and not past that time. */
  lemma AdvanceTowardsTime(c: Cron, t: Moment, offset: int, f: int)
    requires ValidMoment(t) && offset % 60 == 0 && IsFirstTime(c, f)
    requires DateMatches(c, t.date) && t.minute <= f && !Matches(c, t)
    ensures Advance(c, t, offset).date == t.date
    ensures t.minute < Advance(c, t, offset).minute <= f
  {
    hide DayMatches, DayNumber;
    assert t.minute != f by {
      assert TimeFits(c, f);
    }
    if t.minute / 60 !in c.hours.values {
      WholeHourJump(t, offset);
      assert t.minute / 60 < f / 60;
    }
  }

  lemma {:induction false} HitsToday(c: Cron, t: Moment, offset: int, n: nat, f: int)
    requires ValidMoment(t) && offset % 60 == 0 && IsFirstTime(c, f)
    requires DateMatches(c, t.date) && t.minute <= f && n > f - t.minute
    ensures Search(c, t, offset, n).Some?
    decreases n
  {
    if !Matches(c, t) {
      AdvanceTowardsTime(c, t, offset, f);
      HitsToday(c, Advance(c, t, offset), offset, n - 1, f);
    }
  }

  ghost predicate NoDateBetween(c: Cron, from: int, to: int) {
    forall d :: Valid(d) && from <= DayNumber(d) < to ==> !DateMatches(c, d)
  }

  /** From midnight, a day that does not fit costs one iteration. */
  lemma {:induction false} EveryDayFails(c: Cron, t: Moment, offset: int, n: nat, k: nat, f: int)
    requires ValidMoment(t) && t.minute == 0 && offset % 60 == 0 && IsFirstTime(c, f)
    requires Search(c, t, offset, n).None? && n >= MINUTES_PER_DAY + k
    ensures NoDateBetween(c, DayNumber(t.date), DayNumber(t.date) + k)
    decreases k
  {
    if k > 0 {
      if DateMatches(c, t.date) {
        HitsToday(c, t, offset, n, f);
      }
      var s := Advance(c, t, offset);
      var jump := DayNumber(s.date) - DayNumber(t.date);
      JumpForward(c, t, offset);
      forall d | Valid(d) && DayNumber(t.date) <= DayNumber(d) < DayNumber(s.date) ensures !DateMatches(c, d) {
        JumpSkipsNoDate(c, t, offset, d);
      }
      EveryDayFails(c, s, offset, n - 1, if jump < k then k - jump else 0, f);
    }
  }

  lemma JumpForward(c: Cron, t: Moment, offset: int)
    requires ValidMoment(t) && !DateMatches(c, t.date)
    ensures DayNumber(t.date) < DayNumber(Advance(c, t, offset).date)
    ensures Advance(c, t, offset).minute == 0
  {
    NextMonthNumber(t.date);
    NextDayNumber(t.date);
  }

  /** Leaving the starting day takes at most one iteration per remaining minute. */
  lemma {:induction false} LeavesFirstDay(c: Cron, t: Moment, offset: int, n: nat) returns (s: Moment, m: nat)
    requires ValidMoment(t) && offset % 60 == 0
    requires Search(c, t, offset, n).None? && n >= MINUTES_PER_DAY - t.minute
    ensures ValidMoment(s) && s.minute == 0 && DayNumber(t.date) < DayNumber(s.date)
    ensures m >= n - (MINUTES_PER_DAY - t.minute) && Search(c, s, offset, m).None?
    ensures NoDateBetween(c, DayNumber(t.date) + 1, DayNumber(s.date))
    decreases n
  {
    hide DayNumber, DayMatches, FirstOfNextMonth, NextDay;
    var r := Advance(c, t, offset);
    if !DateMatches(c, t.date) {
      JumpForward(c, t, offset);
      forall d | Valid(d) && DayNumber(t.date) < DayNumber(d) < DayNumber(r.date) ensures !DateMatches(c, d) {
        JumpSkipsNoDate(c, t, offset, d);
      }
      s, m := r, n - 1;
    } else {
      AdvanceWithinDay(c, t, offset);
      if r.date == t.date {
        s, m := LeavesFirstDay(c, r, offset, n - 1);
      } else {
        s, m := r, n - 1;
      }
    }
  }

  lemma AdvanceWithinDay(c: Cron, t: Moment, offset: int)
    requires ValidMoment(t) && offset % 60 == 0 && DateMatches(c, t.date)
    ensures var r := Advance(c, t, offset);
            || (r.date == t.date && t.minute < r.minute)
            || (r.minute == 0 && DayNumber(r.date) == DayNumber(t.date) + 1)
  {
    NextDayNumber(t.date);
    WholeHourJump(t, offset);
  }

  const ENOUGH_ITERATIONS := 2 * MINUTES_PER_DAY + DAYS_PER_CYCLE

  /** A search that exhausts the budget has seen every date of a 400-year cycle. */
  lemma ExhaustedMeansNever(c: Cron, t: Moment, offset: int, n: nat, d: Date)
    requires ValidMoment(t) && offset % 60 == 0 && CronOk(c) && Valid(d)
    requires n >= ENOUGH_ITERATIONS && Search(c, t, offset, n).None?
    ensures !DateMatches(c, d)
  {
    var f := FirstTimeExists(c);
    var s, m := LeavesFirstDay(c, t, offset, n);
    EveryDayFails(c, s, offset, m, DAYS_PER_CYCLE, f);
    var cycles := CycleReaches(d, DayNumber(s.date));
    assert !DateMatches(c, Shift(d, cycles));
    FitsRepeats(c, d, cycles);
  }

  // ----- What Next promises -----

  /** The expression fires at minute t, in calendar terms. */
  ghost predicate Fires(c: Cron, t: Moment)
    requires ValidMoment(t)
  {
    DateFits(c, t.date) && TimeFits(c, t.minute)
  }

  /** r is the least minute after now at which the expression fires. */
  ghost predicate IsNextFiring(c: Cron, now: Moment, r: Moment)
    requires ValidMoment(now)
  {
    && ValidMoment(r) && Stamp(now) < Stamp(r) && Fires(c, r)
    && forall u: Moment :: ValidMoment(u) && Stamp(now) < Stamp(u) < Stamp(r) ==> !Fires(c, u)
  }

  /** No date of the whole calendar, past or future, fits the month and day fields. */
  ghost predicate NeverFits(c: Cron) {
    forall d :: Valid(d) ==> !DateFits(c, d)
  }

  ghost predicate NextCorrect(c: Cron, now: Moment, r: Option<Moment>)
    requires ValidMoment(now)
  {
    && (r.None? <==> NeverFits(c))
    && (r.Some? ==> IsNextFiring(c, now, r.value))
  }

  lemma MatchesIsFires(c: Cron, t: Moment)
    requires ValidMoment(t) && DowEntriesOk(c.dow)
    ensures Matches(c, t) <==> Fires(c, t)
  {
    DateMatchesIsFits(c, t.date);
  }

  /** For every parsed expression and start, with a whole-hour offset and the code's budget. */
  lemma NextIsCorrect(c: Cron, now: Moment, offset: int, n: nat)
    requires ValidMoment(now) && offset % 60 == 0 && CronOk(c) && n >= ENOUGH_ITERATIONS
    ensures NextCorrect(c, now, Search(c, AddMinutes(now, 1), offset, n))
  {
    var t := AddMinutes(now, 1);
    var found := Search(c, t, offset, n);
    if found.None? {
      forall d | Valid(d) ensures !DateFits(c, d) {
        ExhaustedMeansNever(c, t, offset, n, d);
        DateMatchesIsFits(c, d);
      }
    } else {
      var r := found.value;
      FoundIsFirst(c, t, offset, n);
      MatchesIsFires(c, r);
      forall u: Moment | ValidMoment(u) && Stamp(now) < Stamp(u) < Stamp(r) ensures !Fires(c, u) {
        MatchesIsFires(c, u);
      }
    }
  }

  const MAX_NEXT_ITER := 366 * 4 * 24 * 60

  method NextWithin(c: Cron, now: Moment, offset: int, budget: nat) returns (r: Option<Moment>)
    requires ValidMoment(now)
    ensures r == Search(c, AddMinutes(now, 1), offset, budget)
  {
    hide DayMatches, DayNumber, FirstOfNextMonth, NextDay;
    var t := AddMinutes(now, 1);
    for i := 0 to budget
      invariant ValidMoment(t)
      invariant Search(c, AddMinutes(now, 1), offset, budget) == Search(c, t, offset, budget - i)
    {
      if t.date.month !in c.month.values {
        t := Moment(FirstOfNextMonth(t.date), 0);
        continue;
      }
      if !DayMatches(c, t.date) {
        t := Moment(NextDay(t.date), 0);
        continue;
      }
      if t.minute / 60 !in c.hours.values {
        t := AddMinutes(t, 60 - (Stamp(t) - offset) % 60);
        continue;
      }
      if t.minute % 60 !in c.minutes.values {
        t := AddMinutes(t, 1);
        continue;
      }
      return Some(t);
    }
    return None;
  }

  /**
   * Cron.Next; the source drops now's seconds before the search. In any zone a returned minute is
   * later and matches; in zones a whole number of hours off UTC it is the right one.
   */
  method Next(c: Cron, now: Moment, offset: int) returns (r: Option<Moment>)
    requires ValidMoment(now)
    ensures r.Some? ==> ValidMoment(r.value) && Stamp(now) < Stamp(r.value) && Matches(c, r.value)
    ensures CronOk(c) && offset % 60 == 0 ==> NextCorrect(c, now, r)
  {
    var budget := MAX_NEXT_ITER;
    r := NextWithin(c, now, offset, budget);
    if r.Some? {
      SearchNotBefore(c, AddMinutes(now, 1), offset, budget);
    }
    if CronOk(c) && offset % 60 == 0 {
      NextIsCorrect(c, now, offset, budget);
    }
  }

  // ----- Zones that are not whole hours off UTC -----

  /** "0 1 * * *". */
  function OneOClock(): (c: Cron)
    ensures CronOk(c)
  {
    var c := Cron(CronField({0}, false), CronField({1}, false), DomField(true, {}, [], [], false),
                  CronField({1, 2, 3, 4, 5, 6, 7, 8, 9, 10, 11, 12}, true), DowField(true, {}, [], []));
    assert 0 in c.minutes.values && 1 in c.hours.values;
    c
  }

  lemma OneOClockFires(d: Date)
    requires Valid(d)
    ensures Fires(OneOClock(), Moment(d, 60))
  {
  }

  lemma {:induction false} SearchNotBefore(c: Cron, t: Moment, offset: int, n: nat)
    requires ValidMoment(t) && Search(c, t, offset, n).Some?
    ensures ValidMoment(Search(c, t, offset, n).value) && Stamp(t) <= Stamp(Search(c, t, offset, n).value)
    ensures Matches(c, Search(c, t, offset, n).value)
    decreases n
  {
    if !Matches(c, t) {
      SearchNotBefore(c, Advance(c, t, offset), offset, n - 1);
    }
  }

  /** The first jump reaches an absolute hour, which off a whole-hour zone is not 01:00 local. */
  lemma FirstJump(d: Date, offset: int)
    requires Valid(d) && offset % 60 != 0
    ensures var t := Moment(d, 1);
            var r := AddMinutes(t, 60 - (Stamp(t) - offset) % 60);
            r.date == d && 1 < r.minute != 60 && r.minute <= 61 && (Stamp(r) - offset) % 60 == 0
  {
    hide DayNumber;
    var t := Moment(d, 1);
    var x := Stamp(t) - offset;
    var k := 60 - x % 60;
    UniqueQuotient(x + k, 60, x / 60 + 1, 0);
    if x % 60 == 1 {
      OneAheadMeansWhole(DayNumber(d), offset, x);
    }
  }

  lemma OneAheadMeansWhole(day: int, offset: int, x: int)
    requires x == day * MINUTES_PER_DAY + 1 - offset && x % 60 == 1
    ensures offset % 60 == 0
  {
    UniqueQuotient(offset, 60, 24 * day - x / 60, 0);
  }

  /** From 00:00 the search moves beyond 01:00 without looking at it. */
  lemma JumpsPastOne(d: Date, offset: int, n: nat)
    requires Valid(d) && offset % 60 != 0 && n >= 2
    requires Search(OneOClock(), Moment(d, 1), offset, n).Some?
    ensures ValidMoment(Search(OneOClock(), Moment(d, 1), offset, n).value)
    ensures Stamp(Search(OneOClock(), Moment(d, 1), offset, n).value) > Stamp(Moment(d, 60))
  {
    hide DayNumber;
    var c := OneOClock();
    var t := Moment(d, 1);
    var r := Advance(c, t, offset);
    FirstJump(d, offset);
    if r.minute < 60 {
      var s := Advance(c, r, offset);
      assert s.date == d && s.minute == r.minute + 60;
      SearchNotBefore(c, s, offset, n - 2);
    } else {
      SearchNotBefore(c, r, offset, n - 1);
    }
  }

  /** Next keeps its promise for every expression and start exactly in zones a whole number of hours off UTC. */
  lemma CorrectExactlyForWholeHours(offset: int, n: nat)
    requires n >= ENOUGH_ITERATIONS
    ensures (forall c, now :: CronOk(c) && ValidMoment(now) ==>
                                NextCorrect(c, now, Search(c, AddMinutes(now, 1), offset, n)))
            <==> offset % 60 == 0
  {
    if offset % 60 == 0 {
      forall c, now | CronOk(c) && ValidMoment(now)
        ensures NextCorrect(c, now, Search(c, AddMinutes(now, 1), offset, n))
      {
        NextIsCorrect(c, now, offset, n);
      }
    } else {
      var c, now := OneOClock(), Moment(Date(2026, 1, 1), 0);
      MissesOneOClock(now.date, offset, n);
      assert CronOk(c) && ValidMoment(now) && !NextCorrect(c, now, Search(c, AddMinutes(now, 1), offset, n));
    }
  }

  lemma MissesOneOClock(d: Date, offset: int, n: nat)
    requires Valid(d) && offset % 60 != 0 && n >= 2
    ensures !NextCorrect(OneOClock(), Moment(d, 0), Search(OneOClock(), AddMinutes(Moment(d, 0), 1), offset, n))
  {
    var c, now := OneOClock(), Moment(d, 0);
    assert AddMinutes(now, 1) == Moment(d, 1);
    OneOClockFires(d);
    if Search(c, Moment(d, 1), offset, n).Some? {
      JumpsPastOne(d, offset, n);
    }
  }

  // ----- The documented horizon -----

  /** "0 0 29 2 *". */
  function LeapDay(): (c: Cron)
    ensures CronOk(c)
  {
    var c := Cron(CronField({0}, false), CronField({0}, false), DomField(false, {29}, [], [], false),
                  CronField({2}, false), DowField(true, {}, [], []));
    assert 0 in c.minutes.values && 0 in c.hours.values;
    c
  }

  /** Next is not limited to about four years: from 29 February 2096 it answers 29 February 2104. */
  lemma FindsBeyondFourYears(offset: int, n: nat)
    requires offset % 60 == 0 && n >= ENOUGH_ITERATIONS
    ensures var now := Moment(Date(2096, 2, 29), 0);
            Search(LeapDay(), AddMinutes(now, 1), offset, n) == Some(Moment(Date(2104, 2, 29), 0))
  {
    var c := LeapDay();
    var now, next := Moment(Date(2096, 2, 29), 0), Moment(Date(2104, 2, 29), 0);
    NextIsCorrect(c, now, offset, n);
    LeapDayFires(next);
    var r := Search(c, AddMinutes(now, 1), offset, n).value;
    LeapDayFires(r);
    LeapDayAfter2096(now, r, next);
  }

  lemma LeapDayFires(t: Moment)
    requires ValidMoment(t)
    ensures Fires(LeapDay(), t) <==> t.date.month == 2 && t.date.day == 29 && t.minute == 0
    ensures Fires(LeapDay(), t) ==> DateFits(LeapDay(), t.date)
  {
  }

  lemma LeapDayAfter2096(now: Moment, r: Moment, next: Moment)
    requires now == Moment(Date(2096, 2, 29), 0) && next == Moment(Date(2104, 2, 29), 0)
    requires ValidMoment(r) && r.date.month == 2 && r.date.day == 29 && r.minute == 0
    requires Stamp(now) < Stamp(r) <= Stamp(next)
    ensures r == next
  {
    DayNumberOrders(now.date, r.date);
    DayNumberOrders(next.date, r.date);
    assert 2096 < r.date.year <= 2104;
    assert Leap(r.date.year);
  }
}
