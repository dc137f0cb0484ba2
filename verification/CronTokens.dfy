/** Writing day-of-month and day-of-week lists and reading them back. */
module CronTokens {
  import opened Options
  import opened Text
  import opened Cron
  import opened CronParse

  // ----- Day of month -----

  datatype DomToken =
    | Day(n: nat)
    | Days(a: nat, b: nat)
    | LastDay
    | BeforeLast(n: nat)
    | NearestTo(n: nat)
    | NearestToLast

  predicate DomTokenOk(t: DomToken) {
    match t
    case Day(n) => 1 <= n <= 31
    case Days(a, b) => 1 <= a <= b <= 31
    case BeforeLast(n) => 0 <= n <= 30
    case NearestTo(n) => 1 <= n <= 31
    case _ => true
  }

  function DomText(t: DomToken): string {
    match t
    case Day(n) => Itoa(n)
    case Days(a, b) => Itoa(a) + "-" + Itoa(b)
    case LastDay => "L"
    case BeforeLast(n) => "L-" + Itoa(n)
    case NearestTo(n) => Itoa(n) + "W"
    case NearestToLast => "LW"
  }

  /** What the token adds to the field. */
  function WithDomToken(f: DomField, t: DomToken): DomField {
    match t
    case Day(n) => f.(values := f.values + {n})
    case Days(a, b) => f.(values := f.values + Span(a, b))
    case LastDay => f.(lastOffsets := f.lastOffsets + [0])
    case BeforeLast(n) => f.(lastOffsets := f.lastOffsets + [n])
    case NearestTo(n) => f.(nearestW := f.nearestW + [n])
    case NearestToLast => f.(hasLW := true)
  }

  lemma DomTextIsTight(t: DomToken)
    ensures DomText(t) != [] && ',' !in DomText(t) && DomText(t)[0] != '*' && TrimSpace(DomText(t)) == DomText(t)
  {
    hide Itoa, TrimSpace;
    match t
    case Day(n) => NumberTextIsPlain(n);
    case Days(a, b) => RangePart(a, b, 1, 31);
    case LastDay => TrimOfTight("L");
    case BeforeLast(n) =>
      NumberTextIsPlain(n);
      assert IsDigit(Itoa(n)[|Itoa(n)| - 1]);
      TrimOfTight(DomText(t));
    case NearestTo(n) =>
      NumberTextIsPlain(n);
      assert IsDigit(Itoa(n)[0]);
      TrimOfTight(DomText(t));
    case NearestToLast => TrimOfTight("LW");
  }

  /** A written day token is accepted exactly when its numbers are days of a month. */
  lemma DomTokenParses(f: DomField, t: DomToken)
    ensures AddDomToken(f, DomText(t)) == if DomTokenOk(t) then Some(WithDomToken(f, t)) else None
  {
    hide Itoa, Atoi;
    var s := DomText(t);
    match t
    case Day(n) =>
      NumberTextIsPlain(n);
      AtoiOfItoa(n);
      assert IsDigit(s[0]) && IsDigit(s[|s| - 1]);
    case Days(a, b) =>
      RangePart(a, b, 1, 31);
      assert IsDigit(Itoa(a)[0]) && IsDigit(Itoa(b)[|Itoa(b)| - 1]);
      assert s[0] == Itoa(a)[0] && s[|s| - 1] == Itoa(b)[|Itoa(b)| - 1];
    case LastDay =>
    case BeforeLast(n) =>
      AtoiOfItoa(n);
      assert s[2..] == Itoa(n);
      assert s[1] == '-';
    case NearestTo(n) =>
      AtoiOfItoa(n);
      assert s[..|s| - 1] == Itoa(n);
      assert IsDigit(s[0]);
    case NearestToLast =>
  }

  predicate DomTokensOk(ts: seq<DomToken>) {
    forall i :: 0 <= i < |ts| ==> DomTokenOk(ts[i])
  }

  function DomTexts(ts: seq<DomToken>): (r: seq<string>)
    ensures |r| == |ts| && forall i :: 0 <= i < |ts| ==> r[i] == DomText(ts[i])
  {
    if ts == [] then [] else DomTexts(ts[..|ts| - 1]) + [DomText(ts[|ts| - 1])]
  }

  function DomMeaning(ts: seq<DomToken>): DomField {
    if ts == [] then EMPTY_DOM else WithDomToken(DomMeaning(ts[..|ts| - 1]), ts[|ts| - 1])
  }

  lemma {:induction false} DomListParses(ts: seq<DomToken>)
    ensures DomList(DomTexts(ts)) == if DomTokensOk(ts) then Some(DomMeaning(ts)) else None
  {
    hide DomText, TrimSpace, AddDomToken, DomTokenOk;
    if ts != [] {
      var init, last := ts[..|ts| - 1], ts[|ts| - 1];
      DomListParses(init);
      assert DomTexts(ts)[..|ts| - 1] == DomTexts(init);
      DomTextIsTight(last);
      DomTokenParses(DomMeaning(init), last);
      assert DomTokensOk(ts) <==> DomTokensOk(init) && DomTokenOk(last);
    }
  }

  /** A list of day tokens, written with commas, parses to exactly what its tokens say, or is rejected if one is bad. */
  lemma DomRoundTrip(ts: seq<DomToken>)
    requires ts != []
    ensures DomOf(Join(DomTexts(ts), ',')) == if DomTokensOk(ts) then Some(DomMeaning(ts)) else None
  {
    hide DomText, DomList, Split, Join, DomTokensOk, TrimSpace, DomMeaning;
    var parts := DomTexts(ts);
    forall i | 0 <= i < |parts| ensures ',' !in parts[i] {
      DomTextIsTight(ts[i]);
    }
    SplitOfJoin(parts, ',');
    DomListParses(ts);
    DomTextIsTight(ts[0]);
    JoinStarts(parts, ',');
  }

  // ----- Day of week -----

  datatype DowToken =
    | Weekday(n: nat)
    | Weekdays(a: nat, b: nat)
    | LastWeekday(n: nat)
    | NthWeekday(n: nat, m: nat)

  /** Weekdays are written 0 to 7; with 7 read as 0, a range does not wrap around. */
  predicate DowTokenOk(t: DowToken) {
    match t
    case Weekday(n) => 0 <= n <= 7
    case Weekdays(a, b) => 0 <= a <= 7 && 0 <= b <= 7 && a % 7 <= b % 7
    case LastWeekday(n) => 0 <= n <= 7
    case NthWeekday(n, m) => 0 <= n <= 7 && 1 <= m <= 5
  }

  function DowText(t: DowToken): string {
    match t
    case Weekday(n) => Itoa(n)
    case Weekdays(a, b) => Itoa(a) + "-" + Itoa(b)
    case LastWeekday(n) => Itoa(n) + "L"
    case NthWeekday(n, m) => Itoa(n) + "#" + Itoa(m)
  }

  /** 7 is Sunday, like 0. */
  function WithDowToken(f: DowField, t: DowToken): DowField {
    match t
    case Weekday(n) => f.(values := f.values + {n % 7})
    case Weekdays(a, b) => f.(values := f.values + Span(a % 7, b % 7))
    case LastWeekday(n) => f.(lastDow := f.lastDow + [n % 7])
    case NthWeekday(n, m) => f.(nthDow := f.nthDow + [NthDowEntry(n % 7, m)])
  }

  lemma DowTextIsTight(t: DowToken)
    ensures DowText(t) != [] && ',' !in DowText(t) && DowText(t)[0] != '*' && TrimSpace(DowText(t)) == DowText(t)
  {
    hide Itoa, TrimSpace;
    NumberTextIsPlain(if t.Weekdays? then t.a else t.n);
    var s := DowText(t);
    assert IsDigit(Itoa(if t.Weekdays? then t.a else t.n)[0]);
    assert IsDigit(s[0]);
    assert !IsSpace(s[|s| - 1]) by {
      if t.Weekdays? {
        NumberTextIsPlain(t.b);
        assert s[|s| - 1] == Itoa(t.b)[|Itoa(t.b)| - 1];
      } else if t.NthWeekday? {
        NumberTextIsPlain(t.m);
        assert s[|s| - 1] == Itoa(t.m)[|Itoa(t.m)| - 1];
      }
      assert IsDigit(s[|s| - 1]) || s[|s| - 1] == 'L';
    }
    if t.Weekdays? {
      NumberTextIsPlain(t.b);
    } else if t.NthWeekday? {
      NumberTextIsPlain(t.m);
    }
    TrimOfTight(s);
  }

  lemma NoHash(n: nat)
    ensures '#' !in Itoa(n)
  {
    var s := Itoa(n);
    assert forall i :: 0 <= i < |s| ==> IsDigit(s[i]);
  }

  lemma WeekdayParses(f: DowField, n: nat)
    ensures AddDowToken(f, Itoa(n)) == if n <= 7 then Some(f.(values := f.values + {n % 7})) else None
  {
    hide Itoa, Atoi, CutBefore, CutAfter, Span;
    var s := Itoa(n);
    NumberTextIsPlain(n);
    NoHash(n);
    AtoiOfItoa(n);
    assert IsDigit(s[|s| - 1]);
    assert s[|s| - 1..] == [s[|s| - 1]];
    assert !HasSuffix(s, "L");
  }

  lemma DashToken(f: DowField, s: string, a: nat, b: nat)
    requires '-' in s && '#' !in s && !HasSuffix(s, "L")
    requires Atoi(CutBefore(s, '-')) == if a <= MAX_INT then Some(a) else None
    requires Atoi(CutAfter(s, '-')) == if b <= MAX_INT then Some(b) else None
    ensures AddDowToken(f, s) ==
            if a <= 7 && b <= 7 && a % 7 <= b % 7 then Some(f.(values := f.values + Span(a % 7, b % 7))) else None
  {
    hide Atoi, CutBefore, CutAfter, Span, HasSuffix;
  }

  lemma WeekdaysParse(f: DowField, a: nat, b: nat)
    ensures AddDowToken(f, Itoa(a) + "-" + Itoa(b)) ==
            if a <= 7 && b <= 7 && a % 7 <= b % 7 then Some(f.(values := f.values + Span(a % 7, b % 7))) else None
  {
    hide Itoa, Atoi, CutBefore, CutAfter, AddDowToken;
    var s := Itoa(a) + "-" + Itoa(b);
    NoHash(a);
    NoHash(b);
    NumberTextIsPlain(a);
    AtoiOfItoa(a);
    AtoiOfItoa(b);
    CutOfJoined(Itoa(a), Itoa(b), '-');
    assert s == Itoa(a) + ['-'] + Itoa(b);
    assert s[|Itoa(a)|] == '-';
    assert s[|s| - 1] == Itoa(b)[|Itoa(b)| - 1];
    assert IsDigit(s[|s| - 1]);
    assert s[|s| - 1..] == [s[|s| - 1]];
    DashToken(f, s, a, b);
  }

  lemma LastWeekdayParses(f: DowField, n: nat)
    ensures AddDowToken(f, Itoa(n) + "L") == if n <= 7 then Some(f.(lastDow := f.lastDow + [n % 7])) else None
  {
    hide Itoa, Atoi, CutBefore, CutAfter, Span;
    var s := Itoa(n) + "L";
    NoHash(n);
    AtoiOfItoa(n);
    assert s[..|s| - 1] == Itoa(n);
    assert s[|s| - 1..] == "L";
    assert HasSuffix(s, "L") && '#' !in s;
  }

  lemma HashToken(f: DowField, s: string, n: nat, m: nat)
    requires '#' in s
    requires Atoi(CutBefore(s, '#')) == if n <= MAX_INT then Some(n) else None
    requires Atoi(CutAfter(s, '#')) == if m <= MAX_INT then Some(m) else None
    ensures AddDowToken(f, s) ==
            if n <= 7 && 1 <= m <= 5 then Some(f.(nthDow := f.nthDow + [NthDowEntry(n % 7, m)])) else None
  {
    hide Atoi, CutBefore, CutAfter, Span, HasSuffix;
  }

  lemma NthWeekdayParses(f: DowField, n: nat, m: nat)
    ensures AddDowToken(f, Itoa(n) + "#" + Itoa(m)) ==
            if n <= 7 && 1 <= m <= 5 then Some(f.(nthDow := f.nthDow + [NthDowEntry(n % 7, m)])) else None
  {
    hide Itoa, Atoi, CutBefore, CutAfter, AddDowToken;
    var s := Itoa(n) + "#" + Itoa(m);
    NoHash(n);
    AtoiOfItoa(n);
    AtoiOfItoa(m);
    CutOfJoined(Itoa(n), Itoa(m), '#');
    assert s == Itoa(n) + ['#'] + Itoa(m);
    assert s[|Itoa(n)|] == '#';
    HashToken(f, s, n, m);
  }

  /** A written weekday token is accepted exactly when its numbers are weekdays, in order, and an occurrence 1 to 5. */
  lemma DowTokenParses(f: DowField, t: DowToken)
    ensures AddDowToken(f, DowText(t)) == if DowTokenOk(t) then Some(WithDowToken(f, t)) else None
  {
    hide Itoa, AddDowToken, Span;
    match t
    case Weekday(n) => WeekdayParses(f, n);
    case Weekdays(a, b) => WeekdaysParse(f, a, b);
    case LastWeekday(n) => LastWeekdayParses(f, n);
    case NthWeekday(n, m) => NthWeekdayParses(f, n, m);
  }

  predicate DowTokensOk(ts: seq<DowToken>) {
    forall i :: 0 <= i < |ts| ==> DowTokenOk(ts[i])
  }

  function DowTexts(ts: seq<DowToken>): (r: seq<string>)
    ensures |r| == |ts| && forall i :: 0 <= i < |ts| ==> r[i] == DowText(ts[i])
  {
    if ts == [] then [] else DowTexts(ts[..|ts| - 1]) + [DowText(ts[|ts| - 1])]
  }

  function DowMeaning(ts: seq<DowToken>): DowField {
    if ts == [] then EMPTY_DOW else WithDowToken(DowMeaning(ts[..|ts| - 1]), ts[|ts| - 1])
  }

  lemma {:induction false} DowListParses(ts: seq<DowToken>)
    ensures DowList(DowTexts(ts)) == if DowTokensOk(ts) then Some(DowMeaning(ts)) else None
  {
    hide DowText, TrimSpace, AddDowToken, DowTokenOk;
    if ts != [] {
      var init, last := ts[..|ts| - 1], ts[|ts| - 1];
      DowListParses(init);
      assert DowTexts(ts)[..|ts| - 1] == DowTexts(init);
      DowTextIsTight(last);
      DowTokenParses(DowMeaning(init), last);
      assert DowTokensOk(ts) <==> DowTokensOk(init) && DowTokenOk(last);
    }
  }

  /** A list of weekday tokens, written with commas, parses to exactly what its tokens say, or is rejected. */
  lemma DowRoundTrip(ts: seq<DowToken>)
    requires ts != []
    ensures DowOf(Join(DowTexts(ts), ',')) == if DowTokensOk(ts) then Some(DowMeaning(ts)) else None
  {
    hide DowText, DowList, Split, Join, DowTokensOk, TrimSpace, DowMeaning;
    var parts := DowTexts(ts);
    forall i | 0 <= i < |parts| ensures ',' !in parts[i] {
      DowTextIsTight(ts[i]);
    }
    SplitOfJoin(parts, ',');
    DowListParses(ts);
    DowTextIsTight(ts[0]);
    JoinStarts(parts, ',');
  }
}
