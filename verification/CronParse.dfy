/** ParseCron and its field parsers. Error texts are not modelled: a rejected field is None. */
module CronParse {
  import opened Options
  import opened Text
  import opened Calendar
  import opened Cron
  import opened CronNext

  // ----- Value sets -----

  function Span(a: int, b: int): (s: set<int>)
    ensures forall v :: v in s <==> a <= v <= b
    decreases b - a + 1
  {
    if a > b then {} else {a} + Span(a + 1, b)
  }

  ghost predicate Aligned(distance: int, step: int)
    requires step > 0
  {
    distance % step == 0
  }

  ghost function Progression(min: int, max: int, step: int): set<int>
    requires step > 0
  {
    set v | v in Span(min, max) && Aligned(v - min, step)
  }

  function Wrap(i: int): int {
    if i > MAX_INT then i - 0x1_0000_0000_0000_0000 else i
  }

  /** What the step loop collects: the progression, unless the counter wraps around 64 bits. */
  ghost function StepValues(min: int, max: int, step: int): set<int>
    requires step > 0
  {
    if min + step <= MAX_INT then Progression(min, max, step) else {min, Wrap(min + step), Wrap(min + step) + step}
  }

  lemma NextAligned(d: int, step: int, e: int)
    requires step > 0 && Aligned(d, step)
    ensures Aligned(d + step, step)
    ensures d < e < d + step ==> !Aligned(e, step)
  {
    var q := d / step;
    assert d == step * q;
    assert d + step == step * (q + 1) by {
      assert step * (q + 1) == step * q + step;
    }
    UniqueQuotient(d + step, step, q + 1, 0);
    if d < e < d + step {
      UniqueQuotient(e, step, q, e - d);
    }
  }

  method FillSpan(values: set<int>, a: int, b: int) returns (r: set<int>)
    ensures r == values + Span(a, b)
  {
    r := values;
    var i := a;
    while i <= b
      invariant a <= i && (i <= b + 1 || i == a)
      invariant r == values + Span(a, i - 1)
    {
      r := r + {i};
      i := i + 1;
    }
  }

  /** The loop i = min; i <= max; i += step on 64-bit integers. */
  method FillSteps(min: int, max: int, step: int) returns (r: set<int>)
    requires 0 <= min <= 1 && min <= max <= 59 && 0 < step <= MAX_INT
    ensures r == StepValues(min, max, step)
  {
    r := {};
    var i := min;
    ghost var wraps := min + step > MAX_INT;
    while i <= max
      invariant !wraps ==> min <= i && Aligned(i - min, step)
      invariant !wraps ==> r == set v | v in Span(min, max) && v < i && Aligned(v - min, step)
      invariant wraps ==> min == 1 && step == MAX_INT
      invariant wraps ==> || (i == 1 && r == {})
                          || (i == MIN_INT && r == {1})
                          || (i == -1 && r == {1, MIN_INT})
                          || (i == MAX_INT - 1 && r == {1, MIN_INT, -1})
      decreases if !wraps then max + 1 - i
                else if i == 1 then 3 else if i == MIN_INT then 2 else if i == -1 then 1 else 0
    {
      r := r + {i};
      if !wraps {
        NoWrap(min, max, step, i);
        forall v | v in Span(min, max)
          ensures (v < i + step && Aligned(v - min, step)) <==> (v < i && Aligned(v - min, step)) || v == i
        {
          NextAligned(i - min, step, v - min);
        }
        NextAligned(i - min, step, 0);
      }
      i := Wrap(i + step);
    }
    assert !wraps ==> r == Progression(min, max, step);
  }

  lemma NoWrap(min: int, max: int, step: int, i: int)
    requires 0 <= min <= 1 && max <= 59 && 0 < step && min + step <= MAX_INT
    requires min <= i <= max && Aligned(i - min, step)
    ensures i + step <= MAX_INT
  {
    if step > 59 {
      assert 0 <= i - min < step;
      UniqueQuotient(i - min, step, 0, i - min);
    }
  }

  // ----- Minute, hour and month fields -----

  /** The values of one trimmed element of a list: a range or a number, in bounds. */
  function PartValues(part: string, min: int, max: int): (r: Option<set<int>>) {
    if '-' in part then
      var start, end := Atoi(CutBefore(part, '-')), Atoi(CutAfter(part, '-'));
      if start.None? || end.None? || start.value > end.value || start.value < min || end.value > max then None
      else Some(Span(start.value, end.value))
    else
      var v := Atoi(part);
      if v.None? || v.value < min || v.value > max then None else Some({v.value})
  }

  function ListValues(parts: seq<string>, min: int, max: int): (r: Option<set<int>>) {
    if parts == [] then Some({})
    else
      var init := ListValues(parts[..|parts| - 1], min, max);
      var last := PartValues(TrimSpace(parts[|parts| - 1]), min, max);
      if init.None? || last.None? then None else Some(init.value + last.value)
  }

  ghost function FieldOf(field: string, min: int, max: int): (r: Option<CronField>) {
    if field == "*" then Some(CronField(Span(min, max), true))
    else if HasPrefix(field, "*/") then
      var step := Atoi(field[2..]);
      if step.None? || step.value <= 0 then None else Some(CronField(StepValues(min, max, step.value), false))
    else
      var values := ListValues(Split(field, ','), min, max);
      if values.None? then None else Some(CronField(values.value, false))
  }

  lemma {:induction false} ListFailsEarly(parts: seq<string>, n: nat, min: int, max: int)
    requires n <= |parts| && ListValues(parts[..n], min, max).None?
    ensures ListValues(parts, min, max).None?
    decreases |parts|
  {
    if n < |parts| {
      assert parts[..|parts| - 1][..n] == parts[..n];
      ListFailsEarly(parts[..|parts| - 1], n, min, max);
    } else {
      assert parts[..n] == parts;
    }
  }

  method ParseCronField(field: string, min: int, max: int) returns (r: Option<CronField>)
    requires 0 <= min <= 1 && min <= max <= 59
    ensures r == FieldOf(field, min, max)
  {
    if field == "*" {
      var all := FillSpan({}, min, max);
      assert all == Span(min, max);
      return Some(CronField(all, true));
    }
    if HasPrefix(field, "*/") {
      var step := Atoi(field[2..]);
      if step.None? || step.value <= 0 {
        return None;
      }
      var steps := FillSteps(min, max, step.value);
      return Some(CronField(steps, false));
    }
    var values := ParseList(Split(field, ','), min, max);
    r := if values.None? then None else Some(CronField(values.value, false));
  }

  method ParseList(parts: seq<string>, min: int, max: int) returns (r: Option<set<int>>)
    ensures r == ListValues(parts, min, max)
  {
    hide Atoi, TrimSpace;
    var values: set<int> := {};
    for n := 0 to |parts|
      invariant ListValues(parts[..n], min, max) == Some(values)
    {
      assert parts[..n + 1][..n] == parts[..n];
      var part := TrimSpace(parts[n]);
      if '-' in part {
        var start, end := Atoi(CutBefore(part, '-')), Atoi(CutAfter(part, '-'));
        if start.None? || end.None? || start.value > end.value || start.value < min || end.value > max {
          ListFailsEarly(parts, n + 1, min, max);
          return None;
        }
        values := FillSpan(values, start.value, end.value);
      } else {
        var v := Atoi(part);
        if v.None? || v.value < min || v.value > max {
          ListFailsEarly(parts, n + 1, min, max);
          return None;
        }
        values := values + {v.value};
      }
    }
    assert parts[..|parts|] == parts;
    return Some(values);
  }

  /** A list holds exactly the values of its parts, all in bounds, and is not empty. */
  lemma {:induction false} ListInBounds(parts: seq<string>, min: int, max: int)
    requires ListValues(parts, min, max).Some?
    ensures forall v :: v in ListValues(parts, min, max).value ==> min <= v <= max
    ensures parts != [] ==> exists v :: v in ListValues(parts, min, max).value
  {
    if parts != [] {
      ListInBounds(parts[..|parts| - 1], min, max);
      var last := PartValues(TrimSpace(parts[|parts| - 1]), min, max).value;
      assert exists v :: v in last by {
        var part := TrimSpace(parts[|parts| - 1]);
        if '-' in part {
          assert Atoi(CutBefore(part, '-')).value in last;
        } else {
          assert Atoi(part).value in last;
        }
      }
      var w :| w in last;
      assert w in ListValues(parts, min, max).value;
    }
  }

  /** Every accepted field has a value in its range. */
  lemma AcceptedFieldCanMatch(field: string, min: int, max: int)
    requires 0 <= min <= 1 && min <= max <= 59 && FieldOf(field, min, max).Some?
    ensures exists v :: min <= v <= max && v in FieldOf(field, min, max).value.values
  {
    var values := FieldOf(field, min, max).value.values;
    if field == "*" {
      assert min in values;
    } else if HasPrefix(field, "*/") {
      var step := Atoi(field[2..]).value;
      UniqueQuotient(0, step, 0, 0);
      assert min in values;
    } else {
      ListInBounds(Split(field, ','), min, max);
      var v :| v in values;
    }
  }

  /** Every value is in range exactly when no step wraps the 64-bit loop counter. */
  lemma ValuesInRangeExactly(field: string, min: int, max: int)
    requires 0 <= min <= 1 && min <= max <= 59 && FieldOf(field, min, max).Some?
    ensures (forall v :: v in FieldOf(field, min, max).value.values ==> min <= v <= max) <==>
            !(HasPrefix(field, "*/") && min + Atoi(field[2..]).value > MAX_INT)
  {
    var values := FieldOf(field, min, max).value.values;
    if field == "*" {
    } else if HasPrefix(field, "*/") {
      var step := Atoi(field[2..]).value;
      if min + step > MAX_INT {
        assert Wrap(min + step) in values;
      }
    } else {
      ListInBounds(Split(field, ','), min, max);
    }
  }

  // ----- Writing a field and reading it back -----

  /** An element of a list: a number or a range. */
  datatype Part = Number(n: nat) | Between(a: nat, b: nat)

  predicate PartOk(t: Part, min: int, max: int) {
    match t
    case Number(n) => min <= n <= max
    case Between(a, b) => min <= a <= b <= max
  }

  predicate PartsOk(ts: seq<Part>, min: int, max: int) {
    forall i :: 0 <= i < |ts| ==> PartOk(ts[i], min, max)
  }

  function PartText(t: Part): string {
    match t
    case Number(n) => Itoa(n)
    case Between(a, b) => Itoa(a) + "-" + Itoa(b)
  }

  function PartMeaning(t: Part): set<int> {
    match t
    case Number(n) => {n}
    case Between(a, b) => Span(a, b)
  }

  function PartTexts(ts: seq<Part>): (r: seq<string>)
    ensures |r| == |ts| && forall i :: 0 <= i < |ts| ==> r[i] == PartText(ts[i])
  {
    if ts == [] then [] else PartTexts(ts[..|ts| - 1]) + [PartText(ts[|ts| - 1])]
  }

  function ListMeaning(ts: seq<Part>): set<int> {
    if ts == [] then {} else ListMeaning(ts[..|ts| - 1]) + PartMeaning(ts[|ts| - 1])
  }

  lemma NumberTextIsPlain(n: nat)
    ensures '-' !in Itoa(n) && ',' !in Itoa(n) && TrimSpace(Itoa(n)) == Itoa(n) && Itoa(n)[0] != '*'
  {
    var s := Itoa(n);
    assert forall i :: 0 <= i < |s| ==> IsDigit(s[i]);
    assert IsDigit(s[0]) && IsDigit(s[|s| - 1]);
    TrimOfTight(s);
  }

  /** A written number or range is accepted exactly when it is in bounds and in order. */
  lemma PartParses(t: Part, min: int, max: int)
    requires max <= MAX_INT
    ensures var s := PartText(t);
            && s != [] && s[0] != '*' && ',' !in s && TrimSpace(s) == s
            && PartValues(s, min, max) == if PartOk(t, min, max) then Some(PartMeaning(t)) else None
  {
    hide Itoa, PartValues, Span, TrimSpace;
    match t
    case Number(n) =>
      NumberTextIsPlain(n);
      NumberPart(n, min, max);
    case Between(a, b) => RangePart(a, b, min, max);
  }

  lemma {:induction false} ListParses(ts: seq<Part>, min: int, max: int)
    requires max <= MAX_INT
    ensures ListValues(PartTexts(ts), min, max) == if PartsOk(ts, min, max) then Some(ListMeaning(ts)) else None
  {
    hide PartText, PartMeaning, PartOk, TrimSpace, PartValues;
    if ts != [] {
      var init, last := ts[..|ts| - 1], ts[|ts| - 1];
      ListParses(init, min, max);
      assert PartTexts(ts)[..|ts| - 1] == PartTexts(init);
      PartParses(last, min, max);
      assert PartsOk(ts, min, max) <==> PartsOk(init, min, max) && PartOk(last, min, max);
    }
  }

  lemma NumberPart(n: nat, min: int, max: int)
    requires max <= MAX_INT
    ensures PartValues(Itoa(n), min, max) == if min <= n <= max then Some({n as int}) else None
  {
    hide Itoa, Atoi;
    NumberTextIsPlain(n);
    AtoiOfItoa(n);
  }

  /**
   * A list of numbers and ranges, written with commas, parses back to exactly their values if every one is
   * in bounds and in order, and is rejected otherwise.
   */
  lemma ListRoundTrip(ts: seq<Part>, min: int, max: int)
    requires ts != [] && max <= MAX_INT
    ensures FieldOf(Join(PartTexts(ts), ','), min, max) ==
            if PartsOk(ts, min, max) then Some(CronField(ListMeaning(ts), false)) else None
  {
    hide ListValues, Split, Join, PartText, PartMeaning, PartsOk, TrimSpace, ListMeaning;
    var parts := PartTexts(ts);
    forall i | 0 <= i < |parts| ensures ',' !in parts[i] {
      PartParses(ts[i], min, max);
    }
    PartParses(ts[0], min, max);
    JoinStarts(parts, ',');
    SplitOfJoin(parts, ',');
    ListParses(ts, min, max);
  }

  lemma RangePart(a: nat, b: nat, min: int, max: int)
    requires max <= MAX_INT
    ensures var s := Itoa(a) + "-" + Itoa(b);
            && s[0] != '*' && ',' !in s && TrimSpace(s) == s
            && PartValues(s, min, max) == if min <= a <= b <= max then Some(Span(a, b)) else None
  {
    hide Itoa, Atoi;
    var s := Itoa(a) + "-" + Itoa(b);
    NumberTextIsPlain(a);
    NumberTextIsPlain(b);
    AtoiOfItoa(a);
    AtoiOfItoa(b);
    CutOfJoined(Itoa(a), Itoa(b), '-');
    assert s == Itoa(a) + ['-'] + Itoa(b);
    assert s[|Itoa(a)|] == '-';
    assert s[|s| - 1] == Itoa(b)[|Itoa(b)| - 1];
    assert IsDigit(s[|s| - 1]) && IsDigit(s[0]);
    TrimOfTight(s);
  }

  /** A written step means every step-th value of the range exactly when the counter cannot wrap. */
  lemma StepMeaning(step: int, min: int, max: int)
    requires 0 <= min <= 1 && min <= max <= 59 && 0 < step <= MAX_INT
    ensures FieldOf("*/" + Itoa(step), min, max).Some?
    ensures FieldOf("*/" + Itoa(step), min, max).value.values == Progression(min, max, step) <==> min + step <= MAX_INT
  {
    AtoiOfItoa(step);
    assert ("*/" + Itoa(step))[2..] == Itoa(step);
    if min + step > MAX_INT {
      assert Wrap(min + step) < 0;
      assert Wrap(min + step) !in Progression(min, max, step);
    }
  }

  // ----- Day-of-month field -----

  const EMPTY_DOM := DomField(false, {}, [], [], false)
  const EMPTY_DOW := DowField(false, {}, [], [])

  /** One case of the token switch. */
  function AddDomToken(f: DomField, token: string): (r: Option<DomField>) {
    if token == "L" then Some(f.(lastOffsets := f.lastOffsets + [0]))
    else if token == "LW" then Some(f.(hasLW := true))
    else if HasPrefix(token, "L-") then
      var n := Atoi(token[2..]);
      if n.None? || n.value < 0 || n.value > 30 then None else Some(f.(lastOffsets := f.lastOffsets + [n.value]))
    else if HasSuffix(token, "W") then
      var n := Atoi(token[..|token| - 1]);
      if n.None? || n.value < 1 || n.value > 31 then None else Some(f.(nearestW := f.nearestW + [n.value]))
    else
      var values := PartValues(token, 1, 31);
      if values.None? then None else Some(f.(values := f.values + values.value))
  }

  function DomList(tokens: seq<string>): (r: Option<DomField>) {
    if tokens == [] then Some(EMPTY_DOM)
    else
      var init := DomList(tokens[..|tokens| - 1]);
      if init.None? then None else AddDomToken(init.value, TrimSpace(tokens[|tokens| - 1]))
  }

  ghost function DomOf(field: string): (r: Option<DomField>) {
    if field == "*" then Some(EMPTY_DOM.(wildcard := true))
    else if HasPrefix(field, "*/") then
      var step := Atoi(field[2..]);
      if step.None? || step.value <= 0 then None else Some(EMPTY_DOM.(values := StepValues(1, 31, step.value)))
    else DomList(Split(field, ','))
  }

  lemma {:induction false} DomFailsEarly(tokens: seq<string>, n: nat)
    requires n <= |tokens| && DomList(tokens[..n]).None?
    ensures DomList(tokens).None?
    decreases |tokens|
  {
    if n < |tokens| {
      assert tokens[..|tokens| - 1][..n] == tokens[..n];
      DomFailsEarly(tokens[..|tokens| - 1], n);
    } else {
      assert tokens[..n] == tokens;
    }
  }

  method ParseDOMField(field: string) returns (r: Option<DomField>)
    ensures r == DomOf(field)
  {
    if field == "*" {
      return Some(EMPTY_DOM.(wildcard := true));
    }
    if HasPrefix(field, "*/") {
      var step := Atoi(field[2..]);
      if step.None? || step.value <= 0 {
        return None;
      }
      var steps := FillSteps(1, 31, step.value);
      return Some(EMPTY_DOM.(values := steps));
    }
    var tokens := Split(field, ',');
    var f := EMPTY_DOM;
    for n := 0 to |tokens|
      invariant DomList(tokens[..n]) == Some(f)
    {
      hide AddDomToken, TrimSpace;
      assert tokens[..n + 1][..n] == tokens[..n];
      var added := AddDomToken(f, TrimSpace(tokens[n]));
      if added.None? {
        DomFailsEarly(tokens, n + 1);
        return None;
      }
      f := added.value;
    }
    assert tokens[..|tokens|] == tokens;
    return Some(f);
  }

  // ----- Day-of-week field -----

  /** 7 is Sunday too. */
  function NormalizeDow(v: Option<int>): (r: Option<int>)
    ensures r.Some? ==> 0 <= r.value <= 6
  {
    if v.None? then None
    else
      var w := if v.value == 7 then 0 else v.value;
      if w < 0 || w > 6 then None else Some(w)
  }

  function AddDowToken(f: DowField, token: string): (r: Option<DowField>) {
    if '#' in token then
      var dow, n := NormalizeDow(Atoi(CutBefore(token, '#'))), Atoi(CutAfter(token, '#'));
      if dow.None? || n.None? || n.value < 1 || n.value > 5 then None
      else Some(f.(nthDow := f.nthDow + [NthDowEntry(dow.value, n.value)]))
    else if HasSuffix(token, "L") then
      var dow := NormalizeDow(Atoi(token[..|token| - 1]));
      if dow.None? then None else Some(f.(lastDow := f.lastDow + [dow.value]))
    else if '-' in token then
      var start, end := NormalizeDow(Atoi(CutBefore(token, '-'))), NormalizeDow(Atoi(CutAfter(token, '-')));
      if start.None? || end.None? || start.value > end.value then None
      else Some(f.(values := f.values + Span(start.value, end.value)))
    else
      var dow := NormalizeDow(Atoi(token));
      if dow.None? then None else Some(f.(values := f.values + {dow.value}))
  }

  function DowList(tokens: seq<string>): (r: Option<DowField>) {
    if tokens == [] then Some(EMPTY_DOW)
    else
      var init := DowList(tokens[..|tokens| - 1]);
      if init.None? then None else AddDowToken(init.value, TrimSpace(tokens[|tokens| - 1]))
  }

  ghost function DowOf(field: string): (r: Option<DowField>) {
    if field == "*" then Some(EMPTY_DOW.(wildcard := true))
    else if HasPrefix(field, "*/") then
      var step := Atoi(field[2..]);
      if step.None? || step.value <= 0 then None else Some(EMPTY_DOW.(values := StepValues(0, 6, step.value)))
    else DowList(Split(field, ','))
  }

  lemma {:induction false} DowFailsEarly(tokens: seq<string>, n: nat)
    requires n <= |tokens| && DowList(tokens[..n]).None?
    ensures DowList(tokens).None?
    decreases |tokens|
  {
    if n < |tokens| {
      assert tokens[..|tokens| - 1][..n] == tokens[..n];
      DowFailsEarly(tokens[..|tokens| - 1], n);
    } else {
      assert tokens[..n] == tokens;
    }
  }

  method ParseDOWField(field: string) returns (r: Option<DowField>)
    ensures r == DowOf(field)
  {
    if field == "*" {
      return Some(EMPTY_DOW.(wildcard := true));
    }
    if HasPrefix(field, "*/") {
      var step := Atoi(field[2..]);
      if step.None? || step.value <= 0 {
        return None;
      }
      var steps := FillSteps(0, 6, step.value);
      return Some(EMPTY_DOW.(values := steps));
    }
    var tokens := Split(field, ',');
    var f := EMPTY_DOW;
    for n := 0 to |tokens|
      invariant DowList(tokens[..n]) == Some(f)
    {
      hide AddDowToken, TrimSpace;
      assert tokens[..n + 1][..n] == tokens[..n];
      var added := AddDowToken(f, TrimSpace(tokens[n]));
      if added.None? {
        DowFailsEarly(tokens, n + 1);
        return None;
      }
      f := added.value;
    }
    assert tokens[..|tokens|] == tokens;
    return Some(f);
  }

  lemma {:induction false} DowListOk(tokens: seq<string>)
    requires DowList(tokens).Some?
    ensures DowEntriesOk(DowList(tokens).value)
  {
    hide Atoi, TrimSpace, Span;
    if tokens != [] {
      DowListOk(tokens[..|tokens| - 1]);
    }
  }

  // ----- The whole expression -----

  ghost function CronOf(spec: string): (r: Option<Cron>) {
    var parts := Fields(spec);
    if |parts| != 5 then None
    else
      var minutes, hours, month := FieldOf(parts[0], 0, 59), FieldOf(parts[1], 0, 23), FieldOf(parts[3], 1, 12);
      var dom, dow := DomOf(parts[2]), DowOf(parts[4]);
      if minutes.None? || hours.None? || dom.None? || month.None? || dow.None? then None
      else Some(Cron(minutes.value, hours.value, dom.value, month.value, dow.value))
  }

  /** Whatever parses can be searched: some minute and some hour match, and weekday entries are weekdays. */
  lemma ParsedIsOk(spec: string)
    requires CronOf(spec).Some?
    ensures CronOk(CronOf(spec).value)
  {
    hide FieldOf, DowList, StepValues;
    var parts := Fields(spec);
    AcceptedFieldCanMatch(parts[0], 0, 59);
    AcceptedFieldCanMatch(parts[1], 0, 23);
    if parts[4] != "*" && !HasPrefix(parts[4], "*/") {
      DowListOk(Split(parts[4], ','));
    }
  }

  method ParseCron(spec: string) returns (r: Option<Cron>)
    ensures r == CronOf(spec)
    ensures r.Some? ==> CronOk(r.value)
  {
    hide FieldOf, DomOf, DowOf, CronOk;
    var parts := Fields(spec);
    if |parts| != 5 {
      return None;
    }
    var minutes := ParseCronField(parts[0], 0, 59);
    if minutes.None? { return None; }
    var hours := ParseCronField(parts[1], 0, 23);
    if hours.None? { return None; }
    var dom := ParseDOMField(parts[2]);
    if dom.None? { return None; }
    var month := ParseCronField(parts[3], 1, 12);
    if month.None? { return None; }
    var dow := ParseDOWField(parts[4]);
    if dow.None? { return None; }
    r := Some(Cron(minutes.value, hours.value, dom.value, month.value, dow.value));
    ParsedIsOk(spec);
  }

  /** Registering a job: it fails on bad syntax and on expressions no calendar date fits, and on nothing else. */
  method FirstRun(spec: string, now: Moment, offset: int) returns (r: Option<Moment>)
    requires ValidMoment(now)
    ensures CronOf(spec).None? ==> r.None?
    ensures offset % 60 == 0 ==> (r.None? <==> CronOf(spec).None? || NeverFits(CronOf(spec).value))
    ensures offset % 60 == 0 && r.Some? ==> IsNextFiring(CronOf(spec).value, now, r.value)
  {
    var c := ParseCron(spec);
    if c.None? {
      return None;
    }
    r := Next(c.value, now, offset);
  }
}
