/** Whole cron expressions: writing five fields with blanks between them and reading them back. */
module CronText {
  import opened Options
  import opened Text
  import opened Cron
  import opened CronNext
  import opened CronParse
  import opened CronTokens

  /** A field as it is written: every value, every step-th value, or a list. */
  datatype Written<T> = Star | Every(step: nat) | Listed(ts: seq<T>)

  /** What is written at all: a list has something in it. */
  predicate Shaped<T>(w: Written<T>) {
    w.Listed? ==> 0 < |w.ts|
  }

  predicate StepOk(step: nat) {
    0 < step <= MAX_INT
  }

  lemma StepText(step: nat)
    ensures var s := "*/" + Itoa(step);
            && Solid(s) && s != "*" && HasPrefix(s, "*/")
            && Atoi(s[2..]) == if step <= MAX_INT then Some(step) else None
  {
    hide Itoa, Atoi;
    var s := "*/" + Itoa(step);
    assert s[2..] == Itoa(step);
    AtoiOfItoa(step);
    SolidNumber(step);
    SolidConcat("*/", Itoa(step));
  }

  // ----- Minutes, hours and months -----

  predicate FieldOk(w: Written<Part>, min: int, max: int) {
    match w
    case Star => true
    case Every(step) => StepOk(step)
    case Listed(ts) => PartsOk(ts, min, max)
  }

  function FieldText(w: Written<Part>): string
    requires Shaped(w)
  {
    match w
    case Star => "*"
    case Every(step) => "*/" + Itoa(step)
    case Listed(ts) => Join(PartTexts(ts), ',')
  }

  ghost function FieldMeaning(w: Written<Part>, min: int, max: int): CronField
    requires FieldOk(w, min, max)
  {
    match w
    case Star => CronField(Span(min, max), true)
    case Every(step) => CronField(StepValues(min, max, step), false)
    case Listed(ts) => CronField(ListMeaning(ts), false)
  }

  lemma PartIsSolid(t: Part)
    ensures Solid(PartText(t))
  {
    hide Itoa;
    match t
    case Number(n) => SolidNumber(n);
    case Between(a, b) =>
      SolidNumber(a);
      SolidNumber(b);
      SolidConcat(Itoa(a), "-");
      SolidConcat(Itoa(a) + "-", Itoa(b));
  }

  lemma FieldParses(w: Written<Part>, min: int, max: int)
    requires Shaped(w) && max <= MAX_INT
    ensures Solid(FieldText(w))
    ensures FieldOf(FieldText(w), min, max) == if FieldOk(w, min, max) then Some(FieldMeaning(w, min, max)) else None
  {
    hide Itoa, Atoi, Join, Split, PartText, PartsOk, ListMeaning, StepValues, ListValues;
    match w
    case Star =>
    case Every(step) => StepText(step);
    case Listed(ts) =>
      forall i | 0 <= i < |ts| ensures Solid(PartTexts(ts)[i]) {
        PartIsSolid(ts[i]);
      }
      SolidJoin(PartTexts(ts), ',');
      ListRoundTrip(ts, min, max);
  }

  // ----- Days of the month -----

  predicate DomOk(w: Written<DomToken>) {
    match w
    case Star => true
    case Every(step) => StepOk(step)
    case Listed(ts) => DomTokensOk(ts)
  }

  function DomFieldText(w: Written<DomToken>): string
    requires Shaped(w)
  {
    match w
    case Star => "*"
    case Every(step) => "*/" + Itoa(step)
    case Listed(ts) => Join(DomTexts(ts), ',')
  }

  ghost function DomFieldMeaning(w: Written<DomToken>): DomField
    requires DomOk(w)
  {
    match w
    case Star => EMPTY_DOM.(wildcard := true)
    case Every(step) => EMPTY_DOM.(values := StepValues(1, 31, step))
    case Listed(ts) => DomMeaning(ts)
  }

  lemma DomIsSolid(t: DomToken)
    ensures Solid(DomText(t))
  {
    hide Itoa;
    match t
    case Day(n) => SolidNumber(n);
    case Days(a, b) =>
      SolidNumber(a);
      SolidNumber(b);
      SolidConcat(Itoa(a), "-");
      SolidConcat(Itoa(a) + "-", Itoa(b));
    case BeforeLast(n) =>
      SolidNumber(n);
      SolidConcat("L-", Itoa(n));
    case NearestTo(n) =>
      SolidNumber(n);
      SolidConcat(Itoa(n), "W");
    case _ =>
  }

  lemma DomParses(w: Written<DomToken>)
    requires Shaped(w)
    ensures Solid(DomFieldText(w))
    ensures DomOf(DomFieldText(w)) == if DomOk(w) then Some(DomFieldMeaning(w)) else None
  {
    hide Itoa, Atoi, Join, Split, DomText, DomTokensOk, DomMeaning, StepValues, DomList;
    match w
    case Star =>
    case Every(step) => StepText(step);
    case Listed(ts) =>
      forall i | 0 <= i < |ts| ensures Solid(DomTexts(ts)[i]) {
        DomIsSolid(ts[i]);
      }
      SolidJoin(DomTexts(ts), ',');
      DomRoundTrip(ts);
  }

  // ----- Days of the week -----

  predicate DowOk(w: Written<DowToken>) {
    match w
    case Star => true
    case Every(step) => StepOk(step)
    case Listed(ts) => DowTokensOk(ts)
  }

  function DowFieldText(w: Written<DowToken>): string
    requires Shaped(w)
  {
    match w
    case Star => "*"
    case Every(step) => "*/" + Itoa(step)
    case Listed(ts) => Join(DowTexts(ts), ',')
  }

  ghost function DowFieldMeaning(w: Written<DowToken>): DowField
    requires DowOk(w)
  {
    match w
    case Star => EMPTY_DOW.(wildcard := true)
    case Every(step) => EMPTY_DOW.(values := StepValues(0, 6, step))
    case Listed(ts) => DowMeaning(ts)
  }

  lemma DowIsSolid(t: DowToken)
    ensures Solid(DowText(t))
  {
    hide Itoa;
    match t
    case Weekday(n) => SolidNumber(n);
    case Weekdays(a, b) =>
      SolidNumber(a);
      SolidNumber(b);
      SolidConcat(Itoa(a), "-");
      SolidConcat(Itoa(a) + "-", Itoa(b));
    case LastWeekday(n) =>
      SolidNumber(n);
      SolidConcat(Itoa(n), "L");
    case NthWeekday(n, m) =>
      SolidNumber(n);
      SolidNumber(m);
      SolidConcat(Itoa(n), "#");
      SolidConcat(Itoa(n) + "#", Itoa(m));
  }

  lemma DowParses(w: Written<DowToken>)
    requires Shaped(w)
    ensures Solid(DowFieldText(w))
    ensures DowOf(DowFieldText(w)) == if DowOk(w) then Some(DowFieldMeaning(w)) else None
  {
    hide Itoa, Atoi, Join, Split, DowText, DowTokensOk, DowMeaning, StepValues, DowList;
    match w
    case Star =>
    case Every(step) => StepText(step);
    case Listed(ts) =>
      forall i | 0 <= i < |ts| ensures Solid(DowTexts(ts)[i]) {
        DowIsSolid(ts[i]);
      }
      SolidJoin(DowTexts(ts), ',');
      DowRoundTrip(ts);
  }

  // ----- The whole expression -----

  datatype Expression = Expression(
    minutes: Written<Part>, hours: Written<Part>, dom: Written<DomToken>, month: Written<Part>, dow: Written<DowToken>)

  predicate ExpressionShaped(e: Expression) {
    Shaped(e.minutes) && Shaped(e.hours) && Shaped(e.dom) && Shaped(e.month) && Shaped(e.dow)
  }

  predicate ExpressionOk(e: Expression) {
    FieldOk(e.minutes, 0, 59) && FieldOk(e.hours, 0, 23) && DomOk(e.dom) && FieldOk(e.month, 1, 12) && DowOk(e.dow)
  }

  function Words(e: Expression): seq<string>
    requires ExpressionShaped(e)
  {
    [FieldText(e.minutes), FieldText(e.hours), DomFieldText(e.dom), FieldText(e.month), DowFieldText(e.dow)]
  }

  ghost function Meaning(e: Expression): Cron
    requires ExpressionOk(e)
  {
    Cron(FieldMeaning(e.minutes, 0, 59), FieldMeaning(e.hours, 0, 23), DomFieldMeaning(e.dom),
      FieldMeaning(e.month, 1, 12), DowFieldMeaning(e.dow))
  }

  /**
   * Five written fields, joined by blanks, parse to exactly the five meanings if every number in them is in
   * bounds, every range in order and every step positive, and are rejected otherwise.
   */
  lemma ExpressionRoundTrip(e: Expression)
    requires ExpressionShaped(e)
    ensures CronOf(Join(Words(e), ' ')) == if ExpressionOk(e) then Some(Meaning(e)) else None
  {
    hide FieldOk, DomOk, DowOk, FieldText, DomFieldText, DowFieldText, FieldMeaning, DomFieldMeaning, DowFieldMeaning,
      FieldOf, DomOf, DowOf, Join, Fields, Solid;
    FieldParses(e.minutes, 0, 59);
    FieldParses(e.hours, 0, 23);
    DomParses(e.dom);
    FieldParses(e.month, 1, 12);
    DowParses(e.dow);
    FieldsOfJoin(Words(e));
  }

  /** Words joined by blanks are an expression only if there are five of them. */
  lemma FiveFieldsOrNone(words: seq<string>)
    requires words != [] && |words| != 5 && forall i :: 0 <= i < |words| ==> Solid(words[i])
    ensures CronOf(Join(words, ' ')) == None
  {
    hide Join, Fields, Solid;
    FieldsOfJoin(words);
  }

  lemma FiveWords(a: string, b: string, c: string, d: string, e: string)
    requires Solid(a) && Solid(b) && Solid(c) && Solid(d) && Solid(e)
    ensures Fields(a + " " + (b + " " + (c + " " + (d + " " + e)))) == [a, b, c, d, e]
  {
    hide Fields, Solid;
    assert [a, b, c, d, e][1..] == [b, c, d, e] && [b, c, d, e][1..] == [c, d, e];
    assert [c, d, e][1..] == [d, e] && [d, e][1..] == [e];
    assert Join([d, e], ' ') == d + " " + e;
    assert Join([c, d, e], ' ') == c + " " + (d + " " + e);
    assert Join([b, c, d, e], ' ') == b + " " + (c + " " + (d + " " + e));
    FieldsOfJoin([a, b, c, d, e]);
  }

  lemma FiveParse(spec: string, a: string, b: string, c: string, d: string, e: string, r: Cron)
    requires spec == a + " " + (b + " " + (c + " " + (d + " " + e)))
    requires Solid(a) && Solid(b) && Solid(c) && Solid(d) && Solid(e)
    requires FieldOf(a, 0, 59) == Some(r.minutes) && FieldOf(b, 0, 23) == Some(r.hours) && DomOf(c) == Some(r.dom)
    requires FieldOf(d, 1, 12) == Some(r.month) && DowOf(e) == Some(r.dow)
    ensures CronOf(spec) == Some(r)
  {
    hide Fields, Solid, FieldOf, DomOf, DowOf;
    FiveWords(a, b, c, d, e);
  }

  lemma StarFields()
    ensures FieldOf("*", 1, 12) == Some(CronField({1, 2, 3, 4, 5, 6, 7, 8, 9, 10, 11, 12}, true))
    ensures DomOf("*") == Some(EMPTY_DOM.(wildcard := true)) && DowOf("*") == Some(EMPTY_DOW.(wildcard := true))
  {
    assert Span(1, 12) == {1, 2, 3, 4, 5, 6, 7, 8, 9, 10, 11, 12};
  }

  lemma NumberField(n: nat, min: int, max: int)
    requires 0 <= min <= n <= max <= MAX_INT
    ensures FieldOf(Itoa(n), min, max) == Some(CronField({n}, false))
  {
    var w: Written<Part> := Listed([Number(n)]);
    assert [Number(n)][..0] == [];
    assert FieldText(w) == Itoa(n);
    assert ListMeaning([Number(n)]) == {n};
    hide FieldOf, FieldText, Itoa;
    FieldParses(w, min, max);
  }

  lemma DayField(n: nat)
    requires 1 <= n <= 31
    ensures DomOf(Itoa(n)) == Some(EMPTY_DOM.(values := {n}))
  {
    var w: Written<DomToken> := Listed([Day(n)]);
    assert [Day(n)][..0] == [];
    assert DomFieldText(w) == Itoa(n);
    assert DomMeaning([Day(n)]) == EMPTY_DOM.(values := {n});
    hide DomOf, DomFieldText, Itoa;
    DomParses(w);
  }

  lemma SmallNumbers()
    ensures Itoa(0) == "0" && Itoa(1) == "1" && Itoa(2) == "2" && Itoa(29) == "29"
  {
    assert Itoa(29) == Itoa(2) + "9";
  }

  /** The expression that zones off the whole hour miss is the one written "0 1 * * *". */
  lemma OneOClockIsWritten()
    ensures CronOf("0 1 * * *") == Some(OneOClock())
  {
    hide CronOf, Itoa, FieldOf, DomOf, DowOf;
    SmallNumbers();
    NumberField(0, 0, 59);
    NumberField(1, 0, 23);
    StarFields();
    FiveParse("0 1 * * *", "0", "1", "*", "*", "*", OneOClock());
  }

  /** The expression with eight years between firings is the one written "0 0 29 2 *". */
  lemma LeapDayIsWritten()
    ensures CronOf("0 0 29 2 *") == Some(LeapDay())
  {
    hide CronOf, Itoa, FieldOf, DomOf, DowOf;
    SmallNumbers();
    NumberField(0, 0, 59);
    NumberField(0, 0, 23);
    NumberField(2, 1, 12);
    DayField(29);
    StarFields();
    FiveParse("0 0 29 2 *", "0", "0", "29", "2", "*", LeapDay());
  }
}
