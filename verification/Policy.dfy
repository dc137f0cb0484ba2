/** The velocity policy: what Check allows, what Record counts, and how far requests in flight can overshoot. */
module Policy {
  import opened Options
  import opened Calendar
  import opened PolicyKeys
  import Counter

  /** Local time in the engine's zone: a date and the milliseconds since its midnight. */
  datatype Instant = Instant(date: Date, ms: int)

  const DAY_MS := 86400000
  const DAILY_TTL := 2 * DAY_MS
  const MONTHLY_TTL := 35 * DAY_MS

  predicate ValidInstant(t: Instant) {
    Valid(t.date) && t.date.year >= 0 && 0 <= t.ms < DAY_MS
  }

  function Millis(t: Instant): int
    requires 1 <= t.date.month <= 12
  {
    DayNumber(t.date) * DAY_MS + t.ms
  }

  // ----- Check -----

  /** A missing bound is no bound. */
  datatype Limit = Limit(
    maxPerTx: Option<int>,
    maxDailyAmount: Option<int>,
    maxDailyCount: Option<int>,
    maxMonthlyAmount: Option<int>,
    enabled: bool)

  datatype Rule = MaxPerTx | MaxWindow(kind: Kind)

  datatype Verdict = Allowed | Rejected(rule: Rule)

  function Cap(limit: Limit, kind: Kind): Option<int> {
    match kind
    case DailyAmount => limit.maxDailyAmount
    case DailyCount => limit.maxDailyCount
    case MonthlyAmount => limit.maxMonthlyAmount
  }

  /** What one transaction adds to a counter. */
  function Weight(kind: Kind, amount: int): int {
    if kind.DailyCount? then 1 else amount
  }

  predicate Exceeds(limit: Limit, kind: Kind, used: int, amount: int) {
    Cap(limit, kind).Some? && used + Weight(kind, amount) > Cap(limit, kind).value
  }

  /** Three counter reads; None is a failed read. */
  datatype Reads = Reads(dailyAmount: Option<int>, dailyCount: Option<int>, monthlyAmount: Option<int>)

  function Read(r: Reads, kind: Kind): Option<int> {
    match kind
    case DailyAmount => r.dailyAmount
    case DailyCount => r.dailyCount
    case MonthlyAmount => r.monthlyAmount
  }

  /** limit is None when none is configured or loading it failed. The dimensions are tried in order. */
  function CheckVerdict(limit: Option<Limit>, amount: int, r: Reads): Verdict {
    if limit.None? || !limit.value.enabled then Allowed
    else
      var l := limit.value;
      if l.maxPerTx.Some? && amount > l.maxPerTx.value then Rejected(MaxPerTx)
      else if l.maxDailyAmount.Some? && r.dailyAmount.None? then Allowed
      else if l.maxDailyAmount.Some? && r.dailyAmount.value + amount > l.maxDailyAmount.value
      then Rejected(MaxWindow(DailyAmount))
      else if l.maxDailyCount.Some? && r.dailyCount.None? then Allowed
      else if l.maxDailyCount.Some? && r.dailyCount.value + 1 > l.maxDailyCount.value
      then Rejected(MaxWindow(DailyCount))
      else if l.maxMonthlyAmount.Some? && r.monthlyAmount.None? then Allowed
      else if l.maxMonthlyAmount.Some? && r.monthlyAmount.value + amount > l.maxMonthlyAmount.value
      then Rejected(MaxWindow(MonthlyAmount))
      else Allowed
  }

  ghost predicate AllRead(r: Reads) {
    forall kind :: Read(r, kind).Some?
  }

  /** With every counter readable, Check allows exactly what breaks no bound. */
  lemma AllowsExactlyWithinBounds(l: Limit, amount: int, r: Reads)
    requires l.enabled && AllRead(r)
    ensures CheckVerdict(Some(l), amount, r).Allowed? <==>
            && (l.maxPerTx.Some? ==> amount <= l.maxPerTx.value)
            && (forall kind :: !Exceeds(l, kind, Read(r, kind).value, amount))
  {
    assert Read(r, DailyAmount).Some? && Read(r, DailyCount).Some? && Read(r, MonthlyAmount).Some?;
    assert CheckVerdict(Some(l), amount, r).Rejected? && CheckVerdict(Some(l), amount, r).rule.MaxWindow? ==>
        Exceeds(l, CheckVerdict(Some(l), amount, r).rule.kind,
            Read(r, CheckVerdict(Some(l), amount, r).rule.kind).value, amount);
  }

  /** A failed read never rejects, and whatever is rejected breaks the bound it names. */
  lemma RejectsOnlyBrokenBounds(limit: Option<Limit>, amount: int, r: Reads)
    requires CheckVerdict(limit, amount, r).Rejected?
    ensures limit.Some? && limit.value.enabled
    ensures match CheckVerdict(limit, amount, r).rule
            case MaxPerTx => limit.value.maxPerTx.Some? && amount > limit.value.maxPerTx.value
            case MaxWindow(kind) => Read(r, kind).Some? && Exceeds(limit.value, kind, Read(r, kind).value, amount)
  {
  }

  /** The order in which the counters are read. */
  function Rank(kind: Kind): int {
    match kind
    case DailyAmount => 0
    case DailyCount => 1
    case MonthlyAmount => 2
  }

  /** Every configured counter read before this one was readable and not exceeded. */
  ghost predicate PassedBefore(l: Limit, amount: int, r: Reads, kind: Kind) {
    forall k :: Rank(k) < Rank(kind) && Cap(l, k).Some? ==> Read(r, k).Some? && !Exceeds(l, k, Read(r, k).value, amount)
  }

  /** A rejection by a counter names the first bound broken, and every configured read before it succeeded. */
  lemma RejectsFirstBroken(limit: Option<Limit>, amount: int, r: Reads, kind: Kind)
    ensures CheckVerdict(limit, amount, r) == Rejected(MaxWindow(kind)) <==>
            && limit.Some? && limit.value.enabled
            && !(limit.value.maxPerTx.Some? && amount > limit.value.maxPerTx.value)
            && PassedBefore(limit.value, amount, r, kind)
            && Read(r, kind).Some? && Exceeds(limit.value, kind, Read(r, kind).value, amount)
  {
    if limit.Some? {
      var l := limit.value;
      assert Rank(DailyAmount) < Rank(DailyCount) < Rank(MonthlyAmount);
      assert PassedBefore(l, amount, r, DailyCount) <==>
             (Cap(l, DailyAmount).Some? ==>
                Read(r, DailyAmount).Some? && !Exceeds(l, DailyAmount, Read(r, DailyAmount).value, amount));
      assert PassedBefore(l, amount, r, MonthlyAmount) <==>
             && PassedBefore(l, amount, r, DailyCount)
             && (Cap(l, DailyCount).Some? ==>
                   Read(r, DailyCount).Some? && !Exceeds(l, DailyCount, Read(r, DailyCount).value, amount));
    }
  }

  /** The per-transaction bound comes first. */
  lemma RejectsPerTxExactly(limit: Option<Limit>, amount: int, r: Reads)
    ensures CheckVerdict(limit, amount, r) == Rejected(MaxPerTx) <==>
            && limit.Some? && limit.value.enabled
            && limit.value.maxPerTx.Some? && amount > limit.value.maxPerTx.value
  {
  }

  /** A failed read allows at once, whatever the counters after it hold. */
  lemma FailedReadAllows(l: Limit, amount: int, r: Reads, kind: Kind)
    requires Cap(l, kind).Some? && Read(r, kind).None? && PassedBefore(l, amount, r, kind)
    requires !(l.maxPerTx.Some? && amount > l.maxPerTx.value)
    ensures CheckVerdict(Some(l), amount, r) == Allowed
  {
    hide CheckVerdict;
    RejectsPerTxExactly(Some(l), amount, r);
    forall k ensures CheckVerdict(Some(l), amount, r) != Rejected(MaxWindow(k)) {
      RejectsFirstBroken(Some(l), amount, r, k);
      assert Rank(k) < Rank(kind) || Rank(kind) < Rank(k) || k == kind;
    }
    match CheckVerdict(Some(l), amount, r)
    case Allowed =>
    case Rejected(MaxPerTx) => assert false;
    case Rejected(MaxWindow(k)) => assert false;
  }

  /** What a read finds: the counter as it is at the read's own moment. */
  datatype Look = Look(values: Counter.Values, at: int)

  /** What the three reads show; kinds in failed stand for reads that err. The keys are of one date. */
  function ReadsAt(look: Kind -> Look, user: string, txType: string, currency: string, now: Instant,
                   failed: set<Kind>): Reads
    requires ValidInstant(now)
  {
    var read := (kind: Kind) =>
      if kind in failed then None
      else Some(Counter.Total(look(kind).values, Key(user, txType, currency, kind, now.date), look(kind).at));
    Reads(read(DailyAmount), read(DailyCount), read(MonthlyAmount))
  }

  /** The counters may change between the reads. */
  method Check(look: Kind -> Look, limit: Option<Limit>, user: string, txType: string, amount: int,
               currency: string, now: Instant, failed: set<Kind>)
    returns (v: Verdict)
    requires ValidInstant(now)
    ensures v == CheckVerdict(limit, amount, ReadsAt(look, user, txType, currency, now, failed))
  {
    hide Key, Counter.Total;
    if limit.None? || !limit.value.enabled {
      return Allowed;
    }
    var l := limit.value;
    if l.maxPerTx.Some? && amount > l.maxPerTx.value {
      return Rejected(MaxPerTx);
    }
    if l.maxDailyAmount.Some? {
      if DailyAmount in failed {
        return Allowed;
      }
      var seen := look(DailyAmount);
      var cur := Counter.Total(seen.values, Key(user, txType, currency, DailyAmount, now.date), seen.at);
      if cur + amount > l.maxDailyAmount.value {
        return Rejected(MaxWindow(DailyAmount));
      }
    }
    if l.maxDailyCount.Some? {
      if DailyCount in failed {
        return Allowed;
      }
      var seen := look(DailyCount);
      var cur := Counter.Total(seen.values, Key(user, txType, currency, DailyCount, now.date), seen.at);
      if cur + 1 > l.maxDailyCount.value {
        return Rejected(MaxWindow(DailyCount));
      }
    }
    if l.maxMonthlyAmount.Some? {
      if MonthlyAmount in failed {
        return Allowed;
      }
      var seen := look(MonthlyAmount);
      var cur := Counter.Total(seen.values, Key(user, txType, currency, MonthlyAmount, now.date), seen.at);
      if cur + amount > l.maxMonthlyAmount.value {
        return Rejected(MaxWindow(MonthlyAmount));
      }
    }
    return Allowed;
  }

  // ----- Record -----

  function Ttl(kind: Kind): int {
    if kind.MonthlyAmount? then MONTHLY_TTL else DAILY_TTL
  }

  function RecordOp(user: string, txType: string, currency: string, amount: int, now: Instant,
                    kind: Kind): (op: Counter.Op)
    requires ValidInstant(now)
  {
    Counter.Incr(Key(user, txType, currency, kind, now.date), Weight(kind, amount), Ttl(kind), Millis(now))
  }

  function RecordOf(user: string, txType: string, currency: string, amount: int, now: Instant, kind: Kind,
                    failed: set<Kind>): seq<Counter.Op>
    requires ValidInstant(now)
  {
    if kind in failed then [] else [RecordOp(user, txType, currency, amount, now, kind)]
  }

  /** The increments of one record; those in failed err without effect, and the record goes on. */
  function RecordOps(user: string, txType: string, currency: string, amount: int, now: Instant,
                     failed: set<Kind>): seq<Counter.Op>
    requires ValidInstant(now)
  {
    RecordOf(user, txType, currency, amount, now, DailyAmount, failed)
    + RecordOf(user, txType, currency, amount, now, DailyCount, failed)
    + RecordOf(user, txType, currency, amount, now, MonthlyAmount, failed)
  }

  method Record(counter: Counter.MemoryCounter, user: string, txType: string, currency: string, amount: int,
                now: Instant, failed: set<Kind>)
    requires ValidInstant(now)
    modifies counter
    ensures counter.values == RunOn(old(counter.values), RecordOps(user, txType, currency, amount, now, failed))
  {
    hide Key;
    var a := RecordOf(user, txType, currency, amount, now, DailyAmount, failed);
    var c := RecordOf(user, txType, currency, amount, now, DailyCount, failed);
    var m := RecordOf(user, txType, currency, amount, now, MonthlyAmount, failed);
    RunOnConcat(counter.values, a, c);
    RunOnConcat(counter.values, a + c, m);
    if DailyAmount !in failed {
      RunOnOne(counter.values, a[0]);
      var total := counter.IncrBy(Key(user, txType, currency, DailyAmount, now.date), amount, DAILY_TTL, Millis(now));
    }
    if DailyCount !in failed {
      RunOnOne(counter.values, c[0]);
      var total := counter.IncrBy(Key(user, txType, currency, DailyCount, now.date), 1, DAILY_TTL, Millis(now));
    }
    if MonthlyAmount !in failed {
      RunOnOne(counter.values, m[0]);
      var total := counter.IncrBy(Key(user, txType, currency, MonthlyAmount, now.date), amount, MONTHLY_TTL,
          Millis(now));
    }
  }

  /** A counter run continued from given values. */
  function RunOn(values: Counter.Values, ops: seq<Counter.Op>): Counter.Values {
    if ops == [] then values else Counter.Step(RunOn(values, ops[..|ops| - 1]), ops[|ops| - 1], true)
  }

  lemma {:induction false} RunOnConcat(values: Counter.Values, a: seq<Counter.Op>, b: seq<Counter.Op>)
    ensures RunOn(values, a + b) == RunOn(RunOn(values, a), b)
    decreases |b|
  {
    if b == [] {
      assert a + b == a;
    } else {
      RunOnConcat(values, a, b[..|b| - 1]);
      assert (a + b)[..|a + b| - 1] == a + b[..|b| - 1];
    }
  }

  lemma RunOnOne(values: Counter.Values, a: Counter.Op)
    ensures RunOn(values, [a]) == Counter.Step(values, a, true)
  {
    assert [a][..0] == [];
  }

  /** A record opens counters that last two days and 35 days: until then they show it, after that nothing. */
  lemma RecordLasts(user: string, txType: string, currency: string, amount: int, now: Instant, kind: Kind, t: int)
    requires ValidInstant(now) && Millis(now) <= t
    ensures var days := if kind.MonthlyAmount? then 35 else 2;
            Counter.Total(RunOn(map[], [RecordOp(user, txType, currency, amount, now, kind)]),
                          Key(user, txType, currency, kind, now.date), t)
            == if t <= Millis(now) + days * 24 * 60 * 60 * 1000 then (if kind.DailyCount? then 1 else amount) else 0
  {
    hide Key;
    var op := RecordOp(user, txType, currency, amount, now, kind);
    RunOnOne(map[], op);
    Counter.OpeningShows(map[], op, true, t);
  }

  // ----- Totals of increments that fall in one window -----

  function SumFor(ops: seq<Counter.Op>, key: string): int {
    if ops == [] then 0
    else
      var last := ops[|ops| - 1];
      SumFor(ops[..|ops| - 1], key) + (if last.Incr? && last.key == key then last.delta else 0)
  }

  /** Every increment of the key is still within its lifetime at the given time. */
  ghost predicate InWindow(ops: seq<Counter.Op>, key: string, now: int) {
    forall i :: 0 <= i < |ops| ==>
      ops[i].Incr? && (ops[i].key == key ==> ops[i].now <= now <= ops[i].now + ops[i].ttl)
  }

  /** Then no lifetime drops a contribution: the counter shows the plain sum, in whatever order they came. */
  lemma {:induction false} TotalIsSum(ops: seq<Counter.Op>, key: string, now: int)
    requires InWindow(ops, key, now)
    ensures Counter.Total(RunOn(map[], ops), key, now) == SumFor(ops, key)
    ensures key in RunOn(map[], ops) ==> now <= RunOn(map[], ops)[key].expireAt
  {
    if ops != [] {
      TotalIsSum(ops[..|ops| - 1], key, now);
    }
  }
}
