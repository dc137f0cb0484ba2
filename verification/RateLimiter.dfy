/** The in-memory token-bucket limiter. Tokens are real numbers; times are milliseconds. */
module RateLimiter {

  datatype Bucket = Bucket(tokens: real, lastMs: int)

  type Buckets = map<string, Bucket>

  /** rate is tokens per millisecond. */
  datatype Config = Config(rate: real, capacity: real)

  predicate ConfigOk(c: Config) {
    c.rate > 0.0
  }

  function Min(a: real, b: real): real {
    if a <= b then a else b
  }

  /** Tokens that come in over a span of milliseconds. */
  function Refill(c: Config, ms: int): real {
    ms as real * c.rate
  }

  /** Tokens the key has at the given time, before the call: a full bucket if there is none. */
  function Level(c: Config, buckets: Buckets, key: string, now: int): real {
    if key !in buckets then c.capacity
    else
      var b := buckets[key];
      var delta := if now - b.lastMs > 0 then now - b.lastMs else 0;
      Min(c.capacity, b.tokens + Refill(c, delta))
  }

  function Spent(level: real): real {
    if level >= 1.0 then level - 1.0 else level
  }

  function AfterAllow(c: Config, buckets: Buckets, key: string, now: int): Buckets {
    buckets[key := Bucket(Spent(Level(c, buckets, key, now)), now)]
  }

  /** int64 conversion of a float drops the fraction. */
  function Truncated(r: real): int {
    if r >= 0.0 then r.Floor else -((-r).Floor)
  }

  function Ceiling(r: real): int {
    -((-r).Floor)
  }

  /** Twice the time a bucket takes to fill, in whole milliseconds. */
  function StaleAfter(c: Config): int
    requires ConfigOk(c)
  {
    Ceiling(c.capacity / c.rate) * 2
  }

  function Collected(c: Config, buckets: Buckets, now: int): Buckets
    requires ConfigOk(c)
  {
    map k | k in buckets && buckets[k].lastMs >= now - StaleAfter(c) :: buckets[k]
  }

  class MemoryRateLimiter {
    const config: Config
    var buckets: Buckets

    constructor (config: Config)
      ensures this.config == config && buckets == map[]
    {
      this.config := config;
      buckets := map[];
    }

    method Allow(key: string, now: int) returns (allowed: bool, remaining: int)
      modifies this
      ensures buckets == AfterAllow(config, old(buckets), key, now)
      ensures allowed == (Level(config, old(buckets), key, now) >= 1.0)
      ensures remaining == Truncated(Spent(Level(config, old(buckets), key, now)))
      ensures buckets[key].tokens >= 0.0 ==> remaining as real <= buckets[key].tokens < remaining as real + 1.0
    {
      var b := if key in buckets then buckets[key] else Bucket(config.capacity, now);
      var delta := now - b.lastMs;
      if delta < 0 {
        delta := 0;
      }
      var tokens := Min(config.capacity, b.tokens + Refill(config, delta));
      allowed := tokens >= 1.0;
      if allowed {
        tokens := tokens - 1.0;
      }
      buckets := buckets[key := Bucket(tokens, now)];
      remaining := Truncated(tokens);
    }

    /** One tick of the collector, in whatever order the map is walked. */
    method Collect(now: int)
      requires ConfigOk(config)
      modifies this
      ensures buckets == Collected(config, old(buckets), now)
    {
      var cutoff := now - StaleAfter(config);
      var left := buckets.Keys;
      while left != {}
        invariant left <= buckets.Keys && buckets.Keys <= old(buckets).Keys
        invariant forall k :: k in buckets ==> buckets[k] == old(buckets)[k]
        invariant forall k :: k in old(buckets) && (k in left || old(buckets)[k].lastMs >= cutoff) ==> k in buckets
        invariant forall k :: k in buckets && k !in left ==> buckets[k].lastMs >= cutoff
        decreases left
      {
        var k :| k in left;
        if buckets[k].lastMs < cutoff {
          buckets := buckets - {k};
        }
        left := left - {k};
      }
    }
  }

  // ----- Runs -----

  datatype Op = Request(key: string, now: int) | Collect(now: int)

  function Step(c: Config, buckets: Buckets, op: Op, collects: bool): Buckets
    requires ConfigOk(c)
  {
    match op
    case Request(key, now) => AfterAllow(c, buckets, key, now)
    case Collect(now) => if collects then Collected(c, buckets, now) else buckets
  }

  function Run(c: Config, ops: seq<Op>, collects: bool): Buckets
    requires ConfigOk(c)
  {
    if ops == [] then map[] else Step(c, Run(c, ops[..|ops| - 1], collects), ops[|ops| - 1], collects)
  }

  /** A stored count is within the bucket. Calls may be applied in another order than their times. */
  ghost predicate TokensOk(c: Config, buckets: Buckets) {
    forall k :: k in buckets ==>
      buckets[k].tokens <= c.capacity && (buckets[k].tokens >= 0.0 || buckets[k].tokens == c.capacity)
  }

  lemma LevelInRange(c: Config, buckets: Buckets, key: string, now: int)
    requires ConfigOk(c) && TokensOk(c, buckets)
    ensures Level(c, buckets, key, now) <= c.capacity
    ensures Level(c, buckets, key, now) >= 0.0 || Level(c, buckets, key, now) == c.capacity
  {
    if key in buckets && now > buckets[key].lastMs {
      RefillAdds(c, 0, now - buckets[key].lastMs);
    }
  }

  lemma {:induction false} RunKeepsTokens(c: Config, ops: seq<Op>, collects: bool)
    requires ConfigOk(c)
    ensures TokensOk(c, Run(c, ops, collects))
  {
    if ops != [] {
      var init, last := ops[..|ops| - 1], ops[|ops| - 1];
      RunKeepsTokens(c, init, collects);
      if last.Request? {
        LevelInRange(c, Run(c, init, collects), last.key, last.now);
      }
    }
  }

  lemma RefillAdds(c: Config, d: int, e: int)
    requires ConfigOk(c)
    ensures Refill(c, d + e) == Refill(c, d) + Refill(c, e)
    ensures e >= 0 ==> Refill(c, e) >= 0.0
  {
  }

  function Positive(d: int): nat {
    if d > 0 then d else 0
  }

  /** A later look finds at most the refill more; an earlier one finds no more. */
  lemma LevelGains(c: Config, buckets: Buckets, key: string, now: int, t: int)
    requires ConfigOk(c)
    ensures Level(c, buckets, key, t) <= Level(c, buckets, key, now) + Refill(c, Positive(t - now))
  {
    RefillAdds(c, 0, Positive(t - now));
    assert Refill(c, 0) == 0.0;
    hide Refill;
    if key in buckets {
      var d, e := Positive(now - buckets[key].lastMs), Positive(t - buckets[key].lastMs);
      RefillAdds(c, d, Positive(t - now));
      RefillAdds(c, e, d + Positive(t - now) - e);
    }
  }

  // ----- Collection -----

  /** Whole milliseconds in which an empty bucket fills: half the age at which one is dropped. */
  function FillTime(c: Config): nat
    requires ConfigOk(c)
  {
    Positive(Ceiling(c.capacity / c.rate))
  }

  lemma FullAfterFillTime(c: Config, b: Bucket, d: int)
    requires ConfigOk(c) && (b.tokens >= 0.0 || b.tokens == c.capacity) && d >= FillTime(c)
    ensures b.tokens + Refill(c, d) >= c.capacity
  {
    RefillAdds(c, 0, d);
    if b.tokens >= 0.0 && c.capacity >= 0.0 {
      CeilingAbove(c.capacity / c.rate);
      QuotientTimes(c.capacity, c.rate);
      FillsUp(d as real, c.capacity, c.rate);
    }
  }

  lemma FillsUp(elapsed: real, capacity: real, rate: real)
    requires capacity >= 0.0 && rate > 0.0 && elapsed >= capacity / rate
    ensures elapsed * rate >= capacity
  {
    QuotientTimes(capacity, rate);
    ScaledUp(elapsed, capacity / rate, rate);
  }

  lemma QuotientTimes(a: real, b: real)
    requires a >= 0.0 && b > 0.0
    ensures a / b >= 0.0 && (a / b) * b == a
  {
  }

  lemma CeilingAbove(r: real)
    ensures Ceiling(r) as real >= r
  {
  }

  lemma ScaledUp(a: real, b: real, k: real)
    requires a >= b && k > 0.0
    ensures a * k >= b * k
  {
    assert (a - b) * k >= 0.0;
  }

  /** A bucket old enough to be dropped is full, even for a call up to a fill time earlier than the collection. */
  lemma StaleIsFull(c: Config, buckets: Buckets, key: string, now: int, t: int)
    requires ConfigOk(c) && TokensOk(c, buckets) && now - FillTime(c) <= t
    requires key in buckets && buckets[key].lastMs < now - StaleAfter(c)
    ensures Level(c, buckets, key, t) == c.capacity
  {
    var b := buckets[key];
    if c.capacity >= 0.0 {
      QuotientTimes(c.capacity, c.rate);
      CeilingAbove(c.capacity / c.rate);
      assert StaleAfter(c) == 2 * FillTime(c);
      FullAfterFillTime(c, b, t - b.lastMs);
    } else {
      assert b.tokens == c.capacity;
      RefillAdds(c, 0, Positive(t - b.lastMs));
    }
  }

  lemma CollectKeepsLevel(c: Config, buckets: Buckets, key: string, now: int, t: int)
    requires ConfigOk(c) && TokensOk(c, buckets) && now - FillTime(c) <= t
    ensures Level(c, Collected(c, buckets, now), key, t) == Level(c, buckets, key, t)
  {
    hide FillTime, StaleAfter, Refill;
    if key in buckets && buckets[key].lastMs < now - StaleAfter(c) {
      StaleIsFull(c, buckets, key, now, t);
    }
  }

  /** A request takes one token from its own key's level if there is one, and nothing else. */
  lemma AllowMovesLevel(c: Config, buckets: Buckets, key: string, other: string, now: int)
    requires ConfigOk(c) && TokensOk(c, buckets)
    ensures Level(c, AfterAllow(c, buckets, key, now), other, now) ==
            (if other == key then Spent(Level(c, buckets, key, now)) else Level(c, buckets, other, now))
  {
    LevelInRange(c, buckets, key, now);
    assert Refill(c, 0) == 0.0;
  }

  // ----- Collection is unobservable -----

  ghost predicate SameFrom(c: Config, a: Buckets, b: Buckets, from: int) {
    forall k, t :: from <= t ==> Level(c, a, k, t) == Level(c, b, k, t)
  }

  /** No call is timed more than a fill time before a collection that was applied before it. */
  ghost predicate CollectsInTime(c: Config, ops: seq<Op>)
    requires ConfigOk(c)
  {
    forall i, j :: 0 <= i < j < |ops| && ops[i].Collect? ==> ops[i].now - FillTime(c) <= ops[j].now
  }

  lemma RequestKeepsSame(c: Config, a: Buckets, b: Buckets, op: Op, from: int)
    requires ConfigOk(c) && op.Request?
    requires SameFrom(c, a, b, op.now) && SameFrom(c, a, b, from)
    ensures SameFrom(c, Step(c, a, op, true), Step(c, b, op, false), from)
  {
    assert Level(c, a, op.key, op.now) == Level(c, b, op.key, op.now);
    forall k, t | from <= t ensures Level(c, Step(c, a, op, true), k, t) == Level(c, Step(c, b, op, false), k, t) {
      assert Level(c, a, k, t) == Level(c, b, k, t);
    }
  }

  lemma CollectKeepsSame(c: Config, a: Buckets, b: Buckets, op: Op, from: int)
    requires ConfigOk(c) && op.Collect? && TokensOk(c, a)
    requires SameFrom(c, a, b, from) && op.now - FillTime(c) <= from
    ensures SameFrom(c, Step(c, a, op, true), Step(c, b, op, false), from)
  {
    hide Level;
    forall k, t | from <= t ensures Level(c, Step(c, a, op, true), k, t) == Level(c, Step(c, b, op, false), k, t) {
      CollectKeepsLevel(c, a, k, op.now, t);
      assert Level(c, a, k, t) == Level(c, b, k, t);
    }
  }

  lemma {:induction false} RunsLookSame(c: Config, ops: seq<Op>, n: nat, from: int)
    requires ConfigOk(c) && CollectsInTime(c, ops) && n <= |ops|
    requires forall i :: 0 <= i < n && ops[i].Collect? ==> ops[i].now - FillTime(c) <= from
    ensures SameFrom(c, Run(c, ops[..n], true), Run(c, ops[..n], false), from)
    decreases n
  {
    if n > 0 {
      var last := ops[n - 1];
      RunsLookSame(c, ops, n - 1, from);
      RunsLookSame(c, ops, n - 1, if last.Request? then last.now else from);
      RunKeepsTokens(c, ops[..n - 1], true);
      assert ops[..n][..n - 1] == ops[..n - 1];
      hide Step, SameFrom, TokensOk;
      if last.Request? {
        RequestKeepsSame(c, Run(c, ops[..n - 1], true), Run(c, ops[..n - 1], false), last, from);
      } else {
        CollectKeepsSame(c, Run(c, ops[..n - 1], true), Run(c, ops[..n - 1], false), last, from);
      }
    }
  }

  /** Whether a request is let through, and what it is told remains, does not depend on collection. */
  lemma CollectionUnobservable(c: Config, ops: seq<Op>, i: nat, key: string)
    requires ConfigOk(c) && CollectsInTime(c, ops) && i < |ops|
    ensures Level(c, Run(c, ops[..i], true), key, ops[i].now) == Level(c, Run(c, ops[..i], false), key, ops[i].now)
  {
    RunsLookSame(c, ops, i, ops[i].now);
  }

  /** A call timed before the fill time ended can tell: it finds a full bucket where one token was gone. */
  lemma EarlierCallObserves(c: Config, key: string, now: int)
    requires ConfigOk(c) && c.capacity >= 1.0 && now > StaleAfter(c)
    ensures var ops := [Request(key, 0), Collect(now), Request(key, 0)];
            && Level(c, Run(c, ops[..2], true), key, 0) == c.capacity
            && Level(c, Run(c, ops[..2], false), key, 0) == c.capacity - 1.0
  {
    var ops := [Request(key, 0), Collect(now), Request(key, 0)];
    assert Refill(c, 0) == 0.0;
    hide Refill, StaleAfter;
    assert ops[..2][..1] == ops[..1] && ops[..1][..0] == [];
    assert Run(c, ops[..1], true) == map[key := Bucket(c.capacity - 1.0, 0)] == Run(c, ops[..1], false);
    assert Run(c, ops[..2], true) == Collected(c, Run(c, ops[..1], true), now);
    assert Run(c, ops[..2], false) == Run(c, ops[..1], false);
  }

  // ----- How much is let through -----

  predicate Admitted(c: Config, ops: seq<Op>, key: string, i: nat)
    requires ConfigOk(c) && i < |ops|
  {
    ops[i].Request? && ops[i].key == key && Level(c, Run(c, ops[..i], true), key, ops[i].now) >= 1.0
  }

  /** Requests of the key let through among ops[from..end]. */
  function AdmittedCount(c: Config, ops: seq<Op>, key: string, from: nat, end: nat): nat
    requires ConfigOk(c) && from <= end <= |ops|
    decreases end
  {
    if from == end then 0
    else AdmittedCount(c, ops, key, from, end - 1) + (if Admitted(c, ops, key, end - 1) then 1 else 0)
  }

  /** The operation can change the key's bucket. */
  predicate Concerns(op: Op, key: string) {
    op.Collect? || op.key == key
  }

  /** The time of the last such operation in ops[from..end]; at first, of ops[from]. */
  function Clock(ops: seq<Op>, key: string, from: nat, end: nat): int
    requires from <= end <= |ops| && from < |ops|
    decreases end
  {
    if from == end then ops[from].now
    else if Concerns(ops[end - 1], key) then ops[end - 1].now
    else Clock(ops, key, from, end - 1)
  }

  /** By how much those times went back, in all. */
  function Setback(ops: seq<Op>, key: string, from: nat, end: nat): nat
    requires from <= end <= |ops| && from < |ops|
    decreases end
  {
    if from == end then 0
    else Setback(ops, key, from, end - 1) + Positive(Clock(ops, key, from, end - 1) - Clock(ops, key, from, end))
  }

  /** An operation on the key takes from its level exactly what it lets through. */
  lemma LevelAfter(c: Config, ops: seq<Op>, key: string, i: nat)
    requires ConfigOk(c) && i < |ops|
    ensures Level(c, Run(c, ops[..i + 1], true), key, ops[i].now) ==
            Level(c, Run(c, ops[..i], true), key, ops[i].now) - (if Admitted(c, ops, key, i) then 1.0 else 0.0)
  {
    var before := Run(c, ops[..i], true);
    RunKeepsTokens(c, ops[..i], true);
    assert ops[..i + 1][..i] == ops[..i];
    if ops[i].Request? {
      AllowMovesLevel(c, before, ops[i].key, key, ops[i].now);
    } else {
      CollectKeepsLevel(c, before, key, ops[i].now, ops[i].now);
    }
  }

  lemma OtherKeepsLevel(c: Config, ops: seq<Op>, key: string, i: nat, t: int)
    requires ConfigOk(c) && i < |ops| && !Concerns(ops[i], key)
    ensures Level(c, Run(c, ops[..i + 1], true), key, t) == Level(c, Run(c, ops[..i], true), key, t)
    ensures !Admitted(c, ops, key, i)
  {
    assert ops[..i + 1][..i] == ops[..i];
  }

  /**
   * In whatever order calls are applied: what was let through plus what is left is at most the capacity
   * plus the refill of the time that passed and of the time that was set back.
   */
  lemma {:induction false} Budget(c: Config, ops: seq<Op>, key: string, from: nat, end: nat)
    requires ConfigOk(c) && from <= end <= |ops| && from < |ops|
    ensures var t := Clock(ops, key, from, end);
            AdmittedCount(c, ops, key, from, end) as real + Level(c, Run(c, ops[..end], true), key, t) <=
            c.capacity + Refill(c, t - ops[from].now + Setback(ops, key, from, end))
    decreases end
  {
    hide Level, Run, Admitted;
    if from == end {
      assert Refill(c, 0) == 0.0;
      RunKeepsTokens(c, ops[..from], true);
      LevelInRange(c, Run(c, ops[..from], true), key, ops[from].now);
    } else {
      Budget(c, ops, key, from, end - 1);
      var s, t := Clock(ops, key, from, end - 1), Clock(ops, key, from, end);
      if Concerns(ops[end - 1], key) {
        LevelAfter(c, ops, key, end - 1);
        LevelGains(c, Run(c, ops[..end - 1], true), key, s, t);
        RefillAdds(c, s - ops[from].now + Setback(ops, key, from, end - 1), Positive(t - s));
        assert Positive(t - s) == t - s + Positive(s - t);
      } else {
        OtherKeepsLevel(c, ops, key, end - 1, t);
      }
    }
  }

  ghost predicate Ordered(ops: seq<Op>) {
    forall i, j :: 0 <= i <= j < |ops| ==> ops[i].now <= ops[j].now
  }

  lemma {:induction false} OrderedNeverSetsBack(ops: seq<Op>, key: string, from: nat, end: nat)
    requires Ordered(ops) && from <= end <= |ops| && from < |ops|
    ensures Setback(ops, key, from, end) == 0
    ensures from < end ==> Clock(ops, key, from, end) <= ops[end - 1].now
    decreases end
  {
    if from < end {
      OrderedNeverSetsBack(ops, key, from, end - 1);
    }
  }

  lemma AdmittedByRefill(c: Config, ops: seq<Op>, key: string, from: nat, end: nat)
    requires ConfigOk(c) && from < end <= |ops|
    ensures c.capacity >= 0.0 ==>
              AdmittedCount(c, ops, key, from, end) as real <=
              c.capacity + Refill(c, Clock(ops, key, from, end) - ops[from].now + Setback(ops, key, from, end))
    ensures c.capacity >= 0.0 && Ordered(ops) ==>
              AdmittedCount(c, ops, key, from, end) as real <= c.capacity + Refill(c, ops[end - 1].now - ops[from].now)
  {
    hide Level, Run, Refill;
    var t := Clock(ops, key, from, end);
    Budget(c, ops, key, from, end);
    RunKeepsTokens(c, ops[..end], true);
    LevelInRange(c, Run(c, ops[..end], true), key, t);
    if Ordered(ops) {
      OrderedNeverSetsBack(ops, key, from, end);
      RefillAdds(c, t - ops[from].now, ops[end - 1].now - t);
    }
  }

  /**
   * Between any two calls a key gets at most capacity + rate * (elapsed + set back) requests through; in
   * time order, at most capacity + rate * elapsed.
   */
  lemma AdmissionBound(c: Config, ops: seq<Op>, key: string, from: nat, end: nat)
    requires ConfigOk(c) && from < end <= |ops|
    ensures c.capacity >= 0.0 ==>
              var elapsed := Clock(ops, key, from, end) - ops[from].now + Setback(ops, key, from, end);
              AdmittedCount(c, ops, key, from, end) as real <= c.capacity + elapsed as real * c.rate
    ensures c.capacity >= 0.0 && Ordered(ops) ==>
              var elapsed := ops[end - 1].now - ops[from].now;
              AdmittedCount(c, ops, key, from, end) as real <= c.capacity + elapsed as real * c.rate
    ensures c.capacity < 1.0 ==> AdmittedCount(c, ops, key, from, end) == 0
  {
    hide Ordered, AdmittedCount, Clock, Setback;
    AdmittedByRefill(c, ops, key, from, end);
    if c.capacity < 1.0 {
      TooSmallAdmitsNone(c, ops, key, from, end);
    }
  }

  lemma {:induction false} TooSmallAdmitsNone(c: Config, ops: seq<Op>, key: string, from: nat, end: nat)
    requires ConfigOk(c) && from <= end <= |ops| && c.capacity < 1.0
    ensures AdmittedCount(c, ops, key, from, end) == 0
    decreases end
  {
    hide Level, Run;
    if from < end {
      TooSmallAdmitsNone(c, ops, key, from, end - 1);
      RunKeepsTokens(c, ops[..end - 1], true);
      LevelInRange(c, Run(c, ops[..end - 1], true), key, ops[end - 1].now);
    }
  }

  /** The time set back is paid twice: calls at 0, 1, 0 and 1 get three through where two are due. */
  lemma SetbackIsPaidTwice(key: string)
    ensures var c, ops := Config(1.0, 1.0), [Request(key, 0), Request(key, 1), Request(key, 0), Request(key, 1)];
            && AdmittedCount(c, ops, key, 0, 4) == 3
            && c.capacity + Refill(c, ops[3].now - ops[0].now) == 2.0
            && Setback(ops, key, 0, 4) == 1
  {
    var c, ops := Config(1.0, 1.0), [Request(key, 0), Request(key, 1), Request(key, 0), Request(key, 1)];
    assert ops[..1][..0] == [] && ops[..2][..1] == ops[..1] && ops[..3][..2] == ops[..2];
    assert Run(c, ops[..0], true) == map[];
    assert Run(c, ops[..1], true) == map[key := Bucket(0.0, 0)];
    assert Run(c, ops[..2], true) == map[key := Bucket(0.0, 1)];
    assert Run(c, ops[..3], true) == map[key := Bucket(0.0, 0)];
    assert Admitted(c, ops, key, 0) && Admitted(c, ops, key, 1) && !Admitted(c, ops, key, 2)
        && Admitted(c, ops, key, 3);
    hide Run, Admitted;
    assert AdmittedCount(c, ops, key, 0, 1) == 1 && AdmittedCount(c, ops, key, 0, 2) == 2;
    assert AdmittedCount(c, ops, key, 0, 3) == 2;
    assert Setback(ops, key, 0, 1) == 0 && Setback(ops, key, 0, 2) == 0 && Setback(ops, key, 0, 3) == 1;
  }

  /** Whatever the order of calls, a key has lost no more of its capacity than it got through. */
  lemma {:induction false} LevelAtLeast(c: Config, ops: seq<Op>, key: string, n: nat, t: int)
    requires ConfigOk(c) && n <= |ops|
    ensures Level(c, Run(c, ops[..n], true), key, t) >= c.capacity - AdmittedCount(c, ops, key, 0, n) as real
    decreases n
  {
    if n > 0 {
      var op := ops[n - 1];
      LevelAtLeast(c, ops, key, n - 1, t);
      assert ops[..n][..n - 1] == ops[..n - 1];
      if op.Request? && op.key == key {
        LevelAtLeast(c, ops, key, n - 1, op.now);
        RefillAdds(c, 0, Positive(t - op.now));
      }
    }
  }

  /** A burst gets through: a request is let in while the key got fewer through than its capacity holds. */
  lemma BurstAdmitted(c: Config, ops: seq<Op>, i: nat)
    requires ConfigOk(c) && i < |ops| && ops[i].Request?
    requires AdmittedCount(c, ops, ops[i].key, 0, i) as real + 1.0 <= c.capacity
    ensures Admitted(c, ops, ops[i].key, i)
  {
    LevelAtLeast(c, ops, ops[i].key, i, ops[i].now);
  }

  lemma TokensInRange(c: Config, ops: seq<Op>, key: string)
    requires ConfigOk(c) && c.capacity >= 0.0 && key in Run(c, ops, true)
    ensures 0.0 <= Run(c, ops, true)[key].tokens <= c.capacity
  {
    RunKeepsTokens(c, ops, true);
  }

  // ----- Waiting, in time order -----

  ghost predicate NotFromFuture(buckets: Buckets, now: int) {
    forall k :: k in buckets ==> buckets[k].lastMs <= now
  }

  lemma {:induction false} RunNotFromFuture(c: Config, ops: seq<Op>, n: nat, now: int)
    requires ConfigOk(c) && n <= |ops| && forall i :: 0 <= i < n ==> ops[i].now <= now
    ensures NotFromFuture(Run(c, ops[..n], true), now)
  {
    if n > 0 {
      RunNotFromFuture(c, ops, n - 1, now);
      assert ops[..n][..n - 1] == ops[..n - 1];
    }
  }

  /** As time passes a level refills at the rate, up to the capacity. */
  lemma LevelRefills(c: Config, buckets: Buckets, key: string, now: int, later: int)
    requires ConfigOk(c) && TokensOk(c, buckets) && NotFromFuture(buckets, now) && now <= later
    ensures Level(c, buckets, key, later) == Min(c.capacity, Level(c, buckets, key, now) + Refill(c, later - now))
  {
    hide Refill;
    RefillAdds(c, if key in buckets then now - buckets[key].lastMs else 0, later - now);
  }

  /** A caller that waits out one token's refill is let through. */
  lemma WaitingAdmits(c: Config, ops: seq<Op>, i: nat, j: nat)
    requires ConfigOk(c) && c.capacity >= 1.0 && Ordered(ops) && i < j < |ops|
    requires ops[j].Request? && (ops[j].now - ops[i].now) as real * c.rate >= 1.0
    requires forall k :: i < k < j && ops[k].Request? ==> ops[k].key != ops[j].key
    ensures Admitted(c, ops, ops[j].key, j)
    decreases j
  {
    hide Level, Run;
    LevelGrows(c, ops, ops[j].key, i, j);
  }

  lemma {:induction false} LevelGrows(c: Config, ops: seq<Op>, key: string, i: nat, j: nat)
    requires ConfigOk(c) && c.capacity >= 0.0 && Ordered(ops) && i < j < |ops|
    requires forall k :: i < k < j && ops[k].Request? ==> ops[k].key != key
    ensures Level(c, Run(c, ops[..j], true), key, ops[j].now) >= Min(c.capacity, Refill(c, ops[j].now - ops[i].now))
    decreases j
  {
    hide Level, Run;
    var before := Run(c, ops[..j], true);
    RunNotFromFuture(c, ops, j, ops[j - 1].now);
    RunKeepsTokens(c, ops[..j], true);
    if j == i + 1 {
      LevelInRange(c, before, key, ops[i].now);
      assert Refill(c, 0) == 0.0;
      LevelStep(c, before, key, ops[i].now, ops[j].now, 0);
    } else {
      LevelGrows(c, ops, key, i, j - 1);
      LevelAfter(c, ops, key, j - 1);
      LevelStep(c, before, key, ops[j - 1].now, ops[j].now, ops[j - 1].now - ops[i].now);
    }
  }

  lemma LevelStep(c: Config, buckets: Buckets, key: string, now: int, later: int, d: int)
    requires ConfigOk(c) && TokensOk(c, buckets) && NotFromFuture(buckets, now) && now <= later
    requires Level(c, buckets, key, now) >= Min(c.capacity, Refill(c, d))
    ensures Level(c, buckets, key, later) >= Min(c.capacity, Refill(c, d + (later - now)))
  {
    hide Level, TokensOk, NotFromFuture, Refill;
    LevelRefills(c, buckets, key, now, later);
    RefillAdds(c, d, later - now);
    MinAdds(c.capacity, Level(c, buckets, key, now), Refill(c, d), Refill(c, later - now));
  }

  lemma MinAdds(cap: real, level: real, x: real, y: real)
    requires level >= Min(cap, x) && y >= 0.0
    ensures Min(cap, level + y) >= Min(cap, x + y)
  {
  }
}
