/** Failing over from Redis to memory and back: immediate degrade, recovery after two good probes in a row. */
module Failover {
  const RECOVER_THRESHOLD := 2

  /** OpFails is a real operation failing; the probes run in the background. */
  datatype Signal = OpFails | ProbeOk | ProbeFails

  datatype Health = Health(healthy: bool, consecutiveOK: nat)

  const FRESH := Health(true, 0)

  function Step(h: Health, signal: Signal): Health {
    match signal
    case OpFails => Health(false, 0)
    case ProbeFails => if h.healthy then h else Health(false, 0)
    case ProbeOk =>
      if h.healthy then h else Health(h.consecutiveOK + 1 >= RECOVER_THRESHOLD, h.consecutiveOK + 1)
  }

  class RedisHealthSwitcher {
    var healthy: bool
    var consecutiveOK: nat

    constructor ()
      ensures View() == FRESH
    {
      healthy, consecutiveOK := true, 0;
    }

    function View(): Health
      reads this
    {
      Health(healthy, consecutiveOK)
    }

    method Degrade()
      modifies this
      ensures View() == Step(old(View()), OpFails)
    {
      consecutiveOK := 0;
      healthy := false;
    }

    method ProbeOnce(pingOk: bool)
      modifies this
      ensures View() == Step(old(View()), if pingOk then ProbeOk else ProbeFails)
    {
      if healthy {
        return;
      }
      if !pingOk {
        consecutiveOK := 0;
        return;
      }
      consecutiveOK := consecutiveOK + 1;
      if consecutiveOK >= RECOVER_THRESHOLD {
        healthy := true;
      }
    }
  }

  function Run(signals: seq<Signal>): Health {
    if signals == [] then FRESH else Step(Run(signals[..|signals| - 1]), signals[|signals| - 1])
  }

  // ----- When Redis is trusted -----

  /** The signals after the last failed operation. */
  function SinceFailure(signals: seq<Signal>): (r: seq<Signal>) {
    if signals == [] then []
    else if signals[|signals| - 1].OpFails? then []
    else SinceFailure(signals[..|signals| - 1]) + [signals[|signals| - 1]]
  }

  ghost predicate TwoGoodInARow(signals: seq<Signal>) {
    exists i :: 0 <= i < |signals| - 1 && signals[i].ProbeOk? && signals[i + 1].ProbeOk?
  }

  predicate EndsGood(signals: seq<Signal>) {
    signals != [] && signals[|signals| - 1].ProbeOk?
  }

  lemma TwoGoodGrows(signals: seq<Signal>, last: Signal)
    ensures TwoGoodInARow(signals + [last]) <==> TwoGoodInARow(signals) || (EndsGood(signals) && last.ProbeOk?)
  {
    var t := signals + [last];
    if TwoGoodInARow(signals) {
      var i :| 0 <= i < |signals| - 1 && signals[i].ProbeOk? && signals[i + 1].ProbeOk?;
      assert t[i].ProbeOk? && t[i + 1].ProbeOk?;
    }
    if EndsGood(signals) && last.ProbeOk? {
      assert t[|signals| - 1].ProbeOk? && t[|signals| - 1 + 1].ProbeOk?;
    }
    if TwoGoodInARow(t) {
      var i :| 0 <= i < |t| - 1 && t[i].ProbeOk? && t[i + 1].ProbeOk?;
      if i + 1 < |signals| {
        assert signals[i].ProbeOk? && signals[i + 1].ProbeOk?;
      }
    }
  }

  /**
   * Redis is in use exactly when no operation ever failed, or two probes in a row succeeded since
   * the last failure. A lucky operation or a single good probe never switches back.
   */
  lemma {:induction false} TrustedExactlyAfterTwoProbes(signals: seq<Signal>)
    ensures Run(signals).healthy <==> OpFails !in signals || TwoGoodInARow(SinceFailure(signals))
    ensures !Run(signals).healthy ==> Run(signals).consecutiveOK == (if EndsGood(SinceFailure(signals)) then 1 else 0)
  {
    if signals != [] {
      var init, last := signals[..|signals| - 1], signals[|signals| - 1];
      TrustedExactlyAfterTwoProbes(init);
      assert signals == init + [last];
      TwoGoodGrows(SinceFailure(init), last);
    }
  }

  // ----- The failover counter, one key within one window, any number of replicas -----

  /** How a Redis call went: answered, or failed with or without effect. */
  datatype Outcome = Answered | FailedUnapplied | FailedApplied

  datatype Action =
    | IncrBy(delta: nat, redis: Outcome)
    | Get(redis: Outcome)
    | Probe(pingOk: bool)

  /** One replica's operation. */
  datatype Op = Op(replica: nat, action: Action)

  /** Redis is shared; memory and switch are each replica's own. */
  datatype State = State(redis: nat, health: map<nat, Health>, local: map<nat, nat>)

  const START := State(0, map[], map[])

  function HealthOf(s: State, replica: nat): Health {
    if replica in s.health then s.health[replica] else FRESH
  }

  function LocalOf(s: State, replica: nat): nat {
    if replica in s.local then s.local[replica] else 0
  }

  predicate OnRedis(s: State, op: Op) {
    !op.action.Probe? && HealthOf(s, op.replica).healthy && op.action.redis.Answered?
  }

  /** The signal the operation gives the replica's switch, if any. */
  function SignalOf(s: State, op: Op): seq<Signal> {
    match op.action
    case Probe(ok) => [if ok then ProbeOk else ProbeFails]
    case _ => if HealthOf(s, op.replica).healthy && !op.action.redis.Answered? then [OpFails] else []
  }

  /** The increment reaches Redis: it is tried there and takes effect. */
  predicate Written(s: State, op: Op) {
    op.action.IncrBy? && HealthOf(s, op.replica).healthy && !op.action.redis.FailedUnapplied?
  }

  /** Unhealthy calls go to memory; a Redis call that fails degrades and is made in memory instead. */
  function Apply(s: State, op: Op): State {
    var signal := SignalOf(s, op);
    var health := if signal == [] then s.health else s.health[op.replica := Step(HealthOf(s, op.replica), signal[0])];
    match op.action
    case IncrBy(delta, _) =>
      State(s.redis + (if Written(s, op) then delta else 0), health,
            if OnRedis(s, op) then s.local else s.local[op.replica := LocalOf(s, op.replica) + delta])
    case _ => s.(health := health)
  }

  /** What a read returns: Redis while the replica trusts it and it answers, otherwise the replica's memory. */
  function Answer(s: State, op: Op): nat {
    if OnRedis(s, op) then s.redis else LocalOf(s, op.replica)
  }

  function After(ops: seq<Op>): State {
    if ops == [] then START else Apply(After(ops[..|ops| - 1]), ops[|ops| - 1])
  }

  function Signals(ops: seq<Op>, replica: nat): seq<Signal> {
    if ops == [] then []
    else
      var init, last := ops[..|ops| - 1], ops[|ops| - 1];
      Signals(init, replica) + (if last.replica == replica then SignalOf(After(init), last) else [])
  }

  function Delta(op: Op): nat {
    if op.action.IncrBy? then op.action.delta else 0
  }

  function TrueTotal(ops: seq<Op>): nat {
    if ops == [] then 0 else TrueTotal(ops[..|ops| - 1]) + Delta(ops[|ops| - 1])
  }

  /** The increments that Redis does not hold, and those the replica's memory does not hold. */
  function MissedByRedis(ops: seq<Op>): nat {
    if ops == [] then 0
    else
      var init, last := ops[..|ops| - 1], ops[|ops| - 1];
      MissedByRedis(init) + (if Written(After(init), last) then 0 else Delta(last))
  }

  function MissedBy(ops: seq<Op>, replica: nat): nat {
    if ops == [] then 0
    else
      var init, last := ops[..|ops| - 1], ops[|ops| - 1];
      MissedBy(init, replica) + (if last.replica == replica && !OnRedis(After(init), last) then 0 else Delta(last))
  }

  /** Each replica's switch is the hysteresis machine driven by its own operations. */
  lemma {:induction false} HealthFollowsSignals(ops: seq<Op>, replica: nat)
    ensures HealthOf(After(ops), replica) == Run(Signals(ops, replica))
  {
    if ops != [] {
      var init, last := ops[..|ops| - 1], ops[|ops| - 1];
      HealthFollowsSignals(init, replica);
      var signal := if last.replica == replica then SignalOf(After(init), last) else [];
      if signal == [] {
        assert Signals(init, replica) + [] == Signals(init, replica);
      } else {
        assert (Signals(init, replica) + signal)[..|Signals(init, replica)|] == Signals(init, replica);
      }
    }
  }

  lemma {:induction false} TotalsAddUp(ops: seq<Op>, replica: nat)
    ensures After(ops).redis + MissedByRedis(ops) == TrueTotal(ops)
    ensures LocalOf(After(ops), replica) + MissedBy(ops, replica) == TrueTotal(ops)
  {
    if ops != [] {
      TotalsAddUp(ops[..|ops| - 1], replica);
    }
  }

  /**
   * After any operations of any replicas, and whichever backend answers, a read never exceeds the true
   * total; it is the true total exactly when that backend missed no increment.
   */
  lemma NeverOverReports(ops: seq<Op>, get: Op)
    requires get.action.Get?
    ensures Answer(After(ops), get) <= TrueTotal(ops)
    ensures Answer(After(ops), get) == TrueTotal(ops) <==>
            (if OnRedis(After(ops), get) then MissedByRedis(ops) else MissedBy(ops, get.replica)) == 0
  {
    TotalsAddUp(ops, get.replica);
  }

  /** A replica reads Redis exactly when it answers and the replica's switch has had its two good probes. */
  lemma ReadsRedisExactly(ops: seq<Op>, get: Op)
    requires get.action.Get?
    ensures var signals := Signals(ops, get.replica);
            OnRedis(After(ops), get) <==>
            get.action.redis.Answered? && (OpFails !in signals || TwoGoodInARow(SinceFailure(signals)))
  {
    HealthFollowsSignals(ops, get.replica);
    TrustedExactlyAfterTwoProbes(Signals(ops, get.replica));
  }

  // ----- Trust, from the outcomes alone -----

  /** The replica's operation i is an increment or a read whose Redis call, if made, fails. */
  predicate Unanswered(ops: seq<Op>, replica: nat, i: nat) {
    i < |ops| && ops[i].replica == replica && !ops[i].action.Probe? && !ops[i].action.redis.Answered?
  }

  predicate Probed(ops: seq<Op>, replica: nat, i: nat, ok: bool) {
    i < |ops| && ops[i] == Op(replica, Probe(ok))
  }

  /** Good probes at a and b with no bad one between. */
  ghost predicate GoodPair(ops: seq<Op>, replica: nat, a: nat, b: nat) {
    a < b && Probed(ops, replica, a, true) && Probed(ops, replica, b, true)
    && forall k :: a < k < b ==> !Probed(ops, replica, k, false)
  }

  function HealthAt(ops: seq<Op>, replica: nat, n: nat): Health
    requires n <= |ops|
  {
    HealthOf(After(ops[..n]), replica)
  }

  lemma StepOf(ops: seq<Op>, replica: nat, n: nat)
    requires n < |ops|
    ensures var before, after := HealthAt(ops, replica, n), HealthAt(ops, replica, n + 1);
            after ==
            if Probed(ops, replica, n, true) then Step(before, ProbeOk)
            else if Probed(ops, replica, n, false) then Step(before, ProbeFails)
            else if Unanswered(ops, replica, n) && before.healthy then Health(false, 0)
            else before
  {
    assert ops[..n + 1][..n] == ops[..n];
  }

  /** After an unanswered call a replica distrusts Redis, and with one good probe it remembers which. */
  lemma {:induction false} DistrustLasts(ops: seq<Op>, replica: nat, i: nat, n: nat) returns (a: nat)
    requires Unanswered(ops, replica, i) && HealthAt(ops, replica, i).healthy && i < n <= |ops|
    requires forall a: nat, b: nat :: i < a && b < n ==> !GoodPair(ops, replica, a, b)
    ensures var h := HealthAt(ops, replica, n);
            && !h.healthy && h.consecutiveOK <= 1
            && (h.consecutiveOK == 1 ==>
                  i < a < n && Probed(ops, replica, a, true)
                  && forall k :: a < k < n ==> !Probed(ops, replica, k, false))
    decreases n
  {
    a := 0;
    StepOf(ops, replica, n - 1);
    hide HealthAt;
    if i < n - 1 {
      a := DistrustLasts(ops, replica, i, n - 1);
      if Probed(ops, replica, n - 1, true) {
        assert HealthAt(ops, replica, n - 1).consecutiveOK == 1 ==> GoodPair(ops, replica, a, n - 1);
        a := n - 1;
      }
    }
  }

  /** After a failed call a replica reads its own memory until two good probes in a row. */
  lemma MemoryUntilTwoProbes(ops: seq<Op>, i: nat, get: Op)
    requires get.action.Get? && Unanswered(ops, get.replica, i) && HealthAt(ops, get.replica, i).healthy
    requires forall a: nat, b: nat :: i < a ==> !GoodPair(ops, get.replica, a, b)
    ensures !OnRedis(After(ops), get)
  {
    assert ops[..|ops|] == ops;
    var a := DistrustLasts(ops, get.replica, i, |ops|);
  }

  /** Two good probes in a row and no bad probe or failed call since the first: it reads Redis again. */
  lemma {:induction false} TrustedAfterPair(ops: seq<Op>, replica: nat, a: nat, b: nat, n: nat)
    requires GoodPair(ops, replica, a, b) && a < n <= |ops|
    requires forall k :: a < k < n ==> !Probed(ops, replica, k, false) && !Unanswered(ops, replica, k)
    ensures HealthAt(ops, replica, n).healthy || HealthAt(ops, replica, n).consecutiveOK >= 1
    ensures b < n ==> HealthAt(ops, replica, n).healthy
    decreases n
  {
    StepOf(ops, replica, n - 1);
    hide HealthAt;
    if a < n - 1 {
      TrustedAfterPair(ops, replica, a, b, n - 1);
      assert !Probed(ops, replica, n - 1, false) && !Unanswered(ops, replica, n - 1);
    }
  }

  lemma RedisAfterTwoProbes(ops: seq<Op>, a: nat, b: nat, get: Op)
    requires get.action == Get(Answered) && GoodPair(ops, get.replica, a, b)
    requires forall k :: a < k < |ops| ==> !Probed(ops, get.replica, k, false) && !Unanswered(ops, get.replica, k)
    ensures OnRedis(After(ops), get) && Answer(After(ops), get) == After(ops).redis
  {
    assert ops[..|ops|] == ops;
    TrustedAfterPair(ops, get.replica, a, b, |ops|);
  }

  /** A replica whose calls were all answered has never left Redis. */
  lemma {:induction false} NeverLeft(ops: seq<Op>, replica: nat, n: nat)
    requires n <= |ops| && forall k :: 0 <= k < n ==> !Unanswered(ops, replica, k)
    ensures HealthAt(ops, replica, n).healthy
    decreases n
  {
    if n > 0 {
      hide HealthAt;
      NeverLeft(ops, replica, n - 1);
      StepOf(ops, replica, n - 1);
      assert !Unanswered(ops, replica, n - 1);
    }
  }
}
