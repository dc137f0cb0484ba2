/** The Redis circuit breaker: three Lua scripts over a state hash and an expiring probe token. */
module RedisBreaker {
  import opened Options
  import opened Breaker

  /** One vendor's two keys. A hash field may be missing; probe is the token's expiry time. */
  datatype Store = Store(
    state: Option<Health>,
    failures: Option<int>,
    openedAt: Option<int>,
    probe: Option<int>)

  const EMPTY := Store(None, None, None, None)

  function StateOf(s: Store): Health {
    if s.state.None? then Closed else s.state.value
  }

  function FailuresOf(s: Store): int {
    if s.failures.None? then 0 else s.failures.value
  }

  function OpenedAtOf(s: Store): int {
    if s.openedAt.None? then 0 else s.openedAt.value
  }

  /** EXISTS on the probe key. */
  predicate Live(s: Store, now: int) {
    s.probe.Some? && now < s.probe.value
  }

  datatype Config = Config(params: Params, probeTTL: int)

  // ----- The scripts -----

  predicate ScriptAnswer(g: Config, s: Store, c: Call) {
    && c.op.Allow?
    && match StateOf(s)
       case Closed => true
       case Open => c.now - OpenedAtOf(s) >= g.params.cooldown && !Live(s, c.now)
       case HalfOpen => !Live(s, c.now)
  }

  function ScriptStep(g: Config, s: Store, c: Call): Store {
    match c.op
    case Allow =>
      if !StateOf(s).Closed? && ScriptAnswer(g, s, c) then
        s.(state := Some(HalfOpen), probe := Some(c.now + g.probeTTL))
      else s
    case Success =>
      Store(Some(Closed), Some(0), Some(0), None)
    case Failure =>
      if s.state == Some(HalfOpen) then s.(state := Some(Open), openedAt := Some(c.now), probe := None)
      else
        var failures := FailuresOf(s) + 1;
        if StateOf(s).Closed? && failures >= g.params.threshold then
          s.(state := Some(Open), failures := Some(failures), openedAt := Some(c.now))
        else s.(failures := Some(failures))
  }

  class RedisKeys {
    var hashState: Option<Health>
    var hashFailures: Option<int>
    var hashOpenedAt: Option<int>
    var probe: Option<int>

    function View(): Store
      reads this
    {
      Store(hashState, hashFailures, hashOpenedAt, probe)
    }

    constructor ()
      ensures View() == EMPTY
    {
      hashState, hashFailures, hashOpenedAt, probe := None, None, None, None;
    }

    method AllowScript(g: Config, now: int) returns (ok: bool)
      modifies this
      ensures ok == ScriptAnswer(g, old(View()), Call(Op.Allow, now))
      ensures View() == ScriptStep(g, old(View()), Call(Op.Allow, now))
    {
      var state := hashState;
      if state.None? || state.value.Closed? {
        return true;
      }
      var tokenLive := probe.Some? && now < probe.value;
      if state.value.HalfOpen? && tokenLive {
        return false;
      }
      var openedAt := if hashOpenedAt.None? then 0 else hashOpenedAt.value;
      if state.value.Open? && now - openedAt < g.params.cooldown {
        return false;
      }
      if tokenLive {
        return false;
      }
      probe := Some(now + g.probeTTL);
      hashState := Some(HalfOpen);
      return true;
    }

    method RecordSuccessScript(g: Config, ghost now: int)
      modifies this
      ensures View() == ScriptStep(g, old(View()), Call(Success, now))
    {
      hashState, hashFailures, hashOpenedAt := Some(Closed), Some(0), Some(0);
      probe := None;
    }

    method RecordFailureScript(g: Config, now: int)
      modifies this
      ensures View() == ScriptStep(g, old(View()), Call(Failure, now))
    {
      var state := hashState;
      if state == Some(HalfOpen) {
        hashState, hashOpenedAt := Some(Open), Some(now);
        probe := None;
        return;
      }
      var failures := (if hashFailures.None? then 0 else hashFailures.value) + 1;
      hashFailures := Some(failures);
      if (state.None? || state.value.Closed?) && failures >= g.params.threshold {
        hashState, hashOpenedAt := Some(Open), Some(now);
      }
    }
  }

  // ----- Whole histories -----

  function ScriptRun(g: Config, calls: seq<Call>): Store {
    if calls == [] then EMPTY else ScriptStep(g, ScriptRun(g, calls[..|calls| - 1]), calls[|calls| - 1])
  }

  lemma ScriptRunSplits(g: Config, calls: seq<Call>, j: nat)
    requires j < |calls|
    ensures ScriptRun(g, calls[..j + 1]) == ScriptStep(g, ScriptRun(g, calls[..j]), calls[j])
  {
    assert calls[..j + 1][..j] == calls[..j];
  }

  /** In every run a probe token, live or not, exists only while half open. */
  lemma {:induction false} TokenMeansHalfOpen(g: Config, calls: seq<Call>)
    ensures ScriptRun(g, calls).probe.Some? ==> ScriptRun(g, calls).state == Some(HalfOpen)
    ensures StateOf(ScriptRun(g, calls)).HalfOpen? ==> ScriptRun(g, calls).probe.Some?
  {
    if calls != [] {
      TokenMeansHalfOpen(g, calls[..|calls| - 1]);
    }
  }

  // ----- Agreement with the in-process tracker -----

  /** Call j asks while half open after the prober's token ran out. */
  predicate AsksAfterExpiry(g: Config, calls: seq<Call>, j: nat) {
    && j < |calls|
    && calls[j].op.Allow?
    && StateOf(ScriptRun(g, calls[..j])).HalfOpen?
    && !Live(ScriptRun(g, calls[..j]), calls[j].now)
  }

  predicate SameAnswer(p: Params, g: Config, calls: seq<Call>, j: nat)
    requires j < |calls|
  {
    Answer(p, Run(p, calls[..j]), calls[j]) == ScriptAnswer(g, ScriptRun(g, calls[..j]), calls[j])
  }

  ghost predicate Agree(p: Params, g: Config, calls: seq<Call>) {
    forall j :: 0 <= j < |calls| ==> SameAnswer(p, g, calls, j)
  }

  /** The tracker and the store are in the same state; a missing hash field means closed or zero. */
  ghost predicate Same(v: VendorState, s: Store) {
    && v.state == StateOf(s)
    && v.consecutiveFailures == FailuresOf(s)
    && (v.state.Open? ==> v.openedAt == OpenedAtOf(s))
    && (s.probe.Some? ==> StateOf(s).HalfOpen?)
  }

  lemma StepKeepsSame(g: Config, v: VendorState, s: Store, c: Call)
    requires Same(v, s)
    requires !(c.op.Allow? && StateOf(s).HalfOpen? && !Live(s, c.now))
    ensures Same(Step(g.params, v, c), ScriptStep(g, s, c))
    ensures Answer(g.params, v, c) == ScriptAnswer(g, s, c)
  {
  }

  lemma {:induction false} SameUntilExpiry(g: Config, calls: seq<Call>, j: nat)
    requires j <= |calls| && forall i :: 0 <= i < j ==> !AsksAfterExpiry(g, calls, i)
    ensures Same(Run(g.params, calls[..j]), ScriptRun(g, calls[..j]))
    decreases j
  {
    if j > 0 {
      SameUntilExpiry(g, calls, j - 1);
      RunSplits(g.params, calls, j - 1);
      ScriptRunSplits(g, calls, j - 1);
      assert !AsksAfterExpiry(g, calls, j - 1);
      StepKeepsSame(g, Run(g.params, calls[..j - 1]), ScriptRun(g, calls[..j - 1]), calls[j - 1]);
    }
  }

  /** The scripts answer as the tracker does exactly on the histories that never ask after a token expired. */
  lemma AgreeExactlyWithoutExpiry(g: Config, calls: seq<Call>)
    ensures Agree(g.params, g, calls) <==> forall j :: 0 <= j < |calls| ==> !AsksAfterExpiry(g, calls, j)
  {
    if forall j :: 0 <= j < |calls| ==> !AsksAfterExpiry(g, calls, j) {
      forall j | 0 <= j < |calls| ensures SameAnswer(g.params, g, calls, j) {
        SameUntilExpiry(g, calls, j);
        assert !AsksAfterExpiry(g, calls, j);
        StepKeepsSame(g, Run(g.params, calls[..j]), ScriptRun(g, calls[..j]), calls[j]);
      }
    } else {
      var j := FirstExpiry(g, calls);
      SameUntilExpiry(g, calls, j);
      assert !SameAnswer(g.params, g, calls, j);
    }
  }

  lemma FirstExpiry(g: Config, calls: seq<Call>) returns (j: nat)
    requires exists i :: 0 <= i < |calls| && AsksAfterExpiry(g, calls, i)
    ensures AsksAfterExpiry(g, calls, j)
    ensures forall i :: 0 <= i < j ==> !AsksAfterExpiry(g, calls, i)
  {
    j := 0;
    while !AsksAfterExpiry(g, calls, j)
      invariant j < |calls|
      invariant forall i :: 0 <= i < j ==> !AsksAfterExpiry(g, calls, i)
      decreases |calls| - j
    {
      j := j + 1;
    }
  }

  // ----- Settings that are not positive -----

  ghost predicate NoExpiry(g: Config, calls: seq<Call>) {
    forall j :: 0 <= j < |calls| ==> !AsksAfterExpiry(g, calls, j)
  }

  /** Both backends built from the same settings: only the tracker replaces those that are not positive. */
  ghost predicate SettingsAgree(g: Config) {
    forall calls :: NoExpiry(g, calls) ==> Agree(Defaulted(g.params), g, calls)
  }

  function Failures(n: nat): (calls: seq<Call>)
    ensures |calls| == n
  {
    if n == 0 then [] else Failures(n - 1) + [Call(Failure, 0)]
  }

  lemma {:induction false} FailuresRun(g: Config, n: nat)
    requires 0 < g.params.threshold
    ensures n < g.params.threshold ==>
        ScriptRun(g, Failures(n)) == Store(None, if n == 0 then None else Some(n), None, None)
    ensures n == g.params.threshold ==> ScriptRun(g, Failures(n)) == Store(Some(Open), Some(n), Some(0), None)
  {
    if n > 0 {
      FailuresRun(g, n - 1);
      assert Failures(n)[..n - 1] == Failures(n - 1);
    }
  }

  /** A failure count the tracker would tolerate opens the scripts at once. */
  lemma ThresholdDisagrees(g: Config)
    requires g.params.threshold <= 0 && g.probeTTL > 0
    ensures !SettingsAgree(g)
  {
    var p := Defaulted(g.params);
    var calls := [Call(Failure, 0), Call(Op.Allow, 0), Call(Op.Allow, 0)];
    assert calls[..0] == [];
    RunSplits(p, calls, 0);
    RunSplits(p, calls, 1);
    ScriptRunSplits(g, calls, 0);
    ScriptRunSplits(g, calls, 1);
    assert NoExpiry(g, calls);
    assert !SameAnswer(p, g, calls, if g.params.cooldown > 0 then 1 else 2);
  }

  /** Without a cooldown the scripts probe at once; the tracker waits its default. */
  lemma CooldownDisagrees(g: Config)
    requires g.params.threshold > 0 && g.params.cooldown <= 0
    ensures !SettingsAgree(g)
  {
    var p := Defaulted(g.params);
    var n := g.params.threshold;
    var calls := Failures(n) + [Call(Op.Allow, 0)];
    assert calls[..n] == Failures(n);
    FailuresRun(g, n);
    FailuresRunTracker(p, n);
    forall j | 0 <= j < |calls| ensures !AsksAfterExpiry(g, calls, j) {
      if j < n {
        FailuresAreFailures(n, j);
        assert calls[j] == Failures(n)[j];
      }
    }
    assert NoExpiry(g, calls);
    assert !SameAnswer(p, g, calls, n);
  }

  lemma {:induction false} FailuresAreFailures(n: nat, j: nat)
    requires j < n
    ensures Failures(n)[j] == Call(Failure, 0)
  {
    if j < n - 1 {
      FailuresAreFailures(n - 1, j);
    }
  }

  lemma {:induction false} FailuresRunTracker(p: Params, n: nat)
    requires 0 < p.threshold
    ensures n < p.threshold ==> Run(p, Failures(n)) == VendorState(Closed, n, 0, 0)
    ensures n == p.threshold ==> Run(p, Failures(n)) == VendorState(Open, n, 0, 0)
  {
    if n > 0 {
      FailuresRunTracker(p, n - 1);
      assert Failures(n)[..n - 1] == Failures(n - 1);
    }
  }

  /** The two backends are interchangeable exactly when both settings are positive. */
  lemma SettingsAgreeExactlyWhenPositive(g: Config)
    requires g.probeTTL > 0
    ensures SettingsAgree(g) <==> g.params.threshold > 0 && g.params.cooldown > 0
  {
    if g.params.threshold <= 0 {
      ThresholdDisagrees(g);
    } else if g.params.cooldown <= 0 {
      CooldownDisagrees(g);
    } else {
      forall calls | NoExpiry(g, calls) ensures Agree(Defaulted(g.params), g, calls) {
        AgreeExactlyWithoutExpiry(g, calls);
      }
    }
  }

  // ----- Spacing of probes -----

  ghost predicate Ordered(calls: seq<Call>) {
    forall i, j :: 0 <= i <= j < |calls| ==> calls[i].now <= calls[j].now
  }

  predicate ScriptProbes(g: Config, calls: seq<Call>, j: nat) {
    && j < |calls|
    && !StateOf(ScriptRun(g, calls[..j])).Closed?
    && ScriptAnswer(g, ScriptRun(g, calls[..j]), calls[j])
  }

  ghost predicate NoSuccessBetween(calls: seq<Call>, j: nat, k: nat)
    requires k <= |calls|
  {
    forall i :: j < i < k ==> !calls[i].op.Success?
  }

  /** After a probe, until a success, the store holds back the next one. */
  ghost predicate HoldsBack(g: Config, s: Store, since: int) {
    match StateOf(s)
    case Closed => false
    case Open => since <= OpenedAtOf(s)
    case HalfOpen => s.probe.Some? && since + g.probeTTL <= s.probe.value
  }

  lemma {:induction false} ProbeHoldsBack(g: Config, calls: seq<Call>, j: nat, k: nat)
    requires Ordered(calls) && ScriptProbes(g, calls, j) && j < k <= |calls|
    requires NoSuccessBetween(calls, j, k)
    ensures HoldsBack(g, ScriptRun(g, calls[..k]), calls[j].now)
    decreases k
  {
    ScriptRunSplits(g, calls, k - 1);
    if k - 1 > j {
      ProbeHoldsBack(g, calls, j, k - 1);
      assert calls[j].now <= calls[k - 1].now;
    }
  }

  /** Two probes with no success between are at least the shorter of cooldown and token lifetime apart. */
  lemma ProbesAreApart(g: Config, calls: seq<Call>, j: nat, k: nat)
    requires Ordered(calls) && j < k && ScriptProbes(g, calls, j) && ScriptProbes(g, calls, k)
    requires NoSuccessBetween(calls, j, k)
    ensures calls[k].now - calls[j].now >= (if g.params.cooldown < g.probeTTL then g.params.cooldown else g.probeTTL)
  {
    ProbeHoldsBack(g, calls, j, k);
  }

  // ----- What a history is answered, from the history alone -----

  lemma {:induction false} ScriptClosedExactly(g: Config, calls: seq<Call>)
    requires g.params.threshold > 0
    ensures StateOf(ScriptRun(g, calls)).Closed? <==> FailuresSinceSuccess(calls) < g.params.threshold
    ensures StateOf(ScriptRun(g, calls)).Closed? ==> FailuresOf(ScriptRun(g, calls)) == FailuresSinceSuccess(calls)
  {
    if calls != [] {
      ScriptClosedExactly(g, calls[..|calls| - 1]);
    }
  }

  /** Call j is a failure that opens the breaker. */
  predicate ScriptOpens(g: Config, calls: seq<Call>, j: nat) {
    && j < |calls|
    && calls[j].op.Failure?
    && !StateOf(ScriptRun(g, calls[..j])).Open?
    && StateOf(ScriptRun(g, calls[..j + 1])).Open?
  }

  /** Opened by call i, with no success and no probe since. */
  ghost predicate ScriptOpenedBy(g: Config, calls: seq<Call>, i: nat, j: nat) {
    && i < j <= |calls| && ScriptOpens(g, calls, i)
    && forall k :: i < k < j ==> !calls[k].op.Success? && !ScriptProbes(g, calls, k)
  }

  /** Probed last by call i, with no report since. */
  ghost predicate ScriptProbedBy(g: Config, calls: seq<Call>, i: nat, j: nat) {
    && i < j <= |calls| && ScriptProbes(g, calls, i)
    && forall k :: i < k < j ==> calls[k].op.Allow? && !ScriptProbes(g, calls, k)
  }

  lemma {:induction false} OpenFromHistory(g: Config, calls: seq<Call>, i: nat, j: nat)
    requires ScriptOpenedBy(g, calls, i, j)
    ensures ScriptRun(g, calls[..j]).state == Some(Open)
    ensures ScriptRun(g, calls[..j]).openedAt == Some(calls[i].now)
    decreases j
  {
    ScriptRunSplits(g, calls, j - 1);
    if i < j - 1 {
      OpenFromHistory(g, calls, i, j - 1);
      assert !calls[j - 1].op.Success? && !ScriptProbes(g, calls, j - 1);
    }
  }

  lemma {:induction false} ProbedFromHistory(g: Config, calls: seq<Call>, i: nat, j: nat)
    requires ScriptProbedBy(g, calls, i, j)
    ensures ScriptRun(g, calls[..j]).state == Some(HalfOpen)
    ensures ScriptRun(g, calls[..j]).probe == Some(calls[i].now + g.probeTTL)
    decreases j
  {
    ScriptRunSplits(g, calls, j - 1);
    if i < j - 1 {
      ProbedFromHistory(g, calls, i, j - 1);
      assert calls[j - 1].op.Allow? && !ScriptProbes(g, calls, j - 1);
    }
  }

  lemma {:induction false} ScriptOpenSince(g: Config, calls: seq<Call>, j: nat) returns (i: nat)
    requires j <= |calls| && StateOf(ScriptRun(g, calls[..j])).Open?
    ensures ScriptOpenedBy(g, calls, i, j)
    decreases j
  {
    ScriptRunSplits(g, calls, j - 1);
    if StateOf(ScriptRun(g, calls[..j - 1])).Open? {
      i := ScriptOpenSince(g, calls, j - 1);
    } else {
      i := j - 1;
    }
  }

  lemma {:induction false} ScriptProbedSince(g: Config, calls: seq<Call>, j: nat) returns (i: nat)
    requires j <= |calls| && StateOf(ScriptRun(g, calls[..j])).HalfOpen?
    ensures ScriptProbedBy(g, calls, i, j)
    decreases j
  {
    ScriptRunSplits(g, calls, j - 1);
    if ScriptProbes(g, calls, j - 1) {
      i := j - 1;
    } else {
      i := ScriptProbedSince(g, calls, j - 1);
    }
  }

  /**
   * The scripts let a request through exactly when fewer failures than the threshold were recorded since
   * the last success, or the breaker was opened at least a cooldown ago and not probed since, or its last
   * probe was granted at least a token lifetime ago and has not reported.
   */
  lemma ScriptGrantedExactly(g: Config, calls: seq<Call>, j: nat)
    requires g.params.threshold > 0 && j < |calls| && calls[j].op.Allow?
    ensures ScriptAnswer(g, ScriptRun(g, calls[..j]), calls[j]) <==>
            || FailuresSinceSuccess(calls[..j]) < g.params.threshold
            || (exists i: nat :: ScriptOpenedBy(g, calls, i, j) && calls[i].now + g.params.cooldown <= calls[j].now)
            || (exists i: nat :: ScriptProbedBy(g, calls, i, j) && calls[i].now + g.probeTTL <= calls[j].now)
  {
    ScriptClosedExactly(g, calls[..j]);
    forall i: nat | ScriptOpenedBy(g, calls, i, j)
      ensures ScriptRun(g, calls[..j]).state == Some(Open) && ScriptRun(g, calls[..j]).openedAt == Some(calls[i].now)
    {
      OpenFromHistory(g, calls, i, j);
    }
    forall i: nat | ScriptProbedBy(g, calls, i, j)
      ensures ScriptRun(g, calls[..j]).state == Some(HalfOpen)
      ensures ScriptRun(g, calls[..j]).probe == Some(calls[i].now + g.probeTTL)
    {
      ProbedFromHistory(g, calls, i, j);
    }
    TokenMeansHalfOpen(g, calls[..j]);
    if StateOf(ScriptRun(g, calls[..j])).Open? {
      var i := ScriptOpenSince(g, calls, j);
    } else if StateOf(ScriptRun(g, calls[..j])).HalfOpen? {
      var i := ScriptProbedSince(g, calls, j);
    }
  }

  /** A failure opens the scripts' breaker exactly when it reaches the threshold or reports a probe. */
  lemma ScriptOpensExactly(g: Config, calls: seq<Call>, j: nat)
    requires g.params.threshold > 0 && j < |calls| && calls[j].op.Failure?
    ensures ScriptOpens(g, calls, j) <==>
            || FailuresSinceSuccess(calls[..j]) + 1 == g.params.threshold
            || exists i: nat :: ScriptProbedBy(g, calls, i, j)
  {
    ScriptClosedExactly(g, calls[..j]);
    forall i: nat | ScriptProbedBy(g, calls, i, j)
      ensures ScriptRun(g, calls[..j]).state == Some(HalfOpen)
      ensures ScriptRun(g, calls[..j]).probe == Some(calls[i].now + g.probeTTL)
    {
      ProbedFromHistory(g, calls, i, j);
    }
    ScriptRunSplits(g, calls, j);
    if StateOf(ScriptRun(g, calls[..j])).HalfOpen? {
      var i := ScriptProbedSince(g, calls, j);
    }
  }

  // ----- Replicas that fall back per call -----

  /** How one Redis round trip of a call ended. */
  datatype Trip =
    | Answered   // the script ran and its reply arrived
    | Unreached  // the script did not run
    | ReplyLost  // the script ran, the caller saw an error

  datatype ReplicaCall = ReplicaCall(replica: nat, call: Call, trip: Trip)

  predicate RanScript(c: ReplicaCall) {
    !c.trip.Unreached?
  }

  predicate FellBack(c: ReplicaCall, replica: nat) {
    !c.trip.Answered? && c.replica == replica
  }

  datatype Cluster = Cluster(redis: Store, local: map<nat, VendorState>)

  function LocalOf(w: Cluster, replica: nat): VendorState {
    if replica in w.local then w.local[replica] else FRESH
  }

  /** Allow, RecordSuccess and RecordFailure: Redis first, the replica's own tracker on an error. */
  function ClusterStep(g: Config, w: Cluster, c: ReplicaCall): Cluster {
    var redis := if RanScript(c) then ScriptStep(g, w.redis, c.call) else w.redis;
    var local := if c.trip.Answered? then w.local
                 else w.local[c.replica := Step(Defaulted(g.params), LocalOf(w, c.replica), c.call)];
    Cluster(redis, local)
  }

  function ClusterRun(g: Config, calls: seq<ReplicaCall>): Cluster {
    if calls == [] then Cluster(EMPTY, map[])
    else ClusterStep(g, ClusterRun(g, calls[..|calls| - 1]), calls[|calls| - 1])
  }

  function ScriptCalls(calls: seq<ReplicaCall>): seq<Call> {
    if calls == [] then []
    else
      var last := calls[|calls| - 1];
      ScriptCalls(calls[..|calls| - 1]) + (if RanScript(last) then [last.call] else [])
  }

  function FallbackCalls(calls: seq<ReplicaCall>, replica: nat): seq<Call> {
    if calls == [] then []
    else
      var last := calls[|calls| - 1];
      FallbackCalls(calls[..|calls| - 1], replica) + (if FellBack(last, replica) then [last.call] else [])
  }

  lemma RunAppends(p: Params, calls: seq<Call>, c: Call)
    ensures Run(p, calls + [c]) == Step(p, Run(p, calls), c)
  {
    assert (calls + [c])[..|calls|] == calls;
  }

  lemma ScriptRunAppends(g: Config, calls: seq<Call>, c: Call)
    ensures ScriptRun(g, calls + [c]) == ScriptStep(g, ScriptRun(g, calls), c)
  {
    assert (calls + [c])[..|calls|] == calls;
  }

  /** Redis sees exactly the calls whose script ran, each tracker exactly its own fallbacks; nothing is merged. */
  lemma {:induction false} BackendsNeverMerge(g: Config, calls: seq<ReplicaCall>, replica: nat)
    ensures ClusterRun(g, calls).redis == ScriptRun(g, ScriptCalls(calls))
    ensures LocalOf(ClusterRun(g, calls), replica) == Run(Defaulted(g.params), FallbackCalls(calls, replica))
  {
    if calls != [] {
      var init, last := calls[..|calls| - 1], calls[|calls| - 1];
      BackendsNeverMerge(g, init, replica);
      ScriptRunAppends(g, ScriptCalls(init), last.call);
      RunAppends(Defaulted(g.params), FallbackCalls(init, replica), last.call);
      assert ScriptCalls(init) + [] == ScriptCalls(init);
      assert FallbackCalls(init, replica) + [] == FallbackCalls(init, replica);
    }
  }

  /** The replica's number in its own view of the cluster. */
  const SELF: nat := 0

  /** One replica's breaker for one vendor: shared keys, a private tracker, and the backend used last. */
  class DistributedBreaker {
    const keys: RedisKeys
    const local: HealthTracker
    const config: Config
    const vendor: string
    var usingRedis: bool
    var initialized: bool

    constructor (keys: RedisKeys, config: Config, vendor: string)
      ensures this.keys == keys && this.config == config && this.vendor == vendor && Valid()
      ensures fresh(local) && local.Of(vendor) == FRESH && !initialized
    {
      this.keys, this.config, this.vendor := keys, config, vendor;
      local := new HealthTracker(config.params.threshold, config.params.cooldown);
      usingRedis, initialized := false, false;
    }

    ghost predicate Valid() {
      local.params == Defaulted(config.params)
    }

    /** The shared keys and this replica's tracker, as the cluster keeps them. */
    ghost function View(): Cluster
      reads keys, local
    {
      Cluster(keys.View(), map[SELF := local.Of(vendor)])
    }

    /** True when the backend differs from the previous call's: the one case that is logged. */
    method OnBackendResult(usedRedis: bool) returns (changed: bool)
      modifies this
      ensures changed == (old(initialized) && usedRedis != old(usingRedis))
      ensures usingRedis == usedRedis && initialized
    {
      changed := initialized && usedRedis != usingRedis;
      usingRedis := usedRedis;
      initialized := true;
    }

    method Allow(now: int, trip: Trip) returns (ok: bool)
      requires Valid()
      modifies this, keys, local
      ensures var c := Call(Op.Allow, now);
              && keys.View() == (if trip.Unreached? then old(keys.View()) else ScriptStep(config, old(keys.View()), c))
              && local.Of(vendor) ==
                  (if trip.Answered? then old(local.Of(vendor))
                      else Step(Defaulted(config.params), old(local.Of(vendor)), c))
              && ok == (if trip.Answered? then ScriptAnswer(config, old(keys.View()), c)
                  else Answer(Defaulted(config.params), old(local.Of(vendor)), c))
      ensures View() == ClusterStep(config, old(View()), ReplicaCall(SELF, Call(Op.Allow, now), trip))
      ensures usingRedis == trip.Answered?
    {
      var answer := false;
      if !trip.Unreached? {
        answer := keys.AllowScript(config, now);
      }
      var changed := OnBackendResult(trip.Answered?);
      if !trip.Answered? {
        ok := local.Allow(vendor, now);
      } else {
        ok := answer;
      }
    }

    method Record(op: Op, now: int, trip: Trip)
      requires Valid() && !op.Allow?
      modifies this, keys, local
      ensures var c := Call(op, now);
              && keys.View() == (if trip.Unreached? then old(keys.View()) else ScriptStep(config, old(keys.View()), c))
              && local.Of(vendor) ==
                  (if trip.Answered? then old(local.Of(vendor))
                      else Step(Defaulted(config.params), old(local.Of(vendor)), c))
      ensures View() == ClusterStep(config, old(View()), ReplicaCall(SELF, Call(op, now), trip))
      ensures usingRedis == trip.Answered?
    {
      if !trip.Unreached? {
        if op.Success? {
          keys.RecordSuccessScript(config, now);
        } else {
          keys.RecordFailureScript(config, now);
        }
      }
      var changed := OnBackendResult(trip.Answered?);
      if !trip.Answered? {
        if op.Success? {
          local.RecordSuccess(vendor, now);
        } else {
          local.RecordFailure(vendor, now);
        }
      }
    }
  }
}
