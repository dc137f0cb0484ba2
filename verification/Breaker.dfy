/** The in-process circuit breaker: one state machine per vendor, driven by timed calls. */
module Breaker {

  datatype Health = Closed | Open | HalfOpen

  /** Times are milliseconds; a zero time is 0. */
  datatype VendorState = VendorState(state: Health, consecutiveFailures: int, openedAt: int, lastProbeAt: int)

  datatype Params = Params(threshold: int, cooldown: int)

  const FRESH := VendorState(Closed, 0, 0, 0)

  /** NewHealthTracker replaces settings that are not positive. */
  function Defaulted(p: Params): (q: Params)
    ensures q.threshold > 0 && q.cooldown > 0
  {
    Params(if p.threshold <= 0 then 5 else p.threshold, if p.cooldown <= 0 then 30000 else p.cooldown)
  }

  datatype Op = Allow | Success | Failure

  datatype Call = Call(op: Op, now: int)

  // ----- One call, under the vendor's mutex -----

  /** What Allow answers; records answer nothing, here false. */
  predicate Answer(p: Params, v: VendorState, c: Call) {
    c.op.Allow? && (v.state.Closed? || (v.state.Open? && c.now - v.openedAt >= p.cooldown))
  }

  function Step(p: Params, v: VendorState, c: Call): VendorState {
    match c.op
    case Allow =>
      if v.state.Open? && c.now - v.openedAt >= p.cooldown then v.(state := HalfOpen, lastProbeAt := c.now) else v
    case Success =>
      v.(consecutiveFailures := 0, state := Closed, openedAt := 0)
    case Failure =>
      if v.state.HalfOpen? then v.(state := Open, openedAt := c.now)
      else
        var w := v.(consecutiveFailures := v.consecutiveFailures + 1);
        if w.state.Closed? && w.consecutiveFailures >= p.threshold then w.(state := Open, openedAt := c.now) else w
  }

  class HealthTracker {
    const params: Params
    var vendors: map<string, VendorState>

    constructor (threshold: int, cooldown: int)
      ensures params == Defaulted(Params(threshold, cooldown)) && vendors == map[]
    {
      var failureThreshold, wait := threshold, cooldown;
      if failureThreshold <= 0 {
        failureThreshold := 5;
      }
      if wait <= 0 {
        wait := 30000;
      }
      params := Params(failureThreshold, wait);
      vendors := map[];
    }

    /** A vendor never seen is closed. */
    function Of(vendor: string): VendorState
      reads this
    {
      if vendor in vendors then vendors[vendor] else FRESH
    }

    method StateFor(vendor: string) returns (v: VendorState)
      modifies this`vendors
      ensures v == old(Of(vendor)) && vendors == old(vendors)[vendor := v]
    {
      if vendor !in vendors {
        vendors := vendors[vendor := FRESH];
      }
      v := vendors[vendor];
      assert vendors == vendors[vendor := v];
    }

    method Allow(vendor: string, now: int) returns (ok: bool)
      modifies this`vendors
      ensures ok == Answer(params, old(Of(vendor)), Call(Op.Allow, now))
      ensures vendors == old(vendors)[vendor := Step(params, old(Of(vendor)), Call(Op.Allow, now))]
    {
      var v := StateFor(vendor);
      match v.state
      case Closed =>
        return true;
      case Open =>
        if now - v.openedAt < params.cooldown {
          return false;
        }
        vendors := vendors[vendor := v.(state := HalfOpen, lastProbeAt := now)];
        return true;
      case HalfOpen =>
        return false;
    }

    method RecordSuccess(vendor: string, ghost now: int)
      modifies this`vendors
      ensures vendors == old(vendors)[vendor := Step(params, old(Of(vendor)), Call(Success, now))]
    {
      var v := StateFor(vendor);
      vendors := vendors[vendor := v.(consecutiveFailures := 0, state := Closed, openedAt := 0)];
    }

    method RecordFailure(vendor: string, now: int)
      modifies this`vendors
      ensures vendors == old(vendors)[vendor := Step(params, old(Of(vendor)), Call(Failure, now))]
    {
      var v := StateFor(vendor);
      if v.state.HalfOpen? {
        vendors := vendors[vendor := v.(state := Open, openedAt := now)];
        return;
      }
      v := v.(consecutiveFailures := v.consecutiveFailures + 1);
      if v.state.Closed? && v.consecutiveFailures >= params.threshold {
        v := v.(state := Open, openedAt := now);
      }
      vendors := vendors[vendor := v];
    }
  }

  // ----- Whole histories of one vendor -----

  function Run(p: Params, calls: seq<Call>): VendorState {
    if calls == [] then FRESH else Step(p, Run(p, calls[..|calls| - 1]), calls[|calls| - 1])
  }

  lemma RunSplits(p: Params, calls: seq<Call>, j: nat)
    requires j < |calls|
    ensures Run(p, calls[..j + 1]) == Step(p, Run(p, calls[..j]), calls[j])
  {
    assert calls[..j + 1][..j] == calls[..j];
  }

  function FailuresSinceSuccess(calls: seq<Call>): nat {
    if calls == [] then 0
    else
      var last := calls[|calls| - 1];
      var before := FailuresSinceSuccess(calls[..|calls| - 1]);
      if last.op.Success? then 0 else if last.op.Failure? then before + 1 else before
  }

  /** Whatever the order and timing of calls, closed means fewer failures since the last success than the threshold. */
  lemma {:induction false} ClosedExactlyBelowThreshold(p: Params, calls: seq<Call>)
    requires p.threshold > 0
    ensures Run(p, calls).state.Closed? <==> FailuresSinceSuccess(calls) < p.threshold
    ensures Run(p, calls).state.Closed? ==> Run(p, calls).consecutiveFailures == FailuresSinceSuccess(calls)
  {
    if calls != [] {
      ClosedExactlyBelowThreshold(p, calls[..|calls| - 1]);
    }
  }

  /** Call j is a failure that opens the breaker. */
  predicate Opens(p: Params, calls: seq<Call>, j: nat) {
    && j < |calls|
    && calls[j].op.Failure?
    && !Run(p, calls[..j]).state.Open?
    && Run(p, calls[..j + 1]).state.Open?
  }

  /** Call j is let through although the breaker is not closed: it is the probe. */
  predicate Probes(p: Params, calls: seq<Call>, j: nat) {
    && j < |calls|
    && !Run(p, calls[..j]).state.Closed?
    && Answer(p, Run(p, calls[..j]), calls[j])
  }

  /** An open breaker was opened by a known call, and has let nothing through since. */
  lemma {:induction false} OpenSince(p: Params, calls: seq<Call>, j: nat) returns (i: nat)
    requires j <= |calls| && Run(p, calls[..j]).state.Open?
    ensures i < j && Opens(p, calls, i) && Run(p, calls[..j]).openedAt == calls[i].now
    ensures forall k :: i <= k < j ==> !Probes(p, calls, k)
    ensures OpenedBy(p, calls, i, j)
    decreases j
  {
    RunSplits(p, calls, j - 1);
    if Run(p, calls[..j - 1]).state.Open? {
      i := OpenSince(p, calls, j - 1);
    } else {
      i := j - 1;
    }
  }

  /** A probe comes a full cooldown after an opening, and is the first let through after it. */
  lemma ProbeFollowsOpening(p: Params, calls: seq<Call>, j: nat)
    requires Probes(p, calls, j)
    ensures exists i :: 0 <= i < j && Opens(p, calls, i) && calls[i].now + p.cooldown <= calls[j].now
                        && forall k :: i <= k < j ==> !Probes(p, calls, k)
  {
    var i := OpenSince(p, calls, j);
  }

  /** Between two probes the breaker opened again, a cooldown before the second: one probe per opening. */
  lemma OneProbePerOpening(p: Params, calls: seq<Call>, j: nat, k: nat)
    requires j < k && Probes(p, calls, j) && Probes(p, calls, k)
    ensures exists i :: j < i < k && Opens(p, calls, i) && calls[i].now + p.cooldown <= calls[k].now
  {
    var i := OpenSince(p, calls, k);
    assert i > j;
  }

  // ----- What a history is answered, from the history alone -----

  /** Neither a success nor a probe among calls[i..j]: a breaker opened before stays open. */
  ghost predicate StaysOpen(p: Params, calls: seq<Call>, i: nat, j: nat) {
    i <= j <= |calls| && forall k :: i <= k < j ==> !calls[k].op.Success? && !Probes(p, calls, k)
  }

  /** Neither a success nor a failure among calls[i..j]: the prober has not reported. */
  ghost predicate Unreported(calls: seq<Call>, i: nat, j: nat) {
    i <= j <= |calls| && forall k :: i <= k < j ==> calls[k].op.Allow?
  }

  ghost predicate OpenedBy(p: Params, calls: seq<Call>, i: nat, j: nat) {
    i < j && Opens(p, calls, i) && StaysOpen(p, calls, i + 1, j)
  }

  ghost predicate ProbedBy(p: Params, calls: seq<Call>, i: nat, j: nat) {
    i < j && Probes(p, calls, i) && Unreported(calls, i + 1, j)
  }

  /** A breaker is open, since the call that opened it, until a success or a probe; then half open until a report. */
  lemma {:induction false} StateFromHistory(p: Params, calls: seq<Call>, j: nat)
    requires j <= |calls|
    ensures forall i: nat :: OpenedBy(p, calls, i, j) ==>
              Run(p, calls[..j]).state.Open? && Run(p, calls[..j]).openedAt == calls[i].now
    ensures forall i: nat :: ProbedBy(p, calls, i, j) ==> Run(p, calls[..j]).state.HalfOpen?
    decreases j
  {
    if j > 0 {
      StateFromHistory(p, calls, j - 1);
      RunSplits(p, calls, j - 1);
      forall i: nat | OpenedBy(p, calls, i, j)
        ensures Run(p, calls[..j]).state.Open? && Run(p, calls[..j]).openedAt == calls[i].now
      {
        RunSplits(p, calls, i);
        assert i < j - 1 ==> OpenedBy(p, calls, i, j - 1);
        assert i < j - 1 ==> !calls[j - 1].op.Success? && !Probes(p, calls, j - 1);
      }
      forall i: nat | ProbedBy(p, calls, i, j) ensures Run(p, calls[..j]).state.HalfOpen? {
        RunSplits(p, calls, i);
        assert i < j - 1 ==> ProbedBy(p, calls, i, j - 1);
        assert i < j - 1 ==> calls[j - 1].op.Allow?;
      }
    }
  }

  lemma {:induction false} HalfOpenSince(p: Params, calls: seq<Call>, j: nat) returns (i: nat)
    requires j <= |calls| && Run(p, calls[..j]).state.HalfOpen?
    ensures ProbedBy(p, calls, i, j)
    decreases j
  {
    RunSplits(p, calls, j - 1);
    if Run(p, calls[..j - 1]).state.HalfOpen? {
      i := HalfOpenSince(p, calls, j - 1);
    } else {
      i := j - 1;
    }
  }

  /**
   * A request is let through exactly when fewer failures than the threshold were recorded since the last
   * success, or the breaker was opened at least a cooldown ago and no success or probe has come since.
   */
  lemma GrantedExactly(p: Params, calls: seq<Call>, j: nat)
    requires p.threshold > 0 && j < |calls| && calls[j].op.Allow?
    ensures Answer(p, Run(p, calls[..j]), calls[j]) <==>
            || FailuresSinceSuccess(calls[..j]) < p.threshold
            || exists i: nat :: OpenedBy(p, calls, i, j) && calls[i].now + p.cooldown <= calls[j].now
  {
    ClosedExactlyBelowThreshold(p, calls[..j]);
    StateFromHistory(p, calls, j);
    if Run(p, calls[..j]).state.Open? {
      var i := OpenSince(p, calls, j);
    }
  }

  /** A failure opens the breaker exactly when it reaches the threshold or reports a probe. */
  lemma OpensExactly(p: Params, calls: seq<Call>, j: nat)
    requires p.threshold > 0 && j < |calls| && calls[j].op.Failure?
    ensures Opens(p, calls, j) <==>
            FailuresSinceSuccess(calls[..j]) + 1 == p.threshold || exists i: nat :: ProbedBy(p, calls, i, j)
  {
    ClosedExactlyBelowThreshold(p, calls[..j]);
    StateFromHistory(p, calls, j);
    RunSplits(p, calls, j);
    if Run(p, calls[..j]).state.HalfOpen? {
      var i := HalfOpenSince(p, calls, j);
    }
  }
}
