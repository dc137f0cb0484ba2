/**
 * Confirmed publishing over a pool of AMQP channels: concurrent publishers, each admitted by a
 * semaphore, borrow a channel, publish one message, wait for its confirm and give the channel back.
 */
module Publisher {
  import opened Options

  /** A broker confirm for the message of one publish call. */
  datatype Confirm = Confirm(message: nat, ack: bool)

  /**
   * A channel in confirm mode: how often it was closed, which messages the broker has yet to
   * confirm, and the confirms waiting to be received. lost: the confirm pipe closes once drained.
   */
  datatype Channel = Channel(closes: nat, outstanding: seq<nat>, confirms: seq<Confirm>, lost: bool)

  const NEW_CHANNEL := Channel(0, [], [], false)

  predicate Clean(ch: Channel) {
    ch.outstanding == [] && ch.confirms == []
  }

  // ----- The pool -----

  /** Whether a channel given back stays in the pool; otherwise it is closed. */
  predicate Keeps(maxSize: nat, free: seq<nat>, hadError: bool) {
    !hadError && |free| < maxSize
  }

  /** The bounded last-in-first-out free list, and the channels it closed, in order. */
  class ConfirmChannelPool {
    const maxSize: nat
    var free: seq<nat>
    var closed: seq<nat>

    constructor (maxSize: int)
      ensures this.maxSize == (if maxSize <= 0 then 16 else maxSize)
      ensures free == [] && closed == []
    {
      this.maxSize := if maxSize <= 0 then DEFAULT_POOL_SIZE else maxSize;
      free, closed := [], [];
    }

    /** An idle channel, or None: the caller then opens one outside the lock. */
    method Acquire() returns (cc: Option<nat>)
      modifies this
      ensures old(free) == [] ==> cc.None? && free == []
      ensures old(free) != [] ==> cc == Some(old(free)[|old(free)| - 1]) && free + [cc.value] == old(free)
      ensures closed == old(closed)
    {
      var n := |free|;
      if n > 0 {
        cc := Some(free[n - 1]);
        free := free[..n - 1];
      } else {
        cc := None;
      }
    }

    method Release(cc: nat, hadError: bool)
      modifies this
      ensures !Keeps(maxSize, old(free), hadError) ==> free == old(free) && closed == old(closed) + [cc]
      ensures Keeps(maxSize, old(free), hadError) ==> free == old(free) + [cc] && closed == old(closed)
      ensures |old(free)| <= maxSize ==> |free| <= maxSize
      ensures multiset(free) + multiset(closed) == old(multiset(free) + multiset(closed)) + multiset{cc}
    {
      if hadError {
        closed := closed + [cc];
        return;
      }
      if |free| >= maxSize {
        closed := closed + [cc];
        return;
      }
      free := free + [cc];
    }

    method Drain()
      modifies this
      ensures free == [] && closed == old(closed) + old(free)
    {
      for i := 0 to |free|
        invariant free == old(free) && closed == old(closed) + free[..i]
      {
        closed := closed + [free[i]];
      }
      assert free[..|free|] == free;
      free := free[..0];
    }
  }

  const DEFAULT_POOL_SIZE: nat := 16

  // ----- Publishers -----

  datatype Phase =
    | Arrived
    | Admitted
    | Opening                                   // found the pool empty, opens a channel unlocked
    | Holding(ch: nat)                          // has a channel, has not published
    | Waiting(ch: nat)                          // published, waits for the confirm
    | Releasing(ch: nat, hadError: bool, got: Option<Confirm>)
    | Leaving(got: Option<Confirm>)             // channel given back, semaphore not yet
    | Finished(got: Option<Confirm>)

  /** Channels are numbered in the order they are opened; a publisher's message bears its number. */
  datatype State = State(channels: seq<Channel>, free: seq<nat>, admitted: set<nat>, publishers: map<nat, Phase>)

  datatype Limits = Limits(maxSize: nat, maxConcurrent: nat)

  const START := State([], [], {}, map[])

  /** PublishTo returns nil: an acknowledging confirm was received and nothing failed. */
  predicate Succeeds(p: Phase) {
    match p
    case Releasing(_, hadError, got) => !hadError
    case Leaving(got) => got.Some? && got.value.ack
    case Finished(got) => got.Some? && got.value.ack
    case _ => false
  }

  predicate Uses(p: Phase) {
    p.Holding? || p.Waiting? || p.Releasing?
  }

  function ChannelOf(p: Phase): nat
    requires Uses(p)
  {
    p.ch
  }

  datatype Event =
    | Arrive(p: nat)
    | Admit(p: nat)
    | NotAdmitted(p: nat)                       // the context ends first
    | MarshalErrs(p: nat)
    | Take(p: nat)
    | OpenChannel(p: nat)
    | OpenErrs(p: nat)
    | Publish(p: nat)
    | PublishErrs(p: nat, sent: bool)           // the message may have left all the same
    | BrokerConfirms(ch: nat, at: nat, ack: bool)
    | ConnectionLost(ch: nat)
    | ReceiveConfirm(p: nat)
    | ReceiveClosed(p: nat)
    | Timeout(p: nat)
    | Release(p: nat)
    | Leave(p: nat)
    | Drain

  predicate At(s: State, p: nat) {
    p in s.publishers && (Uses(s.publishers[p]) ==> ChannelOf(s.publishers[p]) < |s.channels|)
  }

  predicate Enabled(l: Limits, s: State, e: Event) {
    match e
    case Arrive(p) => p !in s.publishers
    case Admit(p) => At(s, p) && s.publishers[p].Arrived? && |s.admitted| < l.maxConcurrent
    case NotAdmitted(p) => At(s, p) && s.publishers[p].Arrived?
    case MarshalErrs(p) => At(s, p) && s.publishers[p].Admitted?
    case Take(p) => At(s, p) && s.publishers[p].Admitted?
    case OpenChannel(p) => At(s, p) && s.publishers[p].Opening?
    case OpenErrs(p) => At(s, p) && s.publishers[p].Opening?
    case Publish(p) => At(s, p) && s.publishers[p].Holding?
    case PublishErrs(p, _) => At(s, p) && s.publishers[p].Holding?
    case BrokerConfirms(ch, at, _) => ch < |s.channels| && at < |s.channels[ch].outstanding|
    case ConnectionLost(ch) => ch < |s.channels|
    case ReceiveConfirm(p) => At(s, p) && s.publishers[p].Waiting? && s.channels[s.publishers[p].ch].confirms != []
    case ReceiveClosed(p) =>
      At(s, p) && s.publishers[p].Waiting? && s.channels[s.publishers[p].ch].confirms == []
          && s.channels[s.publishers[p].ch].lost
    case Timeout(p) => At(s, p) && s.publishers[p].Waiting?
    case Release(p) => At(s, p) && s.publishers[p].Releasing?
    case Leave(p) => At(s, p) && s.publishers[p].Leaving?
    case Drain => forall i :: 0 <= i < |s.free| ==> s.free[i] < |s.channels|
  }

  function Move(s: State, p: nat, phase: Phase): State {
    s.(publishers := s.publishers[p := phase])
  }

  function With(s: State, ch: nat, channel: Channel): (t: State)
    requires ch < |s.channels|
    ensures t.free == s.free && t.admitted == s.admitted && t.publishers == s.publishers
    ensures t.channels == s.channels[ch := channel]
  {
    s.(channels := s.channels[ch := channel])
  }

  function Close(s: State, ch: nat): (t: State)
    requires ch < |s.channels|
    ensures t.free == s.free && t.admitted == s.admitted && t.publishers == s.publishers
    ensures |t.channels| == |s.channels|
  {
    With(s, ch, s.channels[ch].(closes := s.channels[ch].closes + 1))
  }

  function CloseAll(s: State, ids: seq<nat>): (t: State)
    requires forall i :: 0 <= i < |ids| ==> ids[i] < |s.channels|
    ensures t.free == s.free && t.admitted == s.admitted && t.publishers == s.publishers
    ensures |t.channels| == |s.channels|
  {
    if ids == [] then s else Close(CloseAll(s, ids[..|ids| - 1]), ids[|ids| - 1])
  }

  function Apply(l: Limits, s: State, e: Event): State
    requires Enabled(l, s, e)
  {
    match e
    case Arrive(p) => Move(s, p, Arrived)
    case Admit(p) => Move(s, p, Admitted).(admitted := s.admitted + {p})
    case NotAdmitted(p) => Move(s, p, Finished(None))
    case MarshalErrs(p) => Move(s, p, Leaving(None))
    case Take(p) =>
      if s.free == [] then Move(s, p, Opening)
      else Move(s, p, Holding(s.free[|s.free| - 1])).(free := s.free[..|s.free| - 1])
    case OpenChannel(p) => Move(s, p, Holding(|s.channels|)).(channels := s.channels + [NEW_CHANNEL])
    case OpenErrs(p) => Move(s, p, Leaving(None))
    case Publish(p) =>
      var ch := s.publishers[p].ch;
      With(Move(s, p, Waiting(ch)), ch, s.channels[ch].(outstanding := s.channels[ch].outstanding + [p]))
    case PublishErrs(p, sent) =>
      var ch := s.publishers[p].ch;
      var t := Move(s, p, Releasing(ch, true, None));
      if sent then With(t, ch, s.channels[ch].(outstanding := s.channels[ch].outstanding + [p])) else t
    case BrokerConfirms(ch, at, ack) =>
      var c := s.channels[ch];
      With(s, ch, c.(outstanding := c.outstanding[..at] + c.outstanding[at + 1..],
                     confirms := c.confirms + [Confirm(c.outstanding[at], ack)]))
    case ConnectionLost(ch) => With(s, ch, s.channels[ch].(lost := true))
    case ReceiveConfirm(p) =>
      var ch := s.publishers[p].ch;
      var c := s.channels[ch].confirms[0];
      With(Move(s, p, Releasing(ch, !c.ack, Some(c))), ch, s.channels[ch].(confirms := s.channels[ch].confirms[1..]))
    case ReceiveClosed(p) => Move(s, p, Releasing(s.publishers[p].ch, true, None))
    case Timeout(p) => Move(s, p, Releasing(s.publishers[p].ch, true, None))
    case Release(p) =>
      var q := s.publishers[p];
      var t := Move(s, p, Leaving(q.got));
      if Keeps(l.maxSize, s.free, q.hadError) then t.(free := s.free + [q.ch]) else Close(t, q.ch)
    case Leave(p) => Move(s, p, Finished(s.publishers[p].got)).(admitted := s.admitted - {p})
    case Drain => CloseAll(s, s.free).(free := [])
  }

  // ----- What every run keeps -----

  /** Free channels are open, listed once, at most maxSize, and owe nobody a confirm. */
  ghost predicate FreeOk(l: Limits, s: State) {
    && |s.free| <= l.maxSize
    && (forall i :: 0 <= i < |s.free| ==>
        s.free[i] < |s.channels| && s.channels[s.free[i]].closes == 0 && Clean(s.channels[s.free[i]]))
    && (forall i, j :: 0 <= i < j < |s.free| ==> s.free[i] != s.free[j])
  }

  /** The one message the channel still owes or holds a confirm for is p's. */
  predicate OwesOnly(ch: Channel, p: nat) {
    || (ch.outstanding == [p] && ch.confirms == [])
    || (ch.outstanding == [] && |ch.confirms| == 1 && ch.confirms[0].message == p)
  }

  predicate UserOk(s: State, p: nat, phase: Phase) {
    Uses(phase) ==>
      && phase.ch < |s.channels|
      && s.channels[phase.ch].closes == 0
      && phase.ch !in s.free
      && (phase.Holding? ==> Clean(s.channels[phase.ch]))
      && (phase.Waiting? ==> OwesOnly(s.channels[phase.ch], p))
      && (phase.Releasing? && !phase.hadError ==> Clean(s.channels[phase.ch]))
  }

  ghost predicate UsersOk(s: State) {
    forall p :: p in s.publishers ==> UserOk(s, p, s.publishers[p])
  }

  /** No channel is in use twice. */
  ghost predicate Exclusive(s: State) {
    forall p, q ::
      && p in s.publishers && q in s.publishers && p != q
      && Uses(s.publishers[p]) && Uses(s.publishers[q]) ==>
      ChannelOf(s.publishers[p]) != ChannelOf(s.publishers[q])
  }

  predicate UsedBy(s: State, p: nat, ch: nat) {
    p in s.publishers && Uses(s.publishers[p]) && ChannelOf(s.publishers[p]) == ch
  }

  ghost predicate InUse(s: State, ch: nat) {
    exists p :: UsedBy(s, p, ch)
  }

  /** Every channel ever opened is closed once, or free, or in use. */
  ghost predicate Accounted(s: State) {
    forall ch :: 0 <= ch < |s.channels| ==>
      s.channels[ch].closes <= 1 && (s.channels[ch].closes == 0 ==> ch in s.free || InUse(s, ch))
  }

  predicate GotOk(p: nat, phase: Phase) {
    match phase
    case Releasing(_, hadError, got) =>
      (got.Some? ==> got.value.message == p && hadError == !got.value.ack) && (!hadError ==> got.Some?)
    case Leaving(got) => got.Some? ==> got.value.message == p
    case Finished(got) => got.Some? ==> got.value.message == p
    case _ => true
  }

  ghost predicate ConfirmsOk(s: State) {
    forall p :: p in s.publishers ==> GotOk(p, s.publishers[p])
  }

  predicate InsideSemaphore(phase: Phase) {
    !phase.Arrived? && !phase.Finished?
  }

  ghost predicate SemaphoreOk(l: Limits, s: State) {
    && |s.admitted| <= l.maxConcurrent
    && forall p :: p in s.admitted <==> p in s.publishers && InsideSemaphore(s.publishers[p])
  }

  ghost predicate Inv(l: Limits, s: State) {
    FreeOk(l, s) && UsersOk(s) && Exclusive(s) && Accounted(s) && ConfirmsOk(s) && SemaphoreOk(l, s)
  }

  lemma {:induction false} CloseAllCloses(s: State, ids: seq<nat>, ch: nat)
    requires forall i :: 0 <= i < |ids| ==> ids[i] < |s.channels|
    requires forall i, j :: 0 <= i < j < |ids| ==> ids[i] != ids[j]
    requires ch < |s.channels|
    ensures CloseAll(s, ids).channels[ch] ==
        s.channels[ch].(closes := s.channels[ch].closes + if ch in ids then 1 else 0)
  {
    if ids != [] {
      var init, last := ids[..|ids| - 1], ids[|ids| - 1];
      CloseAllCloses(s, init, ch);
      assert ids == init + [last];
    }
  }

  lemma StepKeepsAdmitted(l: Limits, s: State, e: Event, p: nat)
    requires SemaphoreOk(l, s) && Enabled(l, s, e)
    ensures p in Apply(l, s, e).admitted <==>
            p in Apply(l, s, e).publishers && InsideSemaphore(Apply(l, s, e).publishers[p])
  {
    hide Apply, Enabled;
    if Moves(e, p) {
      MoverAdmission(l, s, e, p);
    } else {
      BystanderSamePhase(l, s, e, p);
    }
  }

  lemma MoverAdmission(l: Limits, s: State, e: Event, p: nat)
    requires Enabled(l, s, e) && Moves(e, p)
    requires p in s.admitted <==> p in s.publishers && InsideSemaphore(s.publishers[p])
    ensures p in Apply(l, s, e).publishers
    ensures p in Apply(l, s, e).admitted <==> InsideSemaphore(Apply(l, s, e).publishers[p])
  {
    hide With, Close, CloseAll;
    if !e.Admit? && !e.Leave? {
      SameAdmitted(l, s, e);
      SameSide(l, s, e, p);
      hide Apply;
    }
  }

  /** Only admission and leaving change the semaphore. */
  lemma SameAdmitted(l: Limits, s: State, e: Event)
    requires Enabled(l, s, e) && !e.Admit? && !e.Leave?
    ensures Apply(l, s, e).admitted == s.admitted
  {
    hide With, Close, CloseAll;
  }

  /** Every other step stays on its side of the semaphore. */
  lemma SameSide(l: Limits, s: State, e: Event, p: nat)
    requires Enabled(l, s, e) && Moves(e, p) && !e.Admit? && !e.Leave?
    ensures p in Apply(l, s, e).publishers
    ensures InsideSemaphore(Apply(l, s, e).publishers[p]) <==> p in s.publishers && InsideSemaphore(s.publishers[p])
  {
    hide With, Close, CloseAll;
  }

  lemma StepKeepsCapacity(l: Limits, s: State, e: Event)
    requires SemaphoreOk(l, s) && Enabled(l, s, e)
    ensures |Apply(l, s, e).admitted| <= l.maxConcurrent
  {
    hide With, Close, CloseAll;
    if e.Leave? {
      CardinalityOfPart(s.admitted - {e.p}, s.admitted);
    }
  }

  lemma StepKeepsSemaphore(l: Limits, s: State, e: Event)
    requires Inv(l, s) && Enabled(l, s, e)
    ensures SemaphoreOk(l, Apply(l, s, e))
  {
    hide Apply, Enabled, FreeOk, UsersOk, Exclusive, Accounted, ConfirmsOk;
    StepKeepsCapacity(l, s, e);
    forall p ensures p in Apply(l, s, e).admitted <==>
                     p in Apply(l, s, e).publishers && InsideSemaphore(Apply(l, s, e).publishers[p]) {
      StepKeepsAdmitted(l, s, e, p);
    }
  }

  lemma CardinalityOfPart(a: set<nat>, b: set<nat>)
    requires a <= b
    ensures |a| <= |b|
  {
    assert b == a + (b - a);
  }

  lemma StepKeepsConfirms(l: Limits, s: State, e: Event)
    requires Inv(l, s) && Enabled(l, s, e)
    ensures ConfirmsOk(Apply(l, s, e))
  {
    hide FreeOk, Exclusive, Accounted, SemaphoreOk, Close, CloseAll;
  }

  lemma StepKeepsExclusive(l: Limits, s: State, e: Event)
    requires Inv(l, s) && Enabled(l, s, e)
    ensures Exclusive(Apply(l, s, e))
  {
    hide Accounted, SemaphoreOk, ConfirmsOk, Clean, OwesOnly, With, Close, CloseAll;
  }

  lemma StepKeepsFree(l: Limits, s: State, e: Event)
    requires Inv(l, s) && Enabled(l, s, e)
    ensures FreeOk(l, Apply(l, s, e))
  {
    hide Accounted, SemaphoreOk, ConfirmsOk, Exclusive;
  }

  /** The publisher whose step the event is, if it is one's. */
  predicate Moves(e: Event, q: nat) {
    match e
    case BrokerConfirms(_, _, _) => false
    case ConnectionLost(_) => false
    case Drain => false
    case _ => e.p == q
  }

  /** Steps that change the channel the publisher uses. */
  predicate TouchesChannel(e: Event) {
    e.Publish? || e.PublishErrs? || e.ReceiveConfirm? || e.Release?
  }

  lemma SpeakerStaysOk(l: Limits, s: State, e: Event, q: nat)
    requires UsersOk(s) && Enabled(l, s, e) && Moves(e, q) && TouchesChannel(e)
    ensures UserOk(Apply(l, s, e), q, Apply(l, s, e).publishers[q])
  {
    assert UserOk(s, q, s.publishers[q]);
    hide UsersOk;
  }

  lemma MoverStaysOk(l: Limits, s: State, e: Event, q: nat)
    requires FreeOk(l, s) && UsersOk(s) && Enabled(l, s, e) && Moves(e, q)
    ensures UserOk(Apply(l, s, e), q, Apply(l, s, e).publishers[q])
  {
    if TouchesChannel(e) {
      SpeakerStaysOk(l, s, e, q);
    } else if q in s.publishers {
      assert UserOk(s, q, s.publishers[q]);
      hide UsersOk;
    }
  }

  /** Another publisher's step touches neither q's channel nor its place outside the free list. */
  lemma BystanderStaysOk(l: Limits, s: State, e: Event, q: nat)
    requires FreeOk(l, s) && UsersOk(s) && Exclusive(s) && Enabled(l, s, e)
    requires q in s.publishers && !Moves(e, q)
    requires !e.BrokerConfirms? && !e.ConnectionLost? && !e.Drain?
    ensures q in Apply(l, s, e).publishers && UserOk(Apply(l, s, e), q, s.publishers[q])
  {
    assert UserOk(s, q, s.publishers[q]);
    if e.p in s.publishers {
      assert UserOk(s, e.p, s.publishers[e.p]);
    }
  }

  lemma BrokerKeepsUser(l: Limits, s: State, e: Event, q: nat)
    requires FreeOk(l, s) && UsersOk(s) && Enabled(l, s, e) && q in s.publishers
    requires e.BrokerConfirms? || e.ConnectionLost? || e.Drain?
    ensures Apply(l, s, e).publishers == s.publishers && UserOk(Apply(l, s, e), q, s.publishers[q])
  {
    assert UserOk(s, q, s.publishers[q]);
    if e.Drain? {
      if Uses(s.publishers[q]) {
        CloseAllCloses(s, s.free, s.publishers[q].ch);
      }
    }
  }

  lemma StepKeepsUser(l: Limits, s: State, e: Event, q: nat)
    requires Inv(l, s) && Enabled(l, s, e) && q in Apply(l, s, e).publishers
    ensures UserOk(Apply(l, s, e), q, Apply(l, s, e).publishers[q])
  {
    hide UserOk, FreeOk, UsersOk, Exclusive, Accounted, SemaphoreOk, ConfirmsOk;
    if Moves(e, q) {
      MoverStaysOk(l, s, e, q);
    } else if e.BrokerConfirms? || e.ConnectionLost? || e.Drain? {
      BrokerKeepsUser(l, s, e, q);
    } else {
      BystanderStaysOk(l, s, e, q);
    }
  }

  lemma StepKeepsUsers(l: Limits, s: State, e: Event)
    requires Inv(l, s) && Enabled(l, s, e)
    ensures UsersOk(Apply(l, s, e))
  {
    hide Inv, UserOk;
    forall q | q in Apply(l, s, e).publishers ensures UserOk(Apply(l, s, e), q, Apply(l, s, e).publishers[q]) {
      StepKeepsUser(l, s, e, q);
    }
  }

  /** A user that the event does not move still uses its channel. */
  lemma StepKeepsUse(l: Limits, s: State, e: Event, q: nat, ch: nat)
    requires Enabled(l, s, e) && UsedBy(s, q, ch)
    requires !(e.Release? && e.p == q)
    ensures UsedBy(Apply(l, s, e), q, ch)
  {
  }

  lemma StepKeepsAccounted(l: Limits, s: State, e: Event)
    requires Inv(l, s) && Enabled(l, s, e)
    ensures Accounted(Apply(l, s, e))
  {
    hide SemaphoreOk, ConfirmsOk, Exclusive;
    var t := Apply(l, s, e);
    forall ch | 0 <= ch < |t.channels|
      ensures t.channels[ch].closes <= 1 && (t.channels[ch].closes == 0 ==> ch in t.free || InUse(t, ch))
    {
      if ch < |s.channels| {
        ChannelStaysAccounted(l, s, e, ch);
      } else {
        assert UsedBy(t, e.p, ch);
      }
    }
  }

  lemma ChannelStaysAccounted(l: Limits, s: State, e: Event, ch: nat)
    requires Inv(l, s) && Enabled(l, s, e) && ch < |s.channels|
    ensures var t := Apply(l, s, e);
            && ch < |t.channels| && t.channels[ch].closes <= 1
            && (t.channels[ch].closes == 0 ==> ch in t.free || InUse(t, ch))
  {
    hide SemaphoreOk, ConfirmsOk, Exclusive;
    var t := Apply(l, s, e);
    if e.Drain? {
      CloseAllCloses(s, s.free, ch);
    }
    if t.channels[ch].closes == 0 {
      if ch in s.free {
        if e.Take? && ch !in t.free {
          assert UsedBy(t, e.p, ch);
        }
      } else {
        assert InUse(s, ch);
        var q :| UsedBy(s, q, ch);
        if !(e.Release? && e.p == q) {
          StepKeepsUse(l, s, e, q, ch);
        }
      }
    }
  }

  lemma StepKeepsInv(l: Limits, s: State, e: Event)
    requires Inv(l, s) && Enabled(l, s, e)
    ensures Inv(l, Apply(l, s, e))
  {
    hide Apply, Enabled, FreeOk, UsersOk, Exclusive, Accounted, ConfirmsOk, SemaphoreOk;
    StepKeepsFree(l, s, e);
    StepKeepsUsers(l, s, e);
    StepKeepsExclusive(l, s, e);
    StepKeepsAccounted(l, s, e);
    StepKeepsConfirms(l, s, e);
    StepKeepsSemaphore(l, s, e);
  }

  // ----- Whole runs -----

  ghost predicate IsRun(l: Limits, events: seq<Event>, states: seq<State>) {
    && |states| == |events| + 1
    && states[0] == START
    && forall i :: 0 <= i < |events| ==>
        Enabled(l, states[i], events[i]) && states[i + 1] == Apply(l, states[i], events[i])
  }

  lemma {:induction false} RunKeepsInv(l: Limits, events: seq<Event>, states: seq<State>, i: nat)
    requires IsRun(l, events, states) && i < |states|
    ensures Inv(l, states[i])
  {
    hide Apply, Enabled;
    if i > 0 {
      RunKeepsInv(l, events, states, i - 1);
      StepKeepsInv(l, states[i - 1], events[i - 1]);
    }
  }

  /** The event is the broker's confirm c of a message it had outstanding. */
  predicate IsConfirmOf(s: State, e: Event, c: Confirm) {
    && e.BrokerConfirms? && e.ack == c.ack
    && e.ch < |s.channels| && e.at < |s.channels[e.ch].outstanding|
    && s.channels[e.ch].outstanding[e.at] == c.message
  }

  predicate Queued(s: State, ch: nat, c: Confirm) {
    ch < |s.channels| && c in s.channels[ch].confirms
  }

  predicate Got(s: State, p: nat, c: Confirm) {
    && p in s.publishers
    && match s.publishers[p]
       case Releasing(_, _, got) => got == Some(c)
       case Leaving(got) => got == Some(c)
       case Finished(got) => got == Some(c)
       case _ => false
  }

  lemma QueuedComesFrom(l: Limits, s: State, e: Event, ch: nat, c: Confirm)
    requires FreeOk(l, s) && Enabled(l, s, e) && Queued(Apply(l, s, e), ch, c)
    ensures Queued(s, ch, c) || IsConfirmOf(s, e, c)
  {
    if e.Drain? {
      CloseAllCloses(s, s.free, ch);
    } else if e.BrokerConfirms? && e.ch == ch {
      ConfirmComesFrom(l, s, e, c);
    } else {
      hide FreeOk, CloseAll;
    }
  }

  lemma ConfirmComesFrom(l: Limits, s: State, e: Event, c: Confirm)
    requires Enabled(l, s, e) && e.BrokerConfirms? && Queued(Apply(l, s, e), e.ch, c)
    ensures Queued(s, e.ch, c) || IsConfirmOf(s, e, c)
  {
    hide CloseAll;
  }

  lemma GotComesFrom(l: Limits, s: State, e: Event, p: nat, c: Confirm)
    requires Enabled(l, s, e) && Got(Apply(l, s, e), p, c)
    ensures Got(s, p, c) || (p in s.publishers && s.publishers[p].Waiting? && Queued(s, s.publishers[p].ch, c))
  {
    hide Close, CloseAll;
    if !Moves(e, p) {
      BystanderSamePhase(l, s, e, p);
      hide Apply;
    }
  }

  lemma BystanderSamePhase(l: Limits, s: State, e: Event, p: nat)
    requires Enabled(l, s, e) && !Moves(e, p)
    ensures p in Apply(l, s, e).publishers <==> p in s.publishers
    ensures p in s.publishers ==> Apply(l, s, e).publishers[p] == s.publishers[p]
    ensures p in Apply(l, s, e).admitted <==> p in s.admitted
  {
    hide With, Close, CloseAll;
  }

  ghost predicate Sent(events: seq<Event>, states: seq<State>, i: nat, c: Confirm)
    requires |states| == |events| + 1
  {
    exists k :: 0 <= k < i && k < |events| && IsConfirmOf(states[k], events[k], c)
  }

  lemma {:induction false} QueuedWasSent(l: Limits, events: seq<Event>, states: seq<State>, i: nat, ch: nat, c: Confirm)
    requires IsRun(l, events, states) && i < |states| && Queued(states[i], ch, c)
    ensures Sent(events, states, i, c)
  {
    hide Apply, Enabled;
    RunKeepsInv(l, events, states, i - 1);
    QueuedComesFrom(l, states[i - 1], events[i - 1], ch, c);
    if Queued(states[i - 1], ch, c) {
      QueuedWasSent(l, events, states, i - 1, ch, c);
    }
  }

  lemma {:induction false} GotWasSent(l: Limits, events: seq<Event>, states: seq<State>, i: nat, p: nat, c: Confirm)
    requires IsRun(l, events, states) && i < |states| && Got(states[i], p, c)
    ensures Sent(events, states, i, c)
  {
    hide Apply, Enabled;
    GotComesFrom(l, states[i - 1], events[i - 1], p, c);
    if Got(states[i - 1], p, c) {
      GotWasSent(l, events, states, i - 1, p, c);
    } else {
      QueuedWasSent(l, events, states, i - 1, states[i - 1].publishers[p].ch, c);
    }
  }

  /** A publish that succeeds received a confirm the broker sent for that publish's own message. */
  lemma SuccessIsOwnAck(l: Limits, events: seq<Event>, states: seq<State>, i: nat, p: nat)
    requires IsRun(l, events, states) && i < |states|
    requires p in states[i].publishers && Succeeds(states[i].publishers[p])
    ensures Got(states[i], p, Confirm(p, true)) && Sent(events, states, i, Confirm(p, true))
  {
    hide Apply, Enabled, FreeOk, UsersOk, Exclusive, Accounted, SemaphoreOk, Sent;
    RunKeepsInv(l, events, states, i);
    assert GotOk(p, states[i].publishers[p]);
    assert Got(states[i], p, Confirm(p, true));
    GotWasSent(l, events, states, i, p, Confirm(p, true));
  }

  /** The publisher receives a positive confirm of its own message. */
  predicate ReceivesAck(s: State, e: Event, p: nat) {
    && e == ReceiveConfirm(p) && At(s, p) && s.publishers[p].Waiting?
    && s.channels[s.publishers[p].ch].confirms != []
    && s.channels[s.publishers[p].ch].confirms[0] == Confirm(p, true)
  }

  predicate HasSucceeded(s: State, p: nat) {
    p in s.publishers && Succeeds(s.publishers[p])
  }

  lemma ConfirmSuccess(l: Limits, s: State, p: nat)
    requires UsersOk(s) && Enabled(l, s, ReceiveConfirm(p))
    ensures HasSucceeded(Apply(l, s, ReceiveConfirm(p)), p) <==> ReceivesAck(s, ReceiveConfirm(p), p)
  {
    assert UserOk(s, p, s.publishers[p]);
  }

  lemma OtherSuccess(l: Limits, s: State, e: Event, p: nat)
    requires ConfirmsOk(s) && Enabled(l, s, e) && Moves(e, p) && !e.ReceiveConfirm?
    ensures HasSucceeded(Apply(l, s, e), p) <==> HasSucceeded(s, p)
  {
    assert p in s.publishers ==> GotOk(p, s.publishers[p]);
    hide With, Close, CloseAll, UserOk;
  }

  lemma SuccessStep(l: Limits, s: State, e: Event, p: nat)
    requires Inv(l, s) && Enabled(l, s, e)
    ensures HasSucceeded(Apply(l, s, e), p) <==> HasSucceeded(s, p) || ReceivesAck(s, e, p)
  {
    hide Apply;
    if !Moves(e, p) {
      BystanderSamePhase(l, s, e, p);
    } else if e.ReceiveConfirm? {
      ConfirmSuccess(l, s, p);
    } else {
      OtherSuccess(l, s, e, p);
    }
  }

  ghost predicate AckReceived(events: seq<Event>, states: seq<State>, i: nat, p: nat)
    requires |states| == |events| + 1 && i < |states|
  {
    exists k: nat :: k < i && ReceivesAck(states[k], events[k], p)
  }

  /** A publish reports success exactly when it received the positive confirm of its own message. */
  lemma {:induction false} SucceedsExactly(l: Limits, events: seq<Event>, states: seq<State>, i: nat, p: nat)
    requires IsRun(l, events, states) && i < |states|
    ensures HasSucceeded(states[i], p) <==> AckReceived(events, states, i, p)
  {
    hide Apply, Enabled, Inv, ReceivesAck;
    if i > 0 {
      SucceedsExactly(l, events, states, i - 1, p);
      RunKeepsInv(l, events, states, i - 1);
      SuccessStep(l, states[i - 1], events[i - 1], p);
      assert AckReceived(events, states, i, p) <==>
             AckReceived(events, states, i - 1, p) || ReceivesAck(states[i - 1], events[i - 1], p);
    }
  }

  /** Its channel then goes back to the pool, open, if there is room; after anything else it is closed, once. */
  lemma GivenBackExactly(l: Limits, events: seq<Event>, states: seq<State>, i: nat, p: nat)
    requires IsRun(l, events, states) && i < |events| && events[i] == Release(p)
    ensures var s, t, ch := states[i], states[i + 1], states[i].publishers[p].ch;
            && ch < |t.channels|
            && (ch in t.free <==> AckReceived(events, states, i, p) && |s.free| < l.maxSize)
            && t.channels[ch].closes == (if ch in t.free then 0 else 1)
            && t.free == (if ch in t.free then s.free + [ch] else s.free)
  {
    RunKeepsInv(l, events, states, i);
    SucceedsExactly(l, events, states, i, p);
    assert UserOk(states[i], p, states[i].publishers[p]);
    hide Inv, AckReceived, CloseAll;
  }

  /** A publisher takes the channel given back last, and only finding none idle has one opened. */
  lemma TakesIdleFirst(l: Limits, events: seq<Event>, states: seq<State>, i: nat, p: nat)
    requires IsRun(l, events, states) && i < |events| && events[i] == Take(p)
    ensures var s, t := states[i], states[i + 1];
            && t.channels == s.channels
            && (s.free != [] ==> t.publishers[p].Holding? && t.free + [t.publishers[p].ch] == s.free)
            && (s.free == [] ==> t.publishers[p].Opening?)
  {
  }

  lemma OpeningStep(l: Limits, s: State, e: Event, p: nat)
    requires Enabled(l, s, e) && p in Apply(l, s, e).publishers && Apply(l, s, e).publishers[p].Opening?
    ensures (e == Take(p) && s.free == []) || (p in s.publishers && s.publishers[p].Opening?)
  {
    hide With, Close, CloseAll;
    if !Moves(e, p) {
      BystanderSamePhase(l, s, e, p);
    }
  }

  lemma {:induction false} OpeningFoundNone(l: Limits, events: seq<Event>, states: seq<State>, i: nat, p: nat)
    returns (k: nat)
    requires IsRun(l, events, states) && i < |states| && p in states[i].publishers && states[i].publishers[p].Opening?
    ensures k < i && events[k] == Take(p) && states[k].free == []
  {
    hide Apply, Enabled;
    OpeningStep(l, states[i - 1], events[i - 1], p);
    if events[i - 1] == Take(p) && states[i - 1].free == [] {
      k := i - 1;
    } else {
      k := OpeningFoundNone(l, events, states, i - 1, p);
    }
  }

  lemma ChannelsGrow(l: Limits, s: State, e: Event)
    requires Enabled(l, s, e)
    ensures |Apply(l, s, e).channels| == |s.channels| + (if e.OpenChannel? then 1 else 0)
  {
    hide With, Close, CloseAll;
  }

  /** Channels are opened one by one, each for a publisher that found the pool empty. */
  lemma OpenedOnlyWhenEmpty(l: Limits, events: seq<Event>, states: seq<State>, i: nat) returns (k: nat)
    requires IsRun(l, events, states) && i < |events| && |states[i + 1].channels| != |states[i].channels|
    ensures events[i].OpenChannel? && |states[i + 1].channels| == |states[i].channels| + 1
    ensures k < i && events[k] == Take(events[i].p) && states[k].free == []
  {
    hide Apply;
    ChannelsGrow(l, states[i], events[i]);
    k := OpeningFoundNone(l, events, states, i, events[i].p);
  }

  /** A drain closes exactly the idle channels, once each, and leaves none idle. */
  lemma DrainClosesIdle(l: Limits, events: seq<Event>, states: seq<State>, i: nat, ch: nat)
    requires IsRun(l, events, states) && i < |events| && events[i] == Drain && ch < |states[i].channels|
    ensures states[i + 1].free == [] && |states[i + 1].channels| == |states[i].channels|
    ensures states[i + 1].channels[ch].closes == states[i].channels[ch].closes + (if ch in states[i].free then 1 else 0)
  {
    RunKeepsInv(l, events, states, i);
    CloseAllCloses(states[i], states[i].free, ch);
  }

  /** A channel in use is free of every other publisher's message, open, and nobody else's. */
  lemma BorrowedIsExclusive(l: Limits, events: seq<Event>, states: seq<State>, i: nat, p: nat, ch: nat)
    requires IsRun(l, events, states) && i < |states| && UsedBy(states[i], p, ch)
    ensures ch < |states[i].channels| && states[i].channels[ch].closes == 0 && ch !in states[i].free
    ensures forall q :: UsedBy(states[i], q, ch) ==> q == p
    ensures forall c :: c in states[i].channels[ch].confirms && states[i].publishers[p].Waiting? ==> c.message == p
  {
    RunKeepsInv(l, events, states, i);
    assert UserOk(states[i], p, states[i].publishers[p]);
  }

  // ----- Conservation -----

  ghost function ClosedChannels(s: State): set<nat> {
    set ch | 0 <= ch < |s.channels| && s.channels[ch].closes > 0
  }

  ghost function Ids(ids: seq<nat>): set<nat> {
    set ch | ch in ids
  }

  ghost function Borrowed(s: State, who: set<nat>): set<nat>
    requires forall p :: p in who ==> p in s.publishers && Uses(s.publishers[p])
  {
    set p | p in who :: ChannelOf(s.publishers[p])
  }

  ghost function Users(s: State): set<nat> {
    set p | p in s.publishers && Uses(s.publishers[p])
  }

  ghost function UsedChannels(s: State): set<nat> {
    Borrowed(s, Users(s))
  }

  ghost function Opened(n: nat): (r: set<nat>)
    ensures |r| == n
    ensures forall ch :: ch in r <==> 0 <= ch < n
  {
    if n == 0 then {} else Opened(n - 1) + {n - 1}
  }

  lemma {:induction false} UniqueCardinality(ids: seq<nat>)
    requires forall i, j :: 0 <= i < j < |ids| ==> ids[i] != ids[j]
    ensures |Ids(ids)| == |ids|
  {
    if ids != [] {
      UniqueCardinality(ids[1..]);
      assert Ids(ids) == {ids[0]} + Ids(ids[1..]);
    }
  }

  lemma {:induction false} BorrowedCardinality(s: State, who: set<nat>)
    requires forall p :: p in who ==> p in s.publishers && Uses(s.publishers[p])
    ensures |Borrowed(s, who)| <= |who|
  {
    if who != {} {
      var q :| q in who;
      BorrowedCardinality(s, who - {q});
      assert Borrowed(s, who) == Borrowed(s, who - {q}) + {ChannelOf(s.publishers[q])};
    }
  }

  /** At most as many channels in use as publishers admitted. */
  lemma UsedWithinSemaphore(l: Limits, s: State)
    requires SemaphoreOk(l, s)
    ensures |UsedChannels(s)| <= l.maxConcurrent
  {
    BorrowedCardinality(s, Users(s));
    assert Users(s) <= s.admitted;
    CardinalityOfPart(Users(s), s.admitted);
  }

  lemma UserNotElsewhere(s: State, ch: nat)
    requires UsersOk(s) && ch in UsedChannels(s)
    ensures ch < |s.channels| && ch !in ClosedChannels(s) && ch !in Ids(s.free)
  {
    var p :| p in Users(s) && ChannelOf(s.publishers[p]) == ch;
    assert UserOk(s, p, s.publishers[p]);
  }

  lemma EveryChannelSomewhere(s: State, ch: nat)
    requires Accounted(s) && ch < |s.channels|
    ensures ch in ClosedChannels(s) || ch in Ids(s.free) || ch in UsedChannels(s)
  {
    if ch !in ClosedChannels(s) && ch !in Ids(s.free) {
      assert InUse(s, ch);
      var p :| UsedBy(s, p, ch);
      assert p in Users(s);
    }
  }

  lemma ThreeWaySplit(l: Limits, s: State)
    requires Inv(l, s)
    ensures |s.channels| == |ClosedChannels(s)| + |Ids(s.free)| + |UsedChannels(s)|
  {
    hide UsersOk, Accounted, SemaphoreOk, ConfirmsOk, Exclusive, UsedChannels, Clean;
    var closed, free, used := ClosedChannels(s), Ids(s.free), UsedChannels(s);
    assert closed !! free;
    forall ch | ch in used ensures ch < |s.channels| && ch !in closed && ch !in free {
      UserNotElsewhere(s, ch);
    }
    forall ch | 0 <= ch < |s.channels| ensures ch in closed || ch in free || ch in used {
      EveryChannelSomewhere(s, ch);
    }
    assert Opened(|s.channels|) == closed + free + used;
  }

  /** opened = closed + free + in use, each channel closed at most once; live channels are bounded. */
  lemma ChannelsConserved(l: Limits, events: seq<Event>, states: seq<State>, i: nat)
    requires IsRun(l, events, states) && i < |states|
    ensures var s := states[i];
            && |s.channels| == |ClosedChannels(s)| + |s.free| + |UsedChannels(s)|
            && (forall ch :: 0 <= ch < |s.channels| ==> s.channels[ch].closes <= 1)
            && |s.free| <= l.maxSize
            && |s.channels| - |ClosedChannels(s)| <= l.maxSize + l.maxConcurrent
  {
    hide Apply, Enabled, UsersOk, ConfirmsOk, Exclusive, UsedChannels;
    var s := states[i];
    RunKeepsInv(l, events, states, i);
    ThreeWaySplit(l, s);
    UniqueCardinality(s.free);
    UsedWithinSemaphore(l, s);
  }

  // ----- Every publish ends -----

  /** The most steps a publisher has still to take. */
  function Remaining(p: Phase): nat {
    match p
    case Arrived => 7
    case Admitted => 6
    case Opening => 5
    case Holding(_) => 4
    case Waiting(_) => 3
    case Releasing(_, _, _) => 2
    case Leaving(_) => 1
    case Finished(_) => 0
  }

  /** A step of the publisher's own that no other publisher can hold up. */
  function WayOut(phase: Phase, p: nat): Event
    requires !phase.Finished?
  {
    match phase
    case Arrived => NotAdmitted(p)
    case Admitted => Take(p)
    case Opening => OpenErrs(p)
    case Holding(_) => Publish(p)
    case Waiting(_) => Timeout(p)
    case Releasing(_, _, _) => Release(p)
    case Leaving(_) => Leave(p)
  }

  lemma OwnStepGoesOn(l: Limits, s: State, e: Event, p: nat)
    requires Enabled(l, s, e) && p in s.publishers
    ensures p in Apply(l, s, e).publishers
    ensures Moves(e, p) ==> Remaining(Apply(l, s, e).publishers[p]) < Remaining(s.publishers[p])
    ensures !Moves(e, p) ==> Apply(l, s, e).publishers[p] == s.publishers[p]
  {
    hide FreeOk, UsersOk;
  }

  function OwnSteps(events: seq<Event>, i: nat, p: nat): nat
    requires i <= |events|
  {
    if i == 0 then 0 else OwnSteps(events, i - 1, p) + (if Moves(events[i - 1], p) then 1 else 0)
  }

  lemma ArrivingStep(l: Limits, s: State, e: Event, p: nat)
    requires Enabled(l, s, e) && p !in s.publishers
    ensures if e == Arrive(p) then p in Apply(l, s, e).publishers && Apply(l, s, e).publishers[p].Arrived?
            else p !in Apply(l, s, e).publishers && !Moves(e, p)
  {
  }

  /** In every run a publish is over after at most eight steps of its own, arriving included. */
  lemma {:induction false} PublishEnds(l: Limits, events: seq<Event>, states: seq<State>, i: nat, p: nat)
    requires IsRun(l, events, states) && i < |states|
    ensures p !in states[i].publishers ==> OwnSteps(events, i, p) == 0
    ensures p in states[i].publishers ==> OwnSteps(events, i, p) + Remaining(states[i].publishers[p]) <= 8
  {
    hide Apply, Enabled, Moves, Remaining;
    if i > 0 {
      PublishEnds(l, events, states, i - 1, p);
      if p in states[i - 1].publishers {
        OwnStepGoesOn(l, states[i - 1], events[i - 1], p);
      } else {
        ArrivingStep(l, states[i - 1], events[i - 1], p);
        ArrivedAtSeven(states[i], p);
        assert Moves(events[i - 1], p) ==> events[i - 1] == Arrive(p);
      }
    }
  }

  lemma ArrivedAtSeven(s: State, p: nat)
    ensures p in s.publishers && s.publishers[p].Arrived? ==> Remaining(s.publishers[p]) == 7
  {
  }

  /** And it always has a step to take: a full semaphore, an empty pool or a silent broker blocks nobody for good. */
  lemma NeverStuck(l: Limits, events: seq<Event>, states: seq<State>, i: nat, p: nat)
    requires IsRun(l, events, states) && i < |states|
    requires p in states[i].publishers && !states[i].publishers[p].Finished?
    ensures Moves(WayOut(states[i].publishers[p], p), p) && Enabled(l, states[i], WayOut(states[i].publishers[p], p))
  {
    hide FreeOk, Exclusive, Accounted, ConfirmsOk, SemaphoreOk, Apply;
    RunKeepsInv(l, events, states, i);
    assert UserOk(states[i], p, states[i].publishers[p]);
  }

  /** The connection of the channel was lost before step i. */
  ghost predicate LostBefore(events: seq<Event>, i: nat, ch: nat)
    requires i <= |events|
  {
    exists j: nat :: j < i && events[j] == ConnectionLost(ch)
  }

  lemma LostStep(l: Limits, s: State, e: Event, ch: nat)
    requires Enabled(l, s, e) && ch < |Apply(l, s, e).channels|
    ensures Apply(l, s, e).channels[ch].lost <==> e == ConnectionLost(ch) || (ch < |s.channels| && s.channels[ch].lost)
    ensures e == ConnectionLost(ch) ==> ch < |s.channels|
  {
    if e.Drain? {
      CloseAllKeepsLost(s, s.free, ch);
    }
  }

  lemma {:induction false} CloseAllKeepsLost(s: State, ids: seq<nat>, ch: nat)
    requires forall i :: 0 <= i < |ids| ==> ids[i] < |s.channels|
    requires ch < |s.channels|
    ensures |CloseAll(s, ids).channels| == |s.channels|
    ensures CloseAll(s, ids).channels[ch].lost == s.channels[ch].lost
  {
    if ids != [] {
      CloseAllKeepsLost(s, ids[..|ids| - 1], ch);
    }
  }

  lemma {:induction false} LostExactly(l: Limits, events: seq<Event>, states: seq<State>, i: nat, ch: nat)
    requires IsRun(l, events, states) && i < |states|
    ensures ch < |states[i].channels| && states[i].channels[ch].lost <==> LostBefore(events, i, ch)
  {
    hide Apply, Enabled;
    if i > 0 {
      LostExactly(l, events, states, i - 1, ch);
      ChannelsStay(l, states[i - 1], events[i - 1], ch);
      if ch < |states[i].channels| {
        LostStep(l, states[i - 1], events[i - 1], ch);
      }
      assert LostBefore(events, i, ch) <==> LostBefore(events, i - 1, ch) || events[i - 1] == ConnectionLost(ch);
    }
  }

  lemma ChannelsStay(l: Limits, s: State, e: Event, ch: nat)
    requires Enabled(l, s, e)
    ensures ch < |s.channels| ==> ch < |Apply(l, s, e).channels|
    ensures e == ConnectionLost(ch) ==> ch < |s.channels|
  {
  }

  /** Once the connection is lost a publisher that waits need not time out: it reads a confirm or the end. */
  lemma LossWakesWaiter(l: Limits, events: seq<Event>, states: seq<State>, i: nat, p: nat)
    requires IsRun(l, events, states) && i < |states| && p in states[i].publishers && states[i].publishers[p].Waiting?
    requires LostBefore(events, i, states[i].publishers[p].ch)
    ensures Enabled(l, states[i], ReceiveConfirm(p)) || Enabled(l, states[i], ReceiveClosed(p))
  {
    hide Apply, FreeOk, Exclusive, Accounted, ConfirmsOk, SemaphoreOk;
    LostExactly(l, events, states, i, states[i].publishers[p].ch);
  }
}
