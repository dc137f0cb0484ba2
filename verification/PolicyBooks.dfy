/** Conservation: every request that posted is told to every counter once, unless that increment failed. */
module PolicyBooks {
  import opened Options
  import opened PolicyKeys
  import opened Policy
  import opened PolicyCaps

  function Amounts(recorded: seq<Spend>): int {
    if recorded == [] then 0 else Amounts(recorded[..|recorded| - 1]) + recorded[|recorded| - 1].amount
  }

  /** What the request has had its turn to tell the counter. */
  function Said(r: Req, kind: Kind): int {
    if kind in r.written then r.amount else 0
  }

  function AllSaid(pending: seq<Req>, kind: Kind): int {
    if pending == [] then 0 else AllSaid(pending[..|pending| - 1], kind) + Said(pending[|pending| - 1], kind)
  }

  /** What the event completes: a request whose record is over. */
  function Completes(s: State, e: Event): int {
    if (e.End? || e.Post?) && e.i < |s.pending| then s.pending[e.i].amount else 0
  }

  /** What the event fails to tell the counter. */
  function Loses(s: State, e: Event, kind: Kind): int {
    if e.Write? && e.kind == kind && !e.ok && e.i < |s.pending| then s.pending[e.i].amount else 0
  }

  ghost function Completed(events: seq<Event>, states: seq<State>, n: nat): int
    requires n <= |events| <= |states|
  {
    if n == 0 then 0 else Completed(events, states, n - 1) + Completes(states[n - 1], events[n - 1])
  }

  ghost function Lost(events: seq<Event>, states: seq<State>, n: nat, kind: Kind): int
    requires n <= |events| <= |states|
  {
    if n == 0 then 0 else Lost(events, states, n - 1, kind) + Loses(states[n - 1], events[n - 1], kind)
  }

  /** A request still being checked has told nothing. */
  ghost predicate ChecksAreSilent(s: State) {
    forall i :: 0 <= i < |s.pending| && s.pending[i].record.None? ==> s.pending[i].written == {}
  }

  lemma AmountsMore(recorded: seq<Spend>, spend: Spend)
    ensures Amounts(recorded + [spend]) == Amounts(recorded) + spend.amount
  {
    assert (recorded + [spend])[..|recorded|] == recorded;
  }

  lemma {:induction false} SaidWithout(pending: seq<Req>, kind: Kind, i: nat)
    requires i < |pending|
    ensures AllSaid(pending, kind) == AllSaid(Without(pending, i), kind) + Said(pending[i], kind)
  {
    hide Said;
    var n, rest := |pending|, Without(pending, i);
    if i < n - 1 {
      SaidWithout(pending[..n - 1], kind, i);
      assert rest[..|rest| - 1] == Without(pending[..n - 1], i);
      assert rest[|rest| - 1] == pending[n - 1];
    } else {
      assert rest == pending[..n - 1];
    }
  }

  lemma SaidChanged(pending: seq<Req>, kind: Kind, i: nat, r: Req)
    requires i < |pending|
    ensures AllSaid(pending[i := r], kind) == AllSaid(pending, kind) - Said(pending[i], kind) + Said(r, kind)
  {
    hide Said, AllSaid;
    SaidWithout(pending, kind, i);
    SaidWithout(pending[i := r], kind, i);
    assert Without(pending[i := r], i) == Without(pending, i);
  }

  lemma SaidMore(pending: seq<Req>, kind: Kind, r: Req)
    ensures AllSaid(pending + [r], kind) == AllSaid(pending, kind) + Said(r, kind)
  {
    assert (pending + [r])[..|pending|] == pending;
  }

  lemma StepStaysSilent(l: Limit, k: nat, s: State, e: Event)
    requires ChecksAreSilent(s) && Enabled(k, s, e)
    ensures ChecksAreSilent(Apply(l, k, s, e))
  {
    hide CheckVerdict, Exceeds, With, AllWith, Shown, Reading;
  }

  lemma StepTells(l: Limit, k: nat, s: State, e: Event, kind: Kind)
    requires ChecksAreSilent(s) && Enabled(k, s, e)
    ensures var t := Apply(l, k, s, e);
            Amounts(Of(t.books, kind)) - AllSaid(t.pending, kind) + Loses(s, e, kind) ==
            Amounts(Of(s.books, kind)) - AllSaid(s.pending, kind) + Completes(s, e)
  {
    hide AllSaid, Amounts, CheckVerdict, Exceeds, Shown, Reading;
    EveryKind(kind);
    match e
    case Begin(amount) => SaidMore(s.pending, kind, Req(amount, s.today, {}, None, {}));
    case Request(amount) => SaidMore(s.pending, kind, Req(amount, s.today, KINDS, None, {}));
    case Look(i, looked, _) =>
      SaidWithout(s.pending, kind, i);
      SaidChanged(s.pending, kind, i, s.pending[i].(passed := s.pending[i].passed + {looked}));
    case Abandon(i) => SaidWithout(s.pending, kind, i);
    case StartRecord(i) => SaidChanged(s.pending, kind, i, s.pending[i].(record := Some(s.today)));
    case Write(i, told, ok) =>
      var r := s.pending[i];
      SaidChanged(s.pending, kind, i, r.(written := r.written + {told}));
      AmountsMore(Of(s.books, kind), Spend(r.amount, r.record.value));
    case End(i) => SaidWithout(s.pending, kind, i);
    case Post(i) =>
      SaidWithout(s.pending, kind, i);
      AmountsMore(Of(s.books, kind), Spend(s.pending[i].amount, s.today));
    case NewDay(_) =>
  }

  /**
   * In every run, however checks and records interleave: what a counter was told, and what it should have
   * been but for failed increments, is what the completed requests and those under way had to tell it.
   */
  lemma {:induction false} NothingToldTwiceOrForgotten(l: Limit, k: nat, events: seq<Event>, states: seq<State>,
                                                      n: nat, kind: Kind)
    requires IsRun(l, k, events, states) && n < |states|
    ensures ChecksAreSilent(states[n])
    ensures Amounts(Of(states[n].books, kind)) + Lost(events, states, n, kind) ==
            Completed(events, states, n) + AllSaid(states[n].pending, kind)
  {
    hide Apply, Enabled, Loses, Completes;
    if n > 0 {
      NothingToldTwiceOrForgotten(l, k, events, states, n - 1, kind);
      hide ChecksAreSilent, Amounts, AllSaid;
      StepStaysSilent(l, k, states[n - 1], events[n - 1]);
      StepTells(l, k, states[n - 1], events[n - 1], kind);
    }
  }

  // ----- A check that nothing interrupts -----

  /** The newest request reads the counter, if it has not been rejected yet. */
  ghost function NewestLooks(l: Limit, k: nat, s: State, n: nat, kind: Kind): State {
    var e := Event.Look(n, kind, Shown(s, kind, s.today));
    if Enabled(k, s, e) then Apply(l, k, s, e) else s
  }

  lemma LookAlone(l: Limit, k: nat, s: State, r: Req, kind: Kind)
    requires r.record.None? && kind !in r.passed && r.date == s.today && Shown(s, kind, s.today) >= 0
    ensures NewestLooks(l, k, s.(pending := s.pending + [r]), |s.pending|, kind) ==
            if Exceeds(l, kind, Shown(s, kind, s.today), r.amount) then s
            else s.(pending := s.pending + [r.(passed := r.passed + {kind})])
  {
    hide Exceeds, Used;
    var t := s.(pending := s.pending + [r]);
    assert Without(t.pending, |s.pending|) == s.pending;
    assert forall q :: t.pending[|s.pending| := q] == s.pending + [q];
  }

  lemma NobodyLooks(l: Limit, k: nat, s: State, kind: Kind)
    ensures NewestLooks(l, k, s, |s.pending|, kind) == s
  {
  }

  /** Its reads one by one, with nothing in between, come to what the whole check decides. */
  lemma CheckIsItsReads(l: Limit, k: nat, s: State, amount: int)
    requires l.enabled && Enabled(k, s, Request(amount)) && forall kind :: Shown(s, kind, s.today) >= 0
    ensures var n := |s.pending|;
            NewestLooks(l, k, NewestLooks(l, k, NewestLooks(l, k, Apply(l, k, s, Begin(amount)),
                                                            n, DailyAmount), n, DailyCount), n, MonthlyAmount) ==
            Apply(l, k, s, Request(amount))
  {
    var a := Req(amount, s.today, {}, None, {});
    var b, c := a.(passed := {DailyAmount}), a.(passed := {DailyAmount, DailyCount});
    AllowsExactlyWithinBounds(l, amount, Reading(s));
    assert a.passed + {DailyAmount} == b.passed && b.passed + {DailyCount} == c.passed;
    assert c.passed + {MonthlyAmount} == KINDS;
    hide NewestLooks, Used, CheckVerdict;
    LookAlone(l, k, s, a, DailyAmount);
    LookAlone(l, k, s, b, DailyCount);
    LookAlone(l, k, s, c, MonthlyAmount);
    NobodyLooks(l, k, s, DailyAmount);
    NobodyLooks(l, k, s, DailyCount);
    NobodyLooks(l, k, s, MonthlyAmount);
  }
}
