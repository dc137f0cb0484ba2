/**
 * The vendor callback inbox: any number of handlers for one (vendor, event id), each a
 * series of single SQL statements, interleaved, with crashes and database errors.
 */
module Inbox {
  import opened Options
  import opened Text

  datatype Status = Received | Processing | Retry | Finalized | Ignored | Unmatched

  datatype Row = Row(status: Status, outcome: string, attempts: nat)

  predicate Claimable(s: Status) {
    s.Received? || s.Retry?
  }

  predicate Terminal(s: Status) {
    s.Finalized? || s.Ignored? || s.Unmatched?
  }

  // ----- The outcome of a delivery -----

  function LowerChar(c: char): char {
    if 'A' <= c <= 'Z' then 'a' + (c - 'A') else c
  }

  function ToLower(s: string): (r: string)
    ensures |r| == |s|
  {
    if s == [] then [] else [LowerChar(s[0])] + ToLower(s[1..])
  }

  function CallbackOutcome(outcome: string): (r: (Status, string))
    ensures Terminal(r.0)
    ensures r.1 == "" <==> outcome == ""
  {
    if HasSuffix(outcome, "FINALIZED") then (Finalized, ToLower(outcome))
    else if HasSuffix(outcome, "IGNORED_NON_TERMINAL") then (Ignored, ToLower(outcome))
    else (Unmatched, ToLower(outcome))
  }

  lemma {:induction false} LowerByChar(s: string, i: nat)
    requires i < |s|
    ensures ToLower(s)[i] == LowerChar(s[i])
    ensures 'A' <= s[i] <= 'Z' ==> ToLower(s)[i] as int == s[i] as int + 32
  {
    if i > 0 {
      LowerByChar(s[1..], i - 1);
    }
  }

  predicate EndsWith(outcome: string, suffix: string) {
    exists n :: 0 <= n <= |outcome| && outcome[n..] == suffix
  }

  /** The owner's enum names decide the status by how they end. */
  lemma OutcomeDecides(outcome: string)
    ensures CallbackOutcome(outcome).0.Finalized? <==> EndsWith(outcome, "FINALIZED")
    ensures CallbackOutcome(outcome).0.Ignored? <==> EndsWith(outcome, "IGNORED_NON_TERMINAL")
  {
    assert HasSuffix(outcome, "FINALIZED") ==> outcome[|outcome| - 9..] == "FINALIZED";
    assert HasSuffix(outcome, "IGNORED_NON_TERMINAL") ==> outcome[|outcome| - 20..] == "IGNORED_NON_TERMINAL";
    if n :| 0 <= n <= |outcome| && outcome[n..] == "IGNORED_NON_TERMINAL" {
      assert n == |outcome| - 20 && outcome[|outcome| - 1] == outcome[n..][19] == 'L';
    }
    if n :| 0 <= n <= |outcome| && outcome[n..] == "FINALIZED" {
      assert n == |outcome| - 9 && outcome[|outcome| - 1] == outcome[n..][8] == 'D';
    }
  }

  // ----- The statements -----

  datatype Statement =
    | InsertRow
    | SelectRow
    | ClaimRow
    | FinishRow(status: Status, outcome: string)

  /** What a statement does to the event's row; the insert and the claim may find nothing to do. */
  function Effect(row: Option<Row>, q: Statement): Option<Row> {
    match q
    case InsertRow => if row.None? then Some(Row(Received, "", 0)) else row
    case SelectRow => row
    case ClaimRow =>
      if row.Some? && Claimable(row.value.status) then
        Some(row.value.(status := Processing, attempts := row.value.attempts + 1))
      else row
    case FinishRow(status, outcome) =>
      if row.Some? then Some(row.value.(status := status, outcome := outcome)) else row
  }

  class InboxTable {
    var row: Option<Row>

    constructor ()
      ensures row == None
    {
      row := None;
    }

    method Insert() returns (affected: nat)
      modifies this
      ensures row == Effect(old(row), InsertRow) && affected == (if old(row).None? then 1 else 0)
    {
      affected := 0;
      if row.None? {
        row := Some(Row(Received, "", 0));
        affected := 1;
      }
    }

    method Claim() returns (affected: nat)
      modifies this
      ensures row == Effect(old(row), ClaimRow)
      ensures affected == (if old(row).Some? && Claimable(old(row).value.status) then 1 else 0)
    {
      affected := 0;
      if row.Some? && (row.value.status.Received? || row.value.status.Retry?) {
        row := Some(row.value.(status := Processing, attempts := row.value.attempts + 1));
        affected := 1;
      }
    }

    method Finish(status: Status, outcome: string)
      modifies this
      ensures row == Effect(old(row), FinishRow(status, outcome))
    {
      if row.Some? {
        row := Some(row.value.(status := status, outcome := outcome));
      }
    }
  }

  // ----- Handlers -----

  datatype Reply = Ack | Unavailable

  /** Where a handler is; the statement it is about to run is part of where it is. */
  datatype Phase =
    | Inserting
    | Selecting
    | Claiming
    | Delivering
    | Finishing(status: Status, outcome: string)
    | Replied(reply: Reply)
    | Crashed

  /** A statement whose handler gave up on it may still reach the database, once, later. */
  datatype State = State(
    row: Option<Row>,
    handlers: map<nat, Phase>,
    orphans: map<nat, Statement>,
    delivered: nat)

  const START := State(None, map[], map[], 0)

  function StatementOf(p: Phase): Option<Statement> {
    match p
    case Inserting => Some(InsertRow)
    case Selecting => Some(SelectRow)
    case Claiming => Some(ClaimRow)
    case Finishing(status, outcome) => Some(FinishRow(status, outcome))
    case _ => None
  }

  /** The phase after the statement succeeds on the row as it was. */
  function AfterStatement(p: Phase, row: Option<Row>): Phase
    requires StatementOf(p).Some?
  {
    match p
    case Inserting => if row.None? then Claiming else Selecting
    case Selecting =>
      if row.None? then Replied(Unavailable)
      else if Claimable(row.value.status) then Claiming
      else if row.value.outcome != "" then Replied(Ack)
      else Replied(Unavailable)
    case Claiming => if row.Some? && Claimable(row.value.status) then Delivering else Replied(Unavailable)
    case Finishing(status, _) => if status.Retry? then Replied(Unavailable) else Replied(Ack)
  }

  datatype Event =
    | Arrive(h: nat)
    | Execute(h: nat)                     // the statement runs and its result is seen
    | Fail(h: nat)                        // the statement errs; it may or may not take effect, now or later
    | Crash(h: nat)                       // the process dies; likewise
    | DeliverReturns(h: nat, result: string)
    | DeliverErrs(h: nat)
    | OrphanTakesEffect(h: nat)
    | OrphanLost(h: nat)                  // it never will

  predicate Running(s: State, h: nat) {
    h in s.handlers && StatementOf(s.handlers[h]).Some?
  }

  predicate InDelivery(s: State, h: nat) {
    h in s.handlers && s.handlers[h].Delivering?
  }

  /** The owner's answer is never the empty string: it is the name of an enum value. */
  predicate Enabled(s: State, e: Event) {
    match e
    case Arrive(h) => h !in s.handlers
    case Execute(h) => Running(s, h)
    case Fail(h) => Running(s, h)
    case Crash(h) => Running(s, h) || InDelivery(s, h)
    case DeliverReturns(h, result) => InDelivery(s, h) && result != ""
    case DeliverErrs(h) => InDelivery(s, h)
    case OrphanTakesEffect(h) => h in s.orphans
    case OrphanLost(h) => h in s.orphans
  }

  function Stop(s: State, h: nat, p: Phase): State
    requires h in s.handlers
  {
    var q := StatementOf(s.handlers[h]);
    State(s.row, s.handlers[h := p], if q.Some? then s.orphans[h := q.value] else s.orphans, s.delivered)
  }

  function Apply(s: State, e: Event): State
    requires Enabled(s, e)
  {
    match e
    case Arrive(h) => s.(handlers := s.handlers[h := Inserting])
    case Execute(h) =>
      var p := s.handlers[h];
      s.(row := Effect(s.row, StatementOf(p).value), handlers := s.handlers[h := AfterStatement(p, s.row)])
    case Fail(h) => Stop(s, h, Replied(Unavailable))
    case Crash(h) => Stop(s, h, Crashed)
    case DeliverReturns(h, result) =>
      var (status, outcome) := CallbackOutcome(result);
      s.(handlers := s.handlers[h := Finishing(status, outcome)], delivered := s.delivered + 1)
    case DeliverErrs(h) => s.(handlers := s.handlers[h := Finishing(Retry, "")])
    case OrphanTakesEffect(h) => s.(row := Effect(s.row, s.orphans[h]), orphans := s.orphans - {h})
    case OrphanLost(h) => s.(orphans := s.orphans - {h})
  }

  // ----- What every run keeps -----

  /** h holds the claim: it delivers, or its closing update has yet to reach the row. */
  predicate Owns(s: State, h: nat) {
    || (h in s.handlers && (s.handlers[h].Delivering? || s.handlers[h].Finishing?))
    || (h in s.orphans && s.orphans[h].FinishRow?)
  }

  predicate FinishOk(status: Status, outcome: string) {
    (status.Retry? && outcome == "") || (Terminal(status) && outcome != "")
  }

  predicate RowOk(r: Row) {
    if Terminal(r.status) then r.outcome != "" else r.outcome == ""
  }

  ghost predicate Owned(s: State) {
    && (forall h, k :: Owns(s, h) && Owns(s, k) ==> h == k)
    && (forall h :: Owns(s, h) ==> s.row.Some? && s.row.value.status.Processing?)
  }

  ghost predicate ClosingsOk(s: State) {
    && (forall h :: h in s.handlers && s.handlers[h].Finishing? ==>
        FinishOk(s.handlers[h].status, s.handlers[h].outcome))
    && (forall h :: h in s.orphans && s.orphans[h].FinishRow? ==> FinishOk(s.orphans[h].status, s.orphans[h].outcome))
  }

  /** A delivery that returned leaves the row unclaimable: closed, or waiting for a closing update. */
  ghost predicate DeliveredOk(s: State) {
    && s.delivered <= 1
    && (s.delivered == 1 ==>
          && s.row.Some? && !Claimable(s.row.value.status)
          && (forall h :: h in s.handlers ==> !s.handlers[h].Delivering?)
          && (forall h :: h in s.handlers && s.handlers[h].Finishing? ==> Terminal(s.handlers[h].status))
          && (forall h :: h in s.orphans && s.orphans[h].FinishRow? ==> Terminal(s.orphans[h].status)))
  }

  ghost predicate HandlersOk(s: State) {
    && (forall h :: h in s.orphans ==> h in s.handlers && (s.handlers[h].Replied? || s.handlers[h].Crashed?))
    && (forall h :: h in s.handlers && s.handlers[h] == Replied(Ack) ==> s.row.Some? && Terminal(s.row.value.status))
  }

  ghost predicate Inv(s: State) {
    && (s.row.Some? ==> RowOk(s.row.value))
    && Owned(s) && ClosingsOk(s) && DeliveredOk(s) && HandlersOk(s)
  }

  /** A closed row is final: no statement of any handler, late or not, changes it. */
  lemma TerminalRowIsFinal(s: State, e: Event)
    requires Inv(s) && Enabled(s, e)
    requires s.row.Some? && Terminal(s.row.value.status)
    ensures Apply(s, e).row == s.row
  {
    if e.Execute? {
      assert s.handlers[e.h].Finishing? ==> Owns(s, e.h);
    } else if e.OrphanTakesEffect? {
      assert s.orphans[e.h].FinishRow? ==> Owns(s, e.h);
    }
  }

  /** The event runs a claim that succeeds. */
  predicate Claims(s: State, e: Event) {
    && e.Execute? && e.h in s.handlers && s.handlers[e.h].Claiming?
    && s.row.Some? && Claimable(s.row.value.status)
  }

  /** The event carries a closing update to the row. */
  predicate Closes(s: State, e: Event) {
    || (e.Execute? && e.h in s.handlers && s.handlers[e.h].Finishing?)
    || (e.OrphanTakesEffect? && e.h in s.orphans && s.orphans[e.h].FinishRow?)
  }

  /** Only a successful claim makes an owner, and a closing update ends ownership. */
  lemma OwnersChange(s: State, e: Event, k: nat)
    requires Inv(s) && Enabled(s, e) && Owns(Apply(s, e), k)
    ensures Owns(s, k) || (Claims(s, e) && k == e.h)
    ensures !Closes(s, e)
  {
    if Closes(s, e) {
      assert Owns(s, e.h);
    }
  }

  lemma RowChange(s: State, e: Event)
    requires Inv(s) && Enabled(s, e)
    ensures Apply(s, e).row.Some? ==> RowOk(Apply(s, e).row.value)
    ensures s.row.Some? ==> Apply(s, e).row.Some?
    ensures s.row.Some? && s.row.value.status.Processing? && !Closes(s, e) ==> Apply(s, e).row == s.row
    ensures Claims(s, e) ==> Apply(s, e).row.Some? && Apply(s, e).row.value.status.Processing?
  {
  }

  lemma StepKeepsOwned(s: State, e: Event)
    requires Inv(s) && Enabled(s, e)
    ensures Owned(Apply(s, e))
  {
    var t := Apply(s, e);
    RowChange(s, e);
    forall h, k | Owns(t, h) && Owns(t, k) ensures h == k {
      OwnersChange(s, e, h);
      OwnersChange(s, e, k);
    }
    forall h | Owns(t, h) ensures t.row.Some? && t.row.value.status.Processing? {
      OwnersChange(s, e, h);
    }
  }

  lemma StepKeepsClosings(s: State, e: Event)
    requires Inv(s) && Enabled(s, e)
    ensures ClosingsOk(Apply(s, e))
  {
  }

  lemma StepKeepsDelivered(s: State, e: Event)
    requires Inv(s) && Enabled(s, e)
    ensures DeliveredOk(Apply(s, e))
  {
    RowChange(s, e);
    if e.DeliverReturns? {
      assert Owns(s, e.h);
      assert s.delivered == 0;
      assert forall k :: k in s.handlers && (s.handlers[k].Delivering? || s.handlers[k].Finishing?) ==> Owns(s, k);
      assert forall k :: k in s.orphans && s.orphans[k].FinishRow? ==> Owns(s, k);
      assert e.h !in s.orphans;
    } else if s.row.Some? && Terminal(s.row.value.status) {
      TerminalRowIsFinal(s, e);
    }
  }

  lemma StepKeepsHandlers(s: State, e: Event)
    requires Inv(s) && Enabled(s, e)
    ensures HandlersOk(Apply(s, e))
  {
    if s.row.Some? && Terminal(s.row.value.status) {
      TerminalRowIsFinal(s, e);
    }
    if e.Execute? && s.handlers[e.h].Finishing? {
      assert Owns(s, e.h);
    }
  }

  lemma StepKeepsInv(s: State, e: Event)
    requires Inv(s) && Enabled(s, e)
    ensures Inv(Apply(s, e))
  {
    RowChange(s, e);
    StepKeepsOwned(s, e);
    StepKeepsClosings(s, e);
    StepKeepsDelivered(s, e);
    StepKeepsHandlers(s, e);
  }

  // ----- Whole runs -----

  ghost predicate IsRun(events: seq<Event>, states: seq<State>) {
    && |states| == |events| + 1
    && states[0] == START
    && forall i :: 0 <= i < |events| ==> Enabled(states[i], events[i]) && states[i + 1] == Apply(states[i], events[i])
  }

  lemma {:induction false} RunKeepsInv(events: seq<Event>, states: seq<State>, i: nat)
    requires IsRun(events, states) && i < |states|
    ensures Inv(states[i])
  {
    hide Apply, Enabled;
    if i > 0 {
      RunKeepsInv(events, states, i - 1);
      StepKeepsInv(states[i - 1], events[i - 1]);
    }
  }

  /** At any moment of any run at most one handler is in delivery, and at most one delivery has ever returned. */
  lemma DeliveredOnce(events: seq<Event>, states: seq<State>, i: nat, h: nat, k: nat)
    requires IsRun(events, states) && i < |states|
    requires InDelivery(states[i], h) && InDelivery(states[i], k)
    ensures h == k && states[i].delivered == 0
  {
    RunKeepsInv(events, states, i);
    assert Owns(states[i], h) && Owns(states[i], k);
  }

  /** The count of deliveries that returned, from the events themselves. */
  function Returned(events: seq<Event>): nat {
    if events == [] then 0
    else Returned(events[..|events| - 1]) + (if events[|events| - 1].DeliverReturns? then 1 else 0)
  }

  lemma {:induction false} DeliveredCountsReturns(events: seq<Event>, states: seq<State>, i: nat)
    requires IsRun(events, states) && i < |states|
    ensures states[i].delivered == Returned(events[..i])
  {
    if i > 0 {
      DeliveredCountsReturns(events, states, i - 1);
      assert events[..i][..i - 1] == events[..i - 1];
    }
  }

  lemma AtMostOneReturn(events: seq<Event>, states: seq<State>)
    requires IsRun(events, states)
    ensures Returned(events) <= 1
  {
    RunKeepsInv(events, states, |events|);
    DeliveredCountsReturns(events, states, |events|);
    assert events[..|events|] == events;
  }

  /** Once closed, the row is the same in every later state. */
  lemma {:induction false} ClosedForever(events: seq<Event>, states: seq<State>, i: nat, j: nat)
    requires IsRun(events, states) && i <= j < |states|
    requires states[i].row.Some? && Terminal(states[i].row.value.status)
    ensures states[j].row == states[i].row
    decreases j
  {
    hide Apply, Enabled;
    if i < j {
      ClosedForever(events, states, i, j - 1);
      RunKeepsInv(events, states, j - 1);
      TerminalRowIsFinal(states[j - 1], events[j - 1]);
    }
  }

  /** A 200 is only ever written when the row is closed with an outcome, and it stays so. */
  lemma AckMeansClosed(events: seq<Event>, states: seq<State>, i: nat, j: nat, h: nat)
    requires IsRun(events, states) && i <= j < |states|
    requires h in states[i].handlers && states[i].handlers[h] == Replied(Ack)
    ensures states[j].row.Some? && Terminal(states[j].row.value.status) && states[j].row.value.outcome != ""
    ensures states[j].row == states[i].row
  {
    RunKeepsInv(events, states, i);
    ClosedForever(events, states, i, j);
  }

  // ----- Which callbacks are answered 200, and what closes a row -----

  predicate Closed(s: State) {
    s.row.Some? && Terminal(s.row.value.status)
  }

  /** A statement is answered 200 exactly when it found the row closed or closed it. */
  lemma AckExactly(s: State, h: nat)
    requires Inv(s) && Enabled(s, Execute(h))
    ensures Apply(s, Execute(h)).handlers[h] == Replied(Ack) <==>
            (s.handlers[h].Selecting? || s.handlers[h].Finishing?) && Closed(Apply(s, Execute(h)))
  {
    if s.handlers[h].Finishing? {
      assert Owns(s, h) && FinishOk(s.handlers[h].status, s.handlers[h].outcome);
    }
  }

  /** The statement of h at step i found the row closed or closed it. */
  predicate AcksAt(events: seq<Event>, states: seq<State>, i: nat, h: nat) {
    && i < |events| && i + 1 < |states| && events[i] == Execute(h) && h in states[i].handlers
    && (states[i].handlers[h].Selecting? || states[i].handlers[h].Finishing?)
    && Closed(states[i + 1])
  }

  lemma AckStays(s: State, e: Event, h: nat)
    requires Enabled(s, e) && h in s.handlers && s.handlers[h].Replied?
    ensures h in Apply(s, e).handlers && Apply(s, e).handlers[h] == s.handlers[h]
  {
  }

  lemma OnlyExecuteAcks(s: State, e: Event, h: nat)
    requires Enabled(s, e) && h in Apply(s, e).handlers && Apply(s, e).handlers[h] == Replied(Ack)
    ensures (h in s.handlers && s.handlers[h] == Replied(Ack)) || e == Execute(h)
  {
  }

  /** Over a run: a handler has answered 200 exactly when one of its statements found the row closed or closed it. */
  lemma {:induction false} AckedExactly(events: seq<Event>, states: seq<State>, j: nat, h: nat)
    requires IsRun(events, states) && j < |states|
    ensures (h in states[j].handlers && states[j].handlers[h] == Replied(Ack)) <==>
            exists i: nat :: i < j && AcksAt(events, states, i, h)
  {
    if j > 0 {
      AckedExactly(events, states, j - 1, h);
      RunKeepsInv(events, states, j - 1);
      var s, e := states[j - 1], events[j - 1];
      if e == Execute(h) {
        AckExactly(s, h);
        assert AcksAt(events, states, j - 1, h) <==> states[j].handlers[h] == Replied(Ack);
        assert !(s.handlers[h] == Replied(Ack));
      } else {
        assert !AcksAt(events, states, j - 1, h);
        if h in s.handlers && s.handlers[h] == Replied(Ack) {
          AckStays(s, e, h);
        } else if h in states[j].handlers && states[j].handlers[h] == Replied(Ack) {
          OnlyExecuteAcks(s, e, h);
        }
      }
    }
  }

  /** A delivery that returns is closed under its result and answered 200 by the handler's next statement. */
  lemma ReturnedIsAcked(s: State, h: nat, result: string)
    requires Inv(s) && InDelivery(s, h) && result != ""
    ensures var t := Apply(Apply(s, DeliverReturns(h, result)), Execute(h));
            && t.handlers[h] == Replied(Ack)
            && t.row.Some? && (t.row.value.status, t.row.value.outcome) == CallbackOutcome(result)
  {
    hide CallbackOutcome;
    assert Owns(s, h);
  }

  /** One that errs gives the row back to be claimed again, and is answered 503. */
  lemma ErredIsRetried(s: State, h: nat)
    requires Inv(s) && InDelivery(s, h)
    ensures var t := Apply(Apply(s, DeliverErrs(h)), Execute(h));
            && t.handlers[h] == Replied(Unavailable)
            && t.row.Some? && t.row.value.status == Retry && t.row.value.outcome == ""
  {
    assert Owns(s, h);
  }

  /** Some delivery returned a result that means this status and outcome. */
  ghost predicate WasReturned(events: seq<Event>, n: nat, status: Status, outcome: string) {
    exists k: nat, h: nat, r: string ::
      k < n && k < |events| && events[k] == DeliverReturns(h, r) && CallbackOutcome(r) == (status, outcome)
  }

  /** The row, a closing update or a late one carries a closed status only from a delivery that returned. */
  ghost predicate AllReturned(events: seq<Event>, n: nat, s: State) {
    && (Closed(s) ==> WasReturned(events, n, s.row.value.status, s.row.value.outcome))
    && (forall h :: h in s.handlers && s.handlers[h].Finishing? && Terminal(s.handlers[h].status) ==>
          WasReturned(events, n, s.handlers[h].status, s.handlers[h].outcome))
    && (forall h :: h in s.orphans && s.orphans[h].FinishRow? && Terminal(s.orphans[h].status) ==>
          WasReturned(events, n, s.orphans[h].status, s.orphans[h].outcome))
  }

  lemma ReturnedLater(events: seq<Event>, n: nat, status: Status, outcome: string)
    requires WasReturned(events, n, status, outcome)
    ensures WasReturned(events, n + 1, status, outcome)
  {
    hide CallbackOutcome;
  }

  lemma StepKeepsReturned(events: seq<Event>, n: nat, s: State)
    requires n < |events| && Enabled(s, events[n]) && AllReturned(events, n, s)
    ensures AllReturned(events, n + 1, Apply(s, events[n]))
  {
    hide CallbackOutcome;
    var e := events[n];
    forall status, outcome | WasReturned(events, n, status, outcome)
      ensures WasReturned(events, n + 1, status, outcome)
    {
      ReturnedLater(events, n, status, outcome);
    }
    if e.DeliverReturns? {
      var (status, outcome) := CallbackOutcome(e.result);
      assert events[n] == DeliverReturns(e.h, e.result);
      assert WasReturned(events, n + 1, status, outcome);
    }
  }

  lemma {:induction false} RunReturned(events: seq<Event>, states: seq<State>, i: nat)
    requires IsRun(events, states) && i < |states|
    ensures AllReturned(events, i, states[i])
  {
    hide Apply, Enabled, WasReturned;
    if i > 0 {
      RunReturned(events, states, i - 1);
      hide AllReturned;
      StepKeepsReturned(events, i - 1, states[i - 1]);
    }
  }

  /** A row is closed only under the result of a delivery that returned; errors and crashes never close it. */
  lemma ClosedByReturn(events: seq<Event>, states: seq<State>, i: nat)
    requires IsRun(events, states) && i < |states| && Closed(states[i])
    ensures WasReturned(events, i, states[i].row.value.status, states[i].row.value.outcome)
  {
    hide WasReturned;
    RunReturned(events, states, i);
  }

  /** The event carries a claim to a row that can be claimed, its handler there or gone. */
  predicate TakesClaim(s: State, e: Event) {
    && s.row.Some? && Claimable(s.row.value.status)
    && ((e.Execute? && e.h in s.handlers && s.handlers[e.h].Claiming?)
        || (e.OrphanTakesEffect? && e.h in s.orphans && s.orphans[e.h].ClaimRow?))
  }

  function ClaimsTaken(events: seq<Event>, states: seq<State>, n: nat): nat
    requires n <= |events| && n <= |states|
  {
    if n == 0 then 0
    else ClaimsTaken(events, states, n - 1) + (if TakesClaim(states[n - 1], events[n - 1]) then 1 else 0)
  }

  /** The attempts of a row are the claims that took effect. */
  lemma {:induction false} AttemptsCountClaims(events: seq<Event>, states: seq<State>, i: nat)
    requires IsRun(events, states) && i < |states|
    ensures ClaimsTaken(events, states, i) == (if states[i].row.Some? then states[i].row.value.attempts else 0)
  {
    if i > 0 {
      AttemptsCountClaims(events, states, i - 1);
    }
  }

  // ----- What a lost owner costs -----

  /** Claimed, but nobody is left to close it. */
  ghost predicate Abandoned(s: State) {
    s.row.Some? && s.row.value.status.Processing? && forall h :: !Owns(s, h)
  }

  lemma AbandonedStep(s: State, e: Event)
    requires Inv(s) && Abandoned(s) && Enabled(s, e)
    ensures Abandoned(Apply(s, e)) && Apply(s, e).row == s.row && Apply(s, e).delivered == s.delivered
  {
    RowChange(s, e);
    forall h ensures !Owns(Apply(s, e), h) {
      if Owns(Apply(s, e), h) {
        OwnersChange(s, e, h);
      }
    }
    assert forall h :: h in s.handlers && s.handlers[h].Delivering? ==> Owns(s, h);
    assert Closes(s, e) ==> Owns(s, e.h);
  }

  /** Nothing reclaims a processing row: abandoned once, it is never delivered, closed or acknowledged. */
  lemma {:induction false} AbandonedForever(events: seq<Event>, states: seq<State>, i: nat, j: nat)
    requires IsRun(events, states) && i <= j < |states| && Abandoned(states[i])
    ensures Abandoned(states[j]) && states[j].row == states[i].row && states[j].delivered == states[i].delivered
    ensures forall h :: h in states[j].handlers ==> states[j].handlers[h] != Replied(Ack)
    decreases j
  {
    hide Apply, Enabled;
    RunKeepsInv(events, states, j);
    if i < j {
      AbandonedForever(events, states, i, j - 1);
      RunKeepsInv(events, states, j - 1);
      AbandonedStep(states[j - 1], events[j - 1]);
    }
  }

  /** A crash in mid-delivery abandons the row. */
  lemma CrashAbandons(s: State, h: nat)
    requires Inv(s) && InDelivery(s, h)
    ensures Abandoned(Apply(s, Crash(h)))
  {
    assert Owns(s, h);
    forall k ensures !Owns(Apply(s, Crash(h)), k) {
      if Owns(Apply(s, Crash(h)), k) {
        OwnersChange(s, Crash(h), k);
      }
    }
  }

  /** So does a closing update that is lost for good, its error seen or discarded. */
  lemma LostUpdateAbandons(s: State, h: nat)
    requires Inv(s) && h in s.orphans && s.orphans[h].FinishRow?
    ensures Abandoned(Apply(s, OrphanLost(h)))
  {
    assert Owns(s, h);
    assert h !in s.handlers || !Owns(Apply(s, OrphanLost(h)), h);
    forall k ensures !Owns(Apply(s, OrphanLost(h)), k) {
      if Owns(Apply(s, OrphanLost(h)), k) {
        OwnersChange(s, OrphanLost(h), k);
      }
    }
  }

  lemma FailedFinishAbandons(s: State, h: nat)
    requires Inv(s) && h in s.handlers && s.handlers[h].Finishing?
    ensures Enabled(s, Fail(h)) && Enabled(Apply(s, Fail(h)), OrphanLost(h))
    ensures Abandoned(Apply(Apply(s, Fail(h)), OrphanLost(h)))
  {
    StepKeepsInv(s, Fail(h));
    LostUpdateAbandons(Apply(s, Fail(h)), h);
  }

  /** The steps that lose an owner: it dies delivering, its update is lost, or its claim takes effect without it. */
  predicate LosesOwner(s: State, e: Event) {
    || (e.Crash? && InDelivery(s, e.h))
    || (e.OrphanLost? && e.h in s.orphans && s.orphans[e.h].FinishRow?)
    || (e.OrphanTakesEffect? && e.h in s.orphans && s.orphans[e.h].ClaimRow? && s.row.Some?
        && Claimable(s.row.value.status))
  }

  lemma LosingAbandons(s: State, e: Event)
    requires Inv(s) && Enabled(s, e) && LosesOwner(s, e)
    ensures Abandoned(Apply(s, e))
  {
    if e.Crash? {
      CrashAbandons(s, e.h);
    } else if e.OrphanLost? {
      LostUpdateAbandons(s, e.h);
    } else {
      forall k ensures !Owns(Apply(s, e), k) {
        if Owns(Apply(s, e), k) {
          OwnersChange(s, e, k);
        }
      }
    }
  }

  lemma OwnerStays(s: State, e: Event, h: nat)
    requires Inv(s) && Enabled(s, e) && !LosesOwner(s, e) && !Closes(s, e) && Owns(s, h)
    ensures Owns(Apply(s, e), h)
  {
  }

  /** A row becomes abandoned by these steps and no others. */
  lemma AbandonedExactlyBy(s: State, e: Event)
    requires Inv(s) && Enabled(s, e) && !Abandoned(s)
    ensures Abandoned(Apply(s, e)) <==> LosesOwner(s, e)
  {
    if LosesOwner(s, e) {
      LosingAbandons(s, e);
    } else if Abandoned(Apply(s, e)) {
      StaysOwned(s, e);
    }
  }

  lemma StaysOwned(s: State, e: Event)
    requires Inv(s) && Enabled(s, e) && !Abandoned(s) && !LosesOwner(s, e)
    ensures !Abandoned(Apply(s, e))
  {
    RowChange(s, e);
    if h :| Owns(s, h) {
      if Closes(s, e) {
        assert Owns(s, e.h);
      } else {
        OwnerStays(s, e, h);
      }
    } else if Claims(s, e) {
      assert Owns(Apply(s, e), e.h);
    }
  }

  /** Inserted, claimed, and the process dies: the row is lost from the first delivery on. */
  lemma CrashRun() returns (events: seq<Event>, states: seq<State>)
    ensures IsRun(events, states) && |events| == 4 && Abandoned(states[4])
  {
    events := [Arrive(0), Execute(0), Execute(0), Crash(0)];
    var s1 := Apply(START, events[0]);
    var s2 := Apply(s1, events[1]);
    var s3 := Apply(s2, events[2]);
    states := [START, s1, s2, s3, Apply(s3, events[3])];
    RunKeepsInv(events, states, 3);
    CrashAbandons(s3, 0);
  }

  // ----- Which rows can still be closed -----

  predicate Possible(s: State, events: seq<Event>)
    decreases |events|
  {
    events == [] || (Enabled(s, events[0]) && Possible(Apply(s, events[0]), events[1..]))
  }

  function After(s: State, events: seq<Event>): State
    requires Possible(s, events)
    decreases |events|
  {
    if events == [] then s else After(Apply(s, events[0]), events[1..])
  }

  /** Some continuation closes the row. */
  ghost predicate CanClose(s: State) {
    exists events :: Possible(s, events) && Closed(After(s, events))
  }

  lemma StepTowardsClose(s: State, e: Event)
    requires Enabled(s, e) && CanClose(Apply(s, e))
    ensures CanClose(s)
  {
    hide Apply, Enabled;
    var rest :| Possible(Apply(s, e), rest) && Closed(After(Apply(s, e), rest));
    var events := [e] + rest;
    assert events[0] == e && events[1..] == rest;
    assert Possible(s, events) && After(s, events) == After(Apply(s, e), rest);
  }

  lemma ClosedCanClose(s: State)
    requires Closed(s)
    ensures CanClose(s)
  {
    assert Possible(s, []) && After(s, []) == s;
  }

  lemma DeliveringCanClose(s: State, h: nat)
    requires InDelivery(s, h) && s.row.Some?
    ensures CanClose(s)
  {
    hide CanClose, CallbackOutcome, AfterStatement;
    var e := DeliverReturns(h, "FINALIZED");
    var t := Apply(s, e);
    ClosedCanClose(Apply(t, Execute(h)));
    StepTowardsClose(t, Execute(h));
    StepTowardsClose(s, e);
  }

  lemma ClaimingCanClose(s: State, h: nat)
    requires h in s.handlers && s.handlers[h].Claiming? && s.row.Some? && Claimable(s.row.value.status)
    ensures CanClose(s)
  {
    hide CanClose;
    DeliveringCanClose(Apply(s, Execute(h)), h);
    StepTowardsClose(s, Execute(h));
  }

  lemma {:induction false} FreshId(ids: set<nat>) returns (n: nat)
    ensures forall x :: x in ids ==> x < n
  {
    if ids == {} {
      n := 0;
    } else {
      var x :| x in ids;
      assert forall y :: y in ids ==> y == x || y in ids - {x};
      n := FreshId(ids - {x});
      n := if x < n then n else x + 1;
    }
  }

  /** A new callback inserts or finds the row, claims it and delivers. */
  lemma ClaimableCanClose(s: State)
    requires s.row.None? || Claimable(s.row.value.status)
    ensures CanClose(s)
  {
    hide CanClose;
    var h := FreshId(s.handlers.Keys);
    assert h !in s.handlers;
    var t := Apply(s, Arrive(h));
    var u := Apply(t, Execute(h));
    if s.row.None? {
      ClaimingCanClose(u, h);
    } else {
      ClaimingCanClose(Apply(u, Execute(h)), h);
      StepTowardsClose(u, Execute(h));
    }
    StepTowardsClose(t, Execute(h));
    StepTowardsClose(s, Arrive(h));
  }

  /** A closing update closes the row, or gives it back for the next callback to claim. */
  lemma FinishedCanClose(s: State, e: Event)
    requires Inv(s) && Enabled(s, e) && Closes(s, e) && s.row.Some?
    ensures CanClose(s)
  {
    hide CanClose;
    if Closed(Apply(s, e)) {
      ClosedCanClose(Apply(s, e));
    } else {
      ClaimableCanClose(Apply(s, e));
    }
    StepTowardsClose(s, e);
  }

  lemma OwnedCanClose(s: State, h: nat)
    requires Inv(s) && Owns(s, h)
    ensures CanClose(s)
  {
    hide CanClose;
    if h in s.handlers && s.handlers[h].Delivering? {
      DeliveringCanClose(s, h);
    } else if h in s.handlers && s.handlers[h].Finishing? {
      FinishedCanClose(s, Execute(h));
    } else {
      FinishedCanClose(s, OrphanTakesEffect(h));
    }
  }

  lemma {:induction false} AbandonedStays(s: State, events: seq<Event>)
    requires Inv(s) && Abandoned(s) && Possible(s, events)
    ensures !Closed(After(s, events))
    decreases |events|
  {
    hide Apply, Enabled;
    if events != [] {
      StepKeepsInv(s, events[0]);
      AbandonedStep(s, events[0]);
      AbandonedStays(Apply(s, events[0]), events[1..]);
    }
  }

  /** In any state a run can be in, the row can still be closed exactly when it is not abandoned. */
  lemma CanCloseExactly(s: State)
    requires Inv(s)
    ensures CanClose(s) <==> !Abandoned(s)
  {
    if Abandoned(s) {
      forall events | Possible(s, events) ensures !Closed(After(s, events)) {
        AbandonedStays(s, events);
      }
    } else {
      hide CanClose;
      if h :| Owns(s, h) {
        OwnedCanClose(s, h);
      } else if Closed(s) {
        ClosedCanClose(s);
      } else {
        ClaimableCanClose(s);
      }
    }
  }

  lemma RunCanCloseExactly(events: seq<Event>, states: seq<State>, i: nat)
    requires IsRun(events, states) && i < |states|
    ensures CanClose(states[i]) <==> !Abandoned(states[i])
  {
    hide IsRun, Inv, Abandoned, CanClose;
    RunKeepsInv(events, states, i);
    CanCloseExactly(states[i]);
  }
}
