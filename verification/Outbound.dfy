/**
 * The outbound-attempt log for one (flow, request, operation): concurrent callers insert
 * MAX(attempt)+1 under a unique constraint and retry on a duplicate key.
 */
module Outbound {

  datatype Row = Row(caller: nat, attempt: int)

  const MAX_TRIES := 3

  /**
   * Where a call is. The statement's snapshot read and its insert are two steps.
   * begun is how many rows were committed when the call started.
   */
  datatype Phase =
    | Reading(begun: nat, tries: nat)
    | Inserting(begun: nat, tries: nat, highest: int)
    | Recorded
    | GaveUp(begun: nat)
    | Failed

  /** Rows in commit order. */
  datatype State = State(rows: seq<Row>, calls: map<nat, Phase>)

  const START := State([], map[])

  /** COALESCE(MAX(attempt), 0). */
  function Highest(rows: seq<Row>): int {
    if rows == [] then 0
    else
      var m, a := Highest(rows[..|rows| - 1]), rows[|rows| - 1].attempt;
      if a > m then a else m
  }

  predicate Taken(rows: seq<Row>, attempt: int) {
    exists r | r in rows :: r.attempt == attempt
  }

  datatype Event =
    | Begin(c: nat)
    | Read(c: nat)
    | Insert(c: nat)
    | Err(c: nat)             // another error; the row was not written
    | WriteThenErr(c: nat)    // the row was written, the caller saw another error

  predicate Enabled(s: State, e: Event) {
    match e
    case Begin(c) => c !in s.calls
    case Read(c) => c in s.calls && s.calls[c].Reading?
    case Insert(c) => c in s.calls && s.calls[c].Inserting?
    case Err(c) => c in s.calls && (s.calls[c].Reading? || s.calls[c].Inserting?)
    case WriteThenErr(c) => c in s.calls && s.calls[c].Inserting? && !Taken(s.rows, s.calls[c].highest + 1)
  }

  function Apply(s: State, e: Event): State
    requires Enabled(s, e)
  {
    match e
    case Begin(c) => s.(calls := s.calls[c := Reading(|s.rows|, 0)])
    case Read(c) =>
      var p := s.calls[c];
      s.(calls := s.calls[c := Inserting(p.begun, p.tries, Highest(s.rows))])
    case Insert(c) =>
      var p := s.calls[c];
      if Taken(s.rows, p.highest + 1) then
        s.(calls := s.calls[c := if p.tries + 1 == MAX_TRIES then GaveUp(p.begun) else Reading(p.begun, p.tries + 1)])
      else
        State(s.rows + [Row(c, p.highest + 1)], s.calls[c := Recorded])
    case Err(c) => s.(calls := s.calls[c := Failed])
    case WriteThenErr(c) => State(s.rows + [Row(c, s.calls[c].highest + 1)], s.calls[c := Failed])
  }

  // ----- What every run keeps -----

  ghost predicate Numbered(rows: seq<Row>) {
    forall i :: 0 <= i < |rows| ==> rows[i].attempt == i + 1
  }

  lemma {:induction false} HighestIsCount(rows: seq<Row>)
    requires Numbered(rows)
    ensures Highest(rows) == |rows|
  {
    if rows != [] {
      HighestIsCount(rows[..|rows| - 1]);
    }
  }

  lemma TakenBelowCount(rows: seq<Row>, attempt: int)
    requires Numbered(rows)
    ensures Taken(rows, attempt) <==> 1 <= attempt <= |rows|
  {
    if 1 <= attempt <= |rows| {
      assert rows[attempt - 1] in rows;
    }
  }

  /** Each failed try of a call still running saw at least one row committed since the try began. */
  predicate CallOk(rows: seq<Row>, p: Phase) {
    match p
    case Reading(begun, tries) => tries < MAX_TRIES && begun + tries <= |rows|
    case Inserting(begun, tries, highest) => tries < MAX_TRIES && begun + tries <= highest <= |rows|
    case GaveUp(begun) => begun + MAX_TRIES <= |rows|
    case _ => true
  }

  ghost predicate Inv(s: State) {
    && Numbered(s.rows)
    && (forall c :: c in s.calls ==> CallOk(s.rows, s.calls[c]))
    && (forall i :: 0 <= i < |s.rows| ==>
          s.rows[i].caller in s.calls && (s.calls[s.rows[i].caller].Recorded? || s.calls[s.rows[i].caller].Failed?))
    && (forall i, j :: 0 <= i < j < |s.rows| ==> s.rows[i].caller != s.rows[j].caller)
    && (forall c :: c in s.calls && s.calls[c].Recorded? ==> HasRow(s.rows, c))
  }

  predicate HasRow(rows: seq<Row>, c: nat) {
    exists i :: 0 <= i < |rows| && rows[i].caller == c
  }

  lemma InsertKeepsInv(s: State, e: Event)
    requires Inv(s) && Enabled(s, e) && (e.Insert? || e.WriteThenErr?)
    ensures Inv(Apply(s, e))
  {
    hide Taken;
    TakenBelowCount(s.rows, s.calls[e.c].highest + 1);
    assert CallOk(s.rows, s.calls[e.c]);
    var t := Apply(s, e);
    assert |t.rows| > |s.rows| ==> t.rows[|s.rows|].caller == e.c;
    forall c | c in t.calls && t.calls[c].Recorded? ensures HasRow(t.rows, c) {
      if c != e.c {
        assert HasRow(s.rows, c);
        var i :| 0 <= i < |s.rows| && s.rows[i].caller == c;
        assert t.rows[i].caller == c;
      }
    }
  }

  lemma StepKeepsInv(s: State, e: Event)
    requires Inv(s) && Enabled(s, e)
    ensures Inv(Apply(s, e))
  {
    HighestIsCount(s.rows);
    if e.Insert? || e.WriteThenErr? {
      InsertKeepsInv(s, e);
    }
  }

  ghost predicate IsRun(events: seq<Event>, states: seq<State>) {
    && |states| == |events| + 1
    && states[0] == START
    && forall i :: 0 <= i < |events| ==> Enabled(states[i], events[i]) && states[i + 1] == Apply(states[i], events[i])
  }

  lemma {:induction false} RunKeepsInv(events: seq<Event>, states: seq<State>, i: nat)
    requires IsRun(events, states) && i < |states|
    ensures Inv(states[i])
  {
    hide Apply, Enabled;
    if i > 0 {
      RunKeepsInv(events, states, i - 1);
      StepKeepsInv(states[i - 1], events[i - 1]);
    }
  }

  /** In every run the attempts are 1 to n in commit order, at most one for each call. */
  lemma NumberedWithoutGaps(events: seq<Event>, states: seq<State>, i: nat)
    requires IsRun(events, states) && i < |states|
    ensures forall a :: Taken(states[i].rows, a) <==> 1 <= a <= |states[i].rows|
    ensures forall j, k :: 0 <= j < k < |states[i].rows| ==>
              states[i].rows[j].attempt < states[i].rows[k].attempt
                  && states[i].rows[j].caller != states[i].rows[k].caller
  {
    RunKeepsInv(events, states, i);
    forall a ensures Taken(states[i].rows, a) <==> 1 <= a <= |states[i].rows| {
      TakenBelowCount(states[i].rows, a);
    }
  }

  /** A recorded call has exactly one row; one still at it, or that gave up, has none. */
  lemma RecordedHasOneRow(events: seq<Event>, states: seq<State>, i: nat, c: nat)
    requires IsRun(events, states) && i < |states| && c in states[i].calls
    ensures states[i].calls[c].Recorded? ==>
              exists j :: 0 <= j < |states[i].rows| && states[i].rows[j].caller == c
                          && forall k :: 0 <= k < |states[i].rows| && states[i].rows[k].caller == c ==> k == j
    ensures !states[i].calls[c].Recorded? && !states[i].calls[c].Failed? ==> !HasRow(states[i].rows, c)
  {
    hide Apply, Enabled, Numbered;
    RunKeepsInv(events, states, i);
    if states[i].calls[c].Recorded? {
      assert HasRow(states[i].rows, c);
    }
  }

  /** An insert that records its call appends that call's row under the next number, and no other step records. */
  lemma RecordingAppends(events: seq<Event>, states: seq<State>, i: nat, c: nat)
    requires IsRun(events, states) && i < |events| && c in states[i + 1].calls && states[i + 1].calls[c].Recorded?
    requires !(c in states[i].calls && states[i].calls[c].Recorded?)
    ensures events[i] == Insert(c)
    ensures states[i + 1].rows == states[i].rows + [Row(c, |states[i].rows| + 1)]
  {
    RunKeepsInv(events, states, i);
    RunKeepsInv(events, states, i + 1);
    hide Taken;
    var s := states[i];
    assert events[i] == Insert(c);
    TakenBelowCount(s.rows, s.calls[c].highest + 1);
    assert CallOk(s.rows, s.calls[c]);
  }

  /** An insert adds a row exactly when nobody committed since its read; otherwise the call tries again or gives up. */
  lemma InsertsExactlyWhenFree(events: seq<Event>, states: seq<State>, i: nat, c: nat)
    requires IsRun(events, states) && i < |events| && events[i] == Insert(c)
    ensures states[i + 1].calls[c].Recorded? <==> states[i].calls[c].highest == |states[i].rows|
    ensures !states[i + 1].calls[c].Recorded? ==> states[i + 1].rows == states[i].rows
  {
    RunKeepsInv(events, states, i);
    hide Taken;
    assert CallOk(states[i].rows, states[i].calls[c]);
    TakenBelowCount(states[i].rows, states[i].calls[c].highest + 1);
  }

  /** How often the call has tried to insert. */
  function Inserts(events: seq<Event>, n: nat, c: nat): nat
    requires n <= |events|
  {
    if n == 0 then 0 else Inserts(events, n - 1, c) + (if events[n - 1] == Insert(c) then 1 else 0)
  }

  /** A call at work has had fewer than three tries, all lost; one that gave up has had three. */
  lemma {:induction false} TriesAreInserts(events: seq<Event>, states: seq<State>, i: nat, c: nat)
    requires IsRun(events, states) && i < |states|
    ensures c !in states[i].calls ==> Inserts(events, i, c) == 0
    ensures c in states[i].calls ==>
              match states[i].calls[c]
              case Reading(_, tries) => Inserts(events, i, c) == tries < 3
              case Inserting(_, tries, _) => Inserts(events, i, c) == tries < 3
              case Recorded => 1 <= Inserts(events, i, c) <= 3
              case GaveUp(_) => Inserts(events, i, c) == 3
              case Failed => Inserts(events, i, c) < 3
  {
    hide Taken, Highest;
    if i > 0 {
      TriesAreInserts(events, states, i - 1, c);
    }
  }

  /** An insert that loses to another call is the last exactly when it is the third. */
  lemma GivesUpExactlyAtThird(events: seq<Event>, states: seq<State>, i: nat, c: nat)
    requires IsRun(events, states) && i < |events| && events[i] == Insert(c) && !states[i + 1].calls[c].Recorded?
    ensures states[i + 1].calls[c].GaveUp? <==> Inserts(events, i + 1, c) == 3
    ensures !states[i + 1].calls[c].GaveUp? ==> states[i + 1].calls[c].Reading?
  {
    hide Taken, Inserts;
    TriesAreInserts(events, states, i + 1, c);
  }

  function BegunOf(p: Phase): int {
    match p
    case Reading(begun, _) => begun
    case Inserting(begun, _, _) => begun
    case GaveUp(begun) => begun
    case _ => -1
  }

  /** The count a call carries is the number of rows committed when it began. */
  lemma {:induction false} BeganAt(events: seq<Event>, states: seq<State>, i: nat, c: nat) returns (b: nat)
    requires IsRun(events, states) && i < |states|
    requires c in states[i].calls && BegunOf(states[i].calls[c]) >= 0
    ensures b < i && events[b] == Begin(c) && |states[b].rows| == BegunOf(states[i].calls[c])
  {
    if events[i - 1] == Begin(c) {
      b := i - 1;
    } else {
      b := BeganAt(events, states, i - 1, c);
    }
  }

  /** A call that gives up wrote nothing, and at least three other calls committed since it began. */
  lemma GivingUpNeedsThreeOthers(events: seq<Event>, states: seq<State>, i: nat, c: nat) returns (b: nat)
    requires IsRun(events, states) && 0 < i < |states|
    requires events[i - 1] == Insert(c) && states[i].calls[c].GaveUp?
    ensures b < i && events[b] == Begin(c)
    ensures |states[i].rows| >= |states[b].rows| + 3
    ensures forall k :: 0 <= k < |states[i].rows| ==> states[i].rows[k].caller != c
    ensures forall j, k :: |states[b].rows| <= j < k < |states[i].rows| ==>
        states[i].rows[j].caller != states[i].rows[k].caller
  {
    RunKeepsInv(events, states, i);
    b := BeganAt(events, states, i, c);
  }
}
