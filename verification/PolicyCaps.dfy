/**
 * The accepted race between Check and Record: requests of one user, type and currency whose checks read
 * the three counters one by one and whose records write them one by one, interleaved in any way, and how
 * far they can carry a window past its cap.
 */
module PolicyCaps {
  import opened Options
  import opened Calendar
  import opened PolicyKeys
  import opened Policy

  /** A recorded transaction. */
  datatype Spend = Spend(amount: int, date: Date)

  /** The transactions each counter has been told of. */
  datatype Books = Books(dailyAmount: seq<Spend>, dailyCount: seq<Spend>, monthlyAmount: seq<Spend>)

  function Of(b: Books, kind: Kind): seq<Spend> {
    match kind
    case DailyAmount => b.dailyAmount
    case DailyCount => b.dailyCount
    case MonthlyAmount => b.monthlyAmount
  }

  function With(b: Books, kind: Kind, spend: Spend): (r: Books)
    ensures Of(r, kind) == Of(b, kind) + [spend]
    ensures forall other :: other != kind ==> Of(r, other) == Of(b, other)
  {
    match kind
    case DailyAmount => b.(dailyAmount := b.dailyAmount + [spend])
    case DailyCount => b.(dailyCount := b.dailyCount + [spend])
    case MonthlyAmount => b.(monthlyAmount := b.monthlyAmount + [spend])
  }

  /**
   * A request between the start of Check and the end of Record: the date its check took, the counters it
   * has passed, the date its record took, and the counters it has written.
   */
  datatype Req = Req(amount: int, date: Date, passed: set<Kind>, record: Option<Date>, written: set<Kind>)

  datatype State = State(books: Books, pending: seq<Req>, today: Date)

  const KINDS: set<Kind> := {DailyAmount, DailyCount, MonthlyAmount}

  lemma EveryKind(kind: Kind)
    ensures kind in KINDS
  {
    match kind
    case DailyAmount =>
    case DailyCount =>
    case MonthlyAmount =>
  }

  /** Request and Post are a check and a record that nothing interrupts. */
  datatype Event =
    | Begin(amount: int)                   // Check starts; the per-transaction bound is tested
    | Look(i: nat, kind: Kind, seen: int)  // it reads a counter and goes on, or rejects
    | Request(amount: int)
    | Abandon(i: nat)                      // the posting fails; nothing is recorded
    | StartRecord(i: nat)                  // posted; Record takes its date
    | Write(i: nat, kind: Kind, ok: bool)  // an increment that errs is logged and passed over
    | End(i: nat)
    | Post(i: nat)
    | NewDay(date: Date)

  /** What the counter of the date's window shows. */
  function Used(recorded: seq<Spend>, kind: Kind, date: Date): int {
    if recorded == [] then 0
    else
      var last := recorded[|recorded| - 1];
      Used(recorded[..|recorded| - 1], kind, date)
      + (if SameWindow(kind, last.date, date) then Weight(kind, last.amount) else 0)
  }

  function Shown(s: State, kind: Kind, date: Date): int {
    Used(Of(s.books, kind), kind, date)
  }

  function Reading(s: State): Reads {
    Reads(Some(Shown(s, DailyAmount, s.today)), Some(Shown(s, DailyCount, s.today)),
        Some(Shown(s, MonthlyAmount, s.today)))
  }

  predicate NotBefore(a: Date, b: Date) {
    !Before(a, b)
  }

  predicate Checking(s: State, i: nat) {
    i < |s.pending| && s.pending[i].record.None?
  }

  predicate Recording(s: State, i: nat) {
    i < |s.pending| && s.pending[i].record.Some?
  }

  /**
   * At most k requests at a time are between the start of Check and the end of Record; amounts are
   * positive. A read whose window is over by now, its counter perhaps expired, may see anything.
   */
  predicate Enabled(k: nat, s: State, e: Event) {
    match e
    case Begin(amount) => amount > 0 && |s.pending| < k
    case Look(i, kind, seen) =>
      && Checking(s, i) && kind !in s.pending[i].passed && 0 <= seen
      && (SameWindow(kind, s.pending[i].date, s.today) ==> seen == Shown(s, kind, s.today))
    case Request(amount) => amount > 0 && |s.pending| < k
    case Abandon(i) => Checking(s, i)
    case StartRecord(i) => Checking(s, i) && s.pending[i].passed == KINDS
    case Write(i, kind, _) => Recording(s, i) && kind !in s.pending[i].written
    case End(i) => Recording(s, i) && s.pending[i].written == KINDS
    case Post(i) => Checking(s, i) && s.pending[i].passed == KINDS
    case NewDay(date) => NotBefore(date, s.today)
  }

  function Without<T>(pending: seq<T>, i: nat): seq<T>
    requires i < |pending|
  {
    pending[..i] + pending[i + 1..]
  }

  function Change(s: State, i: nat, r: Req): State
    requires i < |s.pending|
  {
    s.(pending := s.pending[i := r])
  }

  function Drop(s: State, i: nat): State
    requires i < |s.pending|
  {
    s.(pending := Without(s.pending, i))
  }

  function Apply(l: Limit, k: nat, s: State, e: Event): State
    requires Enabled(k, s, e)
  {
    match e
    case Begin(amount) =>
      if l.maxPerTx.Some? && amount > l.maxPerTx.value then s
      else s.(pending := s.pending + [Req(amount, s.today, {}, None, {})])
    case Look(i, kind, seen) =>
      var r := s.pending[i];
      if Exceeds(l, kind, seen, r.amount) then Drop(s, i) else Change(s, i, r.(passed := r.passed + {kind}))
    case Request(amount) =>
      if CheckVerdict(Some(l), amount, Reading(s)).Allowed?
      then s.(pending := s.pending + [Req(amount, s.today, KINDS, None, {})])
      else s
    case Abandon(i) => Drop(s, i)
    case StartRecord(i) => Change(s, i, s.pending[i].(record := Some(s.today)))
    case Write(i, kind, ok) =>
      var r := s.pending[i];
      var books := if ok then With(s.books, kind, Spend(r.amount, r.record.value)) else s.books;
      Change(s, i, r.(written := r.written + {kind})).(books := books)
    case End(i) => Drop(s, i)
    case Post(i) => Drop(s, i).(books := AllWith(s.books, Spend(s.pending[i].amount, s.today)))
    case NewDay(date) => s.(today := date)
  }

  function AllWith(b: Books, spend: Spend): (r: Books)
    ensures forall kind :: Of(r, kind) == Of(b, kind) + [spend]
  {
    Books(b.dailyAmount + [spend], b.dailyCount + [spend], b.monthlyAmount + [spend])
  }

  ghost predicate IsRun(l: Limit, k: nat, events: seq<Event>, states: seq<State>) {
    && |states| == |events| + 1
    && states[0].books == Books([], [], []) && states[0].pending == []
    && forall i :: 0 <= i < |events| ==>
         Enabled(k, states[i], events[i]) && states[i + 1] == Apply(l, k, states[i], events[i])
  }

  // ----- The bound -----

  function AtLeastZero(n: int): int {
    if n < 0 then 0 else n
  }

  /** The most one request can add to a window. */
  ghost predicate PerRequest(l: Limit, kind: Kind, most: int) {
    if kind.DailyCount? then most == 1 else l.maxPerTx.Some? && most == AtLeastZero(l.maxPerTx.value)
  }

  /** The cap and k - 1 largest requests; a cap below zero lets nothing in. */
  function Bound(cap: int, k: nat, most: int): int {
    AtLeastZero(cap + (k - 1) * most)
  }

  /** One counter and its cap. A single request at a time needs no per-transaction bound. */
  datatype Setting = Setting(l: Limit, k: nat, kind: Kind, cap: int, most: int)

  ghost predicate SettingOk(c: Setting) {
    c.l.enabled && Cap(c.l, c.kind) == Some(c.cap) && c.k >= 1 && (c.k == 1 || PerRequest(c.l, c.kind, c.most))
  }

  /**
   * What a request can still put into the window of date d: if its record has begun, the record's window
   * unless written; before that today's, once it has passed the counter, or if it will read one that is
   * over and so tells it nothing.
   */
  predicate Reserves(c: Setting, r: Req, today: Date, d: Date) {
    match r.record
    case Some(date) => c.kind !in r.written && SameWindow(c.kind, date, d)
    case None =>
      && SameWindow(c.kind, today, d)
      && (c.kind in r.passed || (!SameWindow(c.kind, r.date, today) && Weight(c.kind, r.amount) <= c.cap))
  }

  function Share(c: Setting, r: Req, today: Date, d: Date): int {
    if Reserves(c, r, today, d) then Weight(c.kind, r.amount) else 0
  }

  function InFlight(c: Setting, pending: seq<Req>, today: Date, d: Date): int {
    if pending == [] then 0
    else InFlight(c, pending[..|pending| - 1], today, d) + Share(c, pending[|pending| - 1], today, d)
  }

  /** What the window shows and may yet show for requests already let through. */
  function Load(c: Setting, s: State, d: Date): int {
    Shown(s, c.kind, d) + InFlight(c, s.pending, s.today, d)
  }

  predicate ReqOk(c: Setting, r: Req, today: Date) {
    && r.amount > 0 && (c.l.maxPerTx.Some? ==> r.amount <= c.l.maxPerTx.value)
    && NotBefore(today, r.date)
    && (c.kind in r.passed ==> Weight(c.kind, r.amount) <= c.cap)
    && (r.record.Some? ==> c.kind in r.passed && NotBefore(today, r.record.value))
  }

  predicate SpendOk(p: Spend, today: Date) {
    p.amount > 0 && NotBefore(today, p.date)
  }

  ghost predicate Inv(c: Setting, s: State) {
    && |s.pending| <= c.k
    && (forall i :: 0 <= i < |s.pending| ==> ReqOk(c, s.pending[i], s.today))
    && (forall i :: 0 <= i < |Of(s.books, c.kind)| ==> SpendOk(Of(s.books, c.kind)[i], s.today))
    && (forall d :: Load(c, s, d) <= Bound(c.cap, c.k, c.most))
  }

  // ----- Sums over requests -----

  lemma ShareInRange(c: Setting, r: Req, today: Date, d: Date)
    requires ReqOk(c, r, today)
    ensures 0 <= Share(c, r, today, d)
    ensures SettingOk(c) && c.k > 1 ==> Share(c, r, today, d) <= c.most
    ensures Share(c, r, today, d) <= AtLeastZero(c.cap)
  {
  }

  lemma {:induction false} InFlightInRange(c: Setting, pending: seq<Req>, today: Date, d: Date)
    requires forall i :: 0 <= i < |pending| ==> ReqOk(c, pending[i], today)
    ensures 0 <= InFlight(c, pending, today, d)
    ensures SettingOk(c) && c.k > 1 ==> InFlight(c, pending, today, d) <= |pending| * c.most
  {
    hide ReqOk, Share, SettingOk;
    if pending != [] {
      InFlightInRange(c, pending[..|pending| - 1], today, d);
      ShareInRange(c, pending[|pending| - 1], today, d);
      assert |pending| * c.most == (|pending| - 1) * c.most + c.most;
    }
  }

  lemma {:induction false} InFlightWithout(c: Setting, pending: seq<Req>, today: Date, d: Date, i: nat)
    requires i < |pending|
    ensures InFlight(c, pending, today, d) ==
        InFlight(c, Without(pending, i), today, d) + Share(c, pending[i], today, d)
  {
    hide Share;
    var n := |pending|;
    if i < n - 1 {
      InFlightWithout(c, pending[..n - 1], today, d, i);
      var rest := Without(pending, i);
      assert rest[..|rest| - 1] == Without(pending[..n - 1], i);
      assert rest[|rest| - 1] == pending[n - 1];
    } else {
      assert Without(pending, i) == pending[..n - 1];
    }
  }

  lemma InFlightChanged(c: Setting, pending: seq<Req>, today: Date, d: Date, i: nat, r: Req)
    requires i < |pending|
    ensures InFlight(c, pending[i := r], today, d) ==
            InFlight(c, pending, today, d) - Share(c, pending[i], today, d) + Share(c, r, today, d)
  {
    hide Share, InFlight;
    InFlightWithout(c, pending, today, d, i);
    InFlightWithout(c, pending[i := r], today, d, i);
    assert Without(pending[i := r], i) == Without(pending, i);
  }

  lemma InFlightMore(c: Setting, pending: seq<Req>, today: Date, d: Date, r: Req)
    ensures InFlight(c, pending + [r], today, d) == InFlight(c, pending, today, d) + Share(c, r, today, d)
  {
    assert (pending + [r])[..|pending|] == pending;
  }

  lemma Scaled(a: nat, b: nat, most: int)
    requires a <= b && most >= 0
    ensures a * most <= b * most
  {
    assert (b - a) * most >= 0;
  }

  /** The others, at most k - 1, are all that a check did not see. */
  lemma OthersFit(c: Setting, others: seq<Req>, today: Date, d: Date)
    requires SettingOk(c) && |others| < c.k && forall i :: 0 <= i < |others| ==> ReqOk(c, others[i], today)
    ensures InFlight(c, others, today, d) <= (c.k - 1) * c.most
  {
    hide ReqOk, Share;
    InFlightInRange(c, others, today, d);
    if c.k > 1 {
      Scaled(|others|, c.k - 1, c.most);
    } else {
      assert others == [];
    }
  }

  /** At most k requests, each within the cap, fit the bound of an empty window. */
  lemma AllFit(c: Setting, pending: seq<Req>, today: Date, d: Date)
    requires SettingOk(c) && |pending| <= c.k && forall i :: 0 <= i < |pending| ==> ReqOk(c, pending[i], today)
    ensures InFlight(c, pending, today, d) <= Bound(c.cap, c.k, c.most)
  {
    hide Share, ReqOk, SettingOk;
    if pending != [] && c.cap >= 0 {
      var n := |pending|;
      OthersFit(c, pending[..n - 1], today, d);
      ShareInRange(c, pending[n - 1], today, d);
    } else if c.cap < 0 {
      NothingFits(c, pending, today, d);
    }
  }

  lemma {:induction false} NothingFits(c: Setting, pending: seq<Req>, today: Date, d: Date)
    requires c.cap < 0 && forall i :: 0 <= i < |pending| ==> ReqOk(c, pending[i], today)
    ensures InFlight(c, pending, today, d) == 0
  {
    hide Share, ReqOk;
    if pending != [] {
      NothingFits(c, pending[..|pending| - 1], today, d);
      ShareInRange(c, pending[|pending| - 1], today, d);
    }
  }

  // ----- Sums over recorded transactions -----

  lemma UsedAfter(recorded: seq<Spend>, spend: Spend, kind: Kind, date: Date)
    ensures Used(recorded + [spend], kind, date) ==
            Used(recorded, kind, date) + (if SameWindow(kind, spend.date, date) then Weight(kind, spend.amount) else 0)
  {
    assert (recorded + [spend])[..|recorded|] == recorded;
  }

  /** Nothing is recorded in a window later than today's. */
  lemma {:induction false} FutureIsEmpty(recorded: seq<Spend>, kind: Kind, today: Date, date: Date, d: Date)
    requires forall i :: 0 <= i < |recorded| ==> SpendOk(recorded[i], today)
    requires NotBefore(date, today) && !SameWindow(kind, today, date) && SameWindow(kind, date, d)
    ensures Used(recorded, kind, d) == 0
  {
    if recorded != [] {
      FutureIsEmpty(recorded[..|recorded| - 1], kind, today, date, d);
      assert SpendOk(recorded[|recorded| - 1], today);
    }
  }

  lemma {:induction false} SameWindowSameUse(recorded: seq<Spend>, kind: Kind, a: Date, b: Date)
    requires SameWindow(kind, a, b)
    ensures Used(recorded, kind, a) == Used(recorded, kind, b)
  {
    if recorded != [] {
      SameWindowSameUse(recorded[..|recorded| - 1], kind, a, b);
    }
  }

  lemma {:induction false} UsedNotNegative(recorded: seq<Spend>, kind: Kind, today: Date, d: Date)
    requires forall i :: 0 <= i < |recorded| ==> SpendOk(recorded[i], today)
    ensures Used(recorded, kind, d) >= 0
  {
    if recorded != [] {
      UsedNotNegative(recorded[..|recorded| - 1], kind, today, d);
      assert SpendOk(recorded[|recorded| - 1], today);
    }
  }

  // ----- What every step keeps -----

  /** A request that ends or is rejected frees what it reserved. */
  lemma DropKeepsInv(c: Setting, s: State, i: nat)
    requires Inv(c, s) && i < |s.pending|
    ensures Inv(c, Drop(s, i))
  {
    hide Share, ReqOk, Used, Bound;
    forall d ensures Load(c, Drop(s, i), d) <= Bound(c.cap, c.k, c.most) {
      InFlightWithout(c, s.pending, s.today, d, i);
      ShareInRange(c, s.pending[i], s.today, d);
      assert Load(c, s, d) <= Bound(c.cap, c.k, c.most);
    }
  }

  /** A step that changes one request and reserves no more keeps the invariant. */
  lemma ChangeKeepsInv(c: Setting, s: State, i: nat, r: Req)
    requires Inv(c, s) && i < |s.pending| && ReqOk(c, r, s.today)
    requires forall d :: Share(c, r, s.today, d) <= Share(c, s.pending[i], s.today, d)
    ensures Inv(c, Change(s, i, r))
  {
    hide Share, ReqOk, Used, Bound;
    forall d ensures Load(c, Change(s, i, r), d) <= Bound(c.cap, c.k, c.most) {
      InFlightChanged(c, s.pending, s.today, d, i, r);
      assert Load(c, s, d) <= Bound(c.cap, c.k, c.most);
    }
  }

  /** A check that sees the current window lets a request in only beside k - 1 others. */
  lemma FreshFits(c: Setting, s: State, others: seq<Req>, r: Req, d: Date)
    requires Inv(c, s) && SettingOk(c) && |others| < c.k
    requires forall i :: 0 <= i < |others| ==> ReqOk(c, others[i], s.today)
    requires SameWindow(c.kind, s.today, d) && Shown(s, c.kind, s.today) + Weight(c.kind, r.amount) <= c.cap
        && r.amount > 0
    ensures Shown(s, c.kind, d) + InFlight(c, others, s.today, d) + Share(c, r, s.today, d) <= Bound(c.cap, c.k, c.most)
  {
    hide Used, InFlight, ReqOk;
    SameWindowSameUse(Of(s.books, c.kind), c.kind, s.today, d);
    OthersFit(c, others, s.today, d);
  }

  lemma LookKeepsInv(c: Setting, s: State, e: Event)
    requires Inv(c, s) && SettingOk(c) && e.Look? && Enabled(c.k, s, e)
    ensures Inv(c, Apply(c.l, c.k, s, e))
  {
    var r := s.pending[e.i];
    assert ReqOk(c, r, s.today);
    if Exceeds(c.l, e.kind, e.seen, r.amount) {
      DropKeepsInv(c, s, e.i);
    } else {
      var t := r.(passed := r.passed + {e.kind});
      if e.kind == c.kind && SameWindow(c.kind, r.date, s.today) {
        FreshLookKeepsInv(c, s, e.i);
      } else {
        assert forall d :: Share(c, t, s.today, d) <= Share(c, r, s.today, d);
        ChangeKeepsInv(c, s, e.i, t);
      }
    }
  }

  lemma FreshLookKeepsInv(c: Setting, s: State, i: nat)
    requires Inv(c, s) && SettingOk(c) && Checking(s, i) && c.kind !in s.pending[i].passed
    requires SameWindow(c.kind, s.pending[i].date, s.today)
    requires Shown(s, c.kind, s.today) + Weight(c.kind, s.pending[i].amount) <= c.cap
    ensures Inv(c, Change(s, i, s.pending[i].(passed := s.pending[i].passed + {c.kind})))
  {
    var r := s.pending[i];
    var t := r.(passed := r.passed + {c.kind});
    UsedNotNegative(Of(s.books, c.kind), c.kind, s.today, s.today);
    assert ReqOk(c, r, s.today) && ReqOk(c, t, s.today);
    var others := Without(s.pending, i);
    forall d ensures Load(c, Change(s, i, t), d) <= Bound(c.cap, c.k, c.most) {
      InFlightChanged(c, s.pending, s.today, d, i, t);
      InFlightWithout(c, s.pending, s.today, d, i);
      assert Load(c, s, d) <= Bound(c.cap, c.k, c.most);
      hide Used, InFlight, ReqOk, Bound;
      if SameWindow(c.kind, s.today, d) {
        FreshFits(c, s, others, t, d);
      }
    }
  }

  lemma AddKeepsInv(c: Setting, s: State, r: Req)
    requires Inv(c, s) && SettingOk(c) && |s.pending| < c.k
    requires ReqOk(c, r, s.today) && r.record.None? && r.date == s.today
    requires c.kind in r.passed ==> Shown(s, c.kind, s.today) + Weight(c.kind, r.amount) <= c.cap
    ensures Inv(c, s.(pending := s.pending + [r]))
  {
    hide Used, InFlight, Bound;
    forall d ensures Load(c, s.(pending := s.pending + [r]), d) <= Bound(c.cap, c.k, c.most) {
      InFlightMore(c, s.pending, s.today, d, r);
      assert Load(c, s, d) <= Bound(c.cap, c.k, c.most);
      if SameWindow(c.kind, s.today, d) && c.kind in r.passed {
        FreshFits(c, s, s.pending, r, d);
      }
    }
  }

  lemma RequestKeepsInv(c: Setting, s: State, amount: int)
    requires Inv(c, s) && SettingOk(c) && Enabled(c.k, s, Request(amount))
    ensures Inv(c, Apply(c.l, c.k, s, Request(amount)))
  {
    hide Used, CheckVerdict, Bound;
    if CheckVerdict(Some(c.l), amount, Reading(s)).Allowed? {
      assert AllRead(Reading(s));
      AllowsExactlyWithinBounds(c.l, amount, Reading(s));
      assert !Exceeds(c.l, c.kind, Read(Reading(s), c.kind).value, amount);
      UsedNotNegative(Of(s.books, c.kind), c.kind, s.today, s.today);
      AddKeepsInv(c, s, Req(amount, s.today, KINDS, None, {}));
    }
  }

  /** A spend told to the counter takes the place of what its request reserved. */
  lemma TellKeepsInv(c: Setting, s: State, t: State, spend: Spend)
    requires Inv(c, s) && t.today == s.today && |t.pending| <= c.k
    requires forall i :: 0 <= i < |t.pending| ==> ReqOk(c, t.pending[i], t.today)
    requires Of(t.books, c.kind) == Of(s.books, c.kind) + [spend] && SpendOk(spend, s.today)
    requires forall d ::
               InFlight(c, t.pending, t.today, d)
               + (if SameWindow(c.kind, spend.date, d) then Weight(c.kind, spend.amount) else 0)
               <= InFlight(c, s.pending, s.today, d)
    ensures Inv(c, t)
  {
    hide Used, InFlight, ReqOk, Bound;
    forall d ensures Load(c, t, d) <= Bound(c.cap, c.k, c.most) {
      UsedAfter(Of(s.books, c.kind), spend, c.kind, d);
      assert Load(c, s, d) <= Bound(c.cap, c.k, c.most);
    }
  }

  lemma PostKeepsInv(c: Setting, s: State, i: nat)
    requires Inv(c, s) && Enabled(c.k, s, Post(i))
    ensures Inv(c, Apply(c.l, c.k, s, Post(i)))
  {
    var r := s.pending[i];
    EveryKind(c.kind);
    assert ReqOk(c, r, s.today);
    var t := Apply(c.l, c.k, s, Post(i));
    forall d ensures InFlight(c, t.pending, t.today, d) + Share(c, r, s.today, d) ==
      InFlight(c, s.pending, s.today, d)
    {
      InFlightWithout(c, s.pending, s.today, d, i);
    }
    hide InFlight, Used, Bound;
    TellKeepsInv(c, s, t, Spend(r.amount, s.today));
  }

  lemma WriteKeepsInv(c: Setting, s: State, i: nat, kind: Kind, ok: bool)
    requires Inv(c, s) && Enabled(c.k, s, Write(i, kind, ok))
    ensures Inv(c, Apply(c.l, c.k, s, Write(i, kind, ok)))
  {
    var r := s.pending[i];
    assert ReqOk(c, r, s.today);
    var q := r.(written := r.written + {kind});
    var t := Apply(c.l, c.k, s, Write(i, kind, ok));
    if ok && kind == c.kind {
      forall d ensures InFlight(c, t.pending, t.today, d) + Share(c, r, s.today, d) ==
        InFlight(c, s.pending, s.today, d)
      {
        InFlightChanged(c, s.pending, s.today, d, i, q);
      }
      hide InFlight, Used, Bound;
      TellKeepsInv(c, s, t, Spend(r.amount, r.record.value));
    } else {
      hide InFlight, Used, Bound;
      ChangeKeepsInv(c, s, i, q);
      assert forall d :: Load(c, t, d) == Load(c, Change(s, i, q), d);
    }
  }

  lemma StartKeepsInv(c: Setting, s: State, i: nat)
    requires Inv(c, s) && Enabled(c.k, s, StartRecord(i))
    ensures Inv(c, Apply(c.l, c.k, s, StartRecord(i)))
  {
    hide InFlight, Used, Bound;
    EveryKind(c.kind);
    assert ReqOk(c, s.pending[i], s.today);
    ChangeKeepsInv(c, s, i, s.pending[i].(record := Some(s.today)));
  }

  lemma LaterStaysOk(c: Setting, r: Req, today: Date, date: Date)
    requires ReqOk(c, r, today) && NotBefore(date, today)
    ensures ReqOk(c, r, date)
  {
  }

  /** When a new window begins, requests under way reserve in it; elsewhere nobody reserves more than before. */
  lemma {:induction false} NewWindowShares(c: Setting, pending: seq<Req>, today: Date, date: Date, d: Date)
    requires forall i :: 0 <= i < |pending| ==> ReqOk(c, pending[i], today)
    requires NotBefore(date, today) && !SameWindow(c.kind, date, d)
    ensures InFlight(c, pending, date, d) <= InFlight(c, pending, today, d)
  {
    if pending != [] {
      NewWindowShares(c, pending[..|pending| - 1], today, date, d);
      assert ReqOk(c, pending[|pending| - 1], today);
    }
  }

  lemma {:induction false} SameWindowShares(c: Setting, pending: seq<Req>, today: Date, date: Date, d: Date)
    requires SameWindow(c.kind, today, date)
    ensures InFlight(c, pending, date, d) == InFlight(c, pending, today, d)
  {
    if pending != [] {
      SameWindowShares(c, pending[..|pending| - 1], today, date, d);
    }
  }

  lemma DayKeepsInv(c: Setting, s: State, date: Date)
    requires Inv(c, s) && SettingOk(c) && NotBefore(date, s.today)
    ensures Inv(c, Apply(c.l, c.k, s, NewDay(date)))
  {
    hide InFlight, Used, Bound, SettingOk, Weight;
    var t := Apply(c.l, c.k, s, NewDay(date));
    forall i | 0 <= i < |t.pending| ensures ReqOk(c, t.pending[i], date) {
      LaterStaysOk(c, s.pending[i], s.today, date);
    }
    forall d ensures Load(c, t, d) <= Bound(c.cap, c.k, c.most) {
      assert Load(c, s, d) <= Bound(c.cap, c.k, c.most);
      if SameWindow(c.kind, s.today, date) {
        SameWindowShares(c, s.pending, s.today, date, d);
      } else if SameWindow(c.kind, date, d) {
        FutureIsEmpty(Of(s.books, c.kind), c.kind, s.today, date, d);
        AllFit(c, s.pending, date, d);
      } else {
        NewWindowShares(c, s.pending, s.today, date, d);
      }
    }
  }

  lemma StepKeepsInv(c: Setting, s: State, e: Event)
    requires Inv(c, s) && SettingOk(c) && Enabled(c.k, s, e)
    ensures Inv(c, Apply(c.l, c.k, s, e))
  {
    hide Inv, Used, CheckVerdict;
    match e
    case Begin(amount) =>
      if !(c.l.maxPerTx.Some? && amount > c.l.maxPerTx.value) {
        AddKeepsInv(c, s, Req(amount, s.today, {}, None, {}));
      }
    case Look(_, _, _) => LookKeepsInv(c, s, e);
    case Request(amount) => RequestKeepsInv(c, s, amount);
    case Abandon(i) => DropKeepsInv(c, s, i);
    case StartRecord(i) => StartKeepsInv(c, s, i);
    case Write(i, kind, ok) => WriteKeepsInv(c, s, i, kind, ok);
    case End(i) => DropKeepsInv(c, s, i);
    case Post(i) => PostKeepsInv(c, s, i);
    case NewDay(date) => DayKeepsInv(c, s, date);
  }

  lemma {:induction false} RunKeepsInv(c: Setting, events: seq<Event>, states: seq<State>, i: nat)
    requires SettingOk(c) && IsRun(c.l, c.k, events, states) && i < |states|
    ensures Inv(c, states[i])
  {
    hide Apply, Enabled, SettingOk;
    if i > 0 {
      RunKeepsInv(c, events, states, i - 1);
      hide Inv;
      StepKeepsInv(c, states[i - 1], events[i - 1]);
    }
  }

  lemma LoadCoversShown(c: Setting, s: State, d: Date)
    requires Inv(c, s)
    ensures Shown(s, c.kind, d) <= Load(c, s, d)
    ensures Load(c, s, d) <= Bound(c.cap, c.k, c.most)
  {
    hide Used, Bound, ReqOk, Share;
    InFlightInRange(c, s.pending, s.today, d);
  }

  /**
   * With at most k requests between the start of Check and the end of Record, however their reads and
   * writes interleave and whatever day it becomes meanwhile, no day or month ever shows more than its cap
   * plus k - 1 largest requests, even counting what those let through may still add.
   */
  lemma Overshoot(c: Setting, events: seq<Event>, states: seq<State>, i: nat, d: Date)
    requires SettingOk(c) && PerRequest(c.l, c.kind, c.most) && IsRun(c.l, c.k, events, states) && i < |states|
    ensures Shown(states[i], c.kind, d) <= Load(c, states[i], d)
    ensures Load(c, states[i], d) <= Bound(c.cap, c.k, c.most)
  {
    RunKeepsInv(c, events, states, i);
    LoadCoversShown(c, states[i], d);
  }

  /** One request at a time: every cap holds exactly, with or without a per-transaction bound. */
  lemma ExactWhenAlone(l: Limit, kind: Kind, cap: int, events: seq<Event>, states: seq<State>, i: nat, d: Date)
    requires l.enabled && Cap(l, kind) == Some(cap)
    requires IsRun(l, 1, events, states) && i < |states|
    ensures Shown(states[i], kind, d) <= Load(Setting(l, 1, kind, cap, 0), states[i], d)
    ensures Load(Setting(l, 1, kind, cap, 0), states[i], d) <= AtLeastZero(cap)
  {
    var c := Setting(l, 1, kind, cap, 0);
    RunKeepsInv(c, events, states, i);
    LoadCoversShown(c, states[i], d);
  }
}
