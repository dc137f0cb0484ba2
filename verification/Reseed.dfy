/** Disaster recovery: rebuilding the velocity counters from posted ledger transactions. */
module Reseed {
  import opened Options
  import opened Calendar
  import opened Text
  import opened PolicyKeys
  import opened Policy
  import PolicyCaps
  import Counter

  datatype Status = Pending | Posted | Failed | Reversed

  /** A ledger transaction joined with the owner of its source account. */
  datatype Posting = Posting(owner: Option<string>, txType: string, currency: string, amount: int, at: Instant,
                             status: Status)

  /** The types the reseed walks. The live system records these and others. */
  const REACHABLE: set<string> := {"transfer_p2p", "transfer_pocket", "withdraw_initiate", "escrow_hold"}

  function Currency(p: Posting): string {
    TrimSpace(p.currency)
  }

  /** Amounts are positive and names free of the key separator. */
  ghost predicate RowOk(p: Posting) {
    && ValidInstant(p.at)
    && p.amount > 0
    && (p.owner.Some? ==> Plain(p.owner.value)) && Plain(p.txType) && Plain(Currency(p))
  }

  ghost predicate RowsOk(rows: seq<Posting>) {
    forall i :: 0 <= i < |rows| ==> ValidInstant(rows[i].at) && RowOk(rows[i])
  }

  // ----- What the live system counted -----

  /** What one record adds, or one row would: an amount of a user, type and currency at a time. */
  datatype Charge = Charge(user: string, txType: string, currency: string, amount: int, at: Instant)

  /**
   * One record of a ledger row: when the row posted, and again on each retry of the request, which the
   * ledger answers like the first. It has its own time, and the command's user and currency, not the
   * row's account and currency. The increments in failed had no effect.
   */
  datatype Usage = Usage(row: nat, user: string, currency: string, at: Instant, failed: set<Kind>)

  /** The record names a row that has posted, whatever its type. */
  predicate Names(rows: seq<Posting>, u: Usage) {
    u.row < |rows| && (rows[u.row].status.Posted? || rows[u.row].status.Reversed?) && ValidInstant(u.at)
  }

  /** Type and amount of a retry are those of the row, or the ledger refuses it. */
  function Recorded(rows: seq<Posting>, u: Usage): Charge
    requires Names(rows, u)
  {
    Charge(u.user, rows[u.row].txType, u.currency, rows[u.row].amount, u.at)
  }

  ghost predicate UsesOk(rows: seq<Posting>, uses: seq<Usage>, now: Instant)
    requires ValidInstant(now)
  {
    forall i :: 0 <= i < |uses| ==>
      Names(rows, uses[i]) && Millis(uses[i].at) <= Millis(now) && Plain(uses[i].user) && Plain(uses[i].currency)
  }

  function ChargeOps(c: Charge, failed: set<Kind>): seq<Counter.Op>
    requires ValidInstant(c.at)
  {
    RecordOps(c.user, c.txType, c.currency, c.amount, c.at, failed)
  }

  function LiveOps(rows: seq<Posting>, uses: seq<Usage>): seq<Counter.Op>
    requires forall i :: 0 <= i < |uses| ==> Names(rows, uses[i])
  {
    if uses == [] then []
    else LiveOps(rows, uses[..|uses| - 1]) + ChargeOps(Recorded(rows, uses[|uses| - 1]), uses[|uses| - 1].failed)
  }

  // ----- The aggregate query -----

  function FirstOfMonth(d: Date): Date {
    Date(d.year, d.month, 1)
  }

  function WindowStart(monthly: bool, now: Instant): int
    requires ValidInstant(now)
  {
    Millis(Instant(if monthly then FirstOfMonth(now.date) else now.date, 0))
  }

  function WindowEnd(monthly: bool, now: Instant): int
    requires ValidInstant(now)
  {
    if monthly then Millis(Instant(FirstOfNextMonth(FirstOfMonth(now.date)), 0)) else WindowStart(false, now) + DAY_MS
  }

  predicate Selected(p: Posting, txType: string, monthly: bool, now: Instant)
    requires ValidInstant(now) && ValidInstant(p.at)
  {
    && p.txType == txType && p.status.Posted? && p.owner.Some?
    && WindowStart(monthly, now) <= Millis(p.at) < WindowEnd(monthly, now)
  }

  /** GROUP BY owner, currency. */
  datatype Group = Group(owner: string, currency: string)

  function GroupOf(p: Posting): Group
    requires p.owner.Some?
  {
    Group(p.owner.value, p.currency)
  }

  /** SUM(amount), or COUNT(*), of one group. */
  function GroupTotal(rows: seq<Posting>, txType: string, monthly: bool, now: Instant, g: Group, kind: Kind): int
    requires ValidInstant(now) && forall i :: 0 <= i < |rows| ==> ValidInstant(rows[i].at)
  {
    if rows == [] then 0
    else
      var last := rows[|rows| - 1];
      GroupTotal(rows[..|rows| - 1], txType, monthly, now, g, kind)
      + (if Selected(last, txType, monthly, now) && GroupOf(last) == g then Weight(kind, last.amount) else 0)
  }

  /** groups is the result of the query in some order. */
  ghost predicate IsGrouping(rows: seq<Posting>, txType: string, monthly: bool, now: Instant, groups: seq<Group>)
    requires ValidInstant(now) && forall i :: 0 <= i < |rows| ==> ValidInstant(rows[i].at)
  {
    && (forall i, j :: 0 <= i < j < |groups| ==> groups[i] != groups[j])
    && (forall g :: g in groups <==>
          exists i :: 0 <= i < |rows| && Selected(rows[i], txType, monthly, now) && GroupOf(rows[i]) == g)
  }

  // ----- The writes -----

  function WriteOp(rows: seq<Posting>, txType: string, monthly: bool, now: Instant, g: Group, kind: Kind): Counter.Op
    requires ValidInstant(now) && forall i :: 0 <= i < |rows| ==> ValidInstant(rows[i].at)
  {
    Counter.Incr(Key(g.owner, txType, TrimSpace(g.currency), kind, now.date),
                 GroupTotal(rows, txType, monthly, now, g, kind), Ttl(kind), Millis(now))
  }

  function GroupOps(rows: seq<Posting>, txType: string, monthly: bool, now: Instant, g: Group): seq<Counter.Op>
    requires ValidInstant(now) && forall i :: 0 <= i < |rows| ==> ValidInstant(rows[i].at)
  {
    if monthly then [WriteOp(rows, txType, true, now, g, MonthlyAmount)]
    else [WriteOp(rows, txType, false, now, g, DailyAmount), WriteOp(rows, txType, false, now, g, DailyCount)]
  }

  /** One window: the amount of each group, and by day its count. */
  function WindowOps(rows: seq<Posting>, txType: string, monthly: bool, now: Instant,
                     groups: seq<Group>): seq<Counter.Op>
    requires ValidInstant(now) && forall i :: 0 <= i < |rows| ==> ValidInstant(rows[i].at)
  {
    if groups == [] then []
    else
      var g := groups[|groups| - 1];
      WindowOps(rows, txType, monthly, now, groups[..|groups| - 1]) + GroupOps(rows, txType, monthly, now, g)
  }

  /** The two query results for one type. */
  datatype Results = Results(txType: string, daily: seq<Group>, monthly: seq<Group>)

  function TypeOps(rows: seq<Posting>, now: Instant, r: Results): seq<Counter.Op>
    requires ValidInstant(now) && forall i :: 0 <= i < |rows| ==> ValidInstant(rows[i].at)
  {
    WindowOps(rows, r.txType, false, now, r.daily) + WindowOps(rows, r.txType, true, now, r.monthly)
  }

  function ReseedOps(rows: seq<Posting>, now: Instant, results: seq<Results>): seq<Counter.Op>
    requires ValidInstant(now) && forall i :: 0 <= i < |rows| ==> ValidInstant(rows[i].at)
  {
    if results == [] then []
    else ReseedOps(rows, now, results[..|results| - 1]) + TypeOps(rows, now, results[|results| - 1])
  }

  /** The types are walked once each, in map order. */
  ghost predicate IsWalk(rows: seq<Posting>, now: Instant, results: seq<Results>)
    requires ValidInstant(now) && forall i :: 0 <= i < |rows| ==> ValidInstant(rows[i].at)
  {
    && (forall i, j :: 0 <= i < j < |results| ==> results[i].txType != results[j].txType)
    && (forall t :: t in REACHABLE <==> exists i :: 0 <= i < |results| && results[i].txType == t)
    && (forall i :: 0 <= i < |results| ==>
          && IsGrouping(rows, results[i].txType, false, now, results[i].daily)
          && IsGrouping(rows, results[i].txType, true, now, results[i].monthly))
  }

  lemma {:induction false} GroupingExists(rows: seq<Posting>, txType: string, monthly: bool, now: Instant)
    returns (groups: seq<Group>)
    requires ValidInstant(now) && forall i :: 0 <= i < |rows| ==> ValidInstant(rows[i].at)
    ensures IsGrouping(rows, txType, monthly, now, groups)
  {
    hide WindowStart, WindowEnd, Millis;
    if rows == [] {
      groups := [];
    } else {
      var n := |rows| - 1;
      var before := GroupingExists(rows[..n], txType, monthly, now);
      var joins := Selected(rows[n], txType, monthly, now);
      groups := if joins && GroupOf(rows[n]) !in before then before + [GroupOf(rows[n])] else before;
      forall g ensures g in groups <==>
                       exists i :: 0 <= i < |rows| && Selected(rows[i], txType, monthly, now) && GroupOf(rows[i]) == g
      {
        assert g in groups <==> g in before || (joins && g == GroupOf(rows[n]));
        if g in before {
          var i :| 0 <= i < n && Selected(rows[..n][i], txType, monthly, now) && GroupOf(rows[..n][i]) == g;
          assert rows[i] == rows[..n][i];
        }
        if i :| 0 <= i < n && Selected(rows[i], txType, monthly, now) && GroupOf(rows[i]) == g {
          assert rows[i] == rows[..n][i];
        }
      }
    }
  }

  lemma ResultsExist(rows: seq<Posting>, txType: string, now: Instant) returns (r: Results)
    requires ValidInstant(now) && forall i :: 0 <= i < |rows| ==> ValidInstant(rows[i].at)
    ensures r.txType == txType
    ensures IsGrouping(rows, txType, false, now, r.daily) && IsGrouping(rows, txType, true, now, r.monthly)
  {
    var daily := GroupingExists(rows, txType, false, now);
    var monthly := GroupingExists(rows, txType, true, now);
    r := Results(txType, daily, monthly);
  }

  /** Every ledger can be walked. */
  lemma WalkExists(rows: seq<Posting>, now: Instant) returns (results: seq<Results>)
    requires ValidInstant(now) && forall i :: 0 <= i < |rows| ==> ValidInstant(rows[i].at)
    ensures IsWalk(rows, now, results)
  {
    hide IsGrouping;
    var a := ResultsExist(rows, "transfer_p2p", now);
    var b := ResultsExist(rows, "transfer_pocket", now);
    var c := ResultsExist(rows, "withdraw_initiate", now);
    var d := ResultsExist(rows, "escrow_hold", now);
    results := [a, b, c, d];
    assert |a.txType| == 12 && |b.txType| == 15 && |c.txType| == 17 && |d.txType| == 11;
    forall t ensures t in REACHABLE <==> exists i :: 0 <= i < |results| && results[i].txType == t {
      assert results[0].txType == "transfer_p2p" && results[1].txType == "transfer_pocket";
      assert results[2].txType == "withdraw_initiate" && results[3].txType == "escrow_hold";
    }
  }

  lemma NothingRun(values: Counter.Values)
    ensures RunOn(values, []) == values
  {
  }

  /** The operations from n on begin with part; running its first k extends the run by k. */
  lemma PartExtends(values: Counter.Values, ops: seq<Counter.Op>, n: nat, part: seq<Counter.Op>, k: nat)
    requires n + |part| <= |ops| && ops[n..n + |part|] == part && k <= |part|
    ensures RunOn(RunOn(values, ops[..n]), part[..k]) == RunOn(values, ops[..n + k])
  {
    hide RunOn;
    RunOnConcat(values, ops[..n], part[..k]);
    assert ops[..n] + part[..k] == ops[..n + k];
  }

  /** The writes of one group; the one after budget others errs, and those made stay. */
  method WriteGroup(rows: seq<Posting>, counter: Counter.MemoryCounter, txType: string, monthly: bool, now: Instant,
                    g: Group, budget: nat)
    returns (written: nat, ok: bool)
    requires ValidInstant(now) && forall i :: 0 <= i < |rows| ==> ValidInstant(rows[i].at)
    modifies counter
    ensures written <= |GroupOps(rows, txType, monthly, now, g)| && written <= budget
    ensures ok <==> |GroupOps(rows, txType, monthly, now, g)| <= budget
    ensures ok ==> written == |GroupOps(rows, txType, monthly, now, g)|
    ensures counter.values == RunOn(old(counter.values), GroupOps(rows, txType, monthly, now, g)[..written])
  {
    hide Key, GroupTotal;
    ghost var ops := GroupOps(rows, txType, monthly, now, g);
    NothingRun(counter.values);
    if budget == 0 {
      return 0, false;
    }
    RunOnOne(counter.values, ops[0]);
    assert ops[..1] == [ops[0]];
    var kind := if monthly then MonthlyAmount else DailyAmount;
    var total := counter.IncrBy(Key(g.owner, txType, TrimSpace(g.currency), kind, now.date),
                                GroupTotal(rows, txType, monthly, now, g, kind), Ttl(kind), Millis(now));
    if monthly {
      return 1, true;
    }
    if budget == 1 {
      return 1, false;
    }
    RunOnConcat(old(counter.values), [ops[0]], [ops[1]]);
    RunOnOne(counter.values, ops[1]);
    assert ops[..2] == [ops[0]] + [ops[1]];
    total := counter.IncrBy(Key(g.owner, txType, TrimSpace(g.currency), DailyCount, now.date),
                            GroupTotal(rows, txType, false, now, g, DailyCount), Ttl(DailyCount), Millis(now));
    return 2, true;
  }

  /** After the first n groups come the writes of group n. */
  lemma {:induction false} GroupOpsAt(rows: seq<Posting>, txType: string, monthly: bool, now: Instant,
                                      groups: seq<Group>, n: nat)
    requires ValidInstant(now) && forall i :: 0 <= i < |rows| ==> ValidInstant(rows[i].at)
    requires n < |groups|
    ensures var ops := WindowOps(rows, txType, monthly, now, groups);
            var part := GroupOps(rows, txType, monthly, now, groups[n]);
            var k := |WindowOps(rows, txType, monthly, now, groups[..n])|;
            && |WindowOps(rows, txType, monthly, now, groups[..n + 1])| == k + |part| <= |ops|
            && ops[k..k + |part|] == part
    decreases |groups|
  {
    hide GroupOps;
    assert groups[..n + 1][..n] == groups[..n];
    var init := groups[..|groups| - 1];
    if n < |init| {
      GroupOpsAt(rows, txType, monthly, now, init, n);
      assert init[..n + 1] == groups[..n + 1] && init[..n] == groups[..n];
    } else {
      assert groups[..n + 1] == groups;
    }
  }

  lemma GroupOpsEnds(rows: seq<Posting>, txType: string, monthly: bool, now: Instant, groups: seq<Group>)
    requires ValidInstant(now) && forall i :: 0 <= i < |rows| ==> ValidInstant(rows[i].at)
    ensures |WindowOps(rows, txType, monthly, now, groups[..0])| == 0
    ensures WindowOps(rows, txType, monthly, now, groups[..|groups|]) == WindowOps(rows, txType, monthly, now, groups)
  {
    assert groups[..|groups|] == groups;
  }

  /** One query and its writes; after an error the writes made so far stay, and are the ones reported. */
  method ReconstructWindow(rows: seq<Posting>, counter: Counter.MemoryCounter, txType: string, monthly: bool,
                           now: Instant, groups: seq<Group>, queried: bool, budget: nat)
    returns (written: nat, ok: bool)
    requires ValidInstant(now) && forall i :: 0 <= i < |rows| ==> ValidInstant(rows[i].at)
    modifies counter
    ensures written <= |WindowOps(rows, txType, monthly, now, groups)| && written <= budget
    ensures ok <==> queried && |WindowOps(rows, txType, monthly, now, groups)| <= budget
    ensures ok ==> written == |WindowOps(rows, txType, monthly, now, groups)|
    ensures counter.values == RunOn(old(counter.values), WindowOps(rows, txType, monthly, now, groups)[..written])
  {
    hide *;
    ghost var ops := WindowOps(rows, txType, monthly, now, groups);
    GroupOpsEnds(rows, txType, monthly, now, groups);
    written := 0;
    NothingRun(counter.values);
    if !queried {
      return 0, false;
    }
    for n := 0 to |groups|
      invariant written == |WindowOps(rows, txType, monthly, now, groups[..n])| <= |ops| && written <= budget
      invariant counter.values == RunOn(old(counter.values), ops[..written])
    {
      GroupOpsAt(rows, txType, monthly, now, groups, n);
      var k, done := WriteGroup(rows, counter, txType, monthly, now, groups[n], budget - written);
      PartExtends(old(counter.values), ops, written, GroupOps(rows, txType, monthly, now, groups[n]), k);
      written := written + k;
      if !done {
        return written, false;
      }
    }
    ok := true;
  }

  method ReconstructType(rows: seq<Posting>, counter: Counter.MemoryCounter, now: Instant, r: Results, queries: nat,
                         budget: nat)
    returns (written: nat, ok: bool)
    requires ValidInstant(now) && forall i :: 0 <= i < |rows| ==> ValidInstant(rows[i].at)
    modifies counter
    ensures written <= |TypeOps(rows, now, r)| && written <= budget
    ensures ok <==> 2 <= queries && |TypeOps(rows, now, r)| <= budget
    ensures ok ==> written == |TypeOps(rows, now, r)|
    ensures counter.values == RunOn(old(counter.values), TypeOps(rows, now, r)[..written])
  {
    hide WindowOps, RunOn;
    ghost var daily := WindowOps(rows, r.txType, false, now, r.daily);
    ghost var monthly := WindowOps(rows, r.txType, true, now, r.monthly);
    ghost var ops := TypeOps(rows, now, r);
    var a, ok1 := ReconstructWindow(rows, counter, r.txType, false, now, r.daily, 0 < queries, budget);
    assert ops[..a] == daily[..a];
    if !ok1 {
      return a, false;
    }
    var b, ok2 := ReconstructWindow(rows, counter, r.txType, true, now, r.monthly, 1 < queries, budget - a);
    assert ops[a..a + |monthly|] == monthly;
    PartExtends(old(counter.values), ops, a, monthly, b);
    return a + b, ok2;
  }

  lemma {:induction false} TypeOpsAt(rows: seq<Posting>, now: Instant, results: seq<Results>, n: nat)
    requires ValidInstant(now) && forall i :: 0 <= i < |rows| ==> ValidInstant(rows[i].at)
    requires n < |results|
    ensures var ops := ReseedOps(rows, now, results);
            var part := TypeOps(rows, now, results[n]);
            var k := |ReseedOps(rows, now, results[..n])|;
            && |ReseedOps(rows, now, results[..n + 1])| == k + |part| <= |ops|
            && ops[k..k + |part|] == part
    decreases |results|
  {
    hide TypeOps;
    assert results[..n + 1][..n] == results[..n];
    var init := results[..|results| - 1];
    if n < |init| {
      TypeOpsAt(rows, now, init, n);
      assert init[..n + 1] == results[..n + 1] && init[..n] == results[..n];
    } else {
      assert results[..n + 1] == results;
    }
  }

  lemma TypeOpsEnds(rows: seq<Posting>, now: Instant, results: seq<Results>)
    requires ValidInstant(now) && forall i :: 0 <= i < |rows| ==> ValidInstant(rows[i].at)
    ensures |ReseedOps(rows, now, results[..0])| == 0
    ensures ReseedOps(rows, now, results[..|results|]) == ReseedOps(rows, now, results)
  {
    assert results[..|results|] == results;
  }

  /** All types; it stops at the first error, with what was written so far. */
  method ReconstructPolicyCounters(rows: seq<Posting>, counter: Counter.MemoryCounter, now: Instant,
                                   results: seq<Results>, queries: nat, budget: nat)
    returns (written: nat, ok: bool)
    requires ValidInstant(now) && forall i :: 0 <= i < |rows| ==> ValidInstant(rows[i].at)
    modifies counter
    ensures written <= |ReseedOps(rows, now, results)| && written <= budget
    ensures ok <==> 2 * |results| <= queries && |ReseedOps(rows, now, results)| <= budget
    ensures ok ==> written == |ReseedOps(rows, now, results)|
    ensures counter.values == RunOn(old(counter.values), ReseedOps(rows, now, results)[..written])
  {
    hide *;
    ghost var ops := ReseedOps(rows, now, results);
    TypeOpsEnds(rows, now, results);
    written := 0;
    NothingRun(counter.values);
    for n := 0 to |results|
      invariant written == |ReseedOps(rows, now, results[..n])| <= |ops| && written <= budget && 2 * n <= queries
      invariant counter.values == RunOn(old(counter.values), ops[..written])
    {
      TypeOpsAt(rows, now, results, n);
      var k, done := ReconstructType(rows, counter, now, results[n], queries - 2 * n, budget - written);
      PartExtends(old(counter.values), ops, written, TypeOps(rows, now, results[n]), k);
      written := written + k;
      if !done {
        return written, false;
      }
    }
    ok := true;
  }

  // ----- Totals by window -----

  /** The counter of one user, type, currency and window. */
  datatype Target = Target(user: string, txType: string, currency: string, kind: Kind)

  ghost predicate TargetOk(g: Target) {
    Plain(g.user) && Plain(g.txType) && Plain(g.currency)
  }

  ghost function TargetKey(g: Target, now: Instant): string
    requires ValidInstant(now)
  {
    Key(g.user, g.txType, g.currency, g.kind, now.date)
  }

  ghost predicate ChargeCounts(c: Charge, g: Target, now: Instant) {
    c.user == g.user && c.txType == g.txType && SameCurrency(c.currency, g.currency)
        && SameWindow(g.kind, c.at.date, now.date)
  }

  function ChargeOf(p: Posting): Charge
    requires p.owner.Some?
  {
    Charge(p.owner.value, p.txType, Currency(p), p.amount, p.at)
  }

  ghost predicate CountsFor(p: Posting, g: Target, now: Instant) {
    p.owner.Some? && ChargeCounts(ChargeOf(p), g, now)
  }

  /** What the ledger rows of one status amount to in the counter's window. */
  ghost function WindowTotal(rows: seq<Posting>, g: Target, now: Instant, status: Status): int {
    if rows == [] then 0
    else
      var last := rows[|rows| - 1];
      WindowTotal(rows[..|rows| - 1], g, now, status)
      + (if last.status == status && CountsFor(last, g, now) then Weight(g.kind, last.amount) else 0)
  }

  lemma {:induction false} SumForConcat(a: seq<Counter.Op>, b: seq<Counter.Op>, key: string)
    ensures SumFor(a + b, key) == SumFor(a, key) + SumFor(b, key)
    decreases |b|
  {
    if b == [] {
      assert a + b == a;
    } else {
      SumForConcat(a, b[..|b| - 1], key);
      assert (a + b)[..|a + b| - 1] == a + b[..|b| - 1];
    }
  }

  lemma SumForOne(op: Counter.Op, key: string)
    ensures SumFor([op], key) == (if op.Incr? && op.key == key then op.delta else 0)
  {
    assert [op][..0] == [];
  }

  // ----- The live side -----

  ghost predicate ChargeOk(c: Charge, now: Instant)
    requires ValidInstant(now)
  {
    ValidInstant(c.at) && Millis(c.at) <= Millis(now) && Plain(c.user) && Plain(c.txType) && Plain(c.currency)
  }

  lemma KeyOfCharge(c: Charge, g: Target, now: Instant, kind: Kind)
    requires ValidInstant(now) && ChargeOk(c, now) && TargetOk(g)
    ensures Key(c.user, c.txType, c.currency, kind, c.at.date) == TargetKey(g, now) <==>
            kind == g.kind && ChargeCounts(c, g, now)
  {
    hide Key;
    KeyNamesWindow(c.user, c.txType, c.currency, kind, c.at.date, g.user, g.txType, g.currency, g.kind, now.date);
  }

  lemma RecordOfSum(c: Charge, g: Target, now: Instant, kind: Kind, failed: set<Kind>)
    requires ValidInstant(now) && ChargeOk(c, now) && TargetOk(g)
    ensures SumFor(RecordOf(c.user, c.txType, c.currency, c.amount, c.at, kind, failed), TargetKey(g, now)) ==
            (if kind == g.kind && kind !in failed && ChargeCounts(c, g, now) then Weight(kind, c.amount) else 0)
  {
    KeyOfCharge(c, g, now, kind);
    hide Key, ChargeCounts, TargetKey;
    if kind !in failed {
      SumForOne(RecordOp(c.user, c.txType, c.currency, c.amount, c.at, kind), TargetKey(g, now));
    }
  }

  lemma ChargeSum(c: Charge, g: Target, now: Instant, failed: set<Kind>)
    requires ValidInstant(now) && ChargeOk(c, now) && TargetOk(g)
    ensures SumFor(ChargeOps(c, failed), TargetKey(g, now)) ==
            (if g.kind !in failed && ChargeCounts(c, g, now) then Weight(g.kind, c.amount) else 0)
  {
    RecordOfSum(c, g, now, DailyAmount, failed);
    RecordOfSum(c, g, now, DailyCount, failed);
    RecordOfSum(c, g, now, MonthlyAmount, failed);
    hide ChargeCounts, TargetKey, RecordOf;
    var a := RecordOf(c.user, c.txType, c.currency, c.amount, c.at, DailyAmount, failed);
    var n := RecordOf(c.user, c.txType, c.currency, c.amount, c.at, DailyCount, failed);
    var m := RecordOf(c.user, c.txType, c.currency, c.amount, c.at, MonthlyAmount, failed);
    SumForConcat(a, n, TargetKey(g, now));
    SumForConcat(a + n, m, TargetKey(g, now));
  }

  /** The record reached the counter in the window it shows now. */
  ghost predicate UsageCounts(rows: seq<Posting>, u: Usage, g: Target, now: Instant)
    requires Names(rows, u)
  {
    g.kind !in u.failed && ChargeCounts(Recorded(rows, u), g, now)
  }

  /** What the records amount to in the counter's window. */
  ghost function UsageTotal(rows: seq<Posting>, uses: seq<Usage>, g: Target, now: Instant): int
    requires forall i :: 0 <= i < |uses| ==> Names(rows, uses[i])
  {
    if uses == [] then 0
    else
      var last := uses[|uses| - 1];
      UsageTotal(rows, uses[..|uses| - 1], g, now)
      + (if UsageCounts(rows, last, g, now) then Weight(g.kind, rows[last.row].amount) else 0)
  }

  lemma RecordedOk(rows: seq<Posting>, u: Usage, now: Instant)
    requires ValidInstant(now) && RowsOk(rows) && UsesOk(rows, [u], now)
    ensures Names(rows, u) && ChargeOk(Recorded(rows, u), now)
  {
    assert [u][0] == u;
    assert Names(rows, u) && RowOk(rows[u.row]);
  }

  lemma {:induction false} LiveSum(rows: seq<Posting>, uses: seq<Usage>, g: Target, now: Instant)
    requires ValidInstant(now) && RowsOk(rows) && UsesOk(rows, uses, now) && TargetOk(g)
    ensures SumFor(LiveOps(rows, uses), TargetKey(g, now)) == UsageTotal(rows, uses, g, now)
  {
    if uses != [] {
      var init, last := uses[..|uses| - 1], uses[|uses| - 1];
      LiveSum(rows, init, g, now);
      RecordedOk(rows, last, now);
      hide TargetKey, ChargeOps, ChargeCounts, RowsOk;
      SumForConcat(LiveOps(rows, init), ChargeOps(Recorded(rows, last), last.failed), TargetKey(g, now));
      ChargeSum(Recorded(rows, last), g, now, last.failed);
    }
  }

  /** Within one day or month of a row the counter it opened has not expired. */
  lemma WithinLifetime(kind: Kind, at: Instant, now: Instant)
    requires ValidInstant(at) && ValidInstant(now) && Millis(at) <= Millis(now) && SameWindow(kind, at.date, now.date)
    ensures Millis(now) <= Millis(at) + Ttl(kind)
  {
    assert DayNumber(now.date) - DayNumber(at.date) == now.date.day - at.date.day;
  }

  lemma {:induction false} LiveInWindow(rows: seq<Posting>, uses: seq<Usage>, g: Target, now: Instant)
    requires ValidInstant(now) && RowsOk(rows) && UsesOk(rows, uses, now) && TargetOk(g)
    ensures InWindow(LiveOps(rows, uses), TargetKey(g, now), Millis(now))
  {
    if uses != [] {
      var last := uses[|uses| - 1];
      LiveInWindow(rows, uses[..|uses| - 1], g, now);
      RecordedOk(rows, last, now);
      ChargeInWindow(Recorded(rows, last), g, now, last.failed);
      hide TargetKey, ChargeOps, RowOk;
    }
  }

  lemma ChargeInWindow(c: Charge, g: Target, now: Instant, failed: set<Kind>)
    requires ValidInstant(now) && ChargeOk(c, now) && TargetOk(g)
    ensures InWindow(ChargeOps(c, failed), TargetKey(g, now), Millis(now))
  {
    hide Key, TargetKey;
    forall kind ensures Key(c.user, c.txType, c.currency, kind, c.at.date) == TargetKey(g, now) ==>
                          Millis(c.at) <= Millis(now) <= Millis(c.at) + Ttl(kind)
    {
      KeyOfCharge(c, g, now, kind);
      if kind == g.kind && ChargeCounts(c, g, now) {
        WithinLifetime(kind, c.at, now);
      }
    }
  }

  // ----- The reseed side -----

  /** The query's half-open window holds exactly the rows of the current day or month. */
  lemma WindowIsCurrent(kind: Kind, at: Instant, now: Instant)
    requires ValidInstant(at) && ValidInstant(now)
    ensures WindowStart(kind.MonthlyAmount?, now) <= Millis(at) < WindowEnd(kind.MonthlyAmount?, now) <==>
            SameWindow(kind, at.date, now.date)
  {
    if kind.MonthlyAmount? {
      MonthIsWindow(at, now);
    } else {
      DayNumberOrders(at.date, now.date);
    }
  }

  lemma MonthIsWindow(at: Instant, now: Instant)
    requires ValidInstant(at) && ValidInstant(now)
    ensures WindowStart(true, now) <= Millis(at) < WindowEnd(true, now) <==>
            at.date.year == now.date.year && at.date.month == now.date.month
  {
    var first := FirstOfMonth(now.date);
    var next := FirstOfNextMonth(first);
    assert WindowStart(true, now) <= Millis(at) <==> DayNumber(first) <= DayNumber(at.date);
    assert Millis(at) < WindowEnd(true, now) <==> DayNumber(at.date) < DayNumber(next);
    hide DayNumber, Millis, WindowStart, WindowEnd;
    DayNumberOrders(at.date, first);
    DayNumberOrders(at.date, next);
  }

  ghost predicate GroupMatches(grp: Group, g: Target) {
    grp.owner == g.user && SameCurrency(TrimSpace(grp.currency), g.currency)
  }

  /** The groups that merge into one counter, summed. */
  ghost function MergedTotal(rows: seq<Posting>, now: Instant, groups: seq<Group>, g: Target): int
    requires ValidInstant(now) && forall i :: 0 <= i < |rows| ==> ValidInstant(rows[i].at)
  {
    if groups == [] then 0
    else
      var grp := groups[|groups| - 1];
      MergedTotal(rows, now, groups[..|groups| - 1], g)
      + (if GroupMatches(grp, g) then GroupTotal(rows, g.txType, g.kind.MonthlyAmount?, now, grp, g.kind) else 0)
  }

  lemma WriteSum(rows: seq<Posting>, txType: string, monthly: bool, now: Instant, grp: Group, kind: Kind, g: Target)
    requires ValidInstant(now) && forall i :: 0 <= i < |rows| ==> ValidInstant(rows[i].at)
    requires Plain(grp.owner) && Plain(TrimSpace(grp.currency)) && Plain(txType) && TargetOk(g)
    ensures SumFor([WriteOp(rows, txType, monthly, now, grp, kind)], TargetKey(g, now)) ==
            (if txType == g.txType && kind == g.kind && GroupMatches(grp, g)
             then GroupTotal(rows, txType, monthly, now, grp, kind) else 0)
  {
    hide Key, GroupTotal;
    SumForOne(WriteOp(rows, txType, monthly, now, grp, kind), TargetKey(g, now));
    KeyNamesWindow(grp.owner, txType, TrimSpace(grp.currency), kind, now.date, g.user, g.txType, g.currency, g.kind,
        now.date);
  }

  /** One window's writes reach the counter only for its own type and kind. */
  lemma {:induction false} WindowSum(rows: seq<Posting>, txType: string, monthly: bool, now: Instant,
                                     groups: seq<Group>, g: Target)
    requires ValidInstant(now) && forall i :: 0 <= i < |rows| ==> ValidInstant(rows[i].at)
    requires forall i :: 0 <= i < |groups| ==> Plain(groups[i].owner) && Plain(TrimSpace(groups[i].currency))
    requires Plain(txType) && TargetOk(g)
    ensures SumFor(WindowOps(rows, txType, monthly, now, groups), TargetKey(g, now)) ==
            (if txType == g.txType && monthly == g.kind.MonthlyAmount? then MergedTotal(rows, now, groups, g) else 0)
  {
    if groups != [] {
      var init, grp := groups[..|groups| - 1], groups[|groups| - 1];
      WindowSum(rows, txType, monthly, now, init, g);
      assert Plain(grp.owner) && Plain(TrimSpace(grp.currency));
      var key := TargetKey(g, now);
      hide TargetKey, GroupTotal, GroupMatches, Plain;
      var done := WindowOps(rows, txType, monthly, now, init);
      if monthly {
        SumForConcat(done, [WriteOp(rows, txType, true, now, grp, MonthlyAmount)], key);
        WriteSum(rows, txType, true, now, grp, MonthlyAmount, g);
      } else {
        var a := WriteOp(rows, txType, false, now, grp, DailyAmount);
        var c := WriteOp(rows, txType, false, now, grp, DailyCount);
        assert [a, c] == [a] + [c];
        SumForConcat([a], [c], key);
        SumForConcat(done, [a, c], key);
        WriteSum(rows, txType, false, now, grp, DailyAmount, g);
        WriteSum(rows, txType, false, now, grp, DailyCount, g);
      }
    } else {
      assert SumFor([], TargetKey(g, now)) == 0;
    }
  }

  /** Adding a selected row adds its weight to exactly one group. */
  lemma {:induction false} RowJoinsOneGroup(rows: seq<Posting>, now: Instant, groups: seq<Group>, g: Target)
    requires ValidInstant(now) && rows != [] && forall i :: 0 <= i < |rows| ==> ValidInstant(rows[i].at)
    requires forall i, j :: 0 <= i < j < |groups| ==> groups[i] != groups[j]
    ensures var last := rows[|rows| - 1];
            var counted := Selected(last, g.txType, g.kind.MonthlyAmount?, now) && GroupOf(last) in groups
                && GroupMatches(GroupOf(last), g);
            MergedTotal(rows, now, groups, g) ==
            MergedTotal(rows[..|rows| - 1], now, groups, g) + (if counted then Weight(g.kind, last.amount) else 0)
  {
    if groups != [] {
      RowJoinsOneGroup(rows, now, groups[..|groups| - 1], g);
      hide Selected, GroupMatches;
      assert groups == groups[..|groups| - 1] + [groups[|groups| - 1]];
    }
  }

  lemma SelectedCounts(p: Posting, g: Target, now: Instant)
    requires ValidInstant(now) && ValidInstant(p.at)
    ensures Selected(p, g.txType, g.kind.MonthlyAmount?, now) && GroupMatches(GroupOf(p), g) <==>
            p.status.Posted? && CountsFor(p, g, now)
  {
    hide WindowStart, WindowEnd, Millis;
    WindowIsCurrent(g.kind, p.at, now);
  }

  /** Summing the groups is summing the rows, whatever the order of the groups. */
  lemma {:induction false} GroupsSumRows(rows: seq<Posting>, now: Instant, groups: seq<Group>, g: Target)
    requires ValidInstant(now) && forall i :: 0 <= i < |rows| ==> ValidInstant(rows[i].at)
    requires forall i, j :: 0 <= i < j < |groups| ==> groups[i] != groups[j]
    requires forall i :: 0 <= i < |rows| && Selected(rows[i], g.txType, g.kind.MonthlyAmount?, now) ==>
        GroupOf(rows[i]) in groups
    ensures MergedTotal(rows, now, groups, g) == WindowTotal(rows, g, now, Posted)
  {
    hide Selected, CountsFor, GroupMatches;
    if rows != [] {
      GroupsSumRows(rows[..|rows| - 1], now, groups, g);
      RowJoinsOneGroup(rows, now, groups, g);
      SelectedCounts(rows[|rows| - 1], g, now);
    } else {
      NothingMerges(now, groups, g);
    }
  }

  lemma {:induction false} NothingMerges(now: Instant, groups: seq<Group>, g: Target)
    requires ValidInstant(now)
    ensures MergedTotal([], now, groups, g) == 0
  {
    if groups != [] {
      NothingMerges(now, groups[..|groups| - 1], g);
    }
  }

  /** Both query results for one type are well named and complete. */
  ghost predicate ResultOk(rows: seq<Posting>, now: Instant, r: Results)
    requires ValidInstant(now) && forall i :: 0 <= i < |rows| ==> ValidInstant(rows[i].at)
  {
    && Plain(r.txType)
    && IsGrouping(rows, r.txType, false, now, r.daily)
    && IsGrouping(rows, r.txType, true, now, r.monthly)
  }

  lemma GroupsArePlain(rows: seq<Posting>, txType: string, monthly: bool, now: Instant, groups: seq<Group>)
    requires ValidInstant(now) && RowsOk(rows) && IsGrouping(rows, txType, monthly, now, groups)
    ensures forall i :: 0 <= i < |groups| ==> Plain(groups[i].owner) && Plain(TrimSpace(groups[i].currency))
  {
    hide TrimSpace, WindowStart, WindowEnd, Millis;
    forall i | 0 <= i < |groups| ensures Plain(groups[i].owner) && Plain(TrimSpace(groups[i].currency)) {
      assert groups[i] in groups;
      var j :| 0 <= j < |rows| && Selected(rows[j], txType, monthly, now) && GroupOf(rows[j]) == groups[i];
      assert RowOk(rows[j]);
    }
  }

  lemma WindowWrites(rows: seq<Posting>, txType: string, monthly: bool, now: Instant, groups: seq<Group>, g: Target)
    requires ValidInstant(now) && RowsOk(rows) && IsGrouping(rows, txType, monthly, now, groups)
    requires Plain(txType) && TargetOk(g)
    ensures SumFor(WindowOps(rows, txType, monthly, now, groups), TargetKey(g, now)) ==
            (if txType == g.txType && monthly == g.kind.MonthlyAmount? then WindowTotal(rows, g, now, Posted) else 0)
  {
    hide Selected, TargetKey, WindowOps, Plain;
    GroupsArePlain(rows, txType, monthly, now, groups);
    WindowSum(rows, txType, monthly, now, groups, g);
    if txType == g.txType && monthly == g.kind.MonthlyAmount? {
      GroupsSumRows(rows, now, groups, g);
    }
  }

  /** All writes of the walk to one counter amount to its posted rows, once. */
  lemma {:induction false} ReseedSum(rows: seq<Posting>, now: Instant, results: seq<Results>, g: Target)
    requires ValidInstant(now) && RowsOk(rows) && TargetOk(g)
    requires forall i :: 0 <= i < |results| ==> ResultOk(rows, now, results[i])
    requires forall i, j :: 0 <= i < j < |results| ==> results[i].txType != results[j].txType
    ensures SumFor(ReseedOps(rows, now, results), TargetKey(g, now)) ==
            (if exists i :: 0 <= i < |results| && results[i].txType == g.txType
             then WindowTotal(rows, g, now, Posted) else 0)
  {
    hide WindowOps, TargetKey, WindowTotal, TargetOk, IsGrouping, RowOk;
    if results != [] {
      var init, r := results[..|results| - 1], results[|results| - 1];
      ReseedSum(rows, now, init, g);
      assert ResultOk(rows, now, r);
      var daily := WindowOps(rows, r.txType, false, now, r.daily);
      var monthly := WindowOps(rows, r.txType, true, now, r.monthly);
      SumForConcat(daily, monthly, TargetKey(g, now));
      SumForConcat(ReseedOps(rows, now, init), daily + monthly, TargetKey(g, now));
      WindowWrites(rows, r.txType, false, now, r.daily, g);
      WindowWrites(rows, r.txType, true, now, r.monthly, g);
      assert r.txType == g.txType ==> forall i :: 0 <= i < |init| ==> init[i].txType != g.txType;
      assert (exists i :: 0 <= i < |results| && results[i].txType == g.txType) <==>
             (r.txType == g.txType || exists i :: 0 <= i < |init| && init[i].txType == g.txType);
    } else {
      assert SumFor([], TargetKey(g, now)) == 0;
    }
  }

  ghost predicate AllAt(ops: seq<Counter.Op>, now: int) {
    forall i :: 0 <= i < |ops| ==> ops[i].Incr? && ops[i].now == now && ops[i].ttl >= 0
  }

  lemma {:induction false} WindowOpsNow(rows: seq<Posting>, txType: string, monthly: bool, now: Instant,
                                        groups: seq<Group>)
    requires ValidInstant(now) && forall i :: 0 <= i < |rows| ==> ValidInstant(rows[i].at)
    ensures AllAt(WindowOps(rows, txType, monthly, now, groups), Millis(now))
  {
    hide GroupTotal, Key, Millis;
    if groups != [] {
      WindowOpsNow(rows, txType, monthly, now, groups[..|groups| - 1]);
    }
  }

  lemma {:induction false} ReseedOpsNow(rows: seq<Posting>, now: Instant, results: seq<Results>)
    requires ValidInstant(now) && forall i :: 0 <= i < |rows| ==> ValidInstant(rows[i].at)
    ensures AllAt(ReseedOps(rows, now, results), Millis(now))
  {
    hide WindowOps;
    if results != [] {
      var r := results[|results| - 1];
      ReseedOpsNow(rows, now, results[..|results| - 1]);
      WindowOpsNow(rows, r.txType, false, now, r.daily);
      WindowOpsNow(rows, r.txType, true, now, r.monthly);
    }
  }

  lemma ReachableIsPlain(txType: string)
    requires txType in REACHABLE
    ensures Plain(txType)
  {
    assert Plain("transfer_p2p") && Plain("transfer_pocket") && Plain("withdraw_initiate") && Plain("escrow_hold");
  }

  ghost function LiveTotal(rows: seq<Posting>, uses: seq<Usage>, g: Target, now: Instant): int
    requires ValidInstant(now) && forall i :: 0 <= i < |uses| ==> Names(rows, uses[i])
  {
    Counter.Total(RunOn(map[], LiveOps(rows, uses)), TargetKey(g, now), Millis(now))
  }

  ghost function ReseededTotal(rows: seq<Posting>, results: seq<Results>, g: Target, now: Instant): int
    requires ValidInstant(now) && forall i :: 0 <= i < |rows| ==> ValidInstant(rows[i].at)
  {
    Counter.Total(RunOn(map[], ReseedOps(rows, now, results)), TargetKey(g, now), Millis(now))
  }

  lemma LiveShowsUsage(rows: seq<Posting>, uses: seq<Usage>, g: Target, now: Instant)
    requires ValidInstant(now) && RowsOk(rows) && UsesOk(rows, uses, now) && TargetOk(g)
    ensures LiveTotal(rows, uses, g, now) == UsageTotal(rows, uses, g, now)
  {
    hide TargetKey, LiveOps, RowOk;
    LiveInWindow(rows, uses, g, now);
    TotalIsSum(LiveOps(rows, uses), TargetKey(g, now), Millis(now));
    LiveSum(rows, uses, g, now);
  }

  /** What the reseed can know of the window: its posted rows, if it walks their type. */
  ghost function Expected(rows: seq<Posting>, g: Target, now: Instant): int {
    if g.txType in REACHABLE then WindowTotal(rows, g, now, Posted) else 0
  }

  /** Writes made at one moment add their sum to whatever the counter showed. */
  lemma {:induction false} AddsAtOnce(values: Counter.Values, ops: seq<Counter.Op>, key: string, now: int)
    requires AllAt(ops, now)
    ensures Counter.Total(RunOn(values, ops), key, now) == Counter.Total(values, key, now) + SumFor(ops, key)
  {
    if ops != [] {
      AddsAtOnce(values, ops[..|ops| - 1], key, now);
    }
  }

  /** On any counters the reseed adds what it can know of the window; only on empty ones it sets it. */
  lemma ReseedAdds(values: Counter.Values, rows: seq<Posting>, results: seq<Results>, g: Target, now: Instant)
    requires ValidInstant(now) && RowsOk(rows) && TargetOk(g) && IsWalk(rows, now, results)
    ensures Counter.Total(RunOn(values, ReseedOps(rows, now, results)), TargetKey(g, now), Millis(now)) ==
            Counter.Total(values, TargetKey(g, now), Millis(now)) + Expected(rows, g, now)
  {
    hide TargetKey, ReseedOps, IsGrouping, WindowTotal, Plain, RowOk;
    forall i | 0 <= i < |results| ensures ResultOk(rows, now, results[i]) {
      assert results[i].txType in REACHABLE;
      ReachableIsPlain(results[i].txType);
    }
    ReseedOpsNow(rows, now, results);
    AddsAtOnce(values, ReseedOps(rows, now, results), TargetKey(g, now), Millis(now));
    ReseedSum(rows, now, results, g);
  }

  lemma ReseedShowsRows(rows: seq<Posting>, results: seq<Results>, g: Target, now: Instant)
    requires ValidInstant(now) && RowsOk(rows) && TargetOk(g) && IsWalk(rows, now, results)
    ensures ReseededTotal(rows, results, g, now) == Expected(rows, g, now)
  {
    hide TargetKey, ReseedOps, Expected, RowsOk, IsWalk;
    ReseedAdds(map[], rows, results, g, now);
  }

  /** A second reseed, say after the first stopped on an error, counts again what the first wrote. */
  lemma RerunAddsAgain(rows: seq<Posting>, results: seq<Results>, again: seq<Results>, g: Target, now: Instant)
    requires ValidInstant(now) && RowsOk(rows) && TargetOk(g) && IsWalk(rows, now, results) && IsWalk(rows, now, again)
    ensures Counter.Total(RunOn(RunOn(map[], ReseedOps(rows, now, results)), ReseedOps(rows, now, again)),
                          TargetKey(g, now), Millis(now)) == 2 * Expected(rows, g, now)
  {
    hide TargetKey, ReseedOps, Expected, RowOk, IsWalk, RunOn;
    ReseedShowsRows(rows, results, g, now);
    ReseedAdds(RunOn(map[], ReseedOps(rows, now, results)), rows, again, g, now);
  }

  /**
   * On empty counters the reseed gives every user, type, currency and current window what the live
   * counters held if and only if the records that fell in the window amount to its posted rows; for a
   * type that is not walked, if and only if they amount to nothing.
   */
  lemma ReseedMatchesLive(rows: seq<Posting>, uses: seq<Usage>, results: seq<Results>, g: Target, now: Instant)
    requires ValidInstant(now) && RowsOk(rows) && UsesOk(rows, uses, now) && TargetOk(g) && IsWalk(rows, now, results)
    ensures ReseededTotal(rows, results, g, now) == LiveTotal(rows, uses, g, now) <==>
            UsageTotal(rows, uses, g, now) == Expected(rows, g, now)
  {
    hide RowsOk, IsWalk, TargetOk, ReseededTotal, LiveTotal, UsageTotal, Expected;
    LiveShowsUsage(rows, uses, g, now);
    ReseedShowsRows(rows, results, g, now);
  }

  // ----- The same, row by row -----

  /** What the records of row i put into the counter's window. */
  ghost function RowRecorded(rows: seq<Posting>, uses: seq<Usage>, i: nat, g: Target, now: Instant): int
    requires forall j :: 0 <= j < |uses| ==> Names(rows, uses[j])
  {
    if uses == [] then 0
    else
      var last := uses[|uses| - 1];
      RowRecorded(rows, uses[..|uses| - 1], i, g, now)
      + (if last.row == i && UsageCounts(rows, last, g, now) then Weight(g.kind, rows[last.row].amount) else 0)
  }

  ghost function RowPosted(p: Posting, g: Target, now: Instant): int {
    if g.txType in REACHABLE && p.status.Posted? && CountsFor(p, g, now) then Weight(g.kind, p.amount) else 0
  }

  /** By how much the live counter is ahead of the first n rows. */
  ghost function Drift(rows: seq<Posting>, uses: seq<Usage>, g: Target, now: Instant, n: nat): int
    requires n <= |rows| && forall j :: 0 <= j < |uses| ==> Names(rows, uses[j])
  {
    if n == 0 then 0
    else Drift(rows, uses, g, now, n - 1) + RowRecorded(rows, uses, n - 1, g, now) - RowPosted(rows[n - 1], g, now)
  }

  lemma {:induction false} NoUsageDrift(rows: seq<Posting>, g: Target, now: Instant, n: nat)
    requires n <= |rows|
    ensures Drift(rows, [], g, now, n) == -Expected(rows[..n], g, now)
  {
    hide CountsFor;
    if n > 0 {
      NoUsageDrift(rows, g, now, n - 1);
      assert rows[..n][..n - 1] == rows[..n - 1];
    }
  }

  /** One more record moves the drift of the rows up to its own by its weight. */
  lemma {:induction false} UsageMovesDrift(rows: seq<Posting>, uses: seq<Usage>, g: Target, now: Instant, n: nat)
    requires n <= |rows| && uses != [] && forall j :: 0 <= j < |uses| ==> Names(rows, uses[j])
    ensures var last := uses[|uses| - 1];
            Drift(rows, uses, g, now, n) == Drift(rows, uses[..|uses| - 1], g, now, n)
            + (if last.row < n && UsageCounts(rows, last, g, now) then Weight(g.kind, rows[last.row].amount) else 0)
  {
    hide UsageCounts, RowPosted;
    if n > 0 {
      UsageMovesDrift(rows, uses, g, now, n - 1);
    }
  }

  lemma {:induction false} DriftIsDifference(rows: seq<Posting>, uses: seq<Usage>, g: Target, now: Instant)
    requires forall j :: 0 <= j < |uses| ==> Names(rows, uses[j])
    ensures Drift(rows, uses, g, now, |rows|) == UsageTotal(rows, uses, g, now) - Expected(rows, g, now)
  {
    hide UsageCounts, Drift, Expected;
    if uses == [] {
      NoUsageDrift(rows, g, now, |rows|);
      assert rows[..|rows|] == rows;
    } else {
      DriftIsDifference(rows, uses[..|uses| - 1], g, now);
      UsageMovesDrift(rows, uses, g, now, |rows|);
      assert Names(rows, uses[|uses| - 1]);
    }
  }

  lemma {:induction false} DriftNotNegative(rows: seq<Posting>, uses: seq<Usage>, g: Target, now: Instant, n: nat)
    requires n <= |rows| && forall j :: 0 <= j < |uses| ==> Names(rows, uses[j])
    requires forall i :: 0 <= i < |rows| ==> RowRecorded(rows, uses, i, g, now) >= RowPosted(rows[i], g, now)
    ensures Drift(rows, uses, g, now, n) >= 0
    ensures Drift(rows, uses, g, now, n) == 0 <==>
            forall i :: 0 <= i < n ==> RowRecorded(rows, uses, i, g, now) == RowPosted(rows[i], g, now)
  {
    hide RowRecorded, RowPosted;
    if n > 0 {
      DriftNotNegative(rows, uses, g, now, n - 1);
    }
  }

  /**
   * The live counter is ahead of the rebuilt one by the sum, over the rows, of what was recorded for the
   * row less what it posted. If no posted row's record was lost or fell outside the window, the counters
   * are equal exactly when every row was recorded in the window once if it is still posted in it, else never.
   */
  lemma ExactRowByRow(rows: seq<Posting>, uses: seq<Usage>, results: seq<Results>, g: Target, now: Instant)
    requires ValidInstant(now) && RowsOk(rows) && UsesOk(rows, uses, now) && TargetOk(g) && IsWalk(rows, now, results)
    ensures LiveTotal(rows, uses, g, now) - ReseededTotal(rows, results, g, now) == Drift(rows, uses, g, now, |rows|)
    ensures (forall i :: 0 <= i < |rows| ==> RowRecorded(rows, uses, i, g, now) >= RowPosted(rows[i], g, now)) ==>
              (ReseededTotal(rows, results, g, now) == LiveTotal(rows, uses, g, now) <==>
               forall i :: 0 <= i < |rows| ==> RowRecorded(rows, uses, i, g, now) == RowPosted(rows[i], g, now))
  {
    hide RowsOk, IsWalk, TargetOk, ReseededTotal, LiveTotal, UsageTotal, Expected, Drift, RowRecorded, RowPosted;
    LiveShowsUsage(rows, uses, g, now);
    ReseedShowsRows(rows, results, g, now);
    DriftIsDifference(rows, uses, g, now);
    if forall i :: 0 <= i < |rows| ==> RowRecorded(rows, uses, i, g, now) >= RowPosted(rows[i], g, now) {
      DriftNotNegative(rows, uses, g, now, |rows|);
    }
  }

  // ----- Six ways to part, from one row -----

  lemma ExpectedOfOne(p: Posting, g: Target, now: Instant)
    ensures Expected([p], g, now) == RowPosted(p, g, now)
  {
    hide CountsFor;
    var rows := [p];
    assert rows[..|rows| - 1] == [];
    assert WindowTotal(rows, g, now, Posted) ==
           0 + (if p.status == Posted && CountsFor(p, g, now) then Weight(g.kind, p.amount) else 0);
  }

  lemma OneRow(p: Posting, uses: seq<Usage>, results: seq<Results>, g: Target, now: Instant)
    requires ValidInstant(now) && RowOk(p) && UsesOk([p], uses, now) && TargetOk(g) && IsWalk([p], now, results)
    ensures LiveTotal([p], uses, g, now) == UsageTotal([p], uses, g, now)
    ensures ReseededTotal([p], results, g, now) == RowPosted(p, g, now)
  {
    assert RowsOk([p]);
    hide RowsOk, RowOk, IsWalk, TargetOk, ReseededTotal, LiveTotal, UsageTotal, UsesOk, Expected, RowPosted;
    LiveShowsUsage([p], uses, g, now);
    ReseedShowsRows([p], results, g, now);
    ExpectedOfOne(p, g, now);
  }

  ghost predicate OneRowInput(p: Posting, uses: seq<Usage>, results: seq<Results>, g: Target, now: Instant) {
    && ValidInstant(now) && RowOk(p) && UsesOk([p], uses, now) && TargetOk(g) && IsWalk([p], now, results)
    && forall i :: 0 <= i < |uses| ==> ChargeCounts(Recorded([p], uses[i]), g, now)
  }

  /** A reversal takes the row from the query, not its record from the counter. */
  lemma ReversalLeavesLiveAhead(p: Posting, u: Usage, results: seq<Results>, g: Target, now: Instant)
    requires OneRowInput(p, [u], results, g, now) && p.status.Reversed? && u.failed == {}
    ensures LiveTotal([p], [u], g, now) == Weight(g.kind, p.amount) > 0 == ReseededTotal([p], results, g, now)
  {
    hide RowsOk, IsWalk, TargetOk, ReseededTotal, LiveTotal;
    OneRow(p, [u], results, g, now);
    assert Names([p], u) && [u][..0] == [];
  }

  /** A request retried after it posted is recorded again; the ledger still has one row. */
  lemma ReplayLeavesLiveAhead(p: Posting, u: Usage, v: Usage, results: seq<Results>, g: Target, now: Instant)
    requires OneRowInput(p, [u, v], results, g, now) && p.status.Posted? && CountsFor(p, g, now)
    requires p.txType in REACHABLE && u.failed == {} && v.failed == {}
    ensures LiveTotal([p], [u, v], g, now) == 2 * Weight(g.kind, p.amount)
    ensures ReseededTotal([p], results, g, now) == Weight(g.kind, p.amount) > 0
  {
    hide RowsOk, IsWalk, TargetOk, ReseededTotal, LiveTotal;
    OneRow(p, [u, v], results, g, now);
    assert [u, v][..1] == [u] && [u][..0] == [];
    assert Names([p], [u, v][0]) && Names([p], [u, v][1]);
    assert ChargeCounts(Recorded([p], [u, v][0]), g, now) && ChargeCounts(Recorded([p], [u, v][1]), g, now);
    assert UsageTotal([p], [u], g, now) == Weight(g.kind, p.amount);
  }

  /** One transfer of 5 on 2 January 2024, retried a second later: 10 live, 5 rebuilt. */
  lemma RetriedTransfer() returns (p: Posting, uses: seq<Usage>, results: seq<Results>, g: Target, now: Instant)
    ensures OneRowInput(p, uses, results, g, now)
    ensures LiveTotal([p], uses, g, now) == 10 && ReseededTotal([p], results, g, now) == 5
  {
    var at := Instant(Date(2024, 1, 2), 0);
    now := Instant(Date(2024, 1, 2), 1000);
    p := Posting(Some("u"), "transfer_p2p", "", 5, at, Posted);
    g := Target("u", "transfer_p2p", "", DailyAmount);
    var u, v := Usage(0, "u", "", at, {}), Usage(0, "u", "", now, {});
    uses := [u, v];
    assert TrimSpace("") == "";
    hide IsWalk, TrimSpace;
    results := WalkExists([p], now);
    assert forall i :: 0 <= i < |uses| ==> uses[i] == u || uses[i] == v;
    assert Plain("transfer_p2p") && Plain("u") && Plain("");
    hide LiveTotal, ReseededTotal;
    ReplayLeavesLiveAhead(p, u, v, results, g, now);
  }

  /** A row created before midnight and recorded after it counts today live and yesterday in the ledger. */
  lemma LateRecordLeavesLiveAhead(p: Posting, u: Usage, results: seq<Results>, g: Target, now: Instant)
    requires OneRowInput(p, [u], results, g, now) && p.status.Posted? && u.failed == {}
    requires !SameWindow(g.kind, p.at.date, now.date)
    ensures LiveTotal([p], [u], g, now) == Weight(g.kind, p.amount) > 0 == ReseededTotal([p], results, g, now)
  {
    hide RowsOk, IsWalk, TargetOk, ReseededTotal, LiveTotal;
    OneRow(p, [u], results, g, now);
    assert Names([p], u) && [u][..0] == [];
  }

  /** An increment that failed is missing live and restored by the reseed. */
  lemma LostIncrementLeavesLiveBehind(p: Posting, u: Usage, results: seq<Results>, g: Target, now: Instant)
    requires OneRowInput(p, [u], results, g, now) && p.status.Posted? && CountsFor(p, g, now)
    requires p.txType in REACHABLE && g.kind in u.failed
    ensures LiveTotal([p], [u], g, now) == 0 < Weight(g.kind, p.amount) == ReseededTotal([p], results, g, now)
  {
    hide RowsOk, IsWalk, TargetOk, ReseededTotal, LiveTotal;
    OneRow(p, [u], results, g, now);
    assert Names([p], u) && [u][..0] == [];
  }

  /** A type that is recorded but not walked is lost: a top-up counts live and is not rebuilt. */
  lemma UnwalkedTypeIsNotRebuilt(p: Posting, u: Usage, results: seq<Results>, g: Target, now: Instant)
    requires OneRowInput(p, [u], results, g, now) && p.txType !in REACHABLE && u.failed == {}
    ensures LiveTotal([p], [u], g, now) == Weight(g.kind, p.amount) > 0 == ReseededTotal([p], results, g, now)
  {
    hide RowsOk, IsWalk, TargetOk, ReseededTotal, LiveTotal;
    OneRow(p, [u], results, g, now);
    assert Names([p], u) && [u][..0] == [];
  }

  /**
   * A record that names no currency counts as IDR; the row has its account's. So the amount is live in
   * one counter and rebuilt in another.
   */
  lemma CurrencyMovesCounter(p: Posting, u: Usage, results: seq<Results>, live: Target, rebuilt: Target, now: Instant)
    requires OneRowInput(p, [u], results, live, now) && TargetOk(rebuilt) && rebuilt.kind == live.kind
    requires p.status.Posted? && p.txType in REACHABLE && u.failed == {} && CountsFor(p, rebuilt, now)
    requires IsDefaultCurrency(u.currency) && !IsDefaultCurrency(Currency(p))
    ensures LiveTotal([p], [u], live, now) == Weight(live.kind, p.amount) > 0 == ReseededTotal([p], results, live, now)
    ensures ReseededTotal([p], results, rebuilt, now) == Weight(live.kind, p.amount) > 0 ==
        LiveTotal([p], [u], rebuilt, now)
  {
    hide RowsOk, IsWalk, TargetOk, ReseededTotal, LiveTotal;
    OneRow(p, [u], results, live, now);
    OneRow(p, [u], results, rebuilt, now);
    assert Names([p], u) && [u][..0] == [];
    assert ChargeCounts(Recorded([p], [u][0]), live, now);
  }

  /** Walking the types or the groups in another order gives the same counters. */
  lemma OrderDoesNotMatter(rows: seq<Posting>, a: seq<Results>, b: seq<Results>, g: Target, now: Instant)
    requires ValidInstant(now) && RowsOk(rows) && TargetOk(g) && IsWalk(rows, now, a) && IsWalk(rows, now, b)
    ensures ReseededTotal(rows, a, g, now) == ReseededTotal(rows, b, g, now)
  {
    hide RowsOk, IsWalk, TargetOk, ReseededTotal;
    ReseedShowsRows(rows, a, g, now);
    ReseedShowsRows(rows, b, g, now);
  }

  // ----- What Check reads -----

  /** Records of one user, type and currency, as the overshoot model keeps them. */
  function SpendsOf(rows: seq<Posting>, uses: seq<Usage>): (r: seq<PolicyCaps.Spend>)
    requires forall i :: 0 <= i < |uses| ==> Names(rows, uses[i])
    ensures |r| == |uses|
  {
    if uses == [] then []
    else
      var last := uses[|uses| - 1];
      SpendsOf(rows, uses[..|uses| - 1]) + [PolicyCaps.Spend(Recorded(rows, last).amount, last.at.date)]
  }

  /** Every record is for the counter and all of its increments took effect. */
  ghost predicate AllOf(rows: seq<Posting>, uses: seq<Usage>, g: Target)
    requires forall i :: 0 <= i < |uses| ==> Names(rows, uses[i])
  {
    forall i :: 0 <= i < |uses| ==>
      var c := Recorded(rows, uses[i]);
      c.user == g.user && c.txType == g.txType && SameCurrency(c.currency, g.currency) && uses[i].failed == {}
  }

  lemma {:induction false} UsedIsUsage(rows: seq<Posting>, uses: seq<Usage>, g: Target, now: Instant)
    requires forall i :: 0 <= i < |uses| ==> Names(rows, uses[i])
    requires AllOf(rows, uses, g)
    ensures PolicyCaps.Used(SpendsOf(rows, uses), g.kind, now.date) == UsageTotal(rows, uses, g, now)
  {
    if uses != [] {
      var init := uses[..|uses| - 1];
      UsedIsUsage(rows, init, g, now);
      assert SpendsOf(rows, uses)[..|init|] == SpendsOf(rows, init);
    }
  }

  /** The counters Check reads hold exactly the records of the current window. */
  lemma CountersShowSpends(rows: seq<Posting>, uses: seq<Usage>, g: Target, now: Instant)
    requires ValidInstant(now) && RowsOk(rows) && UsesOk(rows, uses, now) && TargetOk(g) && AllOf(rows, uses, g)
    ensures LiveTotal(rows, uses, g, now) == PolicyCaps.Used(SpendsOf(rows, uses), g.kind, now.date)
  {
    hide RowsOk, TargetOk, AllOf, LiveTotal;
    LiveShowsUsage(rows, uses, g, now);
    UsedIsUsage(rows, uses, g, now);
  }
}
