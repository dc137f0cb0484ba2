/**
 * Job leases: the scheduler's lock providers, and executions of one job that take the lock
 * before running and give it back after.
 */
module Lease {
  import opened Options

  /** A lock entry: the instance that set it and when it lapses. */
  datatype Entry = Entry(owner: string, expires: int)

  datatype Provider = Memory | Redis

  predicate Live(lease: Option<Entry>, at: int) {
    lease.Some? && at < lease.value.expires
  }

  /** The job's entry after an attempt to lock. */
  function Taken(lease: Option<Entry>, owner: string, ttl: int, at: int): Option<Entry> {
    if Live(lease, at) then lease else Some(Entry(owner, at + ttl))
  }

  /** The job's entry after an unlock: only Redis asks whose it is. */
  function Freed(p: Provider, lease: Option<Entry>, owner: string, at: int): Option<Entry> {
    if p.Memory? || (Live(lease, at) && lease.value.owner == owner) then None else lease
  }

  /** The job's entry after a tick of the in-memory collector. */
  function Swept(lease: Option<Entry>, at: int): Option<Entry> {
    if lease.Some? && at > lease.value.expires then None else lease
  }

  /** The in-memory map holds the lease, except for its owner. */
  predicate Shows(m: map<string, int>, key: string, lease: Option<Entry>) {
    if lease.Some? then key in m && m[key] == lease.value.expires else key !in m
  }

  /** The in-memory provider keeps when each lease lapses, not who took it. */
  class MemoryLock {
    var m: map<string, int>

    constructor ()
      ensures m == map[]
    {
      m := map[];
    }

    predicate Held(key: string, now: int)
      reads this
    {
      key in m && now < m[key]
    }

    method TryLock(key: string, ttl: int, now: int) returns (ok: bool)
      modifies this
      ensures ok == !old(Held(key, now))
      ensures m == (if ok then old(m)[key := now + ttl] else old(m))
      ensures forall lease, owner :: Shows(old(m), key, lease) ==> Shows(m, key, Taken(lease, owner, ttl, now))
    {
      if key in m && now < m[key] {
        return false;
      }
      m := m[key := now + ttl];
      return true;
    }

    method Unlock(key: string)
      modifies this
      ensures m == old(m) - {key}
      ensures forall lease, owner, now :: Shows(m, key, Freed(Memory, lease, owner, now))
    {
      m := m - {key};
    }

    /** One tick of the collector: exactly the leases past their time go, and none still held. */
    method Collect(now: int)
      modifies this
      ensures m == map k | k in old(m) && now <= old(m)[k] :: old(m)[k]
      ensures forall k :: old(Held(k, now)) ==> Held(k, now) && m[k] == old(m)[k]
      ensures forall k, lease :: Shows(old(m), k, lease) ==> Shows(m, k, Swept(lease, now))
    {
      var left := m.Keys;
      while left != {}
        invariant left <= m.Keys && m.Keys <= old(m).Keys
        invariant forall k :: k in m ==> m[k] == old(m)[k]
        invariant forall k :: k in old(m) && (k in left || now <= old(m)[k]) ==> k in m
        invariant forall k :: k in m && k !in left ==> now <= m[k]
        decreases left
      {
        var k :| k in left;
        if now > m[k] {
          m := m - {k};
        }
        left := left - {k};
      }
    }
  }

  /** The shared Redis keys, used by every instance's RedisLock. */
  class RedisLock {
    var keys: map<string, Entry>

    constructor ()
      ensures keys == map[]
    {
      keys := map[];
    }

    predicate Held(key: string, now: int)
      reads this
    {
      key in keys && now < keys[key].expires
    }

    function Of(key: string): Option<Entry>
      reads this
    {
      if key in keys then Some(keys[key]) else None
    }

    method SetNX(id: string, key: string, ttl: int, now: int) returns (ok: bool)
      modifies this
      ensures ok == !old(Held(key, now))
      ensures keys == (if ok then old(keys)[key := Entry(id, now + ttl)] else old(keys))
      ensures Of(key) == Taken(old(Of(key)), id, ttl, now)
    {
      ok := !(key in keys && now < keys[key].expires);
      if ok {
        keys := keys[key := Entry(id, now + ttl)];
      }
    }

    /** Compare and delete, in one script; an expired key reads as missing. */
    method Unlock(id: string, key: string, now: int)
      modifies this
      ensures keys == (if old(Held(key, now)) && old(keys)[key].owner == id then old(keys) - {key} else old(keys))
      ensures Of(key) == Freed(Redis, old(Of(key)), id, now)
    {
      if key in keys && now < keys[key].expires && keys[key].owner == id {
        keys := keys - {key};
      }
    }
  }

  // ----- Executions of one job -----

  /**
   * lease is the job's entry; running maps each execution in progress to the entry it wrote. late holds
   * the instances that sent an unlock and saw an error: Redis may still run the script, at any time.
   */
  datatype State = State(lease: Option<Entry>, running: map<nat, Entry>, late: set<string>, now: int)

  datatype Event =
    | TryLock(e: nat, owner: string, ttl: int, at: int)
    | LockErrs(owner: string, ttl: int, at: int, written: bool)  // skipped, though the key may be set, now or later
    | Unlock(e: nat, at: int)
    | UnlockErrs(e: nat, at: int)                                // logged; the execution is over
    | LateUnlock(owner: string, at: int)
    | Collect(at: int)

  /** Only calls to Redis err; only memory collects. */
  predicate Enabled(p: Provider, s: State, e: Event) {
    && s.now <= e.at
    && match e
       case TryLock(x, _, _, _) => x !in s.running
       case LockErrs(_, _, _, _) => p.Redis?
       case Unlock(x, _) => x in s.running
       case UnlockErrs(x, _) => p.Redis? && x in s.running
       case LateUnlock(owner, _) => p.Redis? && owner in s.late
       case Collect(_) => p.Memory?
  }

  function Apply(p: Provider, s: State, e: Event): State
    requires Enabled(p, s, e)
  {
    match e
    case TryLock(x, owner, ttl, at) =>
      var running := if Live(s.lease, at) then s.running else s.running[x := Entry(owner, at + ttl)];
      State(Taken(s.lease, owner, ttl, at), running, s.late, at)
    case LockErrs(owner, ttl, at, written) =>
      State(if written then Taken(s.lease, owner, ttl, at) else s.lease, s.running, s.late, at)
    case Unlock(x, at) => State(Freed(p, s.lease, s.running[x].owner, at), s.running - {x}, s.late, at)
    case UnlockErrs(x, at) => State(s.lease, s.running - {x}, s.late + {s.running[x].owner}, at)
    case LateUnlock(owner, at) => State(Freed(p, s.lease, owner, at), s.running, s.late, at)
    case Collect(at) => State(Swept(s.lease, at), s.running, s.late, at)
  }

  ghost predicate IsRun(p: Provider, events: seq<Event>, states: seq<State>) {
    && |states| == |events| + 1
    && states[0].lease == None && states[0].running == map[] && states[0].late == {}
    && forall i :: 0 <= i < |events| ==>
         Enabled(p, states[i], events[i]) && states[i + 1] == Apply(p, states[i], events[i])
  }

  predicate WithinLease(s: State, x: nat) {
    x in s.running && s.now < s.running[x].expires
  }

  // ----- Who takes whose lease -----

  /** An execution whose lease has not run out still has it. */
  ghost predicate LeaseKept(s: State) {
    forall x :: x in s.running && s.now < s.running[x].expires ==> s.lease == Some(s.running[x])
  }

  ghost predicate OneWithinLease(s: State) {
    forall x, y :: WithinLease(s, x) && WithinLease(s, y) ==> x == y
  }

  /** The event unlocks for an execution other than y. */
  predicate UnlocksForOther(s: State, e: Event, y: nat) {
    || (e.Unlock? && e.e in s.running && e.e != y)
    || e.LateUnlock?
  }

  /** In whose name a script unlocks. */
  function Unlocker(s: State, e: Event): string
    requires (e.Unlock? && e.e in s.running) || e.LateUnlock?
  {
    if e.Unlock? then s.running[e.e].owner else e.owner
  }

  /**
   * The event unlocks for another execution, over or not, while y is within its lease, and the provider
   * cannot tell the two apart: memory never can, Redis compares the ids of the instances.
   */
  predicate Robs(p: Provider, s: State, e: Event, y: nat) {
    && y in s.running && e.at < s.running[y].expires
    && UnlocksForOther(s, e, y)
    && (p.Memory? || s.running[y].owner == Unlocker(s, e))
  }

  ghost predicate RobsSomebody(p: Provider, s: State, e: Event) {
    exists y :: Robs(p, s, e, y)
  }

  /** A step takes nobody's lease exactly when it robs nobody. */
  lemma StepKeepsLease(p: Provider, s: State, e: Event)
    requires LeaseKept(s) && Enabled(p, s, e)
    ensures LeaseKept(Apply(p, s, e)) <==> !RobsSomebody(p, s, e)
  {
    assert forall x :: x in s.running && e.at < s.running[x].expires ==> s.lease == Some(s.running[x]);
    var t := Apply(p, s, e);
    if y :| Robs(p, s, e, y) {
      assert y in t.running && t.lease == None;
    } else {
      forall x | x in t.running && t.now < t.running[x].expires ensures t.lease == Some(t.running[x]) {
        assert !Robs(p, s, e, x);
      }
    }
  }

  lemma StepKeepsOneWithin(p: Provider, s: State, e: Event)
    requires LeaseKept(s) && OneWithinLease(s) && Enabled(p, s, e)
    ensures OneWithinLease(Apply(p, s, e))
  {
    var t := Apply(p, s, e);
    assert forall x :: x in s.running && WithinLease(t, x) ==> WithinLease(s, x);
    assert forall x :: x in s.running && e.at < s.running[x].expires ==> Live(s.lease, e.at);
  }

  ghost predicate NobodyRobbed(p: Provider, events: seq<Event>, states: seq<State>, i: nat)
    requires |states| == |events| + 1 && i < |states|
  {
    forall j :: 0 <= j < i ==> !RobsSomebody(p, states[j], events[j])
  }

  /**
   * Over a whole run, with any ids, any errors and scripts as late as they come: every execution keeps
   * its lease until it lapses exactly when no event robs one, and then at most one is within its lease.
   */
  lemma {:induction false} LeasesKeptExactly(p: Provider, events: seq<Event>, states: seq<State>, i: nat)
    requires IsRun(p, events, states) && i < |states|
    ensures (forall j :: 0 <= j <= i ==> LeaseKept(states[j])) <==> NobodyRobbed(p, events, states, i)
    ensures NobodyRobbed(p, events, states, i) ==> OneWithinLease(states[i])
  {
    hide LeaseKept, OneWithinLease, RobsSomebody, Apply, Enabled;
    if i == 0 {
      NothingRuns(states[0]);
    } else {
      LeasesKeptExactly(p, events, states, i - 1);
      assert NobodyRobbed(p, events, states, i) <==>
             NobodyRobbed(p, events, states, i - 1) && !RobsSomebody(p, states[i - 1], events[i - 1]);
      assert (forall j :: 0 <= j <= i ==> LeaseKept(states[j])) <==>
             (forall j :: 0 <= j <= i - 1 ==> LeaseKept(states[j])) && LeaseKept(states[i]);
      if NobodyRobbed(p, events, states, i - 1) {
        assert LeaseKept(states[i - 1]);
        StepKeepsLease(p, states[i - 1], events[i - 1]);
        StepKeepsOneWithin(p, states[i - 1], events[i - 1]);
      }
    }
  }

  lemma NothingRuns(s: State)
    requires s.running == map[]
    ensures LeaseKept(s) && OneWithinLease(s)
  {
  }

  /** After a robbery the very next attempt gets in beside the execution robbed. */
  lemma RobbedAdmitsAnother(p: Provider, s: State, e: Event, y: nat, z: nat, owner: string, ttl: int)
    requires LeaseKept(s) && Enabled(p, s, e) && Robs(p, s, e, y) && z !in s.running && ttl > 0
    ensures var t := Apply(p, s, e);
            && Enabled(p, t, TryLock(z, owner, ttl, e.at))
            && WithinLease(Apply(p, t, TryLock(z, owner, ttl, e.at)), y)
            && WithinLease(Apply(p, t, TryLock(z, owner, ttl, e.at)), z)
  {
    assert y in s.running && s.now < s.running[y].expires;
  }

  // ----- Executions that end within their lease -----

  /** Nothing happens while an execution outlives its lease. */
  ghost predicate Timely(s: State, e: Event) {
    forall x :: x in s.running ==> e.at < s.running[x].expires
  }

  ghost predicate OneHolder(s: State) {
    forall x :: x in s.running ==> s.lease == Some(s.running[x]) && s.running == map[x := s.running[x]]
  }

  lemma TimelyKeepsOneHolder(p: Provider, s: State, e: Event)
    requires OneHolder(s) && Enabled(p, s, e) && Timely(s, e)
    ensures OneHolder(Apply(p, s, e)) <==> !RobsSomebody(p, s, e)
  {
    var t := Apply(p, s, e);
    if y :| Robs(p, s, e, y) {
      assert y in t.running && t.lease == None;
    } else {
      assert forall x :: x in s.running ==> !Robs(p, s, e, x);
      if e.TryLock? {
        assert forall x :: x in s.running ==> Live(s.lease, e.at);
      } else if e.Unlock? || e.UnlockErrs? {
        assert t.running == map[];
      }
    }
  }

  /**
   * If every execution ends before its lease, the one in progress is the holder and the only one, in
   * every state, exactly when no late script robs it: always in memory, which knows no errors.
   */
  lemma {:induction false} AtMostOneRuns(p: Provider, events: seq<Event>, states: seq<State>, i: nat)
    requires IsRun(p, events, states) && i < |states|
    requires forall j :: 0 <= j < i ==> Timely(states[j], events[j])
    ensures (forall j :: 0 <= j <= i ==> OneHolder(states[j])) <==> NobodyRobbed(p, events, states, i)
    ensures NobodyRobbed(p, events, states, i) ==> |states[i].running| <= 1
    ensures p.Memory? ==> NobodyRobbed(p, events, states, i)
  {
    hide OneHolder, RobsSomebody, Apply, Enabled, Timely;
    if i == 0 {
      NobodyHolds(states[0]);
    } else {
      AtMostOneRuns(p, events, states, i - 1);
      assert NobodyRobbed(p, events, states, i) <==>
             NobodyRobbed(p, events, states, i - 1) && !RobsSomebody(p, states[i - 1], events[i - 1]);
      assert (forall j :: 0 <= j <= i ==> OneHolder(states[j])) <==>
             (forall j :: 0 <= j <= i - 1 ==> OneHolder(states[j])) && OneHolder(states[i]);
      if NobodyRobbed(p, events, states, i - 1) {
        assert OneHolder(states[i - 1]);
        TimelyKeepsOneHolder(p, states[i - 1], events[i - 1]);
        MemoryHolderIsSafe(p, states[i - 1], events[i - 1]);
      }
    }
    if NobodyRobbed(p, events, states, i) {
      assert OneHolder(states[i]);
      HolderIsAlone(states[i]);
    }
  }

  lemma NobodyHolds(s: State)
    requires s.running == map[]
    ensures OneHolder(s)
  {
  }

  lemma HolderIsAlone(s: State)
    requires OneHolder(s)
    ensures |s.running| <= 1
  {
    if s.running != map[] {
      var x :| x in s.running;
      assert s.running.Keys == {x};
    }
  }

  lemma MemoryHolderIsSafe(p: Provider, s: State, e: Event)
    requires OneHolder(s) && Enabled(p, s, e)
    ensures p.Memory? ==> !RobsSomebody(p, s, e)
  {
    assert forall x, y :: x in s.running && y in s.running ==> x == y;
  }

  // ----- Getting in -----

  /** The event stored this entry: the attempt's id, for its time to live. */
  predicate Writes(e: Event, entry: Entry) {
    match e
    case TryLock(_, owner, ttl, at) => entry == Entry(owner, at + ttl)
    case LockErrs(owner, ttl, at, written) => written && entry == Entry(owner, at + ttl)
    case _ => false
  }

  ghost predicate WrittenBefore(events: seq<Event>, i: nat, entry: Entry)
    requires i <= |events|
  {
    exists j: nat :: j < i && Writes(events[j], entry)
  }

  /** The execution got the lock with an attempt of its own, and runs under the entry that attempt stored. */
  ghost predicate Entered(events: seq<Event>, i: nat, x: nat, entry: Entry)
    requires i <= |events|
  {
    exists j: nat :: j < i && events[j].TryLock? && events[j].e == x && Writes(events[j], entry)
  }

  /** No entry is anything but what an attempt stored, in every run. */
  lemma {:induction false} EntriesWereWritten(p: Provider, events: seq<Event>, states: seq<State>, i: nat)
    requires IsRun(p, events, states) && i < |states|
    ensures states[i].lease.Some? ==> WrittenBefore(events, i, states[i].lease.value)
    ensures forall x :: x in states[i].running ==> Entered(events, i, x, states[i].running[x])
  {
    if i > 0 {
      EntriesWereWritten(p, events, states, i - 1);
      var s, t, e := states[i - 1], states[i], events[i - 1];
      if t.lease.Some? && t.lease != s.lease {
        assert Writes(e, t.lease.value);
      }
      forall x | x in t.running ensures Entered(events, i, x, t.running[x]) {
        if x in s.running && t.running[x] == s.running[x] {
          assert Entered(events, i - 1, x, t.running[x]);
        } else {
          assert e.TryLock? && e.e == x && Writes(e, t.running[x]);
        }
      }
    }
  }

  /** Every time to live that was asked for is over. */
  predicate LapsedBy(e: Event, at: int) {
    e.TryLock? || e.LockErrs? ==> e.at + e.ttl <= at
  }

  /** A lock nobody gives back blocks no longer than the times to live: then an attempt gets in. */
  lemma LapseLetsIn(p: Provider, events: seq<Event>, states: seq<State>, i: nat)
    requires IsRun(p, events, states) && i < |events| && events[i].TryLock?
    requires forall j :: 0 <= j < i ==> LapsedBy(events[j], events[i].at)
    ensures events[i].e in states[i + 1].running
  {
    EntriesWereWritten(p, events, states, i);
    assert Enabled(p, states[i], events[i]);
  }

  /** An execution that unlocks within its lease lets the next attempt in, whenever and whosever it is. */
  lemma UnlockLetsNextIn(p: Provider, s: State, e: Event, z: nat, owner: string, ttl: int, at: int)
    requires LeaseKept(s) && Enabled(p, s, e) && e.Unlock? && e.at < s.running[e.e].expires
    requires (z !in s.running || z == e.e) && e.at <= at
    ensures Enabled(p, Apply(p, s, e), TryLock(z, owner, ttl, at))
    ensures z in Apply(p, Apply(p, s, e), TryLock(z, owner, ttl, at)).running
  {
    assert s.lease == Some(s.running[e.e]);
  }

  // ----- Instance ids -----

  /** No two executions in progress share an instance id, nor does one share it with a late unlock. */
  ghost predicate IdsApart(s: State) {
    && (forall x, y :: x in s.running && y in s.running && x != y ==> s.running[x].owner != s.running[y].owner)
    && (forall x :: x in s.running ==> s.running[x].owner !in s.late)
  }

  /** Then Redis keeps every lease, however long executions take and however late they unlock. */
  lemma RedisWithIdsApart(events: seq<Event>, states: seq<State>, i: nat)
    requires IsRun(Redis, events, states) && i < |states|
    requires forall j :: 0 <= j < i ==> IdsApart(states[j])
    ensures LeaseKept(states[i]) && OneWithinLease(states[i])
  {
    hide LeaseKept, OneWithinLease, Apply;
    forall j | 0 <= j < i ensures !RobsSomebody(Redis, states[j], events[j]) {
      assert IdsApart(states[j]) && Enabled(Redis, states[j], events[j]);
    }
    LeasesKeptExactly(Redis, events, states, i);
  }

  ghost predicate DistinctOwners(s: State) {
    forall x, y :: x in s.running && y in s.running && x != y ==> s.running[x].owner != s.running[y].owner
  }

  /** In memory a late unlock is not harmless: it drops the next holder's lease and a third gets in. */
  lemma MemoryLateUnlockAdmitsTwo(ttl: int) returns (events: seq<Event>, states: seq<State>)
    requires ttl > 1
    ensures IsRun(Memory, events, states) && |events| == 4
    ensures forall j :: 0 <= j < |states| ==> DistinctOwners(states[j])
    ensures WithinLease(states[4], 1) && WithinLease(states[4], 2)
  {
    events, states := OverdueUnlock(Memory, "a", "b", "c", ttl);
  }

  /** Nor is it with Redis when instances are given one id. */
  lemma RedisSharedIdAdmitsTwo(id: string, ttl: int) returns (events: seq<Event>, states: seq<State>)
    requires ttl > 1
    ensures IsRun(Redis, events, states) && |events| == 4
    ensures WithinLease(states[4], 1) && WithinLease(states[4], 2)
  {
    events, states := OverdueUnlock(Redis, id, id, id, ttl);
  }

  /** The first execution outlives its lease, the second takes over, the first unlocks, a third tries. */
  lemma OverdueUnlock(p: Provider, a: string, b: string, c: string, ttl: int)
    returns (events: seq<Event>, states: seq<State>)
    requires ttl > 1 && (p.Memory? || a == b)
    ensures IsRun(p, events, states) && |events| == 4
    ensures a != b && b != c && a != c ==> forall j :: 0 <= j < |states| ==> DistinctOwners(states[j])
    ensures WithinLease(states[4], 1) && WithinLease(states[4], 2)
  {
    events := [TryLock(0, a, ttl, 0), TryLock(1, b, ttl, ttl), Unlock(0, ttl), TryLock(2, c, ttl, ttl)];
    var s0 := State(None, map[], {}, 0);
    var s1 := Apply(p, s0, events[0]);
    var s2 := Apply(p, s1, events[1]);
    var s3 := Apply(p, s2, events[2]);
    var s4 := Apply(p, s3, events[3]);
    states := [s0, s1, s2, s3, s4];
  }

  /**
   * Executions that end in time and never share an id are not enough: one instance's unlock errs, its
   * next execution takes the lock after the lapse, and the first script then runs.
   */
  lemma LateScriptAdmitsTwo(a: string, b: string, ttl: int) returns (events: seq<Event>, states: seq<State>)
    requires ttl > 1 && a != b
    ensures IsRun(Redis, events, states) && |events| == 5
    ensures forall j :: 0 <= j < |states| ==> DistinctOwners(states[j])
    ensures forall j :: 0 <= j < |events| ==> Timely(states[j], events[j])
    ensures WithinLease(states[5], 1) && WithinLease(states[5], 2)
  {
    events := [TryLock(0, a, ttl, 0), UnlockErrs(0, 0), TryLock(1, a, ttl, ttl), LateUnlock(a, ttl),
        TryLock(2, b, ttl, ttl)];
    var s0 := State(None, map[], {}, 0);
    var s1 := Apply(Redis, s0, events[0]);
    var s2 := Apply(Redis, s1, events[1]);
    var s3 := Apply(Redis, s2, events[2]);
    var s4 := Apply(Redis, s3, events[3]);
    var s5 := Apply(Redis, s4, events[4]);
    states := [s0, s1, s2, s3, s4, s5];
  }
}
