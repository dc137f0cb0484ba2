/** The in-memory TTL counter: a window is anchored to the first write of its key. */
module Counter {
  import opened Options

  datatype Entry = Entry(total: int, expireAt: int)

  type Values = map<string, Entry>

  /** The entry a caller can still see at the given time. */
  function LiveEntry(values: Values, key: string, now: int): Option<Entry> {
    if key in values && now <= values[key].expireAt then Some(values[key]) else None
  }

  function Total(values: Values, key: string, now: int): int {
    match LiveEntry(values, key, now)
    case None => 0
    case Some(e) => e.total
  }

  function Increased(values: Values, key: string, delta: int, ttl: int, now: int): Values {
    match LiveEntry(values, key, now)
    case None => values[key := Entry(delta, now + ttl)]
    case Some(e) => values[key := e.(total := e.total + delta)]
  }

  function Collected(values: Values, now: int): Values {
    map k | k in values && now <= values[k].expireAt :: values[k]
  }

  class MemoryCounter {
    var values: Values

    constructor ()
      ensures values == map[]
    {
      values := map[];
    }

    method IncrBy(key: string, delta: int, ttl: int, now: int) returns (total: int)
      modifies this
      ensures values == Increased(old(values), key, delta, ttl, now)
      ensures total == Total(old(values), key, now) + delta
    {
      var e := if key !in values || now > values[key].expireAt then Entry(0, now + ttl) else values[key];
      e := e.(total := e.total + delta);
      values := values[key := e];
      total := e.total;
    }

    method Get(key: string, now: int) returns (total: int)
      ensures total == Total(values, key, now)
    {
      if key !in values || now > values[key].expireAt {
        return 0;
      }
      total := values[key].total;
    }

    /** One tick of the collector, in whatever order the map is walked. */
    method Collect(now: int)
      modifies this
      ensures values == Collected(old(values), now)
    {
      var left := values.Keys;
      while left != {}
        invariant left <= values.Keys && values.Keys <= old(values).Keys
        invariant forall k :: k in values ==> values[k] == old(values)[k]
        invariant forall k :: k in old(values) && (k in left || now <= old(values)[k].expireAt) ==> k in values
        invariant forall k :: k in values && k !in left ==> now <= values[k].expireAt
        decreases left
      {
        var k :| k in left;
        if now > values[k].expireAt {
          values := values - {k};
        }
        left := left - {k};
      }
    }
  }

  // ----- Collection is unobservable -----

  datatype Op =
    | Incr(key: string, delta: int, ttl: int, now: int)
    | Read(key: string, now: int)
    | Collect(now: int)

  function Step(values: Values, op: Op, collects: bool): Values {
    match op
    case Incr(key, delta, ttl, now) => Increased(values, key, delta, ttl, now)
    case Read(_, _) => values
    case Collect(now) => if collects then Collected(values, now) else values
  }

  function Answer(values: Values, op: Op): int {
    match op
    case Incr(key, delta, _, now) => Total(values, key, now) + delta
    case Read(key, now) => Total(values, key, now)
    case Collect(_) => 0
  }

  function Run(ops: seq<Op>, collects: bool): Values {
    if ops == [] then map[] else Step(Run(ops[..|ops| - 1], collects), ops[|ops| - 1], collects)
  }

  ghost predicate Ordered(ops: seq<Op>) {
    forall i, j :: 0 <= i <= j < |ops| ==> ops[i].now <= ops[j].now
  }

  /** Nobody looking at or after the time can tell the two apart. */
  ghost predicate SameFrom(a: Values, b: Values, from: int) {
    forall k, t :: from <= t ==> LiveEntry(a, k, t) == LiveEntry(b, k, t)
  }

  /** Calls may be applied in another order than their times, but none after a collection timed later. */
  ghost predicate CollectsInTime(ops: seq<Op>) {
    forall i, j :: 0 <= i < j < |ops| && ops[i].Collect? ==> ops[i].now <= ops[j].now
  }

  lemma StepKeepsSame(a: Values, b: Values, op: Op, from: int)
    requires SameFrom(a, b, op.now) && SameFrom(a, b, from) && (op.Collect? ==> op.now <= from)
    ensures SameFrom(Step(a, op, true), Step(b, op, false), from)
  {
    if op.Incr? {
      assert LiveEntry(a, op.key, op.now) == LiveEntry(b, op.key, op.now);
    }
    forall k, t | from <= t ensures LiveEntry(Step(a, op, true), k, t) == LiveEntry(Step(b, op, false), k, t) {
      assert LiveEntry(a, k, t) == LiveEntry(b, k, t);
    }
  }

  lemma {:induction false} RunsLookSame(ops: seq<Op>, n: nat, from: int)
    requires CollectsInTime(ops) && n <= |ops|
    requires forall i :: 0 <= i < n && ops[i].Collect? ==> ops[i].now <= from
    ensures SameFrom(Run(ops[..n], true), Run(ops[..n], false), from)
    decreases n
  {
    if n > 0 {
      var last := ops[n - 1];
      RunsLookSame(ops, n - 1, from);
      RunsLookSame(ops, n - 1, last.now);
      assert ops[..n][..n - 1] == ops[..n - 1];
      StepKeepsSame(Run(ops[..n - 1], true), Run(ops[..n - 1], false), last, from);
    }
  }

  /** Every answer is then what a counter that never collects would give. */
  lemma CollectionUnobservable(ops: seq<Op>, i: nat)
    requires CollectsInTime(ops) && i < |ops|
    ensures Answer(Run(ops[..i], true), ops[i]) == Answer(Run(ops[..i], false), ops[i])
  {
    RunsLookSame(ops, i, ops[i].now);
  }

  /** A call applied after a collection that is timed later by however little can tell. */
  lemma EarlierCallObserves(key: string, t: int, now: int)
    requires t < now
    ensures var ops := [Incr(key, 1, 0, t), Collect(now), Read(key, t)];
            Answer(Run(ops[..2], true), ops[2]) == 0 && Answer(Run(ops[..2], false), ops[2]) == 1
  {
    var ops := [Incr(key, 1, 0, t), Collect(now), Read(key, t)];
    assert ops[..2][..1] == ops[..1] && ops[..1][..0] == [];
    assert Run(ops[..1], true) == map[key := Entry(1, t)] == Run(ops[..1], false);
    assert Run(ops[..2], true) == Collected(Run(ops[..1], true), now);
    assert Run(ops[..2], false) == Run(ops[..1], false);
  }

  // ----- The window is anchored to the first write -----

  /** What was added to the key by ops[i..j]. */
  function AddedSince(ops: seq<Op>, key: string, i: nat, j: nat): int
    requires i <= j <= |ops|
    decreases j
  {
    if i == j then 0
    else AddedSince(ops, key, i, j - 1) + (if ops[j - 1].Incr? && ops[j - 1].key == key then ops[j - 1].delta else 0)
  }

  /** Operation i is an increment that finds no live window and opens one. */
  predicate OpensWindow(ops: seq<Op>, i: nat, collects: bool) {
    i < |ops| && ops[i].Incr? && LiveEntry(Run(ops[..i], collects), ops[i].key, ops[i].now).None?
  }

  /** No increment of the key comes after the lifetime of the window opened at i. */
  ghost predicate WithinWindow(ops: seq<Op>, i: nat, j: nat)
    requires i < j <= |ops| && ops[i].Incr?
  {
    forall k :: i <= k < j && ops[k].Incr? && ops[k].key == ops[i].key ==>
        ops[k].now <= ops[i].now + ops[i].ttl || k == i
  }

  /** The key shows the total until the end and then nothing. */
  predicate Shows(values: Values, key: string, total: int, end: int, t: int) {
    LiveEntry(values, key, t) == if t <= end then Some(Entry(total, end)) else None
  }

  lemma StepKeepsWindow(values: Values, op: Op, collects: bool, key: string, total: int, end: int, t: int)
    requires op.now <= t && Shows(values, key, total, end, op.now) && Shows(values, key, total, end, t)
    requires op.Incr? && op.key == key ==> op.now <= end
    ensures Shows(Step(values, op, collects), key, total + (if op.Incr? && op.key == key then op.delta else 0), end, t)
  {
  }

  lemma OpeningShows(values: Values, op: Op, collects: bool, t: int)
    requires op.Incr? && LiveEntry(values, op.key, op.now).None? && op.now <= t
    ensures Shows(Step(values, op, collects), op.key, op.delta, op.now + op.ttl, t)
  {
  }

  /**
   * A window opened by any operation shows the sum of its increments until the lifetime set by that
   * operation is over, and then nothing; later increments and collection never move its end.
   */
  lemma {:induction false} ExpiryAnchored(ops: seq<Op>, collects: bool, i: nat, j: nat, t: int)
    requires Ordered(ops) && i < j <= |ops| && OpensWindow(ops, i, collects) && WithinWindow(ops, i, j)
    requires ops[j - 1].now <= t
    ensures Shows(Run(ops[..j], collects), ops[i].key, AddedSince(ops, ops[i].key, i, j), ops[i].now + ops[i].ttl, t)
    decreases j
  {
    hide Step, Shows, LiveEntry;
    assert ops[..j][..j - 1] == ops[..j - 1];
    if i < j - 1 {
      ExpiryAnchored(ops, collects, i, j - 1, ops[j - 1].now);
      ExpiryAnchored(ops, collects, i, j - 1, t);
      StepKeepsWindow(Run(ops[..j - 1], collects), ops[j - 1], collects, ops[i].key,
                      AddedSince(ops, ops[i].key, i, j - 1), ops[i].now + ops[i].ttl, t);
    } else {
      OpeningShows(Run(ops[..i], collects), ops[i], collects, t);
    }
  }
}
