/** The overshoot bound is reached: a burst of requests that are all checked before any is recorded. */
module PolicyBurst {
  import opened Options
  import opened Calendar
  import opened PolicyKeys
  import opened Policy
  import opened PolicyCaps

  function Spends(n: nat, amount: int, today: Date): seq<Spend> {
    seq(n, _ => Spend(amount, today))
  }

  lemma {:induction false} SameSpends(n: nat, amount: int, today: Date)
    ensures Used(Spends(n, amount, today), DailyAmount, today) == n * amount
  {
    if n > 0 {
      SameSpends(n - 1, amount, today);
      assert Spends(n, amount, today)[..n - 1] == Spends(n - 1, amount, today);
    }
  }

  /** k requests of the full daily cap, then their records. */
  function Burst(k: nat, amount: int): seq<Event> {
    seq(2 * k, i => if i < k then Request(amount) else Post(0))
  }

  function Told(n: nat, amount: int, today: Date): Books {
    Books(Spends(n, amount, today), Spends(n, amount, today), Spends(n, amount, today))
  }

  function Checked(n: nat, amount: int, today: Date): seq<Req> {
    seq(n, _ => Req(amount, today, KINDS, None, {}))
  }

  /** After i events of the burst: first requests come in, then they are recorded. */
  function BurstState(k: nat, amount: int, today: Date, i: nat): State {
    if i <= k then State(Told(0, amount, today), Checked(i, amount, today), today)
    else State(Told(i - k, amount, today), Checked(if i <= 2 * k then 2 * k - i else 0, amount, today), today)
  }

  function BurstStates(k: nat, amount: int, today: Date): seq<State> {
    seq(2 * k + 1, i requires i >= 0 => BurstState(k, amount, today, i))
  }

  lemma BurstStep(l: Limit, k: nat, amount: int, today: Date, i: nat)
    requires l == Limit(Some(amount), Some(amount), None, None, true) && amount > 0 && i < 2 * k
    ensures Enabled(k, BurstState(k, amount, today, i), Burst(k, amount)[i])
    ensures Apply(l, k, BurstState(k, amount, today, i), Burst(k, amount)[i]) == BurstState(k, amount, today, i + 1)
  {
    var s, t := BurstState(k, amount, today, i), BurstState(k, amount, today, i + 1);
    if i < k {
      assert t.pending == s.pending + [Req(amount, today, KINDS, None, {})];
    } else {
      assert Spends(i + 1 - k, amount, today) == Spends(i - k, amount, today) + [Spend(amount, today)];
      assert t.books == AllWith(s.books, Spend(amount, today));
      assert t.pending == Without(s.pending, 0);
    }
  }

  lemma BurstIsRun(l: Limit, k: nat, amount: int, today: Date)
    requires l == Limit(Some(amount), Some(amount), None, None, true) && amount > 0
    ensures IsRun(l, k, Burst(k, amount), BurstStates(k, amount, today))
  {
    var events, states := Burst(k, amount), BurstStates(k, amount, today);
    assert states[0] == State(Books([], [], []), [], today);
    hide Apply, Enabled, BurstState;
    forall i | 0 <= i < |events|
      ensures Enabled(k, states[i], events[i]) && states[i + 1] == Apply(l, k, states[i], events[i])
    {
      BurstStep(l, k, amount, today, i);
    }
  }

  /** The race the code accepts is as bad as the bound says: for every k some run records k times the daily cap. */
  lemma OvershootReached(k: nat, amount: int, today: Date)
    requires k >= 1 && amount > 0
    ensures IsRun(Limit(Some(amount), Some(amount), None, None, true), k,
                  Burst(k, amount), BurstStates(k, amount, today))
    ensures Shown(BurstStates(k, amount, today)[2 * k], DailyAmount, today) == Bound(amount, k, amount)
  {
    hide IsRun, Used;
    BurstIsRun(Limit(Some(amount), Some(amount), None, None, true), k, amount, today);
    SameSpends(k, amount, today);
    assert BurstStates(k, amount, today)[2 * k].books == Told(k, amount, today);
    assert k * amount == amount + (k - 1) * amount;
    Scaled(0, k, amount);
  }
}
