/** The 32-bit tick count of tasks.c against an unbounded clock. */
module Clock {

  /** The number of values of TickType_t, and portMAX_DELAY. */
  const TICKS: nat := 0x1_0000_0000
  const MAX_DELAY: nat := 0xFFFF_FFFF

  /** The TickType_t value of a true time, and unsigned 32-bit arithmetic in general. */
  function Wrap(n: int): nat {
    n % TICKS
  }

  /** How often the tick count has overflowed at a true time. */
  function Epoch(n: nat): nat {
    n / TICKS
  }

  lemma SplitTime(n: nat)
    ensures n == Epoch(n) * TICKS + Wrap(n) && Wrap(n) < TICKS
  {
  }

  lemma NoWrap(n: nat)
    requires n < TICKS
    ensures Wrap(n) == n
  {
  }

  /** Within one epoch the tick values are ordered like the true times. */
  lemma SameEpoch(a: nat, b: nat)
    requires Epoch(a) == Epoch(b)
    ensures Wrap(a) < Wrap(b) <==> a < b
  {
    SplitTime(a);
    SplitTime(b);
  }

  lemma LaterEpoch(a: nat, b: nat)
    requires Epoch(a) < Epoch(b)
    ensures a < b
  {
  }

  /** The tick count wraps to zero exactly when an epoch ends. */
  lemma NextTick(n: nat)
    ensures Wrap(Wrap(n) + 1) == Wrap(n + 1)
    ensures Wrap(n + 1) == 0 ==> Epoch(n + 1) == Epoch(n) + 1 && Wrap(Wrap(Epoch(n)) + 1) == Wrap(Epoch(n + 1))
    ensures Wrap(n + 1) != 0 ==> Epoch(n + 1) == Epoch(n)
  {
    SplitTime(n);
    SplitTime(n + 1);
    SplitTime(Epoch(n));
  }

  lemma EpochMonotone(a: nat, b: nat)
    requires a <= b
    ensures Epoch(a) <= Epoch(b)
  {
  }

  /** A wait of n ticks from `now` ends in the next epoch exactly when the sum of tick values wraps below the tick. */
  lemma WaitEnds(now: nat, n: nat)
    requires 1 <= n < TICKS
    ensures Wrap(Wrap(now) + n) == Wrap(now + n)
    ensures Epoch(now + n) == Epoch(now) + if Wrap(now + n) < Wrap(now) then 1 else 0
  {
    SplitTime(now);
    SplitTime(now + n);
  }

  /** Moving on without an overflow. */
  lemma StaysInEpoch(now: nat, k: nat)
    requires Wrap(now) + k < TICKS
    ensures Wrap(now + k) == Wrap(now) + k && Epoch(now + k) == Epoch(now)
  {
    SplitTime(now);
    SplitTime(now + k);
  }

  lemma WrapSum(a: nat, b: nat)
    ensures Wrap(a + Wrap(b)) == Wrap(a + b)
  {
    SplitTime(b);
    SplitTime(a + b);
    SplitTime(a + Wrap(b));
  }

  lemma WrapSumBoth(a: nat, b: nat, c: nat)
    requires Wrap(a) == Wrap(b)
    ensures Wrap(a + c) == Wrap(b + c)
  {
    WrapSum(c, a);
    WrapSum(c, b);
  }
}
