/** Time-out accounting and periodic delays of tasks.c on the wrapping tick count. */
module Timeouts {
  import opened Clock
  import opened Kernel

  /** TimeOut_t */
  datatype TimeOut = TimeOut(overflows: nat, entered: nat)

  /** A time-out state after xTaskCheckForTimeOut. */
  datatype Verdict = Verdict(expired: bool, timeOut: TimeOut, wait: nat)

  /** xTaskCheckForTimeOut, with INCLUDE_xTaskAbortDelay and INCLUDE_vTaskSuspend 0. */
  function Check(tick: nat, overflows: nat, from: TimeOut, wait: nat): Verdict {
    var elapsed := Wrap(tick - from.entered);
    if overflows != from.overflows && tick >= from.entered then Verdict(true, from, 0)
    else if elapsed < wait then Verdict(false, TimeOut(overflows, tick), wait - elapsed)
    else Verdict(true, from, 0)
  }

  /** What vTaskInternalSetTimeOutState records at a true time. */
  function Entered(t: nat): TimeOut {
    TimeOut(Wrap(Epoch(t)), Wrap(t))
  }

  function CheckAt(t: nat, from: TimeOut, wait: nat): Verdict {
    Check(Wrap(t), Wrap(Epoch(t)), from, wait)
  }

  lemma WrapDifference(a: nat, b: nat)
    requires a <= b
    ensures Wrap(Wrap(b) - Wrap(a)) == Wrap(b - a)
  {
    SplitTime(a);
    SplitTime(b);
    SplitTime(b - a);
    var d := Wrap(b) - Wrap(a);
    assert d == (b - a) - TICKS * (Epoch(b) - Epoch(a));
    ModUnique(d, Wrap(b - a), Epoch(b - a) - (Epoch(b) - Epoch(a)));
  }

  lemma ModUnique(d: int, r: nat, q: int)
    requires d == q * TICKS + r && r < TICKS
    ensures Wrap(d) == r
  {
  }

  /** With fewer than two overflows since the entry, the verdict is exact, and what is left to wait is what is left. */
  lemma CheckExact(a: nat, b: nat, wait: nat)
    requires a <= b && Epoch(b) - Epoch(a) < 2 && wait < TICKS
    ensures var v := CheckAt(b, Entered(a), wait);
      && (v.expired <==> wait <= b - a)
      && (!v.expired ==> v.timeOut == Entered(b) && v.wait == wait - (b - a))
      && (v.expired ==> v.wait == 0)
  {
    hide Wrap, Epoch;
    WrapDifference(a, b);
    SplitTime(a);
    SplitTime(b);
    SplitTime(b - a);
    SmallEpochs(Epoch(a), Epoch(b));
    EpochMonotone(a, b);
  }

  lemma SmallEpochs(e: nat, f: nat)
    requires e <= f < e + 2
    ensures Wrap(e) == Wrap(f) <==> e == f
  {
    if f == e + 1 {
      SplitTime(e);
      SplitTime(f);
    }
  }

  /** In general the verdict is right exactly when less than 2^32 ticks went by, or the elapsed ticks modulo 2^32 still
      reach the wait, or the overflow count and the tick count both give the wrap-around away. */
  lemma CheckCorrectIff(a: nat, b: nat, wait: nat)
    requires a <= b && wait < TICKS
    ensures (CheckAt(b, Entered(a), wait).expired <==> wait <= b - a) <==>
            (b - a < TICKS || wait <= Wrap(b - a) || (Wrap(Epoch(b)) != Wrap(Epoch(a)) && Wrap(a) <= Wrap(b)))
  {
    hide Epoch, Wrap;
    WrapDifference(a, b);
    SplitTime(b - a);
    if b - a < TICKS {
      CloseEpochs(a, b);
      CheckExact(a, b, wait);
    }
  }

  lemma CloseEpochs(a: nat, b: nat)
    requires a <= b < a + TICKS
    ensures Epoch(b) - Epoch(a) < 2 && Wrap(b - a) == b - a
  {
    SplitTime(a);
    SplitTime(b);
  }

  /** The failing family is not empty: a wait checked after two overflows can look younger than it is. */
  lemma CheckTooLate()
    ensures !CheckAt(2 * TICKS + 3, Entered(5), TICKS - 1).expired && TICKS - 1 <= 2 * TICKS + 3 - 5
  {
    assert Wrap(2 * TICKS + 3) == 3 && Wrap(5) == 5 && Wrap(3 - 5) == TICKS - 2;
  }

  /** Chains of checks, as the retry loops of queue.c make them. */

  /** The state after the checks made at the given times, stopping at the first that expires. */
  function Checks(start: nat, times: seq<nat>, wait: nat): Verdict {
    if times == [] then Verdict(false, Entered(start), wait)
    else
      var v := Checks(start, times[..|times| - 1], wait);
      if v.expired then v else CheckAt(times[|times| - 1], v.timeOut, v.wait)
  }

  function Last(start: nat, times: seq<nat>): nat {
    if times == [] then start else times[|times| - 1]
  }

  /** Checks follow each other in time, with fewer than two overflows in between. */
  predicate Regular(start: nat, times: seq<nat>) {
    times == [] ||
    (var before := times[..|times| - 1];
     && Regular(start, before) && Last(start, before) <= Last(start, times)
     && Epoch(Last(start, times)) - Epoch(Last(start, before)) < 2)
  }

  /** A chain of checks expires exactly when the whole elapsed time reaches the original wait; until then the
      remaining ticks and the elapsed time add up to it. */
  lemma {:induction false} ChecksExact(start: nat, times: seq<nat>, wait: nat)
    requires Regular(start, times) && 0 < wait < TICKS
    ensures var v := Checks(start, times, wait); var last := Last(start, times);
      && start <= last && (v.expired <==> wait <= last - start)
      && (!v.expired ==> v.wait + (last - start) == wait && v.timeOut == Entered(last))
    decreases |times|
  {
    if times != [] {
      var before := times[..|times| - 1];
      ChecksExact(start, before, wait);
      var v := Checks(start, before, wait);
      if !v.expired {
        CheckExact(Last(start, before), Last(start, times), v.wait);
      }
    }
  }

  /** The time-out state a blocking call keeps on its stack. */
  class TimeOutState {
    var overflows: nat
    var entered: nat

    ghost function Abstract(): TimeOut
      reads this
    {
      TimeOut(overflows, entered)
    }

    /** vTaskInternalSetTimeOutState */
    constructor (tick: nat, numOfOverflows: nat)
      ensures Abstract() == TimeOut(numOfOverflows, tick)
    {
      overflows, entered := numOfOverflows, tick;
    }

    /** xTaskCheckForTimeOut; the ticks to wait are passed in and out. */
    method CheckForTimeOut(tick: nat, numOfOverflows: nat, ticksToWait: nat) returns (expired: bool, left: nat)
      modifies this
      ensures Verdict(expired, Abstract(), left) == Check(tick, numOfOverflows, old(Abstract()), ticksToWait)
    {
      var elapsed := Wrap(tick - entered);
      if numOfOverflows != overflows && tick >= entered {
        return true, 0;
      } else if elapsed < ticksToWait {
        overflows, entered := numOfOverflows, tick;
        return false, ticksToWait - elapsed;
      } else {
        return true, 0;
      }
    }
  }

  /** Periodic delays. */

  /** What xTaskDelayUntil decides: the new reference time, whether to delay, and for how long. */
  datatype Period = Period(reference: nat, delay: bool, ticks: nat)

  function DelayUntil(previous: nat, tick: nat, increment: nat): Period {
    var wake := Wrap(previous + increment);
    var delay :=
      if tick < previous then wake < previous && wake > tick
      else wake < previous || wake > tick;
    Period(wake, delay, if delay then Wrap(wake - tick) else 0)
  }

  /** From a reference p that is not in the future and less than 2^32 ticks old, the task blocks if and only if the true
      next wake time is in the future, for exactly the difference. */
  lemma DelayUntilExact(p: nat, now: nat, increment: nat)
    requires p <= now < p + TICKS && 1 <= increment < TICKS
    ensures var d := DelayUntil(Wrap(p), Wrap(now), increment);
      && d.reference == Wrap(p + increment)
      && (d.delay <==> now < p + increment)
      && (d.delay ==> d.ticks == p + increment - now && 1 <= d.ticks < TICKS)
  {
    hide Wrap, Epoch;
    WaitEnds(p, increment);
    CloseEpochs(p, now);
    EpochMonotone(p, now);
    SplitTime(p);
    SplitTime(now);
    SplitTime(p + increment);
    if now < p + increment {
      WrapDifference(now, p + increment);
      CloseEpochs(now, p + increment);
    }
  }

  /** The reference time after some calls is the start plus the sum of the increments. */
  function Reference(start: nat, increments: seq<nat>): nat {
    if increments == [] then start
    else Reference(start, increments[..|increments| - 1]) + increments[|increments| - 1]
  }

  /** The value of *pxPreviousWakeTime after calls at the given times. */
  function PreviousWake(start: nat, increments: seq<nat>, calls: seq<nat>): nat
    requires |calls| == |increments|
  {
    if increments == [] then Wrap(start)
    else
      var n := |increments| - 1;
      DelayUntil(PreviousWake(start, increments[..n], calls[..n]), Wrap(calls[n]), increments[n]).reference
  }

  /** When the last of the calls returns: after the delay it asked for, if any. */
  function Returned(start: nat, increments: seq<nat>, calls: seq<nat>): nat
    requires |calls| == |increments|
  {
    if increments == [] then start
    else
      var n := |increments| - 1;
      calls[n] + DelayUntil(PreviousWake(start, increments[..n], calls[..n]), Wrap(calls[n]), increments[n]).ticks
  }

  /** A periodic task: each call comes after the previous one returned, and less than 2^32 ticks after the reference. */
  predicate Periodic(start: nat, increments: seq<nat>, calls: seq<nat>)
    requires |calls| == |increments|
  {
    increments == [] ||
    (var n := |increments| - 1;
     && Periodic(start, increments[..n], calls[..n])
     && 1 <= increments[n] < TICKS
     && Returned(start, increments[..n], calls[..n]) <= calls[n] < Reference(start, increments[..n]) + TICKS)
  }

  /** Periodic delays do not drift: on every run, wraps included, the reference is the start plus all increments, and
      each call returns at the reference if that is still to come and at once otherwise. */
  lemma {:induction false} DriftFree(start: nat, increments: seq<nat>, calls: seq<nat>)
    requires |calls| == |increments| && Periodic(start, increments, calls)
    ensures var r := Reference(start, increments);
      && PreviousWake(start, increments, calls) == Wrap(r)
      && (increments != [] ==>
            var call := calls[|calls| - 1];
            Returned(start, increments, calls) == if call < r then r else call)
      && r <= Returned(start, increments, calls)
    decreases |increments|
  {
    hide Wrap, Epoch, DelayUntil;
    if increments != [] {
      var n := |increments| - 1;
      DriftFree(start, increments[..n], calls[..n]);
      var r := Reference(start, increments[..n]);
      DelayUntilExact(r, calls[n], increments[n]);
      NoDelayNoTicks(Wrap(r), Wrap(calls[n]), increments[n]);
    }
  }

  lemma NoDelayNoTicks(previous: nat, tick: nat, increment: nat)
    ensures var d := DelayUntil(previous, tick, increment); !d.delay ==> d.ticks == 0
  {
  }

  /** The kernel files the delayed task under its true next wake time. */
  lemma DelayUntilWakes(s: State, p: nat, increment: nat)
    requires Core(s) && p <= s.now < p + TICKS && 1 <= increment < TICKS
    ensures var d := DelayUntil(Wrap(p), s.tick, increment);
      d.delay ==> Delay(s, d.ticks).lists.due == s.lists.due[s.current := p + increment]
  {
    hide ListsValid, Dated, Wrap, Epoch, DelayUntil;
    DelayUntilExact(p, s.now, increment);
  }
}
