/** Stepping the tick count after a tickless sleep is the same as the ticks that were suppressed. */
module StepTicks {
  import opened Common
  import opened Clock
  import opened TimedLists
  import opened Kernel
  import opened KernelProofs

  function Advanced(s: State, k: nat): State {
    s.(tick := Wrap(s.tick + k), now := s.now + k)
  }

  /** Ticks that stay below the next unblock time only count. */
  lemma {:induction false} QuietTicks(s: State, k: nat)
    requires s.tick + k < s.nextUnblock <= MAX_DELAY
    ensures Ticks(s, k) == Advanced(s, k)
  {
    if k > 0 {
      QuietTicks(s, k - 1);
      QuietTick(s, k);
    } else {
      assert Wrap(s.tick) == s.tick;
    }
  }

  lemma QuietTick(s: State, k: nat)
    requires 0 < k && s.tick + k < s.nextUnblock <= MAX_DELAY
    ensures Tick(Advanced(s, k - 1)) == Advanced(s, k)
  {
    var u := Advanced(s, k - 1);
    assert u.tick == s.tick + k - 1 && Wrap(u.tick + 1) == s.tick + k;
  }

  /** The history counters play no part in a tick. */
  lemma TickIgnores(s: State, pended: nat, total: nat)
    ensures Tick(s.(pended := pended, total := total)) == Tick(s).(pended := pended, total := total)
  {
  }

  /** Draining the pending list commutes with moving the clock, and can only postpone the next unblock time. */
  lemma DrainMoves(s: State, k: nat, pended: nat, total: nat)
    ensures DrainPending(Advanced(s, k).(pended := pended, total := total))
         == Advanced(DrainPending(s), k).(pended := pended, total := total)
    ensures DrainPending(s).tick == s.tick && DrainPending(s).pended == s.pended
  {
  }

  lemma DrainPostpones(s: State)
    requires Core(s)
    ensures s.nextUnblock <= DrainPending(s).nextUnblock <= MAX_DELAY
  {
    hide ListsValid, Dated, Wrap, Epoch;
    var w := DrainKeeps(s);
    NextBound(s);
    NextBound(w);
    if s.lists.pending != [] {
      var f, ts := s.lists.(pending := []), s.lists.pending;
      DrainLists(s.lists);
      DatedSame(s.lists, f, s.now, Epoch(s.now));
      WakeFirst(f, ts, s.now, Epoch(s.now));
      assert w.lists == Wake(f, ts);
    }
  }

  /** With the scheduler suspended once, no tick pended and k ticks reaching no further than the next unblock time,
      vTaskStepTick(k) followed by xTaskResumeAll leaves the same tick count, overflow count and lists as
      xTaskResumeAll followed by k tick calls. */
  lemma StepRefinesTicks(s: State, k: nat)
    requires Inv(s) && s.suspended == 1 && s.pended == 0 && s.tick + k <= s.nextUnblock
    ensures Resume(StepTick(s, k)) == Ticks(Resume(s), k).(total := s.total + k)
  {
    var p := s.(suspended := 0);
    var d := DrainPending(p);
    assert Core(p);
    DrainPostpones(p);
    NextBound(s);
    assert Wrap(s.tick + k) == s.tick + k && d.tick == s.tick;
    assert Resume(s) == d by { assert Ticks(d, 0) == d; }
    if s.tick + k == s.nextUnblock && k > 0 {
      StepLast(s, p, d, k);
    } else if s.tick + k < s.nextUnblock {
      StepShort(s, p, d, k);
    } else {
      StepNone(s, p, d);
    }
  }

  lemma StepShort(s: State, p: State, d: State, k: nat)
    requires s.suspended == 1 && s.pended == 0 && s.lists.priority.Keys != {}
    requires p == s.(suspended := 0) && d == DrainPending(p) && d.tick == s.tick
    requires s.tick + k < s.nextUnblock <= d.nextUnblock <= MAX_DELAY
    ensures Resume(StepTick(s, k)) == Ticks(d, k).(total := s.total + k)
  {
    var a := StepTick(s, k);
    assert a == Advanced(s, k).(pended := 0, total := s.total + k);
    DrainMoves(p, k, 0, s.total + k);
    QuietTicks(d, k);
    assert a.(suspended := 0) == Advanced(p, k).(pended := 0, total := s.total + k);
    assert Resume(a) == Ticks(DrainPending(a.(suspended := 0)), 0).(pended := 0);
  }

  lemma StepNone(s: State, p: State, d: State)
    requires s.suspended == 1 && s.pended == 0 && s.lists.priority.Keys != {} && s.tick < TICKS
    requires p == s.(suspended := 0) && d == DrainPending(p)
    ensures Resume(StepTick(s, 0)) == Ticks(d, 0).(total := s.total)
  {
    assert StepTick(s, 0) == s;
  }

  lemma StepLast(s: State, p: State, d: State, k: nat)
    requires s.suspended == 1 && s.pended == 0 && s.lists.priority.Keys != {}
    requires p == s.(suspended := 0) && d == DrainPending(p) && d.tick == s.tick
    requires 0 < k && s.tick + k == s.nextUnblock <= d.nextUnblock <= MAX_DELAY
    ensures Resume(StepTick(s, k)) == Ticks(d, k).(total := s.total + k)
  {
    hide Tick, DrainPending;
    var a, total := StepTick(s, k), s.total + k;
    assert a == Advanced(s, k - 1).(pended := 1, total := total);
    hide Wrap, StepTick;
    var b, e := a.(suspended := 0), Advanced(d, k - 1);
    assert b == Advanced(p, k - 1).(pended := 1, total := total);
    DrainMoves(p, k - 1, 1, total);
    assert DrainPending(b) == e.(pended := 1, total := total);
    OneTick(DrainPending(b));
    TickIgnores(e, 1, total);
    QuietTicks(d, k - 1);
    TickFrame(e);
    assert Resume(a) == Tick(e).(pended := 0, total := total);
    assert Ticks(d, k) == Tick(e);
  }

  lemma OneTick(s: State)
    ensures Ticks(s, 1) == Tick(s)
  {
    assert Ticks(s, 0) == s;
  }
}
