/** The file-scope state of tasks.c and the functions that update it in place, proved against the Kernel model. */
module Scheduler {
  import opened Common
  import opened Clock
  import opened TimedLists
  import opened Kernel
  import opened KernelProofs

  /** One round of the expiry loop takes the first due entry. */
  function TakeHead(l: Lists): Lists
    requires l.delayed != []
  {
    var t := l.delayed[0].owner;
    l.(delayed := l.delayed[1..], events := DropAll(l.events, t), ready := AddReady(l.ready, l.priority, t),
       due := l.due - {t})
  }

  lemma ExpireRound(l: Lists, tick: nat)
    requires l.delayed != [] && l.delayed[0].value <= tick
    ensures ExpireLists(TakeHead(l), tick) == ExpireLists(l, tick)
  {
    var t, rest := l.delayed[0].owner, Owners(Due(l.delayed[1..], tick));
    assert Due(l.delayed, tick)[1..] == Due(l.delayed[1..], tick);
    var ts := Owners(Due(l.delayed, tick));
    assert ts[0] == t && ts[1..] == rest;
    assert l.due - SetOf(ts) == (l.due - {t}) - SetOf(rest) by {
      assert forall x :: x in ts <==> x == t || x in rest;
    }
  }

  lemma ExpireDone(l: Lists, tick: nat)
    requires l.delayed == [] || tick < l.delayed[0].value
    ensures ExpireLists(l, tick) == l
  {
    assert l.due - SetOf([]) == l.due;
  }

  lemma WakeSingle(l: Lists, t: Task)
    ensures Wake(l, [t]) == l.(ready := AddReady(l.ready, l.priority, t), delayed := RemoveOwner(l.delayed, t),
                               overflow := RemoveOwner(l.overflow, t), due := l.due - {t})
  {
    var ts := [t];
    assert ts[0] == t && ts[1..] == [];
    assert RemoveOwners(l.delayed, ts) == RemoveOwner(l.delayed, t);
    assert RemoveOwners(l.overflow, ts) == RemoveOwner(l.overflow, t);
    assert AddAllReady(l.ready, l.priority, ts) == AddReady(l.ready, l.priority, t);
    assert SetOf(ts) == {t};
  }

  /** One round of the loop over the pending-ready list. */
  lemma WakeRound(l: Lists, ts: seq<Task>)
    requires ts != []
    ensures Wake(Wake(l, [ts[0]]), ts[1..]) == Wake(l, ts)
  {
    var t, rest := ts[0], ts[1..];
    WakeSingle(l, t);
    assert l.due - SetOf(ts) == (l.due - {t}) - SetOf(rest) by {
      assert forall x :: x in ts <==> x == t || x in rest;
    }
  }

  lemma WakeIgnoresPending(l: Lists, ts: seq<Task>, pending: seq<Task>)
    ensures Wake(l.(pending := pending), ts) == Wake(l, ts).(pending := pending)
  {
  }

  lemma WakeNone(l: Lists)
    ensures Wake(l, []) == l
  {
    assert l.due - SetOf([]) == l.due;
  }

  class TaskScheduler {
    var ready: seq<seq<Task>>
    var delayed: seq<ListItem>
    var overflowDelayed: seq<ListItem>
    var events: seq<seq<Task>>
    var pending: seq<Task>
    const priority: map<Task, nat>
    var tick: nat
    var overflows: nat
    var nextUnblock: nat
    var suspended: nat
    var pended: nat
    var current: Task
    const tickless: bool
    ghost var due: map<Task, nat>
    ghost var now: nat
    ghost var total: nat

    ghost function TaskLists(): Lists
      reads this
    {
      Lists(ready, delayed, overflowDelayed, events, pending, priority, due)
    }

    ghost function Abstract(): State
      reads this
    {
      State(TaskLists(), tick, overflows, nextUnblock, suspended, pended, current, tickless, now, total)
    }

    /** prvResetNextTaskUnblockTime */
    method ResetNextUnblockTime()
      modifies this`nextUnblock
      ensures Abstract() == Reset(old(Abstract()))
    {
      if delayed == [] {
        nextUnblock := MAX_DELAY;
      } else {
        nextUnblock := delayed[0].value;
      }
    }

    /** The loop of xTaskIncrementTick that empties the delayed list of due tasks. */
    method ReadyDueTasks()
      modifies this`delayed, this`events, this`ready, this`nextUnblock, this`due
      ensures Abstract() == Expire(old(Abstract()))
    {
      hide ExpireLists, AddReady, DropAll;
      while true
        invariant ExpireLists(TaskLists(), tick) == ExpireLists(old(TaskLists()), tick)
        invariant pending == old(pending) && overflowDelayed == old(overflowDelayed)
        decreases |delayed|
      {
        if delayed == [] {
          nextUnblock := MAX_DELAY;
          ExpireDone(TaskLists(), tick);
          break;
        }
        var head := delayed[0];
        if tick < head.value {
          nextUnblock := head.value;
          ExpireDone(TaskLists(), tick);
          break;
        }
        ExpireRound(TaskLists(), tick);
        delayed := delayed[1..];
        events := DropAll(events, head.owner);
        ready := AddReady(ready, priority, head.owner);
        due := due - {head.owner};
      }
    }

    /** xTaskIncrementTick; `total` is left to the interrupt that calls it. */
    method IncrementTick()
      requires Core(Abstract())
      modifies this
      ensures Abstract() == if old(suspended) == 0 then Tick(old(Abstract()))
                            else old(Abstract()).(pended := Wrap(old(pended) + 1))
    {
      hide Core, Wrap, Epoch, Expire;
      if suspended == 0 {
        ghost var before := Abstract();
        tick := Wrap(tick + 1);
        now := now + 1;
        if tick == 0 {
          DelayedEmptyAtSwitch(before);
          assert delayed == [];
          delayed, overflowDelayed := overflowDelayed, delayed;
          overflows := Wrap(overflows + 1);
          ResetNextUnblockTime();
        }
        assert Abstract() == Count(before);
        if tick >= nextUnblock {
          ReadyDueTasks();
        }
      } else {
        pended := Wrap(pended + 1);
      }
    }

    /** The tick interrupt. */
    method TickHandler()
      requires Inv(Abstract())
      modifies this
      ensures Abstract() == TickInterrupt(old(Abstract())) && Inv(Abstract())
    {
      hide ListsValid, Dated, Wrap, Epoch, Tick, SuspensionValid;
      TickInterruptKeeps(Abstract());
      TickFrame(Abstract());
      IncrementTick();
      total := total + 1;
    }

    /** The loop of xTaskResumeAll over the pending-ready list. */
    method ReadyPendingTasks()
      modifies this`pending, this`delayed, this`overflowDelayed, this`ready, this`nextUnblock, this`due
      ensures Abstract() == DrainPending(old(Abstract()))
    {
      hide Wake, RemoveOwner, AddReady;
      var moved := false;
      while pending != []
        invariant Wake(TaskLists(), pending).(pending := []) == Wake(old(TaskLists()), old(pending)).(pending := [])
        invariant !moved ==> TaskLists() == old(TaskLists())
        invariant old(pending) == [] ==> !moved
        invariant nextUnblock == old(nextUnblock) && events == old(events)
        decreases |pending|
      {
        var t := pending[0];
        WakeRound(TaskLists(), pending);
        ghost var before := TaskLists();
        ghost var woken := Wake(before, [t]);
        pending := pending[1..];
        delayed := RemoveOwner(delayed, t);
        overflowDelayed := RemoveOwner(overflowDelayed, t);
        due := due - {t};
        ready := AddReady(ready, priority, t);
        moved := true;
        WakeSingle(before, t);
        assert TaskLists() == woken.(pending := pending);
        WakeIgnoresPending(woken, pending, pending);
      }
      WakeNone(TaskLists());
      if moved {
        ResetNextUnblockTime();
      }
    }

    /** xTaskResumeAll */
    method ResumeAll()
      requires Inv(Abstract()) && suspended > 0
      modifies this
      ensures Abstract() == Resume(old(Abstract())) && Inv(Abstract())
    {
      hide ListsValid, Dated, Wrap, Epoch, Tick, DrainPending, Elapsed;
      ResumeKeeps(Abstract());
      suspended := suspended - 1;
      if suspended == 0 && priority.Keys != {} {
        ghost var drained := DrainKeeps(Abstract());
        ReadyPendingTasks();
        var counts := pended;
        ghost var done: nat := 0;
        while counts > 0
          invariant done + counts == drained.pended
          invariant Abstract() == Ticks(drained, done)
          invariant suspended == 0 && Core(Abstract())
        {
          ghost var next := TicksExact(drained, done + 1);
          IncrementTick();
          done := done + 1;
          counts := counts - 1;
        }
        pended := 0;
      }
    }

    /** prvAddCurrentTaskToDelayedList */
    method AddCurrentToDelayedList(ticksToWait: nat)
      requires suspended > 0 && 1 <= ticksToWait < TICKS && IsReady(TaskLists(), current) && Core(Abstract())
      modifies this`ready, this`delayed, this`overflowDelayed, this`nextUnblock, this`due
      ensures Abstract() == Delay(old(Abstract()), ticksToWait) && Core(Abstract())
    {
      hide Core, Wrap, Epoch, DropAll, Insert;
      DelayCurrentKeeps(Abstract(), ticksToWait);
      ready := DropAll(ready, current);
      var wake := Wrap(tick + ticksToWait);
      due := due[current := now + ticksToWait];
      if wake < tick {
        overflowDelayed := Insert(overflowDelayed, ListItem(wake, current));
      } else {
        delayed := Insert(delayed, ListItem(wake, current));
        if wake < nextUnblock {
          nextUnblock := wake;
        }
      }
    }

    /** xTaskRemoveFromEventList; the result says whether the task has a higher priority than the running one */
    method RemoveFromEventList(ev: nat) returns (higher: bool)
      requires ev < |events| && events[ev] != [] && events[ev][0] in priority && current in priority
      modifies this
      ensures Abstract() == Signal(old(Abstract()), ev)
      ensures higher <==> priority[current] < priority[old(events)[ev][0]]
    {
      hide Wake, RemoveOwner, AddReady;
      ghost var before := TaskLists();
      var t := events[ev][0];
      higher := priority[current] < priority[t];
      events := events[ev := events[ev][1..]];
      if suspended == 0 {
        WakeSingle(before.(events := events), t);
        delayed := RemoveOwner(delayed, t);
        overflowDelayed := RemoveOwner(overflowDelayed, t);
        due := due - {t};
        ready := AddReady(ready, priority, t);
        if tickless {
          ResetNextUnblockTime();
        }
      } else {
        pending := pending + [t];
      }
    }

    /** vTaskStepTick, whose caller does not step past the next unblock time */
    method StepTick(ticksToJump: nat)
      requires Inv(Abstract()) && tick + ticksToJump <= nextUnblock
      requires tick + ticksToJump == nextUnblock ==> suspended > 0
      modifies this
      ensures Abstract() == Kernel.StepTick(old(Abstract()), ticksToJump) && Inv(Abstract())
    {
      hide ListsValid, Dated, Wrap, Epoch;
      StepTickKeeps(Abstract(), ticksToJump);
      total := total + ticksToJump;
      var jump := ticksToJump;
      if Wrap(tick + jump) == nextUnblock && jump > 0 {
        pended := Wrap(pended + 1);
        jump := jump - 1;
      }
      now := now + jump;
      tick := Wrap(tick + jump);
    }
  }
}
