/** The mutex functions of tasks.c and queue.c as they update the control blocks in place. */
module MutexKernel {
  import opened Common
  import opened Mutexes
  import opened MutexProofs
  import opened Preemption

  class MutexTable {
    var tasks: map<Task, Tcb>
    var mutexes: map<Handle, Mutex>
    var ready: seq<seq<Task>>
    var current: Task

    ghost function Abstract(): State
      reads this
    {
      State(tasks, mutexes, ready, current)
    }

    /** Set the priority and event item of t, moving it between ready lists if it is in one. */
    method SetPriority(t: Task, p: nat)
      requires t in tasks
      modifies this`tasks, this`ready
      ensures Abstract() == Reprioritise(old(Abstract()), t, p)
    {
      var tcb := tasks[t];
      if IsInReadyList(ready, t, tcb.priority) {
        ready := Unready(ready, t, tcb.priority);
        ready := MakeReady(ready, t, p);
      }
      tcb := tcb.(priority := p);
      if !tcb.borrowed {
        tcb := tcb.(item := |ready| - p);
      }
      tasks := tasks[t := tcb];
    }

    /** xTaskPriorityInherit */
    method PriorityInherit(holder: Option<Task>) returns (inherited: bool)
      requires current in tasks && (holder.Some? ==> holder.value in tasks)
      modifies this`tasks, this`ready
      ensures Abstract() == Inherit(old(Abstract()), holder) && inherited == Inherits(old(Abstract()), holder)
    {
      inherited := false;
      if holder.Some? {
        if tasks[holder.value].priority < tasks[current].priority {
          SetPriority(holder.value, tasks[current].priority);
          inherited := true;
        } else if tasks[holder.value].base < tasks[current].priority {
          inherited := true;
        }
      }
    }

    /** xTaskPriorityDisinherit, which asserts that a holder is the running task. */
    method PriorityDisinherit(holder: Option<Task>) returns (yieldRequired: bool)
      requires holder.Some? ==> holder.value == current && current in tasks && tasks[current].held > 0
      modifies this`tasks, this`ready
      ensures Abstract() == if holder.Some? then Disinherit(old(Abstract()), current) else old(Abstract())
      ensures yieldRequired <==>
        holder.Some? && old(tasks)[current].priority != old(tasks)[current].base && old(tasks)[current].held == 1
    {
      yieldRequired := false;
      if holder.Some? {
        tasks := tasks[current := tasks[current].(held := tasks[current].held - 1)];
        if tasks[current].priority != tasks[current].base {
          if tasks[current].held == 0 {
            SetPriority(current, tasks[current].base);
            yieldRequired := true;
          }
        }
      }
    }

    /** vTaskPriorityDisinheritAfterTimeout */
    method PriorityDisinheritAfterTimeout(holder: Option<Task>, highestWaiting: int)
      requires holder.Some? ==> holder.value in tasks
      modifies this`tasks, this`ready
      ensures Abstract() == DisinheritAfterTimeout(old(Abstract()), holder, highestWaiting)
    {
      if holder.Some? {
        var t := holder.value;
        var wanted := tasks[t].base;
        if wanted < highestWaiting {
          wanted := highestWaiting;
        }
        if tasks[t].priority != wanted {
          if tasks[t].held == 1 {
            SetPriority(t, wanted);
          }
        }
      }
    }

    /** xTaskRemoveFromEventList on the tasks waiting for the mutex; has the woken task a higher priority? */
    method WakeFirstWaiter(m: Handle) returns (higher: bool)
      requires m in mutexes && current in tasks
      requires mutexes[m].waiting != [] && mutexes[m].waiting[0] in tasks
      modifies this`tasks, this`mutexes, this`ready
      ensures Abstract() == WakeWaiter(old(Abstract()), m)
      ensures higher <==> old(tasks)[current].priority < old(tasks)[old(mutexes)[m].waiting[0]].priority
    {
      var waiting := mutexes[m].waiting;
      var t := waiting[0];
      var tcb := tasks[t];
      higher := tasks[current].priority < tcb.priority;
      mutexes := mutexes[m := mutexes[m].(waiting := Drop(waiting, t))];
      if tcb.call.Waiting? {
        tcb := tcb.(call := Taking(m, tcb.call.inherited));
      }
      tasks := tasks[t := tcb];
      ready := MakeReady(ready, t, tcb.priority);
    }

    /** xQueueGenericSend on a mutex the running task holds: of its own accord, or at the end of
        xQueueGiveMutexRecursive. */
    method GiveMutex(m: Handle) returns (yieldRequired: bool)
      requires Inv(Abstract()) && Running(Abstract()) && m in mutexes && mutexes[m].holder == Some(current)
      requires tasks[current].call == if mutexes[m].recursive then Sending(m) else NoCall
      modifies this
      ensures Inv(Abstract())
      ensures Abstract() == Next(old(Abstract()), if old(mutexes)[m].recursive then SendBack else Give(m))
      ensures current == old(current) && current in tasks && m in old(mutexes)
      ensures yieldRequired <==> GiveYields(old(Abstract()), m)
      // with nobody waiting, a yield is asked for iff the giver's priority dropped; otherwise iff the woken task is higher
      ensures old(mutexes)[m].waiting == [] ==>
        (yieldRequired <==> tasks[current].priority != old(tasks)[current].priority)
      ensures old(mutexes)[m].waiting != [] ==>
        && old(mutexes)[m].waiting[0] in old(tasks)
        && (yieldRequired <==> tasks[current].priority < old(tasks)[old(mutexes)[m].waiting[0]].priority)
    {
      hide Inv, Disinherit, WakeWaiter;
      ghost var before := Abstract();
      ghost var calm := SetCall(before, current, NoCall);
      GiverReady(before, m);
      if mutexes[m].recursive { SendBackKeeps(before); } else { NoCallYet(before); GiveKeeps(before, m); }
      tasks := tasks[current := tasks[current].(call := NoCall)];
      assert Abstract() == calm;
      yieldRequired := PriorityDisinherit(mutexes[m].holder);
      GiverFrame(calm);
      mutexes := mutexes[m := mutexes[m].(holder := None, count := mutexes[m].count + 1)];
      ghost var given := Abstract();
      if mutexes[m].waiting != [] {
        yieldRequired := WakeFirstWaiter(m);
        WakeFrame(given, m);
      } else {
        NobodyToWake(given, m);
      }
    }

    /** xQueueGiveMutexRecursive */
    method GiveMutexRecursive(m: Handle) returns (ok: bool)
      requires Inv(Abstract()) && Running(Abstract()) && tasks[current].call == NoCall
      requires m in mutexes && mutexes[m].recursive
      modifies this
      ensures Inv(Abstract())
      ensures ok <==> old(mutexes)[m].holder == Some(old(current))
      ensures Abstract() ==
        if !ok then old(Abstract())
        else if old(mutexes)[m].depth == 1 then Next(Next(old(Abstract()), Give(m)), SendBack)
        else Next(old(Abstract()), Give(m))
    {
      hide Inv, Release;
      ok := mutexes[m].holder == Some(current);
      if ok {
        ghost var before := Abstract();
        HolderCanGive(before, m);
        GiveKeeps(before, m);
        mutexes := mutexes[m := mutexes[m].(depth := mutexes[m].depth - 1)];
        if mutexes[m].depth == 0 {
          tasks := tasks[current := tasks[current].(call := Sending(m))];
          assert Abstract() == Next(before, Give(m));
          var _ := GiveMutex(m);
        }
      }
    }
  }

  /** What the invariant says about a task that is about to send a mutex back. */
  lemma GiverReady(s: State, m: Handle)
    requires Inv(s) && Running(s) && m in s.mutexes && s.mutexes[m].holder == Some(s.current)
    requires s.tasks[s.current].call == if s.mutexes[m].recursive then Sending(m) else NoCall
    ensures s.tasks[s.current].held > 0
    ensures Enabled(s, if s.mutexes[m].recursive then SendBack else Give(m))
    ensures forall w :: w in s.mutexes[m].waiting ==> w in s.tasks && w != s.current
  {
    hide PrioritiesValid, ReadyValid;
    HolderHolds(s, m);
  }

  lemma GiverFrame(s: State)
    requires s.current in s.tasks && s.tasks[s.current].held > 0
    ensures var u := Disinherit(s, s.current);
      && u.mutexes == s.mutexes && u.current == s.current && u.tasks.Keys == s.tasks.Keys
      && (forall t :: t in s.tasks && t != s.current ==> u.tasks[t] == s.tasks[t])
      && u.tasks[s.current].priority == Left(s.tasks[s.current])
      && (u.tasks[s.current].priority != s.tasks[s.current].priority <==>
            s.tasks[s.current].priority != s.tasks[s.current].base && s.tasks[s.current].held == 1)
  {
  }

  lemma WakeFrame(s: State, m: Handle)
    requires m in s.mutexes && s.current in s.tasks
    ensures WakeWaiter(s, m).current == s.current && s.current in WakeWaiter(s, m).tasks
    ensures WakeWaiter(s, m).tasks[s.current].priority == s.tasks[s.current].priority
  {
  }

  lemma NobodyToWake(s: State, m: Handle)
    requires m in s.mutexes && s.mutexes[m].waiting == []
    ensures WakeWaiter(s, m) == s
  {
  }
}
