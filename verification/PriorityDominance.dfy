/**
 When exactly a holder has at least the priority of every task waiting for its mutex, with no assumption on how many
 mutexes tasks hold and which task runs: the steps that can break this, and the condition under which each does.
 */
module PriorityDominance {
  import opened Common
  import opened Mutexes
  import opened MutexProofs
  import opened PriorityRuns

  /** Nobody waits for a mutex whose holder has a lower priority. */
  ghost predicate Covers(mutex: Mutex, tasks: map<Task, Tcb>) {
    mutex.holder.Some? ==>
      && mutex.holder.value in tasks
      && forall w :: w in mutex.waiting ==>
           w in tasks && tasks[w].priority <= tasks[mutex.holder.value].priority
  }

  ghost predicate Dominates(s: State) {
    forall m :: m in s.mutexes ==> Covers(s.mutexes[m], s.tasks)
  }

  /** The holder of the mutex the running task is about to wait for is itself waiting, for somebody else of a lower
      priority than the running task: it will inherit, and the one it waits for will not. */
  predicate Chained(s: State)
    requires Enabled(s, Wait)
  {
    var p, h := s.tasks[s.current].priority, s.mutexes[s.tasks[s.current].call.m].holder;
    && h.Some? && s.tasks[h.value].priority < p
    && s.tasks[h.value].call.Waiting? && s.tasks[h.value].call.m in s.mutexes
    && var g := s.mutexes[s.tasks[h.value].call.m].holder;
       g.Some? && g != h && g.value in s.tasks && s.tasks[g.value].priority < p
  }

  /** No task on the list, other than t itself, has a priority above p. */
  predicate NoneAbove(waiting: seq<Task>, tasks: map<Task, Tcb>, t: Task, p: int) {
    forall w :: w in waiting && w in tasks && w != t ==> tasks[w].priority <= p
  }

  /** What can be checked before a step: nothing waits above the task that takes a mutex, the chain of waits ends with
      the holder, and the priority a holder falls back to is not below a task still waiting. */
  predicate Safe(s: State, a: Action) {
    Enabled(s, a) ==>
      match a
      case Wait => !Chained(s)
      case Try => NoneAbove(s.mutexes[s.tasks[s.current].call.m].waiting, s.tasks, s.current, s.tasks[s.current].priority)
      case GivePriorityBack =>
        var m := s.tasks[s.current].call.m;
        var h := s.mutexes[m].holder;
        h.Some? && s.tasks[h.value].held == 1 ==>
          NoneAbove(s.mutexes[m].waiting, s.tasks, h.value, Wanted(s, h.value, HighestWaiting(s, m)))
      case _ => true
  }

  // ---- Steps that change no priority.

  /** Same holders, no new waiters, same priorities. */
  lemma QuietDominates(s: State, n: State)
    requires Dominates(s) && n.tasks.Keys == s.tasks.Keys && n.mutexes.Keys == s.mutexes.Keys
    requires forall t :: t in s.tasks ==> n.tasks[t].priority == s.tasks[t].priority
    requires forall m :: m in s.mutexes ==>
      && (n.mutexes[m].holder == s.mutexes[m].holder || n.mutexes[m].holder.None?)
      && forall w :: w in n.mutexes[m].waiting ==> w in s.mutexes[m].waiting
    ensures Dominates(n)
  {
    forall m | m in n.mutexes ensures Covers(n.mutexes[m], n.tasks) {
      assert Covers(s.mutexes[m], s.tasks);
    }
  }

  /** The running task takes a free mutex: everybody waiting for it must be below it. */
  lemma TryIff(s: State)
    requires Inv(s) && Dominates(s) && Enabled(s, Try)
    ensures Dominates(Next(s, Try)) <==> Safe(s, Try)
  {
    hide HoldersValid, PrioritiesValid, ReadyValid;
    var c, m, n := s.current, s.tasks[s.current].call.m, Next(s, Try);
    forall x | x in s.mutexes && x != m ensures Covers(n.mutexes[x], n.tasks) {
      assert Covers(s.mutexes[x], s.tasks);
    }
    assert Dominates(n) <==> Covers(n.mutexes[m], n.tasks);
    assert forall w :: w in s.mutexes[m].waiting ==> w in s.tasks;
  }

  /** The holder rises to p, and the running task joins the list of m. */
  lemma WaitShape(s: State, h: Task)
    requires Inv(s) && Enabled(s, Wait) && s.mutexes[s.tasks[s.current].call.m].holder == Some(h)
    ensures var p, m, n := s.tasks[s.current].priority, s.tasks[s.current].call.m, Next(s, Wait);
      && n.tasks.Keys == s.tasks.Keys && n.mutexes.Keys == s.mutexes.Keys
      && (forall t :: t in s.tasks && t != h ==> n.tasks[t].priority == s.tasks[t].priority)
      && n.tasks[h].priority == (if s.tasks[h].priority < p then p else s.tasks[h].priority)
      && (forall x :: x in s.mutexes ==> n.mutexes[x].holder == s.mutexes[x].holder)
      && (forall x :: x in s.mutexes && x != m ==> n.mutexes[x] == s.mutexes[x])
      && (forall w :: w in n.mutexes[m].waiting <==> w in s.mutexes[m].waiting || w == s.current)
  {
    hide Inv, InsertWaiter;
    var c, m := s.current, s.tasks[s.current].call.m;
    var u := Inherit(s, Some(h));
    WaitsWhere(s, c, m);
    DistinctWaiting(s, m);
    InsertWaiterKeeps(s.mutexes[m].waiting, u.tasks, c);
  }

  lemma DistinctWaiting(s: State, m: Handle)
    requires Inv(s) && m in s.mutexes
    ensures Distinct(s.mutexes[m].waiting)
  {
    hide HoldersValid, PrioritiesValid, ReadyValid;
  }

  lemma WaitsWhere(s: State, t: Task, x: Handle)
    requires Inv(s) && t in s.tasks && x in s.mutexes
    ensures t in s.mutexes[x].waiting <==> s.tasks[t].call.Waiting? && s.tasks[t].call.m == x
  {
    hide HoldersValid, PrioritiesValid, ReadyValid;
  }

  /** Blocking keeps the holders on top if and only if the holder is not at the lower end of a chain of waits. */
  lemma WaitIff(s: State)
    requires Inv(s) && Dominates(s) && Enabled(s, Wait)
    ensures Dominates(Next(s, Wait)) <==> !Chained(s)
  {
    hide Inv, Next;
    var c, m, n := s.current, s.tasks[s.current].call.m, Next(s, Wait);
    WaitHolder(s);
    var h, p := s.mutexes[m].holder.value, s.tasks[c].priority;
    WaitShape(s, h);
    WaitsWhere(s, c, m);
    if Chained(s) {
      var x := s.tasks[h].call.m;
      WaitsWhere(s, h, x);
      assert !Covers(n.mutexes[x], n.tasks);
    } else {
      forall x | x in n.mutexes ensures Covers(n.mutexes[x], n.tasks) {
        assert Covers(s.mutexes[x], s.tasks);
        WaitsWhere(s, h, x);
        WaitsWhere(s, c, x);
      }
    }
  }

  lemma WaitHolder(s: State)
    requires Inv(s) && Enabled(s, Wait)
    ensures s.mutexes[s.tasks[s.current].call.m].holder.Some?
  {
    hide PrioritiesValid, ReadyValid, WaitersValid;
    MutexHere(s.mutexes, s.tasks, s.tasks[s.current].call.m);
  }

  /** The priority wanted after a time-out is not above the holder's own. */
  lemma WantedIsNoRise(s: State, m: Handle)
    requires Inv(s) && Dominates(s) && m in s.mutexes && s.mutexes[m].holder.Some?
    ensures var h := s.mutexes[m].holder.value;
      h in s.tasks && Wanted(s, h, HighestWaiting(s, m)) <= s.tasks[h].priority
  {
    hide ReadyValid;
    var h, waiting := s.mutexes[m].holder.value, s.mutexes[m].waiting;
    assert Covers(s.mutexes[m], s.tasks);
    assert PriorityValid(s.tasks[h], |s.ready|);
    if waiting != [] {
      assert waiting[0] in waiting;
      assert PriorityValid(s.tasks[waiting[0]], |s.ready|);
    }
  }

  lemma GiveBackIff(s: State)
    requires Inv(s) && Dominates(s) && Enabled(s, GivePriorityBack)
    ensures Dominates(Next(s, GivePriorityBack)) <==> Safe(s, GivePriorityBack)
  {
    hide Inv, Next, HighestWaiting, Wanted;
    var m := s.tasks[s.current].call.m;
    var h, n := s.mutexes[m].holder, Next(s, GivePriorityBack);
    GiveBackShape(s, m);
    assert Covers(s.mutexes[m], s.tasks);
    if h.Some? && s.tasks[h.value].held == 1 {
      WantedIsNoRise(s, m);
      forall x | x in s.mutexes && x != m ensures Covers(n.mutexes[x], n.tasks) {
        assert Covers(s.mutexes[x], s.tasks);
        if s.mutexes[x].holder == h { OneHeld(s, m, x); }
      }
      assert Dominates(n) <==> Covers(n.mutexes[m], n.tasks);
    } else {
      QuietDominates(s, n);
    }
  }

  // ---- Every step.

  /** Giving a mutex back lowers the giver only when it holds none, and a mutex without a holder has nobody to cover. */
  lemma ReleaseDominates(s: State, m: Handle)
    requires Inv(s) && Dominates(s) && Running(s) && s.tasks[s.current].held > 0
    requires m in s.mutexes && s.mutexes[m].holder == Some(s.current)
    ensures Dominates(Release(SetCall(s, s.current, NoCall), m))
  {
    hide Inv, Release;
    var c, n := s.current, Release(SetCall(s, s.current, NoCall), m);
    ReleaseShape(s, m);
    forall x | x in n.mutexes && x != m ensures Covers(n.mutexes[x], n.tasks) {
      assert Covers(s.mutexes[x], s.tasks);
      WaitsWhere(s, c, x);
      if s.mutexes[x].holder == Some(c) && s.tasks[c].held == 1 { OneHeld(s, m, x); }
    }
  }

  lemma LeaveDominates(s: State, m: Handle, t: Task)
    requires Dominates(s) && m in s.mutexes && t in s.tasks
    ensures Dominates(Unwait(s, m, t))
  {
    DropMembers(s.mutexes[m].waiting, t);
    QuietDominates(s, Unwait(s, m, t));
  }

  lemma StepIff(s: State, a: Action)
    requires Inv(s) && Dominates(s)
    ensures Dominates(Next(s, a)) <==> Safe(s, a)
  {
    hide Inv, Dominates, Acquire, Block, Release, Unwait, DisinheritAfterTimeout, HighestWaiting;
    if Enabled(s, a) {
      match a
      case Try => TryIff(s);
      case Wait => WaitIff(s);
      case GivePriorityBack => GiveBackIff(s);
      case Give(m) =>
        if s.mutexes[m].recursive { QuietDominates(s, Next(s, a)); } else { NoCallYet(s); ReleaseDominates(s, m); }
      case SendBack => ReleaseDominates(s, s.tasks[s.current].call.m);
      case Expire(t) => LeaveDominates(s, s.tasks[t].call.m, t);
      case _ => QuietDominates(s, Next(s, a));
    }
  }

  /** At every point of the run, and at every step of it. */
  ghost predicate DominatesThroughout(s: State, actions: seq<Action>) {
    Dominates(Run(s, actions)) && (actions != [] ==> DominatesThroughout(s, actions[..|actions| - 1]))
  }

  predicate SafeThroughout(s: State, actions: seq<Action>) {
    actions != [] ==>
      var before := actions[..|actions| - 1];
      SafeThroughout(s, before) && Safe(Run(s, before), actions[|actions| - 1])
  }

  /** Over every run: holders are never below the tasks waiting for them, at any point of the run, if and only if every
      step of it was safe. */
  lemma {:induction false} DominatesIff(s: State, actions: seq<Action>)
    requires Inv(s) && Dominates(s)
    ensures DominatesThroughout(s, actions) <==> SafeThroughout(s, actions)
    decreases |actions|
  {
    hide Inv, Dominates, Safe, Next;
    if actions != [] {
      var before := actions[..|actions| - 1];
      DominatesIff(s, before);
      RunKeeps(s, before);
      if Dominates(Run(s, before)) { StepIff(Run(s, before), actions[|actions| - 1]); }
    }
  }

  lemma InitialDominates(s: State)
    requires Initial(s)
    ensures Inv(s) && Dominates(s)
  {
    InitialInv(s);
  }

  /** Inheritance is not transitive.  A preemptive run from the start leads to a state in which all is well, task 2 waits
      for task 1 and task 4 is about to wait for task 2; the wait raises task 2 and leaves it waiting for a lower
      priority. */
  lemma NotTransitive() returns (actions: seq<Action>, n: State)
    ensures Initial(START) && Leads(START, actions, n) && Inv(n) && Preemptive(n, Wait)
    ensures Dominates(n) && Chained(n) && !Dominates(Next(n, Wait))
  {
    hide Inv, Leads, Next;
    actions, n := ChainIsReached();
    ChainDominates(n);
    WaitIff(n);
  }

  lemma ChainDominates(n: State)
    requires n.current == 4
    requires n.tasks == Quartet(2, Waiting(1, true), Waiting(1, true), Taking(2, false)) && n.mutexes == Pair([3, 2])
    ensures Dominates(n) && Enabled(n, Wait) && Chained(n)
  {
  }
}
