/**
 What priority inheritance is for: a task that waits for a mutex waits for nobody of a lower priority.  Inheritance is not
 transitive (PriorityDominance says exactly when that matters) and the event lists need not stay in order of priority
 (EventListOrder says exactly when they do), so this is proved of tasks that hold one mutex at a time, in runs in which a
 task takes a mutex only while no ready task has a higher priority.
 */
module PriorityInversion {
  import opened Common
  import opened Mutexes
  import opened MutexProofs

  type Tasks = map<Task, Tcb>
  type Table = map<Handle, Mutex>

  /** A run of this kind. */
  ghost predicate Disciplined(s: State, a: Action) {
    && (a.Take? && Enabled(s, a) ==>
          s.tasks[s.current].held == 0 || (s.mutexes[a.m].holder == Some(s.current) && s.mutexes[a.m].recursive))
    && (a.Try? && Enabled(s, a) ==>
          forall t :: t in s.tasks && Runs(s.tasks[t].call) ==> s.tasks[t].priority <= s.tasks[s.current].priority)
  }

  ghost predicate AllDisciplined(s: State, actions: seq<Action>) {
    actions == [] || (
      var before := actions[..|actions| - 1];
      AllDisciplined(s, before) && Disciplined(Run(s, before), actions[|actions| - 1]))
  }

  // ---- The invariant.

  predicate OneAtATime(tcb: Tcb) {
    tcb.held <= 1 && (tcb.call.Taking? || tcb.call.Waiting? || tcb.call.Expiring? ==> tcb.held == 0)
  }

  /** Every waiting task has priority p at most. */
  ghost predicate AtMost(waiting: seq<Task>, tasks: Tasks, p: int) {
    forall w :: w in waiting ==> w in tasks && tasks[w].priority <= p
  }

  ghost predicate Descending(waiting: seq<Task>, tasks: Tasks) {
    waiting == [] ||
      (waiting[0] in tasks && AtMost(waiting[1..], tasks, tasks[waiting[0]].priority) && Descending(waiting[1..], tasks))
  }

  /** Somebody who was woken for m is still to test it, and waits for nobody of a lower priority. */
  ghost predicate Heir(t: Task, m: Handle, waiting: seq<Task>, tasks: Tasks) {
    t in tasks && tasks[t].call.Taking? && tasks[t].call.m == m && AtMost(waiting, tasks, tasks[t].priority)
  }

  ghost predicate Covered(m: Handle, mutex: Mutex, tasks: Tasks) {
    && Descending(mutex.waiting, tasks)
    && (mutex.holder.Some? ==>
          mutex.holder.value in tasks && AtMost(mutex.waiting, tasks, tasks[mutex.holder.value].priority))
    && (mutex.holder.None? && mutex.waiting != [] ==> exists t :: Heir(t, m, mutex.waiting, tasks))
  }

  ghost predicate NoInversion(mutexes: Table, tasks: Tasks) {
    && (forall t :: t in tasks ==> OneAtATime(tasks[t]))
    && (forall m :: m in mutexes ==> Covered(m, mutexes[m], tasks))
  }

  // ---- Changes to one task.

  lemma AtMostStays(waiting: seq<Task>, tasks: Tasks, p: int, t: Task, tcb: Tcb)
    requires AtMost(waiting, tasks, p) && (t in waiting ==> tcb.priority <= p)
    ensures AtMost(waiting, tasks[t := tcb], p)
  {
  }

  lemma {:induction false} DescendingStays(waiting: seq<Task>, tasks: Tasks, t: Task, tcb: Tcb)
    requires Descending(waiting, tasks) && (t in waiting ==> t in tasks && tcb.priority == tasks[t].priority)
    ensures Descending(waiting, tasks[t := tcb])
  {
    hide AtMost;
    if waiting != [] {
      var p := tasks[waiting[0]].priority;
      if t in waiting[1..] { InAtMost(waiting[1..], tasks, p, t); }
      AtMostStays(waiting[1..], tasks, p, t, tcb);
      DescendingStays(waiting[1..], tasks, t, tcb);
    }
  }

  lemma InAtMost(waiting: seq<Task>, tasks: Tasks, p: int, t: Task)
    requires AtMost(waiting, tasks, p) && t in waiting
    ensures t in tasks && tasks[t].priority <= p
  {
  }

  /** A task that is not on the list, and not needed as heir, may change; a holder may not fall below a waiting task. */
  lemma CoveredStays(m: Handle, mutex: Mutex, tasks: Tasks, t: Task, tcb: Tcb)
    requires Covered(m, mutex, tasks) && t in tasks
    requires t in mutex.waiting ==> tcb.priority == tasks[t].priority
    requires mutex.holder == Some(t) ==> AtMost(mutex.waiting, tasks, tcb.priority)
    requires mutex.holder.None? && tasks[t].call.Taking? && tasks[t].call.m == m ==>
      tcb.call == tasks[t].call && tcb.priority == tasks[t].priority
    ensures Covered(m, mutex, tasks[t := tcb])
  {
    hide AtMost, Descending;
    var after := tasks[t := tcb];
    DescendingStays(mutex.waiting, tasks, t, tcb);
    if mutex.holder.Some? {
      var h := mutex.holder.value;
      if t in mutex.waiting { InAtMost(mutex.waiting, tasks, tasks[h].priority, t); }
      if h == t {
        if t in mutex.waiting { InAtMost(mutex.waiting, tasks, tcb.priority, t); }
      }
      AtMostStays(mutex.waiting, tasks, after[h].priority, t, tcb);
    } else if mutex.waiting != [] {
      var heir :| Heir(heir, m, mutex.waiting, tasks);
      if t in mutex.waiting { InAtMost(mutex.waiting, tasks, tasks[heir].priority, t); }
      AtMostStays(mutex.waiting, tasks, tasks[heir].priority, t, tcb);
      assert Heir(heir, m, mutex.waiting, after);
    }
  }

  /** t neither waits on a list nor is wanted as an heir. */
  ghost predicate Free(mutexes: Table, tasks: Tasks, t: Task) {
    && t in tasks
    && (forall m :: m in mutexes ==> t !in mutexes[m].waiting)
    && (tasks[t].call.Taking? && tasks[t].call.m in mutexes ==> mutexes[tasks[t].call.m].holder.Some?)
  }

  lemma FreeTask(mutexes: Table, tasks: Tasks, t: Task, tcb: Tcb)
    requires NoInversion(mutexes, tasks) && Free(mutexes, tasks, t) && OneAtATime(tcb)
    requires forall m :: m in mutexes && mutexes[m].holder == Some(t) ==> AtMost(mutexes[m].waiting, tasks, tcb.priority)
    ensures NoInversion(mutexes, tasks[t := tcb])
  {
    hide AtMost, Covered, OneAtATime;
    forall m | m in mutexes ensures Covered(m, mutexes[m], tasks[t := tcb]) {
      CoveredStays(m, mutexes[m], tasks, t, tcb);
    }
  }

  /** Changing anything but the priority. */
  lemma SamePriority(mutexes: Table, tasks: Tasks, t: Task, tcb: Tcb)
    requires NoInversion(mutexes, tasks) && Free(mutexes, tasks, t) && OneAtATime(tcb)
    requires tcb.priority == tasks[t].priority
    ensures NoInversion(mutexes, tasks[t := tcb])
  {
    hide AtMost, OneAtATime, Descending;
    FreeTask(mutexes, tasks, t, tcb);
  }

  lemma SameWaiting(mutexes: Table, tasks: Tasks, m: Handle, mutex: Mutex)
    requires NoInversion(mutexes, tasks) && m in mutexes
    requires mutex.holder == mutexes[m].holder && mutex.waiting == mutexes[m].waiting
    ensures NoInversion(mutexes[m := mutex], tasks)
  {
    hide AtMost, Descending, OneAtATime;
  }

  /** Replacing one mutex and one task, when the other mutexes do not care about the task. */
  lemma BothChange(mutexes: Table, tasks: Tasks, m: Handle, mutex: Mutex, t: Task, tcb: Tcb)
    requires NoInversion(mutexes, tasks) && m in mutexes && t in tasks && OneAtATime(tcb)
    requires tcb.priority == tasks[t].priority && (tasks[t].call.Taking? ==> tasks[t].call.m == m)
    requires Covered(m, mutex, tasks[t := tcb])
    ensures NoInversion(mutexes[m := mutex], tasks[t := tcb])
  {
    hide AtMost, Descending, OneAtATime, Covered;
    forall x | x in mutexes && x != m ensures Covered(x, mutexes[x], tasks[t := tcb]) {
      if mutexes[x].holder == Some(t) { HolderCovers(x, mutexes[x], tasks); }
      CoveredStays(x, mutexes[x], tasks, t, tcb);
    }
  }

  lemma HolderCovers(m: Handle, mutex: Mutex, tasks: Tasks)
    requires Covered(m, mutex, tasks) && mutex.holder.Some?
    ensures mutex.holder.value in tasks && AtMost(mutex.waiting, tasks, tasks[mutex.holder.value].priority)
    ensures Descending(mutex.waiting, tasks)
  {
  }

  // ---- The state machine.

  lemma FreeRunner(s: State, t: Task)
    requires Inv(s) && t in s.tasks && !s.tasks[t].call.Waiting?
    requires s.tasks[t].call.Taking? && s.tasks[t].call.m in s.mutexes ==> s.mutexes[s.tasks[t].call.m].count == 0
    ensures Free(s.mutexes, s.tasks, t)
  {
    hide PrioritiesValid, ReadyValid;
  }

  lemma TaskIsOne(s: State, t: Task)
    requires NoInversion(s.mutexes, s.tasks) && t in s.tasks
    ensures OneAtATime(s.tasks[t])
  {
  }

  lemma MutexIsCovered(s: State, m: Handle)
    requires NoInversion(s.mutexes, s.tasks) && m in s.mutexes
    ensures Covered(m, s.mutexes[m], s.tasks)
  {
  }

  /** Steps of a task that change no priority and no mutex. */
  lemma QuietStep(s: State, t: Task, tcb: Tcb)
    requires Inv(s) && NoInversion(s.mutexes, s.tasks) && t in s.tasks && !s.tasks[t].call.Waiting?
    requires s.tasks[t].call.Taking? && s.tasks[t].call.m in s.mutexes ==> s.mutexes[s.tasks[t].call.m].count == 0
    requires tcb.priority == s.tasks[t].priority && OneAtATime(tcb)
    ensures NoInversion(s.mutexes, s.tasks[t := tcb])
  {
    hide Inv, NoInversion, OneAtATime;
    FreeRunner(s, t);
    SamePriority(s.mutexes, s.tasks, t, tcb);
  }

  /** A task with the highest ready priority takes a free mutex. */
  lemma TryStep(s: State)
    requires Inv(s) && NoInversion(s.mutexes, s.tasks) && Enabled(s, Try) && Disciplined(s, Try)
    ensures NoInversion(Next(s, Try).mutexes, Next(s, Try).tasks)
  {
    hide AtMost, Descending, HoldersValid, PrioritiesValid, ReadyValid, WaitersValid, NoInversion;
    var c := s.current;
    var m := s.tasks[c].call.m;
    var n := Next(s, Try);
    var tcb, mutex := n.tasks[c], n.mutexes[m];
    MutexHere(s.mutexes, s.tasks, m);
    TaskIsOne(s, c);
    MutexIsCovered(s, m);
    OwnMutex(s, m);
    DescendingStays(mutex.waiting, s.tasks, c, tcb);
    if mutex.waiting != [] {
      var heir :| Heir(heir, m, mutex.waiting, s.tasks);
      AtMostRaises(mutex.waiting, s.tasks, s.tasks[heir].priority, tcb.priority);
    } else {
      NobodyAtMost(s.tasks, tcb.priority);
    }
    AtMostStays(mutex.waiting, s.tasks, tcb.priority, c, tcb);
    BothChange(s.mutexes, s.tasks, m, mutex, c, tcb);
  }

  lemma OwnMutex(s: State, m: Handle)
    requires Inv(s) && s.current in s.tasks && m in s.mutexes && !s.tasks[s.current].call.Waiting?
    ensures s.current !in s.mutexes[m].waiting
  {
    hide HoldersValid, PrioritiesValid, ReadyValid;
  }

  lemma AtMostRaises(waiting: seq<Task>, tasks: Tasks, p: int, q: int)
    requires AtMost(waiting, tasks, p) && p <= q
    ensures AtMost(waiting, tasks, q)
  {
  }

  lemma NobodyAtMost(tasks: Tasks, p: int)
    ensures AtMost([], tasks, p)
  {
  }

  /** Whoever holds a mutex neither waits nor tests one. */
  lemma HolderIsFree(s: State, m: Handle)
    requires Inv(s) && NoInversion(s.mutexes, s.tasks) && m in s.mutexes && s.mutexes[m].holder.Some?
    ensures var h := s.mutexes[m].holder.value;
      && h in s.tasks && s.tasks[h].held == 1 && Free(s.mutexes, s.tasks, h)
      && forall x :: x in s.mutexes && s.mutexes[x].holder == Some(h) ==> x == m
  {
    hide NoInversion;
    var h := s.mutexes[m].holder.value;
    HolderHolds(s, m);
    TaskIsOne(s, h);
    forall x | x in s.mutexes && s.mutexes[x].holder == Some(h) ensures x == m {
      TheOnlyOne(HeldBy(s.mutexes, h), m, x);
    }
  }

  /** Raising or lowering the priority of a holder. */
  lemma HolderStep(s: State, m: Handle, tcb: Tcb)
    requires Inv(s) && NoInversion(s.mutexes, s.tasks) && m in s.mutexes && s.mutexes[m].holder.Some?
    requires var h := s.mutexes[m].holder.value;
      h in s.tasks && tcb.held == s.tasks[h].held && tcb.call == s.tasks[h].call
    requires AtMost(s.mutexes[m].waiting, s.tasks, tcb.priority)
    ensures NoInversion(s.mutexes, s.tasks[s.mutexes[m].holder.value := tcb])
  {
    hide Inv, NoInversion, AtMost;
    HolderIsFree(s, m);
    TaskIsOne(s, s.mutexes[m].holder.value);
    FreeTask(s.mutexes, s.tasks, s.mutexes[m].holder.value, tcb);
  }

  /** The holder inherits the priority of the task that is about to wait. */
  lemma InheritStep(s: State, m: Handle)
    requires Inv(s) && NoInversion(s.mutexes, s.tasks) && Enabled(s, Wait) && m == s.tasks[s.current].call.m
    ensures s.mutexes[m].holder.Some? && s.mutexes[m].holder.value in s.tasks
    ensures var u := Inherit(s, s.mutexes[m].holder);
      && u.tasks.Keys == s.tasks.Keys && s.tasks[s.current] == u.tasks[s.current]
      && u.mutexes == s.mutexes && u.current == s.current
      && NoInversion(u.mutexes, u.tasks)
      && s.tasks[s.current].priority <= u.tasks[s.mutexes[m].holder.value].priority
  {
    hide AtMost, Descending, NoInversion, HoldersValid, PrioritiesValid, ReadyValid, WaitersValid;
    MutexHere(s.mutexes, s.tasks, m);
    MutexIsCovered(s, m);
    HolderIsFree(s, m);
    TaskIsOne(s, s.current);
    var h, p := s.mutexes[m].holder.value, s.tasks[s.current].priority;
    if s.tasks[h].priority < p {
      AtMostRaises(s.mutexes[m].waiting, s.tasks, s.tasks[h].priority, p);
      HolderStep(s, m, Reprioritise(s, h, p).tasks[h]);
    }
  }

  /** Items of tasks on the list are in use for their priority. */
  ghost predicate ItemsShow(waiting: seq<Task>, tasks: Tasks, n: nat) {
    forall w :: w in waiting ==> w in tasks && tasks[w].item == n - tasks[w].priority
  }

  /** vListInsert keeps an event list in order of priority. */
  lemma {:induction false} InsertDescending(waiting: seq<Task>, tasks: Tasks, t: Task, n: nat)
    requires Descending(waiting, tasks) && t in tasks && t !in waiting
    requires ItemsShow(waiting, tasks, n) && tasks[t].item == n - tasks[t].priority
    ensures Descending(InsertWaiter(waiting, tasks, t), tasks)
    ensures forall p :: AtMost(waiting, tasks, p) && tasks[t].priority <= p ==>
      AtMost(InsertWaiter(waiting, tasks, t), tasks, p)
  {
    if waiting == [] || tasks[t].item < tasks[waiting[0]].item {
      assert ([t] + waiting)[1..] == waiting;
    } else {
      assert forall w :: w in waiting[1..] ==> w in waiting;
      InsertDescending(waiting[1..], tasks, t, n);
      var after := InsertWaiter(waiting[1..], tasks, t);
      assert ([waiting[0]] + after)[1..] == after;
      assert AtMost(after, tasks, tasks[waiting[0]].priority);
    }
  }

  lemma ItemsAreShown(s: State, m: Handle)
    requires Inv(s) && m in s.mutexes
    ensures ItemsShow(s.mutexes[m].waiting, s.tasks, |s.ready|)
  {
    hide HoldersValid, ReadyValid;
  }

  lemma WaitStep(s: State)
    requires Inv(s) && NoInversion(s.mutexes, s.tasks) && Enabled(s, Wait)
    ensures NoInversion(Next(s, Wait).mutexes, Next(s, Wait).tasks)
  {
    hide Inv, NoInversion, AtMost, Descending, Inherit, InsertWaiter, ItemsShow;
    var c := s.current;
    var m := s.tasks[c].call.m;
    InheritStep(s, m);
    var h := s.mutexes[m].holder;
    var u := Inherit(s, h);
    HolderIsFree(s, m);
    TaskIsOne(s, c);
    InheritKeeps(s, h);
    InheritFrame(s, h);
    MutexIsCovered(u, m);
    OwnMutex(u, m);
    ItemsAreShown(u, m);
    InReadyList(u, c);
    var n := Next(s, Wait);
    var tcb, waiting := n.tasks[c], u.mutexes[m].waiting;
    InsertDescending(waiting, u.tasks, c, |u.ready|);
    var more := n.mutexes[m].waiting;
    DescendingStays(more, u.tasks, c, tcb);
    AtMostStays(more, u.tasks, u.tasks[h.value].priority, c, tcb);
    BothChange(u.mutexes, u.tasks, m, n.mutexes[m], c, tcb);
  }

  /** After a time-out the holder keeps the priority of the first task still waiting, which is the highest. */
  lemma GiveBackStep(s: State)
    requires Inv(s) && NoInversion(s.mutexes, s.tasks) && Enabled(s, GivePriorityBack)
    ensures NoInversion(Next(s, GivePriorityBack).mutexes, Next(s, GivePriorityBack).tasks)
  {
    hide Inv, NoInversion, AtMost, Descending, HighestWaiting, OneAtATime;
    var c := s.current;
    var m := s.tasks[c].call.m;
    var h, highest := s.mutexes[m].holder, HighestWaiting(s, m);
    var u := DisinheritAfterTimeout(s, h, highest);
    DisinheritAfterTimeoutKeeps(s, m);
    if h.Some? {
      WaitersBelowHighest(s, m);
      AtMostRaises(s.mutexes[m].waiting, s.tasks, highest, Wanted(s, h.value, highest));
      HolderStep(s, m, Reprioritise(s, h.value, Wanted(s, h.value, highest)).tasks[h.value]);
    }
    assert NoInversion(u.mutexes, u.tasks) && u.tasks[c].call.Expiring?;
    TaskIsOne(u, c);
    ExpiringIsOne(u.tasks[c]);
    QuietStep(u, c, u.tasks[c].(call := NoCall));
  }

  lemma ExpiringIsOne(tcb: Tcb)
    requires OneAtATime(tcb)
    ensures OneAtATime(tcb.(call := NoCall))
  {
  }

  lemma WaitersBelowHighest(s: State, m: Handle)
    requires Inv(s) && NoInversion(s.mutexes, s.tasks) && m in s.mutexes
    ensures AtMost(s.mutexes[m].waiting, s.tasks, HighestWaiting(s, m))
  {
    hide Inv, NoInversion;
    MutexIsCovered(s, m);
    ItemsAreShown(s, m);
    var w := s.mutexes[m].waiting;
    assert forall t :: t in w ==> t == w[0] || t in w[1..];
  }

  /** A task leaves the list to test the mutex again. */
  lemma {:induction false} DropDescending(waiting: seq<Task>, tasks: Tasks, t: Task)
    requires Descending(waiting, tasks)
    ensures Descending(Drop(waiting, t), tasks)
    ensures forall p :: AtMost(waiting, tasks, p) ==> AtMost(Drop(waiting, t), tasks, p)
  {
    if waiting != [] && waiting[0] != t {
      DropDescending(waiting[1..], tasks, t);
      var after := Drop(waiting[1..], t);
      assert ([waiting[0]] + after)[1..] == after;
      assert forall w :: w in waiting[1..] ==> w in waiting;
    } else if waiting != [] {
      assert forall w :: w in waiting[1..] ==> w in waiting;
    }
  }

  lemma ExpireStep(s: State, t: Task)
    requires Inv(s) && NoInversion(s.mutexes, s.tasks) && Enabled(s, Expire(t))
    ensures NoInversion(Next(s, Expire(t)).mutexes, Next(s, Expire(t)).tasks)
  {
    hide Inv, NoInversion, AtMost, Descending, Drop;
    var m := s.tasks[t].call.m;
    var n := Next(s, Expire(t));
    var before, after, tcb := s.mutexes[m], n.mutexes[m], n.tasks[t];
    MutexIsCovered(s, m);
    TaskIsOne(s, t);
    DropDescending(before.waiting, s.tasks, t);
    LeavesList(s, t);
    DescendingStays(after.waiting, s.tasks, t, tcb);
    if before.holder.Some? {
      HolderIsFree(s, m);
      AtMostStays(after.waiting, s.tasks, s.tasks[before.holder.value].priority, t, tcb);
      HolderIsNotWaiting(s, m, t);
    } else if after.waiting != [] {
      assert before.waiting != [] by { DropNothing(before.waiting, t); }
      var heir :| Heir(heir, m, before.waiting, s.tasks);
      AtMostStays(after.waiting, s.tasks, s.tasks[heir].priority, t, tcb);
      assert Heir(heir, m, after.waiting, n.tasks);
    }
    BothChange(s.mutexes, s.tasks, m, after, t, tcb);
  }

  lemma DropNothing<T>(s: seq<T>, x: T)
    ensures s == [] ==> Drop(s, x) == []
  {
  }

  lemma LeavesList(s: State, t: Task)
    requires Inv(s) && t in s.tasks && s.tasks[t].call.Waiting? && s.tasks[t].call.m in s.mutexes
    ensures t in s.mutexes[s.tasks[t].call.m].waiting && t !in Drop(s.mutexes[s.tasks[t].call.m].waiting, t)
  {
    hide HoldersValid, PrioritiesValid, ReadyValid;
    DropKeeps(s.mutexes[s.tasks[t].call.m].waiting, t);
  }

  lemma HolderIsNotWaiting(s: State, m: Handle, t: Task)
    requires Inv(s) && NoInversion(s.mutexes, s.tasks) && m in s.mutexes && s.mutexes[m].holder.Some?
    requires t in s.tasks && s.tasks[t].call.Waiting?
    ensures s.mutexes[m].holder.value != t
  {
    hide Inv, NoInversion;
    TaskIsOne(s, t);
    HolderIsFree(s, m);
  }

  /** The mutex is given back to its first waiter, the heir of the others. */
  lemma ReleaseStep(s: State, m: Handle)
    requires Inv(s) && NoInversion(s.mutexes, s.tasks) && Running(s)
    requires m in s.mutexes && s.mutexes[m].holder == Some(s.current) && s.tasks[s.current].held > 0
    requires s.tasks[s.current].call == NoCall || s.tasks[s.current].call == Sending(m)
    ensures var u := SetCall(s, s.current, NoCall);
      NoInversion(Release(u, m).mutexes, Release(u, m).tasks)
  {
    hide Inv, NoInversion, Drop, Release;
    var c := s.current;
    var n, waiting := Release(SetCall(s, c, NoCall), m), s.mutexes[m].waiting;
    HolderIsFree(s, m);
    OwnMutex(s, m);
    if waiting == [] {
      ReleaseQuietly(s, m);
      NobodyWaits(s.mutexes, s.tasks, m, n.mutexes[m]);
      GiverStep(s, m, n.mutexes, s.tasks, n.tasks[c]);
    } else {
      var w := waiting[0];
      HeadWaits(s, m);
      ReleaseWakes(s, m);
      HandOver(s, m, n.mutexes[m], n.tasks[w]);
      GiverStep(s, m, n.mutexes, s.tasks[w := n.tasks[w]], n.tasks[c]);
    }
  }

  /** The first waiter becomes the heir of the others. */
  lemma HandOver(s: State, m: Handle, mutex: Mutex, woken: Tcb)
    requires Inv(s) && NoInversion(s.mutexes, s.tasks) && m in s.mutexes
    requires s.mutexes[m].waiting != [] && s.mutexes[m].waiting[0] in s.tasks
    requires mutex.holder.None? && mutex.waiting == Drop(s.mutexes[m].waiting, s.mutexes[m].waiting[0])
    requires var waited := s.tasks[s.mutexes[m].waiting[0]];
      woken.call.Taking? && woken.call.m == m && woken.priority == waited.priority && woken.held == waited.held
    ensures NoInversion(s.mutexes[m := mutex], s.tasks[s.mutexes[m].waiting[0] := woken])
    ensures forall t :: t in mutex.waiting ==> t in s.mutexes[m].waiting
  {
    hide Inv, NoInversion, AtMost, Descending, Drop;
    var waiting := s.mutexes[m].waiting;
    var w := waiting[0];
    HeadWaits(s, m);
    MutexIsCovered(s, m);
    TaskIsOne(s, w);
    DropDescending(waiting, s.tasks, w);
    LeavesList(s, w);
    DropHead(waiting);
    HeadHighest(waiting, s.tasks);
    DescendingStays(mutex.waiting, s.tasks, w, woken);
    AtMostStays(mutex.waiting, s.tasks, woken.priority, w, woken);
    assert Heir(w, m, mutex.waiting, s.tasks[w := woken]);
    BothChange(s.mutexes, s.tasks, m, mutex, w, woken);
  }

  lemma HeadHighest(waiting: seq<Task>, tasks: Tasks)
    requires Descending(waiting, tasks) && waiting != []
    ensures waiting[0] in tasks && AtMost(waiting[1..], tasks, tasks[waiting[0]].priority)
  {
    hide AtMost;
  }

  lemma DropHead<T>(s: seq<T>)
    requires s != []
    ensures Drop(s, s[0]) == s[1..]
  {
  }

  lemma NobodyWaits(mutexes: Table, tasks: Tasks, m: Handle, mutex: Mutex)
    requires NoInversion(mutexes, tasks) && m in mutexes
    requires mutexes[m].waiting == [] && mutex.waiting == [] && mutex.holder.None?
    ensures NoInversion(mutexes[m := mutex], tasks)
  {
    hide AtMost, OneAtATime;
  }

  /** The giver, who holds nothing now, drops to any priority. */
  lemma GiverStep(s: State, m: Handle, mutexes: Table, tasks: Tasks, tcb: Tcb)
    requires Inv(s) && NoInversion(s.mutexes, s.tasks) && NoInversion(mutexes, tasks)
    requires m in s.mutexes && s.mutexes[m].holder == Some(s.current) && mutexes.Keys == s.mutexes.Keys
    requires mutexes[m].holder.None? && forall x :: x in mutexes && x != m ==> mutexes[x] == s.mutexes[x]
    requires forall t :: t in mutexes[m].waiting ==> t in s.mutexes[m].waiting
    requires s.current in tasks && !tasks[s.current].call.Taking? && tcb.call == NoCall && tcb.held == 0
    ensures NoInversion(mutexes, tasks[s.current := tcb])
  {
    hide Inv, NoInversion, AtMost;
    HolderIsFree(s, m);
    FreeTask(mutexes, tasks, s.current, tcb);
  }

  lemma GiveStep(s: State, m: Handle)
    requires Inv(s) && NoInversion(s.mutexes, s.tasks) && Enabled(s, Give(m))
    ensures NoInversion(Next(s, Give(m)).mutexes, Next(s, Give(m)).tasks)
  {
    hide Inv, NoInversion, Release;
    var mutex := s.mutexes[m];
    if !mutex.recursive {
      NoCallYet(s);
      ReleaseStep(s, m);
    } else if mutex.depth == 1 {
      TaskIsOne(s, s.current);
      QuietStep(s, s.current, s.tasks[s.current].(call := Sending(m)));
      SameWaiting(s.mutexes, s.tasks[s.current := s.tasks[s.current].(call := Sending(m))], m, mutex.(depth := 0));
    } else {
      SameWaiting(s.mutexes, s.tasks, m, mutex.(depth := mutex.depth - 1));
    }
  }

  lemma TakeStep(s: State, m: Handle)
    requires Inv(s) && NoInversion(s.mutexes, s.tasks) && Enabled(s, Take(m)) && Disciplined(s, Take(m))
    ensures NoInversion(Next(s, Take(m)).mutexes, Next(s, Take(m)).tasks)
  {
    hide Inv, NoInversion;
    var c, mutex := s.current, s.mutexes[m];
    TaskIsOne(s, c);
    if mutex.holder == Some(c) {
      HolderHolds(s, m);
      SameWaiting(s.mutexes, s.tasks, m, mutex.(depth := mutex.depth + 1));
    } else {
      QuietStep(s, c, s.tasks[c].(call := Taking(m, false)));
    }
  }

  lemma CountStep(s: State)
    requires Inv(s) && NoInversion(s.mutexes, s.tasks) && Enabled(s, CountCall)
    ensures NoInversion(Next(s, CountCall).mutexes, Next(s, CountCall).tasks)
  {
    hide Inv, NoInversion;
    var c, m := s.current, s.tasks[s.current].call.m;
    TaskIsOne(s, c);
    QuietStep(s, c, s.tasks[c].(call := NoCall));
    SameWaiting(s.mutexes, s.tasks[c := s.tasks[c].(call := NoCall)], m, s.mutexes[m].(depth := s.mutexes[m].depth + 1));
  }

  lemma NextStep(s: State, a: Action)
    requires Inv(s) && NoInversion(s.mutexes, s.tasks) && Disciplined(s, a)
    ensures NoInversion(Next(s, a).mutexes, Next(s, a).tasks)
  {
    hide Inv, NoInversion, Disciplined, Acquire, Block, Release, Unwait, DisinheritAfterTimeout;
    if Enabled(s, a) {
      if s.current in s.tasks { TaskIsOne(s, s.current); }
      match a
      case Take(m) => TakeStep(s, m);
      case Try => TryStep(s);
      case Wait => WaitStep(s);
      case Quit => QuietStep(s, s.current, Next(s, a).tasks[s.current]);
      case TimedOut => QuietStep(s, s.current, Next(s, a).tasks[s.current]);
      case GivePriorityBack => GiveBackStep(s);
      case CountCall => CountStep(s);
      case Give(m) => GiveStep(s, m);
      case SendBack => ReleaseStep(s, s.tasks[s.current].call.m);
      case Expire(t) => ExpireStep(s, t);
      case Sleep(_) => QuietStep(s, s.current, Next(s, a).tasks[s.current]);
      case WakeUp(t) => TaskIsOne(s, t); QuietStep(s, t, Next(s, a).tasks[t]);
      case ResetItem => QuietStep(s, s.current, Next(s, a).tasks[s.current]);
      case Switch(_) =>
    }
  }

  lemma {:induction false} RunStep(s: State, actions: seq<Action>)
    requires Inv(s) && NoInversion(s.mutexes, s.tasks) && AllDisciplined(s, actions)
    ensures NoInversion(Run(s, actions).mutexes, Run(s, actions).tasks)
    decreases |actions|
  {
    hide Inv, NoInversion, Disciplined, Next;
    if actions != [] {
      var before := actions[..|actions| - 1];
      RunStep(s, before);
      RunKeeps(s, before);
      NextStep(Run(s, before), actions[|actions| - 1]);
    }
  }

  lemma InitialNoInversion(s: State)
    requires Initial(s)
    ensures Inv(s) && NoInversion(s.mutexes, s.tasks)
  {
    InitialInv(s);
  }

  /** No priority inversion: in every run in which tasks hold one mutex at a time and test a mutex only while no ready
      task has a higher priority, the holder of a mutex has at least the priority of every task waiting for it. */
  lemma NoPriorityInversion(s: State, actions: seq<Action>, m: Handle, w: Task)
    requires Inv(s) && NoInversion(s.mutexes, s.tasks) && AllDisciplined(s, actions)
    requires m in Run(s, actions).mutexes && w in Run(s, actions).mutexes[m].waiting
    ensures var r := Run(s, actions);
      w in r.tasks && (r.mutexes[m].holder.Some? ==>
        r.mutexes[m].holder.value in r.tasks && r.tasks[w].priority <= r.tasks[r.mutexes[m].holder.value].priority)
    // a mutex that is free while tasks wait for it is about to be tested by a task of no lower priority
    ensures var r := Run(s, actions);
      r.mutexes[m].holder.None? ==>
        exists t :: t in r.tasks && r.tasks[t].call.Taking? && r.tasks[t].call.m == m
                    && r.tasks[w].priority <= r.tasks[t].priority
  {
    hide Inv, NoInversion, Run, AtMost, Descending;
    RunStep(s, actions);
    var r := Run(s, actions);
    MutexIsCovered(r, m);
    if r.mutexes[m].holder.Some? {
      InAtMost(r.mutexes[m].waiting, r.tasks, r.tasks[r.mutexes[m].holder.value].priority, w);
    } else {
      var t :| Heir(t, m, r.mutexes[m].waiting, r.tasks);
      InAtMost(r.mutexes[m].waiting, r.tasks, r.tasks[t].priority, w);
    }
  }
}
