/** The mutex and inheritance invariant, over every run. */
module MutexProofs {
  import opened Common
  import opened Mutexes

  /** The ready lists. */

  lemma LeaveReady(ready: seq<seq<Task>>, tasks: map<Task, Tcb>, t: Task, tcb: Tcb)
    requires ReadyValid(ready, tasks) && t in tasks && Runs(tasks[t].call) && tasks[t].priority < |ready|
    requires tcb.priority == tasks[t].priority && !Runs(tcb.call)
    ensures ReadyValid(Unready(ready, t, tcb.priority), tasks[t := tcb])
  {
    DropKeeps(ready[tcb.priority], t);
  }

  lemma EnterReady(ready: seq<seq<Task>>, tasks: map<Task, Tcb>, t: Task, tcb: Tcb)
    requires ReadyValid(ready, tasks) && t in tasks && !Runs(tasks[t].call)
    requires tcb.priority < |ready| && Runs(tcb.call)
    ensures ReadyValid(MakeReady(ready, t, tcb.priority), tasks[t := tcb])
  {
  }

  lemma StayReady(ready: seq<seq<Task>>, tasks: map<Task, Tcb>, t: Task, tcb: Tcb)
    requires ReadyValid(ready, tasks) && t in tasks
    requires Runs(tcb.call) == Runs(tasks[t].call) && (Runs(tcb.call) ==> tcb.priority == tasks[t].priority)
    ensures ReadyValid(ready, tasks[t := tcb])
  {
  }

  /** A change of priority moves a running task to the other list. */
  lemma MoveReady(ready: seq<seq<Task>>, tasks: map<Task, Tcb>, t: Task, tcb: Tcb)
    requires ReadyValid(ready, tasks) && t in tasks && Runs(tasks[t].call) && tasks[t].priority < |ready|
    requires tcb.call == tasks[t].call && tcb.priority < |ready|
    ensures ReadyValid(MakeReady(Unready(ready, t, tasks[t].priority), t, tcb.priority), tasks[t := tcb])
  {
    hide ReadyValid, MakeReady, Unready;
    var p := tasks[t].priority;
    var out := tasks[t].(call := Asleep);
    LeaveReady(ready, tasks, t, out);
    UnreadyLength(ready, t, p);
    EnterReady(Unready(ready, t, p), tasks[t := out], t, tcb);
    assert tasks[t := out][t := tcb] == tasks[t := tcb];
  }

  lemma UnreadyLength(ready: seq<seq<Task>>, t: Task, p: nat)
    ensures |Unready(ready, t, p)| == |ready| && |MakeReady(ready, t, p)| == |ready|
  {
  }

  /** Holders and waiters do not look at priorities. */

  lemma HoldersStay(mutexes: map<Handle, Mutex>, tasks: map<Task, Tcb>, t: Task, tcb: Tcb)
    requires HoldersValid(mutexes, tasks) && t in tasks && tcb.held == tasks[t].held
    requires tcb.call == tasks[t].call || (!CountIsOff(tcb.call) && !CountIsOff(tasks[t].call))
    ensures HoldersValid(mutexes, tasks[t := tcb])
  {
  }

  lemma WaitersStay(mutexes: map<Handle, Mutex>, tasks: map<Task, Tcb>, t: Task, tcb: Tcb)
    requires WaitersValid(mutexes, tasks) && t in tasks
    requires tcb.call == tasks[t].call || (!tcb.call.Waiting? && !tasks[t].call.Waiting?)
    ensures WaitersValid(mutexes, tasks[t := tcb])
  {
  }

  lemma PrioritiesStay(tasks: map<Task, Tcb>, n: nat, t: Task, tcb: Tcb)
    requires PrioritiesValid(tasks, n) && PriorityValid(tcb, n)
    ensures PrioritiesValid(tasks[t := tcb], n)
  {
  }

  /** Any change of one task's control block that keeps its place. */
  lemma TaskStays(s: State, t: Task, tcb: Tcb)
    requires Inv(s) && t in s.tasks && PriorityValid(tcb, |s.ready|)
    requires tcb.held == s.tasks[t].held && Runs(tcb.call) == Runs(s.tasks[t].call)
    requires Runs(tcb.call) ==> tcb.priority == s.tasks[t].priority
    requires tcb.call == s.tasks[t].call ||
             (!CountIsOff(tcb.call) && !CountIsOff(s.tasks[t].call) && !tcb.call.Waiting? && !s.tasks[t].call.Waiting?)
    ensures Inv(s.(tasks := s.tasks[t := tcb]))
  {
    hide HoldersValid, PrioritiesValid, ReadyValid, WaitersValid;
    HoldersStay(s.mutexes, s.tasks, t, tcb);
    PrioritiesStay(s.tasks, |s.ready|, t, tcb);
    StayReady(s.ready, s.tasks, t, tcb);
    WaitersStay(s.mutexes, s.tasks, t, tcb);
  }

  /** The invariant, but for the priority of t. */
  ghost predicate InvBut(s: State, t: Task) {
    && HoldersValid(s.mutexes, s.tasks) && ReadyValid(s.ready, s.tasks) && WaitersValid(s.mutexes, s.tasks)
    && t in s.tasks && s.tasks[t].priority < |s.ready|
    && (s.tasks[t].borrowed ==> s.tasks[t].call == Asleep || s.tasks[t].call == Returning)
    && forall u :: u in s.tasks && u != t ==> PriorityValid(s.tasks[u], |s.ready|)
  }

  lemma InvButAny(s: State, t: Task)
    requires Inv(s) && t in s.tasks
    ensures InvBut(s, t)
  {
    hide HoldersValid, ReadyValid, WaitersValid;
  }

  /** A task may be given any priority from its base up, and its base if it holds no mutex. */
  lemma ReprioritiseKeeps(s: State, t: Task, p: nat)
    requires InvBut(s, t) && s.tasks[t].base <= p < |s.ready| && (s.tasks[t].held == 0 ==> p == s.tasks[t].base)
    ensures Inv(Reprioritise(s, t, p)) && |Reprioritise(s, t, p).ready| == |s.ready|
  {
    hide HoldersValid, ReadyValid, WaitersValid;
    var tcb := s.tasks[t];
    var after := tcb.(priority := p, item := if tcb.borrowed then tcb.item else ItemValue(s, p));
    ReadyHere(s.ready, s.tasks, t);
    HoldersStay(s.mutexes, s.tasks, t, after);
    WaitersStay(s.mutexes, s.tasks, t, after);
    UnreadyLength(s.ready, t, tcb.priority);
    UnreadyLength(Unready(s.ready, t, tcb.priority), t, p);
    if Runs(tcb.call) {
      MoveReady(s.ready, s.tasks, t, after);
    } else {
      StayReady(s.ready, s.tasks, t, after);
    }
  }

  lemma ReadyHere(ready: seq<seq<Task>>, tasks: map<Task, Tcb>, t: Task)
    requires ReadyValid(ready, tasks) && t in tasks && tasks[t].priority < |ready|
    ensures IsInReadyList(ready, t, tasks[t].priority) <==> Runs(tasks[t].call)
  {
  }

  lemma InReadyList(s: State, t: Task)
    requires Inv(s) && t in s.tasks
    ensures s.tasks[t].priority < |s.ready| && (IsInReadyList(s.ready, t, s.tasks[t].priority) <==> Runs(s.tasks[t].call))
    ensures s.tasks[t].held == |HeldBy(s.mutexes, t)| && PriorityValid(s.tasks[t], |s.ready|)
  {
  }

  /** Taking and giving. */

  lemma WaitersKeep(mutexes: map<Handle, Mutex>, tasks: map<Task, Tcb>, m: Handle, mutex: Mutex)
    requires WaitersValid(mutexes, tasks) && m in mutexes && mutex.waiting == mutexes[m].waiting
    ensures WaitersValid(mutexes[m := mutex], tasks)
  {
  }

  lemma HeldGrows(mutexes: map<Handle, Mutex>, m: Handle, mutex: Mutex, c: Task)
    requires m in mutexes && mutexes[m].holder == None && mutex.holder == Some(c)
    ensures |HeldBy(mutexes[m := mutex], c)| == |HeldBy(mutexes, c)| + 1
    ensures forall t :: t != c ==> HeldBy(mutexes[m := mutex], t) == HeldBy(mutexes, t)
  {
    assert HeldBy(mutexes[m := mutex], c) == HeldBy(mutexes, c) + {m};
  }

  lemma HeldShrinks(mutexes: map<Handle, Mutex>, m: Handle, mutex: Mutex, c: Task)
    requires m in mutexes && mutexes[m].holder == Some(c) && mutex.holder == None
    ensures |HeldBy(mutexes[m := mutex], c)| == |HeldBy(mutexes, c)| - 1
    ensures forall t :: t != c ==> HeldBy(mutexes[m := mutex], t) == HeldBy(mutexes, t)
  {
    assert HeldBy(mutexes[m := mutex], c) == HeldBy(mutexes, c) - {m};
  }

  lemma HeldSame(mutexes: map<Handle, Mutex>, m: Handle, mutex: Mutex)
    requires m in mutexes && mutexes[m].holder == mutex.holder
    ensures forall t :: HeldBy(mutexes[m := mutex], t) == HeldBy(mutexes, t)
  {
  }

  lemma AcquireHolders(mutexes: map<Handle, Mutex>, tasks: map<Task, Tcb>, m: Handle, c: Task, mutex: Mutex, tcb: Tcb)
    requires HoldersValid(mutexes, tasks) && m in mutexes && c in tasks && mutexes[m].count == 1
    requires !CountIsOff(tasks[c].call)
    requires mutex == mutexes[m].(count := 0, holder := Some(c))
    requires tcb.held == tasks[c].held + 1 && tcb.call == if mutex.recursive then Counting(m) else NoCall
    ensures HoldersValid(mutexes[m := mutex], tasks[c := tcb])
  {
    hide HeldBy;
    HeldGrows(mutexes, m, mutex, c);
  }

  lemma AcquireKeeps(s: State, m: Handle)
    requires Inv(s) && s.current in s.tasks && m in s.mutexes && s.mutexes[m].count > 0
    requires s.tasks[s.current].call.Taking?
    ensures Inv(Acquire(s, m))
  {
    hide HoldersValid, PrioritiesValid, ReadyValid, WaitersValid;
    var c, mutex, tcb := s.current, s.mutexes[m], s.tasks[s.current];
    var mutex' := mutex.(count := mutex.count - 1, holder := Some(c));
    var tcb' := tcb.(held := tcb.held + 1, call := if mutex.recursive then Counting(m) else NoCall);
    MutexHere(s.mutexes, s.tasks, m);
    InReadyList(s, c);
    AcquireHolders(s.mutexes, s.tasks, m, c, mutex', tcb');
    PrioritiesStay(s.tasks, |s.ready|, c, tcb');
    StayReady(s.ready, s.tasks, c, tcb');
    WaitersStay(s.mutexes, s.tasks, c, tcb');
    WaitersKeep(s.mutexes, s.tasks[c := tcb'], m, mutex');
  }

  lemma MutexHere(mutexes: map<Handle, Mutex>, tasks: map<Task, Tcb>, m: Handle)
    requires HoldersValid(mutexes, tasks) && m in mutexes
    ensures MutexValid(m, mutexes[m], tasks)
  {
  }

  lemma ReleaseHolders(mutexes: map<Handle, Mutex>, tasks: map<Task, Tcb>, m: Handle, c: Task, mutex: Mutex, tcb: Tcb)
    requires HoldersValid(mutexes, tasks) && m in mutexes && c in tasks
    requires mutexes[m].holder == Some(c) && tasks[c].held > 0
    requires tasks[c].call == NoCall || tasks[c].call == Sending(m)
    requires mutex.count == 1 && mutex.holder == None && mutex.depth == 0
    requires tcb.held == tasks[c].held - 1 && tcb.call == NoCall
    ensures HoldersValid(mutexes[m := mutex], tasks[c := tcb])
  {
    hide HeldBy;
    HeldShrinks(mutexes, m, mutex, c);
  }

  lemma OthersKeepPriority(s: State, c: Task, tcb: Tcb)
    requires PrioritiesValid(s.tasks, |s.ready|) && c in s.tasks
    ensures var tasks := s.tasks[c := tcb]; forall u :: u in tasks && u != c ==> PriorityValid(tasks[u], |s.ready|)
  {
  }

  /** The task gives the mutex back and, with the last one, its inherited priority. */
  lemma ReleaseKeeps(s: State, m: Handle)
    requires Inv(s) && Running(s) && s.tasks[s.current].held > 0
    requires m in s.mutexes && s.mutexes[m].holder == Some(s.current)
    requires s.tasks[s.current].call == if s.mutexes[m].recursive then Sending(m) else NoCall
    ensures Inv(Release(SetCall(s, s.current, NoCall), m))
  {
    hide HoldersValid, PrioritiesValid, ReadyValid, WaitersValid, WakeWaiter;
    var c, tcb, mutex := s.current, s.tasks[s.current], s.mutexes[m];
    var tcb' := tcb.(held := tcb.held - 1, call := NoCall);
    var mutex' := mutex.(holder := None, count := mutex.count + 1);
    MutexHere(s.mutexes, s.tasks, m);
    InReadyList(s, c);
    ReleaseHolders(s.mutexes, s.tasks, m, c, mutex', tcb');
    StayReady(s.ready, s.tasks, c, tcb');
    WaitersStay(s.mutexes, s.tasks, c, tcb');
    WaitersKeep(s.mutexes, s.tasks[c := tcb'], m, mutex');
    OthersKeepPriority(s, c, tcb');
    var v := s.(tasks := s.tasks[c := tcb'], mutexes := s.mutexes[m := mutex']);
    assert SetCall(s, c, NoCall).tasks[c := tcb'] == v.tasks;
    if tcb'.priority != tcb'.base && tcb'.held == 0 {
      ReprioritiseKeeps(v, c, tcb'.base);
      WakeKeeps(Reprioritise(v, c, tcb'.base), m);
    } else {
      PrioritiesStay(s.tasks, |s.ready|, c, tcb');
      WakeKeeps(v, m);
    }
  }

  lemma UnwaitWaiters(mutexes: map<Handle, Mutex>, tasks: map<Task, Tcb>, m: Handle, t: Task, tcb: Tcb)
    requires WaitersValid(mutexes, tasks) && m in mutexes && t in tasks
    requires tasks[t].call.Waiting? && tasks[t].call.m == m && !tcb.call.Waiting?
    ensures WaitersValid(mutexes[m := mutexes[m].(waiting := Drop(mutexes[m].waiting, t))], tasks[t := tcb])
  {
    DropKeeps(mutexes[m].waiting, t);
  }

  lemma UnwaitKeeps(s: State, m: Handle, t: Task)
    requires Inv(s) && m in s.mutexes && t in s.tasks && s.tasks[t].call.Waiting? && s.tasks[t].call.m == m
    ensures Inv(Unwait(s, m, t))
  {
    hide HoldersValid, PrioritiesValid, ReadyValid, WaitersValid;
    var tcb := s.tasks[t];
    var tcb' := tcb.(call := Taking(m, tcb.call.inherited));
    InReadyList(s, t);
    HoldersStay(s.mutexes, s.tasks, t, tcb');
    HoldersWaiting(s.mutexes, s.tasks[t := tcb'], m, Drop(s.mutexes[m].waiting, t));
    PrioritiesStay(s.tasks, |s.ready|, t, tcb');
    EnterReady(s.ready, s.tasks, t, tcb');
    UnreadyLength(s.ready, t, tcb.priority);
    UnwaitWaiters(s.mutexes, s.tasks, m, t, tcb');
  }

  lemma HoldersWaiting(mutexes: map<Handle, Mutex>, tasks: map<Task, Tcb>, m: Handle, waiting: seq<Task>)
    requires HoldersValid(mutexes, tasks) && m in mutexes
    ensures HoldersValid(mutexes[m := mutexes[m].(waiting := waiting)], tasks)
  {
    hide HeldBy;
    HeldSame(mutexes, m, mutexes[m].(waiting := waiting));
  }

  lemma WakeKeeps(s: State, m: Handle)
    requires Inv(s) && m in s.mutexes
    ensures Inv(WakeWaiter(s, m))
  {
    hide HoldersValid, PrioritiesValid, ReadyValid, Unwait;
    var w := s.mutexes[m].waiting;
    if w != [] {
      assert w[0] in w;
      UnwaitKeeps(s, m, w[0]);
    }
  }

  /** Blocking. */

  lemma {:induction false} InsertWaiterKeeps(waiting: seq<Task>, tasks: map<Task, Tcb>, t: Task)
    requires Distinct(waiting) && t in tasks && t !in waiting
    ensures Distinct(InsertWaiter(waiting, tasks, t))
    ensures forall u :: u in InsertWaiter(waiting, tasks, t) <==> u in waiting || u == t
  {
    if waiting != [] && !(waiting[0] in tasks && tasks[t].item < tasks[waiting[0]].item) {
      InsertWaiterKeeps(waiting[1..], tasks, t);
      var after := InsertWaiter(waiting, tasks, t);
      assert after[1..] == InsertWaiter(waiting[1..], tasks, t);
      assert waiting[0] !in after[1..];
    }
  }

  lemma {:induction false} WaitWaiters(mutexes: map<Handle, Mutex>, tasks: map<Task, Tcb>, m: Handle, t: Task, tcb: Tcb)
    requires WaitersValid(mutexes, tasks) && m in mutexes && t in tasks
    requires !tasks[t].call.Waiting? && tcb.call.Waiting? && tcb.call.m == m
    ensures WaitersValid(mutexes[m := mutexes[m].(waiting := InsertWaiter(mutexes[m].waiting, tasks, t))], tasks[t := tcb])
  {
    hide InsertWaiter;
    InsertWaiterKeeps(mutexes[m].waiting, tasks, t);
  }

  lemma InheritKeeps(s: State, holder: Option<Task>)
    requires Inv(s) && s.current in s.tasks && (holder.Some? ==> holder.value in s.tasks && s.tasks[holder.value].held > 0)
    ensures Inv(Inherit(s, holder))
  {
    hide HoldersValid, PrioritiesValid, ReadyValid, WaitersValid, Reprioritise;
    if holder.Some? && s.tasks[holder.value].priority < s.tasks[s.current].priority {
      InReadyList(s, s.current);
      InReadyList(s, holder.value);
      InvButAny(s, holder.value);
      ReprioritiseKeeps(s, holder.value, s.tasks[s.current].priority);
    }
  }

  lemma HolderHolds(s: State, m: Handle)
    requires Inv(s) && m in s.mutexes && s.mutexes[m].holder.Some?
    ensures s.mutexes[m].holder.value in s.tasks && s.tasks[s.mutexes[m].holder.value].held > 0
  {
    var h := s.mutexes[m].holder.value;
    MutexHere(s.mutexes, s.tasks, m);
    assert m in HeldBy(s.mutexes, h);
  }

  lemma InheritFrame(s: State, holder: Option<Task>)
    requires s.current in s.tasks && (holder.Some? ==> holder.value in s.tasks)
    ensures var u := Inherit(s, holder);
      && u.mutexes == s.mutexes && u.current == s.current && u.current in u.tasks && |u.ready| == |s.ready|
      && u.tasks[u.current].call == s.tasks[s.current].call
  {
  }

  lemma WaitFor(u: State, m: Handle, inherited: bool)
    requires Inv(u) && Running(u) && u.tasks[u.current].call.Taking? && m in u.mutexes
    ensures var c := u.current; var mutex := u.mutexes[m];
      Inv(u.(mutexes := u.mutexes[m := mutex.(waiting := InsertWaiter(mutex.waiting, u.tasks, c))],
             tasks := u.tasks[c := u.tasks[c].(call := Waiting(m, inherited))],
             ready := Unready(u.ready, c, u.tasks[c].priority)))
  {
    hide HoldersValid, PrioritiesValid, ReadyValid, WaitersValid, InsertWaiter;
    var c, tcb, waiting := u.current, u.tasks[u.current], InsertWaiter(u.mutexes[m].waiting, u.tasks, u.current);
    var tcb' := tcb.(call := Waiting(m, inherited));
    InReadyList(u, c);
    HoldersStay(u.mutexes, u.tasks, c, tcb');
    HoldersWaiting(u.mutexes, u.tasks[c := tcb'], m, waiting);
    PrioritiesStay(u.tasks, |u.ready|, c, tcb');
    LeaveReady(u.ready, u.tasks, c, tcb');
    UnreadyLength(u.ready, c, tcb.priority);
    WaitWaiters(u.mutexes, u.tasks, m, c, tcb');
  }

  lemma BlockKeeps(s: State, m: Handle)
    requires Inv(s) && Running(s) && s.tasks[s.current].call.Taking? && m in s.mutexes
    requires s.mutexes[m].holder.Some? ==> s.mutexes[m].holder.value in s.tasks
    ensures Inv(Block(s, m))
  {
    hide Inv, Inherit, Inherits;
    var h := s.mutexes[m].holder;
    if h.Some? { HolderHolds(s, m); }
    InheritKeeps(s, h);
    InheritFrame(s, h);
    WaitFor(Inherit(s, h), m, Inherits(s, h));
  }

  /** The other steps. */

  /** The head of a mutex's event list waits with its item in use for its priority, so the priority read from the item
      is a real one. */
  lemma HighestIsPriority(s: State, m: Handle)
    requires Inv(s) && m in s.mutexes
    ensures 0 <= HighestWaiting(s, m) && (HighestWaiting(s, m) < |s.ready| || HighestWaiting(s, m) == 0)
  {
    hide HoldersValid, ReadyValid;
    var w := s.mutexes[m].waiting;
    if w != [] { assert w[0] in w; }
  }

  lemma DisinheritAfterTimeoutKeeps(s: State, m: Handle)
    requires Inv(s) && m in s.mutexes
    requires s.mutexes[m].holder.Some? ==> s.mutexes[m].holder.value in s.tasks
    ensures Inv(DisinheritAfterTimeout(s, s.mutexes[m].holder, HighestWaiting(s, m)))
  {
    hide HoldersValid, PrioritiesValid, ReadyValid, WaitersValid, Reprioritise, HighestWaiting;
    var h, highest := s.mutexes[m].holder, HighestWaiting(s, m);
    HighestIsPriority(s, m);
    if h.Some? {
      InReadyList(s, h.value);
      InvButAny(s, h.value);
      if s.tasks[h.value].held == 1 { ReprioritiseKeeps(s, h.value, Wanted(s, h.value, highest)); }
    }
  }

  lemma DisinheritFrame(s: State, holder: Option<Task>, highest: int)
    requires s.current in s.tasks && (holder.Some? ==> holder.value in s.tasks)
    ensures var u := DisinheritAfterTimeout(s, holder, highest);
      u.current == s.current && u.current in u.tasks && u.tasks[u.current].call == s.tasks[s.current].call
  {
  }

  lemma GiveBackKeeps(s: State)
    requires Inv(s) && Enabled(s, GivePriorityBack)
    ensures Inv(Next(s, GivePriorityBack))
  {
    hide HoldersValid, PrioritiesValid, ReadyValid, WaitersValid, DisinheritAfterTimeout, HighestWaiting;
    var m := s.tasks[s.current].call.m;
    var u := DisinheritAfterTimeout(s, s.mutexes[m].holder, HighestWaiting(s, m));
    DisinheritAfterTimeoutKeeps(s, m);
    DisinheritFrame(s, s.mutexes[m].holder, HighestWaiting(s, m));
    InReadyList(u, s.current);
    TaskStays(u, s.current, u.tasks[s.current].(call := NoCall));
  }

  lemma CountHolders(mutexes: map<Handle, Mutex>, tasks: map<Task, Tcb>, m: Handle, c: Task, tcb: Tcb)
    requires HoldersValid(mutexes, tasks) && m in mutexes && c in tasks && tasks[c].call == Counting(m)
    requires tcb.held == tasks[c].held && tcb.call == NoCall
    ensures HoldersValid(mutexes[m := mutexes[m].(depth := mutexes[m].depth + 1)], tasks[c := tcb])
  {
    hide HeldBy;
    HeldSame(mutexes, m, mutexes[m].(depth := mutexes[m].depth + 1));
  }

  lemma CountKeeps(s: State)
    requires Inv(s) && Enabled(s, CountCall)
    ensures Inv(Next(s, CountCall))
  {
    hide HoldersValid, PrioritiesValid, ReadyValid, WaitersValid;
    var c, m := s.current, s.tasks[s.current].call.m;
    var tcb, mutex := s.tasks[c].(call := NoCall), s.mutexes[m].(depth := s.mutexes[m].depth + 1);
    InReadyList(s, c);
    CountHolders(s.mutexes, s.tasks, m, c, tcb);
    PrioritiesStay(s.tasks, |s.ready|, c, tcb);
    StayReady(s.ready, s.tasks, c, tcb);
    WaitersStay(s.mutexes, s.tasks, c, tcb);
    WaitersKeep(s.mutexes, s.tasks[c := tcb], m, mutex);
  }

  lemma DepthKeeps(s: State, m: Handle, depth: nat)
    requires Inv(s) && m in s.mutexes && s.mutexes[m].recursive && s.mutexes[m].holder.Some?
    requires s.mutexes[m].depth > 0 && depth > 0
    ensures Inv(s.(mutexes := s.mutexes[m := s.mutexes[m].(depth := depth)]))
  {
    hide PrioritiesValid, ReadyValid, WaitersValid, HeldBy;
    WaitersKeep(s.mutexes, s.tasks, m, s.mutexes[m].(depth := depth));
    HeldSame(s.mutexes, m, s.mutexes[m].(depth := depth));
  }

  /** A holder that is not in the middle of a take can give: neither the held count nor the depth can underflow. */
  lemma HolderCanGive(s: State, m: Handle)
    requires Inv(s) && Running(s) && s.tasks[s.current].call == NoCall
    requires m in s.mutexes && s.mutexes[m].holder == Some(s.current)
    ensures Enabled(s, Give(m)) && s.mutexes[m].count == 0
  {
    HolderHolds(s, m);
    MutexHere(s.mutexes, s.tasks, m);
  }

  lemma TakeKeeps(s: State, m: Handle)
    requires Inv(s) && Enabled(s, Take(m))
    ensures Inv(Next(s, Take(m)))
  {
    hide HoldersValid, PrioritiesValid, ReadyValid, WaitersValid;
    MutexHere(s.mutexes, s.tasks, m);
    InReadyList(s, s.current);
    var mutex := s.mutexes[m];
    if mutex.recursive && mutex.holder == Some(s.current) {
      DepthKeeps(s, m, mutex.depth + 1);
    } else {
      TaskStays(s, s.current, s.tasks[s.current].(call := Taking(m, false)));
    }
  }

  lemma GiveKeeps(s: State, m: Handle)
    requires Inv(s) && Enabled(s, Give(m))
    ensures Inv(Next(s, Give(m)))
  {
    hide HoldersValid, PrioritiesValid, ReadyValid, WaitersValid, Release;
    MutexHere(s.mutexes, s.tasks, m);
    var mutex := s.mutexes[m];
    if !mutex.recursive {
      ReleaseKeeps(s, m);
      NoCallYet(s);
    } else if mutex.depth > 1 {
      DepthKeeps(s, m, mutex.depth - 1);
    } else {
      CountDownKeeps(s, m);
    }
  }

  lemma NoCallYet(s: State)
    requires s.current in s.tasks && s.tasks[s.current].call == NoCall
    ensures SetCall(s, s.current, NoCall) == s
  {
    assert s.tasks[s.current := s.tasks[s.current].(call := NoCall)] == s.tasks;
  }

  lemma CountDownHolders(mutexes: map<Handle, Mutex>, tasks: map<Task, Tcb>, m: Handle, c: Task, tcb: Tcb)
    requires HoldersValid(mutexes, tasks) && m in mutexes && c in tasks && tasks[c].call == NoCall
    requires mutexes[m].recursive && mutexes[m].holder == Some(c)
    requires tcb.held == tasks[c].held && tcb.call == Sending(m)
    ensures HoldersValid(mutexes[m := mutexes[m].(depth := 0)], tasks[c := tcb])
  {
    hide HeldBy;
    HeldSame(mutexes, m, mutexes[m].(depth := 0));
  }

  /** The last of the nested calls is undone; the mutex is still held until it is sent back. */
  lemma CountDownKeeps(s: State, m: Handle)
    requires Inv(s) && Enabled(s, Give(m)) && s.mutexes[m].recursive && s.mutexes[m].depth == 1
    ensures Inv(Next(s, Give(m)))
  {
    hide HoldersValid, PrioritiesValid, ReadyValid, WaitersValid;
    var c := s.current;
    var tcb, mutex := s.tasks[c].(call := Sending(m)), s.mutexes[m].(depth := 0);
    InReadyList(s, c);
    CountDownHolders(s.mutexes, s.tasks, m, c, tcb);
    PrioritiesStay(s.tasks, |s.ready|, c, tcb);
    StayReady(s.ready, s.tasks, c, tcb);
    WaitersStay(s.mutexes, s.tasks, c, tcb);
    WaitersKeep(s.mutexes, s.tasks[c := tcb], m, mutex);
  }

  lemma SendBackKeeps(s: State)
    requires Inv(s) && Enabled(s, SendBack)
    ensures Inv(Next(s, SendBack))
  {
    hide PrioritiesValid, ReadyValid, WaitersValid, Release, HeldBy;
    ReleaseKeeps(s, s.tasks[s.current].call.m);
  }

  lemma SleepKeeps(s: State, borrow: bool)
    requires Inv(s) && Enabled(s, Sleep(borrow))
    ensures Inv(Next(s, Sleep(borrow)))
  {
    hide HoldersValid, PrioritiesValid, ReadyValid, WaitersValid;
    var c, tcb := s.current, s.tasks[s.current].(call := Asleep, borrowed := borrow);
    InReadyList(s, c);
    HoldersStay(s.mutexes, s.tasks, c, tcb);
    PrioritiesStay(s.tasks, |s.ready|, c, tcb);
    LeaveReady(s.ready, s.tasks, c, tcb);
    UnreadyLength(s.ready, c, tcb.priority);
    WaitersStay(s.mutexes, s.tasks, c, tcb);
  }

  lemma WakeUpKeeps(s: State, t: Task)
    requires Inv(s) && Enabled(s, WakeUp(t))
    ensures Inv(Next(s, WakeUp(t)))
  {
    hide HoldersValid, PrioritiesValid, ReadyValid, WaitersValid;
    var tcb := s.tasks[t].(call := Returning);
    InReadyList(s, t);
    HoldersStay(s.mutexes, s.tasks, t, tcb);
    PrioritiesStay(s.tasks, |s.ready|, t, tcb);
    EnterReady(s.ready, s.tasks, t, tcb);
    UnreadyLength(s.ready, t, tcb.priority);
    WaitersStay(s.mutexes, s.tasks, t, tcb);
  }

  lemma QuietKeeps(s: State, a: Action)
    requires Inv(s) && Enabled(s, a) && (a.Quit? || a.TimedOut? || a.ResetItem?)
    ensures Inv(Next(s, a))
  {
    hide HoldersValid, PrioritiesValid, ReadyValid, WaitersValid;
    InReadyList(s, s.current);
    TaskStays(s, s.current, Next(s, a).tasks[s.current]);
  }

  lemma NextKeeps(s: State, a: Action)
    requires Inv(s)
    ensures Inv(Next(s, a))
  {
    hide HoldersValid, PrioritiesValid, ReadyValid, WaitersValid, Acquire, Block, Unwait, Release;
    if Enabled(s, a) {
      match a
      case Take(m) => TakeKeeps(s, m);
      case Try => AcquireKeeps(s, s.tasks[s.current].call.m);
      case Wait => BlockKeeps(s, s.tasks[s.current].call.m);
      case Quit => QuietKeeps(s, a);
      case TimedOut => QuietKeeps(s, a);
      case GivePriorityBack => GiveBackKeeps(s);
      case CountCall => CountKeeps(s);
      case Give(m) => GiveKeeps(s, m);
      case SendBack => SendBackKeeps(s);
      case Expire(t) => UnwaitKeeps(s, s.tasks[t].call.m, t);
      case Sleep(borrow) => SleepKeeps(s, borrow);
      case WakeUp(t) => WakeUpKeeps(s, t);
      case ResetItem => QuietKeeps(s, a);
      case Switch(_) =>
    }
  }

  lemma {:induction false} RunKeeps(s: State, actions: seq<Action>)
    requires Inv(s)
    ensures Inv(Run(s, actions))
    decreases |actions|
  {
    hide Inv, Next;
    if actions != [] {
      RunKeeps(s, actions[..|actions| - 1]);
      NextKeeps(Run(s, actions[..|actions| - 1]), actions[|actions| - 1]);
    }
  }

  // ---- What single steps change.

  /** The priority of a task after it has given up one mutex. */
  function Left(tcb: Tcb): nat {
    if tcb.held == 1 then tcb.base else tcb.priority
  }

  /** Giving back a mutex nobody waits for. */
  lemma ReleaseQuietly(s: State, m: Handle)
    requires s.current in s.tasks && s.tasks[s.current].held > 0 && m in s.mutexes && s.mutexes[m].waiting == []
    ensures var c, n := s.current, Release(SetCall(s, s.current, NoCall), m);
      && c in n.tasks && n.tasks == s.tasks[c := n.tasks[c]]
      && n.current == c && n.tasks[c].call == NoCall && n.tasks[c].held == s.tasks[c].held - 1
      && n.tasks[c].priority == Left(s.tasks[c])
      && m in n.mutexes && n.mutexes == s.mutexes[m := n.mutexes[m]]
      && n.mutexes[m].holder.None? && n.mutexes[m].waiting == []
  {
  }

  /** Giving back a mutex, with the first waiting task woken. */
  lemma ReleaseWakes(s: State, m: Handle)
    requires s.current in s.tasks && s.tasks[s.current].held > 0 && m in s.mutexes && s.mutexes[m].waiting != []
    requires var w := s.mutexes[m].waiting[0];
      w != s.current && w in s.tasks && s.tasks[w].call.Waiting? && s.tasks[w].call.m == m
    ensures var c, w, n := s.current, s.mutexes[m].waiting[0], Release(SetCall(s, s.current, NoCall), m);
      && c in n.tasks && w in n.tasks && n.tasks == s.tasks[w := n.tasks[w]][c := n.tasks[c]]
      && n.current == c && n.tasks[c].call == NoCall && n.tasks[c].held == s.tasks[c].held - 1
      && n.tasks[c].priority == Left(s.tasks[c])
      && m in n.mutexes && n.mutexes == s.mutexes[m := n.mutexes[m]]
      && n.mutexes[m].holder.None? && n.mutexes[m].waiting == Drop(s.mutexes[m].waiting, w)
      && n.tasks[w].call.Taking? && n.tasks[w].call.m == m
      && n.tasks[w].priority == s.tasks[w].priority && n.tasks[w].held == s.tasks[w].held
  {
    hide Drop;
  }

  /** What the giver is left with, who can run now, and what is left of the list. */
  lemma ReleaseShape(s: State, m: Handle)
    requires Inv(s) && Running(s) && s.tasks[s.current].held > 0 && m in s.mutexes
    ensures var c, n, waiting := s.current, Release(SetCall(s, s.current, NoCall), m), s.mutexes[m].waiting;
      && n.current == c && n.tasks.Keys == s.tasks.Keys && n.mutexes.Keys == s.mutexes.Keys
      && n.tasks[c].priority == Left(s.tasks[c]) && n.tasks[c].call == NoCall
      && (waiting != [] ==> waiting[0] in s.tasks && waiting[0] != c)
      && (forall t :: t in s.tasks && t != c ==>
            && n.tasks[t].priority == s.tasks[t].priority
            && (Runs(n.tasks[t].call) <==> Runs(s.tasks[t].call) || (waiting != [] && waiting[0] == t)))
      && n.mutexes[m].holder.None? && n.mutexes[m].waiting == (if waiting == [] then [] else Drop(waiting, waiting[0]))
      && (forall x :: x in s.mutexes && x != m ==> n.mutexes[x] == s.mutexes[x])
  {
    hide Inv, Release, Drop;
    if s.mutexes[m].waiting == [] {
      ReleaseQuietly(s, m);
    } else {
      HeadWaits(s, m);
      ReleaseWakes(s, m);
    }
  }

  lemma HeadWaits(s: State, m: Handle)
    requires Inv(s) && m in s.mutexes && s.mutexes[m].waiting != []
    ensures var w := s.mutexes[m].waiting[0];
      w in s.tasks && s.tasks[w].call.Waiting? && s.tasks[w].call.m == m
  {
    hide HoldersValid, PrioritiesValid, ReadyValid;
    assert s.mutexes[m].waiting[0] in s.mutexes[m].waiting;
  }

  lemma OneHeld(s: State, m: Handle, x: Handle)
    requires Inv(s) && m in s.mutexes && x in s.mutexes && s.mutexes[m].holder.Some?
    requires s.mutexes[m].holder.value in s.tasks && s.tasks[s.mutexes[m].holder.value].held == 1
    requires s.mutexes[x].holder == s.mutexes[m].holder
    ensures x == m
  {
    hide PrioritiesValid, ReadyValid, WaitersValid;
    TheOnlyOne(HeldBy(s.mutexes, s.mutexes[m].holder.value), m, x);
  }

  /** Only the priority of a holder of one mutex changes. */
  lemma GiveBackShape(s: State, m: Handle)
    requires Enabled(s, GivePriorityBack) && m == s.tasks[s.current].call.m
    ensures var h, n := s.mutexes[m].holder, Next(s, GivePriorityBack);
      && n.mutexes == s.mutexes && n.tasks.Keys == s.tasks.Keys && n.current == s.current
      && (forall t :: t in s.tasks ==> Runs(n.tasks[t].call) == Runs(s.tasks[t].call))
      && (forall t :: t in s.tasks && Some(t) != h ==> n.tasks[t].priority == s.tasks[t].priority)
      && (h.Some? ==>
            n.tasks[h.value].priority ==
              if s.tasks[h.value].held == 1 then Wanted(s, h.value, HighestWaiting(s, m)) else s.tasks[h.value].priority)
  {
    hide HighestWaiting;
  }

  /** Every mutex free, every task at its base priority and in no call. */
  ghost predicate Initial(s: State) {
    && (forall m :: m in s.mutexes ==> s.mutexes[m] == Mutex(None, 1, [], s.mutexes[m].recursive, 0))
    && (forall t :: t in s.tasks ==>
          s.tasks[t].base < |s.ready| &&
          s.tasks[t] == Tcb(s.tasks[t].base, s.tasks[t].base, 0, |s.ready| - s.tasks[t].base, false, NoCall))
    && ReadyValid(s.ready, s.tasks)
  }

  lemma InitialInv(s: State)
    requires Initial(s)
    ensures Inv(s)
  {
    forall t | t in s.tasks ensures HeldBy(s.mutexes, t) == {} {
    }
  }

  /** Over every run: a mutex has a holder exactly when its count is 0, a task's held count is the number of mutexes that
      name it, a task never runs below its base priority and runs at it when it holds none, and a task that can run is
      in the ready list of its current priority and no other. */
  lemma MutexInvariant(s: State, actions: seq<Action>)
    requires Inv(s)
    ensures var r := Run(s, actions);
      && (forall m :: m in r.mutexes ==> (r.mutexes[m].count == 0 <==> r.mutexes[m].holder.Some?))
      && (forall t :: t in r.tasks ==>
            && r.tasks[t].held == |HeldBy(r.mutexes, t)|
            && r.tasks[t].base <= r.tasks[t].priority
            && (r.tasks[t].held == 0 ==> r.tasks[t].priority == r.tasks[t].base))
      && (forall p, t :: 0 <= p < |r.ready| ==>
            (t in r.ready[p] <==> t in r.tasks && r.tasks[t].priority == p && Runs(r.tasks[t].call)))
  {
    hide Run, Next, HeldBy;
    RunKeeps(s, actions);
  }
}
