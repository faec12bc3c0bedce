/** Runs as a preemptive kernel makes them, to be put together from what tasks commonly do. */
module PriorityRuns {
  import opened Common
  import opened Mutexes
  import opened MutexProofs
  import opened Preemption

  /** A switch goes to a task of the highest ready priority, and the running task acts only while none is above it. */
  ghost predicate Preemptive(s: State, a: Action) {
    && s.current in s.tasks && Enabled(s, a)
    && match a
       case Switch(t) => !OtherAbove(s, t, s.tasks[t].priority)
       case WakeUp(_) => true
       case Expire(_) => true
       case _ => !Above(s)
  }

  /** The actions lead from s to n in this way. */
  ghost predicate Leads(s: State, actions: seq<Action>, n: State)
    decreases |actions|
  {
    if actions == [] then n == s
    else Preemptive(s, actions[0]) && Leads(Next(s, actions[0]), actions[1..], n)
  }

  lemma LeadsOne(s: State, a: Action)
    requires Preemptive(s, a)
    ensures Leads(s, [a], Next(s, a))
  {
    hide Preemptive, Next;
    assert [a][1..] == [];
  }

  lemma {:induction false} LeadsOn(s: State, a: seq<Action>, m: State, b: seq<Action>, n: State)
    requires Leads(s, a, m) && Leads(m, b, n)
    ensures Leads(s, a + b, n)
    decreases |a|
  {
    hide Preemptive, Next;
    if a == [] {
      assert a + b == b;
    } else {
      assert (a + b)[1..] == a[1..] + b;
      LeadsOn(Next(s, a[0]), a[1..], m, b, n);
    }
  }

  lemma {:induction false} RunFrom(s: State, a: Action, rest: seq<Action>)
    ensures Run(s, [a] + rest) == Run(Next(s, a), rest)
    decreases |rest|
  {
    hide Next;
    var all := [a] + rest;
    if rest == [] {
      assert all[..|all| - 1] == [];
    } else {
      assert all[..|all| - 1] == [a] + rest[..|rest| - 1];
      RunFrom(s, a, rest[..|rest| - 1]);
    }
  }

  lemma {:induction false} LeadsRun(s: State, actions: seq<Action>, n: State)
    requires Leads(s, actions, n)
    ensures Run(s, actions) == n
    decreases |actions|
  {
    hide Preemptive, Next;
    if actions != [] {
      LeadsRun(Next(s, actions[0]), actions[1..], n);
      RunFrom(s, actions[0], actions[1..]);
      assert [actions[0]] + actions[1..] == actions;
    }
  }

  lemma LeadsInv(s: State, actions: seq<Action>, n: State)
    requires Leads(s, actions, n) && Inv(s)
    ensures Inv(n)
  {
    hide Inv, Leads, Run;
    LeadsRun(s, actions, n);
    RunKeeps(s, actions);
  }

  // ---- What tasks do.

  /** The running task, which is not below a ready one, is between calls. */
  ghost predicate Calm(s: State) {
    Inv(s) && Running(s) && s.tasks[s.current].call == NoCall && !Above(s)
  }

  lemma Ready(s: State, t: Task)
    requires Inv(s) && t in s.tasks && Runs(s.tasks[t].call) && !OtherAbove(s, t, s.tasks[t].priority)
    requires s.current in s.tasks
    ensures Preemptive(s, Switch(t))
  {
    hide Inv;
    InReadyList(s, t);
  }

  lemma SwitchTo(s: State, t: Task) returns (actions: seq<Action>, n: State)
    requires Inv(s) && s.current in s.tasks && t in s.tasks && Runs(s.tasks[t].call)
    requires !OtherAbove(s, t, s.tasks[t].priority)
    ensures Leads(s, actions, n) && Inv(n) && n == s.(current := t)
  {
    hide Inv, Leads, OtherAbove;
    Ready(s, t);
    actions, n := [Switch(t)], Next(s, Switch(t));
    LeadsOne(s, Switch(t));
    LeadsInv(s, actions, n);
  }

  /** The running task blocks on something other than a mutex, and u runs. */
  lemma SleepSwitch(s: State, u: Task) returns (actions: seq<Action>, n: State)
    requires Calm(s) && u in s.tasks && u != s.current && Runs(s.tasks[u].call)
    requires forall t :: t in s.tasks && t != s.current && Runs(s.tasks[t].call) ==> s.tasks[t].priority <= s.tasks[u].priority
    ensures Leads(s, actions, n) && Inv(n) && n.current == u && |n.ready| == |s.ready| && n.mutexes == s.mutexes
    ensures n.tasks == s.tasks[s.current := s.tasks[s.current].(call := Asleep, borrowed := false)]
  {
    hide Inv, Leads;
    var m := Next(s, Sleep(false));
    LeadsOne(s, Sleep(false));
    LeadsInv(s, [Sleep(false)], m);
    var rest;
    rest, n := SwitchTo(m, u);
    actions := [Sleep(false)] + rest;
    LeadsOn(s, [Sleep(false)], m, rest, n);
    UnreadyLength(s.ready, s.current, s.tasks[s.current].priority);
  }

  /** A sleeping task wakes and, as nobody that is ready is above it, runs. */
  lemma WakeRun(s: State, t: Task) returns (actions: seq<Action>, n: State)
    requires Inv(s) && s.current in s.tasks && t in s.tasks && s.tasks[t].call == Asleep && !s.tasks[t].borrowed
    requires !OtherAbove(s, t, s.tasks[t].priority)
    ensures Leads(s, actions, n) && Inv(n) && n.current == t && |n.ready| == |s.ready| && n.mutexes == s.mutexes
    ensures n.tasks == s.tasks[t := s.tasks[t].(call := NoCall)]
  {
    hide Inv, Leads;
    var a := Next(s, WakeUp(t));
    LeadsOne(s, WakeUp(t));
    LeadsInv(s, [WakeUp(t)], a);
    UnreadyLength(s.ready, t, s.tasks[t].priority);
    var two, b := SwitchTo(a, t);
    LeadsOn(s, [WakeUp(t)], a, two, b);
    n := Next(b, ResetItem);
    LeadsOne(b, ResetItem);
    LeadsInv(b, [ResetItem], n);
    actions := ([WakeUp(t)] + two) + [ResetItem];
    LeadsOn(s, [WakeUp(t)] + two, b, [ResetItem], n);
    InReadyList(s, t);
    assert n.tasks[t] == s.tasks[t].(call := NoCall);
  }

  /** What taking a free mutex makes of it. */
  function Taken(mutex: Mutex, t: Task): Mutex {
    mutex.(count := 0, holder := Some(t), depth := if mutex.recursive then 1 else 0)
  }

  lemma TakeFree(s: State, m: Handle) returns (actions: seq<Action>, n: State)
    requires Calm(s) && m in s.mutexes && s.mutexes[m].count == 1 && s.mutexes[m].holder.None? && s.mutexes[m].depth == 0
    ensures Leads(s, actions, n) && Inv(n) && n.current == s.current && |n.ready| == |s.ready|
    ensures n.tasks == s.tasks[s.current := s.tasks[s.current].(held := s.tasks[s.current].held + 1)]
    ensures n.mutexes == s.mutexes[m := Taken(s.mutexes[m], s.current)]
  {
    hide Inv, Leads;
    var c := s.current;
    var a := Next(s, Take(m));
    LeadsOne(s, Take(m));
    var b := Next(a, Try);
    LeadsOne(a, Try);
    LeadsOn(s, [Take(m)], a, [Try], b);
    actions, n := [Take(m)] + [Try], b;
    if s.mutexes[m].recursive {
      n := Next(b, CountCall);
      LeadsOne(b, CountCall);
      LeadsOn(s, actions, b, [CountCall], n);
      actions := actions + [CountCall];
    }
    LeadsInv(s, actions, n);
    assert n.tasks[c] == s.tasks[c].(held := s.tasks[c].held + 1);
    assert n.tasks == s.tasks[c := n.tasks[c]];
    assert n.mutexes[m] == Taken(s.mutexes[m], c);
  }

  /** The holder after the running task has blocked on its mutex. */
  function Raised(s: State, h: Task): Tcb
    requires s.current in s.tasks && h in s.tasks
  {
    var p := s.tasks[s.current].priority;
    if s.tasks[h].priority < p then Reprioritise(s, h, p).tasks[h] else s.tasks[h]
  }

  /** The state after blocking, before anybody else runs. */
  lemma BlockIs(s: State, m: Handle, h: Task) returns (n: State)
    requires Inv(s) && Running(s) && s.tasks[s.current].call == Taking(m, false) && m in s.mutexes
    requires s.mutexes[m].holder == Some(h) && h in s.tasks && h != s.current
    ensures n == Block(s, m) && n.current == s.current && |n.ready| == |s.ready|
    ensures var c, inherited := s.current, Inherits(s, Some(h));
      n.tasks == s.tasks[h := Raised(s, h)][c := s.tasks[c].(call := Waiting(m, inherited))]
    ensures n.mutexes == s.mutexes[m := s.mutexes[m].(
      waiting := InsertWaiter(s.mutexes[m].waiting, s.tasks[h := Raised(s, h)], s.current))]
  {
    hide Inv, InsertWaiter, Drop;
    n := Block(s, m);
    InheritFrame(s, Some(h));
    var u := Inherit(s, Some(h));
    assert u.tasks == s.tasks[h := Raised(s, h)];
  }

  /** The running task finds the mutex taken by h and blocks, and u runs. */
  lemma TakeWait(s: State, m: Handle, h: Task, u: Task) returns (actions: seq<Action>, n: State)
    requires Calm(s) && m in s.mutexes && s.mutexes[m].count == 0 && s.mutexes[m].holder == Some(h)
    requires h in s.tasks && h != s.current && u in s.tasks && u != s.current && Runs(s.tasks[u].call)
    requires var after := s.tasks[h := Raised(s, h)];
      forall t :: t in after && t != s.current && Runs(after[t].call) ==> after[t].priority <= after[u].priority
    ensures Leads(s, actions, n) && Inv(n) && n.current == u && |n.ready| == |s.ready|
    ensures var c, inherited := s.current, Inherits(s, Some(h));
      n.tasks == s.tasks[h := Raised(s, h)][c := s.tasks[c].(call := Waiting(m, inherited))]
    ensures n.mutexes == s.mutexes[m := s.mutexes[m].(
      waiting := InsertWaiter(s.mutexes[m].waiting, s.tasks[h := Raised(s, h)], s.current))]
  {
    hide Inv, Leads, Block, InsertWaiter, Reprioritise;
    var c := s.current;
    var a := Next(s, Take(m));
    LeadsOne(s, Take(m));
    LeadsInv(s, [Take(m)], a);
    RaisedSame(s, a, m, h);
    var b := BlockIs(a, m, h);
    LeadsOne(a, Wait);
    LeadsOn(s, [Take(m)], a, [Wait], b);
    LeadsInv(a, [Wait], b);
    var after := s.tasks[h := Raised(s, h)];
    assert forall t :: t in b.tasks && Runs(b.tasks[t].call) ==> t != c && b.tasks[t] == after[t];
    var rest;
    rest, n := SwitchTo(b, u);
    actions := ([Take(m)] + [Wait]) + rest;
    LeadsOn(s, [Take(m)] + [Wait], b, rest, n);
  }

  /** Being about to test the mutex makes no difference to the holder or to the place on the list. */
  lemma RaisedSame(s: State, a: State, m: Handle, h: Task)
    requires s.current in s.tasks && h in s.tasks && h != s.current && m in s.mutexes
    requires a == SetCall(s, s.current, Taking(m, false))
    ensures Raised(s, h).call == s.tasks[h].call && Raised(a, h) == Raised(s, h) && Inherits(a, Some(h)) == Inherits(s, Some(h))
    ensures InsertWaiter(a.mutexes[m].waiting, a.tasks[h := Raised(a, h)], s.current)
         == InsertWaiter(s.mutexes[m].waiting, s.tasks[h := Raised(s, h)], s.current)
  {
    SameItems(s.mutexes[m].waiting, s.tasks[h := Raised(s, h)], a.tasks[h := Raised(s, h)], s.current);
  }

  lemma {:induction false} SameItems(waiting: seq<Task>, a: map<Task, Tcb>, b: map<Task, Tcb>, t: Task)
    requires a.Keys == b.Keys && t in a && forall x :: x in a ==> a[x].item == b[x].item
    ensures InsertWaiter(waiting, a, t) == InsertWaiter(waiting, b, t)
  {
    if waiting != [] { SameItems(waiting[1..], a, b, t); }
  }

  // ---- A chain of waits.

  function Base(p: nat): Tcb {
    Tcb(p, p, 0, 4 - p, false, NoCall)
  }

  function In(tcb: Tcb, call: Call): Tcb {
    tcb.(call := call)
  }

  /** A task of base priority b at priority p that holds k mutexes. */
  function Holding(p: nat, b: nat, k: nat): Tcb {
    Tcb(p, b, k, 4 - p, false, NoCall)
  }

  const FREE: Mutex := Mutex(None, 1, [], false, 0)

  function Held(t: Task, waiting: seq<Task>): Mutex {
    Mutex(Some(t), 0, waiting, false, 0)
  }

  /** Tasks 1 to 4 of base priorities 1, 2, 2 and 3, and two mutexes. */
  function Four(a: Tcb, b: Tcb, c: Tcb, d: Tcb): map<Task, Tcb> {
    map[1 := a, 2 := b, 3 := c, 4 := d]
  }

  const START: State :=
    State(Four(Base(1), Base(2), Base(2), Base(3)), map[1 := FREE, 2 := FREE], [[], [1], [2, 3], [4]], 4)

  lemma StartIsReady()
    ensures ReadyValid(START.ready, START.tasks)
  {
    assert START.ready[0] == [] && START.ready[1] == [1] && START.ready[2] == [2, 3] && START.ready[3] == [4];
  }

  lemma StartIsInitial()
    ensures Initial(START)
  {
    hide ReadyValid;
    StartIsReady();
  }

  /** The tasks while task 1 holds mutex 1 at priority p; the calls of the others are given. */
  function Quartet(p: nat, b: Call, c: Call, d: Call): map<Task, Tcb> {
    Four(Holding(p, 1, 1), In(Holding(2, 2, 1), b), In(Base(2), c), In(Base(3), d))
  }

  function Pair(waiting: seq<Task>): map<Handle, Mutex> {
    map[1 := Held(1, waiting), 2 := Held(2, [])]
  }

  /** Task 4 goes to sleep; task 2 takes mutex 2. */
  lemma SecondTakes() returns (actions: seq<Action>, n: State)
    ensures Leads(START, actions, n) && Inv(n) && n.current == 2 && |n.ready| == 4
    ensures n.tasks == Four(Base(1), Holding(2, 2, 1), Base(2), In(Base(3), Asleep))
    ensures n.mutexes == map[1 := FREE, 2 := Held(2, [])]
  {
    hide Inv, Leads;
    StartIsInitial();
    InitialInv(START);
    var a, s := SleepSwitch(START, 2);
    var b;
    b, n := TakeFree(s, 2);
    actions := a + b;
    LeadsOn(START, a, s, b, n);
  }

  /** Tasks 2 and 3 go to sleep. */
  lemma TwoSleep(s: State) returns (actions: seq<Action>, n: State)
    requires Inv(s) && s.current == 2 && |s.ready| == 4
    requires s.tasks == Four(Base(1), Holding(2, 2, 1), Base(2), In(Base(3), Asleep))
    ensures Leads(s, actions, n) && Inv(n) && n.current == 1 && |n.ready| == 4 && n.mutexes == s.mutexes
    ensures n.tasks == Four(Base(1), In(Holding(2, 2, 1), Asleep), In(Base(2), Asleep), In(Base(3), Asleep))
  {
    hide Inv, Leads;
    var a, t := SleepSwitch(s, 3);
    var b;
    b, n := SleepSwitch(t, 1);
    actions := a + b;
    LeadsOn(s, a, t, b, n);
  }

  lemma FirstTakes(s: State) returns (actions: seq<Action>, n: State)
    requires Inv(s) && s.current == 1 && |s.ready| == 4 && s.mutexes == map[1 := FREE, 2 := Held(2, [])]
    requires s.tasks == Four(Base(1), In(Holding(2, 2, 1), Asleep), In(Base(2), Asleep), In(Base(3), Asleep))
    ensures Leads(s, actions, n) && Inv(n) && n.current == 1 && |n.ready| == 4
    ensures n.tasks == Quartet(1, Asleep, Asleep, Asleep) && n.mutexes == Pair([])
  {
    hide Inv, Leads;
    actions, n := TakeFree(s, 1);
  }

  /** Task 1 takes mutex 1 while the others are asleep. */
  lemma AllAsleep() returns (actions: seq<Action>, n: State)
    ensures Leads(START, actions, n) && Inv(n) && n.current == 1 && |n.ready| == 4
    ensures n.tasks == Quartet(1, Asleep, Asleep, Asleep) && n.mutexes == Pair([])
  {
    hide Inv, Leads, Quartet, Pair;
    var a, s := SecondTakes();
    var b, t := TwoSleep(s);
    LeadsOn(START, a, s, b, t);
    var c;
    c, n := FirstTakes(t);
    actions := a + b + c;
    LeadsOn(START, a + b, t, c, n);
  }

  lemma ThirdWaits(s: State) returns (actions: seq<Action>, n: State)
    requires Inv(s) && s.current == 1 && |s.ready| == 4
    requires s.tasks == Quartet(1, Asleep, Asleep, Asleep) && s.mutexes == Pair([])
    ensures Leads(s, actions, n) && Inv(n) && n.current == 1 && |n.ready| == 4
    ensures n.tasks == Quartet(2, Asleep, Waiting(1, true), Asleep) && n.mutexes == Pair([3])
  {
    hide Inv, Leads;
    var a, t := WakeRun(s, 3);
    var b;
    b, n := TakeWait(t, 1, 1, 1);
    actions := a + b;
    LeadsOn(s, a, t, b, n);
    assert n.mutexes[1].waiting == [3];
  }

  lemma SecondWaits(s: State) returns (actions: seq<Action>, n: State)
    requires Inv(s) && s.current == 1 && |s.ready| == 4
    requires s.tasks == Quartet(2, Asleep, Waiting(1, true), Asleep) && s.mutexes == Pair([3])
    ensures Leads(s, actions, n) && Inv(n) && n.current == 1 && |n.ready| == 4
    ensures n.tasks == Quartet(2, Waiting(1, true), Waiting(1, true), Asleep) && n.mutexes == Pair([3, 2])
  {
    hide Inv, Leads;
    var a, t := WakeRun(s, 2);
    var b;
    b, n := TakeWait(t, 1, 1, 1);
    actions := a + b;
    LeadsOn(s, a, t, b, n);
    Behind(t.tasks[1 := Raised(t, 1)], 3, 2);
  }

  lemma Behind(tasks: map<Task, Tcb>, t: Task, u: Task)
    requires t in tasks && u in tasks && tasks[u].item == tasks[t].item
    ensures InsertWaiter([t], tasks, u) == [t, u]
  {
    assert [t][1..] == [];
    assert InsertWaiter([], tasks, u) == [u];
  }

  /** Task 1 holds mutex 1, for which task 3 and then task 2 wait; task 4 is about to wait for mutex 2, which task 2
      holds. */
  lemma ChainIsReached() returns (actions: seq<Action>, n: State)
    ensures Initial(START) && Leads(START, actions, n) && Inv(n) && n.current == 4 && |n.ready| == 4
    ensures n.tasks == Quartet(2, Waiting(1, true), Waiting(1, true), Taking(2, false)) && n.mutexes == Pair([3, 2])
    ensures Preemptive(n, Wait)
  {
    hide Inv, Leads;
    StartIsInitial();
    var a, s := AllAsleep();
    var b, t := ThirdWaits(s);
    LeadsOn(START, a, s, b, t);
    var c, u := SecondWaits(t);
    LeadsOn(START, a + b, t, c, u);
    var d, e := LastComes(u);
    LeadsOn(START, a + b + c, u, d, e);
    actions, n := a + b + c + d, e;
  }

  lemma LastComes(s: State) returns (actions: seq<Action>, n: State)
    requires Inv(s) && s.current == 1 && |s.ready| == 4
    requires s.tasks == Quartet(2, Waiting(1, true), Waiting(1, true), Asleep) && s.mutexes == Pair([3, 2])
    ensures Leads(s, actions, n) && Inv(n) && n.current == 4 && |n.ready| == 4
    ensures n.tasks == Quartet(2, Waiting(1, true), Waiting(1, true), Taking(2, false)) && n.mutexes == Pair([3, 2])
    ensures Preemptive(n, Wait)
  {
    hide Inv, Leads;
    var a, t := WakeRun(s, 4);
    LeadsOne(t, Take(2));
    n := Next(t, Take(2));
    LeadsInv(t, [Take(2)], n);
    actions := a + [Take(2)];
    LeadsOn(s, a, t, [Take(2)], n);
  }

  // ---- A yield that is not asked for.

  /** Tasks 1 to 3 of base priorities 1, 1 and 3; mutex 2 may be recursive. */
  function Three(a: Tcb, b: Tcb, c: Tcb): map<Task, Tcb> {
    map[1 := a, 2 := b, 3 := c]
  }

  function SecondMutex(recursive: bool): Mutex {
    FREE.(recursive := recursive)
  }

  function Begin(recursive: bool): State {
    State(Three(Base(1), Base(1), Base(3)), map[1 := FREE, 2 := SecondMutex(recursive)], [[], [1, 2], [], [3]], 3)
  }

  lemma BeginIsInitial(recursive: bool)
    ensures Initial(Begin(recursive))
  {
  }

  /** Task 3 goes to sleep, and task 1 takes both mutexes. */
  lemma TakesBoth(recursive: bool) returns (actions: seq<Action>, n: State)
    ensures Leads(Begin(recursive), actions, n) && Inv(n) && n.current == 1 && |n.ready| == 4
    ensures n.tasks == Three(Holding(1, 1, 2), Base(1), In(Base(3), Asleep))
    ensures n.mutexes == map[1 := Held(1, []), 2 := Taken(SecondMutex(recursive), 1)]
  {
    hide Inv, Leads;
    BeginIsInitial(recursive);
    InitialInv(Begin(recursive));
    var a, s := SleepSwitch(Begin(recursive), 1);
    var b, t := TakeFree(s, 2);
    LeadsOn(Begin(recursive), a, s, b, t);
    var c;
    c, n := TakeFree(t, 1);
    actions := a + b + c;
    LeadsOn(Begin(recursive), a + b, t, c, n);
  }

  /** Task 2, whose turn it is, waits for mutex 2. */
  lemma EqualWaits(recursive: bool, s: State) returns (actions: seq<Action>, n: State)
    requires Inv(s) && s.current == 1 && |s.ready| == 4
    requires s.tasks == Three(Holding(1, 1, 2), Base(1), In(Base(3), Asleep))
    requires s.mutexes == map[1 := Held(1, []), 2 := Taken(SecondMutex(recursive), 1)]
    ensures Leads(s, actions, n) && Inv(n) && n.current == 1 && |n.ready| == 4
    ensures n.tasks == Three(Holding(1, 1, 2), In(Base(1), Waiting(2, false)), In(Base(3), Asleep))
    ensures n.mutexes == map[1 := Held(1, []), 2 := Taken(SecondMutex(recursive), 1).(waiting := [2])]
  {
    hide Inv, Leads;
    var a, t := SwitchTo(s, 2);
    var b;
    b, n := TakeWait(t, 2, 1, 1);
    actions := a + b;
    LeadsOn(s, a, t, b, n);
    assert n.mutexes[2].waiting == [2];
  }

  /** Task 3 wakes and waits for mutex 1, so that task 1 inherits its priority. */
  lemma HighWaits(recursive: bool, s: State) returns (actions: seq<Action>, n: State)
    requires Inv(s) && s.current == 1 && |s.ready| == 4
    requires s.tasks == Three(Holding(1, 1, 2), In(Base(1), Waiting(2, false)), In(Base(3), Asleep))
    requires s.mutexes == map[1 := Held(1, []), 2 := Taken(SecondMutex(recursive), 1).(waiting := [2])]
    ensures Leads(s, actions, n) && Inv(n) && n.current == 1 && |n.ready| == 4
    ensures n.tasks == Three(Holding(3, 1, 2), In(Base(1), Waiting(2, false)), In(Base(3), Waiting(1, true)))
    ensures n.mutexes == map[1 := Held(1, [3]), 2 := Taken(SecondMutex(recursive), 1).(waiting := [2])]
  {
    hide Inv, Leads;
    var a, t := WakeRun(s, 3);
    var b;
    b, n := TakeWait(t, 1, 1, 1);
    actions := a + b;
    LeadsOn(s, a, t, b, n);
    assert n.mutexes[1].waiting == [3];
  }

  /** Task 1 gives mutex 1 back, and task 3 becomes ready to test it. */
  lemma GivesFirst(recursive: bool, s: State) returns (actions: seq<Action>, n: State)
    requires Inv(s) && s.current == 1
    requires s.tasks == Three(Holding(3, 1, 2), In(Base(1), Waiting(2, false)), In(Base(3), Waiting(1, true)))
    requires s.mutexes == map[1 := Held(1, [3]), 2 := Taken(SecondMutex(recursive), 1).(waiting := [2])]
    ensures Leads(s, actions, n) && Inv(n) && n.current == 1
    ensures n.tasks == Three(Holding(3, 1, 1), In(Base(1), Waiting(2, false)), In(Base(3), Taking(1, true)))
    ensures n.mutexes == map[1 := FREE, 2 := Taken(SecondMutex(recursive), 1).(waiting := [2])]
  {
    hide Inv, Leads;
    LeadsOne(s, Give(1));
    actions, n := [Give(1)], Next(s, Give(1));
    LeadsInv(s, actions, n);
    assert Drop([3], 3) == [];
    assert n.tasks[1] == Holding(3, 1, 1) && n.tasks[3] == In(Base(3), Taking(1, true));
    assert n.mutexes[1] == FREE;
  }

  /** Task 1 counts mutex 2 down. */
  lemma CountsDown(s: State) returns (actions: seq<Action>, n: State)
    requires Inv(s) && s.current == 1
    requires s.tasks == Three(Holding(3, 1, 1), In(Base(1), Waiting(2, false)), In(Base(3), Taking(1, true)))
    requires s.mutexes == map[1 := FREE, 2 := Taken(SecondMutex(true), 1).(waiting := [2])]
    ensures Leads(s, actions, n) && Inv(n) && AboutToSend(n, true)
  {
    hide Inv, Leads;
    LeadsOne(s, Give(2));
    actions, n := [Give(2)], Next(s, Give(2));
    LeadsInv(s, actions, n);
  }

  /** The tasks and mutexes when task 1, at the priority it inherited from task 3, is about to send mutex 2 back. */
  ghost predicate AboutToSend(n: State, recursive: bool) {
    && n.current == 1
    && n.tasks == Three(In(Holding(3, 1, 1), if recursive then Sending(2) else NoCall),
                        In(Base(1), Waiting(2, false)), In(Base(3), Taking(1, true)))
    && n.mutexes == map[1 := FREE, 2 := Taken(SecondMutex(recursive), 1).(waiting := [2], depth := 0)]
  }

  lemma AboutToSendIsReached(recursive: bool) returns (actions: seq<Action>, n: State)
    ensures Leads(Begin(recursive), actions, n) && Inv(n) && AboutToSend(n, recursive)
  {
    hide Inv, Leads;
    var s := Begin(recursive);
    var b, t := TakesBoth(recursive);
    var c, u := EqualWaits(recursive, t);
    LeadsOn(s, b, t, c, u);
    var d, v := HighWaits(recursive, u);
    LeadsOn(s, b + c, u, d, v);
    var e, w := GivesFirst(recursive, v);
    LeadsOn(s, b + c + d, v, e, w);
    actions, n := b + c + d + e, w;
    if recursive {
      var f;
      f, n := CountsDown(w);
      actions := b + c + d + e + f;
      LeadsOn(s, b + c + d + e, w, f, n);
    }
  }

  lemma SendMissesYield(n: State, recursive: bool)
    requires Inv(n) && AboutToSend(n, recursive)
    ensures var a := if recursive then SendBack else Give(2); Preemptive(n, a) && LeavesBehind(n, a)
  {
    hide Inv, Next, LeavesBehind;
    assert Runs(n.tasks[3].call) && n.tasks[3].priority == 3;
    GiveIff(n, if recursive then SendBack else Give(2), 2);
  }

  /** A ready task can be left above the running one without a yield.  Task 1 holds mutex 2, for which task 2 of its own
      base priority waits, and runs at the priority it inherited from task 3, which is ready to test mutex 1; when it
      gives mutex 2 back it falls below task 3 and nothing makes it yield. */
  lemma YieldMissed(recursive: bool) returns (s: State, actions: seq<Action>, n: State, a: Action)
    ensures Initial(s) && Leads(s, actions, n) && Inv(n) && Preemptive(n, a)
    ensures a == (if recursive then SendBack else Give(2)) && LeavesBehind(n, a)
  {
    hide Inv, Leads, Next, LeavesBehind, AboutToSend;
    s, a := Begin(recursive), if recursive then SendBack else Give(2);
    BeginIsInitial(recursive);
    actions, n := AboutToSendIsReached(recursive);
    SendMissesYield(n, recursive);
  }

  // ---- A time-out that raises a holder.

  /** Task 2 comes before task 3 this time. */
  lemma SecondFirst(s: State) returns (actions: seq<Action>, n: State)
    requires Inv(s) && s.current == 1 && |s.ready| == 4
    requires s.tasks == Quartet(1, Asleep, Asleep, Asleep) && s.mutexes == Pair([])
    ensures Leads(s, actions, n) && Inv(n) && n.current == 1 && |n.ready| == 4
    ensures n.tasks == Quartet(2, Waiting(1, true), Asleep, Asleep) && n.mutexes == Pair([2])
  {
    hide Inv, Leads;
    var a, t := WakeRun(s, 2);
    var b;
    b, n := TakeWait(t, 1, 1, 1);
    actions := a + b;
    LeadsOn(s, a, t, b, n);
    assert n.mutexes[1].waiting == [2];
  }

  lemma ThirdBehind(s: State) returns (actions: seq<Action>, n: State)
    requires Inv(s) && s.current == 1 && |s.ready| == 4
    requires s.tasks == Quartet(2, Waiting(1, true), Asleep, Asleep) && s.mutexes == Pair([2])
    ensures Leads(s, actions, n) && Inv(n) && n.current == 1 && |n.ready| == 4
    ensures n.tasks == Quartet(2, Waiting(1, true), Waiting(1, true), Asleep) && n.mutexes == Pair([2, 3])
  {
    hide Inv, Leads;
    var a, t := WakeRun(s, 3);
    var b;
    b, n := TakeWait(t, 1, 1, 1);
    actions := a + b;
    LeadsOn(s, a, t, b, n);
    Behind(t.tasks[1 := Raised(t, 1)], 2, 3);
  }

  /** Task 4 waits for mutex 2, so that task 2, at the head of the list of mutex 1, rises to its priority. */
  lemma FourthWaits(s: State) returns (actions: seq<Action>, n: State)
    requires Inv(s) && s.current == 1 && |s.ready| == 4
    requires s.tasks == Quartet(2, Waiting(1, true), Waiting(1, true), Asleep) && s.mutexes == Pair([2, 3])
    ensures Leads(s, actions, n) && Inv(n) && n.current == 1 && |n.ready| == 4
    ensures n.tasks == Four(Holding(2, 1, 1), In(Holding(3, 2, 1), Waiting(1, true)), In(Base(2), Waiting(1, true)),
                            In(Base(3), Waiting(2, true)))
    ensures n.mutexes == map[1 := Held(1, [2, 3]), 2 := Held(2, [4])]
  {
    hide Inv, Leads;
    var a, t := WakeRun(s, 4);
    var b;
    b, n := TakeWait(t, 2, 2, 1);
    actions := a + b;
    LeadsOn(s, a, t, b, n);
    assert n.mutexes[2].waiting == [4];
  }

  /** Task 3 times out and is about to give back the priority task 1 had from it. */
  ghost predicate AboutToGiveBack(n: State) {
    && n.current == 3 && |n.ready| == 4
    && n.tasks == Four(Holding(2, 1, 1), In(Holding(3, 2, 1), Waiting(1, true)), In(Base(2), Expiring(1)),
                       In(Base(3), Waiting(2, true)))
    && n.mutexes == map[1 := Held(1, [2]), 2 := Held(2, [4])]
  }

  lemma ThirdTimesOut(s: State) returns (actions: seq<Action>, n: State)
    requires Inv(s) && s.current == 1 && |s.ready| == 4
    requires s.tasks == Four(Holding(2, 1, 1), In(Holding(3, 2, 1), Waiting(1, true)), In(Base(2), Waiting(1, true)),
                             In(Base(3), Waiting(2, true)))
    requires s.mutexes == map[1 := Held(1, [2, 3]), 2 := Held(2, [4])]
    ensures Leads(s, actions, n) && Inv(n) && AboutToGiveBack(n)
  {
    hide Inv, Leads;
    LeadsOne(s, Expire(3));
    var t := Next(s, Expire(3));
    LeadsInv(s, [Expire(3)], t);
    assert Drop([2, 3], 3) == [2] by { assert [2, 3][1..] == [3] && [3][1..] == []; }
    assert t.tasks[3] == In(Base(2), Taking(1, true));
    var b, u := SwitchTo(t, 3);
    LeadsOn(s, [Expire(3)], t, b, u);
    LeadsOne(u, TimedOut);
    n := Next(u, TimedOut);
    LeadsInv(u, [TimedOut], n);
    actions := ([Expire(3)] + b) + [TimedOut];
    LeadsOn(s, [Expire(3)] + b, u, [TimedOut], n);
  }

  lemma GiveBackMissesYield(n: State)
    requires Inv(n) && AboutToGiveBack(n)
    ensures Preemptive(n, GivePriorityBack) && LeavesBehind(n, GivePriorityBack)
  {
    hide Inv, Next, LeavesBehind;
    assert HighestWaiting(n, 1) == 3;
    GiveBackAboveIff(n);
  }

  /** A time-out can raise a ready task above the running one without a yield: task 3 gives back what task 1 had from it,
      but task 2, which also waits for task 1, has risen in the meantime, and task 1 rises with it. */
  lemma RaiseMissesYield() returns (actions: seq<Action>, n: State)
    ensures Initial(START) && Leads(START, actions, n) && Inv(n)
    ensures Preemptive(n, GivePriorityBack) && LeavesBehind(n, GivePriorityBack)
  {
    hide Inv, Leads, Next, LeavesBehind, AboutToGiveBack;
    StartIsInitial();
    var a, s := AllAsleep();
    var b, t := SecondFirst(s);
    LeadsOn(START, a, s, b, t);
    var c, u := ThirdBehind(t);
    LeadsOn(START, a + b, t, c, u);
    var d, v := FourthWaits(u);
    LeadsOn(START, a + b + c, u, d, v);
    var e;
    e, n := ThirdTimesOut(v);
    actions := a + b + c + d + e;
    LeadsOn(START, a + b + c + d, v, e, n);
    GiveBackMissesYield(n);
  }
}
