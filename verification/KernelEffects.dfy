/** What each kernel call achieves, said of the lists and of the calls made, and what becomes of a signalled task. */
module KernelEffects {
  import opened Common
  import opened Clock
  import opened TimedLists
  import opened Kernel
  import opened KernelProofs

  // ---- Every tick and every nesting is counted, by the calls themselves.

  /** The ticks an action stands for, if it is taken: an interrupt, ticks caught up, ticks stepped over. */
  function TicksOf(s: State, a: Action): nat {
    if !Enabled(s, a) then 0
    else match a
      case TickIsr => 1
      case AddPended(k) => k
      case StepTicks(k) => k
      case _ => 0
  }

  function TicksGiven(s: State, actions: seq<Action>): nat {
    if actions == [] then 0
    else
      var before := actions[..|actions| - 1];
      TicksGiven(s, before) + TicksOf(Run(s, before), actions[|actions| - 1])
  }

  /** How deep the suspensions nest after a sequence of calls. */
  function Depth(start: nat, actions: seq<Action>): nat {
    if actions == [] then start
    else
      var d := Depth(start, actions[..|actions| - 1]);
      match actions[|actions| - 1]
      case SuspendAll => d + 1
      case ResumeAll => if d > 0 then d - 1 else 0
      case _ => d
  }

  lemma ResumeFrame(s: State)
    requires Inv(s) && s.suspended > 0
    ensures Resume(s).total == s.total && Resume(s).suspended == s.suspended - 1 && Resume(s).current == s.current
  {
    hide ListsValid, Dated, Ticks, DrainPending, Wrap, Epoch, Elapsed;
    var p := s.(suspended := s.suspended - 1);
    if p.suspended == 0 {
      var u := DrainKeeps(p);
      var w := TicksExact(u, p.pended);
      DrainCurrent(p);
    }
  }

  lemma DrainCurrent(s: State)
    ensures DrainPending(s).current == s.current
  {
  }

  lemma StepCounts(s: State, a: Action)
    requires Inv(s)
    ensures Next(s, a).total == s.total + TicksOf(s, a)
    ensures Next(s, a).suspended == match a
      case SuspendAll => s.suspended + 1
      case ResumeAll => if s.suspended > 0 then s.suspended - 1 else 0
      case _ => s.suspended
    ensures Next(s, a).current == if a.Dispatch? && Enabled(s, a) then a.t else s.current
  {
    hide Inv, Resume, Wrap, File, Wake, Reset, Tick;
    if Enabled(s, a) {
      match a
      case ResumeAll => ResumeFrame(s);
      case TickIsr => TickFrame(s);
      case SignalEvent(ev) => WakeOneFrame(s, ev);
      case UnblockTask(t) => ResetFrame(s);
      case _ =>
    }
  }

  lemma ResetFrame(s: State)
    ensures Reset(s) == s.(nextUnblock := Reset(s).nextUnblock)
  {
  }

  lemma WakeOneFrame(s: State, ev: nat)
    requires ev < |s.lists.events| && s.lists.events[ev] != []
    ensures var n := Signal(s, ev); n.total == s.total && n.suspended == s.suspended && n.current == s.current
  {
  }

  /** Over every run, the tick count and the pended ticks together have advanced by exactly the ticks given, and the
      scheduler is suspended as deep as the calls nest. */
  lemma {:induction false} TicksCounted(s: State, actions: seq<Action>)
    requires Inv(s)
    ensures var r := Run(s, actions);
      && r.total == s.total + TicksGiven(s, actions) && r.suspended == Depth(s.suspended, actions)
      && Wrap(r.tick + r.pended) == Wrap(s.tick + s.pended + TicksGiven(s, actions))
    decreases |actions|
  {
    hide Core, Next, Wrap, TicksOf;
    if actions != [] {
      var before := actions[..|actions| - 1];
      TicksCounted(s, before);
      RunKeeps(s, before);
      StepCounts(Run(s, before), actions[|actions| - 1]);
    }
    RunKeeps(s, actions);
    WrapSumBoth(s.tick + s.pended, s.total, TicksGiven(s, actions));
  }

  // ---- Blocking and waking.

  /** The other event lists, and the rest of this one, stay as they are. */
  ghost predicate OffList(before: seq<seq<Task>>, after: seq<seq<Task>>, ev: nat) {
    && ev < |before| && before[ev] != [] && |after| == |before| && after[ev] == before[ev][1..]
    && forall i :: 0 <= i < |before| && i != ev ==> after[i] == before[i]
  }

  /** A signal takes the first task off the event list; with the scheduler running it is ready at once, and otherwise it
      is held pending until the scheduler is resumed. */
  lemma SignalExact(s: State, ev: nat)
    requires Inv(s) && Enabled(s, SignalEvent(ev))
    ensures var t, n := s.lists.events[ev][0], Next(s, SignalEvent(ev));
      && OffList(s.lists.events, n.lists.events, ev)
      && (s.suspended == 0 ==> IsReady(n.lists, t) && n.lists.due == s.lists.due - {t} && n.lists.pending == [])
      && (s.suspended > 0 ==> n.lists.pending == s.lists.pending + [t] && n.lists.due == s.lists.due
                              && n.lists.ready == s.lists.ready)
      && OnlyAppended(s.lists.ready, n.lists.ready)
  {
    hide Core, Wrap, Wake, Items, EventItems, ListsValid, Wakeable;
    CoreLists(s);
    if s.suspended == 0 {
      var t := s.lists.events[ev][0];
      var l := s.lists.(events := s.lists.events[ev := s.lists.events[ev][1..]]);
      TailItems(s.lists.events, ev);
      SignalFrees(s.lists, l, t);
      FreedIsWakeable(s.lists, l, t);
      WakeLists(l, [t]);
      WakeOneDue(l, t);
    }
  }

  lemma WakeOneDue(l: Lists, t: Task)
    ensures Wake(l, [t]).due == l.due - {t} && Wake(l, [t]).events == l.events && Wake(l, [t]).pending == l.pending
  {
    assert SetOf([t]) == {t};
  }

  /** A task taken off an unordered event list is on no event list and ready, and nobody else is moved. */
  lemma UnblockExact(s: State, t: Task)
    requires Inv(s) && Enabled(s, UnblockTask(t))
    ensures var n := Next(s, UnblockTask(t));
      && IsReady(n.lists, t) && n.lists.due == s.lists.due - {t} && n.lists.pending == s.lists.pending
      && Items(n.lists.events) == Items(s.lists.events) - multiset{t} && t !in Items(n.lists.events)
      && OnlyAppended(s.lists.ready, n.lists.ready)
      && n.nextUnblock == (if s.tickless then FirstWake(s.lists.delayed) else s.nextUnblock)
  {
    hide Core, Wrap, Wake, DropAll, ListsValid, Wakeable;
    CoreLists(s);
    var l := s.lists.(events := DropAll(s.lists.events, t));
    EventOnce(s.lists, t);
    UnblockFrees(s.lists, t);
    FreedIsWakeable(s.lists, l, t);
    WakeLists(l, [t]);
    WakeOneDue(l, t);
    DropAllItems(s.lists.events, t);
  }

  lemma EventOnce(l: Lists, t: Task)
    requires ListsValid(l)
    ensures Items(l.events)[t] <= 1
  {
    hide Items, Shelved;
    assert EventItems(l)[t] <= multiset(l.due.Keys)[t] <= 1;
  }

  lemma FileExact(l: Lists, t: Task, tick: nat, now: nat, n: nat)
    requires Items(l.ready)[t] == 1
    ensures var m := File(l, t, tick, now, n);
      && m.due == l.due[t := now + n] && m.events == l.events && m.pending == l.pending
      && Items(m.ready) == Items(l.ready) - multiset{t} && t !in Items(m.ready)
  {
    hide Wrap, Items, DropAll, Insert;
    DropAllItems(l.ready, t);
  }

  /** Delaying files the running task under its true wake time and takes it off its ready list. */
  lemma DelayExact(s: State, n: nat)
    requires Inv(s) && Enabled(s, DelayCurrent(n))
    ensures var r := Next(s, DelayCurrent(n));
      && r.lists.due == s.lists.due[s.current := s.now + n]
      && Items(r.lists.ready) == Items(s.lists.ready) - multiset{s.current} && s.current !in Items(r.lists.ready)
      && r.lists.events == s.lists.events && r.lists.pending == s.lists.pending && r.now == s.now
      && r.nextUnblock == Earlier(s, n)
  {
    hide Core, Wrap, Epoch, Items, File, Earlier;
    CoreLists(s);
    ReadyIsNotBlocked(s.lists, s.current);
    FileExact(s.lists, s.current, s.tick, s.now, n);
    DelayNextIs(s, s.lists, n);
  }

  /** The next unblock time once a wait of n ticks has been added: a wait that ends in this epoch may be the first. */
  function Earlier(s: State, n: nat): int {
    if Epoch(s.now + n) == Epoch(s.now) then Min(s.nextUnblock, Wrap(s.now + n)) else s.nextUnblock
  }

  lemma DelayNextIs(s: State, l: Lists, n: nat)
    requires Core(s) && 1 <= n < TICKS
    ensures Delay(s.(lists := l), n).nextUnblock == Earlier(s, n)
  {
    hide Core, Wrap, Epoch, File;
    WakeInEpoch(s, n);
  }

  lemma WakeInEpoch(s: State, n: nat)
    requires Core(s) && 1 <= n < TICKS
    ensures Wrap(s.tick + n) == Wrap(s.now + n)
    ensures s.tick <= Wrap(s.now + n) <==> Epoch(s.now + n) == Epoch(s.now)
  {
    hide ListsValid, Dated, Wrap, Epoch;
    WaitEnds(s.now, n);
  }

  /** Blocking on an event does that and puts the task on the event list, at the place given. */
  lemma BlockExact(s: State, ev: nat, at: nat, n: nat)
    requires Inv(s) && Enabled(s, BlockCurrent(ev, at, n))
    ensures var r := Next(s, BlockCurrent(ev, at, n));
      && r.lists.due == s.lists.due[s.current := s.now + n]
      && Items(r.lists.ready) == Items(s.lists.ready) - multiset{s.current} && s.current !in Items(r.lists.ready)
      && |r.lists.events| == |s.lists.events| && r.lists.events[ev] == InsertAt(s.lists.events[ev], at, s.current)
      && (forall i :: 0 <= i < |s.lists.events| && i != ev ==> r.lists.events[i] == s.lists.events[i])
      && r.lists.pending == s.lists.pending && r.now == s.now && r.nextUnblock == Earlier(s, n)
  {
    hide Core, Wrap, Epoch, Items, File, Earlier;
    CoreLists(s);
    ReadyIsNotBlocked(s.lists, s.current);
    var l := PutEvent(s.lists, ev, at, s.current);
    FileExact(l, s.current, s.tick, s.now, n);
    DelayNextIs(s, l, n);
  }

  /** A tick that reaches the next unblock time, or that switches the lists, leaves that time at the first wait to end; an
      earlier one leaves it alone.  Waking a task leaves it alone too, unless tickless idle wants it brought up to date. */
  lemma NextUnblockExact(s: State, ev: nat)
    requires Inv(s)
    ensures s.suspended == 0 ==>
      var r := Next(s, TickIsr);
      r.nextUnblock == if r.tick == 0 || s.nextUnblock <= r.tick then FirstWake(r.lists.delayed) else s.nextUnblock
    ensures Enabled(s, SignalEvent(ev)) ==>
      var r := Next(s, SignalEvent(ev));
      r.nextUnblock == if s.suspended == 0 && s.tickless then FirstWake(r.lists.delayed) else s.nextUnblock
  {
    hide Inv, ExpireLists, Wake, Wrap;
    ExpireFrame(Count(s));
  }

  lemma ExpireFrame(s: State)
    ensures Expire(s).tick == s.tick && Expire(s).nextUnblock == FirstWake(Expire(s).lists.delayed)
  {
  }

  // ---- From the signal to the ready list.

  /** The last resume makes every pending task ready. */
  lemma ResumeReadies(s: State, t: Task)
    requires Inv(s) && s.suspended == 1 && t in s.lists.pending
    ensures IsReady(Resume(s).lists, t)
  {
    hide ListsValid, Dated, Wrap, Epoch, Elapsed, Ticks, Wake;
    var p := s.(suspended := 0);
    var u := DrainKeeps(p);
    DrainLists(s.lists);
    WakeLists(s.lists.(pending := []), s.lists.pending);
    assert u.lists == Wake(s.lists, s.lists.pending).(pending := []);
    WakeIgnores(s.lists, s.lists.pending);
    var w := TicksExact(u, p.pended);
    StaysReady(u.lists, w.lists, w.now, t);
  }

  lemma WakeIgnores(l: Lists, ts: seq<Task>)
    ensures Wake(l.(pending := []), ts) == Wake(l, ts).(pending := [])
  {
  }

  lemma StaysReady(a: Lists, b: Lists, now: nat, t: Task)
    requires Elapsed(a, b, now) && IsReady(a, t)
    ensures IsReady(b, t)
  {
  }

  /** While the scheduler stays suspended a pending task stays pending. */
  lemma StaysPending(s: State, a: Action, t: Task)
    requires Inv(s) && s.suspended > 0 && t in s.lists.pending
    ensures var n := Next(s, a); if n.suspended > 0 then t in n.lists.pending else IsReady(n.lists, t)
  {
    hide Inv, Wrap, Tick, Wake, Insert, DropAll, Ticks, DrainPending;
    if Enabled(s, a) {
      match a
      case ResumeAll => if s.suspended == 1 { ResumeReadies(s, t); ResumeFrame(s); }
      case UnblockTask(u) => WakeFrame(s.lists.(events := DropAll(s.lists.events, u)), [u]);
      case _ =>
    }
  }

  /** In every run, a signalled task is ready in the first state after the signal in which the scheduler is not
      suspended. */
  lemma {:induction false} SignalledIsReady(s: State, ev: nat, actions: seq<Action>)
    requires Inv(s) && Enabled(s, SignalEvent(ev))
    requires forall i :: 0 <= i < |actions| ==> Run(Next(s, SignalEvent(ev)), actions[..i]).suspended > 0
    ensures var t, r := s.lists.events[ev][0], Run(Next(s, SignalEvent(ev)), actions);
      if r.suspended > 0 then t in r.lists.pending else IsReady(r.lists, t)
    decreases |actions|
  {
    hide Inv, Next;
    var t, n := s.lists.events[ev][0], Next(s, SignalEvent(ev));
    NextKeeps(s, SignalEvent(ev));
    SignalExact(s, ev);
    StepCounts(s, SignalEvent(ev));
    if actions != [] {
      var before := actions[..|actions| - 1];
      assert forall i :: 0 <= i < |before| ==> before[..i] == actions[..i];
      SignalledIsReady(s, ev, before);
      RunKeeps(n, before);
      StaysPending(Run(n, before), actions[|actions| - 1], t);
    }
  }
}
