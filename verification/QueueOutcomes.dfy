/** What the calls on a queue come to: items are conserved, calls end when they should, and waits begin and end as meant. */
module QueueOutcomes {
  import opened Common
  import opened QueueProtocol

  // ---- Items.

  /** Task t, which may run, is at the test at the top of its loop. */
  predicate Tests(q: Queue, a: Action, op: Op) {
    a.Step? && MayRun(q, a.t) && q.tasks[a.t] == Local(op, Test)
  }

  /** The action sends an item: there is room, or it overwrites. */
  predicate SendsNow(q: Queue, a: Action) {
    || (Tests(q, a, Send(false)) && q.count < q.length)
    || Tests(q, a, Send(true))
    || (a.IsrSend? && (if a.overwrite then q.length == 1 else q.count < q.length) && !SignalHalts(q.receivers, |q.tasks|))
  }

  predicate Overwrites(q: Queue, a: Action) {
    (a.IsrSend? && a.overwrite) || Tests(q, a, Send(true))
  }

  /** The action takes an item away. */
  predicate ReceivesNow(q: Queue, a: Action) {
    q.count > 0 && (Tests(q, a, Receive) || (a.IsrReceive? && !SignalHalts(q.senders, |q.tasks|)))
  }

  /** A send adds one item, unless it overwrites the one that is there; a receive takes one; nothing else changes the
      number of items. */
  lemma CountExact(q: Queue, a: Action)
    ensures Next(q, a).count == q.count
      + (if SendsNow(q, a) && !(Overwrites(q, a) && q.count > 0) then 1 else 0) - (if ReceivesNow(q, a) then 1 else 0)
    ensures Next(q, a).length == q.length && Next(q, a).tasks.Keys == q.tasks.Keys
  {
    hide Advance, Signal, Expire;
    if a.Step? && MayRun(q, a.t) { AdvanceCount(q, a.t, a.choice, a.at); }
  }

  lemma AdvanceCount(q: Queue, t: Task, choice: bool, at: nat)
    requires t in q.tasks
    ensures var n, op := Advance(q, t, choice, at), q.tasks[t].op;
      && n.length == q.length && n.tasks.Keys == q.tasks.Keys
      && n.count == q.count
           + (if q.tasks[t].pc == Test && op.Send? && (if op.overwrite then q.count == 0 else q.count < q.length) then 1 else 0)
           - (if q.tasks[t].pc == Test && op == Receive && q.count > 0 then 1 else 0)
  {
    hide Unlock, Seize, Place, Pop, Retested, IsWaiting;
  }

  function Sends(q: Queue, actions: seq<Action>): nat {
    if actions == [] then 0
    else
      var before, a := actions[..|actions| - 1], actions[|actions| - 1];
      var u := Run(q, before);
      Sends(q, before) + if SendsNow(u, a) && !(Overwrites(u, a) && u.count > 0) then 1 else 0
  }

  function Receives(q: Queue, actions: seq<Action>): nat {
    if actions == [] then 0
    else
      var before := actions[..|actions| - 1];
      Receives(q, before) + if ReceivesNow(Run(q, before), actions[|actions| - 1]) then 1 else 0
  }

  /** In every run, the items in the queue are those it held and those sent, less those received. */
  lemma {:induction false} ItemsConserved(q: Queue, actions: seq<Action>)
    ensures Run(q, actions).count == q.count + Sends(q, actions) - Receives(q, actions)
    decreases |actions|
  {
    hide Next, SendsNow, ReceivesNow, Overwrites;
    if actions != [] {
      var before := actions[..|actions| - 1];
      ItemsConserved(q, before);
      CountExact(Run(q, before), actions[|actions| - 1]);
    }
  }

  // ---- Lists.

  /** Unlocking wakes as many tasks as events were recorded, from the head on, and leaves the rest. */
  lemma {:induction false} UnlockExact(d: Side, t: Task)
    requires d.lock >= 0
    ensures var k := Min(d.lock, |d.waiting|);
      && Unlock(d).waiting == d.waiting[k..] && Unlock(d).lock == UNLOCKED
      && (t in Unlock(d).woken <==> t in d.woken || t in d.waiting[..k])
    decreases d.lock
  {
    if d.lock > 0 && d.waiting != [] {
      var e, k := Pop(d).(lock := d.lock - 1), Min(d.lock, |d.waiting|);
      UnlockExact(e, t);
      assert Unlock(d) == Unlock(e);
      SliceTail(d.waiting, k);
    }
  }

  lemma SliceTail(s: seq<Task>, k: nat)
    requires 0 < k <= |s|
    ensures s[1..][k - 1..] == s[k..] && s[..k] == [s[0]] + s[1..][..k - 1]
  {
  }

  /** One event wakes the first task, and only that, or is recorded. */
  lemma SignalWakesOne(d: Side, n: nat)
    requires UNLOCKED <= d.lock
    ensures var e := Signal(d, n);
      && (d.lock == UNLOCKED && d.waiting != [] ==> e.waiting == d.waiting[1..] && e.woken == d.woken + {d.waiting[0]})
      && (d.lock != UNLOCKED || d.waiting == [] ==> e.waiting == d.waiting && e.woken == d.woken)
      && (d.lock != UNLOCKED ==> e.posts == d.posts + 1 && e.lock == if d.lock < n then d.lock + 1 else d.lock)
  {
  }

  // ---- Calls.

  /** A call ends at the test, with the item moved or with no time to wait; after a time-out, if a receiver still finds
      the queue empty; or at once after a time-out, for a sender.  It ends in no other way. */
  lemma EndsIff(q: Queue, a: Action, t: Task)
    requires Inv(q) && t in q.tasks && q.tasks[t].pc != Idle
    ensures t in Next(q, a).tasks
    ensures Next(q, a).tasks[t].pc == Idle <==>
      && a.Step? && a.t == t && MayRun(q, t)
      && match q.tasks[t].pc
         case Test => !Stuck(q, q.tasks[t].op) || !a.choice
         case Leaving => q.count == 0
         case Resuming(why) => why == GiveUp && q.tasks[t].op.Send?
         case _ => false
  {
    hide Inv, Advance, Stuck;
    if a.Step? && a.t == t && MayRun(q, t) { PcAfter(q, t, a.choice, a.at); } else { OthersStay(q, a, t); }
  }

  /** A task goes on to give up only if it finds its time run out. */
  lemma GivesUpIff(q: Queue, a: Action, t: Task)
    requires Inv(q) && t in q.tasks && q.tasks[t].pc != UnlockingTx(GiveUp) && q.tasks[t].pc != Idle
    ensures t in Next(q, a).tasks
    ensures Next(q, a).tasks[t].pc == UnlockingTx(GiveUp) <==>
      a.Step? && a.t == t && MayRun(q, t) && q.tasks[t].pc == Checking && a.choice
  {
    hide Inv, Advance, Stuck;
    if a.Step? && a.t == t && MayRun(q, t) { PcAfter(q, t, a.choice, a.at); } else { OthersStay(q, a, t); }
  }

  lemma OthersStay(q: Queue, a: Action, t: Task)
    requires t in q.tasks && !(a.Step? && a.t == t && MayRun(q, t)) && q.tasks[t].pc != Idle
    ensures t in Next(q, a).tasks && Next(q, a).tasks[t] == q.tasks[t]
  {
    hide Unlock, Signal, Seize, Place, Expire, Stuck, SignalHalts;
    if a.Step? && MayRun(q, a.t) { OnlyOne(q, a.t, a.choice, a.at); }
  }

  lemma OnlyOne(q: Queue, t: Task, choice: bool, at: nat)
    requires t in q.tasks
    ensures var n := Advance(q, t, choice, at); t in n.tasks && n.tasks == q.tasks[t := n.tasks[t]]
  {
    hide Unlock, Seize, Place, Stuck;
    assert q.tasks == q.tasks[t := q.tasks[t]];
  }

  /** The way a task takes through its call. */
  lemma PcAfter(q: Queue, t: Task, choice: bool, at: nat)
    requires t in q.tasks
    ensures t in Advance(q, t, choice, at).tasks
    ensures Advance(q, t, choice, at).tasks[t].pc == match q.tasks[t].pc
      case Idle => Idle
      case Test => if Stuck(q, q.tasks[t].op) && choice then Suspending else Idle
      case Suspending => Locking
      case Locking => Checking
      case Checking => if choice then UnlockingTx(GiveUp) else Probing
      case Probing => if Stuck(q, q.tasks[t].op) then Placing else UnlockingTx(Retry)
      case Placing => UnlockingTx(Wait)
      case UnlockingTx(why) => UnlockingRx(why)
      case UnlockingRx(why) => Resuming(why)
      case Resuming(why) =>
        if why == Wait then Blocked
        else if why == GiveUp then (if q.tasks[t].op.Send? then Idle else Leaving) else Test
      case Blocked => if IsWaiting(q, t) then Blocked else Test
      case Leaving => if q.count == 0 then Idle else Test
  {
    hide Unlock, Seize, Place, Pop, Retested, IsWaiting;
  }

  /** A call begins with the test; a time-out takes a waiting task off its list, if the scheduler runs, and nobody else. */
  lemma CallAndTimeOut(q: Queue, t: Task, op: Op)
    requires Inv(q)
    ensures MayRun(q, t) && q.tasks[t].pc == Idle && (op.Send? && op.overwrite ==> q.length == 1) ==>
      Next(q, Call(t, op)) == q.(tasks := q.tasks[t := Local(op, Test)])
    ensures q.suspender == None && IsWaiting(q, t) ==>
      var n := Next(q, TimeOut(t));
      && !IsWaiting(n, t) && n.tasks == q.tasks && n.count == q.count
      && (forall u :: u != t ==> (IsWaiting(n, u) <==> IsWaiting(q, u)))
      && (t in n.receivers.woken || t in n.senders.woken)
    ensures q.suspender != None ==> Next(q, TimeOut(t)) == q
  {
    hide Control, Balanced;
    if t in q.receivers.waiting {
      DropKeeps(q.receivers.waiting, t);
    } else if t in q.senders.waiting {
      DropKeeps(q.senders.waiting, t);
    }
  }

  // ---- A blocking call that nothing disturbs.

  function Go(q: Queue, t: Task, choice: bool): Queue {
    Next(q, Step(t, choice, 0))
  }

  /** The queue is quiet and t may run. */
  predicate Still(q: Queue, t: Task) {
    && t in q.tasks && q.suspender == None
    && q.receivers.lock == UNLOCKED && q.senders.lock == UNLOCKED
  }

  /** From the test that fails to the place on the list. */
  lemma GoesToWait(q: Queue, t: Task) returns (n: Queue)
    requires Still(q, t) && q.tasks[t].pc == Test && Stuck(q, q.tasks[t].op)
    ensures n == Go(Go(Go(Go(Go(Go(q, t, true), t, true), t, true), t, false), t, true), t, true)
    ensures var op := q.tasks[t].op;
      && n.count == q.count && n.length == q.length && n.suspender == Some(t)
      && n.tasks == q.tasks[t := Local(op, UnlockingTx(Wait))]
      && n.receivers == Side(if OnReceivers(op) then InsertAt(q.receivers.waiting, 0, t) else q.receivers.waiting,
                             if OnReceivers(op) then q.receivers.woken - {t} else q.receivers.woken, 0, 0)
      && n.senders == Side(if OnReceivers(op) then q.senders.waiting else InsertAt(q.senders.waiting, 0, t),
                           if OnReceivers(op) then q.senders.woken else q.senders.woken - {t}, 0, 0)
  {
    var op := q.tasks[t].op;
    var a := Go(q, t, true);
    assert a.tasks == q.tasks[t := Local(op, Suspending)];
    var b := Go(a, t, true);
    assert b.tasks == q.tasks[t := Local(op, Locking)];
    var c := Go(b, t, true);
    assert c.tasks == q.tasks[t := Local(op, Checking)];
    var d := Go(c, t, false);
    assert d.tasks == q.tasks[t := Local(op, Probing)];
    var e := Go(d, t, true);
    assert e.tasks == q.tasks[t := Local(op, Placing)];
    n := Go(e, t, true);
    assert n.tasks == q.tasks[t := Local(op, UnlockingTx(Wait))];
  }

  /** From the place on the list to the yield. */
  lemma GoesToBlock(m: Queue, t: Task) returns (n: Queue)
    requires t in m.tasks && m.tasks[t].pc == UnlockingTx(Wait) && m.suspender == Some(t)
    requires m.receivers.lock == 0 && m.senders.lock == 0
    ensures n == Go(Go(Go(m, t, true), t, true), t, true)
    ensures Still(n, t) && n.count == m.count && n.tasks == m.tasks[t := Local(m.tasks[t].op, Blocked)]
    ensures n.receivers.waiting == m.receivers.waiting && n.senders.waiting == m.senders.waiting
    ensures n.receivers.woken == m.receivers.woken && n.senders.woken == m.senders.woken
  {
    var op := m.tasks[t].op;
    var a := Go(m, t, true);
    assert a.tasks == m.tasks[t := Local(op, UnlockingRx(Wait))];
    var b := Go(a, t, true);
    assert b.tasks == m.tasks[t := Local(op, Resuming(Wait))];
    n := Go(b, t, true);
    assert n.tasks == m.tasks[t := Local(op, Blocked)];
  }

  /** A call with time to wait on a queue that cannot serve it ends up blocked on the list, with the queue unlocked, the
      scheduler resumed and nobody woken. */
  lemma BlockingCallWaits(q: Queue, t: Task) returns (steps: seq<Action>, n: Queue)
    requires Still(q, t) && q.tasks[t].pc == Test && Stuck(q, q.tasks[t].op)
    ensures n == Run(q, steps) && forall a :: a in steps ==> a.Step? && a.t == t
    ensures Still(n, t) && n.tasks == q.tasks[t := Local(q.tasks[t].op, Blocked)] && n.count == q.count
    ensures var op := q.tasks[t].op;
      && n.receivers.waiting == (if OnReceivers(op) then InsertAt(q.receivers.waiting, 0, t) else q.receivers.waiting)
      && n.senders.waiting == (if OnReceivers(op) then q.senders.waiting else InsertAt(q.senders.waiting, 0, t))
      && n.receivers.woken - {t} == q.receivers.woken - {t} && n.senders.woken - {t} == q.senders.woken - {t}
  {
    hide Run, Next, InsertAt;
    var m := GoesToWait(q, t);
    n := GoesToBlock(m, t);
    var y, x := Step(t, true, 0), Step(t, false, 0);
    steps := [y, y, y, x, y, y, y, y, y];
    NineSteps(q, steps);
  }

  lemma NineSteps(q: Queue, s: seq<Action>)
    requires |s| == 9
    ensures Run(q, s) ==
      Next(Next(Next(Next(Next(Next(Next(Next(Next(q, s[0]), s[1]), s[2]), s[3]), s[4]), s[5]), s[6]), s[7]), s[8])
  {
    hide Next;
    assert s[..9][..8] == s[..8] && s[..8][..7] == s[..7] && s[..7][..6] == s[..6] && s[..6][..5] == s[..5];
    assert s[..5][..4] == s[..4] && s[..4][..3] == s[..3] && s[..3][..2] == s[..2] && s[..2][..1] == s[..1];
    assert s[..1][..0] == [] && s == s[..9];
    RunLast(q, s[..1]); RunLast(q, s[..2]); RunLast(q, s[..3]); RunLast(q, s[..4]); RunLast(q, s[..5]);
    RunLast(q, s[..6]); RunLast(q, s[..7]); RunLast(q, s[..8]); RunLast(q, s);
  }

  lemma RunLast(q: Queue, s: seq<Action>)
    requires s != []
    ensures Run(q, s) == Next(Run(q, s[..|s| - 1]), s[|s| - 1])
    ensures Run(q, []) == q
  {
  }

  /** A task that has been woken tests the queue again and is served if the queue can serve it. */
  lemma WokenIsServed(q: Queue, t: Task, choice: bool)
    requires MayRun(q, t) && q.tasks[t].pc == Blocked && !IsWaiting(q, t) && !Stuck(q, q.tasks[t].op)
    ensures var n := Go(Go(q, t, choice), t, choice);
      && t in n.tasks && n.tasks[t].pc == Idle && t !in n.receivers.waiting && t !in n.senders.waiting
      && n.count == match q.tasks[t].op
                    case Receive => q.count - 1
                    case Peek => q.count
                    case Send(overwrite) => if overwrite && q.count > 0 then q.count else q.count + 1
  {
  }
}
