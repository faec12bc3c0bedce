/**
 The blocking protocol of queue.c, one atomic step per critical section.

 A task that finds the queue empty (or full) suspends the scheduler, locks the queue, tests again, puts
 itself on the event list, unlocks and resumes.  Interrupts run between any two of these steps: they add and
 remove items, but while the queue is locked they only bump a lock count that the unlocking task plays back.
 */
module QueueProtocol {
  import opened Common

  type Task = nat

  const UNLOCKED: int := -1
  const INT8_MAX: int := 127

  /** The blocking call a task is in.  Overwriting is only legal on a queue of length one. */
  datatype Op = Receive | Peek | Send(overwrite: bool)

  /** Why a task unlocks the queue: it is now waiting, it will try again, or its time-out expired. */
  datatype Reason = Wait | Retry | GiveUp

  /** The next atomic step of a task. */
  datatype Pc =
    | Idle
    | Test                        // the critical section at the top of the retry loop
    | Suspending                  // vTaskSuspendAll
    | Locking                     // prvLockQueue
    | Checking                    // xTaskCheckForTimeOut
    | Probing                     // prvIsQueueEmpty or prvIsQueueFull
    | Placing                     // vTaskPlaceOnEventList
    | UnlockingTx(why: Reason)    // first critical section of prvUnlockQueue
    | UnlockingRx(why: Reason)    // second critical section of prvUnlockQueue
    | Resuming(why: Reason)       // xTaskResumeAll
    | Blocked                     // the yield after xTaskResumeAll
    | Leaving                     // the last emptiness test of a timed-out receive

  datatype Local = Local(op: Op, pc: Pc)

  /**
   One event list of the queue with the lock count that guards it: cTxLock guards the receivers, cRxLock the
   senders.  `woken` are the tasks that left the list and have not tested the queue since; `posts` counts the
   interrupts that found the list locked, without the cap the lock count is subject to.
   */
  datatype Side = Side(waiting: seq<Task>, woken: set<Task>, lock: int, posts: nat)

  datatype Queue = Queue(
    length: nat,
    count: nat,
    receivers: Side,
    senders: Side,
    tasks: map<Task, Local>,
    suspender: Option<Task>)

  /** Operations on one event list. */

  function Pop(d: Side): Side {
    if d.waiting == [] then d
    else d.(waiting := d.waiting[1..], woken := d.woken + {d.waiting[0]})
  }

  /** An interrupt's effect on a list: wake the head, or record the event while locked.  The count is capped at
      the number of tasks, `n`. */
  function Signal(d: Side, n: nat): Side {
    if d.lock == UNLOCKED then Pop(d)
    else if d.lock < n then d.(lock := d.lock + 1, posts := d.posts + 1)
    else d.(posts := d.posts + 1)
  }

  /** configASSERT stops the system when a lock count would pass the range of int8_t. */
  predicate SignalHalts(d: Side, n: nat) {
    d.lock == INT8_MAX && d.lock < n
  }

  function Seize(d: Side): Side {
    if d.lock == UNLOCKED then d.(lock := 0, posts := 0) else d
  }

  /** One critical section of prvUnlockQueue: wake one task per recorded event while there are tasks. */
  function Unlock(d: Side): Side
    decreases d.lock
  {
    if d.lock > 0 && d.waiting != [] then Unlock(Pop(d).(lock := d.lock - 1))
    else d.(lock := UNLOCKED, posts := 0)
  }

  function Retested(d: Side, t: Task): Side {
    d.(woken := d.woken - {t})
  }

  /** The event list is kept in priority order; any position is allowed here, which covers every assignment of
      priorities and every later change of one. */
  function Place(d: Side, t: Task, at: nat): Side {
    d.(waiting := InsertAt(d.waiting, if at <= |d.waiting| then at else |d.waiting|, t))
  }

  /** The tick interrupt takes a task whose time ran out off its event list. */
  function Expire(d: Side, t: Task): Side {
    d.(waiting := Drop(d.waiting, t), woken := d.woken + {t})
  }

  /** The steps of the whole system. */

  datatype Action =
    | Call(t: Task, op: Op)
    | Step(t: Task, choice: bool, at: nat)  // the next atomic step of t
    | IsrSend(overwrite: bool)
    | IsrReceive
    | TimeOut(t: Task)

  function OnReceivers(op: Op): bool {
    !op.Send?
  }

  function Stuck(q: Queue, op: Op): bool {
    if op.Send? then q.count >= q.length && !op.overwrite else q.count == 0
  }

  function At(q: Queue, t: Task, pc: Pc): Queue
    requires t in q.tasks
  {
    q.(tasks := q.tasks[t := q.tasks[t].(pc := pc)])
  }

  /** The count after a send: overwriting a full queue of length one leaves it unchanged. */
  function Added(q: Queue, overwrite: bool): nat {
    if overwrite && q.count > 0 then q.count else q.count + 1
  }

  /** The critical section at the top of the loop, when the queue can serve the call. */
  function Serve(q: Queue, t: Task, op: Op): Queue
    requires t in q.tasks
    requires !Stuck(q, op)
  {
    var q := At(q, t, Idle);
    match op
    case Receive =>
      q.(count := q.count - 1, receivers := Retested(q.receivers, t), senders := Pop(q.senders))
    case Peek =>
      q.(receivers := Pop(Retested(q.receivers, t)))
    case Send(overwrite) =>
      q.(count := Added(q, overwrite), senders := Retested(q.senders, t), receivers := Pop(q.receivers))
  }

  function Fail(q: Queue, t: Task, op: Op, wait: bool): Queue
    requires t in q.tasks
  {
    var q := At(q, t, if wait then Suspending else Idle);
    if OnReceivers(op) then q.(receivers := Retested(q.receivers, t))
    else q.(senders := Retested(q.senders, t))
  }

  predicate IsWaiting(q: Queue, t: Task) {
    t in q.receivers.waiting || t in q.senders.waiting
  }

  /** One step of task t.  `choice` resolves what the model leaves open: whether the block time is non-zero
      (Test) and whether it has run out (Checking). */
  function Advance(q: Queue, t: Task, choice: bool, at: nat): Queue
    requires t in q.tasks
  {
    var op := q.tasks[t].op;
    match q.tasks[t].pc
    case Idle => q
    case Test => if Stuck(q, op) then Fail(q, t, op, choice) else Serve(q, t, op)
    case Suspending => At(q, t, Locking).(suspender := Some(t))
    case Locking => At(q, t, Checking).(receivers := Seize(q.receivers), senders := Seize(q.senders))
    case Checking => At(q, t, if choice then UnlockingTx(GiveUp) else Probing)
    case Probing => At(q, t, if Stuck(q, op) then Placing else UnlockingTx(Retry))
    case Placing =>
      var q := At(q, t, UnlockingTx(Wait));
      if OnReceivers(op) then q.(receivers := Place(q.receivers, t, at))
      else q.(senders := Place(q.senders, t, at))
    case UnlockingTx(why) => At(q, t, UnlockingRx(why)).(receivers := Unlock(q.receivers))
    case UnlockingRx(why) => At(q, t, Resuming(why)).(senders := Unlock(q.senders))
    case Resuming(why) =>
      var q := q.(suspender := None);
      (match why
       case Wait => At(q, t, Blocked)
       case Retry => At(q, t, Test)
       case GiveUp => At(q, t, if OnReceivers(op) then Leaving else Idle))
    case Blocked => if IsWaiting(q, t) then q else At(q, t, Test)
    case Leaving => At(q, t, if q.count == 0 then Idle else Test)
  }

  predicate MayRun(q: Queue, t: Task) {
    t in q.tasks && (q.suspender == None || q.suspender == Some(t))
  }

  /** An action that is not enabled leaves the state as it is. */
  function Next(q: Queue, a: Action): Queue {
    match a
    case Call(t, op) =>
      if MayRun(q, t) && q.tasks[t].pc == Idle && (op.Send? && op.overwrite ==> q.length == 1)
      then q.(tasks := q.tasks[t := Local(op, Test)])
      else q
    case Step(t, choice, at) =>
      if MayRun(q, t) then Advance(q, t, choice, at) else q
    case IsrSend(overwrite) =>
      if (overwrite && q.length != 1) || (q.count >= q.length && !overwrite) || SignalHalts(q.receivers, |q.tasks|)
      then q
      else q.(count := Added(q, overwrite), receivers := Signal(q.receivers, |q.tasks|))
    case IsrReceive =>
      if q.count == 0 || SignalHalts(q.senders, |q.tasks|) then q
      else q.(count := q.count - 1, senders := Signal(q.senders, |q.tasks|))
    case TimeOut(t) =>
      if q.suspender != None then q
      else if t in q.receivers.waiting then q.(receivers := Expire(q.receivers, t))
      else if t in q.senders.waiting then q.(senders := Expire(q.senders, t))
      else q
  }

  function Run(q: Queue, actions: seq<Action>): Queue {
    if actions == [] then q else Next(Run(q, actions[..|actions| - 1]), actions[|actions| - 1])
  }

  predicate Initial(q: Queue) {
    && 1 <= q.length && q.count <= q.length
    && q.receivers == Side([], {}, UNLOCKED, 0) && q.senders == Side([], {}, UNLOCKED, 0)
    && q.suspender == None
    && forall t :: t in q.tasks ==> q.tasks[t].pc == Idle
  }

  /** The invariant. */

  /** Between suspending and resuming, only the suspender and interrupts run. */
  predicate Suspended(pc: Pc) {
    pc.Locking? || pc.Checking? || pc.Probing? || pc.Placing? || pc.UnlockingTx? || pc.UnlockingRx? || pc.Resuming?
  }

  predicate HoldsReceivers(pc: Pc) {
    pc.Checking? || pc.Probing? || pc.Placing? || pc.UnlockingTx?
  }

  predicate HoldsSenders(pc: Pc) {
    HoldsReceivers(pc) || pc.UnlockingRx?
  }

  /** Where a task can be while its event item is on a list. */
  predicate MayWait(pc: Pc) {
    (pc.UnlockingTx? && pc.why == Wait) || (pc.UnlockingRx? && pc.why == Wait) || (pc.Resuming? && pc.why == Wait)
    || pc == Blocked
  }

  /** The wake-up balance of one list: `avail` is what the waiting tasks wait for.  Every unit is answered by a
      woken task or by a recorded event; a count that reached the cap will empty the list on unlocking. */
  ghost predicate Balanced(d: Side, avail: nat, n: nat, placing: bool) {
    if d.lock == UNLOCKED then d.waiting == [] || avail <= |d.woken|
    else (d.waiting == [] && !placing) || d.lock >= n || avail <= |d.woken| + d.lock
  }

  ghost predicate SideValid(d: Side, n: nat) {
    && Distinct(d.waiting)
    && (forall t :: t in d.waiting ==> t !in d.woken)
    && UNLOCKED <= d.lock
    && (d.lock >= 0 ==> d.lock == Min(d.posts, n))
  }

  /** Everybody on this list, or woken from it, is in a call that uses the list and will test the queue next. */
  ghost predicate MembersValid(d: Side, tasks: map<Task, Local>, receivers: bool) {
    && (forall t :: t in d.waiting ==> t in tasks && OnReceivers(tasks[t].op) == receivers && MayWait(tasks[t].pc))
    && (forall t :: t in d.woken ==>
          t in tasks && OnReceivers(tasks[t].op) == receivers && (MayWait(tasks[t].pc) || tasks[t].pc == Test))
  }

  predicate PlacingOn(q: Queue, receivers: bool) {
    && q.suspender.Some? && q.suspender.value in q.tasks
    && q.tasks[q.suspender.value].pc == Placing && OnReceivers(q.tasks[q.suspender.value].op) == receivers
  }

  ghost predicate Control(q: Queue) {
    && (forall t :: t in q.tasks ==> (Suspended(q.tasks[t].pc) <==> q.suspender == Some(t)))
    && (q.suspender.Some? ==> q.suspender.value in q.tasks)
    && (q.receivers.lock != UNLOCKED <==> q.suspender.Some? && HoldsReceivers(q.tasks[q.suspender.value].pc))
    && (q.senders.lock != UNLOCKED <==> q.suspender.Some? && HoldsSenders(q.tasks[q.suspender.value].pc))
    && (forall t :: t in q.tasks && q.tasks[t].op.Send? && q.tasks[t].op.overwrite && q.tasks[t].pc != Idle ==>
          q.length == 1)
  }

  ghost predicate Inv(q: Queue) {
    && 1 <= q.length && q.count <= q.length
    && SideValid(q.receivers, |q.tasks|) && SideValid(q.senders, |q.tasks|)
    && MembersValid(q.receivers, q.tasks, true) && MembersValid(q.senders, q.tasks, false)
    && Control(q)
    && Balanced(q.receivers, q.count, |q.tasks|, PlacingOn(q, true))
    && Balanced(q.senders, q.length - q.count, |q.tasks|, PlacingOn(q, false))
  }

  /** What each list operation keeps. */

  /** `e` holds no task that `d` did not hold. */
  ghost predicate NoNewMembers(d: Side, e: Side) {
    && (forall t :: t in e.waiting ==> t in d.waiting)
    && (forall t :: t in e.woken ==> t in d.woken || t in d.waiting)
  }

  ghost predicate Disjoint(d: Side) {
    Distinct(d.waiting) && forall t :: t in d.waiting ==> t !in d.woken
  }

  lemma PopKeeps(d: Side)
    requires Disjoint(d)
    ensures Disjoint(Pop(d)) && NoNewMembers(d, Pop(d))
    ensures |Pop(d).woken| == |d.woken| + (|d.waiting| - |Pop(d).waiting|)
    ensures d.waiting != [] ==> |Pop(d).waiting| == |d.waiting| - 1
  {
    if d.waiting != [] {
      assert d.waiting[0] in d.waiting;
      assert forall t :: t in d.waiting[1..] ==> t in d.waiting;
    }
  }

  lemma SignalKeeps(d: Side, avail: nat, n: nat, placing: bool)
    requires SideValid(d, n) && Balanced(d, avail, n, placing)
    ensures SideValid(Signal(d, n), n) && NoNewMembers(d, Signal(d, n))
    ensures Balanced(Signal(d, n), avail + 1, n, placing)
    ensures (Signal(d, n).lock == UNLOCKED) == (d.lock == UNLOCKED)
  {
    PopKeeps(d);
  }

  /** Playing the recorded events back restores the balance of the unlocked list. */
  lemma {:induction false} UnlockKeeps(d: Side, avail: nat)
    requires Disjoint(d) && d.lock >= 0
    requires d.waiting == [] || d.lock >= |d.waiting| || avail <= |d.woken| + d.lock
    ensures Disjoint(Unlock(d)) && NoNewMembers(d, Unlock(d)) && Unlock(d).lock == UNLOCKED
    ensures Unlock(d).waiting == [] || avail <= |Unlock(d).woken|
    decreases d.lock
  {
    if d.lock > 0 && d.waiting != [] {
      PopKeeps(d);
      UnlockKeeps(Pop(d).(lock := d.lock - 1), avail);
    }
  }

  /** Capping the lock count at the number of tasks loses nothing: the same tasks are woken as if every event had
      been counted. */
  lemma {:induction false} CapLosesNothing(d: Side, lock: nat)
    requires |d.waiting| <= d.lock <= lock || 0 <= d.lock == lock
    ensures Unlock(d) == Unlock(d.(lock := lock))
    decreases d.lock
  {
    if d.lock > 0 && d.waiting != [] {
      CapLosesNothing(Pop(d).(lock := d.lock - 1), lock - 1);
    }
  }

  lemma InsertKeeps<T>(s: seq<T>, at: nat, x: T)
    requires Distinct(s) && x !in s && at <= |s|
    ensures Distinct(InsertAt(s, at, x)) && |InsertAt(s, at, x)| == |s| + 1
    ensures forall y :: y in InsertAt(s, at, x) <==> y in s || y == x
  {
    assert s == s[..at] + s[at..];
  }

  lemma RetestKeeps(d: Side, t: Task)
    requires Disjoint(d)
    ensures Disjoint(Retested(d, t)) && NoNewMembers(d, Retested(d, t))
    ensures |Retested(d, t).woken| >= |d.woken| - 1
    ensures t !in Retested(d, t).woken
  {
  }

  /** Each step keeps the invariant. */

  /** t moves to a new place; the lists may lose members and must tolerate t's new place. */
  lemma MembersMove(d: Side, e: Side, tasks: map<Task, Local>, receivers: bool, t: Task, pc: Pc)
    requires MembersValid(d, tasks, receivers) && NoNewMembers(d, e) && t in tasks
    requires t in e.waiting ==> MayWait(pc)
    requires t in e.woken ==> MayWait(pc) || pc == Test
    ensures MembersValid(e, tasks[t := tasks[t].(pc := pc)], receivers)
  {
  }

  /** t, which may run, moves to a new place and takes or releases the scheduler and the locks accordingly. */
  lemma ControlMove(q: Queue, q': Queue, t: Task, pc: Pc)
    requires Control(q) && MayRun(q, t)
    requires q'.length == q.length && q'.tasks == At(q, t, pc).tasks
    requires q.tasks[t].pc == Idle ==> pc == Idle
    requires q'.suspender == if Suspended(pc) then Some(t) else None
    requires q'.receivers.lock != UNLOCKED <==> HoldsReceivers(pc)
    requires q'.senders.lock != UNLOCKED <==> HoldsSenders(pc)
    ensures Control(q') && |q'.tasks| == |q.tasks|
  {
    assert q'.tasks.Keys == q.tasks.Keys;
  }

  /** What the invariant says about a task that may run. */
  lemma Here(q: Queue, t: Task)
    requires Inv(q) && MayRun(q, t)
    ensures var pc := q.tasks[t].pc; var receivers := OnReceivers(q.tasks[t].op);
      && (Suspended(pc) <==> q.suspender == Some(t))
      && (q.receivers.lock != UNLOCKED <==> HoldsReceivers(pc))
      && (q.senders.lock != UNLOCKED <==> HoldsSenders(pc))
      && (t in q.receivers.waiting + q.senders.waiting ==> MayWait(pc))
      && (t in q.receivers.woken ==> receivers && (MayWait(pc) || pc == Test))
      && (t in q.senders.woken ==> !receivers && (MayWait(pc) || pc == Test))
      && (q.tasks[t].op.Send? && q.tasks[t].op.overwrite && pc != Idle ==> q.length == 1)
  {
  }

  lemma ServeReceiveKeeps(q: Queue, t: Task)
    requires Inv(q) && MayRun(q, t) && q.tasks[t] == Local(Receive, Test) && q.count > 0
    ensures Inv(Serve(q, t, Receive))
  {
    hide Control, MembersValid, Distinct, NoNewMembers;
    var q' := Serve(q, t, Receive);
    Here(q, t);
    RetestKeeps(q.receivers, t);
    PopKeeps(q.senders);
    MembersMove(q.receivers, q'.receivers, q.tasks, true, t, Idle);
    MembersMove(q.senders, q'.senders, q.tasks, false, t, Idle);
    ControlMove(q, q', t, Idle);
  }

  /** A peek leaves the item to others, so it passes the wake-up on. */
  lemma ServePeekKeeps(q: Queue, t: Task)
    requires Inv(q) && MayRun(q, t) && q.tasks[t] == Local(Peek, Test) && q.count > 0
    ensures Inv(Serve(q, t, Peek))
  {
    hide Control, MembersValid, Distinct, NoNewMembers;
    var q' := Serve(q, t, Peek);
    Here(q, t);
    RetestKeeps(q.receivers, t);
    PopKeeps(Retested(q.receivers, t));
    MembersMove(q.receivers, q'.receivers, q.tasks, true, t, Idle);
    MembersMove(q.senders, q'.senders, q.tasks, false, t, Idle);
    ControlMove(q, q', t, Idle);
  }

  lemma ServeSendKeeps(q: Queue, t: Task)
    requires Inv(q) && MayRun(q, t) && q.tasks[t].op.Send? && q.tasks[t].pc == Test && !Stuck(q, q.tasks[t].op)
    ensures Inv(Serve(q, t, q.tasks[t].op))
  {
    hide Control, MembersValid, Distinct, NoNewMembers;
    var q' := Serve(q, t, q.tasks[t].op);
    Here(q, t);
    RetestKeeps(q.senders, t);
    PopKeeps(q.receivers);
    MembersMove(q.receivers, q'.receivers, q.tasks, true, t, Idle);
    MembersMove(q.senders, q'.senders, q.tasks, false, t, Idle);
    ControlMove(q, q', t, Idle);
  }

  lemma ServeKeeps(q: Queue, t: Task)
    requires Inv(q) && MayRun(q, t) && q.tasks[t].pc == Test && !Stuck(q, q.tasks[t].op)
    ensures Inv(Serve(q, t, q.tasks[t].op))
  {
    match q.tasks[t].op
    case Receive => ServeReceiveKeeps(q, t);
    case Peek => ServePeekKeeps(q, t);
    case Send(_) => ServeSendKeeps(q, t);
  }

  lemma FailKeeps(q: Queue, t: Task, wait: bool)
    requires Inv(q) && MayRun(q, t) && q.tasks[t].pc == Test && Stuck(q, q.tasks[t].op)
    ensures Inv(Fail(q, t, q.tasks[t].op, wait))
  {
    hide Control, MembersValid, Distinct, NoNewMembers;
    var q' := Fail(q, t, q.tasks[t].op, wait);
    var pc := if wait then Suspending else Idle;
    Here(q, t);
    if OnReceivers(q.tasks[t].op) { RetestKeeps(q.receivers, t); } else { RetestKeeps(q.senders, t); }
    MembersMove(q.receivers, q'.receivers, q.tasks, true, t, pc);
    MembersMove(q.senders, q'.senders, q.tasks, false, t, pc);
    ControlMove(q, q', t, pc);
  }

  lemma PlaceMembers(d: Side, n: nat, tasks: map<Task, Local>, receivers: bool, t: Task, at: nat)
    requires SideValid(d, n) && MembersValid(d, tasks, receivers)
    requires t in tasks && OnReceivers(tasks[t].op) == receivers && tasks[t].pc == Placing
    ensures SideValid(Place(d, t, at), n)
    ensures MembersValid(Place(d, t, at), tasks[t := tasks[t].(pc := UnlockingTx(Wait))], receivers)
  {
    InsertKeeps(d.waiting, if at <= |d.waiting| then at else |d.waiting|, t);
  }

  lemma PlaceKeeps(q: Queue, t: Task, choice: bool, at: nat)
    requires Inv(q) && MayRun(q, t) && q.tasks[t].pc == Placing
    ensures Inv(Advance(q, t, choice, at))
  {
    hide Control, MembersValid, Distinct, NoNewMembers;
    Here(q, t);
    var q' := Advance(q, t, choice, at);
    ControlMove(q, q', t, UnlockingTx(Wait));
    if OnReceivers(q.tasks[t].op) {
      PlaceMembers(q.receivers, |q.tasks|, q.tasks, true, t, at);
      MembersMove(q.senders, q.senders, q.tasks, false, t, UnlockingTx(Wait));
    } else {
      PlaceMembers(q.senders, |q.tasks|, q.tasks, false, t, at);
      MembersMove(q.receivers, q.receivers, q.tasks, true, t, UnlockingTx(Wait));
    }
  }

  lemma WaitingBound(d: Side, tasks: map<Task, Local>, receivers: bool)
    requires SideValid(d, |tasks|) && MembersValid(d, tasks, receivers)
    ensures |d.waiting| <= |tasks|
  {
    DistinctBound(d.waiting, tasks.Keys);
  }

  lemma UnlockTxKeeps(q: Queue, t: Task, choice: bool, at: nat)
    requires Inv(q) && MayRun(q, t) && q.tasks[t].pc.UnlockingTx?
    ensures Inv(Advance(q, t, choice, at))
  {
    hide Control, MembersValid, Distinct, NoNewMembers, Unlock;
    Here(q, t);
    var q' := Advance(q, t, choice, at);
    WaitingBound(q.receivers, q.tasks, true);
    UnlockKeeps(q.receivers, q.count);
    MembersMove(q.receivers, q'.receivers, q.tasks, true, t, q'.tasks[t].pc);
    MembersMove(q.senders, q'.senders, q.tasks, false, t, q'.tasks[t].pc);
    ControlMove(q, q', t, q'.tasks[t].pc);
  }

  lemma UnlockRxKeeps(q: Queue, t: Task, choice: bool, at: nat)
    requires Inv(q) && MayRun(q, t) && q.tasks[t].pc.UnlockingRx?
    ensures Inv(Advance(q, t, choice, at))
  {
    hide Control, MembersValid, Distinct, NoNewMembers, Unlock;
    Here(q, t);
    var q' := Advance(q, t, choice, at);
    WaitingBound(q.senders, q.tasks, false);
    UnlockKeeps(q.senders, q.length - q.count);
    MembersMove(q.receivers, q'.receivers, q.tasks, true, t, q'.tasks[t].pc);
    MembersMove(q.senders, q'.senders, q.tasks, false, t, q'.tasks[t].pc);
    ControlMove(q, q', t, q'.tasks[t].pc);
  }

  lemma LockKeeps(q: Queue, t: Task, choice: bool, at: nat)
    requires Inv(q) && MayRun(q, t) && q.tasks[t].pc == Locking
    ensures Inv(Advance(q, t, choice, at))
  {
    hide Control, MembersValid, Distinct, NoNewMembers;
    Here(q, t);
    var q' := Advance(q, t, choice, at);
    MembersMove(q.receivers, q'.receivers, q.tasks, true, t, Checking);
    MembersMove(q.senders, q'.senders, q.tasks, false, t, Checking);
    ControlMove(q, q', t, Checking);
  }

  predicate Quiet(pc: Pc) {
    !pc.Test? && !pc.Locking? && !pc.Placing? && !pc.UnlockingTx? && !pc.UnlockingRx?
  }

  /** The steps that only move t leave both lists alone. */
  lemma QuietStep(q: Queue, t: Task, choice: bool, at: nat) returns (pc: Pc)
    requires Inv(q) && MayRun(q, t) && Quiet(q.tasks[t].pc)
    ensures Advance(q, t, choice, at) == At(q, t, pc).(suspender := if Suspended(pc) then Some(t) else None)
    ensures q.tasks[t].pc == Idle ==> pc == Idle
    ensures HoldsReceivers(pc) <==> HoldsReceivers(q.tasks[t].pc)
    ensures HoldsSenders(pc) <==> HoldsSenders(q.tasks[t].pc)
    ensures IsWaiting(q, t) ==> pc == Blocked
    ensures (t in q.receivers.woken || t in q.senders.woken) ==> pc == Blocked || pc == Test
    ensures pc == Placing ==> Stuck(q, q.tasks[t].op)
  {
    hide Inv;
    Here(q, t);
    pc := Advance(q, t, choice, at).tasks[t].pc;
    assert q.tasks[t].pc == pc ==> q.tasks == At(q, t, pc).tasks;
  }

  lemma QuietStepKeeps(q: Queue, t: Task, choice: bool, at: nat)
    requires Inv(q) && MayRun(q, t) && Quiet(q.tasks[t].pc)
    ensures Inv(Advance(q, t, choice, at))
  {
    hide Control, MembersValid, Distinct, NoNewMembers;
    Here(q, t);
    var pc := QuietStep(q, t, choice, at);
    var q' := Advance(q, t, choice, at);
    MembersMove(q.receivers, q'.receivers, q.tasks, true, t, pc);
    MembersMove(q.senders, q'.senders, q.tasks, false, t, pc);
    ControlMove(q, q', t, pc);
  }

  lemma AdvanceKeeps(q: Queue, t: Task, choice: bool, at: nat)
    requires Inv(q) && MayRun(q, t)
    ensures Inv(Advance(q, t, choice, at))
  {
    match q.tasks[t].pc
    case Test =>
      if Stuck(q, q.tasks[t].op) { FailKeeps(q, t, choice); } else { ServeKeeps(q, t); }
    case Placing => PlaceKeeps(q, t, choice, at);
    case Locking => LockKeeps(q, t, choice, at);
    case UnlockingTx(_) => UnlockTxKeeps(q, t, choice, at);
    case UnlockingRx(_) => UnlockRxKeeps(q, t, choice, at);
    case _ => QuietStepKeeps(q, t, choice, at);
  }

  lemma CallKeeps(q: Queue, t: Task, op: Op)
    requires Inv(q)
    ensures Inv(Next(q, Call(t, op)))
  {
    hide Control, MembersValid, SideValid, Balanced;
    var q' := Next(q, Call(t, op));
    if q' != q {
      Here(q, t);
      assert q'.tasks.Keys == q.tasks.Keys && |q'.tasks| == |q.tasks|;
      CallMembers(q.receivers, q.tasks, true, t, op);
      CallMembers(q.senders, q.tasks, false, t, op);
      CallControl(q, t, op);
    }
  }

  /** A task that begins a call is on no list. */
  lemma CallMembers(d: Side, tasks: map<Task, Local>, receivers: bool, t: Task, op: Op)
    requires MembersValid(d, tasks, receivers) && t in tasks && tasks[t].pc == Idle
    ensures MembersValid(d, tasks[t := Local(op, Test)], receivers)
  {
  }

  lemma CallControl(q: Queue, t: Task, op: Op)
    requires Control(q) && MayRun(q, t) && q.tasks[t].pc == Idle && (op.Send? && op.overwrite ==> q.length == 1)
    ensures var q' := q.(tasks := q.tasks[t := Local(op, Test)]);
      Control(q') && PlacingOn(q', true) == PlacingOn(q, true) && PlacingOn(q', false) == PlacingOn(q, false)
  {
  }

  lemma TimeOutKeeps(q: Queue, t: Task)
    requires Inv(q)
    ensures Inv(Next(q, TimeOut(t)))
  {
    if q.suspender == None {
      if t in q.receivers.waiting {
        DropKeeps(q.receivers.waiting, t);
      } else if t in q.senders.waiting {
        DropKeeps(q.senders.waiting, t);
      }
    }
  }

  /** Interrupts move no task. */
  lemma IsrControl(q: Queue, q': Queue)
    requires Control(q) && q'.tasks == q.tasks && q'.suspender == q.suspender && q'.length == q.length
    requires (q'.receivers.lock == UNLOCKED) == (q.receivers.lock == UNLOCKED)
    requires (q'.senders.lock == UNLOCKED) == (q.senders.lock == UNLOCKED)
    ensures Control(q')
  {
  }

  lemma FewerMembers(d: Side, e: Side, tasks: map<Task, Local>, receivers: bool)
    requires MembersValid(d, tasks, receivers) && NoNewMembers(d, e)
    ensures MembersValid(e, tasks, receivers)
  {
  }

  lemma IsrSendKeeps(q: Queue, overwrite: bool)
    requires Inv(q)
    ensures Inv(Next(q, IsrSend(overwrite)))
  {
    hide Control, MembersValid, Signal;
    SignalKeeps(q.receivers, q.count, |q.tasks|, PlacingOn(q, true));
    var q' := Next(q, IsrSend(overwrite));
    if q' != q {
      FewerMembers(q.receivers, q'.receivers, q.tasks, true);
      IsrControl(q, q');
    }
  }

  lemma IsrReceiveKeeps(q: Queue)
    requires Inv(q)
    ensures Inv(Next(q, IsrReceive))
  {
    hide Control, MembersValid, Signal;
    SignalKeeps(q.senders, q.length - q.count, |q.tasks|, PlacingOn(q, false));
    var q' := Next(q, IsrReceive);
    if q' != q {
      FewerMembers(q.senders, q'.senders, q.tasks, false);
      IsrControl(q, q');
    }
  }

  lemma NextKeeps(q: Queue, a: Action)
    requires Inv(q)
    ensures Inv(Next(q, a))
  {
    match a
    case Call(t, op) => CallKeeps(q, t, op);
    case Step(t, choice, at) =>
      if MayRun(q, t) { AdvanceKeeps(q, t, choice, at); }
    case IsrSend(overwrite) => IsrSendKeeps(q, overwrite);
    case IsrReceive => IsrReceiveKeeps(q);
    case TimeOut(t) => TimeOutKeeps(q, t);
  }

  lemma {:induction false} RunKeeps(q: Queue, actions: seq<Action>)
    requires Initial(q)
    ensures Inv(Run(q, actions))
    decreases |actions|
  {
    if actions != [] {
      RunKeeps(q, actions[..|actions| - 1]);
      NextKeeps(Run(q, actions[..|actions| - 1]), actions[|actions| - 1]);
    }
  }

  lemma CapHere(d: Side, tasks: map<Task, Local>, receivers: bool)
    requires SideValid(d, |tasks|) && MembersValid(d, tasks, receivers) && d.lock >= 0
    ensures Unlock(d) == Unlock(d.(lock := d.posts))
  {
    WaitingBound(d, tasks, receivers);
    CapLosesNothing(d, d.posts);
  }

  /** In every run, unlocking a locked list wakes the tasks that it would wake had every event been counted. */
  lemma CapNeverMatters(q: Queue, actions: seq<Action>)
    requires Initial(q)
    ensures var r := Run(q, actions);
      && (r.receivers.lock != UNLOCKED ==> Unlock(r.receivers) == Unlock(r.receivers.(lock := r.receivers.posts)))
      && (r.senders.lock != UNLOCKED ==> Unlock(r.senders) == Unlock(r.senders.(lock := r.senders.posts)))
  {
    hide Run, Unlock, Control, MembersValid, Balanced;
    RunKeeps(q, actions);
    var r := Run(q, actions);
    if r.receivers.lock != UNLOCKED { CapHere(r.receivers, r.tasks, true); }
    if r.senders.lock != UNLOCKED { CapHere(r.senders, r.tasks, false); }
  }

  /** No wake-up is lost, in any interleaving: while a receiver is still on its unlocked list, each item is answered
      by a task that left the list and has yet to test the queue again; dually for senders and free slots. */
  lemma NoLostWakeUp(q: Queue, actions: seq<Action>)
    requires Initial(q)
    ensures var r := Run(q, actions);
      && r.count <= r.length
      && (r.receivers.lock == UNLOCKED && r.receivers.waiting != [] ==> r.count <= |r.receivers.woken|)
      && (r.senders.lock == UNLOCKED && r.senders.waiting != [] ==> r.length - r.count <= |r.senders.woken|)
  {
    RunKeeps(q, actions);
  }

  /** One event list of the queue, with the lock count that guards it. */
  class GuardedList {
    var waiting: seq<Task>
    var lock: int
    ghost var woken: set<Task>
    ghost var posts: nat

    ghost function State(): Side
      reads this
    {
      Side(waiting, woken, lock, posts)
    }

    constructor ()
      ensures State() == Side([], {}, UNLOCKED, 0)
    {
      waiting, lock, woken, posts := [], UNLOCKED, {}, 0;
    }

    /** xTaskRemoveFromEventList, which its callers use on a list that is not empty. */
    method RemoveHead()
      requires waiting != []
      modifies this
      ensures State() == Pop(old(State()))
    {
      woken := woken + {waiting[0]};
      waiting := waiting[1..];
    }

    /** What xQueueGenericSendFromISR and xQueueReceiveFromISR do to the list after moving an item. */
    method SignalFromIsr(numberOfTasks: nat)
      requires !SignalHalts(State(), numberOfTasks)
      modifies this
      ensures State() == Signal(old(State()), numberOfTasks)
    {
      if lock == UNLOCKED {
        if waiting != [] { RemoveHead(); }
      } else {
        posts := posts + 1;
        if lock < numberOfTasks { lock := lock + 1; }
      }
    }

    /** One half of prvUnlockQueue. */
    method Release()
      modifies this
      ensures State() == Unlock(old(State()))
    {
      var events := lock;
      while events > 0
        invariant Unlock(State().(lock := events)) == Unlock(old(State()))
      {
        if waiting != [] {
          RemoveHead();
        } else {
          break;
        }
        events := events - 1;
      }
      lock := UNLOCKED;
      posts := 0;
    }
  }
}
