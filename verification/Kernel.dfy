/**
 The clock of tasks.c: the two delayed lists, the suspension protocol with its pended ticks and pending-ready
 list, and the event lists tasks block on.
 */
module Kernel {
  import opened Common
  import opened Clock
  import opened TimedLists

  type Task = Owner

  /**
   The lists tasks are in.  A ready list holds its tasks in order of arrival (the order in which they run is the subject
   of RoundRobin and Selection).  `due` is history: the true wake time of every blocked task.
   */
  datatype Lists = Lists(
    ready: seq<seq<Task>>,
    delayed: seq<ListItem>,
    overflow: seq<ListItem>,
    events: seq<seq<Task>>,
    pending: seq<Task>,
    priority: map<Task, nat>,
    due: map<Task, nat>)

  /**
   The kernel.  `now` and `total` are history: xTickCount without wrap-around, and the number of tick interrupts
   and caught-up or stepped ticks so far.
   */
  datatype State = State(
    lists: Lists,
    tick: nat,
    overflows: nat,
    nextUnblock: nat,
    suspended: nat,
    pended: nat,
    current: Task,
    tickless: bool,
    now: nat,
    total: nat)

  function DropTasks(lists: seq<seq<Task>>, ts: seq<Task>): seq<seq<Task>>
    decreases |ts|
  {
    if ts == [] then lists else DropTasks(DropAll(lists, ts[0]), ts[1..])
  }

  /** prvAddTaskToReadyList */
  function AddReady(ready: seq<seq<Task>>, priority: map<Task, nat>, t: Task): seq<seq<Task>> {
    if t in priority && priority[t] < |ready|
    then ready[priority[t] := ready[priority[t]] + [t]]
    else ready
  }

  function AddAllReady(ready: seq<seq<Task>>, priority: map<Task, nat>, ts: seq<Task>): seq<seq<Task>>
    decreases |ts|
  {
    if ts == [] then ready else AddAllReady(AddReady(ready, priority, ts[0]), priority, ts[1..])
  }

  /** Blocked tasks leave the delayed lists for their ready lists, in the order given. */
  function Wake(l: Lists, ts: seq<Task>): Lists {
    l.(ready := AddAllReady(l.ready, l.priority, ts),
       delayed := RemoveOwners(l.delayed, ts), overflow := RemoveOwners(l.overflow, ts),
       due := l.due - SetOf(ts))
  }

  /** prvResetNextTaskUnblockTime */
  function Reset(s: State): State {
    s.(nextUnblock := FirstWake(s.lists.delayed))
  }

  /** The entries at the front of the list that are due, and the rest. */
  function Due(es: seq<ListItem>, tick: nat): seq<ListItem> {
    if es == [] || tick < es[0].value then [] else [es[0]] + Due(es[1..], tick)
  }

  function NotDue(es: seq<ListItem>, tick: nat): seq<ListItem> {
    if es == [] || tick < es[0].value then es else NotDue(es[1..], tick)
  }

  /** What the loop in xTaskIncrementTick does to the lists: the tasks at the front leave the delayed list and the
      event list they may be in. */
  function ExpireLists(l: Lists, tick: nat): Lists {
    var ts := Owners(Due(l.delayed, tick));
    l.(ready := AddAllReady(l.ready, l.priority, ts), delayed := NotDue(l.delayed, tick),
       events := DropTasks(l.events, ts), due := l.due - SetOf(ts))
  }

  function Expire(s: State): State {
    Reset(s.(lists := ExpireLists(s.lists, s.tick)))
  }

  /** taskSWITCH_DELAYED_LISTS */
  function SwitchLists(s: State): State {
    Reset(s.(lists := s.lists.(delayed := s.lists.overflow, overflow := s.lists.delayed),
             overflows := Wrap(s.overflows + 1)))
  }

  /** The tick count and lists after the increment, before expired tasks are looked for. */
  function Count(s: State): State {
    var u := s.(tick := Wrap(s.tick + 1), now := s.now + 1);
    if u.tick == 0 then SwitchLists(u) else u
  }

  /** xTaskIncrementTick with the scheduler running. */
  function Tick(s: State): State {
    var u := Count(s);
    if u.tick >= u.nextUnblock then Expire(u) else u
  }

  function Ticks(s: State, k: nat): State {
    if k == 0 then s else Tick(Ticks(s, k - 1))
  }

  /** xTaskIncrementTick */
  function TickInterrupt(s: State): State {
    if s.suspended == 0 then Tick(s).(total := s.total + 1)
    else s.(pended := Wrap(s.pended + 1), total := s.total + 1)
  }

  /** The first loop of xTaskResumeAll, and the update of the next unblock time. */
  function DrainPending(s: State): State {
    if s.lists.pending == [] then s
    else Reset(s.(lists := Wake(s.lists, s.lists.pending).(pending := [])))
  }

  /** xTaskResumeAll */
  function Resume(s: State): State
    requires s.suspended > 0
  {
    var t := s.(suspended := s.suspended - 1);
    if t.suspended > 0 || t.lists.priority.Keys == {} then t
    else Ticks(DrainPending(t), t.pended).(pended := 0)
  }

  /** vTaskStepTick */
  function StepTick(s: State, k: nat): State {
    if Wrap(s.tick + k) == s.nextUnblock && k > 0
    then s.(pended := Wrap(s.pended + 1), tick := Wrap(s.tick + k - 1), now := s.now + k - 1, total := s.total + k)
    else s.(tick := Wrap(s.tick + k), now := s.now + k, total := s.total + k)
  }

  /** The filing part of prvAddCurrentTaskToDelayedList, where INCLUDE_vTaskSuspend is 0. */
  function File(l: Lists, t: Task, tick: nat, now: nat, n: nat): Lists {
    var e := ListItem(Wrap(tick + n), t);
    var m := l.(ready := DropAll(l.ready, t), due := l.due[t := now + n]);
    if e.value < tick then m.(overflow := Insert(m.overflow, e)) else m.(delayed := Insert(m.delayed, e))
  }

  /** prvAddCurrentTaskToDelayedList */
  function Delay(s: State, n: nat): State {
    var wake := Wrap(s.tick + n);
    s.(lists := File(s.lists, s.current, s.tick, s.now, n),
       nextUnblock := if s.tick <= wake < s.nextUnblock then wake else s.nextUnblock)
  }

  function PutEvent(l: Lists, ev: nat, at: nat, t: Task): Lists
    requires ev < |l.events| && at <= |l.events[ev]|
  {
    l.(events := l.events[ev := l.events[ev][..at] + [t] + l.events[ev][at..]])
  }

  /** vTaskPlaceOnEventList and vTaskPlaceOnUnorderedEventList; the position in the event list is arbitrary, which
      covers every assignment of priorities. */
  function BlockOn(s: State, ev: nat, at: nat, n: nat): State
    requires ev < |s.lists.events| && at <= |s.lists.events[ev]|
  {
    Delay(s.(lists := PutEvent(s.lists, ev, at, s.current)), n)
  }

  /** Waking one task; with tickless idle the next unblock time is brought up to date at once. */
  function WakeOne(s: State, l: Lists, t: Task): State {
    var u := s.(lists := Wake(l, [t]));
    if s.tickless then Reset(u) else u
  }

  /** xTaskRemoveFromEventList */
  function Signal(s: State, ev: nat): State
    requires ev < |s.lists.events| && s.lists.events[ev] != []
  {
    var t := s.lists.events[ev][0];
    var l := s.lists.(events := s.lists.events[ev := s.lists.events[ev][1..]]);
    if s.suspended > 0 then s.(lists := l.(pending := l.pending + [t])) else WakeOne(s, l, t)
  }

  /** vTaskRemoveFromUnorderedEventList, which brings the next unblock time up to date while the task is still on its
      delayed list. */
  function Unblock(s: State, t: Task): State {
    var u := if s.tickless then Reset(s) else s;
    u.(lists := Wake(s.lists.(events := DropAll(s.lists.events, t)), [t]))
  }

  predicate IsReady(l: Lists, t: Task) {
    t in l.priority && l.priority[t] < |l.ready| && t in l.ready[l.priority[t]]
  }

  datatype Action =
    | TickIsr
    | SuspendAll
    | ResumeAll
    | AddPended(k: nat)                     // the critical section of xTaskCatchUpTicks
    | StepTicks(k: nat)
    | DelayCurrent(n: nat)
    | BlockCurrent(ev: nat, at: nat, n: nat)
    | SignalEvent(ev: nat)
    | UnblockTask(t: Task)
    | Dispatch(t: Task)

  /** The callers' contracts. */
  predicate Enabled(s: State, a: Action) {
    match a
    case TickIsr => true
    case SuspendAll => true
    case ResumeAll => s.suspended > 0
    case AddPended(k) => s.suspended > 0
    case StepTicks(k) => s.tick + k <= s.nextUnblock && (s.tick + k == s.nextUnblock ==> s.suspended > 0)
    case DelayCurrent(n) => s.suspended > 0 && 1 <= n < TICKS && IsReady(s.lists, s.current)
    case BlockCurrent(ev, at, n) =>
      && s.suspended > 0 && 1 <= n < TICKS && IsReady(s.lists, s.current)
      && ev < |s.lists.events| && at <= |s.lists.events[ev]|
    case SignalEvent(ev) => ev < |s.lists.events| && s.lists.events[ev] != []
    case UnblockTask(t) => s.suspended > 0 && t in Items(s.lists.events)
    case Dispatch(t) => s.suspended == 0 && IsReady(s.lists, t)
  }

  /** An action outside its caller's contract leaves the state as it is. */
  function Next(s: State, a: Action): State {
    if !Enabled(s, a) then s else
    match a
    case TickIsr => TickInterrupt(s)
    case SuspendAll => s.(suspended := s.suspended + 1)
    case ResumeAll => Resume(s)
    case AddPended(k) => s.(pended := Wrap(s.pended + k), total := s.total + k)
    case StepTicks(k) => StepTick(s, k)
    case DelayCurrent(n) => Delay(s, n)
    case BlockCurrent(ev, at, n) => BlockOn(s, ev, at, n)
    case SignalEvent(ev) => Signal(s, ev)
    case UnblockTask(t) => Unblock(s, t)
    case Dispatch(t) => s.(current := t)
  }

  function Run(s: State, actions: seq<Action>): State {
    if actions == [] then s else Next(Run(s, actions[..|actions| - 1]), actions[|actions| - 1])
  }

  /** The invariant on lists. */

  function BlockedItems(l: Lists): multiset<Task> {
    multiset(Owners(l.delayed)) + multiset(Owners(l.overflow))
  }

  function StateItems(l: Lists): multiset<Task> {
    Items(l.ready) + BlockedItems(l)
  }

  function EventItems(l: Lists): multiset<Task> {
    Items(l.events) + multiset(l.pending)
  }

  ghost predicate Shelved(ready: seq<seq<Task>>, priority: map<Task, nat>) {
    && (forall t :: t in priority ==> priority[t] < |ready|)
    && (forall p, t :: 0 <= p < |ready| && t in ready[p] ==> t in priority && priority[t] == p)
  }

  /** Each task's state item is in exactly one list, a ready task in the list of its priority; event items are only
      in use while their task is blocked, each in at most one list. */
  ghost predicate ListsValid(l: Lists) {
    && StateItems(l) == multiset(l.priority.Keys)
    && BlockedItems(l) == multiset(l.due.Keys)
    && EventItems(l) <= multiset(l.due.Keys)
    && Shelved(l.ready, l.priority)
  }

  /** The invariant on time. */

  /** The delayed list holds waits of this epoch and the overflow list waits of the next, both in order. */
  ghost predicate Dated(l: Lists, after: int, epoch: nat) {
    && Filed(l.delayed, l.due, after, epoch) && Sorted(l.delayed)
    && Filed(l.overflow, l.due, after, epoch + 1) && Sorted(l.overflow)
  }

  /** The lists and the clock agree. */
  ghost predicate Core(s: State) {
    && ListsValid(s.lists) && Dated(s.lists, s.now, Epoch(s.now))
    && s.nextUnblock <= FirstWake(s.lists.delayed)
    && s.tick == Wrap(s.now) && s.overflows == Wrap(Epoch(s.now))
  }

  /** There is at least the idle task; every tick is counted once, in the tick count or among the pended ticks; tasks
      are held pending, and ticks pended, only while the scheduler is suspended. */
  predicate SuspensionValid(s: State) {
    && s.lists.priority.Keys != {}
    && s.pended < TICKS && Wrap(s.tick + s.pended) == Wrap(s.total)
    && (s.suspended == 0 ==> s.lists.pending == [] && s.pended == 0)
  }

  ghost predicate Inv(s: State) {
    Core(s) && SuspensionValid(s)
  }
}
