/**
 Direct-to-task notifications used as counting semaphores: ulTaskGenericNotifyTake against gives from interrupts and
 from other tasks.  Every critical section is one step, so an interrupt may fall between the test of the value, the
 move to the delayed list and the resumption of the scheduler.
 */
module Notifications {
  import opened Clock
  import opened Common

  type Task = nat

  datatype NotifyState = NotWaiting | Waiting | Received

  /** Where a task is in ulTaskGenericNotifyTake, waiting on one index. */
  datatype Phase =
    | Idle
    | Suspended(index: nat, mayBlock: bool)       // after vTaskSuspendAll
    | Tested(index: nat, shouldBlock: bool)       // after the first critical section
    | Listed(index: nat)                          // after prvAddCurrentTaskToDelayedList
    | Collecting(index: nat)                      // after xTaskResumeAll

  /** One notification of a task: value and state; `given` and `consumed` are history. */
  datatype Slot = Slot(value: nat, state: NotifyState, given: nat, consumed: nat)

  /** A task.  `blocked` says that its state item is in a delayed list.  `entries` is history: how often its event item
      has entered the pending-ready list during the present wait. */
  datatype Record = Record(slots: seq<Slot>, phase: Phase, blocked: bool, entries: nat)

  datatype State = State(tasks: map<Task, Record>, pending: seq<Task>, suspended: nat, current: Task)

  datatype Action =
    | BeginTake(index: nat, mayBlock: bool)
    | Test
    | List
    | ResumeTake
    | Collect(clear: bool)
    | SuspendAll
    | ResumeAll
    | GiveFromIsr(t: Task, index: nat)
    | Give(t: Task, index: nat)
    | TimeOut(t: Task)
    | Switch(t: Task)

  /** A task runs if it has been given the processor and has not blocked, or has suspended the scheduler. */
  predicate Running(s: State) {
    s.current in s.tasks && !s.tasks[s.current].blocked
  }

  predicate Enabled(s: State, a: Action) {
    match a
    case BeginTake(index, _) =>
      && s.suspended == 0 && Running(s) && s.tasks[s.current].phase.Idle? && index < |s.tasks[s.current].slots|
    case Test => s.current in s.tasks && s.tasks[s.current].phase.Suspended?
    case List => s.current in s.tasks && s.tasks[s.current].phase.Tested? && s.tasks[s.current].phase.shouldBlock
    case ResumeTake =>
      && s.current in s.tasks && s.suspended > 0
      && (s.tasks[s.current].phase.Listed? || (s.tasks[s.current].phase.Tested? && !s.tasks[s.current].phase.shouldBlock))
    case Collect(_) => s.suspended == 0 && Running(s) && s.tasks[s.current].phase.Collecting?
    case SuspendAll => Running(s) && s.tasks[s.current].phase.Idle?
    case ResumeAll => s.suspended > 0 && Running(s) && s.tasks[s.current].phase.Idle?
    case GiveFromIsr(t, index) => t in s.tasks && index < |s.tasks[t].slots|
    case Give(t, index) =>
      t in s.tasks && index < |s.tasks[t].slots| && Running(s) && s.tasks[s.current].phase.Idle?
    case TimeOut(t) => s.suspended == 0 && t in s.tasks && s.tasks[t].blocked
    case Switch(t) => s.suspended == 0 && t in s.tasks && !s.tasks[t].blocked
  }

  function Put(s: State, t: Task, r: Record): State {
    s.(tasks := s.tasks[t := r])
  }

  /** The critical section that decides whether to wait. */
  function TestSlot(r: Record): Record
    requires r.phase.Suspended?
  {
    var i := r.phase.index;
    if i < |r.slots| && r.slots[i].value == 0
    then r.(slots := r.slots[i := r.slots[i].(state := Waiting)], phase := Tested(i, r.phase.mayBlock), entries := 0)
    else r.(phase := Tested(i, false), entries := 0)
  }

  /** The critical section that takes the value: all of it, or one. */
  function CollectSlot(r: Record, clear: bool): Record
    requires r.phase.Collecting?
  {
    var i := r.phase.index;
    if i < |r.slots| then
      var x := r.slots[i];
      var taken := if clear || x.value == 0 then x.value else 1;
      r.(slots := r.slots[i := x.(value := x.value - taken, state := NotWaiting, consumed := x.consumed + taken)],
         phase := Idle)
    else r.(phase := Idle)
  }

  function GiveSlot(x: Slot): Slot {
    x.(value := Wrap(x.value + 1), state := Received, given := x.given + 1)
  }

  /** The count and the state change at once; a waiting task is made ready at once, or held pending. */
  function GiveTo(s: State, t: Task, index: nat, fromIsr: bool): State
    requires t in s.tasks && index < |s.tasks[t].slots|
  {
    var r := s.tasks[t];
    var g := r.(slots := r.slots[index := GiveSlot(r.slots[index])]);
    if !r.slots[index].state.Waiting? then Put(s, t, g)
    else if fromIsr && s.suspended > 0 then Put(s, t, g.(entries := r.entries + 1)).(pending := s.pending + [t])
    else Put(s, t, g.(blocked := false))
  }

  /** xTaskResumeAll: the last resume makes every pending task ready. */
  function Resume(s: State): State
    requires s.suspended > 0
  {
    if s.suspended > 1 then s.(suspended := s.suspended - 1)
    else s.(suspended := 0, pending := [],
            tasks := map t | t in s.tasks :: if t in s.pending then s.tasks[t].(blocked := false) else s.tasks[t])
  }

  function Next(s: State, a: Action): State {
    if !Enabled(s, a) then s else
    var c := s.current;
    match a
    case BeginTake(index, mayBlock) =>
      Put(s, c, s.tasks[c].(phase := Suspended(index, mayBlock))).(suspended := s.suspended + 1)
    case Test => Put(s, c, TestSlot(s.tasks[c]))
    case List => Put(s, c, s.tasks[c].(phase := Listed(s.tasks[c].phase.index), blocked := true))
    case ResumeTake => Resume(Put(s, c, s.tasks[c].(phase := Collecting(s.tasks[c].phase.index))))
    case Collect(clear) => Put(s, c, CollectSlot(s.tasks[c], clear))
    case SuspendAll => s.(suspended := s.suspended + 1)
    case ResumeAll => Resume(s)
    case GiveFromIsr(t, index) => GiveTo(s, t, index, true)
    case Give(t, index) => GiveTo(s, t, index, false)
    case TimeOut(t) => Put(s, t, s.tasks[t].(blocked := false))
    case Switch(t) => s.(current := t)
  }

  function Run(s: State, actions: seq<Action>): State {
    if actions == [] then s else Next(Run(s, actions[..|actions| - 1]), actions[|actions| - 1])
  }

  predicate Initial(s: State) {
    && s.pending == [] && s.suspended == 0
    && forall t :: t in s.tasks ==>
         && s.tasks[t].phase.Idle? && !s.tasks[t].blocked && s.tasks[t].entries == 0
         && forall x :: x in s.tasks[t].slots ==> x == Slot(0, NotWaiting, 0, 0)
  }

  // ---- The invariant.

  /** The index waited on, from the first critical section to the last. */
  function WaitIndex(p: Phase): Option<nat> {
    match p
    case Tested(i, _) => Some(i)
    case Listed(i) => Some(i)
    case Collecting(i) => Some(i)
    case _ => None
  }

  predicate InSuspension(p: Phase) {
    p.Suspended? || p.Tested? || p.Listed?
  }

  /** The value is what was given and not consumed, modulo the width of the count; a slot waited on is empty. */
  predicate SlotValid(x: Slot) {
    && x.value < TICKS && x.consumed + x.value <= x.given && Wrap(x.given - x.consumed) == x.value
    && (x.state.Waiting? ==> x.value == 0)
  }

  /** Only the slot of the present wait is in the waiting state, and the task is held pending iff it was notified
      during the suspension it waits in. */
  ghost predicate RecordValid(r: Record, isPending: bool) {
    && (forall x :: x in r.slots ==> SlotValid(x))
    && (!r.phase.Idle? ==> r.phase.index < |r.slots|)
    && (forall i :: 0 <= i < |r.slots| && r.slots[i].state.Waiting? ==>
          WaitIndex(r.phase) == Some(i) && !isPending && r.entries == 0)
    && (isPending ==> WaitIndex(r.phase).Some? && r.slots[r.phase.index].state.Received?)
    && r.entries <= 1
    && (r.blocked ==> r.phase.Listed? || r.phase.Collecting?)
    && (r.phase.Listed? ==> r.blocked)
    && (r.blocked || (r.phase.Tested? && r.phase.shouldBlock) ==>
          r.slots[r.phase.index].state.Waiting? || isPending)
  }

  ghost predicate Inv(s: State) {
    && (forall t :: t in s.tasks ==> RecordValid(s.tasks[t], t in s.pending))
    && (forall t :: t in s.tasks && InSuspension(s.tasks[t].phase) ==> t == s.current && s.suspended == 1)
    && Distinct(s.pending) && (forall t :: t in s.pending ==> t in s.tasks)
    && (s.suspended == 0 ==> s.pending == [])
  }
}
