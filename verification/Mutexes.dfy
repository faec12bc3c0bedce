/**
 Mutexes and priority inheritance: the mutex paths of queue.c over the task priorities and ready lists of tasks.c.
 Each action is one critical section, or one stretch with the scheduler suspended, of the running task.
 */
module Mutexes {
  import opened Common

  type Task = nat
  type Handle = nat

  /** Where a task is in xQueueSemaphoreTake.  `inherited` is the local xInheritanceOccurred. */
  datatype Call =
    | NoCall
    | Taking(m: Handle, inherited: bool)     // about to test the count
    | Waiting(m: Handle, inherited: bool)    // on the mutex's event list
    | Expiring(m: Handle)                    // timed out, about to give the inherited priority back
    | Counting(m: Handle)                    // took a recursive mutex, about to count the call
    | Sending(m: Handle)                     // counted a recursive mutex down to 0, about to send it back
    | Asleep                                 // blocked on something else
    | Returning                              // woken, about to reset its event item

  /** The part of a TCB that mutexes touch.  `borrowed` says that an event group uses the event item's value. */
  datatype Tcb = Tcb(priority: nat, base: nat, held: nat, item: int, borrowed: bool, call: Call)

  datatype Mutex = Mutex(holder: Option<Task>, count: nat, waiting: seq<Task>, recursive: bool, depth: nat)

  datatype State = State(tasks: map<Task, Tcb>, mutexes: map<Handle, Mutex>, ready: seq<seq<Task>>, current: Task)

  predicate Runs(call: Call) {
    !call.Waiting? && !call.Asleep?
  }

  /** configMAX_PRIORITIES less the priority: event lists are sorted by this. */
  function ItemValue(s: State, priority: nat): int {
    |s.ready| - priority
  }

  function Unready(ready: seq<seq<Task>>, t: Task, p: nat): seq<seq<Task>> {
    if p < |ready| then ready[p := Drop(ready[p], t)] else ready
  }

  function MakeReady(ready: seq<seq<Task>>, t: Task, p: nat): seq<seq<Task>> {
    if p < |ready| then ready[p := ready[p] + [t]] else ready
  }

  function IsInReadyList(ready: seq<seq<Task>>, t: Task, p: nat): bool {
    p < |ready| && t in ready[p]
  }

  function SetCall(s: State, t: Task, call: Call): State
    requires t in s.tasks
  {
    s.(tasks := s.tasks[t := s.tasks[t].(call := call)])
  }

  /** Change the priority of t, moving it to another ready list if it is in one. */
  function Reprioritise(s: State, t: Task, p: nat): State
    requires t in s.tasks
  {
    var tcb := s.tasks[t];
    var after := tcb.(priority := p, item := if tcb.borrowed then tcb.item else ItemValue(s, p));
    s.(tasks := s.tasks[t := after],
       ready := if IsInReadyList(s.ready, t, tcb.priority)
                then MakeReady(Unready(s.ready, t, tcb.priority), t, p)
                else s.ready)
  }

  /** xTaskPriorityInherit: the running task is about to wait for the holder. */
  function Inherit(s: State, holder: Option<Task>): State
    requires s.current in s.tasks && (holder.Some? ==> holder.value in s.tasks)
  {
    if holder.Some? && s.tasks[holder.value].priority < s.tasks[s.current].priority
    then Reprioritise(s, holder.value, s.tasks[s.current].priority)
    else s
  }

  /** Its result. */
  predicate Inherits(s: State, holder: Option<Task>)
    requires s.current in s.tasks && (holder.Some? ==> holder.value in s.tasks)
  {
    holder.Some? && (s.tasks[holder.value].priority < s.tasks[s.current].priority
                     || s.tasks[holder.value].base < s.tasks[s.current].priority)
  }

  /** xTaskPriorityDisinherit */
  function Disinherit(s: State, t: Task): State
    requires t in s.tasks && s.tasks[t].held > 0
  {
    var tcb := s.tasks[t].(held := s.tasks[t].held - 1);
    var u := s.(tasks := s.tasks[t := tcb]);
    if tcb.priority != tcb.base && tcb.held == 0 then Reprioritise(u, t, tcb.base) else u
  }

  /** prvGetDisinheritPriorityAfterTimeout */
  function HighestWaiting(s: State, m: Handle): int
    requires m in s.mutexes
  {
    var w := s.mutexes[m].waiting;
    if w != [] && w[0] in s.tasks then |s.ready| - s.tasks[w[0]].item else 0
  }

  /** The priority vTaskPriorityDisinheritAfterTimeout wants for t. */
  function Wanted(s: State, t: Task, highest: int): nat
    requires t in s.tasks
  {
    if s.tasks[t].base < highest then highest else s.tasks[t].base
  }

  /** Its configASSERT. */
  predicate DisinheritHalts(s: State, holder: Option<Task>, highest: int)
    requires holder.Some? ==> holder.value in s.tasks
  {
    holder.Some? && s.tasks[holder.value].priority != Wanted(s, holder.value, highest)
    && s.tasks[holder.value].held == 1 && holder.value == s.current
  }

  /** vTaskPriorityDisinheritAfterTimeout */
  function DisinheritAfterTimeout(s: State, holder: Option<Task>, highest: int): State
    requires holder.Some? ==> holder.value in s.tasks
  {
    if holder.Some? && s.tasks[holder.value].priority != Wanted(s, holder.value, highest)
       && s.tasks[holder.value].held == 1
    then Reprioritise(s, holder.value, Wanted(s, holder.value, highest))
    else s
  }

  /** vListInsert on the event list. */
  function InsertWaiter(waiting: seq<Task>, tasks: map<Task, Tcb>, t: Task): seq<Task>
    requires t in tasks
  {
    if waiting == [] || (waiting[0] in tasks && tasks[t].item < tasks[waiting[0]].item) then [t] + waiting
    else [waiting[0]] + InsertWaiter(waiting[1..], tasks, t)
  }

  /** The mutex is taken by the running task. */
  function Acquire(s: State, m: Handle): State
    requires s.current in s.tasks && m in s.mutexes && s.mutexes[m].count > 0
  {
    var mutex, tcb := s.mutexes[m], s.tasks[s.current];
    var call := if mutex.recursive then Counting(m) else NoCall;
    s.(mutexes := s.mutexes[m := mutex.(count := mutex.count - 1, holder := Some(s.current))],
       tasks := s.tasks[s.current := tcb.(held := tcb.held + 1, call := call)])
  }

  /** The running task blocks on the mutex. */
  function Block(s: State, m: Handle): State
    requires s.current in s.tasks && m in s.mutexes
    requires s.mutexes[m].holder.Some? ==> s.mutexes[m].holder.value in s.tasks
  {
    var c := s.current;
    var inherited := Inherits(s, s.mutexes[m].holder);
    var u := Inherit(s, s.mutexes[m].holder);
    var mutex := u.mutexes[m];
    u.(mutexes := u.mutexes[m := mutex.(waiting := InsertWaiter(mutex.waiting, u.tasks, c))],
       tasks := u.tasks[c := u.tasks[c].(call := Waiting(m, inherited))],
       ready := Unready(u.ready, c, u.tasks[c].priority))
  }

  /** The first waiting task becomes ready to try again. */
  function WakeWaiter(s: State, m: Handle): State
    requires m in s.mutexes
  {
    var w := s.mutexes[m].waiting;
    if w == [] || w[0] !in s.tasks then s else Unwait(s, m, w[0])
  }

  function Unwait(s: State, m: Handle, t: Task): State
    requires m in s.mutexes && t in s.tasks
  {
    var tcb, mutex := s.tasks[t], s.mutexes[m];
    s.(mutexes := s.mutexes[m := mutex.(waiting := Drop(mutex.waiting, t))],
       tasks := s.tasks[t := tcb.(call := if tcb.call.Waiting? then Taking(m, tcb.call.inherited) else tcb.call)],
       ready := MakeReady(s.ready, t, tcb.priority))
  }

  /** prvCopyDataToQueue and the wake-up in xQueueGenericSend, for a mutex held by the running task. */
  function Release(s: State, m: Handle): State
    requires s.current in s.tasks && s.tasks[s.current].held > 0 && m in s.mutexes
  {
    var u := Disinherit(s, s.current);
    var mutex := u.mutexes[m];
    WakeWaiter(u.(mutexes := u.mutexes[m := mutex.(holder := None, count := mutex.count + 1)]), m)
  }

  datatype Action =
    | Take(m: Handle)             // xQueueSemaphoreTake, or xQueueTakeMutexRecursive on a recursive mutex
    | Try
    | Wait
    | Quit                        // no block time left at the top of the loop
    | TimedOut                    // the count is still 0 after the time-out
    | GivePriorityBack
    | CountCall
    | Give(m: Handle)             // xSemaphoreGive, or xQueueGiveMutexRecursive on a recursive mutex
    | SendBack                    // the send in xQueueGiveMutexRecursive
    | Expire(t: Task)             // the tick ends the wait of t
    | Sleep(borrow: bool)
    | WakeUp(t: Task)
    | ResetItem
    | Switch(t: Task)

  /** The running task really runs. */
  predicate Running(s: State) {
    s.current in s.tasks && Runs(s.tasks[s.current].call)
  }

  predicate Tries(s: State, zero: bool) {
    && Running(s) && s.tasks[s.current].call.Taking? && s.tasks[s.current].call.m in s.mutexes
    && (s.mutexes[s.tasks[s.current].call.m].count == 0) == zero
  }

  predicate Enabled(s: State, a: Action) {
    match a
    case Take(m) => Running(s) && s.tasks[s.current].call == NoCall && m in s.mutexes
    case Try => Tries(s, false)
    case Wait =>
      && Tries(s, true)
      && var h := s.mutexes[s.tasks[s.current].call.m].holder; h.Some? ==> h.value in s.tasks
    case Quit => Tries(s, true)
    case TimedOut => Tries(s, true)
    case GivePriorityBack =>
      && Running(s) && s.tasks[s.current].call.Expiring? && s.tasks[s.current].call.m in s.mutexes
      && var m := s.tasks[s.current].call.m; var h := s.mutexes[m].holder;
      && (h.Some? ==> h.value in s.tasks) && !DisinheritHalts(s, h, HighestWaiting(s, m))
    case CountCall => Running(s) && s.tasks[s.current].call.Counting? && s.tasks[s.current].call.m in s.mutexes
    case Give(m) =>
      && Running(s) && s.tasks[s.current].call == NoCall && s.tasks[s.current].held > 0
      && m in s.mutexes && s.mutexes[m].holder == Some(s.current)
      && (s.mutexes[m].recursive ==> s.mutexes[m].depth > 0)
    case SendBack =>
      && Running(s) && s.tasks[s.current].call.Sending? && s.tasks[s.current].held > 0
      && s.tasks[s.current].call.m in s.mutexes && s.mutexes[s.tasks[s.current].call.m].holder == Some(s.current)
    case Expire(t) => t in s.tasks && s.tasks[t].call.Waiting? && s.tasks[t].call.m in s.mutexes
    case Sleep(_) => Running(s) && s.tasks[s.current].call == NoCall
    case WakeUp(t) => t in s.tasks && s.tasks[t].call == Asleep
    case ResetItem => Running(s) && s.tasks[s.current].call == Returning
    case Switch(t) => t in s.tasks && IsInReadyList(s.ready, t, s.tasks[t].priority)
  }

  /** An action that is not enabled leaves the state as it is. */
  function Next(s: State, a: Action): State {
    if !Enabled(s, a) then s else
    match a
    case Take(m) =>
      var mutex := s.mutexes[m];
      if mutex.recursive && mutex.holder == Some(s.current)
      then s.(mutexes := s.mutexes[m := mutex.(depth := mutex.depth + 1)])
      else SetCall(s, s.current, Taking(m, false))
    case Try => Acquire(s, s.tasks[s.current].call.m)
    case Wait => Block(s, s.tasks[s.current].call.m)
    case Quit => SetCall(s, s.current, NoCall)
    case TimedOut =>
      var call := s.tasks[s.current].call;
      SetCall(s, s.current, if call.inherited then Expiring(call.m) else NoCall)
    case GivePriorityBack =>
      var m := s.tasks[s.current].call.m;
      var u := DisinheritAfterTimeout(s, s.mutexes[m].holder, HighestWaiting(s, m));
      SetCall(u, s.current, NoCall)
    case CountCall =>
      var m := s.tasks[s.current].call.m;
      SetCall(s.(mutexes := s.mutexes[m := s.mutexes[m].(depth := s.mutexes[m].depth + 1)]), s.current, NoCall)
    case Give(m) =>
      var mutex := s.mutexes[m];
      if !mutex.recursive then Release(s, m)
      else
        var u := s.(mutexes := s.mutexes[m := mutex.(depth := mutex.depth - 1)]);
        if mutex.depth == 1 then SetCall(u, s.current, Sending(m)) else u
    case SendBack => Release(SetCall(s, s.current, NoCall), s.tasks[s.current].call.m)
    case Expire(t) => Unwait(s, s.tasks[t].call.m, t)
    case Sleep(borrow) =>
      var tcb := s.tasks[s.current];
      s.(tasks := s.tasks[s.current := tcb.(call := Asleep, borrowed := borrow)],
         ready := Unready(s.ready, s.current, tcb.priority))
    case WakeUp(t) =>
      SetCall(s.(ready := MakeReady(s.ready, t, s.tasks[t].priority)), t, Returning)
    case ResetItem =>
      var tcb := s.tasks[s.current];
      s.(tasks := s.tasks[s.current := tcb.(call := NoCall, borrowed := false, item := ItemValue(s, tcb.priority))])
    case Switch(t) => s.(current := t)
  }

  function Run(s: State, actions: seq<Action>): State {
    if actions == [] then s else Next(Run(s, actions[..|actions| - 1]), actions[|actions| - 1])
  }

  /** The invariant. */

  function HeldBy(mutexes: map<Handle, Mutex>, t: Task): set<Handle> {
    set m | m in mutexes && mutexes[m].holder == Some(t)
  }

  /** Between taking or giving a recursive mutex and counting the call. */
  predicate CountIsOff(call: Call) {
    call.Counting? || call.Sending?
  }

  /** A mutex has a holder exactly when its count is 0; a recursive one counts the calls of its holder. */
  ghost predicate MutexValid(m: Handle, mutex: Mutex, tasks: map<Task, Tcb>) {
    && mutex.count <= 1 && (mutex.count == 0 <==> mutex.holder.Some?)
    && (mutex.holder.Some? ==> mutex.holder.value in tasks)
    && (mutex.recursive && mutex.holder.Some? ==>
          var call := tasks[mutex.holder.value].call;
          (mutex.depth == 0 <==> call == Counting(m) || call == Sending(m)))
    && (!mutex.recursive || mutex.holder.None? ==> mutex.depth == 0)
  }

  ghost predicate HoldersValid(mutexes: map<Handle, Mutex>, tasks: map<Task, Tcb>) {
    && (forall m :: m in mutexes ==> MutexValid(m, mutexes[m], tasks))
    && (forall t :: t in tasks ==> tasks[t].held == |HeldBy(mutexes, t)|)
    && (forall t :: t in tasks && CountIsOff(tasks[t].call) ==>
          tasks[t].call.m in mutexes && mutexes[tasks[t].call.m].holder == Some(t) && mutexes[tasks[t].call.m].recursive)
  }

  /** Priorities only rise above the base for holders; the event item follows unless it is borrowed. */
  predicate PriorityValid(tcb: Tcb, n: nat) {
    && tcb.base <= tcb.priority < n
    && (tcb.held == 0 ==> tcb.priority == tcb.base)
    && (tcb.borrowed ==> tcb.call == Asleep || tcb.call == Returning)
    && (!tcb.borrowed ==> tcb.item == n - tcb.priority)
  }

  ghost predicate PrioritiesValid(tasks: map<Task, Tcb>, n: nat) {
    forall t :: t in tasks ==> PriorityValid(tasks[t], n)
  }

  /** A task that can run is in the ready list of its current priority, once, and in no other. */
  ghost predicate ReadyValid(ready: seq<seq<Task>>, tasks: map<Task, Tcb>) {
    && (forall p :: 0 <= p < |ready| ==> Distinct(ready[p]))
    && (forall p, t :: 0 <= p < |ready| ==>
          (t in ready[p] <==> t in tasks && tasks[t].priority == p && Runs(tasks[t].call)))
  }

  /** The tasks on a mutex's event list are those whose wait is for it. */
  ghost predicate WaitersValid(mutexes: map<Handle, Mutex>, tasks: map<Task, Tcb>) {
    && (forall m :: m in mutexes ==> Distinct(mutexes[m].waiting))
    && (forall m, t :: m in mutexes ==>
          (t in mutexes[m].waiting <==> t in tasks && tasks[t].call.Waiting? && tasks[t].call.m == m))
    && (forall t :: t in tasks && tasks[t].call.Waiting? ==> tasks[t].call.m in mutexes)
  }

  ghost predicate Inv(s: State) {
    && HoldersValid(s.mutexes, s.tasks)
    && PrioritiesValid(s.tasks, |s.ready|)
    && ReadyValid(s.ready, s.tasks)
    && WaitersValid(s.mutexes, s.tasks)
  }
}
