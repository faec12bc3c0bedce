/**
 Whether a task is ever left running below a ready one.  Steps that make a task ready or change priorities ask for a
 yield; the kernel then switches to a task of the highest ready priority.
 */
module Preemption {
  import opened Common
  import opened Mutexes
  import opened MutexProofs

  /** A task that can run has a higher priority than the running one. */
  ghost predicate Above(s: State)
    requires s.current in s.tasks
  {
    exists t :: t in s.tasks && Runs(s.tasks[t].call) && s.tasks[s.current].priority < s.tasks[t].priority
  }

  /** The yield xQueueGenericSend asks for on a mutex: for the woken task if there is one, and only otherwise for the
      drop of the giver's own priority. */
  predicate GiveYields(s: State, m: Handle)
    requires s.current in s.tasks && m in s.mutexes
  {
    var tcb, waiting := s.tasks[s.current], s.mutexes[m].waiting;
    if waiting != [] then waiting[0] in s.tasks && Left(tcb) < s.tasks[waiting[0]].priority
    else tcb.priority != tcb.base && tcb.held == 1
  }

  /** The mutex a step sends back. */
  function SentBack(s: State, a: Action): Option<Handle>
    requires s.current in s.tasks
  {
    match a
    case Give(m) => if m in s.mutexes && !s.mutexes[m].recursive then Some(m) else None
    case SendBack => if s.tasks[s.current].call.Sending? then Some(s.tasks[s.current].call.m) else None
    case _ => None
  }

  /** The yield a step asks for: blocking always does, waking a task does if it is above the running one. */
  predicate Requests(s: State, a: Action)
    requires s.current in s.tasks && Enabled(s, a)
  {
    match a
    case Wait => true
    case Sleep(_) => true
    case WakeUp(t) => s.tasks[s.current].priority < s.tasks[t].priority
    case Expire(t) => s.tasks[s.current].priority < s.tasks[t].priority
    case Give(m) => !s.mutexes[m].recursive && GiveYields(s, m)
    case SendBack => GiveYields(s, s.tasks[s.current].call.m)
    case _ => false
  }

  /** After the step a ready task is above the running one, and no yield was asked for. */
  ghost predicate LeavesBehind(s: State, a: Action) {
    && s.current in s.tasks && Enabled(s, a) && Next(s, a).current in Next(s, a).tasks
    && Above(Next(s, a)) && !Requests(s, a)
  }

  // ---- The steps that leave a task behind.

  /** Some task other than t can run and is above p. */
  ghost predicate OtherAbove(s: State, t: Task, p: nat) {
    exists u :: u in s.tasks && u != t && Runs(s.tasks[u].call) && p < s.tasks[u].priority
  }

  /** The running task gives up its last mutex and an inherited priority, wakes a task that is not above its base, and
      another task above that base is ready. */
  ghost predicate GiveLeavesBehind(s: State, m: Handle)
    requires s.current in s.tasks && m in s.mutexes
  {
    var tcb, waiting := s.tasks[s.current], s.mutexes[m].waiting;
    && tcb.priority != tcb.base && tcb.held == 1
    && waiting != [] && waiting[0] in s.tasks && s.tasks[waiting[0]].priority <= tcb.base
    && OtherAbove(s, s.current, tcb.base)
  }

  /** The holder a timed-out task finds falls back to a priority that is above the running task, and can run. */
  predicate GiveBackLeavesBehind(s: State)
    requires Enabled(s, GivePriorityBack)
  {
    var m := s.tasks[s.current].call.m;
    var h := s.mutexes[m].holder;
    && h.Some? && s.tasks[h.value].held == 1 && Runs(s.tasks[h.value].call) && h.value != s.current
    && s.tasks[s.current].priority < Wanted(s, h.value, HighestWaiting(s, m))
  }

  /** Giving back a mutex: who can run afterwards, and at which priority. */
  lemma GiveShape(s: State, a: Action, m: Handle)
    requires Inv(s) && Enabled(s, a) && s.current in s.tasks && SentBack(s, a) == Some(m)
    ensures m in s.mutexes
    ensures var c, n := s.current, Next(s, a);
      && n.current == c && n.tasks.Keys == s.tasks.Keys && n.tasks[c].priority == Left(s.tasks[c])
      && (forall t :: t in s.tasks && t != c ==> n.tasks[t].priority == s.tasks[t].priority)
      && (forall t :: t in s.tasks && t != c ==>
            (Runs(n.tasks[t].call) <==>
               Runs(s.tasks[t].call) || (s.mutexes[m].waiting != [] && s.mutexes[m].waiting[0] == t)))
    ensures s.mutexes[m].waiting != [] ==> s.mutexes[m].waiting[0] in s.tasks && s.mutexes[m].waiting[0] != s.current
  {
    hide Inv, Release, Drop;
    if a.Give? { NoCallYet(s); }
    ReleaseShape(s, m);
  }

  /** Sending a mutex back leaves a ready task above the giver without a yield in exactly one case. */
  lemma GiveIff(s: State, a: Action, m: Handle)
    requires Inv(s) && Enabled(s, a) && s.current in s.tasks && SentBack(s, a) == Some(m) && !Above(s)
    ensures m in s.mutexes && Next(s, a).current in Next(s, a).tasks
    ensures LeavesBehind(s, a) <==> GiveLeavesBehind(s, m)
  {
    hide Inv, Next;
    GiveShape(s, a, m);
    InReadyList(s, s.current);
    var c, n, waiting := s.current, Next(s, a), s.mutexes[m].waiting;
    if GiveLeavesBehind(s, m) {
      var u :| u in s.tasks && u != c && Runs(s.tasks[u].call) && s.tasks[c].base < s.tasks[u].priority;
      assert Runs(n.tasks[u].call);
    }
    if Above(n) && !Requests(s, a) {
      var u :| u in n.tasks && Runs(n.tasks[u].call) && n.tasks[c].priority < n.tasks[u].priority;
      assert u != c;
    }
  }

  /** So does giving back an inherited priority, in exactly one case: it never asks for a yield. */
  lemma GiveBackAboveIff(s: State)
    requires Inv(s) && Enabled(s, GivePriorityBack) && !Above(s)
    ensures Next(s, GivePriorityBack).current in Next(s, GivePriorityBack).tasks
    ensures LeavesBehind(s, GivePriorityBack) <==> GiveBackLeavesBehind(s)
  {
    hide Inv, Next, HighestWaiting;
    var c, m, n := s.current, s.tasks[s.current].call.m, Next(s, GivePriorityBack);
    var h := s.mutexes[m].holder;
    GiveBackShape(s, m);
    if GiveBackLeavesBehind(s) {
      assert Runs(n.tasks[h.value].call) && n.tasks[c].priority < n.tasks[h.value].priority;
    }
    if Above(n) {
      var u :| u in n.tasks && Runs(n.tasks[u].call) && n.tasks[c].priority < n.tasks[u].priority;
      assert u != c;
    }
  }

  // ---- Every step and every run.

  /** A yield has been asked for, or the running task can go on and is not below a ready one. */
  ghost predicate Attended(s: State, yielding: bool) {
    s.current in s.tasks && (yielding || (Runs(s.tasks[s.current].call) && !Above(s)))
  }

  /** Is a yield outstanding after the step?  A switch answers it. */
  predicate Yielding(s: State, a: Action, yielding: bool) {
    if !Enabled(s, a) || s.current !in s.tasks then yielding
    else !a.Switch? && (yielding || Requests(s, a))
  }

  /** What keeps a step from leaving a task behind. */
  ghost predicate Prompt(s: State, a: Action, yielding: bool)
    requires s.current in s.tasks
  {
    Enabled(s, a) ==>
      match a
      case Switch(t) => !OtherAbove(s, t, s.tasks[t].priority)
      case Give(m) => yielding || s.mutexes[m].recursive || !GiveLeavesBehind(s, m)
      case SendBack => yielding || !GiveLeavesBehind(s, s.tasks[s.current].call.m)
      case GivePriorityBack => yielding || !GiveBackLeavesBehind(s)
      case _ => true
  }

  /** A step that changes no priority and lets nobody run who is above. */
  lemma QuietAttended(s: State, n: State)
    requires s.current in s.tasks && !Above(s) && n.current == s.current && n.tasks.Keys == s.tasks.Keys
    requires forall t :: t in s.tasks ==> n.tasks[t].priority == s.tasks[t].priority
    requires forall t :: t in s.tasks && Runs(n.tasks[t].call) ==>
      Runs(s.tasks[t].call) || s.tasks[t].priority <= s.tasks[s.current].priority
    ensures !Above(n)
  {
  }

  lemma StepCurrent(s: State, a: Action)
    requires s.current in s.tasks
    ensures Next(s, a).current in Next(s, a).tasks
  {
  }

  /** A step leaves no ready task above the running one without a yield if and only if it is prompt. */
  lemma StepIff(s: State, a: Action, yielding: bool)
    requires Inv(s) && Attended(s, yielding)
    ensures Attended(Next(s, a), Yielding(s, a, yielding)) <==> Prompt(s, a, yielding)
  {
    hide Inv, Above, GiveLeavesBehind, GiveBackLeavesBehind, Release, HighestWaiting, Acquire, Block, OtherAbove;
    StepCurrent(s, a);
    if Enabled(s, a) {
      StepRuns(s, a);
      if a.Switch? {
        SwitchIff(s, a.t);
      } else if !yielding {
        match a {
          case Give(m) => if s.mutexes[m].recursive { QuietAttended(s, Next(s, a)); } else { GiveIff(s, a, m); }
          case SendBack => GiveIff(s, a, s.tasks[s.current].call.m);
          case GivePriorityBack => GiveBackAboveIff(s);
          case Try => AcquireQuiet(s); QuietAttended(s, Next(s, a));
          case _ => if !Requests(s, a) { QuietAttended(s, Next(s, a)); }
        }
      }
    }
  }

  /** A task that runs goes on running unless it blocks, and a switch goes to a task that can run. */
  lemma StepRuns(s: State, a: Action)
    requires Inv(s) && s.current in s.tasks && Enabled(s, a)
    ensures Next(s, a).current in Next(s, a).tasks
    ensures Runs(s.tasks[s.current].call) || a.Switch? ==>
      (Runs(Next(s, a).tasks[Next(s, a).current].call) <==> !a.Wait? && !a.Sleep?)
  {
    hide Inv, Release, Drop, HighestWaiting, InsertWaiter;
    match a
    case Switch(t) => InReadyList(s, t);
    case Give(m) => if !s.mutexes[m].recursive { NoCallYet(s); ReleaseShape(s, m); }
    case SendBack => ReleaseShape(s, s.tasks[s.current].call.m);
    case GivePriorityBack => GiveBackShape(s, s.tasks[s.current].call.m);
    case Wait => InheritFrame(s, s.mutexes[s.tasks[s.current].call.m].holder);
    case _ =>
  }

  lemma AcquireQuiet(s: State)
    requires Enabled(s, Try)
    ensures var n := Next(s, Try);
      && n.current == s.current && n.tasks.Keys == s.tasks.Keys
      && forall t :: t in s.tasks ==>
           n.tasks[t].priority == s.tasks[t].priority && (Runs(n.tasks[t].call) ==> Runs(s.tasks[t].call))
  {
  }

  lemma SwitchIff(s: State, t: Task)
    requires Enabled(s, Switch(t))
    ensures Above(Next(s, Switch(t))) <==> OtherAbove(s, t, s.tasks[t].priority)
  {
  }

  /** Is a yield outstanding after the run? */
  function YieldingAfter(s: State, actions: seq<Action>): bool {
    if actions == [] then false
    else
      var before := actions[..|actions| - 1];
      Yielding(Run(s, before), actions[|actions| - 1], YieldingAfter(s, before))
  }

  ghost predicate AttendedThroughout(s: State, actions: seq<Action>) {
    && Attended(Run(s, actions), YieldingAfter(s, actions))
    && (actions != [] ==> AttendedThroughout(s, actions[..|actions| - 1]))
  }

  ghost predicate PromptThroughout(s: State, actions: seq<Action>) {
    actions != [] ==>
      var before := actions[..|actions| - 1];
      && PromptThroughout(s, before)
      && Run(s, before).current in Run(s, before).tasks
      && Prompt(Run(s, before), actions[|actions| - 1], YieldingAfter(s, before))
  }

  /** Over every run: no ready task is ever left above the running one without a yield outstanding if and only if every
      step was prompt. */
  lemma {:induction false} AttendedIff(s: State, actions: seq<Action>)
    requires Inv(s) && Attended(s, false)
    ensures AttendedThroughout(s, actions) <==> PromptThroughout(s, actions)
    decreases |actions|
  {
    hide Inv, Attended, Prompt, Next, Yielding;
    if actions != [] {
      var before := actions[..|actions| - 1];
      AttendedIff(s, before);
      RunKeeps(s, before);
      var u := Run(s, before);
      if Attended(u, YieldingAfter(s, before)) {
        AttendedCurrent(u, YieldingAfter(s, before));
        StepIff(u, actions[|actions| - 1], YieldingAfter(s, before));
      }
    }
  }

  lemma AttendedCurrent(s: State, yielding: bool)
    requires Attended(s, yielding)
    ensures s.current in s.tasks
  {
  }
}
