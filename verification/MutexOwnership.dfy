/** Who holds a mutex, how often it has been taken, and where a task is in its call, by the calls made. */
module MutexOwnership {
  import opened Common
  import opened Mutexes
  import opened MutexProofs
  import opened Preemption

  // ---- Holders.

  /** A mutex gets a holder when a task tests it free, loses it when the holder sends it back, and not otherwise. */
  lemma HolderExact(s: State, a: Action, m: Handle)
    requires Inv(s) && m in s.mutexes && s.current in s.tasks
    ensures m in Next(s, a).mutexes && Next(s, a).mutexes[m].recursive == s.mutexes[m].recursive
    ensures Next(s, a).mutexes[m].holder ==
      if Enabled(s, a) && a.Try? && s.tasks[s.current].call.m == m then Some(s.current)
      else if Enabled(s, a) && SentBack(s, a) == Some(m) then None
      else s.mutexes[m].holder
  {
    hide Inv, Drop, InsertWaiter, Inherit, Reprioritise;
    if Enabled(s, a) {
      match a
      case Wait => WaitKeepsHolder(s, m);
      case GivePriorityBack => GiveBackShape(s, s.tasks[s.current].call.m);
      case Give(x) => if !s.mutexes[x].recursive { NoCallYet(s); ReleaseMutexes(s, x); }
      case SendBack => ReleaseMutexes(s, s.tasks[s.current].call.m);
      case _ =>
    }
  }

  lemma WaitKeepsHolder(s: State, m: Handle)
    requires Enabled(s, Wait) && m in s.mutexes
    ensures var n := Next(s, Wait);
      && m in n.mutexes && n.mutexes[m].holder == s.mutexes[m].holder && n.mutexes[m].depth == s.mutexes[m].depth
      && n.mutexes[m].recursive == s.mutexes[m].recursive
  {
    hide Drop, InsertWaiter;
    InheritFrame(s, s.mutexes[s.tasks[s.current].call.m].holder);
  }

  lemma ReleaseMutexes(s: State, m: Handle)
    requires s.current in s.tasks && s.tasks[s.current].held > 0 && m in s.mutexes
    ensures var n := Release(SetCall(s, s.current, NoCall), m);
      && n.mutexes.Keys == s.mutexes.Keys && n.mutexes[m].holder.None?
      && n.mutexes[m].depth == s.mutexes[m].depth && n.mutexes[m].recursive == s.mutexes[m].recursive
      && forall x :: x in s.mutexes && x != m ==> n.mutexes[x] == s.mutexes[x]
  {
    hide Drop;
  }

  // ---- Nested takes.

  /** A completed take of recursive mutex m counts one, and a give takes one off. */
  function NestStep(s: State, a: Action, m: Handle): int {
    if !Enabled(s, a) || m !in s.mutexes || !s.mutexes[m].recursive then 0
    else match a
      case Take(x) => if x == m && s.mutexes[m].holder == Some(s.current) then 1 else 0
      case CountCall => if s.tasks[s.current].call.m == m then 1 else 0
      case Give(x) => if x == m then -1 else 0
      case _ => 0
  }

  /** The takes of m completed in a run less the gives. */
  function Nesting(s: State, actions: seq<Action>, m: Handle): int {
    if actions == [] then 0
    else
      var before := actions[..|actions| - 1];
      Nesting(s, before, m) + NestStep(Run(s, before), actions[|actions| - 1], m)
  }

  lemma StepDepth(s: State, a: Action, m: Handle)
    requires Inv(s) && m in s.mutexes && s.mutexes[m].recursive
    ensures m in Next(s, a).mutexes && Next(s, a).mutexes[m].depth == s.mutexes[m].depth + NestStep(s, a, m)
    ensures Next(s, a).mutexes[m].recursive
  {
    hide Inv, Drop, InsertWaiter, Inherit, Reprioritise;
    if Enabled(s, a) {
      match a
      case Wait => WaitKeepsHolder(s, m);
      case GivePriorityBack => GiveBackShape(s, s.tasks[s.current].call.m);
      case Give(x) => if !s.mutexes[x].recursive { NoCallYet(s); ReleaseMutexes(s, x); }
      case SendBack => ReleaseMutexes(s, s.tasks[s.current].call.m);
      case _ =>
    }
  }

  /** In every run the recursive count is the number of takes completed less the gives. */
  lemma {:induction false} DepthCounted(s: State, actions: seq<Action>, m: Handle)
    requires Initial(s) && m in s.mutexes && s.mutexes[m].recursive
    ensures var r := Run(s, actions);
      m in r.mutexes && r.mutexes[m].recursive && r.mutexes[m].depth == Nesting(s, actions, m)
    decreases |actions|
  {
    hide Inv, Next, NestStep;
    if actions != [] {
      var before := actions[..|actions| - 1];
      DepthCounted(s, before, m);
      InitialInv(s);
      RunKeeps(s, before);
      StepDepth(Run(s, before), actions[|actions| - 1], m);
    }
  }

  /** In every run a recursive mutex is free only with every take given back, and a give sends it back, so that the next
      step frees it, exactly if it is the last one owed. */
  lemma FreedByLastGive(s: State, actions: seq<Action>, m: Handle)
    requires Initial(s) && m in s.mutexes && s.mutexes[m].recursive
    ensures var r, owed := Run(s, actions), Nesting(s, actions, m);
      && m in r.mutexes && (r.mutexes[m].holder.None? ==> owed == 0)
      && (Enabled(r, Give(m)) ==>
            && owed >= 1
            && var n := Next(r, Give(m));
            && m in n.mutexes && n.mutexes[m].holder == Some(r.current) && n.current == r.current && r.current in n.tasks
            && n.tasks[r.current].call == (if owed == 1 then Sending(m) else NoCall)
            && (owed == 1 ==> Enabled(n, SendBack) && m in Next(n, SendBack).mutexes
                              && Next(n, SendBack).mutexes[m].holder.None?))
      && (Enabled(r, SendBack) && r.tasks[r.current].call.m == m ==> owed == 0)
  {
    hide Run, Nesting, Initial, Next, PrioritiesValid, ReadyValid, WaitersValid, HeldBy;
    DepthCounted(s, actions, m);
    InitialInv(s);
    RunKeeps(s, actions);
    var r := Run(s, actions);
    MutexHere(r.mutexes, r.tasks, m);
    if Enabled(r, Give(m)) {
      GiveCounts(r, m);
      if Nesting(s, actions, m) == 1 {
        GiveKeeps(r, m);
        HolderExact(Next(r, Give(m)), SendBack, m);
      }
    }
  }

  lemma GiveCounts(r: State, m: Handle)
    requires Enabled(r, Give(m)) && r.mutexes[m].recursive
    ensures var n := Next(r, Give(m));
      && m in n.mutexes && n.mutexes[m].holder == Some(r.current) && n.current == r.current && r.current in n.tasks
      && n.tasks[r.current].call == (if r.mutexes[m].depth == 1 then Sending(m) else NoCall)
      && (r.mutexes[m].depth == 1 ==> Enabled(n, SendBack))
  {
  }

  // ---- The call of the running task.

  /** A task that finds the mutex taken waits for it; it remembers that the holder owes it a priority if and only if the
      holder's base priority is lower than its own. */
  lemma WaitCall(s: State)
    requires Inv(s) && Enabled(s, Wait)
    ensures var c, m, n := s.current, s.tasks[s.current].call.m, Next(s, Wait);
      && s.mutexes[m].holder.Some? && s.mutexes[m].holder.value in s.tasks && c in n.tasks && m in n.mutexes
      && n.tasks[c].call == Waiting(m, s.tasks[s.mutexes[m].holder.value].base < s.tasks[c].priority)
      && c in n.mutexes[m].waiting && !IsInReadyList(n.ready, c, n.tasks[c].priority)
  {
    hide HoldersValid, PrioritiesValid, ReadyValid, WaitersValid, Inherit;
    var c, m := s.current, s.tasks[s.current].call.m;
    MutexHere(s.mutexes, s.tasks, m);
    InReadyList(s, s.mutexes[m].holder.value);
    InheritFrame(s, s.mutexes[m].holder);
    BlockKeeps(s, m);
    InReadyList(Next(s, Wait), c);
    BlockedIsWaiting(Next(s, Wait), c);
  }

  lemma BlockedIsWaiting(s: State, t: Task)
    requires Inv(s) && t in s.tasks && s.tasks[t].call.Waiting?
    ensures s.tasks[t].call.m in s.mutexes && t in s.mutexes[s.tasks[t].call.m].waiting
  {
    hide HoldersValid, PrioritiesValid, ReadyValid;
  }

  /** Where the other steps leave the running task, and how many mutexes it holds. */
  lemma CallExact(s: State, a: Action)
    requires Inv(s) && Running(s) && Enabled(s, a)
    ensures var c, n := s.current, Next(s, a);
      && c in n.tasks
      && (a.Take? ==> n.tasks[c].held == s.tasks[c].held)
      && (a.Take? ==>
            var nested := s.mutexes[a.m].recursive && s.mutexes[a.m].holder == Some(c);
            n.tasks[c].call == if nested then NoCall else Taking(a.m, false))
      && (a.Try? ==> n.tasks[c].held == s.tasks[c].held + 1)
      && (a.Try? ==>
            var m := s.tasks[c].call.m;
            n.tasks[c].call == if s.mutexes[m].recursive then Counting(m) else NoCall)
      && (a.Quit? || a.GivePriorityBack? || a.CountCall? || a.ResetItem? ==> n.tasks[c].call == NoCall)
      && (a.TimedOut? ==>
            n.tasks[c].call == if s.tasks[c].call.inherited then Expiring(s.tasks[c].call.m) else NoCall)
      && (a.Sleep? ==> n.tasks[c].call == Asleep && n.tasks[c].borrowed == a.borrow)
      && (SentBack(s, a).Some? ==> n.tasks[c].held == s.tasks[c].held - 1 && n.tasks[c].call == NoCall)
      && n.current == if a.Switch? then a.t else c
  {
    hide Inv, Drop, Inherit, Reprioritise, HighestWaiting;
    match a
    case Wait => InheritFrame(s, s.mutexes[s.tasks[s.current].call.m].holder);
    case GivePriorityBack =>
      var m := s.tasks[s.current].call.m;
      DisinheritFrame(s, s.mutexes[m].holder, HighestWaiting(s, m));
      GiveBackShape(s, m);
    case Give(x) => if !s.mutexes[x].recursive { NoCallYet(s); GiverTcb(s, x); }
    case SendBack => GiverTcb(s, s.tasks[s.current].call.m);
    case _ =>
  }

  lemma GiverTcb(s: State, m: Handle)
    requires Inv(s) && Running(s) && s.tasks[s.current].held > 0 && m in s.mutexes
    ensures var c, n := s.current, Release(SetCall(s, s.current, NoCall), m);
      c in n.tasks && n.tasks[c].held == s.tasks[c].held - 1 && n.tasks[c].call == NoCall && n.current == c
  {
    hide Inv, Release;
    if s.mutexes[m].waiting == [] {
      ReleaseQuietly(s, m);
    } else {
      HeadWaits(s, m);
      ReleaseWakes(s, m);
    }
  }

  /** A time-out takes the task off the list to test the mutex once more, and a wake-up lets a sleeper return. */
  lemma OthersExact(s: State, t: Task)
    requires Inv(s) && t in s.tasks
    ensures Enabled(s, Expire(t)) ==>
      var m, n := s.tasks[t].call.m, Next(s, Expire(t));
      && t in n.tasks && n.tasks[t] == s.tasks[t].(call := Taking(m, s.tasks[t].call.inherited))
      && m in n.mutexes && t !in n.mutexes[m].waiting
    ensures Enabled(s, WakeUp(t)) ==>
      var n := Next(s, WakeUp(t)); t in n.tasks && n.tasks[t] == s.tasks[t].(call := Returning)
  {
    hide HoldersValid, PrioritiesValid, ReadyValid, Drop;
    if Enabled(s, Expire(t)) { DropKeeps(s.mutexes[s.tasks[t].call.m].waiting, t); }
  }

  // ---- Ready lists.

  /** t is the last in the ready list of its priority, and the others there come as before. */
  ghost predicate JoinsLast(before: seq<seq<Task>>, after: seq<seq<Task>>, t: Task, p: nat) {
    && p < |before| && |after| == |before| && |after[p]| > 0 && after[p][|after[p]| - 1] == t
    && (forall i :: 0 <= i < |after[p]| - 1 ==> after[p][i] in before[p])
    && |after[p]| == |before[p]| + 1 && after[p][..|before[p]|] == before[p]
  }

  /** A task that becomes ready joins the ready list of its priority at the end. */
  lemma ReadyAtTheEnd(s: State, t: Task)
    requires Inv(s) && t in s.tasks
    ensures Enabled(s, Expire(t)) ==> JoinsLast(s.ready, Next(s, Expire(t)).ready, t, s.tasks[t].priority)
    ensures Enabled(s, WakeUp(t)) ==> JoinsLast(s.ready, Next(s, WakeUp(t)).ready, t, s.tasks[t].priority)
  {
    hide Inv, Drop;
    InReadyList(s, t);
  }

  /** So does the first waiter of a mutex that is given back, and a ready task that changes its priority. */
  lemma WokenAtTheEnd(s: State, m: Handle)
    requires Inv(s) && m in s.mutexes && s.mutexes[m].waiting != []
    ensures s.mutexes[m].waiting[0] in s.tasks
    ensures JoinsLast(s.ready, WakeWaiter(s, m).ready, s.mutexes[m].waiting[0], s.tasks[s.mutexes[m].waiting[0]].priority)
  {
    hide Inv, Drop;
    HeadWaits(s, m);
    InReadyList(s, s.mutexes[m].waiting[0]);
  }

  lemma MovedToTheEnd(s: State, t: Task, p: nat)
    requires Inv(s) && t in s.tasks && Runs(s.tasks[t].call) && p < |s.ready| && p != s.tasks[t].priority
    ensures JoinsLast(s.ready, Reprioritise(s, t, p).ready, t, p)
  {
    hide Inv, Drop;
    InReadyList(s, t);
  }
}
