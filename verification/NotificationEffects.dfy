/** What the steps of a take and a give achieve, and the count of gives and takes by the calls themselves. */
module NotificationEffects {
  import opened Clock
  import opened Common
  import opened Notifications
  import opened NotificationProofs

  // ---- The steps of a take.

  /** ulReturn: the value a collecting task finds. */
  function Result(s: State): nat
    requires s.current in s.tasks && s.tasks[s.current].phase.Collecting?
    requires s.tasks[s.current].phase.index < |s.tasks[s.current].slots|
  {
    s.tasks[s.current].slots[s.tasks[s.current].phase.index].value
  }

  /** Nothing but slot i of task t has changed. */
  ghost predicate OnlySlot(s: State, n: State, t: Task, i: nat) {
    && n.tasks.Keys == s.tasks.Keys && t in s.tasks
    && (forall u :: u in s.tasks && u != t ==> n.tasks[u] == s.tasks[u])
    && |n.tasks[t].slots| == |s.tasks[t].slots|
    && (forall j :: 0 <= j < |s.tasks[t].slots| && j != i ==> n.tasks[t].slots[j] == s.tasks[t].slots[j])
  }

  /** With clear-on-exit a take returns the count and leaves nothing; otherwise it leaves one less, if there was any. */
  lemma CollectExact(s: State, clear: bool)
    requires Inv(s) && Enabled(s, Collect(clear))
    ensures var c, i, n := s.current, s.tasks[s.current].phase.index, Next(s, Collect(clear));
      && i < |s.tasks[c].slots| && OnlySlot(s, n, c, i) && n.tasks[c].phase.Idle? && !n.tasks[c].blocked
      && var was, x, found := s.tasks[c].slots[i], n.tasks[c].slots[i], Result(s);
      && found == was.value && x.state.NotWaiting? && x.given == was.given
      && (clear ==> x.value == 0 && x.consumed == was.consumed + found)
      && (!clear && found > 0 ==> x.value == found - 1 && x.consumed == was.consumed + 1)
      && (!clear && found == 0 ==> x.value == 0 && x.consumed == was.consumed)
  {
    hide SlotValid;
    CurrentRecord(s);
  }

  /** The first critical section makes the task wait if and only if there is nothing to take; it will block if it may. */
  lemma TestExact(s: State)
    requires Inv(s) && Enabled(s, Test)
    ensures var c, i, n := s.current, s.tasks[s.current].phase.index, Next(s, Test);
      && i < |s.tasks[c].slots| && OnlySlot(s, n, c, i)
      && var was, x := s.tasks[c].slots[i], n.tasks[c].slots[i];
      && n.tasks[c].phase == Tested(i, s.tasks[c].phase.mayBlock && was.value == 0)
      && x == (if was.value == 0 then was.(state := Waiting) else was)
  {
    hide SlotValid;
    CurrentRecord(s);
  }

  /** A task that is to block is blocked once it is on the delayed list. */
  lemma ListExact(s: State)
    requires Enabled(s, List)
    ensures var c, n := s.current, Next(s, List);
      n.tasks == s.tasks[c := s.tasks[c].(phase := Listed(s.tasks[c].phase.index), blocked := true)]
  {
  }

  /** Where a task is in its take, how deep the scheduler is suspended, and who runs, after a step. */
  lemma StepFrame(s: State, a: Action)
    requires Inv(s) && Enabled(s, a) && s.current in s.tasks
    ensures var c, n := s.current, Next(s, a);
      && c in n.tasks
      && n.suspended == (if a.BeginTake? || a.SuspendAll? then s.suspended + 1
                         else if a.ResumeTake? || a.ResumeAll? then s.suspended - 1 else s.suspended)
      && n.current == (if a.Switch? then a.t else c)
      && (a.BeginTake? ==> n.tasks[c].phase == Suspended(a.index, a.mayBlock))
      && (a.ResumeTake? ==> n.tasks[c].phase == Collecting(s.tasks[c].phase.index))
      && (a.SuspendAll? || a.ResumeAll? || a.TimeOut? || a.Give? || a.GiveFromIsr? ==> n.tasks[c].phase == s.tasks[c].phase)
  {
    hide Inv, GiveSlot, TestSlot, CollectSlot;
  }

  // ---- Who wakes a task.

  /** The action ends the blocking of t, as its caller would put it: its time runs out, it is given what it waits for, or
      the scheduler resumes after it was given that. */
  predicate Ends(s: State, a: Action, t: Task)
    requires t in s.tasks
  {
    var waits := WaitIndex(s.tasks[t].phase);
    match a
    case TimeOut(u) => u == t
    case Give(u, i) => u == t && waits == Some(i) && t !in s.pending
    case GiveFromIsr(u, i) => u == t && waits == Some(i) && s.suspended == 0
    case ResumeAll => s.suspended == 1 && t in s.pending
    case ResumeTake => s.suspended == 1 && t in s.pending
    case _ => false
  }

  /** A blocked task is made ready by these actions and by no others. */
  lemma WokenIff(s: State, a: Action, t: Task)
    requires Inv(s) && t in s.tasks && s.tasks[t].blocked
    ensures t in Next(s, a).tasks
    ensures !Next(s, a).tasks[t].blocked <==> Enabled(s, a) && Ends(s, a, t)
  {
    hide SlotValid, TestSlot, CollectSlot;
    if Enabled(s, a) {
      var c := s.current;
      match a
      case Collect(clear) => CollectExact(s, clear);
      case Test => TestExact(s);
      case Give(u, i) => GiveEnds(s, u, i, t, false);
      case GiveFromIsr(u, i) => GiveEnds(s, u, i, t, true);
      case _ =>
    }
  }

  lemma GiveEnds(s: State, u: Task, i: nat, t: Task, fromIsr: bool)
    requires Inv(s) && t in s.tasks && s.tasks[t].blocked && u in s.tasks && i < |s.tasks[u].slots|
    ensures t in GiveTo(s, u, i, fromIsr).tasks
    ensures !GiveTo(s, u, i, fromIsr).tasks[t].blocked <==>
      u == t && WaitIndex(s.tasks[t].phase) == Some(i) && s.tasks[t].slots[i].state.Waiting?
      && (fromIsr ==> s.suspended == 0)
  {
    hide SlotValid;
  }

  // ---- Gives and takes counted by the calls.

  /** How often the calls of a run gave to slot i of t. */
  function Gives(s: State, actions: seq<Action>, t: Task, i: nat): nat {
    if actions == [] then 0
    else
      var before, a := actions[..|actions| - 1], actions[|actions| - 1];
      Gives(s, before, t, i) + if Enabled(Run(s, before), a) && (a == Give(t, i) || a == GiveFromIsr(t, i)) then 1 else 0
  }

  /** What a step takes from slot i of t: all there is, or one. */
  function TakenBy(s: State, a: Action, t: Task, i: nat): nat {
    if Enabled(s, a) && a.Collect? && s.current == t && s.tasks[t].phase.index == i && i < |s.tasks[t].slots|
    then if a.clear || Result(s) == 0 then Result(s) else 1
    else 0
  }

  function Takes(s: State, actions: seq<Action>, t: Task, i: nat): nat {
    if actions == [] then 0
    else
      var before := actions[..|actions| - 1];
      Takes(s, before, t, i) + TakenBy(Run(s, before), actions[|actions| - 1], t, i)
  }

  lemma GiveExact(s: State, t: Task, i: nat, fromIsr: bool)
    requires t in s.tasks && i < |s.tasks[t].slots|
    ensures var n, was := GiveTo(s, t, i, fromIsr), s.tasks[t].slots[i];
      && OnlySlot(s, n, t, i)
      && n.tasks[t].slots[i] == Slot(Wrap(was.value + 1), Received, was.given + 1, was.consumed)
  {
  }

  /** A step changes the history of a slot by exactly what its caller did. */
  lemma StepHistory(s: State, a: Action, t: Task, i: nat)
    requires Inv(s) && t in s.tasks && i < |s.tasks[t].slots|
    ensures var n := Next(s, a);
      && t in n.tasks && |n.tasks[t].slots| == |s.tasks[t].slots|
      && n.tasks[t].slots[i].given ==
         s.tasks[t].slots[i].given + (if Enabled(s, a) && (a == Give(t, i) || a == GiveFromIsr(t, i)) then 1 else 0)
      && n.tasks[t].slots[i].consumed == s.tasks[t].slots[i].consumed + TakenBy(s, a, t, i)
  {
    hide Inv, GiveTo, TestSlot, CollectSlot;
    if Enabled(s, a) {
      match a
      case Collect(clear) => CollectExact(s, clear);
      case Test => TestExact(s);
      case Give(u, j) => GiveExact(s, u, j, false);
      case GiveFromIsr(u, j) => GiveExact(s, u, j, true);
      case _ =>
    }
  }

  lemma {:induction false} HistoryCounted(s: State, actions: seq<Action>, t: Task, i: nat)
    requires Initial(s) && t in s.tasks && i < |s.tasks[t].slots|
    ensures var r := Run(s, actions);
      && t in r.tasks && |r.tasks[t].slots| == |s.tasks[t].slots|
      && r.tasks[t].slots[i].given == Gives(s, actions, t, i) && r.tasks[t].slots[i].consumed == Takes(s, actions, t, i)
    decreases |actions|
  {
    hide Next, TakenBy;
    if actions == [] {
      assert s.tasks[t].slots[i] in s.tasks[t].slots;
    } else {
      var before := actions[..|actions| - 1];
      HistoryCounted(s, before, t, i);
      RunKeeps(s, before);
      StepHistory(Run(s, before), actions[|actions| - 1], t, i);
    }
  }

  /** In every run, the stored value is the gives made less what was taken, modulo its width, and exactly so while fewer
      than 2^32 are outstanding. */
  lemma NothingLost(s: State, actions: seq<Action>, t: Task, i: nat)
    requires Initial(s) && t in s.tasks && i < |s.tasks[t].slots|
    ensures var r, gives, takes := Run(s, actions), Gives(s, actions, t, i), Takes(s, actions, t, i);
      && t in r.tasks && i < |r.tasks[t].slots| && takes <= gives
      && r.tasks[t].slots[i].value == Wrap(gives - takes)
      && (gives - takes < TICKS ==> r.tasks[t].slots[i].value == gives - takes)
  {
    hide Run, Gives, Takes, Initial;
    HistoryCounted(s, actions, t, i);
    NotificationsCounted(s, actions, t, i);
  }

  // ---- The pending list.

  /** How often the event item of t has entered the pending-ready list since t last began to wait. */
  function Entries(s: State, actions: seq<Action>, t: Task): nat {
    if actions == [] then 0
    else
      var before, a := actions[..|actions| - 1], actions[|actions| - 1];
      var u := Run(s, before);
      if a.Test? && Enabled(u, a) && u.current == t then 0
      else Entries(s, before, t) + (multiset(Next(u, a).pending) - multiset(u.pending))[t]
  }

  lemma StepEntries(s: State, a: Action, t: Task)
    requires Inv(s) && t in s.tasks
    ensures var n := Next(s, a);
      t in n.tasks && n.tasks[t].entries ==
        if a.Test? && Enabled(s, a) && s.current == t then 0
        else s.tasks[t].entries + (multiset(n.pending) - multiset(s.pending))[t]
  {
    hide Inv, GiveTo, TestSlot, CollectSlot;
    if Enabled(s, a) {
      match a
      case Give(u, i) => GiveEntries(s, u, i, false, t);
      case GiveFromIsr(u, i) => GiveEntries(s, u, i, true, t);
      case Test => TestEntries(s.tasks[s.current]);
      case Collect(clear) => CollectEntries(s.tasks[s.current], clear);
      case _ =>
    }
  }

  lemma GiveEntries(s: State, u: Task, i: nat, fromIsr: bool, t: Task)
    requires u in s.tasks && i < |s.tasks[u].slots| && t in s.tasks
    ensures var n := GiveTo(s, u, i, fromIsr);
      t in n.tasks && n.tasks[t].entries == s.tasks[t].entries + (multiset(n.pending) - multiset(s.pending))[t]
  {
    hide GiveSlot;
  }

  lemma TestEntries(r: Record)
    requires r.phase.Suspended?
    ensures TestSlot(r).entries == 0
  {
  }

  lemma CollectEntries(r: Record, clear: bool)
    requires r.phase.Collecting?
    ensures CollectSlot(r, clear).entries == r.entries
  {
  }

  /** In every run, it has entered at most once. */
  lemma {:induction false} EntersOnce(s: State, actions: seq<Action>, t: Task)
    requires Initial(s) && t in s.tasks
    ensures t in Run(s, actions).tasks && Run(s, actions).tasks[t].entries == Entries(s, actions, t) <= 1
    decreases |actions|
  {
    hide Next, RecordValid;
    RunKeeps(s, actions);
    if actions != [] {
      var before := actions[..|actions| - 1];
      EntersOnce(s, before, t);
      RunKeeps(s, before);
      StepEntries(Run(s, before), actions[|actions| - 1], t);
    }
    if t in Run(s, actions).tasks { EntriesValid(Run(s, actions), t); }
  }

  lemma EntriesValid(s: State, t: Task)
    requires Inv(s) && t in s.tasks
    ensures s.tasks[t].entries <= 1
  {
  }
}
