/** No notification is lost. */
module NotificationProofs {
  import opened Clock
  import opened Common
  import opened Notifications

  /** A step that replaces one task's record. */
  lemma PutKeeps(s: State, t: Task, r: Record)
    requires Inv(s) && t in s.tasks && RecordValid(r, t in s.pending)
    requires InSuspension(r.phase) ==> t == s.current && s.suspended == 1
    ensures Inv(Put(s, t, r))
  {
    hide RecordValid;
  }

  lemma GiveSlotValid(x: Slot)
    requires SlotValid(x)
    ensures SlotValid(GiveSlot(x))
  {
  }

  lemma GiveRecord(r: Record, index: nat, isPending: bool)
    requires RecordValid(r, isPending) && index < |r.slots|
    ensures var g := r.(slots := r.slots[index := GiveSlot(r.slots[index])]);
      if !r.slots[index].state.Waiting? then RecordValid(g, isPending)
      else
        && RecordValid(g.(entries := r.entries + 1), true)
        && (!r.phase.Tested? && !r.phase.Listed? ==> RecordValid(g.(blocked := false), isPending))
  {
    hide SlotValid;
    var g := r.(slots := r.slots[index := GiveSlot(r.slots[index])]);
    GiveSlotValid(r.slots[index]);
    assert forall x :: x in g.slots ==> x in r.slots || x == GiveSlot(r.slots[index]);
  }

  lemma GiveKeeps(s: State, t: Task, index: nat, fromIsr: bool)
    requires Inv(s) && t in s.tasks && index < |s.tasks[t].slots|
    requires !fromIsr || s.suspended == 0 ==> !InSuspension(s.tasks[t].phase)
    ensures Inv(GiveTo(s, t, index, fromIsr))
  {
    hide SlotValid, GiveSlot, Inv;
    var r := s.tasks[t];
    var g := r.(slots := r.slots[index := GiveSlot(r.slots[index])]);
    TaskRecord(s, t);
    GiveRecord(r, index, t in s.pending);
    if !r.slots[index].state.Waiting? {
      PutKeeps(s, t, g);
    } else if fromIsr && s.suspended > 0 {
      HoldPending(s, t, g.(entries := r.entries + 1));
    } else {
      PutKeeps(s, t, g.(blocked := false));
    }
  }

  lemma TaskRecord(s: State, t: Task)
    requires Inv(s) && t in s.tasks
    ensures RecordValid(s.tasks[t], t in s.pending)
    ensures InSuspension(s.tasks[t].phase) ==> t == s.current && s.suspended == 1
  {
    hide RecordValid;
  }

  lemma HoldPending(s: State, t: Task, r: Record)
    requires Inv(s) && t in s.tasks && t !in s.pending && s.suspended > 0 && RecordValid(r, true)
    requires r.phase == s.tasks[t].phase
    ensures Inv(Put(s, t, r).(pending := s.pending + [t]))
  {
    hide RecordValid;
  }

  lemma TestRecord(r: Record)
    requires RecordValid(r, false) && r.phase.Suspended?
    ensures RecordValid(TestSlot(r), false)
  {
    var n := TestSlot(r);
    assert forall x :: x in n.slots ==> x in r.slots || x == n.slots[r.phase.index];
    assert r.slots[r.phase.index] in r.slots;
  }

  lemma CollectRecord(r: Record, clear: bool)
    requires RecordValid(r, false) && r.phase.Collecting? && !r.blocked
    ensures RecordValid(CollectSlot(r, clear), false)
  {
    var n := CollectSlot(r, clear);
    assert forall x :: x in n.slots ==> x in r.slots || x == n.slots[r.phase.index];
    assert r.slots[r.phase.index] in r.slots;
  }

  lemma ResumeKeeps(s: State)
    requires Inv(s) && s.suspended > 0
    requires forall t :: t in s.tasks ==> !InSuspension(s.tasks[t].phase)
    ensures Inv(Resume(s))
  {
    hide SlotValid;
  }

  lemma TakeKeeps(s: State, a: Action)
    requires Inv(s) && Enabled(s, a) && (a.BeginTake? || a.Test? || a.List? || a.Collect?)
    ensures Inv(Next(s, a))
  {
    hide SlotValid, TestSlot, CollectSlot, Inv;
    var c, r := s.current, s.tasks[s.current];
    CurrentRecord(s);
    match a
    case BeginTake(index, mayBlock) => BeginKeeps(s, r.(phase := Suspended(index, mayBlock)));
    case Test => TestRecord(r); TestPhase(r); PutKeeps(s, c, TestSlot(r));
    case List => PutKeeps(s, c, r.(phase := Listed(r.phase.index), blocked := true));
    case Collect(clear) => CollectRecord(r, clear); CollectPhase(r, clear); PutKeeps(s, c, CollectSlot(r, clear));
  }

  lemma TestPhase(r: Record)
    requires r.phase.Suspended?
    ensures TestSlot(r).phase.Tested?
  {
  }

  lemma CollectPhase(r: Record, clear: bool)
    requires r.phase.Collecting?
    ensures CollectSlot(r, clear).phase.Idle?
  {
  }

  lemma CurrentRecord(s: State)
    requires Inv(s) && s.current in s.tasks
    ensures var r := s.tasks[s.current];
      && RecordValid(r, s.current in s.pending)
      && (InSuspension(r.phase) ==> s.suspended == 1)
      && (r.phase.Suspended? ==> s.current !in s.pending)
      && (s.suspended == 0 ==> s.current !in s.pending)
  {
  }

  lemma BeginKeeps(s: State, r: Record)
    requires Inv(s) && s.suspended == 0 && s.current in s.tasks && RecordValid(r, false)
    ensures Inv(Put(s, s.current, r).(suspended := 1))
  {
    hide RecordValid;
  }

  lemma ResumeTakeKeeps(s: State)
    requires Inv(s) && Enabled(s, ResumeTake)
    ensures Inv(Next(s, ResumeTake))
  {
    hide SlotValid, Resume;
    var c, r := s.current, s.tasks[s.current];
    CurrentRecord(s);
    var u := Put(s, c, r.(phase := Collecting(r.phase.index)));
    PutKeeps(s, c, u.tasks[c]);
    ResumeKeeps(u);
  }

  lemma NextKeeps(s: State, a: Action)
    requires Inv(s)
    ensures Inv(Next(s, a))
  {
    hide RecordValid, GiveTo, Resume, TestSlot, CollectSlot;
    if Enabled(s, a) {
      match a
      case BeginTake(_, _) => TakeKeeps(s, a);
      case Test => TakeKeeps(s, a);
      case List => TakeKeeps(s, a);
      case Collect(_) => TakeKeeps(s, a);
      case ResumeTake => ResumeTakeKeeps(s);
      case SuspendAll =>
      case ResumeAll => ResumeKeeps(s);
      case GiveFromIsr(t, index) => GiveKeeps(s, t, index, true);
      case Give(t, index) => GiveKeeps(s, t, index, false);
      case TimeOut(t) => TimeOutKeeps(s, t);
      case Switch(t) =>
    }
  }

  lemma TimeOutKeeps(s: State, t: Task)
    requires Inv(s) && s.suspended == 0 && t in s.tasks
    ensures Inv(Next(s, TimeOut(t)))
  {
    hide SlotValid;
    if s.tasks[t].blocked { PutKeeps(s, t, s.tasks[t].(blocked := false)); }
  }

  lemma InitialInv(s: State)
    requires Initial(s)
    ensures Inv(s)
  {
    forall t | t in s.tasks ensures RecordValid(s.tasks[t], false) {
      assert forall i :: 0 <= i < |s.tasks[t].slots| ==> s.tasks[t].slots[i] in s.tasks[t].slots;
    }
  }

  lemma {:induction false} RunKeeps(s: State, actions: seq<Action>)
    requires Initial(s)
    ensures Inv(Run(s, actions))
  {
    hide Next, Inv, Initial;
    if actions == [] {
      InitialInv(s);
    } else {
      RunKeeps(s, actions[..|actions| - 1]);
      NextKeeps(Run(s, actions[..|actions| - 1]), actions[|actions| - 1]);
    }
  }

  // ---- The theorems.

  /** In every run, whenever the scheduler is not suspended, a blocked task has nothing to collect on the index it waits
      for, and the next give will find it waiting. */
  lemma NoLostNotification(s0: State, actions: seq<Action>, t: Task)
    requires Initial(s0)
    ensures var s := Run(s0, actions);
      s.suspended == 0 && t in s.tasks && s.tasks[t].blocked ==>
        && s.tasks[t].phase.Collecting? && s.tasks[t].phase.index < |s.tasks[t].slots|
        && var x := s.tasks[t].slots[s.tasks[t].phase.index];
           x.value == 0 && x.state == Waiting
  {
    hide Run;
    RunKeeps(s0, actions);
    var s := Run(s0, actions);
    if s.suspended == 0 && t in s.tasks && s.tasks[t].blocked {
      assert s.tasks[t].slots[s.tasks[t].phase.index] in s.tasks[t].slots;
    }
  }

  /** In every run, the stored value is the number of gives less what was consumed (modulo its width, and exactly so
      while fewer than 2^32 are outstanding), and an event item enters the pending-ready list once per wait. */
  lemma NotificationsCounted(s0: State, actions: seq<Action>, t: Task, index: nat)
    requires Initial(s0) && t in Run(s0, actions).tasks && index < |Run(s0, actions).tasks[t].slots|
    ensures var s := Run(s0, actions);
      && s.tasks[t].entries <= 1 && multiset(s.pending)[t] <= 1
      && (s.suspended == 0 ==> t !in s.pending)
      && var x := s.tasks[t].slots[index];
      && x.consumed <= x.given && x.value == Wrap(x.given - x.consumed)
      && (x.given - x.consumed < TICKS ==> x.value == x.given - x.consumed)
      && (x.state.Waiting? ==> t !in s.pending)
  {
    hide Run, Inv, SlotValid;
    RunKeeps(s0, actions);
    Counted(Run(s0, actions), t, index);
  }

  lemma Counted(s: State, t: Task, index: nat)
    requires Inv(s) && t in s.tasks && index < |s.tasks[t].slots|
    ensures s.tasks[t].entries <= 1 && multiset(s.pending)[t] <= 1 && (s.suspended == 0 ==> t !in s.pending)
    ensures var x := s.tasks[t].slots[index];
      && x.consumed <= x.given && x.value == Wrap(x.given - x.consumed)
      && (x.given - x.consumed < TICKS ==> x.value == x.given - x.consumed)
      && (x.state.Waiting? ==> t !in s.pending)
  {
    assert s.tasks[t].slots[index] in s.tasks[t].slots;
    DistinctOnce(s.pending, t);
  }

  lemma {:induction false} DistinctOnce<T>(s: seq<T>, x: T)
    requires Distinct(s)
    ensures multiset(s)[x] <= 1
  {
    if s != [] {
      assert s == [s[0]] + s[1..];
      DistinctOnce(s[1..], x);
      assert s[0] !in s[1..];
    }
  }

  /** A give wakes a waiting task: at once, or at the resume that ends the suspension it falls into. */
  lemma GiveWakes(s: State, t: Task, index: nat)
    requires Inv(s) && t in s.tasks && index < |s.tasks[t].slots| && s.tasks[t].slots[index].state.Waiting?
    ensures var n := Next(s, GiveFromIsr(t, index));
      if s.suspended == 0 then !n.tasks[t].blocked
      else n.pending == s.pending + [t] && !Resume(n.(suspended := 1)).tasks[t].blocked
  {
  }
}
