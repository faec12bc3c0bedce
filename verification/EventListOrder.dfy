/**
 When exactly the event lists of mutexes stay in order of priority.  A list is sorted when a task joins it; but a task on
 a list whose priority changes stays where it is, with its item value changed in place.
 */
module EventListOrder {
  import opened Common
  import opened Mutexes
  import opened MutexProofs
  import opened PriorityRuns

  function Priority(tasks: map<Task, Tcb>, t: Task): int {
    if t in tasks then tasks[t].priority else -1
  }

  /** No task on the list comes after one of a lower priority. */
  ghost predicate InOrder(list: seq<Task>, tasks: map<Task, Tcb>) {
    forall i, j :: 0 <= i < j < |list| ==> Priority(tasks, list[j]) <= Priority(tasks, list[i])
  }

  ghost predicate AllInOrder(mutexes: map<Handle, Mutex>, tasks: map<Task, Tcb>) {
    forall m :: m in mutexes ==> InOrder(mutexes[m].waiting, tasks)
  }

  ghost predicate Ordered(s: State) {
    AllInOrder(s.mutexes, s.tasks)
  }

  /** In the place where it is, t would be in order at priority p: nobody before it is below p and nobody after it
      above. */
  ghost predicate Fits(list: seq<Task>, tasks: map<Task, Tcb>, t: Task, p: int) {
    forall i, j :: 0 <= i < j < |list| ==>
      && (list[j] == t ==> p <= Priority(tasks, list[i]))
      && (list[i] == t ==> Priority(tasks, list[j]) <= p)
  }

  /** The list t is on, if it waits for a mutex. */
  function ListOf(s: State, t: Task): seq<Task> {
    if t in s.tasks && s.tasks[t].call.Waiting? && s.tasks[t].call.m in s.mutexes
    then s.mutexes[s.tasks[t].call.m].waiting else []
  }

  /** What can be checked before a step: the holder whose priority is about to change still fits where it waits. */
  ghost predicate Fitting(s: State, a: Action) {
    Enabled(s, a) ==>
      match a
      case Wait =>
        var p, h := s.tasks[s.current].priority, s.mutexes[s.tasks[s.current].call.m].holder;
        h.Some? && s.tasks[h.value].priority < p ==> Fits(ListOf(s, h.value), s.tasks, h.value, p)
      case GivePriorityBack =>
        var m := s.tasks[s.current].call.m;
        var h := s.mutexes[m].holder;
        h.Some? && s.tasks[h.value].held == 1 ==>
          Fits(ListOf(s, h.value), s.tasks, h.value, Wanted(s, h.value, HighestWaiting(s, m)))
      case _ => true
  }

  // ---- Lists.

  /** Changing the priority of one task. */
  lemma ChangeIff(list: seq<Task>, before: map<Task, Tcb>, after: map<Task, Tcb>, t: Task)
    requires Distinct(list) && InOrder(list, before)
    requires forall x :: x in list && x != t ==> Priority(after, x) == Priority(before, x)
    ensures InOrder(list, after) <==> Fits(list, before, t, Priority(after, t))
  {
  }

  lemma SamePriorities(list: seq<Task>, before: map<Task, Tcb>, after: map<Task, Tcb>)
    requires forall x :: x in list ==> Priority(after, x) == Priority(before, x)
    ensures InOrder(list, after) <==> InOrder(list, before)
  {
    assert forall i :: 0 <= i < |list| ==> list[i] in list;
  }

  lemma {:induction false} DropInOrder(list: seq<Task>, tasks: map<Task, Tcb>, t: Task)
    requires InOrder(list, tasks)
    ensures InOrder(Drop(list, t), tasks)
  {
    if list != [] && list[0] != t {
      DropInOrder(list[1..], tasks, t);
      DropMembers(list[1..], t);
      var rest := Drop(list[1..], t);
      forall j | 0 <= j < |rest| ensures Priority(tasks, rest[j]) <= Priority(tasks, list[0]) {
        assert rest[j] in list[1..];
      }
    }
  }

  /** Where vListInsert puts a task. */
  lemma {:induction false} InsertPlace(list: seq<Task>, tasks: map<Task, Tcb>, t: Task, n: nat) returns (k: nat)
    requires t in tasks && forall x :: x in list || x == t ==> x in tasks && tasks[x].item == n - tasks[x].priority
    ensures k <= |list| && InsertWaiter(list, tasks, t) == InsertAt(list, k, t)
    ensures forall i :: 0 <= i < k ==> tasks[t].priority <= Priority(tasks, list[i])
    ensures k < |list| ==> Priority(tasks, list[k]) < tasks[t].priority
  {
    hide InsertAt;
    if list == [] || tasks[t].item < tasks[list[0]].item {
      assert list != [] ==> list[0] in list;
      k := 0;
      InsertAtStep(list, 0, t);
    } else {
      assert list[0] in list;
      var j := InsertPlace(list[1..], tasks, t, n);
      k := j + 1;
      InsertAtStep(list, k, t);
      assert forall i :: 0 < i < k ==> list[i] == list[1..][i - 1];
    }
  }

  /** Joining a list leaves it in order if and only if it was. */
  lemma InsertIff(list: seq<Task>, tasks: map<Task, Tcb>, t: Task, k: nat)
    requires k <= |list| && t in tasks
    requires forall i :: 0 <= i < k ==> tasks[t].priority <= Priority(tasks, list[i])
    requires k < |list| ==> Priority(tasks, list[k]) < tasks[t].priority
    ensures InOrder(InsertAt(list, k, t), tasks) <==> InOrder(list, tasks)
  {
    var after := InsertAt(list, k, t);
    if InOrder(after, tasks) {
      forall i, j | 0 <= i < j < |list| ensures Priority(tasks, list[j]) <= Priority(tasks, list[i]) {
        var x, y := if i < k then i else i + 1, if j < k then j else j + 1;
        assert after[x] == list[i] && after[y] == list[j];
      }
    }
    if InOrder(list, tasks) {
      forall i, j | 0 <= i < j < |after| ensures Priority(tasks, after[j]) <= Priority(tasks, after[i]) {
        assert forall x :: k < x < |list| ==> Priority(tasks, list[x]) <= Priority(tasks, list[k]);
      }
    }
  }

  // ---- Steps.

  lemma OnList(s: State, t: Task, m: Handle)
    requires Inv(s) && t in s.tasks && m in s.mutexes
    ensures Distinct(s.mutexes[m].waiting)
    ensures t in s.mutexes[m].waiting <==> s.tasks[t].call.Waiting? && s.tasks[t].call.m == m
  {
    hide HoldersValid, PrioritiesValid, ReadyValid;
  }

  /** One task's priority changes: the lists stay in order if and only if it fits where it waits. */
  lemma RepriorityIff(s: State, after: map<Task, Tcb>, t: Task)
    requires Inv(s) && Ordered(s) && t in s.tasks
    requires forall x :: x != t ==> Priority(after, x) == Priority(s.tasks, x)
    ensures AllInOrder(s.mutexes, after) <==> Fits(ListOf(s, t), s.tasks, t, Priority(after, t))
  {
    hide Inv, InOrder, Fits;
    var list := ListOf(s, t);
    forall m | m in s.mutexes
      ensures InOrder(s.mutexes[m].waiting, after) <==>
        (t in s.mutexes[m].waiting ==> Fits(s.mutexes[m].waiting, s.tasks, t, Priority(after, t)))
    {
      OnList(s, t, m);
      if t in s.mutexes[m].waiting {
        ChangeIff(s.mutexes[m].waiting, s.tasks, after, t);
      } else {
        SamePriorities(s.mutexes[m].waiting, s.tasks, after);
      }
    }
    if list == [] { FitsNowhere(s.tasks, t, Priority(after, t)); }
    ListOfIs(s, t);
  }

  lemma FitsNowhere(tasks: map<Task, Tcb>, t: Task, p: int)
    ensures Fits([], tasks, t, p)
  {
  }

  lemma ListOfIs(s: State, t: Task)
    requires Inv(s) && t in s.tasks
    ensures forall m :: m in s.mutexes && t in s.mutexes[m].waiting ==> ListOf(s, t) == s.mutexes[m].waiting
    ensures ListOf(s, t) != [] ==> exists m :: m in s.mutexes && t in s.mutexes[m].waiting
  {
    hide HoldersValid, PrioritiesValid, ReadyValid;
  }

  /** Same lists, or shorter ones, and same priorities of the tasks on them. */
  lemma QuietOrder(s: State, n: State)
    requires Ordered(s) && n.mutexes.Keys == s.mutexes.Keys
    requires forall m :: m in s.mutexes ==>
      n.mutexes[m].waiting == s.mutexes[m].waiting || exists t :: n.mutexes[m].waiting == Drop(s.mutexes[m].waiting, t)
    requires forall m, t :: m in s.mutexes && t in n.mutexes[m].waiting ==> Priority(n.tasks, t) == Priority(s.tasks, t)
    ensures Ordered(n)
  {
    hide InOrder, Drop, Priority;
    forall m | m in n.mutexes ensures InOrder(n.mutexes[m].waiting, n.tasks) {
      var was, list := s.mutexes[m].waiting, n.mutexes[m].waiting;
      if list != was {
        var t :| list == Drop(was, t);
        DropInOrder(was, s.tasks, t);
      }
      SamePriorities(list, s.tasks, n.tasks);
    }
  }

  /** The running task joins the list of m once the holder has inherited. */
  lemma WaitLists(s: State, h: Task) returns (u: State)
    requires Inv(s) && Enabled(s, Wait) && s.mutexes[s.tasks[s.current].call.m].holder == Some(h)
    ensures h in s.tasks && u == Inherit(s, Some(h)) && u.mutexes == s.mutexes && Inv(u) && s.current in u.tasks
    ensures |u.ready| == |s.ready| && u.tasks[s.current].call == s.tasks[s.current].call && u.current == s.current
    ensures forall x :: x != h ==> Priority(u.tasks, x) == Priority(s.tasks, x)
    ensures Priority(u.tasks, h) ==
      if s.tasks[h].priority < s.tasks[s.current].priority then s.tasks[s.current].priority else s.tasks[h].priority
    ensures var m, n := s.tasks[s.current].call.m, Next(s, Wait);
      && n.mutexes.Keys == s.mutexes.Keys && (forall x :: Priority(n.tasks, x) == Priority(u.tasks, x))
      && (forall x :: x in s.mutexes && x != m ==> n.mutexes[x].waiting == s.mutexes[x].waiting)
      && n.mutexes[m].waiting == InsertWaiter(s.mutexes[m].waiting, u.tasks, s.current)
  {
    hide Inv, InsertWaiter, Drop;
    u := Inherit(s, Some(h));
    HolderHolds(s, s.tasks[s.current].call.m);
    InheritKeeps(s, Some(h));
    InheritFrame(s, Some(h));
  }

  lemma ItemsShow(s: State, m: Handle)
    requires Inv(s) && m in s.mutexes && s.current in s.tasks && s.tasks[s.current].call.Taking?
    ensures forall x :: x in s.mutexes[m].waiting || x == s.current ==>
      x in s.tasks && s.tasks[x].item == |s.ready| - s.tasks[x].priority
  {
    hide HoldersValid, ReadyValid;
  }

  /** Blocking keeps the lists in order if and only if the holder, if it inherits, fits where it waits itself. */
  lemma WaitOrderIff(s: State)
    requires Inv(s) && Ordered(s) && Enabled(s, Wait)
    ensures Ordered(Next(s, Wait)) <==> Fitting(s, Wait)
  {
    hide Inv, InOrder, Fits, Next, InsertWaiter, Priority, Inherit;
    var c, m, n := s.current, s.tasks[s.current].call.m, Next(s, Wait);
    MutexIsHeld(s, m);
    var h, p := s.mutexes[m].holder.value, s.tasks[c].priority;
    var u := WaitLists(s, h);
    RepriorityIff(s, u.tasks, h);
    UnchangedFits(s, h);
    ItemsShow(u, m);
    var list := s.mutexes[m].waiting;
    var k := InsertPlace(list, u.tasks, c, |u.ready|);
    InsertIff(list, u.tasks, c, k);
    forall x | x in s.mutexes ensures InOrder(n.mutexes[x].waiting, n.tasks) <==> InOrder(s.mutexes[x].waiting, u.tasks) {
      SamePriorities(n.mutexes[x].waiting, u.tasks, n.tasks);
    }
    PriorityIs(s, h);
  }

  lemma PriorityIs(s: State, t: Task)
    requires t in s.tasks
    ensures Priority(s.tasks, t) == s.tasks[t].priority
  {
  }

  lemma MutexIsHeld(s: State, m: Handle)
    requires Inv(s) && m in s.mutexes && s.mutexes[m].count == 0
    ensures s.mutexes[m].holder.Some? && s.mutexes[m].holder.value in s.tasks
  {
    hide PrioritiesValid, ReadyValid, WaitersValid;
    MutexHere(s.mutexes, s.tasks, m);
  }

  /** A task whose priority does not change fits where it is. */
  lemma UnchangedFits(s: State, t: Task)
    requires Inv(s) && Ordered(s) && t in s.tasks
    ensures Fits(ListOf(s, t), s.tasks, t, Priority(s.tasks, t))
  {
    hide Inv;
    ListOfIs(s, t);
  }

  /** A time-out keeps the lists in order if and only if the holder fits where it waits at the priority it falls back
      to. */
  lemma GiveBackOrderIff(s: State)
    requires Inv(s) && Ordered(s) && Enabled(s, GivePriorityBack)
    ensures Ordered(Next(s, GivePriorityBack)) <==> Fitting(s, GivePriorityBack)
  {
    hide Inv, InOrder, Fits, Next, HighestWaiting, Wanted;
    var m := s.tasks[s.current].call.m;
    var h, n := s.mutexes[m].holder, Next(s, GivePriorityBack);
    GiveBackShape(s, m);
    if h.Some? {
      RepriorityIff(s, n.tasks, h.value);
      UnchangedFits(s, h.value);
    } else {
      QuietOrder(s, n);
    }
  }

  lemma ReleaseOrder(s: State, m: Handle)
    requires Inv(s) && Ordered(s) && Running(s) && s.tasks[s.current].held > 0 && m in s.mutexes
    ensures Ordered(Release(SetCall(s, s.current, NoCall), m))
  {
    hide Inv, Release, Drop, InOrder;
    var n := Release(SetCall(s, s.current, NoCall), m);
    ReleaseShape(s, m);
    forall x | x in s.mutexes ensures s.current !in s.mutexes[x].waiting { OnList(s, s.current, x); }
    if s.mutexes[m].waiting != [] { DropMembers(s.mutexes[m].waiting, s.mutexes[m].waiting[0]); }
    QuietOrder(s, n);
  }

  lemma LeaveOrder(s: State, m: Handle, t: Task)
    requires Ordered(s) && m in s.mutexes && t in s.tasks
    ensures Ordered(Unwait(s, m, t))
  {
    hide Drop, InOrder;
    var n := Unwait(s, m, t);
    assert n.mutexes[m].waiting == Drop(s.mutexes[m].waiting, t);
    QuietOrder(s, n);
  }

  lemma OrderStepIff(s: State, a: Action)
    requires Inv(s) && Ordered(s)
    ensures Ordered(Next(s, a)) <==> Fitting(s, a)
  {
    hide Inv, Ordered, InOrder, Fits, Block, Release, Unwait, DisinheritAfterTimeout, HighestWaiting, ListOf;
    if Enabled(s, a) {
      match a
      case Wait => WaitOrderIff(s);
      case GivePriorityBack => GiveBackOrderIff(s);
      case Give(m) =>
        if s.mutexes[m].recursive { QuietOrder(s, Next(s, a)); } else { NoCallYet(s); ReleaseOrder(s, m); }
      case SendBack => ReleaseOrder(s, s.tasks[s.current].call.m);
      case Expire(t) => LeaveOrder(s, s.tasks[t].call.m, t);
      case _ => QuietOrder(s, Next(s, a));
    }
  }

  // ---- Runs.

  ghost predicate OrderedThroughout(s: State, actions: seq<Action>) {
    Ordered(Run(s, actions)) && (actions != [] ==> OrderedThroughout(s, actions[..|actions| - 1]))
  }

  ghost predicate FittingThroughout(s: State, actions: seq<Action>) {
    actions != [] ==>
      var before := actions[..|actions| - 1];
      FittingThroughout(s, before) && Fitting(Run(s, before), actions[|actions| - 1])
  }

  /** Over every run: the event lists are in order of priority at every point if and only if every change of a waiting
      task's priority fitted the place where it waits. */
  lemma {:induction false} OrderedIff(s: State, actions: seq<Action>)
    requires Inv(s) && Ordered(s)
    ensures OrderedThroughout(s, actions) <==> FittingThroughout(s, actions)
    decreases |actions|
  {
    hide Inv, Ordered, Fitting, Next;
    if actions != [] {
      var before := actions[..|actions| - 1];
      OrderedIff(s, before);
      RunKeeps(s, before);
      if Ordered(Run(s, before)) { OrderStepIff(Run(s, before), actions[|actions| - 1]); }
    }
  }

  lemma InitialOrdered(s: State)
    requires Initial(s)
    ensures Inv(s) && Ordered(s)
  {
    InitialInv(s);
  }

  /** A preemptive run from the start that breaks the order: task 2 waits behind task 3 and inherits a higher
      priority. */
  lemma OrderBreaks() returns (actions: seq<Action>, n: State)
    ensures Initial(START) && Leads(START, actions, n) && Inv(n) && Preemptive(n, Wait)
    ensures Ordered(n) && !Ordered(Next(n, Wait))
  {
    hide Inv, Leads, Next;
    actions, n := ChainIsReached();
    ChainDoesNotFit(n);
    WaitOrderIff(n);
  }

  lemma ChainDoesNotFit(n: State)
    requires n.current == 4
    requires n.tasks == Quartet(2, Waiting(1, true), Waiting(1, true), Taking(2, false)) && n.mutexes == Pair([3, 2])
    ensures Ordered(n) && Enabled(n, Wait) && !Fitting(n, Wait)
  {
    var list := n.mutexes[1].waiting;
    assert list[0] == 3 && list[1] == 2;
    assert ListOf(n, 2) == list;
    assert !Fits(list, n.tasks, 2, 3);
  }
}
