/** The ready lists of every priority and the record of the highest one in use. */
module ReadyQueues {
  import opened Common
  import opened RoundRobin
  import opened Selection

  function Empty(l: ReadyList): bool {
    |l.ring| == 1
  }

  ghost predicate ListsValid(lists: seq<ReadyList>) {
    forall p :: 0 <= p < |lists| ==> ListValid(lists[p])
  }

  /** Nobody is ready above p. */
  predicate NoneReadyAbove(lists: seq<ReadyList>, p: nat) {
    p < |lists| && forall q :: p < q < |lists| ==> Empty(lists[q])
  }

  /** The highest priority, at or below p, that has a ready task. */
  function Highest(lists: seq<ReadyList>, p: nat): (h: nat)
    requires p < |lists| && !Empty(lists[0])
    ensures h <= p && !Empty(lists[h]) && forall q :: h < q <= p ==> Empty(lists[q])
  {
    if p == 0 || !Empty(lists[p]) then p else Highest(lists, p - 1)
  }

  /** One pass of taskSELECT_HIGHEST_PRIORITY_TASK. */
  function SelectLists(lists: seq<ReadyList>, p: nat): seq<ReadyList>
    requires p < |lists| && lists[p].index < |lists[p].ring|
  {
    lists[p := Choose(lists[p])]
  }

  /** The tasks chosen by n selections with nothing else happening. */
  ghost function Selections(lists: seq<ReadyList>, top: nat, n: nat): seq<Option<Task>>
    requires ListsValid(lists) && top < |lists| && !Empty(lists[0])
    decreases n
  {
    if n == 0 then []
    else
      var h := Highest(lists, top);
      SelectKeeps(lists, h);
      [Order(lists[h])[0]] + Selections(SelectLists(lists, h), h, n - 1)
  }

  lemma SelectKeeps(lists: seq<ReadyList>, h: nat)
    requires ListsValid(lists) && h < |lists| && !Empty(lists[h])
    ensures ListsValid(SelectLists(lists, h))
    ensures |SelectLists(lists, h)| == |lists|
    ensures forall q :: 0 <= q < |lists| ==> Empty(SelectLists(lists, h)[q]) == Empty(lists[q])
    ensures Order(lists[h]) != [] && Order(SelectLists(lists, h)[h]) == Rotate(Order(lists[h]))
  {
    hide Upcoming, Rotate;
    assert ListValid(lists[h]);
    ChooseOrder(lists[h]);
  }

  lemma {:induction false} SelectionsVisit(lists: seq<ReadyList>, top: nat, h: nat, n: nat)
    requires ListsValid(lists) && h <= top && NoneReadyAbove(lists, top) && !Empty(lists[0]) && h == Highest(lists, top)
    ensures lists[h].index < |lists[h].ring| && Order(lists[h]) != []
    ensures Selections(lists, top, n) == Visits(Order(lists[h]), n)
    decreases n
  {
    hide Upcoming, Rotate;
    SelectKeeps(lists, h);
    if n > 0 {
      var next := SelectLists(lists, h);
      HighestStays(next, h);
      SelectionsVisit(next, h, h, n - 1);
    }
  }

  lemma HighestStays(lists: seq<ReadyList>, h: nat)
    requires h < |lists| && !Empty(lists[0]) && !Empty(lists[h])
    ensures Highest(lists, h) == h
  {
  }

  /** With the lists unchanged, n selections run each of the n ready tasks of the highest priority exactly once. */
  lemma EachRunsOnce(lists: seq<ReadyList>, top: nat)
    requires ListsValid(lists) && NoneReadyAbove(lists, top) && !Empty(lists[0])
    ensures var h := Highest(lists, top);
      && NoneReadyAbove(lists, h) && lists[h].index < |lists[h].ring|
      && Selections(lists, top, |Order(lists[h])|) == Order(lists[h])
      && Distinct(Order(lists[h])) && forall t: Task :: Some(t) in Order(lists[h]) <==> Some(t) in lists[h].ring
  {
    hide Upcoming, Selections;
    var h := Highest(lists, top);
    SelectionsVisit(lists, top, h, 0);
    FairShare(Order(lists[h]));
    SelectionsVisit(lists, top, h, |Order(lists[h])|);
    OrderDistinct(lists[h]);
    forall t: Task ensures Some(t) in Order(lists[h]) <==> Some(t) in lists[h].ring { OrderMembers(lists[h], t); }
  }

  class ReadyTasks {
    var lists: seq<ReadyList>
    var topReadyPriority: nat
    var current: Option<Task>
    var suspended: nat
    var yieldPending: bool

    ghost predicate Valid()
      reads this
    {
      ListsValid(lists) && NoneReadyAbove(lists, topReadyPriority)
    }

    constructor (priorities: nat)
      requires priorities > 0
      ensures Valid() && |lists| == priorities && forall p :: 0 <= p < priorities ==> lists[p] == EMPTY
      ensures suspended == 0
    {
      lists := seq(priorities, _ => EMPTY);
      topReadyPriority, current, suspended, yieldPending := 0, None, 0, false;
    }

    /** prvAddTaskToReadyList */
    method AddTaskToReadyList(t: Task, priority: nat)
      requires Valid() && priority < |lists| && Some(t) !in lists[priority].ring
      modifies this`lists, this`topReadyPriority
      ensures Valid()
      ensures lists == old(lists)[priority := Add(old(lists)[priority], t)]
    {
      hide Upcoming;
      AddOrder(lists[priority], t);
      if priority > topReadyPriority {
        topReadyPriority := priority;
      }
      lists := lists[priority := Add(lists[priority], t)];
    }

    /** uxListRemove on a ready list, as when a task blocks; the record is left as it is */
    method RemoveFromReadyList(t: Task, priority: nat)
      requires Valid() && priority < |lists| && Some(t) in lists[priority].ring
      modifies this`lists
      ensures Valid()
      ensures lists == old(lists)[priority := Remove(old(lists)[priority], t)]
    {
      hide Upcoming, Drop;
      var l := lists[priority];
      RemoveOrder(l, t);
      NotEmpty(l, t);
      lists := lists[priority := Remove(l, t)];
    }

    /** taskSELECT_HIGHEST_PRIORITY_TASK */
    method SelectHighestPriorityTask()
      requires Valid() && |lists| > 0 && !Empty(lists[0])
      modifies this`lists, this`topReadyPriority, this`current
      ensures Valid()
      ensures topReadyPriority < |old(lists)| && !Empty(old(lists)[topReadyPriority])
      ensures Order(old(lists)[topReadyPriority]) != []
      ensures current == Order(old(lists)[topReadyPriority])[0] && current.Some?
      ensures topReadyPriority == Highest(old(lists), old(topReadyPriority))
      ensures lists == SelectLists(old(lists), topReadyPriority)
    {
      hide Upcoming, Rotate;
      var top: nat := topReadyPriority;
      while Empty(lists[top])
        invariant top <= topReadyPriority && NoneReadyAbove(lists, top)
        invariant Highest(lists, top) == Highest(lists, topReadyPriority)
        decreases top
      {
        assert top != 0;
        top := top - 1;
      }
      var l := lists[top];
      ChooseOrder(l);
      SelectKeeps(lists, top);
      lists := lists[top := Choose(l)];
      current := lists[top].ring[lists[top].index];
      topReadyPriority := top;
    }

    /** vTaskSwitchContext */
    method SwitchContext()
      requires Valid() && |lists| > 0 && !Empty(lists[0])
      modifies this
      ensures Valid() && suspended == old(suspended)
      ensures suspended != 0 ==> yieldPending && lists == old(lists) && current == old(current)
      ensures suspended == 0 ==>
        && !yieldPending && topReadyPriority < |old(lists)|
        && old(lists)[topReadyPriority].index < |old(lists)[topReadyPriority].ring|
        && Order(old(lists)[topReadyPriority]) != []
        && current == Order(old(lists)[topReadyPriority])[0]
        && NoneReadyAbove(old(lists), topReadyPriority) && lists == SelectLists(old(lists), topReadyPriority)
    {
      hide Upcoming;
      if suspended != 0 {
        yieldPending := true;
      } else {
        yieldPending := false;
        SelectHighestPriorityTask();
      }
    }
  }

  lemma NotEmpty(l: ReadyList, t: Task)
    requires ListValid(l) && Some(t) in l.ring
    ensures !Empty(l)
  {
  }
}
