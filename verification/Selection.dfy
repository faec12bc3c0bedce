/** Which task runs next: the ready lists, the record of the highest ready priority, and the turns tasks take. */
module Selection {
  import opened Common
  import opened RoundRobin

  type Task = nat

  /** A ready list: the end marker and the tasks as they lie on the ring, and the place of pxIndex. */
  datatype ReadyList = ReadyList(ring: seq<Option<Task>>, index: nat)

  const EMPTY: ReadyList := ReadyList([None], 0)

  ghost predicate ListValid(l: ReadyList) {
    && l.index < |l.ring| && l.ring[0] == None && Distinct(l.ring)
    && forall i :: 1 <= i < |l.ring| ==> l.ring[i].Some?
  }

  /** The order in which the tasks will be chosen if nothing changes. */
  function Order(l: ReadyList): seq<Option<Task>>
    requires l.index < |l.ring|
  {
    Upcoming(l.ring, l.index)
  }

  /** listINSERT_END, listREMOVE_ITEM and listGET_OWNER_OF_NEXT_ENTRY */
  function Add(l: ReadyList, t: Task): ReadyList
    requires l.index < |l.ring|
  {
    if Some(t) in l.ring then l
    else ReadyList(InsertAt(l.ring, EndPlace(l.ring, l.index), Some(t)), if l.index == 0 then 0 else l.index + 1)
  }

  function PlaceOf<T(==)>(s: seq<T>, x: T): nat {
    if s == [] || s[0] == x then 0 else 1 + PlaceOf(s[1..], x)
  }

  lemma {:induction false} PlaceOfExact<T>(s: seq<T>, x: T)
    requires x in s
    ensures PlaceOf(s, x) < |s| && s[PlaceOf(s, x)] == x
  {
    if s[0] != x { PlaceOfExact(s[1..], x); }
  }

  function Remove(l: ReadyList, t: Task): ReadyList
    requires l.index < |l.ring|
  {
    var k := PlaceOf(l.ring, Some(t));
    if k == 0 || k >= |l.ring| then l
    else ReadyList(RemoveAt(l.ring, k), if k <= l.index then l.index - 1 else l.index)
  }

  function Choose(l: ReadyList): ReadyList
    requires l.index < |l.ring|
  {
    if |l.ring| == 1 then l else l.(index := NextIndex(l.index, |l.ring|))
  }

  // ---- What each does to the order.

  /** A task that is added comes last, but for the task at the index; the others keep their order. */
  lemma AddOrder(l: ReadyList, t: Task)
    requires ListValid(l) && Some(t) !in l.ring
    ensures ListValid(Add(l, t))
    ensures Drop(Order(Add(l, t)), Some(t)) == Order(l)
    ensures l.index == 0 ==> Order(Add(l, t)) == Order(l) + [Some(t)]
    ensures l.index > 0 ==> Order(l) != [] && Order(l)[|Order(l)| - 1] == l.ring[l.index]
    ensures l.index > 0 ==> Order(Add(l, t)) == Order(l)[..|Order(l)| - 1] + [Some(t)] + [l.ring[l.index]]
  {
    hide Drop, Upcoming;
    InsertEndIsLast(l.ring, l.index, Some(t));
  }

  lemma RemoveOrder(l: ReadyList, t: Task)
    requires ListValid(l) && Some(t) in l.ring
    ensures ListValid(Remove(l, t)) && Order(Remove(l, t)) == Drop(Order(l), Some(t))
  {
    hide Drop, Upcoming;
    PlaceOfExact(l.ring, Some(t));
    RemoveKeepsOrder(l.ring, l.index, PlaceOf(l.ring, Some(t)));
  }

  lemma RemoveAbsent(l: ReadyList, t: Task)
    requires ListValid(l) && Some(t) !in l.ring
    ensures Remove(l, t) == l
  {
    PlaceOfAbsent(l.ring, Some(t));
  }

  lemma {:induction false} PlaceOfAbsent<T>(s: seq<T>, x: T)
    requires x !in s
    ensures PlaceOf(s, x) == |s|
  {
    if s != [] { PlaceOfAbsent(s[1..], x); }
  }

  lemma ChooseOrder(l: ReadyList)
    requires ListValid(l) && |l.ring| > 1
    ensures ListValid(Choose(l)) && Choose(l).ring[Choose(l).index] == Order(l)[0] && Order(Choose(l)) == Rotate(Order(l))
  {
    hide Upcoming, Rotate;
    NextRotates(l.ring, l.index);
  }

  // ---- Turns.

  datatype Turn = Arrive(t: Task) | Leave(t: Task) | Pick

  function Step(l: ReadyList, a: Turn): ReadyList
    requires l.index < |l.ring|
  {
    match a
    case Arrive(t) => Add(l, t)
    case Leave(t) => Remove(l, t)
    case Pick => Choose(l)
  }

  lemma StepKeeps(l: ReadyList, a: Turn)
    requires ListValid(l)
    ensures ListValid(Step(l, a))
  {
    hide Add, Remove, Choose;
    match a
    case Arrive(t) => if Some(t) in l.ring { AddPresent(l, t); } else { AddOrder(l, t); }
    case Leave(t) => if Some(t) in l.ring { RemoveOrder(l, t); } else { RemoveAbsent(l, t); }
    case Pick => if |l.ring| > 1 { ChooseOrder(l); } else { ChooseNone(l); }
  }

  lemma AddPresent(l: ReadyList, t: Task)
    requires ListValid(l) && Some(t) in l.ring
    ensures Add(l, t) == l
  {
  }

  lemma ChooseNone(l: ReadyList)
    requires ListValid(l) && |l.ring| == 1
    ensures Choose(l) == l
  {
  }

  /** The list after a run of turns, and whether t was picked in it. */
  ghost function After(l: ReadyList, turns: seq<Turn>): ReadyList
    requires ListValid(l)
    decreases |turns|
  {
    if turns == [] then l else StepKeeps(l, turns[0]); After(Step(l, turns[0]), turns[1..])
  }

  ghost predicate Picked(l: ReadyList, turns: seq<Turn>, t: Task)
    requires ListValid(l)
    decreases |turns|
  {
    turns != [] && (
      StepKeeps(l, turns[0]);
      || (turns[0].Pick? && |l.ring| > 1 && Order(l)[0] == Some(t))
      || Picked(Step(l, turns[0]), turns[1..], t))
  }

  function Picks(turns: seq<Turn>): nat {
    if turns == [] then 0 else (if turns[0].Pick? then 1 else 0) + Picks(turns[1..])
  }

  /** The arrivals that find the index on t, and so are placed in front of t. */
  ghost function Overtakes(l: ReadyList, turns: seq<Turn>, t: Task): nat
    requires ListValid(l)
    decreases |turns|
  {
    if turns == [] then 0
    else
      StepKeeps(l, turns[0]);
      (if turns[0].Arrive? && Some(turns[0].t) !in l.ring && l.ring[l.index] == Some(t) then 1 else 0)
      + Overtakes(Step(l, turns[0]), turns[1..], t)
  }

  /** How many tasks are to be picked before t. */
  function Ahead(l: ReadyList, t: Task): nat
    requires l.index < |l.ring|
  {
    PlaceOf(Order(l), Some(t))
  }

  lemma {:induction false} PlaceOfPrefix<T>(a: seq<T>, b: seq<T>, x: T)
    ensures x in a ==> PlaceOf(a + b, x) == PlaceOf(a, x)
    ensures x !in a ==> PlaceOf(a + b, x) == |a| + PlaceOf(b, x)
  {
    if a == [] {
      assert a + b == b;
    } else {
      assert (a + b)[1..] == a[1..] + b;
      PlaceOfPrefix(a[1..], b, x);
    }
  }

  lemma {:induction false} PlaceOfDrop<T>(s: seq<T>, x: T, y: T)
    requires x in s && x != y
    ensures x in Drop(s, y) && PlaceOf(Drop(s, y), x) <= PlaceOf(s, x)
  {
    if s[0] != x && s[0] != y { PlaceOfDrop(s[1..], x, y); }
  }

  lemma OrderMembers(l: ReadyList, t: Task)
    requires ListValid(l)
    ensures Some(t) in Order(l) <==> Some(t) in l.ring
  {
    var r, i := l.ring, l.index;
    assert r == ([r[0]] + r[1..i + 1]) + r[i + 1..];
  }

  /** An arrival moves t back by one place exactly if the index is on t. */
  lemma ArriveAhead(l: ReadyList, x: Task, t: Task)
    requires ListValid(l) && Some(t) in l.ring && Some(x) !in l.ring
    ensures Ahead(Add(l, x), t) == Ahead(l, t) + if l.ring[l.index] == Some(t) then 1 else 0
    ensures Some(t) in Add(l, x).ring
  {
    hide Add, Upcoming, Drop, PlaceOf;
    OrderMembers(l, t);
    AddOrder(l, x);
    OrderMembers(Add(l, x), t);
    var u := Order(l);
    if l.index == 0 {
      PlaceOfPrefix(u, [Some(x)], Some(t));
    } else {
      var w, c := u[..|u| - 1], l.ring[l.index];
      assert u == w + [c];
      OrderDistinct(l);
      PlaceOfPrefix(w, [c], Some(t));
      PlaceOfPrefix(w + [Some(x)], [c], Some(t));
      PlaceOfPrefix(w, [Some(x)], Some(t));
      PlaceOfHead(c);
    }
  }

  lemma PlaceOfHead<T>(c: T)
    ensures PlaceOf([c], c) == 0
  {
  }

  lemma OrderDistinct(l: ReadyList)
    requires ListValid(l)
    ensures Distinct(Order(l))
  {
  }

  lemma LeaveAhead(l: ReadyList, x: Task, t: Task)
    requires ListValid(l) && Some(t) in l.ring && x != t
    ensures Some(t) in Remove(l, x).ring && Ahead(Remove(l, x), t) <= Ahead(l, t)
  {
    hide Remove, Upcoming, Drop, PlaceOf;
    if Some(x) in l.ring {
      RemoveOrder(l, x);
      OrderMembers(l, t);
      PlaceOfDrop(Order(l), Some(t), Some(x));
      OrderMembers(Remove(l, x), t);
    } else {
      RemoveAbsent(l, x);
    }
  }

  lemma PickAhead(l: ReadyList, t: Task)
    requires ListValid(l) && Some(t) in l.ring
    ensures |l.ring| > 1 && (Order(l)[0] != Some(t) ==> Ahead(Choose(l), t) == Ahead(l, t) - 1)
    ensures Some(t) in Choose(l).ring
  {
    hide Upcoming;
    OrderMembers(l, t);
    ChooseOrder(l);
    var u := Order(l);
    assert u == [u[0]] + u[1..];
    if u[0] != Some(t) { PlaceOfPrefix(u[1..], [u[0]], Some(t)); }
  }

  /** Bounded waiting: as long as t stays ready and is not picked, every pick brings it one place nearer, whatever else
      arrives and leaves; only arrivals that find the index on t get in front of it. */
  lemma {:induction false} BoundedWaiting(l: ReadyList, turns: seq<Turn>, t: Task)
    requires ListValid(l) && Some(t) in l.ring && Leave(t) !in turns && !Picked(l, turns, t)
    ensures ListValid(After(l, turns)) && Some(t) in After(l, turns).ring
    ensures Picks(turns) + Ahead(After(l, turns), t) <= Ahead(l, t) + Overtakes(l, turns, t)
    decreases |turns|
  {
    hide Add, Remove, Choose, Ahead, Upcoming;
    if turns != [] {
      var a := turns[0];
      StepKeeps(l, a);
      match a {
        case Arrive(x) =>
          if Some(x) in l.ring { AddPresent(l, x); } else { ArriveAhead(l, x, t); }
        case Leave(x) => LeaveAhead(l, x, t);
        case Pick => PickAhead(l, t);
      }
      BoundedWaiting(Step(l, a), turns[1..], t);
    }
  }

  /** So with no arrivals while the index is on it, a ready task is picked within as many picks as there are tasks. */
  lemma PickedInTime(l: ReadyList, turns: seq<Turn>, t: Task)
    requires ListValid(l) && Some(t) in l.ring && Leave(t) !in turns
    requires Picks(turns) > Ahead(l, t) + Overtakes(l, turns, t)
    ensures Picked(l, turns, t)
  {
    hide Ahead, Overtakes, ListValid;
    if !Picked(l, turns, t) { BoundedWaiting(l, turns, t); }
  }

  // ---- A bound that no run can stretch.

  /** Every list of the run holds at most n tasks. */
  ghost predicate AtMostTasks(l: ReadyList, turns: seq<Turn>, n: nat)
    requires ListValid(l)
    decreases |turns|
  {
    && |l.ring| - 1 <= n
    && (turns == [] || (StepKeeps(l, turns[0]); AtMostTasks(Step(l, turns[0]), turns[1..], n)))
  }

  /** How far the index is from t, counting a whole lap of n if it has passed t.  Arrivals, which go in behind the index,
      do not change it. */
  function Distance(l: ReadyList, t: Task, n: nat): int {
    var k := PlaceOf(l.ring, Some(t));
    if l.index < k then k - l.index - 1 else |l.ring| - 1 - l.index + n
  }

  lemma {:induction false} PlaceOfUnique<T>(s: seq<T>, x: T, k: nat)
    requires k < |s| && s[k] == x && forall i :: 0 <= i < k ==> s[i] != x
    ensures PlaceOf(s, x) == k
  {
    if k > 0 { PlaceOfUnique(s[1..], x, k - 1); }
  }

  lemma PlaceAfterInsert<T>(s: seq<T>, j: nat, y: T, x: T)
    requires Distinct(s) && j <= |s| && x in s && y !in s
    ensures PlaceOf(InsertAt(s, j, y), x) == PlaceOf(s, x) + if j <= PlaceOf(s, x) then 1 else 0
  {
    hide PlaceOf;
    PlaceOfExact(s, x);
    var k, r := PlaceOf(s, x), InsertAt(s, j, y);
    PlaceOfUnique(r, x, if j <= k then k + 1 else k);
  }

  lemma PlaceAfterRemove<T>(s: seq<T>, j: nat, x: T)
    requires Distinct(s) && j < |s| && x in s && s[j] != x
    ensures PlaceOf(RemoveAt(s, j), x) == PlaceOf(s, x) - if j < PlaceOf(s, x) then 1 else 0
  {
    hide PlaceOf;
    PlaceOfExact(s, x);
    var k, r := PlaceOf(s, x), RemoveAt(s, j);
    PlaceOfUnique(r, x, if j < k then k - 1 else k);
  }

  lemma ArriveDistance(l: ReadyList, x: Task, t: Task, n: nat)
    requires ListValid(l) && Some(t) in l.ring && Some(x) !in l.ring
    ensures Some(t) in Add(l, x).ring && Distance(Add(l, x), t, n) == Distance(l, t, n)
  {
    hide PlaceOf;
    PlaceOfExact(l.ring, Some(t));
    PlaceAfterInsert(l.ring, EndPlace(l.ring, l.index), Some(x), Some(t));
    assert Add(l, x).ring[EndPlace(l.ring, l.index)] == Some(x);
    ArriveAhead(l, x, t);
  }

  lemma LeaveDistance(l: ReadyList, x: Task, t: Task, n: nat)
    requires ListValid(l) && Some(t) in l.ring && x != t && |l.ring| - 1 <= n
    ensures Some(t) in Remove(l, x).ring && Distance(Remove(l, x), t, n) <= Distance(l, t, n)
  {
    hide PlaceOf, Drop, Upcoming;
    LeaveAhead(l, x, t);
    PlaceOfExact(l.ring, Some(t));
    var j := PlaceOf(l.ring, Some(x));
    if Some(x) in l.ring {
      PlaceOfExact(l.ring, Some(x));
      PlaceAfterRemove(l.ring, j, Some(t));
    } else {
      RemoveAbsent(l, x);
    }
  }

  lemma PickDistance(l: ReadyList, t: Task, n: nat)
    requires ListValid(l) && Some(t) in l.ring && |l.ring| - 1 <= n && Order(l)[0] != Some(t)
    ensures Some(t) in Choose(l).ring && Distance(Choose(l), t, n) < Distance(l, t, n)
  {
    hide PlaceOf, Upcoming;
    PlaceOfExact(l.ring, Some(t));
    ChooseOrder(l);
  }

  lemma DistanceBound(l: ReadyList, t: Task, n: nat)
    requires ListValid(l) && Some(t) in l.ring && |l.ring| - 1 <= n
    ensures 0 <= Distance(l, t, n) < 2 * n
  {
    hide PlaceOf;
    PlaceOfExact(l.ring, Some(t));
  }

  lemma {:induction false} DistanceFalls(l: ReadyList, turns: seq<Turn>, t: Task, n: nat)
    requires ListValid(l) && Some(t) in l.ring && AtMostTasks(l, turns, n)
    requires Leave(t) !in turns && !Picked(l, turns, t)
    ensures ListValid(After(l, turns)) && Some(t) in After(l, turns).ring && |After(l, turns).ring| - 1 <= n
    ensures Picks(turns) + Distance(After(l, turns), t, n) <= Distance(l, t, n)
    decreases |turns|
  {
    hide Add, Remove, Choose, Distance, Upcoming;
    if turns != [] {
      var a := turns[0];
      StepKeeps(l, a);
      match a {
        case Arrive(x) =>
          if Some(x) in l.ring { AddPresent(l, x); } else { ArriveDistance(l, x, t, n); }
        case Leave(x) => LeaveDistance(l, x, t, n);
        case Pick => PickAhead(l, t); PickDistance(l, t, n);
      }
      DistanceFalls(Step(l, a), turns[1..], t, n);
    }
  }

  /** No starvation: on a list that never holds more than n tasks, a task that stays ready is picked within 2n picks,
      whatever arrives and leaves. */
  lemma PickedWithinTwoRounds(l: ReadyList, turns: seq<Turn>, t: Task, n: nat)
    requires ListValid(l) && Some(t) in l.ring && AtMostTasks(l, turns, n)
    requires Leave(t) !in turns && 2 * n <= Picks(turns)
    ensures Picked(l, turns, t)
  {
    hide ListValid, Distance, Picked, Picks;
    if !Picked(l, turns, t) {
      DistanceFalls(l, turns, t, n);
      DistanceBound(l, t, n);
      DistanceBound(After(l, turns), t, n);
    }
  }

  /** An arrival can get in front of a task that has not run since: task 1 waits behind 2, the task that is running; when
      2 blocks, the index steps back on to 1, and 3 goes in before it. */
  lemma CanBeOvertaken()
    ensures var l := ReadyList([None, Some(1), Some(2)], 2);
      && ListValid(l) && Order(l) == [Some(1), Some(2)]
      && Order(Add(Remove(l, 2), 3)) == [Some(3), Some(1)]
  {
    var l := ReadyList([None, Some(1), Some(2)], 2);
    assert PlaceOf(l.ring, Some(2)) == 2 by {
      assert l.ring[1..] == [Some(1), Some(2)];
      assert l.ring[1..][1..] == [Some(2)];
    }
    assert Remove(l, 2) == ReadyList([None, Some(1)], 1);
    assert Add(Remove(l, 2), 3) == ReadyList([None, Some(3), Some(1)], 2);
  }
}
