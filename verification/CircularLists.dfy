/** The intrusive circular lists of list.c, against the sequence of their items. */
module CircularLists {
  import opened Clock
  import opened Common
  import opened RoundRobin
  import TimedLists

  class Item {
    var value: nat
    var owner: nat
    var next: Item?
    var previous: Item?
    var container: List?

    /** vListInitialiseItem */
    constructor (v: nat, o: nat)
      ensures value == v && owner == o && container == null
    {
      value, owner, next, previous, container := v, o, null, null, null;
    }
  }

  /** The place after i on a ring of n. */
  function After(i: nat, n: nat): nat {
    if i + 1 >= n then 0 else i + 1
  }

  /** Next and previous are inverse to each other between place i and the one after it. */
  ghost predicate Link(ring: seq<Item>, i: nat)
    requires i < |ring|
    reads ring`next, ring`previous
  {
    ring[i].next == ring[After(i, |ring|)] && ring[After(i, |ring|)].previous == ring[i]
  }

  ghost predicate Linked(ring: seq<Item>)
    reads ring`next, ring`previous
  {
    forall i :: 0 <= i < |ring| ==> Link(ring, i)
  }

  /** With the four pointers around place k written, the larger ring is closed. */
  lemma Spliced(ring: seq<Item>, k: nat, item: Item)
    requires Distinct(ring) && item !in ring && 1 <= k <= |ring|
    requires forall i :: 0 <= i < |ring| && i != k - 1 ==> Link(ring, i)
    requires item.previous == ring[k - 1] && ring[k - 1].next == item
    requires item.next == ring[After(k - 1, |ring|)] && ring[After(k - 1, |ring|)].previous == item
    ensures Linked(InsertAt(ring, k, item)) && Distinct(InsertAt(ring, k, item))
  {
    var after := InsertAt(ring, k, item);
    forall i | 0 <= i < |after| ensures Link(after, i) {
      if i < k - 1 {
        assert Link(ring, i);
      } else if i > k {
        assert Link(ring, i - 1);
        assert after[After(i, |after|)] == ring[After(i - 1, |ring|)];
      }
    }
  }

  /** With the two pointers around place k written, the smaller ring is closed. */
  lemma Unspliced(ring: seq<Item>, k: nat)
    requires Distinct(ring) && 1 <= k < |ring|
    requires forall i :: 0 <= i < |ring| && i != k - 1 && i != k ==> Link(ring, i)
    requires ring[k - 1].next == ring[After(k, |ring|)] && ring[After(k, |ring|)].previous == ring[k - 1]
    ensures Linked(RemoveAt(ring, k)) && Distinct(RemoveAt(ring, k))
  {
    var after := RemoveAt(ring, k);
    forall i | 0 <= i < |after| ensures Link(after, i) {
      if i < k - 1 {
        assert Link(ring, i);
      } else if i > k - 1 {
        assert Link(ring, i + 1);
        assert after[After(i, |after|)] == ring[After(i + 1, |ring|)];
      }
    }
  }

  lemma DistinctAt<T>(s: seq<T>, i: nat, j: nat)
    requires Distinct(s) && i < |s| && j < |s| && i != j
    ensures s[i] != s[j]
  {
  }

  lemma LinkAt(ring: seq<Item>, i: nat)
    requires Linked(ring) && i < |ring|
    ensures Link(ring, i)
  {
  }

  /** The items name the list as their container. */
  ghost predicate Members(list: List, ring: seq<Item>)
    reads ring`container, ring`value
  {
    forall i :: 1 <= i < |ring| ==> ring[i].container == list && ring[i].value <= MAX_DELAY
  }

  lemma InsertedAt<T>(s: seq<T>, k: nat, x: T, i: nat)
    requires 1 <= k <= |s| && i < |s|
    ensures var t := InsertAt(s, k, x);
      |t| == |s| + 1 && t[0] == s[0] && t[if i < k then i else i + 1] == s[i]
  {
  }

  lemma MembersInserted(list: List, ring: seq<Item>, k: nat, item: Item)
    requires Members(list, ring) && 1 <= k <= |ring| && item.container == list && item.value <= MAX_DELAY
    ensures Members(list, InsertAt(ring, k, item))
  {
  }

  lemma MembersRemoved(list: List, ring: seq<Item>, k: nat)
    requires Members(list, ring) && 1 <= k < |ring| && Distinct(ring)
    ensures Members(list, RemoveAt(ring, k)) && ring[k] !in RemoveAt(ring, k)
  {
  }

  lemma RemovedAt<T>(s: seq<T>, k: nat, i: nat)
    requires 1 <= k < |s| && i < |s|
    ensures var t := RemoveAt(s, k);
      |t| == |s| - 1 && t[0] == s[0] && t[if k <= i then i - 1 else i] == if i == k then s[k - 1] else s[i]
  {
  }

  function Entry(item: Item): TimedLists.ListItem
    reads item`value, item`owner
  {
    TimedLists.ListItem(item.value, item.owner)
  }

  function Entries(items: seq<Item>): (es: seq<TimedLists.ListItem>)
    reads items`value, items`owner
    ensures |es| == |items| && forall i :: 0 <= i < |es| ==> es[i] == Entry(items[i])
  {
    if items == [] then [] else [Entry(items[0])] + Entries(items[1..])
  }

  /** Insertion in front of the first greater value is what the sorted lists of the kernel are specified by. */
  lemma {:induction false} InsertPlace(es: seq<TimedLists.ListItem>, e: TimedLists.ListItem, k: nat)
    requires k <= |es| && forall i :: 0 <= i < k ==> es[i].value <= e.value
    requires k < |es| ==> e.value < es[k].value
    ensures TimedLists.Insert(es, e) == InsertAt(es, k, e)
  {
    if k > 0 {
      InsertPlace(es[1..], e, k - 1);
    }
  }

  lemma EntriesStep(first: Item, rest: seq<Item>)
    ensures Entries([first] + rest) == [Entry(first)] + Entries(rest)
  {
    assert ([first] + rest)[1..] == rest;
  }

  lemma {:induction false} EntriesInsertAt(items: seq<Item>, k: nat, item: Item)
    requires k <= |items|
    ensures Entries(InsertAt(items, k, item)) == InsertAt(Entries(items), k, Entry(item))
  {
    hide Entries, InsertAt;
    var es := Entries(items);
    InsertAtStep(items, k, item);
    InsertAtStep(es, k, Entry(item));
    if k == 0 {
      EntriesStep(item, items);
    } else {
      EntriesInsertAt(items[1..], k - 1, item);
      EntriesStep(items[0], InsertAt(items[1..], k - 1, item));
      assert items == [items[0]] + items[1..];
      EntriesStep(items[0], items[1..]);
      assert es[1..] == Entries(items[1..]);
    }
  }

  lemma EntriesInserted(ring: seq<Item>, k: nat, item: Item)
    requires 1 <= k <= |ring|
    requires forall i :: 1 <= i < k ==> ring[i].value <= item.value
    requires k < |ring| ==> item.value < ring[k].value
    ensures InsertAt(ring, k, item) != []
    ensures Entries(InsertAt(ring, k, item)[1..]) == TimedLists.Insert(Entries(ring[1..]), Entry(item))
  {
    hide Entries, TimedLists.Insert;
    var items := ring[1..];
    assert InsertAt(ring, k, item)[1..] == InsertAt(items, k - 1, item);
    EntriesInsertAt(items, k - 1, item);
    EntriesPlace(items, k - 1, item);
  }

  lemma EntriesPlace(items: seq<Item>, k: nat, item: Item)
    requires k <= |items|
    requires forall i :: 0 <= i < k ==> items[i].value <= item.value
    requires k < |items| ==> item.value < items[k].value
    ensures TimedLists.Insert(Entries(items), Entry(item)) == InsertAt(Entries(items), k, Entry(item))
  {
    hide TimedLists.Insert;
    InsertPlace(Entries(items), Entry(item), k);
  }

  class List {
    const end: Item
    var index: Item
    var number: nat
    ghost var ring: seq<Item>     // the end marker and then the items
    ghost var place: nat          // where the index is on the ring

    ghost predicate Valid()
      reads this, ring
    {
      && ring != [] && ring[0] == end && Distinct(ring) && Linked(ring)
      && place < |ring| && index == ring[place]
      && number == |ring| - 1
      && end.value == MAX_DELAY && end.container == null
      && Members(this, ring)
    }

    /** The items in the order in which they will be visited. */
    ghost function Schedule(): seq<Item>
      requires Valid()
      reads this, ring
    {
      Upcoming(ring, place)
    }

    ghost function Contents(): seq<TimedLists.ListItem>
      requires Valid()
      reads this, ring
    {
      Entries(ring[1..])
    }

    /** vListInitialise */
    constructor ()
      ensures Valid() && ring == [end] && fresh(end) && place == 0
    {
      var e := new Item(MAX_DELAY, 0);
      end, index, number := e, e, 0;
      ring, place := [e], 0;
      new;
      e.next := e;
      e.previous := e;
    }

    /** vListInsertEnd */
    method InsertEnd(item: Item)
      requires Valid() && item.container == null && item != end && item.value <= MAX_DELAY
      modifies this, item`next, item`previous, item`container, ring`next, ring`previous
      ensures Valid()
      ensures ring == InsertAt(old(ring), EndPlace(old(ring), old(place)), item)
      ensures index == old(index)
      ensures Drop(Schedule(), item) == old(Schedule())
      ensures old(place) == 0 ==> Schedule() == old(Schedule()) + [item]
      ensures old(place) > 0 ==> |old(Schedule())| > 0 && old(Schedule())[|old(Schedule())| - 1] == index
      ensures old(place) > 0 ==> Schedule() == old(Schedule())[..|old(Schedule())| - 1] + [item] + [index]
    {
      hide Linked, InsertAt, Distinct, Members, Drop, Upcoming;
      ghost var r, k := ring, EndPlace(ring, place);
      NotIn(item);
      forall i | 0 <= i < |r| ensures Link(r, i) { LinkAt(r, i); }
      assert Link(r, k - 1);
      InsertedAt(r, k, item, place);
      InsertEndIsLast(r, place, item);
      assert index == r[After(k - 1, |r|)];
      var at := index;
      item.next := at;
      item.previous := at.previous;
      at.previous.next := item;
      at.previous := item;
      item.container := this;
      number := number + 1;
      forall i | 0 <= i < |r| && i != k - 1 ensures Link(r, i) {
        assert old(Link(r, i));
        DistinctAt(r, i, k - 1);
        DistinctAt(r, After(i, |r|), After(k - 1, |r|));
      }
      Spliced(r, k, item);
      MembersInserted(this, r, k, item);
      ring := InsertAt(r, k, item);
      place := if place == 0 then 0 else place + 1;
    }

    lemma NotIn(item: Item)
      requires Valid() && item.container == null && item != end
      ensures item !in ring
    {
    }

    /** vListInsert: after every item whose value is no greater; an item that never expires goes to the end without a
        walk.  The new item is at place p + 1. */
    method Insert(item: Item) returns (ghost p: nat)
      requires Valid() && item.container == null && item != end && item.value <= MAX_DELAY
      modifies this, item`next, item`previous, item`container, ring`next, ring`previous
      ensures Valid() && index == old(index)
      ensures p < |old(ring)| && ring == InsertAt(old(ring), p + 1, item)
      ensures Contents() == TimedLists.Insert(old(Contents()), Entry(item))
    {
      hide Valid, InsertAt, Entries, TimedLists.Insert;
      ghost var r := ring;
      var walker: Item;
      walker, p := FindPlace(item.value);
      InsertAfter(walker, p, item);
      EntriesInserted(r, p + 1, item);
      assert Entries(r[1..]) == old(Entries(r[1..]));
    }

    /** The pointer writes of vListInsert */
    method InsertAfter(walker: Item, ghost p: nat, item: Item)
      requires Valid() && item.container == null && item != end && item.value <= MAX_DELAY
      requires p < |ring| && walker == ring[p]
      modifies this, item`next, item`previous, item`container, ring`next, ring`previous
      ensures Valid() && index == old(index) && ring == InsertAt(old(ring), p + 1, item)
    {
      hide Linked, InsertAt, Distinct, Members;
      ghost var r := ring;
      NotIn(item);
      forall i | 0 <= i < |r| ensures Link(r, i) { LinkAt(r, i); }
      assert Link(r, p);
      InsertedAt(r, p + 1, item, place);
      item.next := walker.next;
      item.next.previous := item;
      item.previous := walker;
      walker.next := item;
      item.container := this;
      number := number + 1;
      forall i | 0 <= i < |r| && i != p ensures Link(r, i) {
        assert old(Link(r, i));
        DistinctAt(r, i, p);
        DistinctAt(r, After(i, |r|), After(p, |r|));
      }
      Spliced(r, p + 1, item);
      MembersInserted(this, r, p + 1, item);
      ring := InsertAt(r, p + 1, item);
      place := if place <= p then place else place + 1;
    }

    /** The walk of vListInsert; it ends at the end marker at the latest, because that has the greatest value. */
    method FindPlace(value: nat) returns (walker: Item, ghost p: nat)
      requires Valid() && value <= MAX_DELAY
      ensures p < |ring| && walker == ring[p]
      ensures forall i :: 1 <= i <= p ==> ring[i].value <= value
      ensures p + 1 < |ring| ==> value < ring[p + 1].value
    {
      hide Distinct;
      assert Link(ring, |ring| - 1);
      if value == MAX_DELAY {
        walker, p := end.previous, |ring| - 1;
      } else {
        walker, p := end, 0;
        assert Link(ring, 0);
        while walker.next.value <= value
          invariant p < |ring| && walker == ring[p] && Link(ring, p)
          invariant forall i :: 1 <= i <= p ==> ring[i].value <= value
          decreases |ring| - p
        {
          assert p + 1 < |ring|;
          walker, p := walker.next, p + 1;
          assert Link(ring, p);
        }
      }
    }

    /** The pointer writes of uxListRemove */
    method Unlink(item: Item, ghost k: nat)
      requires Distinct(ring) && Linked(ring) && Members(this, ring) && 1 <= k < |ring| && item == ring[k]
      modifies ring`next, ring`previous
      ensures Linked(RemoveAt(ring, k)) && Distinct(RemoveAt(ring, k))
      ensures Members(this, RemoveAt(ring, k)) && item !in RemoveAt(ring, k)
      ensures item.previous == ring[k - 1]
    {
      hide Linked, RemoveAt, Distinct, Members;
      ghost var r := ring;
      MembersRemoved(this, r, k);
      forall i | 0 <= i < |r| ensures Link(r, i) { LinkAt(r, i); }
      assert Link(r, k - 1) && Link(r, k);
      DistinctAt(r, k - 1, k);
      if After(k, |r|) != k { DistinctAt(r, After(k, |r|), k); }
      item.next.previous := item.previous;
      item.previous.next := item.next;
      forall i | 0 <= i < |r| && i != k - 1 && i != k ensures Link(r, i) {
        assert old(Link(r, i));
        DistinctAt(r, i, k - 1);
        DistinctAt(r, After(i, |r|), After(k, |r|));
      }
      Unspliced(r, k);
    }

    /** uxListRemove, of the item at place k */
    method Remove(item: Item, ghost k: nat) returns (left: nat)
      requires Valid() && 1 <= k < |ring| && item == ring[k]
      modifies this, item`container, ring`next, ring`previous
      ensures Valid() && item.container == null
      ensures ring == RemoveAt(old(ring), k) && left == |ring| - 1
      ensures place == if k <= old(place) then old(place) - 1 else old(place)
      ensures Schedule() == Drop(old(Schedule()), item)
    {
      hide Linked, RemoveAt, Distinct, Members, Drop, Upcoming;
      ghost var r := ring;
      DistinctAt(r, 0, k);
      if place != k { DistinctAt(r, place, k); }
      RemovedAt(r, k, place);
      RemoveKeepsOrder(r, place, k);
      Unlink(item, k);
      if index == item {
        index := item.previous;
      }
      item.container := null;
      number := number - 1;
      ring := RemoveAt(r, k);
      place := if k <= place then place - 1 else place;
      left := number;
    }

    /** listGET_OWNER_OF_NEXT_ENTRY */
    method OwnerOfNextEntry() returns (owner: nat)
      requires Valid() && number > 0
      modifies this`index, this`place
      ensures Valid() && old(Schedule()) != [] && owner == old(Schedule())[0].owner
      ensures Schedule() == Rotate(old(Schedule()))
    {
      hide Distinct, Upcoming, Rotate, Members;
      NextRotates(ring, place);
      assert Link(ring, place) && Link(ring, 0);
      if After(place, |ring|) != 0 { DistinctAt(ring, After(place, |ring|), 0); }
      index := index.next;
      if index == end {
        index := end.next;
      }
      place := NextIndex(place, |ring|);
      owner := index.owner;
    }
  }
}
