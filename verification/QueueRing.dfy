/** The byte storage of a queue: a ring of fixed-size items that refines a bounded double-ended queue. */
module QueueRing {
  import opened Arithmetic
  import opened Common
  import opened Rings

  /** The first byte of slot i. */
  function Offset(i: nat, size: nat): nat {
    i * size
  }

  function Slot(storage: seq<Byte>, i: nat, size: nat): seq<Byte> {
    if Offset(i, size) + size <= |storage| then storage[Offset(i, size)..Offset(i, size) + size] else []
  }

  /** memcpy of an item into storage */
  function Replace(storage: seq<Byte>, at: nat, item: seq<Byte>): seq<Byte>
    requires at + |item| <= |storage|
  {
    storage[..at] + item + storage[at + |item|..]
  }

  lemma ReplaceHere(storage: seq<Byte>, at: nat, item: seq<Byte>)
    requires at + |item| <= |storage|
    ensures |Replace(storage, at, item)| == |storage|
    ensures Replace(storage, at, item)[at..at + |item|] == item
  {
  }

  lemma ReplaceElsewhere(storage: seq<Byte>, at: nat, item: seq<Byte>, from: nat, to: nat)
    requires at + |item| <= |storage| && from <= to <= |storage| && (to <= at || at + |item| <= from)
    ensures |Replace(storage, at, item)| == |storage|
    ensures Replace(storage, at, item)[from..to] == storage[from..to]
  {
    var after := Replace(storage, at, item);
    if to <= at {
      assert after[..at] == storage[..at];
      assert after[from..to] == after[..at][from..to];
    } else {
      assert forall i :: at + |item| <= i < |storage| ==> after[i] == storage[i];
    }
  }

  lemma ReplaceNone(storage: seq<Byte>, at: nat)
    requires at <= |storage|
    ensures Replace(storage, at, []) == storage
  {
  }

  lemma ReplaceOne(storage: seq<Byte>, at: nat, item: seq<Byte>, i: nat)
    requires at + |item| <= |storage| && i < |item|
    ensures |Replace(storage, at, item[..i])| == |storage|
    ensures Replace(storage, at, item[..i])[at + i := item[i]] == Replace(storage, at, item[..i + 1])
  {
  }

  /** With pcReadFrom at slot r, the items are those in the slots after it, oldest first. */
  ghost predicate Holds(storage: seq<Byte>, length: nat, size: nat, r: nat, items: seq<seq<Byte>>) {
    && 0 < length && |storage| == Offset(length, size) && |items| <= length && r < length
    && forall k :: 0 <= k < |items| ==> Slot(storage, Pos(r + 1 + k, length), size) == items[k]
  }

  lemma OffsetStep(i: nat, size: nat)
    ensures Offset(i + 1, size) == Offset(i, size) + size && Offset(0, size) == 0
  {
    Distribute(i, size);
  }

  lemma OffsetApart(i: nat, j: nat, size: nat)
    requires i < j
    ensures Offset(i, size) + size <= Offset(j, size)
  {
    MulMonotone(i, j, size);
  }

  /** Replacing one slot. */
  lemma ReplaceSlot(storage: seq<Byte>, length: nat, size: nat, i: nat, item: seq<Byte>)
    requires |storage| == Offset(length, size) && i < length && |item| == size
    ensures Offset(i, size) + size <= |storage|
    ensures var after := Replace(storage, Offset(i, size), item);
      && |after| == |storage| && Slot(after, i, size) == item
      && forall j :: 0 <= j < length && j != i ==> Slot(after, j, size) == Slot(storage, j, size)
  {
    hide Offset, Replace;
    OffsetApart(i, length, size);
    var at := Offset(i, size);
    var after := Replace(storage, at, item);
    ReplaceHere(storage, at, item);
    forall j | 0 <= j < length && j != i ensures Slot(after, j, size) == Slot(storage, j, size) {
      OffsetApart(j, length, size);
      var b := Offset(j, size);
      if j < i { OffsetApart(j, i, size); } else { OffsetApart(i, j, size); }
      ReplaceElsewhere(storage, at, item, b, b + size);
    }
  }

  /** The slot after the newest item takes the next one, and no item in the queue is touched. */
  lemma PutBack(storage: seq<Byte>, length: nat, size: nat, r: nat, items: seq<seq<Byte>>, item: seq<Byte>)
    requires Holds(storage, length, size, r, items) && |items| < length && |item| == size
    ensures var w := Pos(r + 1 + |items|, length);
      && w < length && Offset(w, size) + size <= |storage|
      && Holds(Replace(storage, Offset(w, size), item), length, size, r, items + [item])
  {
    hide Pos, Offset, Slot, Replace;
    var w := Pos(r + 1 + |items|, length);
    PosStep(r + 1 + |items|, 0, length);
    ReplaceSlot(storage, length, size, w, item);
    var after, more := Replace(storage, Offset(w, size), item), items + [item];
    forall k | 0 <= k < |more| ensures Slot(after, Pos(r + 1 + k, length), size) == more[k] {
      PosStep(r + 1 + k, 0, length);
      if k < |items| { PosDistinct(r + 1 + k, r + 1 + |items|, length); }
    }
  }

  /** Stepping pcReadFrom back one slot and forward again. */
  lemma BackAndForth(r: nat, k: nat, length: nat)
    requires r < length
    ensures var p := if r == 0 then length - 1 else r - 1;
      Pos(p + 1 + 0, length) == r && Pos(p + 1 + (k + 1), length) == Pos(r + 1 + k, length)
  {
    hide Pos;
    var p := if r == 0 then length - 1 else r - 1;
    PosChunks(p + 1, length);
    if r == 0 {
      PosStep(1 + k, length, length);
      PosStep(1 + k, 0, length);
      assert p + 1 + (k + 1) == 1 + k + length;
    } else {
      assert p + 1 + (k + 1) == r + 1 + k;
    }
  }

  /** The slot at pcReadFrom takes an item that goes in front. */
  lemma PutFront(storage: seq<Byte>, length: nat, size: nat, r: nat, items: seq<seq<Byte>>, item: seq<Byte>)
    requires Holds(storage, length, size, r, items) && |items| < length && |item| == size
    ensures Offset(r, size) + size <= |storage|
    ensures Holds(Replace(storage, Offset(r, size), item), length, size, if r == 0 then length - 1 else r - 1,
                  [item] + items)
  {
    hide Pos, Offset, Slot, Replace;
    var p := if r == 0 then length - 1 else r - 1;
    ReplaceSlot(storage, length, size, r, item);
    var after := Replace(storage, Offset(r, size), item);
    forall k | 0 <= k < |items| ensures Slot(after, Pos(r + 1 + k, length), size) == items[k] {
      PosChunks(r, length);
      PosDistinct(r, r + 1 + k, length);
      PosStep(r + 1 + k, 0, length);
    }
    forall k | 0 <= k < |items| + 1 ensures Slot(after, Pos(p + 1 + k, length), size) == ([item] + items)[k] {
      BackAndForth(r, if k == 0 then 0 else k - 1, length);
      assert k > 0 ==> p + 1 + k == p + 1 + ((k - 1) + 1);
    }
  }

  /** pcReadFrom moves to the slot of the oldest item, and the rest of the items follow it. */
  lemma TakeFront(storage: seq<Byte>, length: nat, size: nat, r: nat, items: seq<seq<Byte>>)
    requires Holds(storage, length, size, r, items) && items != []
    ensures var n := Pos(r + 1, length);
      n < length && Slot(storage, n, size) == items[0] && Holds(storage, length, size, n, items[1..])
  {
    hide Pos, Offset, Slot;
    var n := Pos(r + 1, length);
    PosStep(r + 1, 0, length);
    assert Pos(r + 1 + 0, length) == n;
    var rest := items[1..];
    forall k | 0 <= k < |rest| ensures Slot(storage, Pos(n + 1 + k, length), size) == rest[k] {
      PosStep(r + 1, 1 + k, length);
      assert r + 1 + (k + 1) == r + 1 + (1 + k) && n + 1 + k == n + (1 + k);
      assert rest[k] == items[k + 1];
    }
  }

  /** Moving a byte pointer on by one slot, with the wrap at pcTail. */
  lemma NextOffset(i: nat, length: nat, size: nat)
    requires i < length
    ensures Offset(i, size) + size == Offset(i + 1, size)
    ensures size > 0 ==> (Offset(i, size) + size >= Offset(length, size) <==> i + 1 == length)
    ensures Pos(i + 1, length) == if i + 1 == length then 0 else i + 1
  {
    hide Offset, Pos;
    OffsetStep(i, size);
    PosChunks(i + 1, length);
    if i + 1 < length { OffsetApart(i + 1, length, size); }
  }

  lemma PreviousOffset(i: nat, length: nat, size: nat)
    requires i < length && size > 0
    ensures Offset(i, size) < size <==> i == 0
    ensures Offset(if i == 0 then length - 1 else i - 1, size) ==
      if i == 0 then Offset(length, size) - size else Offset(i, size) - size
  {
    hide Offset;
    OffsetStep(0, size);
    if i == 0 {
      OffsetStep(length - 1, size);
    } else {
      OffsetStep(i - 1, size);
      OffsetApart(0, i, size);
    }
  }

  /** Items of size 0, as in a semaphore, take no storage. */
  lemma NoStorage(storage: seq<Byte>, length: nat, r: nat, items: seq<seq<Byte>>)
    requires 0 < length && r < length && |items| <= length && storage == []
    requires forall x :: x in items ==> |x| == 0
    ensures Holds(storage, length, 0, r, items) && forall i :: Offset(i, 0) == 0
  {
    forall i ensures Offset(i, 0) == 0 && Slot(storage, i, 0) == [] {
    }
    forall k | 0 <= k < |items| ensures items[k] == [] {
      assert items[k] in items;
    }
  }

  lemma OnePlace(i: nat)
    ensures Pos(i, 1) == 0
  {
  }

  datatype Position = Back | Front | Overwrite

  /** What a send makes of the items: the deque the ring refines. */
  function Sent(items: seq<seq<Byte>>, item: seq<Byte>, position: Position): seq<seq<Byte>> {
    match position
    case Back => items + [item]
    case Front => [item] + items
    case Overwrite => [item]
  }

  /** uxMessagesWaiting after a send that is let through: the branch that keeps the count when overwriting is not reached
      for items of size 0. */
  function NewCount(count: nat, size: nat, position: Position): nat {
    if size > 0 && position.Overwrite? && count > 0 then count else count + 1
  }

  /** So the count agrees with the items, or even with the length, if and only if the send does not overwrite a full
      queue of items of size 0. */
  lemma CountBoundedIff(items: seq<seq<Byte>>, item: seq<Byte>, length: nat, size: nat, position: Position)
    requires |items| <= length && (position.Overwrite? ==> length == 1) && (|items| < length || position.Overwrite?)
    ensures var bad := size == 0 && position.Overwrite? && |items| == length;
      && (NewCount(|items|, size, position) <= length <==> !bad)
      && (NewCount(|items|, size, position) == |Sent(items, item, position)| <==> !bad)
  {
  }

  /** All that holds of a queue between calls: the storage holds the items, and the write position is one item more than
      the count past the read position, around the ring. */
  ghost predicate Ring(storage: seq<Byte>, length: nat, size: nat, writeTo: nat, readFrom: nat, count: nat, slot: nat,
                       items: seq<seq<Byte>>)
  {
    && count == |items|
    && Holds(storage, length, size, slot, items)
    && readFrom == Offset(slot, size)
    && writeTo == Offset(Pos(slot + 1 + count, length), size)
    && forall x :: x in items ==> |x| == size
  }

  lemma RingBounds(storage: seq<Byte>, length: nat, size: nat, writeTo: nat, readFrom: nat, count: nat, slot: nat,
                   items: seq<seq<Byte>>)
    requires Ring(storage, length, size, writeTo, readFrom, count, slot, items)
    ensures |storage| == length * size && slot < length && |items| <= length && count == |items|
    ensures size == 0 ==> storage == []
    ensures forall x :: x in items ==> |x| == size
  {
    hide Pos, Slot;
  }

  lemma WrongCount(storage: seq<Byte>, length: nat, size: nat, writeTo: nat, readFrom: nat, count: nat, slot: nat,
                   items: seq<seq<Byte>>)
    requires count != |items|
    ensures !Ring(storage, length, size, writeTo, readFrom, count, slot, items)
  {
    hide Holds;
  }

  lemma RingSendBack(storage: seq<Byte>, length: nat, size: nat, writeTo: nat, readFrom: nat, count: nat, slot: nat,
                     items: seq<seq<Byte>>, item: seq<Byte>)
    requires Ring(storage, length, size, writeTo, readFrom, count, slot, items)
    requires count < length && |item| == size > 0
    ensures writeTo + size <= |storage|
    ensures Ring(Replace(storage, writeTo, item), length, size,
                 if writeTo + size >= |storage| then 0 else writeTo + size, readFrom, count + 1, slot, items + [item])
  {
    hide Pos, Offset, Slot, Replace;
    PutBack(storage, length, size, slot, items, item);
    NextOffset(Pos(slot + 1 + count, length), length, size);
    PosStep(slot + 1 + count, 1, length);
    assert slot + 1 + (count + 1) == slot + 1 + count + 1;
    OffsetStep(0, size);
  }

  lemma RingSendFront(storage: seq<Byte>, length: nat, size: nat, writeTo: nat, readFrom: nat, count: nat, slot: nat,
                      items: seq<seq<Byte>>, item: seq<Byte>)
    requires Ring(storage, length, size, writeTo, readFrom, count, slot, items)
    requires count < length && |item| == size > 0
    ensures readFrom + size <= |storage|
    ensures Ring(Replace(storage, readFrom, item), length, size, writeTo,
                 if readFrom < size then |storage| - size else readFrom - size, count + 1,
                 if slot == 0 then length - 1 else slot - 1, [item] + items)
  {
    hide Pos, Offset, Slot, Replace;
    PutFront(storage, length, size, slot, items, item);
    PreviousOffset(slot, length, size);
    BackAndForth(slot, count, length);
  }

  /** A queue of one item can be emptied without moving anything, which is why overwriting works. */
  lemma RingForget(storage: seq<Byte>, size: nat, writeTo: nat, readFrom: nat, count: nat, slot: nat,
                   items: seq<seq<Byte>>)
    requires Ring(storage, 1, size, writeTo, readFrom, count, slot, items)
    ensures Ring(storage, 1, size, writeTo, readFrom, 0, slot, [])
  {
    hide Offset, Slot;
    OnePlace(slot + 1 + count);
    OnePlace(slot + 1 + 0);
  }

  lemma RingNoStorage(storage: seq<Byte>, length: nat, writeTo: nat, readFrom: nat, count: nat, slot: nat,
                      items: seq<seq<Byte>>, after: seq<seq<Byte>>)
    requires Ring(storage, length, 0, writeTo, readFrom, count, slot, items)
    requires |after| <= length && forall x :: x in after ==> |x| == 0
    ensures Ring(storage, length, 0, writeTo, readFrom, |after|, slot, after)
  {
    hide Pos, Slot;
    NoStorage(storage, length, slot, after);
  }

  /** The read position after the oldest item has been looked at. */
  function Onward(readFrom: nat, size: nat, end: nat): nat {
    if size == 0 then readFrom else if readFrom + size >= end then 0 else readFrom + size
  }

  lemma OnwardIsNext(slot: nat, length: nat, size: nat)
    requires slot < length
    ensures Onward(Offset(slot, size), size, Offset(length, size)) == Offset(Pos(slot + 1, length), size)
  {
    hide Offset, Pos;
    NextOffset(slot, length, size);
    OffsetStep(0, size);
    if size == 0 { NoOffset(slot); NoOffset(Pos(slot + 1, length)); }
  }

  lemma NoOffset(i: nat)
    ensures Offset(i, 0) == 0
  {
  }

  lemma SlotIs(storage: seq<Byte>, i: nat, length: nat, size: nat)
    requires i < length && |storage| == Offset(length, size)
    ensures Offset(i, size) + size <= |storage|
    ensures Slot(storage, i, size) == storage[Offset(i, size)..Offset(i, size) + size]
  {
    hide Offset;
    OffsetApart(i, length, size);
  }

  lemma RingReceive(storage: seq<Byte>, length: nat, size: nat, writeTo: nat, readFrom: nat, count: nat, slot: nat,
                    items: seq<seq<Byte>>)
    requires Ring(storage, length, size, writeTo, readFrom, count, slot, items) && count > 0
    ensures var at := Onward(readFrom, size, |storage|);
      && at + size <= |storage| && storage[at..at + size] == items[0]
      && 0 < length && Ring(storage, length, size, writeTo, at, count - 1, Pos(slot + 1, length), items[1..])
  {
    hide Pos, Offset, Slot, Onward;
    var n := Pos(slot + 1, length);
    TakeFront(storage, length, size, slot, items);
    OnwardIsNext(slot, length, size);
    SlotIs(storage, n, length, size);
    PosStep(slot + 1, count, length);
    assert n + 1 + (count - 1) == n + count;
  }

  class Queue {
    var storage: array<Byte>
    const length: nat
    const size: nat
    var writeTo: nat
    var readFrom: nat
    var count: nat
    ghost var slot: nat                // the slot readFrom points to
    ghost var items: seq<seq<Byte>>

    ghost predicate Valid()
      reads this, storage
    {
      Ring(storage[..], length, size, writeTo, readFrom, count, slot, items)
    }

    /** xQueueGenericReset on a new queue */
    constructor (n: nat, itemSize: nat)
      requires n >= 1
      ensures Valid() && fresh(storage) && items == [] && length == n && size == itemSize
    {
      length, size := n, itemSize;
      storage := new Byte[n * itemSize](_ => 0);
      count, writeTo, readFrom := 0, 0, (n - 1) * itemSize;
      slot, items := n - 1, [];
      new;
      assert slot + 1 + count == length;
      PosChunks(length, length);
    }

    method CopyIn(at: nat, item: seq<Byte>)
      requires at + |item| <= storage.Length
      modifies storage
      ensures storage[..] == Replace(old(storage[..]), at, item)
    {
      hide Replace;
      ghost var was := storage[..];
      var i := 0;
      ReplaceNone(was, at);
      while i < |item|
        invariant 0 <= i <= |item|
        invariant storage[..] == Replace(was, at, item[..i])
      {
        ReplaceOne(was, at, item, i);
        storage[at + i] := item[i];
        i := i + 1;
      }
      assert item[..|item|] == item;
    }

    /** The critical section of xQueueGenericSend with prvCopyDataToQueue */
    method Send(item: seq<Byte>, position: Position) returns (ok: bool)
      requires Valid() && |item| == size
      requires position.Overwrite? ==> length == 1
      modifies this, storage
      ensures storage == old(storage)
      ensures Valid() <==> !(size == 0 && position.Overwrite? && old(count) == length)
      ensures ok <==> |old(items)| < length || position.Overwrite?
      ensures items == if ok then Sent(old(items), item, position) else old(items)
      ensures count == if ok then NewCount(old(count), size, position) else old(count)
    {
      hide Ring, Replace;
      RingBounds(storage[..], length, size, writeTo, readFrom, count, slot, items);
      ok := count < length || position.Overwrite?;
      if ok {
        var waiting := count;
        if size == 0 {
          if position.Overwrite? && count == length {
            WrongCount(storage[..], length, size, writeTo, readFrom, count + 1, slot, Sent(items, item, position));
          } else {
            RingNoStorage(storage[..], length, writeTo, readFrom, count, slot, items, Sent(items, item, position));
          }
        } else if position.Back? {
          RingSendBack(storage[..], length, size, writeTo, readFrom, count, slot, items, item);
          CopyIn(writeTo, item);
          writeTo := writeTo + size;
          if writeTo >= length * size {
            writeTo := 0;
          }
        } else {
          if position.Overwrite? {
            RingForget(storage[..], size, writeTo, readFrom, count, slot, items);
            RingSendFront(storage[..], length, size, writeTo, readFrom, 0, slot, [], item);
            assert [item] + [] == Sent(items, item, position);
          } else {
            RingSendFront(storage[..], length, size, writeTo, readFrom, count, slot, items, item);
          }
          CopyIn(readFrom, item);
          if readFrom < size {
            readFrom := length * size - size;
          } else {
            readFrom := readFrom - size;
          }
          slot := if slot == 0 then length - 1 else slot - 1;
          if position.Overwrite? {
            if waiting > 0 {
              waiting := waiting - 1;
            }
          }
        }
        items := Sent(items, item, position);
        count := waiting + 1;
      }
    }

    method CopyOut(at: nat) returns (item: seq<Byte>)
      requires at + size <= storage.Length
      ensures item == storage[at..at + size]
    {
      item := [];
      while |item| < size
        invariant |item| <= size && item == storage[at..at + |item|]
      {
        item := item + [storage[at + |item|]];
      }
    }

    /** prvCopyDataFromQueue */
    method CopyDataFromQueue() returns (item: seq<Byte>)
      requires Valid() && count > 0
      modifies this`readFrom
      ensures readFrom == Onward(old(readFrom), size, storage.Length)
      ensures items != [] && item == items[0]
    {
      hide Ring;
      RingBounds(storage[..], length, size, writeTo, readFrom, count, slot, items);
      RingReceive(storage[..], length, size, writeTo, readFrom, count, slot, items);
      item := [];
      if size != 0 {
        readFrom := readFrom + size;
        if readFrom >= length * size {
          readFrom := 0;
        }
        item := CopyOut(readFrom);
      }
    }

    /** The critical section of xQueueReceive */
    method Receive() returns (r: Option<seq<Byte>>)
      requires Valid()
      modifies this
      ensures Valid() && storage == old(storage)
      ensures r == if old(items) == [] then None else Some(old(items)[0])
      ensures items == if old(items) == [] then [] else old(items)[1..]
    {
      hide Ring, Pos;
      RingBounds(storage[..], length, size, writeTo, readFrom, count, slot, items);
      r := None;
      if count > 0 {
        RingReceive(storage[..], length, size, writeTo, readFrom, count, slot, items);
        var item := CopyDataFromQueue();
        slot := Pos(slot + 1, length);
        items := items[1..];
        count := count - 1;
        r := Some(item);
      }
    }

    /** The critical section of xQueuePeek */
    method Peek() returns (r: Option<seq<Byte>>)
      requires Valid()
      modifies this
      ensures Valid() && storage == old(storage)
      ensures r == if items == [] then None else Some(items[0])
      ensures items == old(items) && count == old(count) && writeTo == old(writeTo) && readFrom == old(readFrom)
    {
      hide Ring;
      RingBounds(storage[..], length, size, writeTo, readFrom, count, slot, items);
      r := None;
      if count > 0 {
        var original := readFrom;
        var item := CopyDataFromQueue();
        readFrom := original;
        r := Some(item);
      }
    }
  }

  /** An instance: a queue of length 1 for items of size 0 holds two after it was sent to and then overwritten. */
  method OverwriteSemaphore() returns (q: Queue)
    ensures fresh(q) && q.length == 1 && q.size == 0 && q.count == 2 && !q.Valid()
  {
    q := new Queue(1, 0);
    var _ := q.Send([], Back);
    assert q.items == [[]];
    var _ := q.Send([], Overwrite);
  }
}
