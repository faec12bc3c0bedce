/**
 The order in which listGET_OWNER_OF_NEXT_ENTRY visits a circular list.  A ring is the end marker followed by the items;
 `index` is the place of pxIndex on it.
 */
module RoundRobin {
  import opened Common

  /** The items of the ring in the order they will be visited: on from the index, past the end marker, and round to the
      index itself. */
  function Upcoming<T>(ring: seq<T>, index: nat): (u: seq<T>)
    requires index < |ring|
    ensures |u| == |ring| - 1
  {
    ring[index + 1..] + ring[1..index + 1]
  }

  /** Where vListInsertEnd puts an item: just before the index, or at the very end if the index is the end marker. */
  function EndPlace<T>(ring: seq<T>, index: nat): nat {
    if index == 0 then |ring| else index
  }

  /** The new item comes after every other, except the item at the index, which was visited last. */
  lemma InsertEndIsLast<T>(ring: seq<T>, index: nat, x: T)
    requires index < |ring| && x !in ring
    ensures var u, v := Upcoming(ring, index),
                        Upcoming(InsertAt(ring, EndPlace(ring, index), x), if index == 0 then 0 else index + 1);
      && (index == 0 ==> v == u + [x])
      && (index > 0 ==> u != [] && u[|u| - 1] == ring[index] && v == u[..|u| - 1] + [x] + [ring[index]])
      && Drop(v, x) == u
  {
    var u := Upcoming(ring, index);
    var after := InsertAt(ring, EndPlace(ring, index), x);
    forall y | y in u ensures y in ring { }
    if index == 0 {
      assert after[1..] == ring[1..] + [x];
      DropAt(u, [], x);
      assert u + [x] + [] == u + [x];
    } else {
      assert after[index + 2..] == ring[index + 1..];
      assert after[1..index + 2] == ring[1..index] + [x] + [ring[index]];
      assert ring[1..index + 1] == ring[1..index] + [ring[index]];
      assert u == u[..|u| - 1] + [ring[index]];
      DropAt(u[..|u| - 1], [ring[index]], x);
    }
  }

  lemma {:induction false} DropAt<T>(a: seq<T>, b: seq<T>, x: T)
    requires x !in a
    ensures Drop(a + [x] + b, x) == a + b
    decreases |a|
  {
    var s := a + [x] + b;
    if a == [] {
      assert s[1..] == b;
    } else {
      assert s[1..] == a[1..] + [x] + b;
      DropAt(a[1..], b, x);
    }
  }

  lemma RemoveBehind<T>(ring: seq<T>, index: nat, k: nat)
    requires index < |ring| && 1 <= k <= index && Distinct(ring)
    ensures Upcoming(RemoveAt(ring, k), index - 1) == Drop(Upcoming(ring, index), ring[k])
  {
    hide Drop;
    var x, after := ring[k], RemoveAt(ring, k);
    assert after[index..] == ring[index + 1..];
    assert after[1..index] == ring[1..k] + ring[k + 1..index + 1];
    var a := ring[index + 1..] + ring[1..k];
    assert Upcoming(ring, index) == a + [x] + ring[k + 1..index + 1];
    DropAt(a, ring[k + 1..index + 1], x);
  }

  lemma RemoveBeyond<T>(ring: seq<T>, index: nat, k: nat)
    requires index < k < |ring| && Distinct(ring)
    ensures Upcoming(RemoveAt(ring, k), index) == Drop(Upcoming(ring, index), ring[k])
  {
    hide Drop;
    var x, after := ring[k], RemoveAt(ring, k);
    assert after[index + 1..] == ring[index + 1..k] + ring[k + 1..];
    assert after[1..index + 1] == ring[1..index + 1];
    var b := ring[k + 1..] + ring[1..index + 1];
    assert Upcoming(ring, index) == ring[index + 1..k] + [x] + b;
    DropAt(ring[index + 1..k], b, x);
  }

  /** Removing an item keeps the order of the others, and an index on the item steps back. */
  lemma RemoveKeepsOrder<T>(ring: seq<T>, index: nat, k: nat)
    requires index < |ring| && 1 <= k < |ring| && Distinct(ring)
    ensures Upcoming(RemoveAt(ring, k), if k <= index then index - 1 else index) == Drop(Upcoming(ring, index), ring[k])
  {
    hide Drop, Upcoming;
    if k <= index { RemoveBehind(ring, index, k); } else { RemoveBeyond(ring, index, k); }
  }

  /** The index after listGET_OWNER_OF_NEXT_ENTRY. */
  function NextIndex(index: nat, n: nat): nat {
    if index + 1 == n then 1 else index + 1
  }

  function Rotate<T>(u: seq<T>): seq<T> {
    if u == [] then [] else u[1..] + [u[0]]
  }

  lemma NextRotates<T>(ring: seq<T>, index: nat)
    requires index < |ring| && |ring| > 1
    ensures var n := NextIndex(index, |ring|);
      n < |ring| && ring[n] == Upcoming(ring, index)[0] && Upcoming(ring, n) == Rotate(Upcoming(ring, index))
  {
    var n := NextIndex(index, |ring|);
    assert ring[1..n + 1] == ring[1..n] + [ring[n]];
  }

  /** The tasks visited by n steps over a list that does not change. */
  function Visits<T>(u: seq<T>, n: nat): seq<T>
    requires u != [] || n == 0
    decreases n
  {
    if n == 0 then [] else [u[0]] + Visits(Rotate(u), n - 1)
  }

  function Rotations<T>(u: seq<T>, n: nat): seq<T>
    decreases n
  {
    if n == 0 then u else Rotations(Rotate(u), n - 1)
  }

  lemma RotatedSlices<T>(u: seq<T>, v: seq<T>, n: nat)
    requires 0 < n <= |u| && v == u[1..] + [u[0]]
    ensures |v| == |u| && v[..n - 1] == u[1..n] && v[n - 1..] == u[n..] + [u[0]] && u[..n] == [u[0]] + u[1..n]
  {
  }

  lemma {:induction false} VisitsPrefix<T>(u: seq<T>, n: nat)
    requires n <= |u|
    ensures u != [] || n == 0
    ensures Visits(u, n) == u[..n]
    decreases n
  {
    hide Rotate;
    if n > 0 {
      var v := Rotate(u);
      RotateIs(u);
      RotatedSlices(u, v, n);
      VisitsPrefix(v, n - 1);
    }
  }

  lemma {:induction false} RotationsSplit<T>(u: seq<T>, n: nat)
    requires n <= |u|
    ensures Rotations(u, n) == u[n..] + u[..n]
    decreases n
  {
    hide Rotate;
    if n == 0 {
      assert u == u[0..] + u[..0];
    } else {
      var v := Rotate(u);
      RotateIs(u);
      RotatedSlices(u, v, n);
      RotationsSplit(v, n - 1);
      Regroup(u[n..], u[0], u[1..n]);
    }
  }

  lemma RotateIs<T>(u: seq<T>)
    requires u != []
    ensures Rotate(u) == u[1..] + [u[0]]
  {
  }

  lemma Regroup<T>(a: seq<T>, x: T, b: seq<T>)
    ensures (a + [x]) + b == a + ([x] + b)
  {
  }

  /** n steps over n items visit each exactly once and come back to the same order. */
  lemma FairShare<T>(u: seq<T>)
    ensures Visits(u, |u|) == u && Rotations(u, |u|) == u
  {
    VisitsPrefix(u, |u|);
    RotationsSplit(u, |u|);
    assert u[..|u|] == u;
  }
}
