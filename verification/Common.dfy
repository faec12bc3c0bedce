/** Sequences without repetition, and the sets they enumerate.  Kernel lists are modelled as sequences. */
module Common {

  datatype Option<+T> = None | Some(value: T)

  type Byte = b: int | 0 <= b < 256

  ghost predicate Distinct<T>(s: seq<T>) {
    forall i, j :: 0 <= i < j < |s| ==> s[i] != s[j]
  }

  function Min(a: int, b: int): int {
    if a < b then a else b
  }

  function SetOf<T(==)>(s: seq<T>): set<T> {
    set x | x in s
  }

  function InsertAt<T>(s: seq<T>, k: nat, x: T): seq<T>
    requires k <= |s|
  {
    s[..k] + [x] + s[k..]
  }

  function RemoveAt<T>(s: seq<T>, k: nat): seq<T>
    requires k < |s|
  {
    s[..k] + s[k + 1..]
  }

  lemma InsertAtStep<T>(s: seq<T>, k: nat, x: T)
    requires k <= |s|
    ensures k == 0 ==> InsertAt(s, k, x) == [x] + s
    ensures k > 0 ==> InsertAt(s, k, x) == [s[0]] + InsertAt(s[1..], k - 1, x)
  {
  }

  /** A list without repetition drawn from a finite set is no longer than the set. */
  lemma {:induction false} DistinctBound<T>(s: seq<T>, all: set<T>)
    requires Distinct(s)
    requires forall x :: x in s ==> x in all
    ensures |s| <= |all|
    decreases |s|
  {
    if s != [] {
      var rest := s[1..];
      assert forall x :: x in rest ==> x in s;
      assert s[0] !in rest;
      DistinctBound(rest, all - {s[0]});
    }
  }

  lemma TheOnlyOne<T>(held: set<T>, x: T, y: T)
    requires |held| == 1 && x in held && y in held
    ensures x == y
  {
    var rest := held - {x};
    assert |rest| == 0;
    assert y !in rest;
  }

  /** uxListRemove: take one occurrence of x off the list. */
  function Drop<T(==)>(s: seq<T>, x: T): seq<T> {
    if s == [] then [] else if s[0] == x then s[1..] else [s[0]] + Drop(s[1..], x)
  }

  lemma {:induction false} DropKeeps<T>(s: seq<T>, x: T)
    requires Distinct(s) && x in s
    ensures Distinct(Drop(s, x)) && |Drop(s, x)| == |s| - 1
    ensures forall y :: y in Drop(s, x) <==> y in s && y != x
  {
    if s[0] != x {
      DropKeeps(s[1..], x);
      assert s[0] !in s[1..];
      assert Drop(s, x)[1..] == Drop(s[1..], x);
    }
  }

  lemma {:induction false} DropMultiset<T>(s: seq<T>, x: T)
    ensures multiset(Drop(s, x)) == multiset(s) - multiset{x}
  {
    if s != [] {
      assert s == [s[0]] + s[1..];
      if s[0] != x { DropMultiset(s[1..], x); }
    }
  }

  /** All items of a family of lists, such as the ready lists of every priority. */
  function Items<T>(lists: seq<seq<T>>): multiset<T> {
    if lists == [] then multiset{} else multiset(lists[0]) + Items(lists[1..])
  }

  /** Take x off whichever list of the family holds it. */
  function DropAll<T(==)>(lists: seq<seq<T>>, x: T): seq<seq<T>> {
    if lists == [] then [] else [Drop(lists[0], x)] + DropAll(lists[1..], x)
  }

  /** Removing the only occurrence from a sum removes it from the summand that has it. */
  lemma MinusOnce<T>(a: multiset<T>, b: multiset<T>, x: T)
    requires (a + b)[x] <= 1
    ensures (a - multiset{x}) + (b - multiset{x}) == a + b - multiset{x}
  {
  }

  lemma MinusHead<T>(a: multiset<T>, s: seq<T>)
    requires s != []
    ensures (a - multiset{s[0]}) - multiset(s[1..]) == a - multiset(s)
    ensures (a + multiset{s[0]}) + multiset(s[1..]) == a + multiset(s)
  {
    assert s == [s[0]] + s[1..];
  }

  lemma {:induction false} DropAllItems<T>(lists: seq<seq<T>>, x: T)
    requires Items(lists)[x] <= 1
    ensures Items(DropAll(lists, x)) == Items(lists) - multiset{x}
  {
    if lists != [] {
      DropMultiset(lists[0], x);
      DropAllItems(lists[1..], x);
      MinusOnce(multiset(lists[0]), Items(lists[1..]), x);
    }
  }

  lemma {:induction false} DropMembers<T>(s: seq<T>, x: T)
    ensures forall y :: y in Drop(s, x) ==> y in s
  {
    if s != [] && s[0] != x {
      DropMembers(s[1..], x);
    }
  }

  lemma {:induction false} DropAllMembers<T>(lists: seq<seq<T>>, x: T)
    ensures |DropAll(lists, x)| == |lists|
    ensures forall i, y :: 0 <= i < |lists| && y in DropAll(lists, x)[i] ==> y in lists[i]
  {
    if lists != [] {
      DropMembers(lists[0], x);
      DropAllMembers(lists[1..], x);
    }
  }

  /** Replacing one list of the family by another with one more item. */
  lemma {:induction false} GrowItems<T>(lists: seq<seq<T>>, i: nat, l: seq<T>, x: T)
    requires i < |lists| && multiset(l) == multiset(lists[i]) + multiset{x}
    ensures Items(lists[i := l]) == Items(lists) + multiset{x}
  {
    var after := lists[i := l];
    if i == 0 {
      assert after[1..] == lists[1..];
    } else {
      assert after[1..] == lists[1..][i - 1 := l];
      GrowItems(lists[1..], i - 1, l, x);
    }
  }

  lemma AppendItems<T>(lists: seq<seq<T>>, i: nat, x: T)
    requires i < |lists|
    ensures Items(lists[i := lists[i] + [x]]) == Items(lists) + multiset{x}
  {
    GrowItems(lists, i, lists[i] + [x], x);
  }

  lemma InsertItems<T>(lists: seq<seq<T>>, i: nat, at: nat, x: T)
    requires i < |lists| && at <= |lists[i]|
    ensures Items(lists[i := lists[i][..at] + [x] + lists[i][at..]]) == Items(lists) + multiset{x}
  {
    assert lists[i] == lists[i][..at] + lists[i][at..];
    GrowItems(lists, i, lists[i][..at] + [x] + lists[i][at..], x);
  }

  lemma TailItems<T>(lists: seq<seq<T>>, i: nat)
    requires i < |lists| && lists[i] != []
    ensures Items(lists) == Items(lists[i := lists[i][1..]]) + multiset{lists[i][0]}
  {
    var after := lists[i := lists[i][1..]];
    assert lists[i] == [lists[i][0]] + lists[i][1..];
    GrowItems(after, i, lists[i], lists[i][0]);
    assert after[i := lists[i]] == lists;
  }

  lemma {:induction false} InItems<T>(lists: seq<seq<T>>, i: nat, x: T)
    requires i < |lists| && x in lists[i]
    ensures x in Items(lists)
  {
    if i > 0 { InItems(lists[1..], i - 1, x); }
  }
}
