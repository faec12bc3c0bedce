/** Lists of items sorted by a time, as list.c keeps them: the delayed task lists and the active timer lists. */
module TimedLists {
  import opened Common
  import opened Clock

  /** The task or timer an item belongs to. */
  type Owner = nat

  /** xItemValue and pvOwner of a list item. */
  datatype ListItem = ListItem(value: nat, owner: Owner)

  /** vListInsert: after every item whose value is no greater. */
  function Insert(es: seq<ListItem>, e: ListItem): seq<ListItem> {
    if es == [] || e.value < es[0].value then [e] + es else [es[0]] + Insert(es[1..], e)
  }

  function Owners(es: seq<ListItem>): seq<Owner> {
    if es == [] then [] else [es[0].owner] + Owners(es[1..])
  }

  function RemoveOwner(es: seq<ListItem>, t: Owner): seq<ListItem> {
    if es == [] then [] else if es[0].owner == t then es[1..] else [es[0]] + RemoveOwner(es[1..], t)
  }

  function RemoveOwners(es: seq<ListItem>, ts: seq<Owner>): seq<ListItem>
    decreases |ts|
  {
    if ts == [] then es else RemoveOwners(RemoveOwner(es, ts[0]), ts[1..])
  }

  /** The value at the head of the list; portMAX_DELAY, the value of the end marker, if it is empty. */
  function FirstWake(es: seq<ListItem>): nat {
    if es == [] then MAX_DELAY else es[0].value
  }

  predicate Sorted(es: seq<ListItem>) {
    |es| <= 1 || (es[0].value <= es[1].value && Sorted(es[1..]))
  }

  /** Every item belongs to a wait that ends in the given epoch, and not until `after` has passed. */
  ghost predicate Filed(es: seq<ListItem>, due: map<Owner, nat>, after: int, epoch: nat) {
    forall e :: e in es ==>
      && e.owner in due && after < due[e.owner]
      && Epoch(due[e.owner]) == epoch && e.value == Wrap(due[e.owner])
  }

  lemma {:induction false} InsertKeeps(es: seq<ListItem>, e: ListItem)
    requires Sorted(es)
    ensures Sorted(Insert(es, e))
    ensures forall x :: x in Insert(es, e) <==> x in es || x == e
    ensures FirstWake(Insert(es, e)) == if es == [] then e.value else Min(e.value, es[0].value)
  {
    if es != [] && es[0].value <= e.value {
      InsertKeeps(es[1..], e);
      assert Insert(es, e)[1..] == Insert(es[1..], e);
    }
  }

  lemma {:induction false} InsertOwners(es: seq<ListItem>, e: ListItem)
    ensures multiset(Owners(Insert(es, e))) == multiset(Owners(es)) + multiset{e.owner}
  {
    if es != [] && es[0].value <= e.value {
      InsertOwners(es[1..], e);
      assert Insert(es, e)[1..] == Insert(es[1..], e);
    } else {
      assert ([e] + es)[1..] == es;
    }
  }

  lemma {:induction false} RemoveKeeps(es: seq<ListItem>, t: Owner)
    requires Sorted(es)
    ensures Sorted(RemoveOwner(es, t))
    ensures forall x :: x in RemoveOwner(es, t) ==> x in es
    ensures RemoveOwner(es, t) != [] ==> es != [] && es[0].value <= RemoveOwner(es, t)[0].value
  {
    if es != [] && es[0].owner != t {
      RemoveKeeps(es[1..], t);
      assert RemoveOwner(es, t)[1..] == RemoveOwner(es[1..], t);
    }
  }

  lemma {:induction false} RemoveItem(es: seq<ListItem>, t: Owner)
    ensures multiset(Owners(RemoveOwner(es, t))) == multiset(Owners(es)) - multiset{t}
  {
    if es != [] && es[0].owner != t {
      RemoveItem(es[1..], t);
      assert RemoveOwner(es, t)[1..] == RemoveOwner(es[1..], t);
    }
  }

  lemma {:induction false} RemoveAllKeeps(es: seq<ListItem>, ts: seq<Owner>)
    requires Sorted(es)
    ensures Sorted(RemoveOwners(es, ts))
    ensures forall x :: x in RemoveOwners(es, ts) ==> x in es
    ensures RemoveOwners(es, ts) != [] ==> es != [] && es[0].value <= RemoveOwners(es, ts)[0].value
    decreases |ts|
  {
    if ts != [] {
      RemoveKeeps(es, ts[0]);
      RemoveAllKeeps(RemoveOwner(es, ts[0]), ts[1..]);
    }
  }

  lemma {:induction false} RemoveAllItems(es: seq<ListItem>, ts: seq<Owner>)
    ensures multiset(Owners(RemoveOwners(es, ts))) == multiset(Owners(es)) - multiset(ts)
    decreases |ts|
  {
    if ts != [] {
      RemoveItem(es, ts[0]);
      RemoveAllItems(RemoveOwner(es, ts[0]), ts[1..]);
      MinusHead(multiset(Owners(es)), ts);
    }
  }

  lemma {:induction false} RemoveAbsent(es: seq<ListItem>, t: Owner)
    requires t !in Owners(es)
    ensures RemoveOwner(es, t) == es
  {
    if es != [] { RemoveAbsent(es[1..], t); }
  }

  lemma {:induction false} RemoveAllAbsent(es: seq<ListItem>, ts: seq<Owner>)
    requires forall t :: t in ts ==> t !in Owners(es)
    ensures RemoveOwners(es, ts) == es
    decreases |ts|
  {
    if ts != [] {
      RemoveAbsent(es, ts[0]);
      RemoveAllAbsent(es, ts[1..]);
    }
  }

  lemma {:induction false} OwnerOfItem(es: seq<ListItem>, e: ListItem)
    requires e in es
    ensures e.owner in Owners(es)
  {
    if e != es[0] { OwnerOfItem(es[1..], e); }
  }

  lemma {:induction false} ItemOfOwner(es: seq<ListItem>, t: Owner) returns (e: ListItem)
    requires t in Owners(es)
    ensures e in es && e.owner == t
  {
    if es[0].owner == t { e := es[0]; } else { e := ItemOfOwner(es[1..], t); }
  }

  lemma {:induction false} HeadFirst(es: seq<ListItem>, e: ListItem)
    requires Sorted(es) && e in es
    ensures es[0].value <= e.value
  {
    if e != es[0] { HeadFirst(es[1..], e); }
  }

  lemma FiledRemove(es: seq<ListItem>, ts: seq<Owner>, due: map<Owner, nat>, after: int, epoch: nat)
    requires Filed(es, due, after, epoch) && Sorted(es)
    requires forall t :: t in ts ==> multiset(Owners(es))[t] <= 1
    ensures Filed(RemoveOwners(es, ts), due - SetOf(ts), after, epoch) && Sorted(RemoveOwners(es, ts))
  {
    RemoveAllKeeps(es, ts);
    RemoveAllItems(es, ts);
    forall e | e in RemoveOwners(es, ts) ensures e.owner !in ts {
      OwnerOfItem(RemoveOwners(es, ts), e);
      assert e.owner in multiset(Owners(RemoveOwners(es, ts)));
      assert e.owner in ts <==> multiset(ts)[e.owner] > 0;
    }
  }

  lemma FiledMore(es: seq<ListItem>, due: map<Owner, nat>, t: Owner, when: nat, after: int, epoch: nat)
    requires Filed(es, due, after, epoch) && t !in due
    ensures Filed(es, due[t := when], after, epoch)
  {
  }

  lemma InsertFiled(es: seq<ListItem>, due: map<Owner, nat>, e: ListItem, after: int, epoch: nat)
    requires Filed(es, due, after, epoch) && Sorted(es) && Filed([e], due, after, epoch)
    ensures Filed(Insert(es, e), due, after, epoch) && Sorted(Insert(es, e))
    ensures FirstWake(Insert(es, e)) == if es == [] then e.value else Min(e.value, es[0].value)
  {
    InsertKeeps(es, e);
    assert e in [e];
  }

  lemma FiledOne(e: ListItem, due: map<Owner, nat>, after: int, epoch: nat)
    requires e.owner in due && after < due[e.owner] && Epoch(due[e.owner]) == epoch && e.value == Wrap(due[e.owner])
    ensures Filed([e], due, after, epoch)
  {
  }
}
