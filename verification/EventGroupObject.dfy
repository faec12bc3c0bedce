/** The event group as it is coded, with its loop over the waiters. */
module EventGroupObject {
  import opened Common
  import opened EventGroups
  import opened EventGroupProofs

  // ---- The pass one waiter at a time.

  lemma {:induction false} LeftSnoc(ws: seq<Task>, t: Task, items: map<Task, Bits>, bits: Bits)
    ensures Left(ws + [t], items, bits) ==
      Left(ws, items, bits) + if Met(bits, CallOf(items, t)) then [] else [t]
  {
    hide Met, CallOf, And;
    if ws == [] {
      assert (ws + [t])[1..] == [];
    } else {
      assert (ws + [t])[1..] == ws[1..] + [t];
      LeftSnoc(ws[1..], t, items, bits);
    }
  }

  lemma OrFacts(a: Bits, b: Bits, c: Bits)
    ensures Or(Or(a, b), c) == Or(a, Or(b, c)) && Or(a, 0) == a && Or(0, a) == a
  {
  }

  lemma {:induction false} ToClearSnoc(ws: seq<Task>, t: Task, items: map<Task, Bits>, bits: Bits)
    ensures ToClear(ws + [t], items, bits) ==
      Or(ToClear(ws, items, bits),
         if Met(bits, CallOf(items, t)) && CallOf(items, t).clear then CallOf(items, t).bits else 0)
  {
    hide Met, CallOf, Or, And;
    var last := if Met(bits, CallOf(items, t)) && CallOf(items, t).clear then CallOf(items, t).bits else 0;
    if ws == [] {
      assert (ws + [t])[1..] == [];
      OrFacts(last, 0, 0);
    } else {
      assert (ws + [t])[1..] == ws[1..] + [t];
      ToClearSnoc(ws[1..], t, items, bits);
      var c := CallOf(items, ws[0]);
      OrFacts(if Met(bits, c) && c.clear then c.bits else 0, ToClear(ws[1..], items, bits), last);
    }
  }

  lemma HandOutSnoc(ws: seq<Task>, t: Task, items: map<Task, Bits>, bits: Bits)
    requires t in items
    ensures HandOut(ws + [t], items, bits) ==
      if Met(bits, CallOf(items, t)) then HandOut(ws, items, bits)[t := Handed(bits)] else HandOut(ws, items, bits)
  {
    hide Met, CallOf, Handed, And;
  }

  /** All that is known after the waiters in `seen` have been looked at. */
  ghost predicate Passed(g: Group, seen: seq<Task>, rest: seq<Task>, b: Bits, list: seq<Task>, i: nat, clear: Bits,
                         items: map<Task, Bits>)
  {
    && g.waiters == seen + rest
    && list == Left(seen, g.items, b) + rest && i == |Left(seen, g.items, b)|
    && clear == ToClear(seen, g.items, b) && items == HandOut(seen, g.items, b)
  }

  lemma Unseen(list: seq<Task>, seen: seq<Task>, rest: seq<Task>)
    requires Distinct(list) && list == seen + rest && rest != []
    ensures rest[0] !in seen
  {
    forall k | 0 <= k < |seen| ensures seen[k] != rest[0] {
      assert list[k] == seen[k] && list[|seen|] == rest[0];
    }
  }

  /** The item of the next waiter has not been touched. */
  lemma NextWaiter(g: Group, seen: seq<Task>, rest: seq<Task>, b: Bits)
    requires Inv(g) && g.waiters == seen + rest && rest != []
    ensures var t, items := rest[0], HandOut(seen, g.items, b);
      t in items && t in g.items && t in g.calls && items[t] == Pack(g.calls[t]) && CallOf(g.items, t) == g.calls[t]
  {
    hide Met, CallOf, Or, Handed, Pack, Released, Legal, LegalCall, And;
    assert rest[0] == g.waiters[|seen|] && rest[0] in g.waiters;
    Unseen(g.waiters, seen, rest);
    CallOfWaiter(g, rest[0]);
  }

  /** Looking at the next waiter. */
  lemma PassOne(g: Group, seen: seq<Task>, rest: seq<Task>, b: Bits, list: seq<Task>, i: nat, clear: Bits,
                items: map<Task, Bits>)
    requires Inv(g) && rest != [] && Passed(g, seen, rest, b, list, i, clear, items)
    ensures i < |list| && list[i] == rest[0] && rest[0] in items && rest[0] in g.calls
    ensures items[rest[0]] == Pack(g.calls[rest[0]])
    ensures var t := rest[0];
      var c := g.calls[t];
      if Met(b, c)
      then Passed(g, seen + [t], rest[1..], b, list[..i] + list[i + 1..], i, Or(clear, if c.clear then c.bits else 0),
                  items[t := Handed(b)])
      else Passed(g, seen + [t], rest[1..], b, list, i + 1, clear, items)
  {
    hide Inv, Met, CallOf, Or, Handed, Pack, Left, ToClear, HandOut, And;
    var t := rest[0];
    NextWaiter(g, seen, rest, b);
    LeftSnoc(seen, t, g.items, b);
    ToClearSnoc(seen, t, g.items, b);
    HandOutSnoc(seen, t, g.items, b);
    OrFacts(clear, 0, 0);
    assert g.waiters == (seen + [t]) + rest[1..];
    assert list[i + 1..] == rest[1..];
    assert list[..i] == Left(seen, g.items, b);
  }

  class EventGroup {
    var bits: Bits
    var waiters: seq<Task>
    var items: map<Task, Bits>
    ghost var calls: map<Task, Call>

    ghost function Model(): Group
      reads this
    {
      Group(bits, waiters, items, calls)
    }

    constructor ()
      ensures Initial(Model()) && Inv(Model())
    {
      bits, waiters, items, calls := 0, [], map[], map[];
    }

    /** xEventGroupSetBits */
    method Set(added: Bits) returns (now: Bits)
      requires Inv(Model()) && Legal(added)
      modifies this
      ensures Model() == SetBits(old(Model()), added) && Inv(Model()) && now == bits
    {
      hide Inv, Met, Pack, Unpack, CallOf, Or, Without, Handed, Left, ToClear, HandOut, Plain, Legal, And;
      ghost var g := Model();
      SetBitsKeeps(g, added);
      bits := Or(bits, added);
      var toClear: Bits := 0;
      var i := 0;
      ghost var seen: seq<Task>, rest := [], waiters;
      PassNone(g, bits);
      while i < |waiters|
        invariant bits == Or(g.bits, added) && calls == g.calls
        invariant Passed(g, seen, rest, bits, waiters, i, toClear, items)
        decreases |rest|
      {
        assert rest != [];
        PassOne(g, seen, rest, bits, waiters, i, toClear, items);
        var t := waiters[i];
        var c := Unpack(items[t]);
        CallKnown(g, t);
        if Met(bits, c) {
          if c.clear {
            toClear := Or(toClear, c.bits);
          } else {
            OrFacts(toClear, 0, 0);
          }
          items := items[t := Handed(bits)];
          waiters := waiters[..i] + waiters[i + 1..];
        } else {
          i := i + 1;
        }
        seen, rest := seen + [t], rest[1..];
      }
      assert seen == g.waiters;
      bits := Without(bits, toClear);
      now := bits;
    }

    /** xEventGroupClearBits */
    method Clear(clear: Bits) returns (before: Bits)
      requires Inv(Model())
      modifies this
      ensures Model() == ClearBits(old(Model()), clear) && Inv(Model()) && before == old(bits)
      ensures bits == Without(old(bits), clear) && waiters == old(waiters)
    {
      ClearKeeps(Model(), clear);
      before := bits;
      bits := Without(bits, clear);
    }

    /** xEventGroupWaitBits until it blocks or returns */
    method Wait(t: Task, c: Call, mayBlock: bool) returns (blocked: bool, value: Bits)
      requires Inv(Model()) && t !in calls && LegalCall(c)
      modifies this
      ensures Model() == WaitBits(old(Model()), t, c, mayBlock) && Inv(Model())
      ensures blocked <==> t in waiters
      ensures blocked <==> mayBlock && !Met(old(bits), c)
      ensures !blocked ==> value == old(bits)
      ensures bits == if Met(old(bits), c) && c.clear then Without(old(bits), c.bits) else old(bits)
    {
      hide Met, Pack, Without, Released, Legal, And;
      ghost var g := Model();
      NextKeeps(g, Action.Wait(t, c, mayBlock));
      blocked, value := false, bits;
      if Met(bits, c) {
        if c.clear {
          bits := Without(bits, c.bits);
        }
      } else if mayBlock {
        blocked := true;
        items := items[t := Pack(c)];
        calls := calls[t := c];
        waiters := waiters + [t];
      }
    }

    /** xEventGroupSync until it blocks or returns */
    method Synchronise(t: Task, added: Bits, wanted: Bits, mayBlock: bool) returns (blocked: bool, value: Bits)
      requires Inv(Model()) && t !in calls && Legal(added) && Legal(wanted) && wanted != 0
      modifies this
      ensures Model() == Sync(old(Model()), t, added, wanted, mayBlock) && Inv(Model())
      ensures blocked <==> mayBlock && !Met(Or(old(bits), added), Call(wanted, true, true))
      ensures !blocked ==>
        value == if Met(Or(old(bits), added), Call(wanted, true, true)) then Or(old(bits), added) else bits
      ensures var joined := SetBits(old(Model()), added).bits;
        bits == if Met(Or(old(bits), added), Call(wanted, true, true)) then Without(joined, wanted) else joined
    {
      hide Inv, Met, Pack, Or, Without, SetBits, Legal, And;
      ghost var g := Model();
      NextKeeps(g, Rendezvous(t, added, wanted, mayBlock));
      var original := bits;
      var c := Call(wanted, true, true);
      var _ := Set(added);
      blocked, value := false, bits;
      if Met(Or(original, added), c) {
        value := Or(original, added);
        bits := Without(bits, wanted);
      } else if mayBlock {
        blocked := true;
        items := items[t := Pack(c)];
        calls := calls[t := c];
        waiters := waiters + [t];
      }
    }

    /** The rest of xEventGroupWaitBits and xEventGroupSync after the task has run again */
    method Finish(t: Task, c: Call) returns (value: Bits)
      requires Inv(Model()) && t in calls && calls[t] == c && t !in waiters
      modifies this
      ensures Model() == Collect(old(Model()), t) && Inv(Model())
      ensures value == Collected(old(Model()), t)
      ensures t in old(items)
      ensures bits ==
        if !WasUnblocked(old(items)[t]) && Met(old(bits), c) && c.clear then Without(old(bits), c.bits) else old(bits)
    {
      hide Inv, Met, Pack, Plain, Without, WasUnblocked, And;
      ghost var g := Model();
      CallKnown(g, t);
      NextKeeps(g, Return(t));
      value := items[t];
      items := items - {t};
      calls := calls - {t};
      if !WasUnblocked(value) {
        value := bits;
        if Met(value, c) {
          if c.clear {
            bits := Without(bits, c.bits);
          }
        }
      }
      value := Plain(value);
    }
  }

  lemma PassNone(g: Group, b: Bits)
    ensures Passed(g, [], g.waiters, b, g.waiters, 0, 0, g.items)
  {
    hide Met, And;
    assert [] + g.waiters == g.waiters;
  }

  lemma CallKnown(g: Group, t: Task)
    requires Inv(g) && t in g.calls
    ensures t in g.items && Unpack(Pack(g.calls[t])) == g.calls[t]
  {
    hide Pack, Unpack, Met, And;
    PackRoundTrip(g.calls[t]);
  }
}
