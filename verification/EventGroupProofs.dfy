/** What one pass over the waiters achieves, and what holds in every run. */
module EventGroupProofs {
  import opened Common
  import opened EventGroups

  // ---- Words.

  /** Bits and control bits do not disturb each other. */
  lemma ControlSplit(b: Bits, k: Bits)
    requires And(b, CONTROL) == 0 && Without(k, CONTROL) == 0
    ensures Without(Or(b, k), CONTROL) == b && And(Or(b, k), CONTROL) == k
  {
  }

  lemma UnblockedIsControl(x: Bits)
    ensures And(x, UNBLOCKED) == And(And(x, CONTROL), UNBLOCKED)
  {
  }

  lemma FlagsAreControl(clear: bool, all: bool)
    ensures Without(Flags(clear, all), CONTROL) == 0 && And(Flags(clear, all), UNBLOCKED) == 0
  {
  }

  lemma FlagsReadBack(clear: bool, all: bool)
    ensures And(Flags(clear, all), CLEAR_ON_EXIT) != 0 <==> clear
    ensures And(Flags(clear, all), WAIT_ALL) != 0 <==> all
  {
  }

  lemma PackRoundTrip(c: Call)
    requires LegalCall(c)
    ensures Unpack(Pack(c)) == c && !WasUnblocked(Pack(c))
  {
    hide Flags, And, Or, Without;
    FlagsAreControl(c.clear, c.all);
    FlagsReadBack(c.clear, c.all);
    ControlSplit(c.bits, Flags(c.clear, c.all));
    UnblockedIsControl(Pack(c));
  }

  lemma HandedIsControl()
    ensures Without(UNBLOCKED | IN_USE, CONTROL) == 0 && And(UNBLOCKED | IN_USE, UNBLOCKED) != 0
  {
  }

  lemma HandedExact(b: Bits)
    requires Legal(b)
    ensures WasUnblocked(Handed(b)) && Plain(Handed(b)) == b
  {
    hide And, Or, Without;
    HandedIsControl();
    ControlSplit(b, UNBLOCKED | IN_USE);
    UnblockedIsControl(Handed(b));
  }

  /** Clearing bits meets nobody's condition. */
  lemma MetMonotone(b: Bits, clear: Bits, c: Call)
    requires Met(Without(b, clear), c)
    ensures Met(b, c)
  {
    hide And, Without;
    AnySubset(b, clear, c.bits);
    AllSubset(b, clear, c.bits);
  }

  lemma AnySubset(a: Bits, m: Bits, y: Bits)
    ensures And(Without(a, m), y) != 0 ==> And(a, y) != 0
  {
  }

  lemma AllSubset(a: Bits, m: Bits, y: Bits)
    ensures And(Without(a, m), y) == y ==> And(a, y) == y
  {
  }

  lemma LegalWords(a: Bits, b: Bits)
    requires Legal(a)
    ensures Legal(Without(a, b))
    ensures Legal(b) ==> Legal(Or(a, b))
  {
  }

  predicate Overlaps(a: Bits, p: Bits) {
    And(a, p) != 0
  }

  lemma AndOverOr(a: Bits, b: Bits, p: Bits)
    ensures And(Or(a, b), p) == Or(And(a, p), And(b, p))
  {
  }

  lemma OrZero(a: Bits, b: Bits)
    ensures Or(a, b) != 0 <==> a != 0 || b != 0
  {
  }

  lemma OverlapsOr(a: Bits, b: Bits, p: Bits)
    ensures Overlaps(Or(a, b), p) <==> Overlaps(a, p) || Overlaps(b, p)
  {
    hide Or, And;
    AndOverOr(a, b, p);
    OrZero(And(a, p), And(b, p));
  }

  /** A word is determined by what it overlaps. */
  lemma OverlapsExtensional(a: Bits, b: Bits)
    requires forall p :: Overlaps(a, p) <==> Overlaps(b, p)
    ensures a == b
  {
    hide And, Without;
    var p, q := Without(a, b), Without(b, a);
    assert Overlaps(a, p) <==> Overlaps(b, p);
    assert Overlaps(a, q) <==> Overlaps(b, q);
    DifferenceZero(a, b);
  }

  lemma DifferenceZero(a: Bits, b: Bits)
    ensures And(b, Without(a, b)) == 0 && And(a, Without(b, a)) == 0
    ensures And(a, Without(a, b)) == 0 && And(b, Without(b, a)) == 0 ==> a == b
  {
  }

  // ---- One pass.

  lemma {:induction false} LeftExact(ws: seq<Task>, items: map<Task, Bits>, bits: Bits)
    requires Distinct(ws)
    ensures Distinct(Left(ws, items, bits))
    ensures forall t :: t in Left(ws, items, bits) <==> t in ws && !Met(bits, CallOf(items, t))
  {
    hide Met, CallOf, Or, Without, And;
    if ws != [] {
      LeftExact(ws[1..], items, bits);
      assert ws[0] !in ws[1..];
      assert forall t :: t in ws <==> t == ws[0] || t in ws[1..];
    }
  }

  /** A call met by `bits` that clears some bit of p on exit. */
  predicate Clears(c: Call, bits: Bits, p: Bits) {
    Met(bits, c) && c.clear && Overlaps(c.bits, p)
  }

  function ClearMask(g: Group, b: Bits): Bits {
    ToClear(g.waiters, g.items, b)
  }

  lemma {:induction false} ToClearExact(ws: seq<Task>, items: map<Task, Bits>, bits: Bits, p: Bits)
    ensures Overlaps(ToClear(ws, items, bits), p) <==> exists t :: t in ws && Clears(CallOf(items, t), bits, p)
  {
    hide Met, CallOf, Overlaps, Or, Without, And;
    if ws == [] {
      ZeroOverlaps(p);
    } else {
      ToClearExact(ws[1..], items, bits, p);
      var c := CallOf(items, ws[0]);
      OverlapsOr(if Met(bits, c) && c.clear then c.bits else 0, ToClear(ws[1..], items, bits), p);
      ZeroOverlaps(p);
      assert forall t :: t in ws <==> t == ws[0] || t in ws[1..];
    }
  }

  lemma ZeroOverlaps(p: Bits)
    ensures !Overlaps(0, p)
  {
  }

  /** Whatever the order of the list, the same tasks are unblocked and the same bits cleared. */
  lemma OrderIrrelevant(g: Group, ws: seq<Task>, added: Bits)
    requires Distinct(g.waiters) && Distinct(ws) && forall t :: t in ws <==> t in g.waiters
    ensures var a, b := SetBits(g, added), SetBits(g.(waiters := ws), added);
      a.bits == b.bits && a.items == b.items && forall t :: t in a.waiters <==> t in b.waiters
  {
    hide Met, CallOf, Overlaps, Or, Without, And;
    var bits := Or(g.bits, added);
    LeftExact(g.waiters, g.items, bits);
    LeftExact(ws, g.items, bits);
    forall p ensures Overlaps(ToClear(g.waiters, g.items, bits), p) <==> Overlaps(ToClear(ws, g.items, bits), p) {
      ToClearExact(g.waiters, g.items, bits, p);
      ToClearExact(ws, g.items, bits, p);
    }
    OverlapsExtensional(ToClear(g.waiters, g.items, bits), ToClear(ws, g.items, bits));
  }

  lemma CallOfWaiter(g: Group, t: Task)
    requires Inv(g) && t in g.waiters
    ensures CallOf(g.items, t) == g.calls[t]
  {
    hide Pack, Unpack, Met, And;
    PackRoundTrip(g.calls[t]);
  }

  /** xEventGroupSetBits unblocks exactly the waiters whose condition holds on the old bits with the new ones added,
      hands each of them that value, and clears exactly the union of their clear-on-exit masks. */
  lemma SetBitsExact(g: Group, added: Bits)
    requires Inv(g)
    ensures var b, n := Or(g.bits, added), SetBits(g, added);
      && (forall t :: t in n.waiters <==> t in g.waiters && !Met(b, g.calls[t]))
      && n.calls == g.calls && n.items.Keys == g.items.Keys
      && (forall t :: t in g.items ==>
            n.items[t] == if t in g.waiters && Met(b, g.calls[t]) then Handed(b) else g.items[t])
      && n.bits == Without(b, ClearMask(g, b))
    ensures forall p :: Overlaps(ClearMask(g, Or(g.bits, added)), p) <==>
      exists t :: t in g.waiters && Clears(g.calls[t], Or(g.bits, added), p)
  {
    hide Met, CallOf, Overlaps, Pack, Handed, LegalCall, Released, Or, Without, And;
    var b := Or(g.bits, added);
    LeftExact(g.waiters, g.items, b);
    forall t | t in g.waiters ensures CallOf(g.items, t) == g.calls[t] { CallOfWaiter(g, t); }
    forall p ensures Overlaps(ClearMask(g, b), p) <==> exists t :: t in g.waiters && Clears(g.calls[t], b, p) {
      ToClearExact(g.waiters, g.items, b, p);
    }
  }

  // ---- Runs.

  lemma ReleasedByBits(b: Bits, c: Call)
    requires Legal(b) && Met(b, c)
    ensures Released(Handed(b), c)
  {
    hide Handed, Met, Pack, Plain, WasUnblocked, Or, And;
    HandedExact(b);
  }

  lemma SetBitsKeeps(g: Group, added: Bits)
    requires Inv(g) && Legal(added)
    ensures Inv(SetBits(g, added))
    ensures forall c :: Met(SetBits(g, added).bits, c) ==> Met(Or(g.bits, added), c)
  {
    hide Met, CallOf, Overlaps, Pack, Handed, Legal, LegalCall, Released, Or, Without, And;
    var b, n := Or(g.bits, added), SetBits(g, added);
    SetBitsExact(g, added);
    LeftExact(g.waiters, g.items, b);
    LegalWords(g.bits, added);
    LegalWords(b, ToClear(g.waiters, g.items, b));
    forall c | Met(n.bits, c) ensures Met(b, c) { MetMonotone(b, ToClear(g.waiters, g.items, b), c); }
    forall t | t in g.waiters && Met(b, g.calls[t]) ensures Released(Handed(b), g.calls[t]) {
      ReleasedByBits(b, g.calls[t]);
    }
  }

  lemma ClearKeeps(g: Group, clear: Bits)
    requires Inv(g)
    ensures Inv(g.(bits := Without(g.bits, clear)))
  {
    hide Met, Pack, Legal, LegalCall, Released, Or, Without, And;
    LegalWords(g.bits, clear);
    var n := g.(bits := Without(g.bits, clear));
    forall t | t in g.waiters ensures !Met(n.bits, g.calls[t]) {
      if Met(n.bits, g.calls[t]) { MetMonotone(g.bits, clear, g.calls[t]); }
    }
  }

  lemma EnlistKeeps(g: Group, t: Task, c: Call)
    requires Inv(g) && t !in g.calls && LegalCall(c) && !Met(g.bits, c)
    ensures Inv(Enlist(g, t, c))
  {
    hide Met, Pack, Legal, LegalCall, Or, Without, And;
  }

  lemma ClearIfKeeps(g: Group, c: Call)
    requires Inv(g)
    ensures Inv(ClearIf(g, c))
  {
    hide Inv;
    ClearKeeps(g, c.bits);
  }

  lemma NextKeeps(g: Group, a: Action)
    requires Inv(g)
    ensures Inv(Next(g, a))
  {
    hide Met, Pack, Handed, Inv, SetBits, Enlist, ClearIf, Or, Without, And;
    if Enabled(g, a) {
      match a
      case Set(b) => SetBitsKeeps(g, b);
      case Clear(b) => ClearKeeps(g, b);
      case Wait(t, c, mayBlock) =>
        if Met(g.bits, c) { ClearIfKeeps(g, c); } else { EnlistKeeps(g, t, c); }
      case Rendezvous(t, s, b, mayBlock) =>
        var c, n := Call(b, true, true), SetBits(g, s);
        SetBitsKeeps(g, s);
        SameCalls(g, s);
        if Met(Or(g.bits, s), c) { ClearIfKeeps(n, c); } else { EnlistKeeps(n, t, c); }
      case TimeOut(t) => TimeOutKeeps(g, t);
      case Return(t) =>
        ReturnKeeps(g, t);
        ClearIfKeeps(g.(items := g.items - {t}, calls := g.calls - {t}), g.calls[t]);
    }
  }

  lemma SameCalls(g: Group, s: Bits)
    ensures SetBits(g, s).calls == g.calls
  {
  }

  lemma TimeOutKeeps(g: Group, t: Task)
    requires Inv(g) && t in g.waiters
    ensures Inv(g.(waiters := Drop(g.waiters, t)))
  {
    hide Met, Pack, Legal, LegalCall, Released, Or, Without, And;
    DropKeeps(g.waiters, t);
  }

  lemma ReturnKeeps(g: Group, t: Task)
    requires Inv(g) && t !in g.waiters
    ensures Inv(g.(items := g.items - {t}, calls := g.calls - {t}))
  {
    hide Met, Pack, Legal, LegalCall, Released, Or, Without, And;
  }

  lemma {:induction false} RunKeeps(g: Group, actions: seq<Action>)
    requires Initial(g)
    ensures Inv(Run(g, actions))
  {
    hide Next;
    if actions != [] {
      RunKeeps(g, actions[..|actions| - 1]);
      NextKeeps(Run(g, actions[..|actions| - 1]), actions[|actions| - 1]);
    }
  }

  /** In every run of sets, clears, waits, rendezvous and time-outs, no task on the wait list has its condition met by
      the current bits. */
  lemma NoWaiterSatisfied(g: Group, actions: seq<Action>, t: Task)
    requires Initial(g) && t in Run(g, actions).waiters
    ensures var n := Run(g, actions);
      t in n.calls && !Met(n.bits, n.calls[t])
  {
    hide Run, Met, And;
    RunKeeps(g, actions);
  }

  /** In every run, a task that left the list without a time-out returns a value that meets its condition. */
  lemma ReturnedValueMeets(g: Group, actions: seq<Action>, t: Task)
    requires Initial(g) && t in Run(g, actions).items && t in Run(g, actions).calls
    requires WasUnblocked(Run(g, actions).items[t])
    ensures var n := Run(g, actions);
      Met(Collected(n, t), n.calls[t]) && Legal(Collected(n, t)) && Collect(n, t).bits == n.bits
  {
    hide Run, Met, And;
    RunKeeps(g, actions);
    var n := Run(g, actions);
    PackRoundTrip(n.calls[t]);
    NoControl(n.items[t]);
  }

  lemma NoControl(x: Bits)
    ensures Legal(Plain(x))
  {
  }

  // ---- What the calls do to the bits, and to the tasks on the list.

  /** Waiting for all bits: none of them is missing.  Waiting for any: not all of them are. */
  lemma MetExact(bits: Bits, c: Call)
    ensures c.all ==> (Met(bits, c) <==> Without(c.bits, bits) == 0)
    ensures !c.all ==> (Met(bits, c) <==> Without(c.bits, bits) != c.bits)
  {
    hide And, Without;
    AllIffNoneMissing(bits, c.bits);
    AnyIffSomeThere(bits, c.bits);
  }

  // Identities on words, one at a time.

  lemma MissingFromCommon(b: Bits, x: Bits)
    ensures Without(And(b, x), b) == 0
  {
  }

  lemma CommonAndMissing(b: Bits, x: Bits)
    ensures Or(And(b, x), Without(x, b)) == x
  {
  }

  lemma CommonOfMissing(b: Bits, x: Bits)
    ensures And(b, Without(x, b)) == 0
  {
  }

  lemma AndCommutes(a: Bits, b: Bits)
    ensures And(a, b) == And(b, a)
  {
  }

  lemma AndRegroups(a: Bits, b: Bits, c: Bits)
    ensures And(And(a, b), c) == And(a, And(b, c))
  {
  }

  lemma OrNothing(a: Bits)
    ensures Or(a, 0) == a && Or(0, a) == a && And(a, 0) == 0
  {
  }

  lemma AllIffNoneMissing(b: Bits, x: Bits)
    ensures And(b, x) == x <==> Without(x, b) == 0
  {
    hide And, Or, Without;
    MissingFromCommon(b, x);
    CommonAndMissing(b, x);
    OrNothing(And(b, x));
  }

  lemma AnyIffSomeThere(b: Bits, x: Bits)
    ensures And(b, x) != 0 <==> Without(x, b) != x
  {
    hide And, Or, Without;
    CommonAndMissing(b, x);
    CommonOfMissing(b, x);
    OrNothing(Without(x, b));
  }

  /** Clearing removes exactly the bits named. */
  lemma WithoutExact(b: Bits, x: Bits, p: Bits)
    ensures And(Without(b, x), x) == 0 && Or(Without(b, x), And(b, x)) == b
    ensures And(x, p) == 0 ==> And(Without(b, x), p) == And(b, p)
  {
    hide And, Or, Without;
    CommonOfMissing(x, b);
    AndCommutes(x, Without(b, x));
    CommonAndMissing(x, b);
    AndCommutes(x, b);
    OrCommutes(And(x, b), Without(b, x));
    AndOverOr(Without(b, x), And(b, x), p);
    AndRegroups(b, x, p);
    OrNothing(b);
    OrNothing(And(Without(b, x), p));
  }

  lemma OrCommutes(a: Bits, b: Bits)
    ensures Or(a, b) == Or(b, a)
  {
  }

  /** xEventGroupClearBits */
  lemma ClearExact(g: Group, clear: Bits)
    ensures var n := ClearBits(g, clear);
      && And(n.bits, clear) == 0 && Or(n.bits, And(g.bits, clear)) == g.bits
      && n == g.(bits := n.bits)
  {
    hide And, Or, Without;
    WithoutExact(g.bits, clear, 0);
  }

  /** xEventGroupWaitBits: a call that is met takes its bits away iff it asked to, and does not wait; one that is not met
      leaves the bits alone and waits iff it may. */
  lemma WaitExact(g: Group, t: Task, c: Call, mayBlock: bool)
    requires t !in g.calls
    ensures var n := WaitBits(g, t, c, mayBlock);
      && (Met(g.bits, c) && c.clear ==>
            And(n.bits, c.bits) == 0 && Or(n.bits, And(g.bits, c.bits)) == g.bits && n == g.(bits := n.bits))
      && (Met(g.bits, c) && !c.clear ==> n == g)
      && (!Met(g.bits, c) && !mayBlock ==> n == g)
      && (!Met(g.bits, c) && mayBlock ==>
            && n.bits == g.bits && n.waiters == g.waiters + [t] && n.calls == g.calls[t := c]
            && n.items.Keys == g.items.Keys + {t} && forall u :: u in g.items && u != t ==> n.items[u] == g.items[u])
  {
    hide And, Or, Without, Met, Pack;
    WithoutExact(g.bits, c.bits, 0);
  }

  /** xEventGroupSync: the bits are set; a completed rendezvous leaves none of the bits waited for, and the others as the
      set left them; an incomplete one leaves the bits as the set left them. */
  lemma SyncExact(g: Group, t: Task, added: Bits, wanted: Bits, mayBlock: bool, p: Bits)
    requires t !in g.calls
    ensures var n, joined := Sync(g, t, added, wanted, mayBlock), SetBits(g, added);
      && (Without(wanted, Or(g.bits, added)) == 0 ==>
            && And(n.bits, wanted) == 0 && (And(wanted, p) == 0 ==> And(n.bits, p) == And(joined.bits, p))
            && n == joined.(bits := n.bits))
      && (Without(wanted, Or(g.bits, added)) != 0 ==>
            n.bits == joined.bits && n.waiters == if mayBlock then joined.waiters + [t] else joined.waiters)
  {
    hide And, Or, Without, SetBits, Pack;
    AllIffNoneMissing(Or(g.bits, added), wanted);
    WithoutExact(SetBits(g, added).bits, wanted, p);
  }

  /** The end of a wait: a task unblocked by bits returns the bits it was handed and clears nothing; one that timed out
      returns the current bits, and takes its bits away iff its condition is met by then and it asked to. */
  lemma CollectExact(g: Group, t: Task)
    requires Inv(g) && t in g.calls && t in g.items
    ensures var c, n := g.calls[t], Collect(g, t);
      && n.calls == g.calls - {t} && n.items == g.items - {t} && n.waiters == g.waiters
      && (g.items[t] != Pack(c) ==> n.bits == g.bits && Collected(g, t) == Plain(g.items[t]))
      && (g.items[t] == Pack(c) ==> Collected(g, t) == g.bits)
      && (g.items[t] == Pack(c) && !(Met(g.bits, c) && c.clear) ==> n.bits == g.bits)
      && (g.items[t] == Pack(c) && Met(g.bits, c) && c.clear ==>
            And(n.bits, c.bits) == 0 && Or(n.bits, And(g.bits, c.bits)) == g.bits)
  {
    hide And, Or, Without, Met, Pack, Plain, WasUnblocked, Handed;
    PackRoundTrip(g.calls[t]);
    if g.items[t] != Pack(g.calls[t]) { HandedItem(g, t); }
    PlainBits(g.bits);
    WithoutExact(g.bits, g.calls[t].bits, 0);
  }

  /** An item that is not the packed call was handed out. */
  lemma HandedItem(g: Group, t: Task)
    requires Inv(g) && t in g.calls && t in g.items && g.items[t] != Pack(g.calls[t])
    ensures WasUnblocked(g.items[t])
  {
    hide And, Or, Without, Met, Pack, WasUnblocked, Handed;
    NoControl(g.items[t]);
    HandedExact(Plain(g.items[t]));
  }

  lemma PlainBits(b: Bits)
    requires Legal(b)
    ensures Plain(b) == b
  {
  }

  /** A time-out takes the task off the list and changes nothing else. */
  lemma TimeOutExact(g: Group, t: Task)
    requires Inv(g) && Enabled(g, TimeOut(t))
    ensures var n := Next(g, TimeOut(t));
      n == g.(waiters := n.waiters) && forall u :: u in n.waiters <==> u in g.waiters && u != t
  {
    hide Met, Pack, Legal, LegalCall, Released;
    DropKeeps(g.waiters, t);
  }
}
