/** The invariants of the kernel clock, over every run. */
module KernelProofs {
  import opened Common
  import opened Clock
  import opened TimedLists
  import opened Kernel

  /** The entries that are due. */

  /** The due entries are a prefix of the list. */
  lemma {:induction false} RemoveDue(es: seq<ListItem>, tick: nat)
    ensures RemoveOwners(es, Owners(Due(es, tick))) == NotDue(es, tick)
    ensures multiset(Owners(es)) == multiset(Owners(Due(es, tick))) + multiset(Owners(NotDue(es, tick)))
  {
    if es != [] && es[0].value <= tick {
      RemoveDue(es[1..], tick);
      assert Due(es, tick)[1..] == Due(es[1..], tick);
      assert Owners(Due(es, tick))[1..] == Owners(Due(es[1..], tick));
    }
  }

  lemma {:induction false} DueExact(es: seq<ListItem>, tick: nat)
    requires Sorted(es)
    ensures forall e :: e in es <==> e in Due(es, tick) || e in NotDue(es, tick)
    ensures forall e :: e in Due(es, tick) ==> e.value <= tick
    ensures forall e :: e in NotDue(es, tick) ==> tick < e.value
    ensures Sorted(NotDue(es, tick))
  {
    if es != [] && es[0].value <= tick {
      DueExact(es[1..], tick);
      assert forall e :: e in es <==> e == es[0] || e in es[1..];
    } else {
      forall e | e in es ensures tick < e.value { HeadFirst(es, e); }
    }
  }

  /** Facts about families of lists. */

  lemma {:induction false} AddAllItems(ready: seq<seq<Task>>, priority: map<Task, nat>, ts: seq<Task>)
    requires forall t :: t in ts ==> t in priority && priority[t] < |ready|
    ensures Items(AddAllReady(ready, priority, ts)) == Items(ready) + multiset(ts)
    decreases |ts|
  {
    if ts != [] {
      AppendItems(ready, priority[ts[0]], ts[0]);
      AddAllItems(AddReady(ready, priority, ts[0]), priority, ts[1..]);
      MinusHead(Items(ready), ts);
    }
  }

  /** The ready lists of `a` are only appended to in `b`. */
  ghost predicate OnlyAppended(a: seq<seq<Task>>, b: seq<seq<Task>>) {
    |a| == |b| && forall p :: 0 <= p < |a| ==> a[p] <= b[p]
  }

  lemma {:induction false} AddAllShelved(ready: seq<seq<Task>>, priority: map<Task, nat>, ts: seq<Task>)
    requires Shelved(ready, priority) && forall t :: t in ts ==> t in priority
    ensures var after := AddAllReady(ready, priority, ts);
      && Shelved(after, priority) && OnlyAppended(ready, after)
      && forall t :: t in ts ==> t in after[priority[t]]
    decreases |ts|
  {
    if ts != [] {
      var next := AddReady(ready, priority, ts[0]);
      assert forall t :: t in ts[1..] ==> t in ts;
      AddAllShelved(next, priority, ts[1..]);
      assert ts[0] in next[priority[ts[0]]];
      assert forall t :: t in ts ==> t == ts[0] || t in ts[1..];
    }
  }

  lemma {:induction false} DropTasksItems(lists: seq<seq<Task>>, ts: seq<Task>)
    requires forall t :: t in ts ==> Items(lists)[t] <= 1
    ensures Items(DropTasks(lists, ts)) == Items(lists) - multiset(ts)
    decreases |ts|
  {
    if ts != [] {
      DropAllItems(lists, ts[0]);
      assert forall t :: t in ts[1..] ==> t in ts;
      DropTasksItems(DropAll(lists, ts[0]), ts[1..]);
      MinusHead(Items(lists), ts);
    }
  }

  /** Waking tasks conserves the lists. */

  /** The balance of items when tasks `ts` move from the two delayed lists to the ready lists. */
  lemma WakeBalance(ready: multiset<Task>, d: multiset<Task>, o: multiset<Task>, ts: seq<Task>,
                    tasks: set<Task>, due: set<Task>, events: multiset<Task>)
    requires ready + (d + o) == multiset(tasks) && d + o == multiset(due) && events <= multiset(due)
    requires multiset(ts) <= multiset(due) && forall t :: t in ts ==> events[t] == 0
    ensures (ready + multiset(ts)) + ((d - multiset(ts)) + (o - multiset(ts))) == multiset(tasks)
    ensures (d - multiset(ts)) + (o - multiset(ts)) == multiset(due - SetOf(ts))
    ensures events <= multiset(due - SetOf(ts))
  {
    forall x ensures (d - multiset(ts))[x] + (o - multiset(ts))[x] == (d + o)[x] - multiset(ts)[x] {
      assert multiset(ts)[x] <= multiset(due)[x] <= 1;
    }
    forall x ensures multiset(due - SetOf(ts))[x] == multiset(due)[x] - multiset(ts)[x] {
      assert x in ts <==> multiset(ts)[x] > 0;
      assert multiset(ts)[x] <= multiset(due)[x] <= 1;
    }
  }

  /** Tasks that may be woken: blocked, each once, and on no event list. */
  ghost predicate Wakeable(l: Lists, ts: seq<Task>) {
    multiset(ts) <= multiset(l.due.Keys) && forall t :: t in ts ==> EventItems(l)[t] == 0
  }

  lemma BlockedIsKnown(l: Lists, t: Task)
    requires ListsValid(l) && t in l.due
    ensures t in l.priority && l.priority[t] < |l.ready|
  {
    assert t in BlockedItems(l) && t in StateItems(l);
  }

  lemma WakeItems(l: Lists, ts: seq<Task>)
    requires ListsValid(l) && Wakeable(l, ts)
    requires forall t :: t in ts ==> t in l.priority && l.priority[t] < |l.ready|
    ensures var w := Wake(l, ts);
      && StateItems(w) == multiset(w.priority.Keys) && BlockedItems(w) == multiset(w.due.Keys)
      && EventItems(w) <= multiset(w.due.Keys)
  {
    hide Items, Owners, AddAllReady, RemoveOwners, Shelved, EventItems;
    var w := Wake(l, ts);
    AddAllItems(l.ready, l.priority, ts);
    RemoveAllItems(l.delayed, ts);
    RemoveAllItems(l.overflow, ts);
    WakeBalance(Items(l.ready), multiset(Owners(l.delayed)), multiset(Owners(l.overflow)), ts,
                l.priority.Keys, l.due.Keys, EventItems(l));
    SameEvents(l, w);
    assert w.due.Keys == l.due.Keys - SetOf(ts);
  }

  lemma SameEvents(l: Lists, m: Lists)
    requires m.events == l.events && m.pending == l.pending
    ensures EventItems(m) == EventItems(l)
  {
  }

  lemma WakeLists(l: Lists, ts: seq<Task>)
    requires ListsValid(l) && Wakeable(l, ts)
    ensures ListsValid(Wake(l, ts)) && OnlyAppended(l.ready, Wake(l, ts).ready)
    ensures forall t :: t in ts ==> IsReady(Wake(l, ts), t)
  {
    forall t | t in ts ensures t in l.priority && l.priority[t] < |l.ready| {
      assert t in multiset(ts) && t in multiset(l.due.Keys);
      BlockedIsKnown(l, t);
    }
    WakeItems(l, ts);
    AddAllShelved(l.ready, l.priority, ts);
  }

  /** At most one of the two delayed lists holds a task, and only once. */
  lemma BlockedOnce(l: Lists, t: Task)
    requires BlockedItems(l) == multiset(l.due.Keys)
    ensures multiset(Owners(l.delayed))[t] + multiset(Owners(l.overflow))[t] <= 1
  {
    assert BlockedItems(l)[t] <= 1;
  }

  /** Waking tasks leaves every other wait as it was filed. */
  lemma WakeDated(l: Lists, ts: seq<Task>, after: int, epoch: nat)
    requires BlockedItems(l) == multiset(l.due.Keys) && Dated(l, after, epoch)
    ensures Dated(Wake(l, ts), after, epoch)
    ensures FirstWake(l.delayed) <= FirstWake(Wake(l, ts).delayed)
  {
    assert l.delayed != [] ==> l.delayed[0] in l.delayed;
    forall t | t in ts ensures multiset(Owners(l.delayed))[t] <= 1 && multiset(Owners(l.overflow))[t] <= 1 {
      BlockedOnce(l, t);
    }
    FiledRemove(l.delayed, ts, l.due, after, epoch);
    FiledRemove(l.overflow, ts, l.due, after, epoch + 1);
    RemoveAllKeeps(l.delayed, ts);
  }

  /** Expiry is waking the tasks at the front of the delayed list, once their event items are free. */
  lemma ExpireIsWake(l: Lists, tick: nat) returns (f: Lists, ts: seq<Task>)
    requires ListsValid(l) && l.pending == []
    ensures ts == Owners(Due(l.delayed, tick)) && f == l.(events := DropTasks(l.events, ts))
    ensures ExpireLists(l, tick) == Wake(f, ts)
    ensures ListsValid(f) && Wakeable(f, ts)
  {
    ts := Owners(Due(l.delayed, tick));
    f := l.(events := DropTasks(l.events, ts));
    hide Items, Owners, Due, NotDue, RemoveOwners, DropTasks, Shelved;
    RemoveDue(l.delayed, tick);
    ExpireBalance(multiset(Owners(l.delayed)), multiset(Owners(l.overflow)), ts, Items(l.events), l.due.Keys);
    forall t | t in ts ensures t !in Owners(l.overflow) {
      assert t in Owners(l.overflow) <==> multiset(Owners(l.overflow))[t] > 0;
    }
    RemoveAllAbsent(l.overflow, ts);
    DropTasksItems(l.events, ts);
    FreeEvents(l, f, ts);
  }

  lemma NonePending(l: Lists)
    requires l.pending == []
    ensures EventItems(l) == Items(l.events)
  {
  }

  lemma FreeEvents(l: Lists, f: Lists, ts: seq<Task>)
    requires ListsValid(l) && l.pending == [] && f == l.(events := f.events)
    requires Items(f.events) <= multiset(l.due.Keys) && multiset(ts) <= multiset(l.due.Keys)
    requires forall t :: t in ts ==> Items(f.events)[t] == 0
    ensures ListsValid(f) && Wakeable(f, ts)
  {
    hide Items, Owners, Shelved, EventItems;
    NonePending(f);
  }

  lemma ExpireBalance(d: multiset<Task>, o: multiset<Task>, ts: seq<Task>, events: multiset<Task>, due: set<Task>)
    requires d + o == multiset(due) && multiset(ts) <= d && events <= multiset(due)
    ensures multiset(ts) <= multiset(due) && events - multiset(ts) <= multiset(due)
    ensures forall t :: t in ts ==> o[t] == 0 && events[t] <= 1 && (events - multiset(ts))[t] == 0
  {
    forall t | t in ts ensures o[t] == 0 && events[t] <= 1 && (events - multiset(ts))[t] == 0 {
      assert multiset(ts)[t] > 0 && (d + o)[t] <= 1 && multiset(due)[t] <= 1;
    }
  }

  /** The waits that end after a given time. */
  ghost function Later(due: map<Task, nat>, now: nat): map<Task, nat> {
    map t | t in due && now < due[t] :: due[t]
  }

  /** Waits of the next epoch end later than now, whatever was known before. */
  lemma FiledNextEpoch(es: seq<ListItem>, due: map<Task, nat>, after: int, now: nat)
    requires Filed(es, due, after, Epoch(now) + 1)
    ensures Filed(es, due, now, Epoch(now) + 1)
  {
    forall e | e in es ensures now < due[e.owner] { LaterEpoch(now, due[e.owner]); }
  }

  /** In a list of this epoch, exactly the waits that have come due are counted. */
  lemma FiledThisEpoch(es: seq<ListItem>, due: map<Task, nat>, after: int, now: nat)
    requires Filed(es, due, after, Epoch(now)) && Sorted(es)
    ensures forall e :: e in Due(es, Wrap(now)) ==> e.owner in due && due[e.owner] <= now
    ensures Filed(NotDue(es, Wrap(now)), due, now, Epoch(now)) && Sorted(NotDue(es, Wrap(now)))
  {
    hide Due, NotDue, Wrap, Epoch;
    DueExact(es, Wrap(now));
    forall e | e in es ensures e.value <= Wrap(now) <==> due[e.owner] <= now { SameEpoch(now, due[e.owner]); }
  }

  /** The tasks at the front of the delayed list are exactly those whose wait has come due. */
  lemma ExpireDue(l: Lists, now: nat, after: int)
    requires BlockedItems(l) == multiset(l.due.Keys) && Dated(l, after, Epoch(now))
    ensures forall t :: t in Owners(Due(l.delayed, Wrap(now))) <==> t in l.due && l.due[t] <= now
  {
    hide Owners, Due, NotDue, Wrap, Epoch;
    var front := Due(l.delayed, Wrap(now));
    FiledThisEpoch(l.delayed, l.due, after, now);
    FiledNextEpoch(l.overflow, l.due, after, now);
    DueExact(l.delayed, Wrap(now));
    forall t | t in Owners(front) ensures t in l.due && l.due[t] <= now { var e := ItemOfOwner(front, t); }
    forall t | t in l.due && l.due[t] <= now ensures t in Owners(front) {
      assert t in BlockedItems(l);
      if t in Owners(l.overflow) {
        var e := ItemOfOwner(l.overflow, t);
      } else {
        assert t in multiset(Owners(l.delayed));
        var e := ItemOfOwner(l.delayed, t);
        OwnerOfItem(front, e);
      }
    }
  }

  lemma ExpireDated(l: Lists, now: nat, after: int)
    requires BlockedItems(l) == multiset(l.due.Keys) && Dated(l, after, Epoch(now))
    ensures var w := ExpireLists(l, Wrap(now));
      && Dated(w, now, Epoch(now)) && w.due == Later(l.due, now)
  {
    hide Wrap, Epoch, Due, NotDue, Owners, Sorted, BlockedItems;
    ExpireDue(l, now, after);
    FiledThisEpoch(l.delayed, l.due, after, now);
    FiledNextEpoch(l.overflow, l.due, after, now);
    FiledLater(NotDue(l.delayed, Wrap(now)), l.due, SetOf(Owners(Due(l.delayed, Wrap(now)))), now, Epoch(now));
    FiledLater(l.overflow, l.due, SetOf(Owners(Due(l.delayed, Wrap(now)))), now, Epoch(now) + 1);
  }

  lemma FiledLater(es: seq<ListItem>, due: map<Task, nat>, done: set<Task>, now: nat, epoch: nat)
    requires Filed(es, due, now, epoch) && forall t :: t in done ==> t in due && due[t] <= now
    ensures Filed(es, due - done, now, epoch)
  {
    hide Wrap, Epoch;
  }

  /** The expiry loop wakes exactly the waits that have come due. */
  lemma ExpireKeeps(l: Lists, now: nat, after: int)
    requires ListsValid(l) && l.pending == [] && Dated(l, after, Epoch(now))
    ensures var w := ExpireLists(l, Wrap(now));
      && ListsValid(w) && Dated(w, now, Epoch(now)) && w.pending == []
      && w.due == Later(l.due, now) && OnlyAppended(l.ready, w.ready)
      && forall t :: t in l.due && l.due[t] <= now ==> IsReady(w, t)
  {
    var f, ts := ExpireIsWake(l, Wrap(now));
    WakeLists(f, ts);
    ExpireDue(l, now, after);
    ExpireDated(l, now, after);
  }

  /** One tick. */

  /** Nobody is left on the delayed list when the tick count wraps, so switching the lists loses no wait. */
  lemma DelayedEmptyAtSwitch(s: State)
    requires Core(s) && Wrap(s.tick + 1) == 0
    ensures s.lists.delayed == []
  {
    NextTick(s.now);
    forall e | e in s.lists.delayed ensures Epoch(s.now + 1) <= Epoch(s.lists.due[e.owner]) {
      EpochMonotone(s.now + 1, s.lists.due[e.owner]);
    }
    assert forall e :: e !in s.lists.delayed;
  }

  lemma SwitchKeeps(l: Lists, now: nat)
    requires ListsValid(l) && l.delayed == [] && Dated(l, now, Epoch(now))
    ensures var m := l.(delayed := l.overflow, overflow := l.delayed);
      ListsValid(m) && Dated(m, now, Epoch(now) + 1)
  {
    var m := l.(delayed := l.overflow, overflow := l.delayed);
    assert BlockedItems(m) == BlockedItems(l);
    assert StateItems(m) == StateItems(l) && EventItems(m) == EventItems(l);
  }

  /** Counting a tick; every wait still ends after the previous tick. */
  lemma CountKeeps(s: State)
    requires Core(s)
    ensures var u := Count(s);
      && u.now == s.now + 1 && u.tick == Wrap(u.now) && u.overflows == Wrap(Epoch(u.now))
      && u.nextUnblock <= FirstWake(u.lists.delayed)
      && ListsValid(u.lists) && Dated(u.lists, s.now, Epoch(u.now))
  {
    hide ListsValid, Dated, Wrap, Epoch;
    NextTick(s.now);
    if Wrap(s.tick + 1) == 0 {
      DelayedEmptyAtSwitch(s);
      SwitchKeeps(s.lists, s.now);
      assert Count(s).lists == s.lists.(delayed := s.lists.overflow, overflow := s.lists.delayed);
    } else {
      assert Count(s).lists == s.lists;
    }
  }

  /** What a tick leaves alone. */
  ghost predicate SameTasks(s: State, w: State) {
    && w.lists.pending == s.lists.pending && w.lists.priority == s.lists.priority
    && w.suspended == s.suspended && w.pended == s.pended && w.current == s.current && w.tickless == s.tickless
    && w.total == s.total
  }

  /** From `a` to `b` exactly the waits that came due have ended, and their tasks are ready. */
  ghost predicate Elapsed(a: Lists, b: Lists, now: nat) {
    && b.priority == a.priority && OnlyAppended(a.ready, b.ready)
    && b.due == Later(a.due, now)
    && forall t :: t in a.due && a.due[t] <= now ==> IsReady(b, t)
  }

  lemma ElapsedTwice(a: Lists, b: Lists, c: Lists, m: nat, n: nat)
    requires Elapsed(a, b, m) && Elapsed(b, c, n) && m <= n
    ensures Elapsed(a, c, n)
  {
    forall t | t in a.due && a.due[t] <= n ensures IsReady(c, t) {
      if a.due[t] <= m { assert IsReady(b, t); } else { assert t in b.due; }
    }
  }

  lemma TickFrame(s: State)
    ensures SameTasks(s, Tick(s)) && Tick(s).now == s.now + 1
    ensures Count(s).lists.priority == s.lists.priority && Count(s).lists.due == s.lists.due
    ensures Count(s).lists.ready == s.lists.ready && Count(s).lists.pending == s.lists.pending
  {
  }

  /** A tick wakes exactly the tasks whose true wake time it reaches. */
  lemma TickExact(s: State) returns (w: State)
    requires Core(s) && s.lists.pending == []
    ensures w == Tick(s)
    ensures Core(w) && w.now == s.now + 1 && SameTasks(s, w) && Elapsed(s.lists, w.lists, w.now)
  {
    hide Wrap, Epoch, ListsValid, Dated, ExpireLists;
    var u := Count(s);
    CountKeeps(s);
    TickFrame(s);
    w := Tick(s);
    if u.tick >= u.nextUnblock {
      ExpireKeeps(u.lists, u.now, s.now);
    } else {
      NothingDue(u.lists, u.now, s.now);
    }
  }

  /** Before the next unblock time nothing can be due, so skipping the search loses nothing. */
  lemma NothingDue(l: Lists, now: nat, after: int)
    requires ListsValid(l) && Dated(l, after, Epoch(now)) && Wrap(now) < FirstWake(l.delayed)
    ensures Dated(l, now, Epoch(now)) && Elapsed(l, l, now)
  {
    hide Wrap, Epoch, Items, Shelved;
    ExpireDue(l, now, after);
    FiledThisEpoch(l.delayed, l.due, after, now);
    FiledNextEpoch(l.overflow, l.due, after, now);
    assert Due(l.delayed, Wrap(now)) == [] && NotDue(l.delayed, Wrap(now)) == l.delayed;
    forall t | t in l.due ensures now < l.due[t] {}
  }

  lemma {:induction false} TicksExact(s: State, k: nat) returns (w: State)
    requires Core(s) && s.lists.pending == []
    ensures w == Ticks(s, k)
    ensures Core(w) && w.now == s.now + k && SameTasks(s, w) && Elapsed(s.lists, w.lists, w.now)
  {
    hide ListsValid, Dated, Wrap, Epoch;
    if k == 0 {
      w := s;
      forall t | t in s.lists.due ensures s.now < s.lists.due[t] { StillDue(s.lists, s.now, t); }
    } else {
      var u := TicksExact(s, k - 1);
      w := TickExact(u);
      ElapsedTwice(s.lists, u.lists, w.lists, u.now, w.now);
    }
  }

  lemma StillDue(l: Lists, now: nat, t: Task)
    requires ListsValid(l) && Dated(l, now, Epoch(now)) && t in l.due
    ensures now < l.due[t]
  {
    assert t in BlockedItems(l);
    if t in Owners(l.overflow) {
      var e := ItemOfOwner(l.overflow, t);
    } else {
      assert t in multiset(Owners(l.delayed));
      var e := ItemOfOwner(l.delayed, t);
    }
  }

  /** The other steps. */

  lemma DrainLists(l: Lists)
    requires ListsValid(l)
    ensures ListsValid(l.(pending := [])) && Wakeable(l.(pending := []), l.pending)
  {
    var f := l.(pending := []);
    assert EventItems(f) <= EventItems(l);
    assert multiset(l.pending) <= EventItems(l);
    forall t | t in l.pending ensures EventItems(f)[t] == 0 {
      assert multiset(l.pending)[t] > 0 && EventItems(l)[t] <= multiset(l.due.Keys)[t] <= 1;
    }
    assert StateItems(f) == StateItems(l) && BlockedItems(f) == BlockedItems(l);
  }

  lemma WakeFirst(l: Lists, ts: seq<Task>, after: int, epoch: nat)
    requires ListsValid(l) && Wakeable(l, ts) && Dated(l, after, epoch)
    ensures ListsValid(Wake(l, ts)) && Dated(Wake(l, ts), after, epoch)
    ensures FirstWake(l.delayed) <= FirstWake(Wake(l, ts).delayed)
  {
    hide ListsValid, Dated, Wake, Wakeable;
    WakeLists(l, ts);
    assert BlockedItems(l) == multiset(l.due.Keys) by { BlockedAreDue(l); }
    WakeDated(l, ts, after, epoch);
  }

  lemma BlockedAreDue(l: Lists)
    requires ListsValid(l)
    ensures BlockedItems(l) == multiset(l.due.Keys)
  {
  }

  /** Draining the pending list readies every pending task and keeps the clock in order. */
  lemma DrainKeeps(s: State) returns (w: State)
    requires Core(s)
    ensures w == DrainPending(s) && Core(w) && w.lists.pending == [] && w.now == s.now
    ensures w.suspended == s.suspended && w.pended == s.pended && w.total == s.total && w.tick == s.tick
    ensures w.lists.priority == s.lists.priority
  {
    hide Wrap, Epoch, ListsValid, Dated, Wakeable;
    w := DrainPending(s);
    if s.lists.pending != [] {
      var f, ts := s.lists.(pending := []), s.lists.pending;
      DrainLists(s.lists);
      DatedSame(s.lists, f, s.now, Epoch(s.now));
      WakeFirst(f, ts, s.now, Epoch(s.now));
      assert w.lists == Wake(f, ts);
    }
  }

  lemma DatedSame(l: Lists, m: Lists, after: int, epoch: nat)
    requires Dated(l, after, epoch) && m.delayed == l.delayed && m.overflow == l.overflow && m.due == l.due
    ensures Dated(m, after, epoch)
  {
  }

  lemma ResumeKeeps(s: State)
    requires Inv(s) && s.suspended > 0
    ensures Inv(Resume(s))
  {
    hide ListsValid, Dated, Ticks, DrainPending, Wrap, Epoch;
    var t := s.(suspended := s.suspended - 1);
    if t.suspended == 0 {
      var u := DrainKeeps(t);
      var w := TicksExact(u, t.pended);
      WrapSum(t.pended, u.now);
      WrapSum(0, w.now);
      assert Resume(s) == w.(pended := 0);
    }
  }

  /** Jumping forward to below the first wake time neither wraps nor passes a wait. */
  lemma StepStaysInEpoch(s: State, k: nat)
    requires Core(s) && 0 < k && s.tick + k < s.nextUnblock
    ensures s.tick + k < TICKS && Wrap(s.tick + k) == Wrap(s.now + k) == s.tick + k && Epoch(s.now + k) == Epoch(s.now)
    ensures Wrap(s.now + k) < FirstWake(s.lists.delayed)
  {
    hide ListsValid, Dated, Wrap, Epoch;
    NextBound(s);
    StaysInEpoch(s.now, k);
    NoWrap(s.tick + k);
  }

  lemma StepCore(s: State, k: nat)
    requires Core(s) && (k == 0 || s.tick + k < s.nextUnblock)
    ensures Core(s.(tick := Wrap(s.tick + k), now := s.now + k))
  {
    hide ListsValid, Dated, Wrap, Epoch;
    if k > 0 {
      StepStaysInEpoch(s, k);
      NothingDue(s.lists, s.now + k, s.now);
    } else {
      WrapSum(0, s.now);
    }
  }

  lemma StepTickKeeps(s: State, k: nat)
    requires Inv(s) && Enabled(s, StepTicks(k))
    ensures Inv(StepTick(s, k))
  {
    hide ListsValid, Dated, Epoch, Wrap;
    NextBound(s);
    NoWrap(s.tick + k);
    WrapSumBoth(s.tick + s.pended, s.total, k);
    if s.tick + k == s.nextUnblock && k > 0 {
      StepCore(s, k - 1);
      assert s.tick + (k - 1) == s.tick + k - 1 && s.now + (k - 1) == s.now + k - 1;
      WrapSum(Wrap(s.tick + k - 1), s.pended + 1);
      WrapSum(s.pended + 1, s.tick + k - 1);
      SplitTime(s.pended + 1);
    } else {
      StepCore(s, k);
      WrapSum(s.pended, s.tick + k);
    }
  }

  lemma NextBound(s: State)
    requires Core(s)
    ensures s.nextUnblock < TICKS
  {
    hide ListsValid;
    assert s.lists.delayed != [] ==> s.lists.delayed[0] in s.lists.delayed;
  }

  lemma ReadyIsNotBlocked(l: Lists, t: Task)
    requires ListsValid(l) && IsReady(l, t)
    ensures t !in l.due && Items(l.ready)[t] == 1 && t !in EventItems(l)
  {
    InItems(l.ready, l.priority[t], t);
    assert StateItems(l)[t] <= 1;
    assert BlockedItems(l)[t] == 0;
    assert EventItems(l)[t] <= multiset(l.due.Keys)[t];
  }

  lemma FileBalance(ready: multiset<Task>, d: multiset<Task>, o: multiset<Task>, t: Task, tasks: set<Task>, due: set<Task>)
    requires ready + (d + o) == multiset(tasks) && d + o == multiset(due) && t !in due && ready[t] == 1
    ensures (ready - multiset{t}) + ((d + multiset{t}) + o) == multiset(tasks)
    ensures (ready - multiset{t}) + (d + (o + multiset{t})) == multiset(tasks)
    ensures (d + multiset{t}) + o == multiset(due + {t}) && d + (o + multiset{t}) == multiset(due + {t})
  {
    assert multiset(due + {t}) == multiset(due) + multiset{t};
    assert (d + multiset{t}) + o == (d + o) + multiset{t};
    assert d + (o + multiset{t}) == (d + o) + multiset{t};
  }

  /** A ready task goes to a delayed list; its event item may have been put on an event list just before. */
  lemma FileLists(l: Lists, t: Task, tick: nat, now: nat, n: nat)
    requires StateItems(l) == multiset(l.priority.Keys) && BlockedItems(l) == multiset(l.due.Keys)
    requires Shelved(l.ready, l.priority) && t !in l.due && Items(l.ready)[t] == 1
    requires EventItems(l) <= multiset(l.due.Keys + {t})
    ensures ListsValid(File(l, t, tick, now, n))
  {
    hide Wrap, Items, Owners, DropAll, Insert, Shelved, EventItems;
    var m := File(l, t, tick, now, n);
    var e := ListItem(Wrap(tick + n), t);
    DropAllItems(l.ready, t);
    FileShelved(l.ready, l.priority, t);
    assert m.due.Keys == l.due.Keys + {t};
    FileBalance(Items(l.ready), multiset(Owners(l.delayed)), multiset(Owners(l.overflow)), t, l.priority.Keys, l.due.Keys);
    if e.value < tick { InsertOwners(l.overflow, e); } else { InsertOwners(l.delayed, e); }
    SameEvents(l, m);
  }

  lemma FileShelved(ready: seq<seq<Task>>, priority: map<Task, nat>, t: Task)
    requires Shelved(ready, priority)
    ensures Shelved(DropAll(ready, t), priority)
  {
    DropAllMembers(ready, t);
  }

  lemma FileDated(l: Lists, t: Task, now: nat, n: nat)
    requires Dated(l, now, Epoch(now)) && t !in l.due && 1 <= n < TICKS
    ensures Dated(File(l, t, Wrap(now), now, n), now, Epoch(now))
    ensures var wake := Wrap(Wrap(now) + n); var m := File(l, t, Wrap(now), now, n);
      FirstWake(m.delayed) == if wake < Wrap(now) then FirstWake(l.delayed) else Min(wake, FirstWake(l.delayed))
  {
    hide Wrap, Epoch, Filed, Sorted, Insert;
    var e := ListItem(Wrap(Wrap(now) + n), t);
    WaitEnds(now, n);
    SplitTime(now + n);
    FiledMore(l.delayed, l.due, t, now + n, now, Epoch(now));
    FiledMore(l.overflow, l.due, t, now + n, now, Epoch(now) + 1);
    FiledOne(e, l.due[t := now + n], now, Epoch(now + n));
    if e.value < Wrap(now) {
      InsertFiled(l.overflow, l.due[t := now + n], e, now, Epoch(now) + 1);
    } else {
      InsertFiled(l.delayed, l.due[t := now + n], e, now, Epoch(now));
    }
  }

  lemma FileListsFrom(base: Lists, l: Lists, t: Task, tick: nat, now: nat, n: nat)
    requires ListsValid(base) && l == base.(events := l.events) && EventItems(l) <= multiset(l.due.Keys + {t})
    requires t !in l.due && Items(l.ready)[t] == 1
    ensures ListsValid(File(l, t, tick, now, n))
  {
    hide Wrap, EventItems, File, Items, Owners, Shelved;
    assert StateItems(l) == StateItems(base) && BlockedItems(l) == BlockedItems(base);
    FileLists(l, t, tick, now, n);
  }

  lemma DelayKeeps(s: State, l: Lists, n: nat)
    requires Core(s) && 1 <= n < TICKS
    requires l == s.lists.(events := l.events) && EventItems(l) <= multiset(l.due.Keys + {s.current})
    requires s.current !in l.due && Items(l.ready)[s.current] == 1
    ensures Core(Delay(s.(lists := l), n))
  {
    hide Wrap, Epoch, Dated, EventItems, File, Items, ListsValid;
    FileListsFrom(s.lists, l, s.current, s.tick, s.now, n);
    DatedSame(s.lists, l, s.now, Epoch(s.now));
    FileDated(l, s.current, s.now, n);
    DelayNext(s, l, n);
  }

  lemma DelayNext(s: State, l: Lists, n: nat)
    requires s.nextUnblock <= FirstWake(l.delayed)
    requires var wake := Wrap(s.tick + n);
      FirstWake(File(l, s.current, s.tick, s.now, n).delayed) ==
        if wake < s.tick then FirstWake(l.delayed) else Min(wake, FirstWake(l.delayed))
    ensures var d := Delay(s.(lists := l), n); d.nextUnblock <= FirstWake(d.lists.delayed)
  {
  }

  lemma BlockKeeps(s: State, ev: nat, at: nat, n: nat)
    requires Core(s) && Enabled(s, BlockCurrent(ev, at, n))
    ensures Core(BlockOn(s, ev, at, n))
  {
    hide Wrap, Epoch, Dated, Delay, Core;
    var l := PutEvent(s.lists, ev, at, s.current);
    CoreLists(s);
    ReadyIsNotBlocked(s.lists, s.current);
    InsertItems(s.lists.events, ev, at, s.current);
    PutBalance(Items(s.lists.events), multiset(s.lists.pending), s.current, s.lists.due.Keys);
    DelayKeeps(s, l, n);
  }

  lemma CoreLists(s: State)
    requires Core(s)
    ensures ListsValid(s.lists)
  {
  }

  lemma PutBalance(events: multiset<Task>, pending: multiset<Task>, t: Task, due: set<Task>)
    requires events + pending <= multiset(due) && t !in due
    ensures (events + multiset{t}) + pending <= multiset(due + {t})
  {
    assert multiset(due + {t}) == multiset(due) + multiset{t};
  }

  /** Waking one task whose event item has just been freed. */
  lemma WakeOneKeeps(s: State, l: Lists, t: Task)
    requires Core(s) && l == s.lists.(events := l.events) && ListsValid(l) && Wakeable(l, [t])
    ensures Core(WakeOne(s, l, t)) && WakeOne(s, l, t).lists.pending == s.lists.pending
  {
    hide Core, Wake, ListsValid, Wakeable;
    WakeKeeps(s, l, t);
    ResetKeeps(s.(lists := Wake(l, [t])));
    WakeFrame(l, [t]);
  }

  lemma WakeFrame(l: Lists, ts: seq<Task>)
    ensures Wake(l, ts).pending == l.pending && Wake(l, ts).priority == l.priority
  {
  }

  lemma WakeKeeps(s: State, l: Lists, t: Task)
    requires Core(s) && l == s.lists.(events := l.events) && ListsValid(l) && Wakeable(l, [t])
    ensures Core(s.(lists := Wake(l, [t])))
  {
    hide Wrap, Epoch, ListsValid, Dated, Wakeable;
    DatedSame(s.lists, l, s.now, Epoch(s.now));
    WakeFirst(l, [t], s.now, Epoch(s.now));
  }

  lemma ResetKeeps(s: State)
    requires Core(s)
    ensures Core(Reset(s))
  {
    hide Wrap, Epoch, ListsValid, Dated;
  }

  lemma FreedIsWakeable(l: Lists, m: Lists, t: Task)
    requires ListsValid(l) && m == l.(events := m.events)
    requires EventItems(l) == EventItems(m) + multiset{t}
    ensures ListsValid(m) && Wakeable(m, [t])
  {
    assert multiset([t]) == multiset{t};
    assert EventItems(l)[t] <= multiset(l.due.Keys)[t] <= 1;
    assert StateItems(m) == StateItems(l) && BlockedItems(m) == BlockedItems(l);
  }

  lemma SignalFrees(l: Lists, m: Lists, t: Task)
    requires m == l.(events := m.events) && Items(l.events) == Items(m.events) + multiset{t}
    ensures EventItems(l) == EventItems(m) + multiset{t}
  {
  }

  lemma SignalKeeps(s: State, ev: nat)
    requires Inv(s) && Enabled(s, SignalEvent(ev))
    ensures Inv(Signal(s, ev))
  {
    hide ListsValid, Dated, Wrap, Epoch, Items, EventItems, Wakeable;
    var t := s.lists.events[ev][0];
    var l := s.lists.(events := s.lists.events[ev := s.lists.events[ev][1..]]);
    TailItems(s.lists.events, ev);
    if s.suspended > 0 {
      HoldPending(s.lists, l, t);
      DatedSame(s.lists, Signal(s, ev).lists, s.now, Epoch(s.now));
    } else {
      SignalFrees(s.lists, l, t);
      FreedIsWakeable(s.lists, l, t);
      WakeOneKeeps(s, l, t);
    }
  }

  /** Held pending, the task keeps its place on its delayed list and its event item is still on one list. */
  lemma HoldPending(l: Lists, m: Lists, t: Task)
    requires ListsValid(l) && m == l.(events := m.events) && Items(l.events) == Items(m.events) + multiset{t}
    ensures ListsValid(m.(pending := m.pending + [t]))
  {
    var h := m.(pending := m.pending + [t]);
    assert EventItems(h) == EventItems(l);
    assert StateItems(h) == StateItems(l) && BlockedItems(h) == BlockedItems(l);
  }

  lemma UnblockFrees(l: Lists, t: Task)
    requires ListsValid(l) && t in Items(l.events)
    ensures EventItems(l) == EventItems(l.(events := DropAll(l.events, t))) + multiset{t}
  {
    hide Items, DropAll, StateItems, BlockedItems, Shelved;
    FreeBalance(Items(l.events), multiset(l.pending), t, l.due.Keys);
    DropAllItems(l.events, t);
  }

  lemma FreeBalance(events: multiset<Task>, pending: multiset<Task>, t: Task, due: set<Task>)
    requires events + pending <= multiset(due) && t in events
    ensures events[t] <= 1 && events + pending == ((events - multiset{t}) + pending) + multiset{t}
  {
    assert (events + pending)[t] <= multiset(due)[t] <= 1;
  }

  lemma UnblockKeeps(s: State, t: Task)
    requires Inv(s) && Enabled(s, UnblockTask(t))
    ensures Inv(Unblock(s, t))
  {
    hide Core, Wrap, Wake, ListsValid, Wakeable, EventItems, Items, DropAll;
    var l := s.lists.(events := DropAll(s.lists.events, t));
    CoreLists(s);
    UnblockFrees(s.lists, t);
    FreedIsWakeable(s.lists, l, t);
    ResetKeeps(s);
    WakeKeeps(if s.tickless then Reset(s) else s, l, t);
    WakeFrame(l, [t]);
  }

  lemma DelayCurrentKeeps(s: State, n: nat)
    requires Core(s) && Enabled(s, DelayCurrent(n))
    ensures Core(Delay(s, n))
  {
    hide Wrap, Epoch, Dated, Delay, Core;
    CoreLists(s);
    ReadyIsNotBlocked(s.lists, s.current);
    assert EventItems(s.lists) <= multiset(s.lists.due.Keys + {s.current});
    assert s.(lists := s.lists) == s && s.lists == s.lists.(events := s.lists.events);
    DelayKeeps(s, s.lists, n);
  }

  /** Every step, and so every run, keeps the invariant. */

  lemma TickInterruptKeeps(s: State)
    requires Inv(s)
    ensures Inv(TickInterrupt(s))
  {
    hide ListsValid, Dated, Epoch, Tick, Wrap;
    WrapSumBoth(s.tick + s.pended, s.total, 1);
    if s.suspended == 0 {
      var w := TickExact(s);
      WrapSum(1, s.now);
      WrapSum(0, s.now + 1);
    } else {
      WrapSum(s.tick, s.pended + 1);
      SplitTime(s.pended + 1);
    }
  }

  lemma AddPendedKeeps(s: State, k: nat)
    requires Inv(s) && s.suspended > 0
    ensures Inv(s.(pended := Wrap(s.pended + k), total := s.total + k))
  {
    hide ListsValid, Dated, Epoch, Wrap;
    WrapSumBoth(s.tick + s.pended, s.total, k);
    WrapSum(s.tick, s.pended + k);
    SplitTime(s.pended + k);
  }

  lemma BlockingKeeps(s: State, a: Action)
    requires Inv(s) && Enabled(s, a) && (a.DelayCurrent? || a.BlockCurrent?)
    ensures Inv(Next(s, a))
  {
    hide ListsValid, Dated, Epoch, Wrap;
    match a
    case DelayCurrent(n) => DelayCurrentKeeps(s, n);
    case BlockCurrent(ev, at, n) => BlockKeeps(s, ev, at, n);
  }

  lemma NextKeeps(s: State, a: Action)
    requires Inv(s)
    ensures Inv(Next(s, a))
  {
    hide ListsValid, Dated, Wrap, Epoch, Resume, TickInterrupt, StepTick, Delay, BlockOn, Signal, Unblock;
    if Enabled(s, a) {
      match a
      case TickIsr => TickInterruptKeeps(s);
      case SuspendAll =>
      case ResumeAll => ResumeKeeps(s);
      case AddPended(k) => AddPendedKeeps(s, k);
      case StepTicks(k) => StepTickKeeps(s, k);
      case DelayCurrent(_) => BlockingKeeps(s, a);
      case BlockCurrent(_, _, _) => BlockingKeeps(s, a);
      case SignalEvent(ev) => SignalKeeps(s, ev);
      case UnblockTask(t) => UnblockKeeps(s, t);
      case Dispatch(_) =>
    }
  }

  lemma {:induction false} RunKeeps(s: State, actions: seq<Action>)
    requires Inv(s)
    ensures Inv(Run(s, actions))
    decreases |actions|
  {
    hide Inv, Next;
    if actions != [] {
      RunKeeps(s, actions[..|actions| - 1]);
      NextKeeps(Run(s, actions[..|actions| - 1]), actions[|actions| - 1]);
    }
  }

  /** The kernel as vTaskStartScheduler leaves it: every task ready, nobody waiting. */
  ghost predicate Initial(s: State) {
    && s.lists.delayed == [] && s.lists.overflow == [] && s.lists.pending == [] && s.lists.due == map[]
    && Items(s.lists.events) == multiset{}
    && s.lists.priority.Keys != {} && Items(s.lists.ready) == multiset(s.lists.priority.Keys)
    && Shelved(s.lists.ready, s.lists.priority)
    && s.tick == 0 && s.overflows == 0 && s.nextUnblock == MAX_DELAY && s.suspended == 0 && s.pended == 0
    && s.now == 0 && s.total == 0
  }

  lemma InitialInv(s: State)
    requires Initial(s)
    ensures Inv(s)
  {
    assert BlockedItems(s.lists) == multiset{};
  }

  /** Over every run the state item of each task is in exactly one list and its event item in at most one; a task is in a
      ready list exactly when it waits for nothing; tasks are held pending and ticks pended only while the scheduler is
      suspended; every tick is counted once; and the next unblock time is never later than the first wake time. */
  lemma SuspensionProtocol(s: State, actions: seq<Action>, t: Task)
    requires Inv(s)
    ensures var r := Run(s, actions);
      && (t in r.lists.priority ==> StateItems(r.lists)[t] == 1 && EventItems(r.lists)[t] <= 1)
      && (t in Items(r.lists.ready) <==> t in r.lists.priority && t !in r.lists.due)
      && (t in EventItems(r.lists) ==> t in r.lists.due)
      && (r.suspended == 0 ==> r.lists.pending == [] && r.pended == 0)
      && Wrap(r.tick + r.pended) == Wrap(r.total) && r.tick == Wrap(r.now) && r.overflows == Wrap(Epoch(r.now))
      && r.nextUnblock <= FirstWake(r.lists.delayed)
  {
    hide Run, Wrap, Epoch, Dated;
    RunKeeps(s, actions);
    OneListEach(Run(s, actions).lists, t);
  }

  lemma OneListEach(l: Lists, t: Task)
    requires ListsValid(l)
    ensures t in l.priority ==> StateItems(l)[t] == 1 && EventItems(l)[t] <= 1
    ensures t in Items(l.ready) <==> t in l.priority && t !in l.due
    ensures t in EventItems(l) ==> t in l.due
  {
    hide Items, Shelved;
    assert StateItems(l)[t] == Items(l.ready)[t] + BlockedItems(l)[t];
    assert BlockedItems(l)[t] == multiset(l.due.Keys)[t];
    assert EventItems(l)[t] <= multiset(l.due.Keys)[t] <= 1;
  }

  /** Over every run the delayed list holds exactly the waits that end in the current epoch of 2^32 ticks and the
      overflow list those that end in the next; no other wait exists and none is overdue. */
  lemma EpochSplit(s: State, actions: seq<Action>, t: Task)
    requires Inv(s)
    ensures var r := Run(s, actions);
      && (t in Owners(r.lists.delayed) <==> t in r.lists.due && Epoch(r.lists.due[t]) == Epoch(r.now))
      && (t in Owners(r.lists.overflow) <==> t in r.lists.due && Epoch(r.lists.due[t]) == Epoch(r.now) + 1)
      && (t in r.lists.due ==> r.now < r.lists.due[t])
  {
    hide Run;
    var r := Run(s, actions);
    RunKeeps(s, actions);
    SplitHere(r.lists, r.now, t);
  }

  lemma SplitHere(l: Lists, now: nat, t: Task)
    requires ListsValid(l) && Dated(l, now, Epoch(now))
    ensures t in Owners(l.delayed) <==> t in l.due && Epoch(l.due[t]) == Epoch(now)
    ensures t in Owners(l.overflow) <==> t in l.due && Epoch(l.due[t]) == Epoch(now) + 1
    ensures t in l.due ==> now < l.due[t]
  {
    assert t in BlockedItems(l) <==> t in Owners(l.delayed) || t in Owners(l.overflow);
    if t in Owners(l.delayed) { var e := ItemOfOwner(l.delayed, t); }
    if t in Owners(l.overflow) { var e := ItemOfOwner(l.overflow, t); }
  }

  /** Exact wake-up. */

  /** The wait of t goes on, to end at d, or d has been reached and t is ready. */
  ghost predicate Waits(s: State, t: Task, d: nat) {
    t in s.lists.due && s.lists.due[t] == d && t !in s.lists.pending
  }

  /** The action ends a wait of t other than by time. */
  predicate Signalled(s: State, a: Action, t: Task) {
    || (a.SignalEvent? && Enabled(s, a) && s.lists.events[a.ev][0] == t)
    || a == UnblockTask(t)
  }

  ghost predicate Undisturbed(s: State, actions: seq<Action>, t: Task) {
    forall i :: 0 <= i < |actions| ==> !Signalled(Run(s, actions[..i]), actions[i], t)
  }

  lemma WaitsThroughTicks(a: State, b: State, t: Task, d: nat)
    requires Waits(a, t, d) && Elapsed(a.lists, b.lists, b.now) && b.lists.pending == []
    ensures if b.now < d then Waits(b, t, d) else IsReady(b.lists, t)
  {
  }

  lemma ResumeWaits(s: State, t: Task, d: nat)
    requires Inv(s) && s.suspended > 0 && Waits(s, t, d)
    ensures var r := Resume(s);
      s.now <= r.now && if r.now < d then Waits(r, t, d) else IsReady(r.lists, t)
  {
    hide ListsValid, Dated, Ticks, DrainPending, Wrap, Epoch, Elapsed;
    var p := s.(suspended := s.suspended - 1);
    if p.suspended == 0 {
      var u := DrainKeeps(p);
      DrainWaits(p, t, d);
      var w := TicksExact(u, p.pended);
      WaitsThroughTicks(u, w, t, d);
      assert Resume(s) == w.(pended := 0);
    } else {
      StillDue(s.lists, s.now, t);
    }
  }

  lemma DrainWaits(s: State, t: Task, d: nat)
    requires Waits(s, t, d)
    ensures Waits(DrainPending(s), t, d)
  {
  }

  /** One step: the wait of t continues until the step that reaches its end, which makes t ready. */
  lemma StepWaits(s: State, a: Action, t: Task, d: nat)
    requires Inv(s) && Waits(s, t, d) && !Signalled(s, a, t)
    ensures var r := Next(s, a);
      s.now <= r.now && if r.now < d then Waits(r, t, d) else IsReady(r.lists, t)
  {
    hide ListsValid, Dated, Wrap, Epoch, Resume, Elapsed, File, Tick, Insert;
    StillDue(s.lists, s.now, t);
    if Enabled(s, a) {
      match a
      case TickIsr =>
        if s.suspended == 0 {
          var w := TickExact(s);
          WaitsThroughTicks(s, w, t, d);
        }
      case ResumeAll => ResumeWaits(s, t, d);
      case StepTicks(k) =>
        StepTickKeeps(s, k);
        StillDue(StepTick(s, k).lists, StepTick(s, k).now, t);
      case DelayCurrent(n) =>
        ReadyIsNotBlocked(s.lists, s.current);
        FileWaits(s.lists, s.current, s.tick, s.now, n, t);
      case BlockCurrent(ev, at, n) =>
        ReadyIsNotBlocked(s.lists, s.current);
        FileWaits(PutEvent(s.lists, ev, at, s.current), s.current, s.tick, s.now, n, t);
      case _ =>
    }
  }

  lemma FileWaits(l: Lists, c: Task, tick: nat, now: nat, n: nat, t: Task)
    requires t in l.due && c != t
    ensures var m := File(l, c, tick, now, n); t in m.due && m.due[t] == l.due[t] && m.pending == l.pending
  {
  }

  /** A task blocked until true time d, and not woken otherwise, is blocked while the clock is short of d, and is ready
      after exactly the step whose ticks reach d, on every run and across every wrap of the tick count. */
  lemma {:induction false} ExactWake(s: State, actions: seq<Action>, t: Task, d: nat)
    requires Inv(s) && Waits(s, t, d) && Undisturbed(s, actions, t)
    ensures Run(s, actions).now < d ==> Waits(Run(s, actions), t, d)
    ensures actions != [] ==>
      var before := Run(s, actions[..|actions| - 1]);
      before.now < d <= Run(s, actions).now ==> Waits(before, t, d) && IsReady(Run(s, actions).lists, t)
    decreases |actions|
  {
    hide Inv, Waits, Next;
    if actions != [] {
      var init, a := actions[..|actions| - 1], actions[|actions| - 1];
      var before := Run(s, init);
      forall i | 0 <= i < |init| ensures !Signalled(Run(s, init[..i]), init[i], t) {
        assert init[..i] == actions[..i];
      }
      ExactWake(s, init, t, d);
      RunKeeps(s, init);
      assert !Signalled(before, a, t);
      NextMonotone(before, a);
      if before.now < d { StepWaits(before, a, t, d); }
    }
  }

  lemma NextMonotone(s: State, a: Action)
    requires Inv(s)
    ensures s.now <= Next(s, a).now
  {
    hide ListsValid, Dated, Wrap, Epoch, Elapsed, Tick, Ticks, DrainPending, File;
    if Enabled(s, a) {
      match a
      case TickIsr => if s.suspended == 0 { var w := TickExact(s); }
      case ResumeAll =>
        var p := s.(suspended := s.suspended - 1);
        if p.suspended == 0 {
          var u := DrainKeeps(p);
          var w := TicksExact(u, p.pended);
        }
      case _ =>
    }
  }
}
