/** The timer daemon's steps, and what they keep over every run. */
module TimerProofs {
  import opened Arithmetic
  import opened Common
  import opened Clock
  import opened TimedLists
  import opened Timers

  /** Placement. */

  /** With a period of 1 to 2^32 - 1 and less than 2^32 ticks between command and processing, a timer is processed at
      once if and only if its true expiry has come; otherwise it goes to the overflow list if and only if it expires in
      the next epoch, and expires in this one if not. */
  lemma PlacementExact(command: nat, now: nat, period: nat)
    requires command <= now < command + TICKS && 1 <= period < TICKS
    ensures var expiry := command + period;
      && (ProcessNow(Wrap(expiry), Wrap(now), Wrap(command), period) <==> expiry <= now)
      && (now < expiry ==> Epoch(expiry) == Epoch(now) + if Wrap(expiry) <= Wrap(now) then 1 else 0)
  {
    hide Wrap, Epoch;
    var expiry := command + period;
    SplitTime(command);
    SplitTime(now);
    SplitTime(expiry);
    ElapsedTicks(command, now);
    WaitEnds(command, period);
  }

  lemma ElapsedTicks(a: nat, b: nat)
    requires a <= b < a + TICKS
    ensures Wrap(Wrap(b) - Wrap(a)) == b - a
  {
    SplitTime(a);
    SplitTime(b);
  }

  /** Catching up. */

  /** A timer that expired at e and is reloaded at `now` gets one callback for each further expiry up to now, in order,
      and is filed at the first one past now. */
  lemma {:induction false} CatchUpExact(t: Id, e: nat, p: nat, now: nat, at: nat)
    requires 0 < p && e <= now
    ensures Missed(e, p, now) == (now - e) / p
    ensures |CatchUp(t, e, p, now, at)| == Missed(e, p, now)
    ensures forall i :: 0 <= i < Missed(e, p, now) ==> CatchUp(t, e, p, now, at)[i] == Callback(t, e + (i + 1) * p, at)
    ensures FirstAfter(e, p, now) == e + (Missed(e, p, now) + 1) * p
    ensures now < FirstAfter(e, p, now) <= now + p
    decreases now - e
  {
    if e + p <= now {
      CatchUpExact(t, e + p, p, now, at);
      DivStep(now - e, p);
      var rest := CatchUp(t, e + p, p, now, at);
      forall i | 0 <= i < Missed(e, p, now) ensures CatchUp(t, e, p, now, at)[i] == Callback(t, e + (i + 1) * p, at) {
        if i > 0 {
          assert rest[i - 1] == Callback(t, e + p + (i - 1 + 1) * p, at);
          Distribute(i, p);
        }
      }
      Distribute(Missed(e, p, now), p);
    } else {
      SmallDiv(now - e, p);
    }
  }

  lemma {:induction false} CatchUpOnTime(t: Id, e: nat, p: nat, now: nat, at: nat)
    requires 0 < p && now <= at
    ensures LogValid(CatchUp(t, e, p, now, at))
    decreases now - e
  {
    if e + p <= now { CatchUpOnTime(t, e + p, p, now, at); }
  }

  /** Filing. */

  lemma FutureEpoch(now: nat, x: nat)
    requires now < x < now + TICKS
    ensures Epoch(x) == Epoch(now) + if Wrap(x) <= Wrap(now) then 1 else 0
  {
    SplitTime(now);
    SplitTime(x);
  }

  lemma FileBalance(c: multiset<Id>, o: multiset<Id>, t: Id, keys: set<Id>)
    requires c + o == multiset(keys) && t !in keys
    ensures (c + multiset{t}) + o == multiset(keys + {t}) && c + (o + multiset{t}) == multiset(keys + {t})
  {
    assert multiset(keys + {t}) == multiset(keys) + multiset{t};
    assert (c + multiset{t}) + o == (c + o) + multiset{t};
    assert c + (o + multiset{t}) == (c + o) + multiset{t};
  }

  lemma FileKeeps(s: Service, t: Id, expiry: nat, now: nat)
    requires ListsValid(s) && t !in s.expires && now < expiry < now + TICKS && Epoch(now) == Epoch(s.sampled)
    ensures ListsValid(File(s, t, expiry, now))
  {
    hide Wrap, Epoch, Filed, Sorted, Insert, Owners;
    var item, expires := ListItem(Wrap(expiry), t), s.expires[t := expiry];
    FutureEpoch(now, expiry);
    FiledMore(s.current, s.expires, t, expiry, -1, Epoch(now));
    FiledMore(s.overflow, s.expires, t, expiry, -1, Epoch(now) + 1);
    FiledOne(item, expires, -1, Epoch(expiry));
    FileBalance(multiset(Owners(s.current)), multiset(Owners(s.overflow)), t, s.expires.Keys);
    assert expires.Keys == s.expires.Keys + {t};
    if item.value <= Wrap(now) {
      InsertFiled(s.overflow, expires, item, -1, Epoch(now) + 1);
      InsertOwners(s.overflow, item);
    } else {
      InsertFiled(s.current, expires, item, -1, Epoch(now));
      InsertOwners(s.current, item);
    }
  }

  /** A timer off the lists. */
  lemma UnlistLists(s: Service, t: Id)
    requires ListsValid(s)
    ensures ListsValid(Unlist(s, t))
  {
    hide Wrap, Epoch, Filed, Sorted, Owners, RemoveOwner;
    var u := Unlist(s, t);
    RemoveItem(s.current, t);
    RemoveItem(s.overflow, t);
    UnlistBalance(multiset(Owners(s.current)), multiset(Owners(s.overflow)), t, s.expires.Keys);
    assert u.expires.Keys == s.expires.Keys - {t};
    RemoveOne(s.current, t, s.expires, Epoch(s.sampled));
    RemoveOne(s.overflow, t, s.expires, Epoch(s.sampled) + 1);
  }

  lemma UnlistBalance(c: multiset<Id>, o: multiset<Id>, t: Id, keys: set<Id>)
    requires c + o == multiset(keys)
    ensures (c - multiset{t}) + (o - multiset{t}) == multiset(keys - {t}) && c[t] <= 1 && o[t] <= 1
  {
    assert (c + o)[t] <= 1;
    assert multiset(keys - {t}) == multiset(keys) - multiset{t};
  }

  lemma RemoveOne(es: seq<ListItem>, t: Id, expires: map<Id, nat>, epoch: nat)
    requires Filed(es, expires, -1, epoch) && Sorted(es) && multiset(Owners(es))[t] <= 1
    ensures Filed(RemoveOwner(es, t), expires - {t}, -1, epoch) && Sorted(RemoveOwner(es, t))
  {
    FiledRemove(es, [t], expires, -1, epoch);
    assert RemoveOwners(es, [t]) == RemoveOwner(es, t) by {
      var ts := [t];
      assert ts[0] == t && ts[1..] == [];
      assert RemoveOwners(RemoveOwner(es, t), []) == RemoveOwner(es, t);
    }
    assert SetOf([t]) == {t};
  }

  /** Expiry. */

  /** A timer that is off the lists is dealt with: it is filed again or inactive afterwards. */
  lemma ExpiredKeeps(s: Service, t: Id, e: nat, limit: nat, at: nat, except: set<Id>)
    requires ListsValid(s) && TimersValid(s, except + {t}) && LogValid(s.log)
    requires t in s.timers && t !in s.expires && s.timers[t].active && t !in except
    requires e <= limit <= at && Epoch(limit) == Epoch(s.sampled)
    ensures Valid(Expired(s, t, e, limit, at), except)
  {
    hide ListsValid, CatchUp, FirstAfter, Wrap, Epoch;
    var p := s.timers[t].period;
    if s.timers[t].autoReload {
      CatchUpExact(t, e, p, limit, at);
      CatchUpOnTime(t, e, p, limit, at);
      var u := s.(log := s.log + CatchUp(t, e, p, limit, at));
      SameLists(s, u);
      FileKeeps(u, t, FirstAfter(e, p, limit), limit);
      SameLists(Reload(s, t, e, limit, at), Expired(s, t, e, limit, at));
    } else {
      SameLists(s, Expired(s, t, e, limit, at));
    }
  }

  lemma SameLists(s: Service, u: Service)
    requires ListsValid(s) && u.current == s.current && u.overflow == s.overflow
    requires u.expires == s.expires && u.sampled == s.sampled
    ensures ListsValid(u)
  {
  }

  lemma HeadValid(s: Service, except: set<Id>)
    requires Valid(s, except) && s.current != []
    ensures var t := s.current[0].owner;
      && t in s.expires && t in s.timers && 0 < s.timers[t].period < TICKS && t !in except && s.timers[t].active
      && Epoch(s.expires[t]) == Epoch(s.sampled) && s.current[0].value == Wrap(s.expires[t])
  {
    assert s.current[0] in s.current;
  }

  lemma TakeHeadLists(s: Service)
    requires ListsValid(s) && s.current != []
    ensures ListsValid(s.(current := s.current[1..], expires := s.expires - {s.current[0].owner}))
    ensures Unlist(s, s.current[0].owner) == s.(current := s.current[1..], expires := s.expires - {s.current[0].owner})
  {
    var t := s.current[0].owner;
    UnlistLists(s, t);
    OnlyCurrent(multiset(Owners(s.current)), multiset(Owners(s.overflow)), t, s.expires.Keys);
    assert t == Owners(s.current)[0];
    RemoveAbsent(s.overflow, t);
  }

  lemma OnlyCurrent(c: multiset<Id>, o: multiset<Id>, t: Id, keys: set<Id>)
    requires c + o == multiset(keys)
    ensures t in c ==> t !in o
  {
    assert (c + o)[t] <= 1;
  }

  lemma ProcessExpiredKeeps(s: Service, limit: nat, at: nat, except: set<Id>)
    requires Valid(s, except) && s.current != []
    ensures var t := s.current[0].owner; t in s.expires && t in s.timers && s.timers[t].period > 0
    ensures s.expires[s.current[0].owner] <= limit <= at && Epoch(limit) == Epoch(s.sampled) ==>
      Valid(ProcessExpired(s, limit, at), except) && ProcessExpired(s, limit, at).sampled == s.sampled
  {
    hide ListsValid, Wrap, Epoch, Expired;
    var t := s.current[0].owner;
    HeadValid(s, except);
    TakeHeadLists(s);
    var u := s.(current := s.current[1..], expires := s.expires - {t});
    if s.expires[t] <= limit <= at && Epoch(limit) == Epoch(s.sampled) {
      ExpiredKeeps(u, t, s.expires[t], limit, at, except);
      ExpiredSampled(u, t, s.expires[t], limit, at);
    }
  }

  lemma ExpiredSampled(s: Service, t: Id, e: nat, limit: nat, at: nat)
    requires t in s.timers && s.timers[t].period > 0
    ensures Expired(s, t, e, limit, at).sampled == s.sampled
  {
  }
}
