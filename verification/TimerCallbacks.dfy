/** An auto-reload timer that is left alone gets every one of its callbacks, once, over every run of the daemon. */
module TimerCallbacks {
  import opened Arithmetic
  import opened Common
  import opened Clock
  import opened TimedLists
  import opened Timers
  import opened TimerProofs
  import opened TimerDaemon

  /** The expiries that callbacks of t have answered. */
  function Fired(log: seq<Callback>, t: Id): multiset<nat> {
    if log == [] then multiset{}
    else (if log[0].timer == t then multiset{log[0].expiry} else multiset{}) + Fired(log[1..], t)
  }

  /** k expiries, one period apart. */
  function Series(e: nat, p: nat, k: nat): seq<nat>
    decreases k
  {
    if k == 0 then [] else [e] + Series(e + p, p, k - 1)
  }

  lemma {:induction false} SeriesAt(e: nat, p: nat, k: nat, i: nat)
    requires i < k
    ensures |Series(e, p, k)| == k && Series(e, p, k)[i] == e + i * p
    decreases k
  {
    SeriesLength(e, p, k);
    if i > 0 {
      SeriesAt(e + p, p, k - 1, i - 1);
      Distribute(i - 1, p);
    }
  }

  lemma {:induction false} SeriesLength(e: nat, p: nat, k: nat)
    ensures |Series(e, p, k)| == k
    decreases k
  {
    if k > 0 { SeriesLength(e + p, p, k - 1); }
  }

  lemma {:induction false} SeriesSplit(e: nat, p: nat, j: nat, k: nat)
    ensures 0 <= j * p && Series(e, p, j + k) == Series(e, p, j) + Series(e + j * p, p, k)
    ensures (j + k) * p == j * p + k * p
    decreases j
  {
    if j > 0 {
      SeriesSplit(e + p, p, j - 1, k);
      Distribute(j - 1, p);
      Distribute(j - 1 + k, p);
      assert e + p + (j - 1) * p == e + j * p;
    }
  }

  lemma {:induction false} FiredAppend(a: seq<Callback>, b: seq<Callback>, t: Id)
    ensures Fired(a + b, t) == Fired(a, t) + Fired(b, t)
    decreases |a|
  {
    if a == [] {
      assert a + b == b;
    } else {
      assert (a + b)[1..] == a[1..] + b;
      FiredAppend(a[1..], b, t);
    }
  }

  lemma {:induction false} FiredCatchUp(t: Id, e: nat, p: nat, now: nat, at: nat)
    requires p > 0
    ensures Fired(CatchUp(t, e, p, now, at), t) == multiset(Series(e + p, p, Missed(e, p, now)))
    decreases now - e
  {
    hide Fired, Series;
    if e + p <= now {
      FiredCatchUp(t, e + p, p, now, at);
      CatchUpStep(t, e, p, now, at);
      FiredAppend([Callback(t, e + p, at)], CatchUp(t, e + p, p, now, at), t);
      FiredOne(t, e + p, at, t);
      SeriesHead(e + p, p, Missed(e, p, now));
    } else {
      NoneFired(e + p, p, t);
    }
  }

  lemma {:induction false} OtherCatchUp(x: Id, e: nat, p: nat, now: nat, at: nat, t: Id)
    requires p > 0 && x != t
    ensures Fired(CatchUp(x, e, p, now, at), t) == multiset{}
    decreases now - e
  {
    hide Fired;
    if e + p <= now {
      OtherCatchUp(x, e + p, p, now, at, t);
      FiredAppend([Callback(x, e + p, at)], CatchUp(x, e + p, p, now, at), t);
      FiredOne(x, e + p, at, t);
    } else {
      NoneFired(e, p, t);
    }
  }

  lemma CatchUpStep(t: Id, e: nat, p: nat, now: nat, at: nat)
    requires p > 0 && e + p <= now
    ensures CatchUp(t, e, p, now, at) == [Callback(t, e + p, at)] + CatchUp(t, e + p, p, now, at)
    ensures Missed(e, p, now) == Missed(e + p, p, now) + 1
  {
  }

  lemma NoneFired(e: nat, p: nat, t: Id)
    ensures Fired([], t) == multiset{} && Series(e, p, 0) == []
  {
  }

  lemma SeriesHead(e: nat, p: nat, k: nat)
    requires k > 0
    ensures multiset(Series(e, p, k)) == multiset{e} + multiset(Series(e + p, p, k - 1))
  {
    assert Series(e, p, k) == [e] + Series(e + p, p, k - 1);
  }

  // ---- Progress of one timer.

  /** From s to r, timer t has moved on by k periods and fired for each of them. */
  ghost predicate Progress(s: Service, r: Service, t: Id, k: nat) {
    && t in s.timers && t in r.timers && r.timers[t] == s.timers[t]
    && t in s.expires && t in r.expires
    && r.expires[t] == s.expires[t] + k * s.timers[t].period
    && Fired(r.log, t) == Fired(s.log, t) + multiset(Series(s.expires[t], s.timers[t].period, k))
  }

  /** Nothing about t has changed. */
  ghost predicate Untouched(s: Service, r: Service, t: Id) {
    && t in s.timers && t in r.timers && r.timers[t] == s.timers[t]
    && t in s.expires && t in r.expires && r.expires[t] == s.expires[t]
    && Fired(r.log, t) == Fired(s.log, t)
  }

  lemma UntouchedProgress(s: Service, r: Service, t: Id)
    requires Untouched(s, r, t)
    ensures Progress(s, r, t, 0)
  {
  }

  lemma ProgressTwice(s: Service, r: Service, u: Service, t: Id, j: nat, k: nat)
    requires Progress(s, r, t, j) && Progress(r, u, t, k)
    ensures Progress(s, u, t, j + k)
  {
    hide Series, Fired;
    SeriesSplit(s.expires[t], s.timers[t].period, j, k);
  }

  /** Timer t, due at e, has been called back for k expiries and is listed under the next. */
  ghost predicate FiredSince(s: Service, r: Service, t: Id, e: nat, k: nat) {
    && t in s.timers && t in r.expires && r.expires[t] == e + k * s.timers[t].period
    && Fired(r.log, t) == Fired(s.log, t) + multiset(Series(e, s.timers[t].period, k))
  }

  /** What a timer that expired at e is given, when it is processed at `limit`. */
  lemma ExpiredFires(s: Service, t: Id, e: nat, limit: nat, at: nat) returns (k: nat)
    requires t in s.timers && s.timers[t].period > 0 && s.timers[t].autoReload && e <= limit
    ensures var r := Expired(s, t, e, limit, at);
      r.timers == s.timers && FiredSince(s, r, t, e, k) && limit < r.expires[t] <= limit + s.timers[t].period
  {
    hide Fired, Series, CatchUp, FirstAfter, Missed, Wrap;
    var p := s.timers[t].period;
    CatchUpExact(t, e, p, limit, at);
    var missed, last := CatchUp(t, e, p, limit, at), [Callback(t, e, at)];
    FiredAppend(s.log, missed, t);
    FiredAppend(s.log + missed, last, t);
    FiredCatchUp(t, e, p, limit, at);
    FiredOne(t, e, at, t);
    k := Missed(e, p, limit) + 1;
    SeriesHead(e, p, k);
  }

  lemma FiredOne(x: Id, e: nat, at: nat, t: Id)
    ensures Fired([Callback(x, e, at)], t) == if x == t then multiset{e} else multiset{}
  {
    assert [Callback(x, e, at)][1..] == [];
  }

  lemma ExpiredOther(s: Service, x: Id, e: nat, limit: nat, at: nat, t: Id)
    requires x in s.timers && s.timers[x].period > 0 && x != t && t in s.timers && t in s.expires
    ensures Untouched(s, Expired(s, x, e, limit, at), t)
  {
    hide Fired, CatchUp, FirstAfter, Wrap;
    var p := s.timers[x].period;
    var missed, last := CatchUp(x, e, p, limit, at), [Callback(x, e, at)];
    FiredAppend(s.log, missed, t);
    FiredAppend(s.log + missed, last, t);
    FiredAppend(s.log, last, t);
    OtherCatchUp(x, e, p, limit, at, t);
    FiredOne(x, e, at, t);
  }

  // ---- Steps of the daemon.

  lemma ProcessProgress(s: Service, limit: nat, at: nat, except: set<Id>, t: Id) returns (k: nat)
    requires Valid(s, except) && s.current != []
    requires var h := s.current[0].owner; h in s.expires && h in s.timers && s.timers[h].period > 0
    requires s.expires[s.current[0].owner] <= limit
    requires t in s.timers && t in s.expires && s.timers[t].autoReload
    ensures Progress(s, ProcessExpired(s, limit, at), t, k)
  {
    hide Valid, Expired, Fired, Series;
    var h := s.current[0].owner;
    var u := s.(current := s.current[1..], expires := s.expires - {h});
    if h == t {
      k := ExpiredFires(u, t, s.expires[t], limit, at);
    } else {
      ExpiredOther(u, h, s.expires[h], limit, at, t);
      UntouchedProgress(s, ProcessExpired(s, limit, at), t);
      k := 0;
    }
  }

  lemma {:induction false} DrainProgress(s: Service, at: nat, except: set<Id>, t: Id) returns (k: nat)
    requires Valid(s, except) && EndOfEpoch(s.sampled) <= at
    requires t in s.timers && t in s.expires && s.timers[t].autoReload
    ensures Progress(s, Drain(s, at, except), t, k)
    decreases |s.current|
  {
    hide Valid, EndOfEpoch, ProcessExpired, Fired, Series;
    if s.current == [] {
      UntouchedProgress(s, s, t);
      k := 0;
    } else {
      DrainStep(s, at, except);
      HeadExpired(s, except);
      var r := ProcessExpired(s, EndOfEpoch(s.sampled), at);
      var i := ProcessProgress(s, EndOfEpoch(s.sampled), at, except, t);
      var j := DrainProgress(r, at, except, t);
      ProgressTwice(s, r, Drain(s, at, except), t, i, j);
      k := i + j;
    }
  }

  lemma HeadExpired(s: Service, except: set<Id>)
    requires Valid(s, except) && s.current != []
    ensures s.current[0].owner in s.expires && s.expires[s.current[0].owner] <= EndOfEpoch(s.sampled)
  {
    hide EndOfEpoch, Wrap, Epoch, TimersValid;
    HeadValid(s, except);
    ExpiredByEnd(s.sampled, s.expires[s.current[0].owner]);
  }

  /** Progress looks at the timer, its expiry and the log only. */
  lemma ProgressFrame(s: Service, r: Service, u: Service, t: Id, k: nat)
    requires Progress(s, r, t, k) && u.timers == r.timers && u.expires == r.expires && u.log == r.log
    ensures Progress(s, u, t, k)
  {
  }

  lemma SampleProgress(s: Service, now: nat, except: set<Id>, t: Id) returns (k: nat)
    requires Valid(s, except) && Timely(s, now)
    requires t in s.timers && t in s.expires && s.timers[t].autoReload
    ensures Progress(s, Sample(s, now, except), t, k)
  {
    hide Valid, EndOfEpoch, Wrap, Epoch, Fired, Series, Drain;
    SampleEpochs(s.sampled, now);
    if Wrap(now) < Wrap(s.sampled) {
      k := DrainProgress(s, now, except, t);
      ProgressFrame(s, Drain(s, now, except), Sample(s, now, except), t, k);
    } else {
      UntouchedProgress(s, Sample(s, now, except), t);
      k := 0;
    }
  }

  lemma PollProgress(s: Service, now: nat, t: Id) returns (k: nat)
    requires Valid(s, {}) && Timely(s, now)
    requires t in s.timers && t in s.expires && s.timers[t].autoReload
    ensures Progress(s, Poll(s, now), t, k)
  {
    hide ListsValid, TimersValid, LogValid, Wrap, Epoch, Fired, Series, ProcessExpired;
    k := SampleProgress(s, now, {}, t);
    SampleKeeps(s, now, {});
    SampleEpochs(s.sampled, now);
    var u := Sample(s, now, {});
    if Wrap(now) >= Wrap(s.sampled) && s.current != [] && s.current[0].value <= Wrap(now) {
      HeadValid(u, {});
      SameEpoch(now, u.expires[u.current[0].owner]);
      var j := ProcessProgress(u, now, now, {}, t);
      ProgressTwice(s, u, Poll(s, now), t, k, j);
      k := k + j;
    }
  }

  lemma ObeyOther(s: Service, c: Command, now: nat, t: Id)
    requires c.t in s.timers && s.timers[c.t].period > 0 && c.t != t && t in s.timers && t in s.expires
    ensures Untouched(s, Obey(s, c, now), t)
  {
    hide Wrap, Fired, Expired, ProcessNow;
    if c.Start? {
      var u := SetActive(s, c.t, true);
      ExpiredOther(u, c.t, c.issued + u.timers[c.t].period, now, now, t);
    }
  }

  lemma ExecuteProgress(s: Service, c: Command, now: nat, t: Id) returns (k: nat)
    requires Valid(s, {}) && Acceptable(s, c, now) && c.t != t
    requires t in s.timers && t in s.expires && s.timers[t].autoReload
    ensures Progress(s, Execute(s, c, now), t, k)
  {
    hide Valid, Sample, Obey, Fired, Series;
    var u := Unlist(s, c.t);
    UntouchedProgress(s, u, t);
    UnlistKeeps(s, c.t);
    SampleKeeps(u, now, {c.t});
    SampleTimers(u, now, {c.t});
    k := SampleProgress(u, now, {c.t}, t);
    var v := Sample(u, now, {c.t});
    ProgressTwice(s, u, v, t, 0, k);
    ObeyOther(v, c, now, t);
    UntouchedProgress(v, Obey(v, c, now), t);
    ProgressTwice(s, v, Obey(v, c, now), t, k, 0);
  }

  lemma NextProgress(s: Service, a: Action, t: Id) returns (k: nat)
    requires Valid(s, {}) && t in s.timers && t in s.expires && s.timers[t].autoReload
    requires a.Receive? ==> a.c.t != t
    ensures Progress(s, Next(s, a), t, k)
  {
    hide Valid, Poll, Execute, Fired, Series;
    if !Enabled(s, a) {
      UntouchedProgress(s, s, t);
      k := 0;
    } else {
      match a
      case Turn(now) => k := PollProgress(s, now, t);
      case Receive(c, now) => k := ExecuteProgress(s, c, now, t);
    }
  }

  /** Over every run in which it receives no command, an auto-reload timer that was to expire at e has fired for exactly
      e, e + p, and so on up to the last expiry before the one it is now listed under, once for each. */
  lemma {:induction false} CallbacksExact(s: Service, actions: seq<Action>, t: Id) returns (k: nat)
    requires Valid(s, {}) && t in s.timers && t in s.expires && s.timers[t].autoReload
    requires forall a :: a in actions && a.Receive? ==> a.c.t != t
    ensures Progress(s, Run(s, actions), t, k)
    decreases |actions|
  {
    hide Valid, Next, Fired, Series;
    if actions == [] {
      UntouchedProgress(s, s, t);
      k := 0;
    } else {
      var before, a := actions[..|actions| - 1], actions[|actions| - 1];
      k := CallbacksExact(s, before, t);
      var u := Run(s, before);
      assert a in actions;
      var j := NextProgress(u, a, t);
      ProgressTwice(s, u, Run(s, actions), t, k, j);
      k := k + j;
    }
  }

  /** A turn of the daemon that finds the head of the list due moves that timer past now. */
  lemma DueIsFired(s: Service, now: nat)
    requires Valid(s, {}) && Timely(s, now) && Wrap(s.sampled) <= Wrap(now)
    requires s.current != [] && s.current[0].value <= Wrap(now)
    ensures var t, r := s.current[0].owner, Poll(s, now);
      && t in s.timers && t in s.expires
      && (s.timers[t].autoReload ==> t in r.expires && now < r.expires[t])
      && (!s.timers[t].autoReload ==> t !in r.expires && Fired(r.log, t) == Fired(s.log, t) + multiset{s.expires[t]})
  {
    hide ListsValid, LogValid, Wrap, Epoch, Fired, Series;
    var u := Sample(s, now, {});
    SampleKeeps(s, now, {});
    SampleEpochs(s.sampled, now);
    HeadValid(u, {});
    var t := s.current[0].owner;
    SameEpoch(now, u.expires[t]);
    var e := u.expires[t];
    if s.timers[t].autoReload {
      var k := ExpiredFires(u.(current := u.current[1..], expires := u.expires - {t}), t, e, now, now);
    } else {
      FiredAppend(s.log, [Callback(t, e, now)], t);
      FiredOne(t, e, now, t);
    }
  }

  /** A start that is processed late gets the callbacks of all the expiries that have passed. */
  lemma LateStartFires(s: Service, t: Id, issued: nat, now: nat) returns (k: nat)
    requires Valid(s, {t}) && Acceptable(s, Start(t, issued), now) && s.sampled == now
    requires t in s.timers && s.timers[t].autoReload && s.timers[t].period > 0 && issued + s.timers[t].period <= now
    ensures FiredSince(s, Obey(s, Start(t, issued), now), t, issued + s.timers[t].period, k)
    ensures now < Obey(s, Start(t, issued), now).expires[t]
  {
    hide ListsValid, LogValid, Wrap, Epoch, ProcessNow, Expired, Fired, Series;
    var p := s.timers[t].period;
    PlacementExact(issued, now, p);
    k := ExpiredFires(SetActive(s, t, true), t, issued + p, now, now);
  }

  // ---- Nothing due is left when the daemon blocks.

  /** What the daemon finds before it blocks: the head of the current list, if there is one, is not due. */
  predicate NothingDue(s: Service) {
    s.current == [] || Wrap(s.sampled) < s.current[0].value
  }

  /** prvGetNextExpireTime and the block time of prvProcessTimerOrBlockTask */
  function BlockTime(s: Service): nat {
    Wrap((if s.current == [] then 0 else s.current[0].value) - Wrap(s.sampled))
  }

  /** A listed timer expires no sooner than the head of the current list, or in the next epoch if that list is empty. */
  lemma ListedLater(s: Service, t: Id)
    requires ListsValid(s) && t in s.expires
    ensures Epoch(s.expires[t]) == Epoch(s.sampled) || Epoch(s.expires[t]) == Epoch(s.sampled) + 1
    ensures s.current == [] ==> Epoch(s.expires[t]) == Epoch(s.sampled) + 1
    ensures s.current != [] ==>
      && s.current[0].owner in s.expires && Epoch(s.expires[s.current[0].owner]) == Epoch(s.sampled)
      && s.current[0].value == Wrap(s.expires[s.current[0].owner])
      && (Epoch(s.expires[t]) == Epoch(s.sampled) ==> s.current[0].value <= Wrap(s.expires[t]))
  {
    hide Wrap, Epoch;
    ListedHere(s, t);
    if s.current != [] { assert s.current[0] in s.current; }
    if t in Owners(s.current) {
      var e := ItemOfOwner(s.current, t);
      HeadFirst(s.current, e);
    }
  }

  /** Every listed expiry is then still to come, so that with CallbacksExact all callbacks that were due have been
      made. */
  lemma AllCalledBack(s: Service, t: Id)
    requires Valid(s, {}) && NothingDue(s) && t in s.expires
    ensures s.sampled < s.expires[t]
  {
    hide Wrap, Epoch, ListsValid, TimersValid;
    ListedLater(s, t);
    SplitTime(s.sampled);
    SplitTime(s.expires[t]);
  }

  /** And the daemon blocks until the first expiry of this epoch, or until the tick count overflows if there is none:
      never past an expiry, and not at all only if the tick count has just overflowed. */
  lemma BlockTimeExact(s: Service, t: Id)
    requires Valid(s, {}) && NothingDue(s)
    ensures s.current != [] ==>
      s.current[0].owner in s.expires && s.sampled + BlockTime(s) == s.expires[s.current[0].owner]
    ensures s.current == [] && Wrap(s.sampled) != 0 ==> s.sampled + BlockTime(s) == EndOfEpoch(s.sampled) + 1
    ensures BlockTime(s) == 0 <==> s.current == [] && Wrap(s.sampled) == 0
    ensures t in s.expires ==> s.sampled + BlockTime(s) <= s.expires[t]
  {
    hide Epoch, ListsValid, TimersValid;
    SplitTime(s.sampled);
    if s.current != [] {
      HeadValid(s, {});
      ListedLater(s, s.current[0].owner);
      SplitTime(s.expires[s.current[0].owner]);
    }
    if t in s.expires {
      ListedLater(s, t);
      SplitTime(s.expires[t]);
    }
  }
}
