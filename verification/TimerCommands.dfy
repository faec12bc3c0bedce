/** What each command makes of its timer, and what becomes of a one-shot timer. */
module TimerCommands {
  import opened Arithmetic
  import opened Common
  import opened Clock
  import opened TimedLists
  import opened Timers
  import opened TimerProofs
  import opened TimerDaemon
  import opened TimerCallbacks

  /** Timer t is listed to expire at e, active, and has had no callback since s. */
  ghost predicate FiledAt(s: Service, r: Service, t: Id, e: nat) {
    && t in r.timers && r.timers[t].active && t in r.expires && r.expires[t] == e
    && Fired(r.log, t) == Fired(s.log, t)
  }

  /** Timer t is on no list and inactive, and has been called back for `expiries` since s. */
  ghost predicate Dormant(s: Service, r: Service, t: Id, expiries: multiset<nat>) {
    && t in r.timers && !r.timers[t].active && t !in r.expires
    && Fired(r.log, t) == Fired(s.log, t) + expiries
  }

  /** The period and the kind of a timer. */
  ghost predicate SameKind(s: Service, r: Service, t: Id) {
    t in s.timers && t in r.timers && r.timers[t].period == s.timers[t].period
    && r.timers[t].autoReload == s.timers[t].autoReload
  }

  // ---- Commands on a timer that is off the lists.

  /** A start counts from the time the command was issued.  If the expiry is still to come the timer is filed under it; if
      not, a one-shot timer is called back once and stays off the lists, and an auto-reload timer is called back for all
      the expiries that have passed. */
  lemma StartExact(s: Service, t: Id, issued: nat, now: nat) returns (k: nat)
    requires Valid(s, {t}) && Acceptable(s, Start(t, issued), now) && s.sampled == now
    ensures s.timers[t].period > 0
    ensures var e, r := issued + s.timers[t].period, Obey(s, Start(t, issued), now);
      && SameKind(s, r, t)
      && (now < e ==> FiledAt(s, r, t, e))
      && (e <= now && !s.timers[t].autoReload ==> Dormant(s, r, t, multiset{e}))
      && (e <= now && s.timers[t].autoReload ==>
            FiredSince(s, r, t, e, k) && now < r.expires[t] <= now + s.timers[t].period && r.timers[t].active)
  {
    hide ListsValid, LogValid, Wrap, Epoch, ProcessNow, Fired, Series;
    var p := s.timers[t].period;
    k := 0;
    PlacementExact(issued, now, p);
    var u := SetActive(s, t, true);
    if issued + p <= now {
      if s.timers[t].autoReload {
        k := ExpiredFires(u, t, issued + p, now, now);
      } else {
        FiredAppend(s.log, [Callback(t, issued + p, now)], t);
        FiredOne(t, issued + p, now, t);
      }
    }
  }

  lemma StopExact(s: Service, c: Command, now: nat)
    requires Valid(s, {c.t}) && Acceptable(s, c, now) && (c.Stop? || c.Delete?)
    ensures s.timers[c.t].period > 0
    ensures Dormant(s, Obey(s, c, now), c.t, multiset{}) && SameKind(s, Obey(s, c, now), c.t)
  {
    hide ListsValid, LogValid, Fired;
  }

  /** A new period is stored, counts from now, and makes the timer active. */
  lemma ChangePeriodExact(s: Service, t: Id, p: nat, now: nat)
    requires Valid(s, {t}) && Acceptable(s, ChangePeriod(t, p), now) && s.sampled == now
    ensures s.timers[t].period > 0
    ensures var r := Obey(s, ChangePeriod(t, p), now);
      FiledAt(s, r, t, now + p) && r.timers[t].period == p && r.timers[t].autoReload == s.timers[t].autoReload
  {
    hide ListsValid, LogValid, Wrap, Epoch, ProcessNow, Fired;
    PlacementExact(now, now, p);
  }

  // ---- The same through the removal from the lists and the sampling of the time.

  /** Nothing about t, which is off the lists, has changed. */
  ghost predicate Aside(s: Service, r: Service, t: Id) {
    && t in s.timers && t in r.timers && r.timers[t] == s.timers[t]
    && t !in s.expires && t !in r.expires && Fired(r.log, t) == Fired(s.log, t)
  }

  lemma ExpiredAside(s: Service, x: Id, e: nat, limit: nat, at: nat, t: Id)
    requires x in s.timers && s.timers[x].period > 0 && x != t && t in s.timers && t !in s.expires
    ensures Aside(s, Expired(s, x, e, limit, at), t)
  {
    hide Fired, CatchUp, FirstAfter, Wrap;
    var p := s.timers[x].period;
    var missed, last := CatchUp(x, e, p, limit, at), [Callback(x, e, at)];
    FiredAppend(s.log, missed, t);
    FiredAppend(s.log + missed, last, t);
    FiredAppend(s.log, last, t);
    OtherCatchUp(x, e, p, limit, at, t);
    FiredOne(x, e, at, t);
  }

  lemma {:induction false} DrainAside(s: Service, at: nat, except: set<Id>, t: Id)
    requires Valid(s, except) && EndOfEpoch(s.sampled) <= at && t in s.timers && t !in s.expires
    ensures Aside(s, Drain(s, at, except), t)
    decreases |s.current|
  {
    hide Valid, EndOfEpoch, Expired, Fired;
    if s.current != [] {
      DrainStep(s, at, except);
      var h := s.current[0].owner;
      ExpiredAside(s.(current := s.current[1..], expires := s.expires - {h}), h, s.expires[h], EndOfEpoch(s.sampled), at, t);
      DrainAside(ProcessExpired(s, EndOfEpoch(s.sampled), at), at, except, t);
    }
  }

  lemma SampleAside(s: Service, now: nat, except: set<Id>, t: Id)
    requires Valid(s, except) && Timely(s, now) && t in s.timers && t !in s.expires
    ensures Aside(s, Sample(s, now, except), t)
  {
    hide Valid, EndOfEpoch, Wrap, Epoch, Fired, Drain;
    SampleEpochs(s.sampled, now);
    if Wrap(now) < Wrap(s.sampled) { DrainAside(s, now, except, t); }
  }

  /** The state in which a received command is obeyed: the timer is off the lists and otherwise as it was. */
  lemma Prepared(s: Service, c: Command, now: nat) returns (u: Service)
    requires Valid(s, {}) && Acceptable(s, c, now)
    ensures Valid(u, {c.t}) && u.sampled == now && c.t in u.timers && Timely(u, now)
    ensures u.timers[c.t] == s.timers[c.t] && u.timers[c.t].period > 0 && Fired(u.log, c.t) == Fired(s.log, c.t)
    ensures Execute(s, c, now) == Obey(u, c, now)
  {
    hide Valid, Sample, Obey, Fired;
    var v := Unlist(s, c.t);
    UnlistFrame(s, c.t);
    UnlistKeeps(s, c.t);
    SampleKeeps(v, now, {c.t});
    SampleTimers(v, now, {c.t});
    SampleAside(v, now, {c.t}, c.t);
    u := Sample(v, now, {c.t});
  }

  /** What a received command makes of its timer: whatever list it was on, however late the command is processed. */
  lemma CommandExact(s: Service, c: Command, now: nat) returns (k: nat)
    requires Valid(s, {}) && Acceptable(s, c, now) && s.timers[c.t].period > 0
    ensures var t, r, p := c.t, Execute(s, c, now), s.timers[c.t].period;
      match c
      case Start(_, issued) =>
        && SameKind(s, r, t)
        && (now < issued + p ==> FiledAt(s, r, t, issued + p))
        && (issued + p <= now && !s.timers[t].autoReload ==> Dormant(s, r, t, multiset{issued + p}))
        && (issued + p <= now && s.timers[t].autoReload ==>
              FiredSince(s, r, t, issued + p, k) && now < r.expires[t] <= now + p && r.timers[t].active)
      case ChangePeriod(_, q) =>
        FiledAt(s, r, t, now + q) && r.timers[t].period == q && r.timers[t].autoReload == s.timers[t].autoReload
      case _ => Dormant(s, r, t, multiset{}) && SameKind(s, r, t)
  {
    hide Valid, Obey, Fired, Series, Execute;
    var u := Prepared(s, c, now);
    k := 0;
    match c
    case Start(t, issued) => k := StartExact(u, t, issued, now);
    case ChangePeriod(t, p) => ChangePeriodExact(u, t, p, now);
    case _ => StopExact(u, c, now);
  }

  // ---- One-shot timers.

  /** A one-shot timer that is due at e is still listed under e, or has fired for it once and is off the lists. */
  ghost predicate Single(s: Service, r: Service, t: Id, e: nat) {
    && SameKind(s, r, t) && !r.timers[t].autoReload
    && (t in r.expires ==> r.expires[t] == e && Fired(r.log, t) == Fired(s.log, t))
    && (t !in r.expires ==> Fired(r.log, t) == Fired(s.log, t) + multiset{e})
  }

  lemma ProcessSingle(s: Service, u: Service, limit: nat, at: nat, t: Id, e: nat)
    requires Single(s, u, t, e) && u.current != []
    requires var h := u.current[0].owner; h in u.expires && h in u.timers && u.timers[h].period > 0
    ensures Single(s, ProcessExpired(u, limit, at), t, e)
  {
    hide Fired, CatchUp, FirstAfter, Wrap;
    var h := u.current[0].owner;
    var v := u.(current := u.current[1..], expires := u.expires - {h});
    if h == t {
      FiredAppend(u.log, [Callback(t, e, at)], t);
      FiredOne(t, e, at, t);
    } else if t in u.expires {
      ExpiredOther(v, h, u.expires[h], limit, at, t);
    } else {
      ExpiredAside(v, h, u.expires[h], limit, at, t);
    }
  }

  lemma {:induction false} DrainSingle(s: Service, u: Service, at: nat, except: set<Id>, t: Id, e: nat)
    requires Single(s, u, t, e) && Valid(u, except) && EndOfEpoch(u.sampled) <= at
    ensures Single(s, Drain(u, at, except), t, e)
    decreases |u.current|
  {
    hide Valid, EndOfEpoch, ProcessExpired, Single;
    if u.current != [] {
      DrainStep(u, at, except);
      ProcessSingle(s, u, EndOfEpoch(u.sampled), at, t, e);
      DrainSingle(s, ProcessExpired(u, EndOfEpoch(u.sampled), at), at, except, t, e);
    }
  }

  lemma SampleSingle(s: Service, u: Service, now: nat, except: set<Id>, t: Id, e: nat)
    requires Single(s, u, t, e) && Valid(u, except) && Timely(u, now)
    ensures Single(s, Sample(u, now, except), t, e)
  {
    hide Valid, EndOfEpoch, Wrap, Epoch, Fired, Drain;
    SampleEpochs(u.sampled, now);
    if Wrap(now) < Wrap(u.sampled) { DrainSingle(s, u, now, except, t, e); }
  }

  lemma PollSingle(s: Service, u: Service, now: nat, t: Id, e: nat)
    requires Single(s, u, t, e) && Valid(u, {}) && Timely(u, now)
    ensures Single(s, Poll(u, now), t, e)
  {
    hide ListsValid, TimersValid, LogValid, Wrap, Epoch, Single, ProcessExpired;
    SampleSingle(s, u, now, {}, t, e);
    SampleKeeps(u, now, {});
    SampleEpochs(u.sampled, now);
    var v := Sample(u, now, {});
    if Wrap(now) >= Wrap(u.sampled) && u.current != [] && u.current[0].value <= Wrap(now) {
      HeadValid(v, {});
      ProcessSingle(s, v, now, now, t, e);
    }
  }

  lemma ObeySingle(s: Service, u: Service, c: Command, now: nat, t: Id, e: nat)
    requires Single(s, u, t, e) && c.t in u.timers && u.timers[c.t].period > 0 && c.t != t
    ensures Single(s, Obey(u, c, now), t, e)
  {
    hide Wrap, Fired, Expired, ProcessNow;
    if t in u.expires {
      ObeyOther(u, c, now, t);
    } else if c.Start? {
      var v := SetActive(u, c.t, true);
      ExpiredAside(v, c.t, c.issued + v.timers[c.t].period, now, now, t);
    }
  }

  lemma NextSingle(s: Service, u: Service, a: Action, t: Id, e: nat)
    requires Single(s, u, t, e) && Valid(u, {}) && (a.Receive? ==> a.c.t != t)
    ensures Single(s, Next(u, a), t, e)
  {
    hide Valid, Poll, Sample, Obey, Single;
    if Enabled(u, a) {
      match a
      case Turn(now) => PollSingle(s, u, now, t, e);
      case Receive(c, now) =>
        var v := Unlist(u, c.t);
        UnlistSingle(s, u, c.t, t, e);
        UnlistFrame(u, c.t);
        UnlistKeeps(u, c.t);
        SampleKeeps(v, now, {c.t});
        SampleTimers(v, now, {c.t});
        SampleSingle(s, v, now, {c.t}, t, e);
        ObeySingle(s, Sample(v, now, {c.t}), c, now, t, e);
    }
  }

  lemma UnlistSingle(s: Service, u: Service, x: Id, t: Id, e: nat)
    requires Single(s, u, t, e) && x != t
    ensures Single(s, Unlist(u, x), t, e)
  {
  }

  /** Over every run in which it receives no command, a one-shot timer due at e fires for e once, when it leaves the
      list, and never again. */
  lemma {:induction false} OneShotOnce(s: Service, actions: seq<Action>, t: Id)
    requires Valid(s, {}) && t in s.timers && t in s.expires && !s.timers[t].autoReload
    requires forall a :: a in actions && a.Receive? ==> a.c.t != t
    ensures Single(s, Run(s, actions), t, s.expires[t])
    decreases |actions|
  {
    hide Valid, Next, Fired;
    if actions != [] {
      var before, a := actions[..|actions| - 1], actions[|actions| - 1];
      OneShotOnce(s, before, t);
      assert a in actions;
      NextSingle(s, Run(s, before), a, t, s.expires[t]);
    }
  }
}
