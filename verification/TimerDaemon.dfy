/** The timer daemon: sampling the time with its list switch, expiry, and commands, over every run. */
module TimerDaemon {
  import opened Common
  import opened Clock
  import opened TimedLists
  import opened Timers
  import opened TimerProofs

  /** The last tick before the tick count next overflows; its value is tmrMAX_TIME_BEFORE_OVERFLOW. */
  function EndOfEpoch(t: nat): nat {
    Epoch(t) * TICKS + MAX_DELAY
  }

  lemma EndOfEpochIsLast(t: nat)
    ensures Wrap(EndOfEpoch(t)) == MAX_DELAY && Epoch(EndOfEpoch(t)) == Epoch(t) && t <= EndOfEpoch(t)
  {
    SplitTime(t);
    SplitTime(EndOfEpoch(t));
  }

  /** Up to the end of its epoch every expiry on the current list has come. */
  lemma ExpiredByEnd(t: nat, e: nat)
    requires Epoch(e) == Epoch(t)
    ensures e <= EndOfEpoch(t)
  {
    SplitTime(e);
  }

  /** Processing a timer as of the end of the epoch takes it off the current list for good: a reload goes to the overflow
      list, so draining the list terminates. */
  lemma DrainStep(s: Service, at: nat, except: set<Id>)
    requires Valid(s, except) && s.current != [] && EndOfEpoch(s.sampled) <= at
    ensures var t := s.current[0].owner; t in s.expires && t in s.timers && s.timers[t].period > 0
    ensures var r := ProcessExpired(s, EndOfEpoch(s.sampled), at);
      Valid(r, except) && r.sampled == s.sampled && r.current == s.current[1..]
  {
    hide ListsValid, CatchUp, FirstAfter, Wrap, Epoch, EndOfEpoch;
    var t := s.current[0].owner;
    HeadValid(s, except);
    EndOfEpochIsLast(s.sampled);
    ExpiredByEnd(s.sampled, s.expires[t]);
    ProcessExpiredKeeps(s, EndOfEpoch(s.sampled), at, except);
    SplitTime(FirstAfter(s.expires[t], s.timers[t].period, EndOfEpoch(s.sampled)));
  }

  /** The loop of prvSwitchTimerLists. */
  function Drain(s: Service, at: nat, except: set<Id>): (r: Service)
    requires Valid(s, except) && EndOfEpoch(s.sampled) <= at
    ensures Valid(r, except) && r.current == [] && r.sampled == s.sampled
    decreases |s.current|
  {
    if s.current == [] then s
    else
      DrainStep(s, at, except);
      Drain(ProcessExpired(s, EndOfEpoch(s.sampled), at), at, except)
  }

  lemma SampleEpochs(last: nat, now: nat)
    requires last <= now < last + TICKS
    ensures Wrap(now) < Wrap(last) <==> Epoch(now) == Epoch(last) + 1
    ensures Wrap(now) >= Wrap(last) <==> Epoch(now) == Epoch(last)
    ensures Wrap(now) < Wrap(last) ==> EndOfEpoch(last) <= now
  {
    SplitTime(last);
    SplitTime(now);
  }

  /** Samples are less than 2^32 ticks apart. */
  predicate Timely(s: Service, now: nat) {
    s.sampled <= now < s.sampled + TICKS
  }

  /** prvSampleTimeNow */
  function Sample(s: Service, now: nat, except: set<Id>): (r: Service)
    requires Valid(s, except) && Timely(s, now)
  {
    SampleEpochs(s.sampled, now);
    if Wrap(now) < Wrap(s.sampled) then
      var d := Drain(s, now, except);
      d.(current := d.overflow, overflow := d.current, sampled := now)
    else s.(sampled := now)
  }

  lemma SwitchValid(d: Service, now: nat, except: set<Id>)
    requires Valid(d, except) && d.current == [] && Epoch(now) == Epoch(d.sampled) + 1
    ensures Valid(d.(current := d.overflow, overflow := d.current, sampled := now), except)
  {
    hide Wrap, Epoch;
    var r := d.(current := d.overflow, overflow := d.current, sampled := now);
    assert Listed(r) == Listed(d);
  }

  /** Sampling keeps each listed timer in the list of its true epoch. */
  lemma SampleKeeps(s: Service, now: nat, except: set<Id>)
    requires Valid(s, except) && Timely(s, now)
    ensures Valid(Sample(s, now, except), except) && Sample(s, now, except).sampled == now
  {
    hide ListsValid, TimersValid, LogValid, Wrap, Epoch, EndOfEpoch;
    SampleEpochs(s.sampled, now);
    if Wrap(now) < Wrap(s.sampled) {
      SwitchValid(Drain(s, now, except), now, except);
    } else {
      ResampleLists(s, now);
      ResampleTimers(s, now, except);
    }
  }

  lemma ResampleLists(s: Service, now: nat)
    requires ListsValid(s) && Epoch(now) == Epoch(s.sampled)
    ensures ListsValid(s.(sampled := now))
  {
  }

  lemma ResampleTimers(s: Service, now: nat, except: set<Id>)
    requires TimersValid(s, except)
    ensures TimersValid(s.(sampled := now), except)
  {
  }

  /** One turn of the daemon loop: prvGetNextExpireTime and prvProcessTimerOrBlockTask. */
  function Poll(s: Service, now: nat): Service
    requires Valid(s, {}) && Timely(s, now)
  {
    SampleKeeps(s, now, {});
    var switched := Wrap(now) < Wrap(s.sampled);
    var u := Sample(s, now, {});
    if !switched && s.current != [] && s.current[0].value <= Wrap(now) then
      ProcessExpiredKeeps(u, now, now, {});
      ProcessExpired(u, now, now)
    else u
  }

  lemma PollKeeps(s: Service, now: nat)
    requires Valid(s, {}) && Timely(s, now)
    ensures Valid(Poll(s, now), {}) && Poll(s, now).sampled == now
  {
    hide ListsValid, TimersValid, LogValid, Wrap, Epoch;
    SampleKeeps(s, now, {});
    SampleEpochs(s.sampled, now);
    var u := Sample(s, now, {});
    if Wrap(now) >= Wrap(s.sampled) && s.current != [] && s.current[0].value <= Wrap(now) {
      HeadValid(u, {});
      SameEpoch(now, u.expires[u.current[0].owner]);
      ProcessExpiredKeeps(u, now, now, {});
    }
  }

  /** Commands, with the time they were issued at where it matters.  START stands for RESET too. */
  datatype Command =
    | Start(t: Id, issued: nat)
    | Stop(t: Id)
    | ChangePeriod(t: Id, period: nat)
    | Delete(t: Id)

  predicate Acceptable(s: Service, c: Command, now: nat) {
    && c.t in s.timers && Timely(s, now)
    && (c.Start? ==> c.issued <= now < c.issued + TICKS)
    && (c.ChangePeriod? ==> 0 < c.period < TICKS)
  }

  /** The switch in prvProcessReceivedCommands, for a timer that is off the lists. */
  function Obey(s: Service, c: Command, now: nat): Service
    requires c.t in s.timers && s.timers[c.t].period > 0
  {
    match c
    case Start(t, issued) =>
      var u := SetActive(s, t, true);
      var p := u.timers[t].period;
      if ProcessNow(Wrap(issued + p), Wrap(now), Wrap(issued), p) then Expired(u, t, issued + p, now, now)
      else File(u, t, issued + p, now)
    case Stop(t) => SetActive(s, t, false)
    case ChangePeriod(t, p) =>
      var u := s.(timers := s.timers[t := s.timers[t].(active := true, period := p)]);
      if ProcessNow(Wrap(now + p), Wrap(now), Wrap(now), p) then u else File(u, t, now + p, now)
    case Delete(t) => SetActive(s, t, false)
  }

  /** prvProcessReceivedCommands for one message. */
  function Execute(s: Service, c: Command, now: nat): Service
    requires Valid(s, {}) && Acceptable(s, c, now)
  {
    UnlistKeeps(s, c.t);
    SampleKeeps(Unlist(s, c.t), now, {c.t});
    SampleTimers(Unlist(s, c.t), now, {c.t});
    Obey(Sample(Unlist(s, c.t), now, {c.t}), c, now)
  }

  lemma UnlistKeeps(s: Service, t: Id)
    requires Valid(s, {})
    ensures Valid(Unlist(s, t), {t})
  {
    UnlistLists(s, t);
  }

  lemma ProcessTimers(s: Service, limit: nat, at: nat)
    requires s.current != [] && s.current[0].owner in s.timers && s.timers[s.current[0].owner].period > 0
    requires s.current[0].owner in s.expires
    ensures ProcessExpired(s, limit, at).timers.Keys == s.timers.Keys
  {
  }

  lemma {:induction false} DrainTimers(s: Service, at: nat, except: set<Id>)
    requires Valid(s, except) && EndOfEpoch(s.sampled) <= at
    ensures Drain(s, at, except).timers.Keys == s.timers.Keys
    decreases |s.current|
  {
    hide Valid, EndOfEpoch, ProcessExpired;
    if s.current != [] {
      DrainStep(s, at, except);
      ProcessTimers(s, EndOfEpoch(s.sampled), at);
      DrainTimers(ProcessExpired(s, EndOfEpoch(s.sampled), at), at, except);
    }
  }

  lemma SampleTimers(s: Service, now: nat, except: set<Id>)
    requires Valid(s, except) && Timely(s, now)
    ensures Sample(s, now, except).timers.Keys == s.timers.Keys
    ensures forall t :: t in s.timers ==> Sample(s, now, except).timers[t].period > 0
  {
    hide ListsValid, LogValid, Wrap, Epoch, EndOfEpoch;
    SampleEpochs(s.sampled, now);
    SampleKeeps(s, now, except);
    if Wrap(now) < Wrap(s.sampled) { DrainTimers(s, now, except); }
  }

  lemma StartKeeps(s: Service, t: Id, issued: nat, now: nat)
    requires Valid(s, {t}) && Acceptable(s, Start(t, issued), now) && s.sampled == now
    ensures s.timers[t].period > 0
    ensures Valid(Obey(s, Start(t, issued), now), {}) && Obey(s, Start(t, issued), now).sampled == now
  {
    hide ListsValid, LogValid, Wrap, Epoch, ProcessNow, Expired;
    var u, p := SetActive(s, t, true), s.timers[t].period;
    SameLists(s, u);
    PlacementExact(issued, now, p);
    if issued + p <= now {
      ExpiredKeeps(u, t, issued + p, now, now, {});
      ExpiredSampled(u, t, issued + p, now, now);
    } else {
      FileKeeps(u, t, issued + p, now);
    }
  }

  /** A new period counts from now, so the expiry lies ahead and the timer is always filed. */
  lemma ChangePeriodKeeps(s: Service, t: Id, p: nat, now: nat)
    requires Valid(s, {t}) && Acceptable(s, ChangePeriod(t, p), now) && s.sampled == now
    ensures s.timers[t].period > 0
    ensures var r := Obey(s, ChangePeriod(t, p), now);
      Valid(r, {}) && r.sampled == now && t in r.expires && r.expires[t] == now + p
  {
    hide ListsValid, LogValid, Wrap, Epoch, ProcessNow;
    var u := s.(timers := s.timers[t := s.timers[t].(active := true, period := p)]);
    SameLists(s, u);
    PlacementExact(now, now, p);
    FileKeeps(u, t, now + p, now);
  }

  lemma ObeyKeeps(s: Service, c: Command, now: nat)
    requires Valid(s, {c.t}) && Acceptable(s, c, now) && s.sampled == now
    ensures s.timers[c.t].period > 0
    ensures Valid(Obey(s, c, now), {}) && Obey(s, c, now).sampled == now
  {
    hide ListsValid, LogValid, Wrap, Epoch, ProcessNow, Expired, File;
    match c
    case Start(t, issued) => StartKeeps(s, t, issued, now);
    case ChangePeriod(t, p) => ChangePeriodKeeps(s, t, p, now);
    case _ => SameLists(s, SetActive(s, c.t, false));
  }

  lemma ExecuteKeeps(s: Service, c: Command, now: nat)
    requires Valid(s, {}) && Acceptable(s, c, now)
    ensures Valid(Execute(s, c, now), {}) && Execute(s, c, now).sampled == now
  {
    hide Valid, Sample, Unlist, Obey;
    var u := Unlist(s, c.t);
    UnlistFrame(s, c.t);
    UnlistKeeps(s, c.t);
    SampleKeeps(u, now, {c.t});
    SampleTimers(u, now, {c.t});
    ObeyKeeps(Sample(u, now, {c.t}), c, now);
  }

  lemma UnlistFrame(s: Service, t: Id)
    ensures Unlist(s, t).timers == s.timers && Unlist(s, t).sampled == s.sampled
  {
  }

  /** Every run. */

  datatype Action = Turn(now: nat) | Receive(c: Command, now: nat)

  predicate Enabled(s: Service, a: Action) {
    match a
    case Turn(now) => Timely(s, now)
    case Receive(c, now) => Acceptable(s, c, now)
  }

  function Next(s: Service, a: Action): Service
    requires Valid(s, {})
  {
    if !Enabled(s, a) then s
    else match a
      case Turn(now) => Poll(s, now)
      case Receive(c, now) => Execute(s, c, now)
  }

  lemma NextKeeps(s: Service, a: Action)
    requires Valid(s, {})
    ensures Valid(Next(s, a), {}) && s.sampled <= Next(s, a).sampled
  {
    hide Valid, Poll, Execute;
    if Enabled(s, a) {
      match a
      case Turn(now) => PollKeeps(s, now);
      case Receive(c, now) => ExecuteKeeps(s, c, now);
    }
  }

  function Run(s: Service, actions: seq<Action>): (r: Service)
    requires Valid(s, {})
    ensures Valid(r, {})
    decreases |actions|
  {
    if actions == [] then s
    else
      var u := Run(s, actions[..|actions| - 1]);
      NextKeeps(u, actions[|actions| - 1]);
      Next(u, actions[|actions| - 1])
  }

  /** prvCheckForValidListAndQueue: both lists empty, no timer active. */
  predicate Initial(s: Service) {
    && s.current == [] && s.overflow == [] && s.expires == map[] && s.log == [] && s.sampled == 0
    && forall t :: t in s.timers ==> 0 < s.timers[t].period < TICKS && !s.timers[t].active
  }

  lemma InitialValid(s: Service)
    requires Initial(s)
    ensures Valid(s, {})
  {
    assert Listed(s) == multiset{};
  }

  /** Over every run of the daemon: a listed timer is in the current list if and only if it expires in the epoch of the
      last sample and in the overflow list if and only if in the next, the ACTIVE bit says whether it is listed, and no
      callback was made before the expiry it answers. */
  lemma DaemonInvariant(s: Service, actions: seq<Action>, t: Id)
    requires Valid(s, {})
    ensures var r := Run(s, actions);
      && (t in Owners(r.current) <==> t in r.expires && Epoch(r.expires[t]) == Epoch(r.sampled))
      && (t in Owners(r.overflow) <==> t in r.expires && Epoch(r.expires[t]) == Epoch(r.sampled) + 1)
      && (t in r.timers ==> (r.timers[t].active <==> t in Owners(r.current) || t in Owners(r.overflow)))
      && (forall c :: c in r.log ==> c.expiry <= c.at)
  {
    hide Run;
    var r := Run(s, actions);
    ListedHere(r, t);
  }

  lemma ListedHere(s: Service, t: Id)
    requires ListsValid(s)
    ensures t in Owners(s.current) <==> t in s.expires && Epoch(s.expires[t]) == Epoch(s.sampled)
    ensures t in Owners(s.overflow) <==> t in s.expires && Epoch(s.expires[t]) == Epoch(s.sampled) + 1
    ensures t in s.expires <==> t in Owners(s.current) || t in Owners(s.overflow)
  {
    assert t in Listed(s) <==> t in Owners(s.current) || t in Owners(s.overflow);
    if t in Owners(s.current) { var e := ItemOfOwner(s.current, t); }
    if t in Owners(s.overflow) { var e := ItemOfOwner(s.overflow, t); }
  }

  /** A timer that expired at e and is processed at `now` gets its callback and one more for each whole period since,
      and is filed at the first multiple of its period past now. */
  lemma CatchUpCount(s: Service, now: nat)
    requires Valid(s, {}) && s.current != []
    ensures var t := s.current[0].owner; t in s.expires && t in s.timers && s.timers[t].period > 0
    ensures var t := s.current[0].owner; var e, p := s.expires[t], s.timers[t].period;
      e <= now && s.timers[t].autoReload ==>
        var r := ProcessExpired(s, now, now);
        && |r.log| == |s.log| + 1 + (now - e) / p
        && t in r.expires && r.expires[t] == e + ((now - e) / p + 1) * p && now < r.expires[t]
  {
    hide ListsValid, Wrap, Epoch;
    HeadValid(s, {});
    var t := s.current[0].owner;
    if s.expires[t] <= now { CatchUpExact(t, s.expires[t], s.timers[t].period, now, now); }
  }
}
