/**
 The timer service of timers.c.  Decisions are taken on wrapped tick values as in the code; the true times they stand
 for are arguments, so that each decision can be compared with the truth.
 */
module Timers {
  import opened Common
  import opened Clock
  import opened TimedLists

  type Id = Owner

  datatype Timer = Timer(period: nat, autoReload: bool, active: bool)

  /** A call of a timer's callback: the expiry it answers and the time it is made. */
  datatype Callback = Callback(timer: Id, expiry: nat, at: nat)

  /**
   The daemon's state.  `sampled` is the true time of the last prvSampleTimeNow, whose tick value is xLastTime;
   `expires` is the true expiry time of every listed timer, and `log` the callbacks made.
   */
  datatype Service = Service(
    timers: map<Id, Timer>,
    current: seq<ListItem>,
    overflow: seq<ListItem>,
    sampled: nat,
    expires: map<Id, nat>,
    log: seq<Callback>)

  /** prvInsertTimerInActiveList on tick values: must the timer be processed at once? */
  predicate ProcessNow(nextExpiry: nat, timeNow: nat, commandTime: nat, period: nat) {
    if nextExpiry <= timeNow then Wrap(timeNow - commandTime) >= period
    else timeNow < commandTime && nextExpiry >= commandTime
  }

  /** The list it is put in otherwise. */
  function File(s: Service, t: Id, expiry: nat, now: nat): Service {
    var item := ListItem(Wrap(expiry), t);
    var u := s.(expires := s.expires[t := expiry]);
    if item.value <= Wrap(now) then u.(overflow := Insert(u.overflow, item))
    else u.(current := Insert(u.current, item))
  }

  /** The expiries of a timer of the given period after e that have also come by `now`, and the next one. */
  function Missed(e: nat, period: nat, now: nat): nat
    requires period > 0
    decreases now - e
  {
    if e + period <= now then 1 + Missed(e + period, period, now) else 0
  }

  function FirstAfter(e: nat, period: nat, now: nat): nat
    requires period > 0
    decreases now - e
  {
    if e + period <= now then FirstAfter(e + period, period, now) else e + period
  }

  /** Callbacks at time `at` for the missed expiries. */
  function CatchUp(t: Id, e: nat, period: nat, now: nat, at: nat): seq<Callback>
    requires period > 0
    decreases now - e
  {
    if e + period <= now then [Callback(t, e + period, at)] + CatchUp(t, e + period, period, now, at) else []
  }

  /** prvReloadTimer, where `limit` is the time it takes for now and `at` the time it is called. */
  function Reload(s: Service, t: Id, e: nat, limit: nat, at: nat): Service
    requires t in s.timers && s.timers[t].period > 0
  {
    var p := s.timers[t].period;
    File(s.(log := s.log + CatchUp(t, e, p, limit, at)), t, FirstAfter(e, p, limit), limit)
  }

  function SetActive(s: Service, t: Id, active: bool): Service
    requires t in s.timers
  {
    s.(timers := s.timers[t := s.timers[t].(active := active)])
  }

  /** What happens to a timer that expired at e: reload or deactivate, then the callback. */
  function Expired(s: Service, t: Id, e: nat, limit: nat, at: nat): Service
    requires t in s.timers && s.timers[t].period > 0
  {
    var u := if s.timers[t].autoReload then Reload(s, t, e, limit, at) else SetActive(s, t, false);
    u.(log := u.log + [Callback(t, e, at)])
  }

  /** Take a timer off whichever list it is in. */
  function Unlist(s: Service, t: Id): Service {
    s.(current := RemoveOwner(s.current, t), overflow := RemoveOwner(s.overflow, t), expires := s.expires - {t})
  }

  /** prvProcessExpiredTimer on the head of the current list. */
  function ProcessExpired(s: Service, limit: nat, at: nat): Service
    requires s.current != [] && s.current[0].owner in s.timers && s.timers[s.current[0].owner].period > 0
    requires s.current[0].owner in s.expires
  {
    var t := s.current[0].owner;
    Expired(s.(current := s.current[1..], expires := s.expires - {t}), t, s.expires[t], limit, at)
  }

  /** The invariant.  The ACTIVE bit of the timers in `except` is in the middle of a change. */

  function Listed(s: Service): multiset<Id> {
    multiset(Owners(s.current)) + multiset(Owners(s.overflow))
  }

  ghost predicate ListsValid(s: Service) {
    && Listed(s) == multiset(s.expires.Keys)
    && Filed(s.current, s.expires, -1, Epoch(s.sampled)) && Sorted(s.current)
    && Filed(s.overflow, s.expires, -1, Epoch(s.sampled) + 1) && Sorted(s.overflow)
  }

  ghost predicate TimersValid(s: Service, except: set<Id>) {
    && (forall t :: t in s.timers ==> 0 < s.timers[t].period < TICKS)
    && (forall t :: t in s.timers && t !in except ==> (s.timers[t].active <==> t in s.expires))
    && s.expires.Keys <= s.timers.Keys && s.expires.Keys !! except
  }

  /** No callback is early. */
  ghost predicate LogValid(log: seq<Callback>) {
    forall c :: c in log ==> c.expiry <= c.at
  }

  ghost predicate Valid(s: Service, except: set<Id>) {
    ListsValid(s) && TimersValid(s, except) && LogValid(s.log)
  }
}
