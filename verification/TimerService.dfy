/** The timer service as timers.c updates it in place, proved against the daemon model. */
module TimerService {
  import opened Common
  import opened Clock
  import opened TimedLists
  import opened Timers
  import opened TimerProofs
  import opened TimerDaemon

  class ActiveTimers {
    var timers: map<Id, Timer>
    var current: seq<ListItem>
    var overflow: seq<ListItem>
    var lastTime: nat
    ghost var sampled: nat
    ghost var expires: map<Id, nat>
    ghost var log: seq<Callback>

    ghost function Abstract(): Service
      reads this
    {
      Service(timers, current, overflow, sampled, expires, log)
    }

    /** prvInsertTimerInActiveList; the ghost arguments are the true expiry and time. */
    method InsertTimerInActiveList(t: Id, nextExpiry: nat, timeNow: nat, commandTime: nat, ghost expiry: nat, ghost now: nat)
      returns (processNow: bool)
      requires t in timers && nextExpiry == Wrap(expiry) && timeNow == Wrap(now)
      modifies this`current, this`overflow, this`expires
      ensures processNow == ProcessNow(nextExpiry, timeNow, commandTime, timers[t].period)
      ensures Abstract() == if processNow then old(Abstract()) else File(old(Abstract()), t, expiry, now)
    {
      processNow := false;
      var item := ListItem(nextExpiry, t);
      if nextExpiry <= timeNow {
        if Wrap(timeNow - commandTime) >= timers[t].period {
          processNow := true;
        } else {
          overflow := Insert(overflow, item);
          expires := expires[t := expiry];
        }
      } else {
        if timeNow < commandTime && nextExpiry >= commandTime {
          processNow := true;
        } else {
          current := Insert(current, item);
          expires := expires[t := expiry];
        }
      }
    }

    /** prvReloadTimer: the loop makes one callback per missed expiry and ends at the first expiry past the limit. */
    method ReloadTimer(t: Id, expiredTime: nat, timeNow: nat, ghost e: nat, ghost limit: nat, ghost at: nat)
      requires t in timers && 0 < timers[t].period < TICKS
      requires expiredTime == Wrap(e) && timeNow == Wrap(limit) && e <= limit < e + TICKS
      modifies this`current, this`overflow, this`expires, this`log
      ensures Abstract() == Reload(old(Abstract()), t, e, limit, at)
    {
      hide ProcessNow, File, Wrap;
      var p := timers[t].period;
      var expired := expiredTime;
      ghost var latest := e;
      NextExpiry(latest, p);
      PlacementExact(latest, limit, p);
      var again := InsertTimerInActiveList(t, Wrap(expired + p), timeNow, expired, latest + p, limit);
      while again
        invariant expired == Wrap(latest) && e <= latest <= limit
        invariant again <==> latest + p <= limit
        invariant old(log) + CatchUp(t, e, p, limit, at) == log + CatchUp(t, latest, p, limit, at)
        invariant FirstAfter(e, p, limit) == FirstAfter(latest, p, limit)
        invariant again ==> Abstract() == old(Abstract()).(log := log)
        invariant !again ==> Abstract() == File(old(Abstract()).(log := log), t, latest + p, limit)
        decreases limit - latest
      {
        NextExpiry(latest, p);
        expired := Wrap(expired + p);
        latest := latest + p;
        log := log + [Callback(t, latest, at)];
        NextExpiry(latest, p);
        PlacementExact(latest, limit, p);
        again := InsertTimerInActiveList(t, Wrap(expired + p), timeNow, expired, latest + p, limit);
      }
      assert log == old(log) + CatchUp(t, e, p, limit, at);
    }

    /** prvProcessExpiredTimer */
    method ProcessExpiredTimer(timeNow: nat, ghost limit: nat, ghost at: nat)
      requires current != [] && current[0].owner in timers && 0 < timers[current[0].owner].period < TICKS
      requires current[0].owner in expires && current[0].value == Wrap(expires[current[0].owner]) && timeNow == Wrap(limit)
      requires expires[current[0].owner] <= limit < expires[current[0].owner] + TICKS
      modifies this`timers, this`current, this`overflow, this`expires, this`log
      ensures Abstract() == ProcessExpired(old(Abstract()), limit, at)
    {
      hide Wrap, Reload;
      var item := current[0];
      var t := item.owner;
      ghost var e := expires[t];
      current := current[1..];
      expires := expires - {t};
      ghost var taken := Abstract();
      if timers[t].autoReload {
        ReloadTimer(t, item.value, timeNow, e, limit, at);
      } else {
        timers := timers[t := timers[t].(active := false)];
      }
      log := log + [Callback(t, e, at)];
    }

    /** prvSwitchTimerLists */
    method SwitchTimerLists(ghost at: nat, ghost except: set<Id>)
      requires Valid(Abstract(), except) && EndOfEpoch(sampled) <= at
      modifies this`timers, this`current, this`overflow, this`expires, this`log
      ensures var d := Drain(old(Abstract()), at, except);
        Abstract() == d.(current := d.overflow, overflow := d.current)
    {
      hide ListsValid, TimersValid, LogValid, Wrap, Epoch, EndOfEpoch, ProcessExpired;
      while current != []
        invariant Valid(Abstract(), except) && sampled == old(sampled)
        invariant Drain(Abstract(), at, except) == Drain(old(Abstract()), at, except)
        decreases |current|
      {
        DrainStep(Abstract(), at, except);
        HeadValid(Abstract(), except);
        EndOfEpochIsLast(sampled);
        ExpiredByEnd(sampled, expires[current[0].owner]);
        EpochLength(sampled, expires[current[0].owner]);
        ProcessExpiredTimer(MAX_DELAY, EndOfEpoch(sampled), at);
      }
      current, overflow := overflow, current;
    }

    /** prvSampleTimeNow */
    method SampleTimeNow(tickCount: nat, ghost now: nat, ghost except: set<Id>) returns (switched: bool)
      requires Valid(Abstract(), except) && Timely(Abstract(), now) && tickCount == Wrap(now) && lastTime == Wrap(sampled)
      modifies this
      ensures Abstract() == Sample(old(Abstract()), now, except) && lastTime == Wrap(sampled)
      ensures Valid(Abstract(), except) && switched == (Wrap(now) < Wrap(old(sampled)))
    {
      hide ListsValid, TimersValid, LogValid, Wrap, Epoch, EndOfEpoch;
      SampleEpochs(sampled, now);
      SampleKeeps(Abstract(), now, except);
      if tickCount < lastTime {
        SwitchTimerLists(now, except);
        switched := true;
      } else {
        switched := false;
      }
      lastTime := tickCount;
      sampled := now;
    }
  }

  lemma NextExpiry(e: nat, p: nat)
    ensures Wrap(Wrap(e) + p) == Wrap(e + p)
  {
    WrapSum(p, e);
  }

  lemma EpochLength(t: nat, e: nat)
    requires Epoch(e) == Epoch(t)
    ensures EndOfEpoch(t) < e + TICKS
  {
    SplitTime(e);
  }
}
