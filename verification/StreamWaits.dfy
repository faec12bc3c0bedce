/**
 Waiting for a stream buffer.  A reader that finds too few bytes, or a writer that finds too little space, registers with
 the buffer and waits for a notification; the other side, after it has published its index, notifies whoever is
 registered.  Both directions are the same protocol: the waiting side needs a level, which only the other side raises.
 The reader needs one byte more than a length prefix (or than nothing, or than the trigger level of a batching buffer),
 and is notified once the bytes reach the trigger level; the writer needs the space for what it writes, and is notified
 whatever the level.
 */
module StreamWaits {
  import opened Notifications

  /** The side that waits: in xStreamBufferReceive or xStreamBufferSend. */
  datatype Waiter =
    | Away
    | Registered      // after the critical section that found the level too low
    | Blocked         // in xTaskNotifyWait
    | Woken           // notified or timed out, still in xTaskNotifyWait
    | Leaving         // about to clear its registration

  /** The side that raises the level. */
  datatype Peer =
    | Quiet
    | Raised          // has published its index
    | Completing      // has seen the trigger level reached, about to notify

  datatype Wait = Wait(level: nat, trigger: nat, need: nat, registered: bool, note: NotifyState, waiter: Waiter, peer: Peer)

  datatype Step =
    | Enter(need: nat)       // the test of the level, with a block time
    | NotifyWait
    | RunOut                 // the block time ends
    | Return
    | Unregister
    | Use(k: nat)            // the waiting side lowers the level itself
    | Raise(k: nat)
    | CheckTrigger
    | Complete

  predicate Enabled(w: Wait, a: Step) {
    match a
    case Enter(_) => w.waiter.Away?
    case NotifyWait => w.waiter.Registered?
    case RunOut => w.waiter.Blocked?
    case Return => w.waiter.Woken?
    case Unregister => w.waiter.Leaving?
    case Use(k) => w.waiter.Away? && k <= w.level
    case Raise(_) => w.peer.Quiet?
    case CheckTrigger => w.peer.Raised?
    case Complete => w.peer.Completing?
  }

  function Next(w: Wait, a: Step): Wait {
    if !Enabled(w, a) then w else
    match a
    case Enter(need) =>
      if w.level >= need then w
      else w.(need := need, registered := true, waiter := Registered,
              note := if w.note.Received? then NotWaiting else w.note)
    case NotifyWait =>
      if w.note.Received? then w.(waiter := Woken) else w.(waiter := Blocked, note := Waiting)
    case RunOut => w.(waiter := Woken)
    case Return => w.(waiter := Leaving, note := NotWaiting)
    case Unregister => w.(waiter := Away, registered := false)
    case Use(k) => w.(level := w.level - k)
    case Raise(k) => w.(level := w.level + k, peer := Raised)
    case CheckTrigger => w.(peer := if w.level >= w.trigger then Completing else Quiet)
    case Complete =>
      if !w.registered then w.(peer := Quiet)
      else w.(peer := Quiet, registered := false, note := Received,
              waiter := if w.note.Waiting? && w.waiter.Blocked? then Woken else w.waiter)
  }

  function Run(w: Wait, steps: seq<Step>): Wait {
    if steps == [] then w else Next(Run(w, steps[..|steps| - 1]), steps[|steps| - 1])
  }

  predicate Initial(w: Wait) {
    !w.registered && w.note.NotWaiting? && w.waiter.Away? && w.peer.Quiet?
  }

  /** A waiting side that is registered lacks what it needs or what it would be notified of, unless the other side is on
      its way to notify it; one that is not registered any more has its notification. */
  predicate Inv(w: Wait) {
    && (w.waiter.Away? ==> !w.registered)
    && (w.note.Waiting? ==> w.waiter.Blocked? || w.waiter.Woken?)
    && (w.waiter.Registered? ==> if w.registered then w.note.NotWaiting? else w.note.Received?)
    && (w.waiter.Blocked? ==> w.registered && w.note.Waiting?)
    && ((w.waiter.Registered? || w.waiter.Blocked?) && w.registered ==>
          w.level < w.need || w.level < w.trigger || !w.peer.Quiet?)
  }

  lemma {:induction false} RunKeeps(w: Wait, steps: seq<Step>)
    requires Initial(w)
    ensures Inv(Run(w, steps)) && Run(w, steps).trigger == w.trigger
  {
    if steps != [] {
      RunKeeps(w, steps[..|steps| - 1]);
    }
  }

  /** No wake-up is lost, in any interleaving: a side that is blocked while the other has nothing left to do lacks what it
      needs, or what it would be notified of. */
  lemma NoLostStreamWakeUp(w: Wait, steps: seq<Step>)
    requires Initial(w)
    ensures var r := Run(w, steps);
      r.waiter.Blocked? && r.peer.Quiet? ==> r.note.Waiting? && r.registered && (r.level < r.need || r.level < r.trigger)
  {
    hide Run;
    RunKeeps(w, steps);
  }

  /** A writer is notified whatever the level, so it is blocked only while there is too little space. */
  lemma WriterWaitsForSpace(w: Wait, steps: seq<Step>)
    requires Initial(w) && w.trigger == 0
    ensures var r := Run(w, steps); r.waiter.Blocked? && r.peer.Quiet? ==> r.level < r.need
  {
    hide Run;
    RunKeeps(w, steps);
  }

  /** A reader that needs no more than the trigger level is blocked only while there are fewer bytes than that. */
  lemma ReaderWaitsForTrigger(w: Wait, steps: seq<Step>)
    requires Initial(w) && Run(w, steps).need <= w.trigger
    ensures var r := Run(w, steps); r.waiter.Blocked? && r.peer.Quiet? ==> r.level < r.trigger
  {
    hide Run;
    RunKeeps(w, steps);
  }

  /** Whoever finds too little registers, and is marked as waiting and blocked unless it was notified since. */
  lemma EnterExact(w: Wait, need: nat)
    requires Inv(w) && w.waiter.Away?
    ensures var n := Next(w, Enter(need));
      && (w.level >= need ==> n == w)
      && (w.level < need ==> n.waiter.Registered? && n.registered && n.need == need && !n.note.Received?
                             && n.level == w.level && n.peer == w.peer)
  {
  }

  /** A waiting side becomes blocked by its own step, unless it has been notified, and stops being blocked only when it is
      notified or its time runs out; being notified also ends its registration. */
  lemma BlockedIff(w: Wait, a: Step)
    requires Inv(w)
    ensures Next(w, a).waiter.Blocked? <==>
      if w.waiter.Blocked? then !(a.RunOut? || (a.Complete? && w.peer.Completing?))
      else a.NotifyWait? && w.waiter.Registered? && w.registered
    ensures a.Complete? && w.peer.Completing? && w.registered ==>
      var n := Next(w, a);
      !n.registered && n.note.Received? && n.peer.Quiet? && n.waiter == if w.waiter.Blocked? then Woken else w.waiter
  {
  }

  /** The level, and what the other side does about it: every rise is followed by a check, and the check by a notification
      if the trigger level is reached. */
  lemma PeerExact(w: Wait, a: Step)
    ensures Next(w, a).level == w.level + (if a.Raise? && w.peer.Quiet? then a.k else 0)
                                        - (if a.Use? && w.waiter.Away? && a.k <= w.level then a.k else 0)
    ensures Next(w, a).peer ==
      match w.peer
      case Quiet => if a.Raise? then Raised else Quiet
      case Raised => if !a.CheckTrigger? then Raised else if w.level >= w.trigger then Completing else Quiet
      case Completing => if a.Complete? then Quiet else Completing
  {
  }

  /** After the wait the side returns, and is neither registered nor marked as waiting. */
  lemma LeaveExact(w: Wait)
    requires Inv(w) && w.waiter.Woken?
    ensures var n := Next(Next(w, Return), Unregister);
      n.waiter.Away? && !n.registered && n.note.NotWaiting? && n.level == w.level
  {
  }
}
