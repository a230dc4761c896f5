/** The timer daemon of timers.c.  Each method is one thing the daemon does between two
    looks at the clock, or one call of another task; true times are ghost arguments. */
module Timers {
  import opened Sequences
  import opened Tasks
  import opened TimerLists
  import opened TimerRuns

  class TimerDaemon {
    var xTimerPeriodInTicks: map<Timer, nat>
    var uxAutoReload: map<Timer, bool>
    var xItemValue: map<Timer, nat>
    var pxCurrentTimerList: seq<Timer>
    var pxOverflowTimerList: seq<Timer>
    var xTimerQueue: seq<Message>
    var xLastTime: nat
    /** The callbacks made, in order. */
    var callbacks: seq<Timer>
    /** The true times at which the queued commands were stamped. */
    ghost var stamps: seq<nat>
    /** The epoch of the last look at the clock. */
    ghost var epoch: nat
    /** The timers followed. */
    ghost var track: map<Timer, Track>

    // ---- The invariant ------------------------------------------------------------------

    ghost function V(): View
      reads `pxCurrentTimerList, `pxOverflowTimerList, `xItemValue, `xTimerQueue, `stamps, `epoch
    {
      View(pxCurrentTimerList, pxOverflowTimerList, xItemValue, xTimerQueue, stamps, epoch)
    }

    /** The true time of the last look at the clock. */
    ghost function Last(): nat
      reads `epoch, `xLastTime
    {
      epoch * TICKS_PER_EPOCH + xLastTime
    }

    /** The whole state as a value. */
    ghost function D(): Daemon
      reads `pxCurrentTimerList, `pxOverflowTimerList, `xItemValue, `xTimerQueue, `stamps, `epoch, `track,
            `xTimerPeriodInTicks, `uxAutoReload, `callbacks, `xLastTime
    {
      Daemon(V(), track, xTimerPeriodInTicks, uxAutoReload, callbacks, Last())
    }

    ghost predicate Inv(but: set<Timer>)
      reads `pxCurrentTimerList, `pxOverflowTimerList, `xItemValue, `xTimerQueue, `stamps, `epoch, `track,
            `xTimerPeriodInTicks, `uxAutoReload
    {
      AllOk(V(), track, xTimerPeriodInTicks, uxAutoReload, but) && |xTimerQueue| <= QUEUE_LENGTH
    }

    /** No timer stops being followed unless the command queue is full, nor gets a new start. */
    ghost predicate Followed(was: map<Timer, Track>)
      reads `track, `xTimerQueue
    {
      && track.Keys <= was.Keys && Kept(was, track)
      && (|xTimerQueue| < QUEUE_LENGTH ==> track.Keys == was.Keys)
    }

    ghost predicate Valid()
      reads `pxCurrentTimerList, `pxOverflowTimerList, `xItemValue, `xTimerQueue, `stamps, `epoch, `track,
            `xTimerPeriodInTicks, `uxAutoReload, `xLastTime, `callbacks
    {
      DaemonOk(D()) && xLastTime < TICKS_PER_EPOCH
    }

    /** The callbacks made so far were for times up to n. */
    ghost predicate DueBy(n: nat)
      reads `track
    {
      forall t :: t in track ==> track[t].due <= n
    }

    // ---- Parts --------------------------------------------------------------------------

    /** xTimerGenericCommand without waiting. */
    method GenericCommand(m: Message, ghost stamp: nat) returns (xReturn: bool)
      modifies `xTimerQueue, `stamps
      ensures xReturn <==> |old(xTimerQueue)| < QUEUE_LENGTH
      ensures V() == if xReturn then Post(old(V()), m, stamp) else old(V())
    {
      if |xTimerQueue| < QUEUE_LENGTH {
        xTimerQueue := xTimerQueue + [m];
        stamps := stamps + [stamp];
        return true;
      }
      return false;
    }

    /** Timer t expires for the next time, which must have come, and was not expired for before. */
    ghost method NoteExpiry(t: Timer, now: nat)
      requires t in track ==> t in xTimerPeriodInTicks && track[t].due + xTimerPeriodInTicks[t] <= now
      requires DueBy(now)
      modifies `track
      ensures track == if t in old(track) then old(track)[t := Called(old(track)[t], xTimerPeriodInTicks[t])] else old(track)
      ensures DueBy(now)
      ensures Logged(callbacks, old(track)) ==> Logged(callbacks + [t], track)
    {
      if Logged(callbacks, track) {
        LogOne(callbacks, track, t, if t in track then xTimerPeriodInTicks[t] else 0);
      }
      if t in track {
        track := track[t := Called(track[t], xTimerPeriodInTicks[t])];
      }
    }

    /** A command to restart t; when the queue is full it is lost, and t no longer followed. */
    method Reload(t: Timer, time: nat, ghost stamp: nat)
      modifies `xTimerQueue, `stamps, `track
      ensures |old(xTimerQueue)| < QUEUE_LENGTH ==> V() == Post(old(V()), Start(t, time), stamp) && track == old(track)
      ensures |old(xTimerQueue)| >= QUEUE_LENGTH ==> V() == old(V()) && track == old(track) - {t}
    {
      var xResult := GenericCommand(Start(t, time), stamp);
      if !xResult {
        track := track - {t};
      }
    }

    /** prvInsertTimerInActiveList, for a command of true time C at true time now. */
    method InsertTimerInActiveList(t: Timer, xNextExpiryTime: nat, xTimeNow: nat, xCommandTime: nat, ghost C: nat, ghost now: nat)
      returns (xProcessTimerNow: bool)
      requires t in xTimerPeriodInTicks && 1 <= xTimerPeriodInTicks[t] < TICKS_PER_EPOCH
      requires xTimeNow == now % TICKS_PER_EPOCH && xCommandTime == C % TICKS_PER_EPOCH
      requires xNextExpiryTime == (C + xTimerPeriodInTicks[t]) % TICKS_PER_EPOCH && C <= now
      modifies `pxCurrentTimerList, `pxOverflowTimerList, `xItemValue
      ensures if xProcessTimerNow then V() == old(V()).(value := old(xItemValue)[t := xNextExpiryTime])
              else V() == PutCurrent(old(V()), t, xNextExpiryTime) || V() == PutOverflow(old(V()), t, xNextExpiryTime)
      ensures xProcessTimerNow <==> C + xTimerPeriodInTicks[t] <= now && InTime(C, now, xTimerPeriodInTicks[t])
      ensures !xProcessTimerNow ==>
                var X := C + Slip(C, now, xTimerPeriodInTicks[t]) + xTimerPeriodInTicks[t];
                V() == if X / TICKS_PER_EPOCH == now / TICKS_PER_EPOCH
                       then PutCurrent(old(V()), t, xNextExpiryTime) else PutOverflow(old(V()), t, xNextExpiryTime)
    {
      PlaceIsExact(C, now, xTimerPeriodInTicks[t]);
      PlaceSlips(C, now, xTimerPeriodInTicks[t]);
      SlipFacts(C, now, xTimerPeriodInTicks[t]);
      xProcessTimerNow := false;
      xItemValue := xItemValue[t := xNextExpiryTime];
      if xNextExpiryTime <= xTimeNow {
        if (xTimeNow - xCommandTime) % TICKS_PER_EPOCH >= xTimerPeriodInTicks[t] {
          xProcessTimerNow := true;
        } else {
          pxOverflowTimerList := Insert(pxOverflowTimerList, xItemValue, t);
        }
      } else {
        if xTimeNow < xCommandTime && xNextExpiryTime >= xCommandTime {
          xProcessTimerNow := true;
        } else {
          pxCurrentTimerList := Insert(pxCurrentTimerList, xItemValue, t);
        }
      }
    }

    // ---- The clock ----------------------------------------------------------------------

    /** Restarting a timer of the old epoch: in the same list if its next expiry is there too,
        and by a command otherwise. */
    method Restart(t: Timer, xNextExpireTime: nat, ghost but: set<Timer>)
      requires Inv(but + {t}) && t in xTimerPeriodInTicks && xNextExpireTime < TICKS_PER_EPOCH
      requires t !in pxCurrentTimerList && t !in pxOverflowTimerList
      requires t in uxAutoReload && uxAutoReload[t]
      requires t in track && t !in but ==> !InQueue(V(), t) && track[t].due == epoch * TICKS_PER_EPOCH + xNextExpireTime
      modifies `pxCurrentTimerList, `xItemValue, `xTimerQueue, `stamps, `track
      ensures Inv(but) && OthersSame(old(V()), V(), t) && pxOverflowTimerList == old(pxOverflowTimerList)
      ensures track.Keys <= old(track).Keys && |xTimerQueue| >= |old(xTimerQueue)|
      ensures |xTimerQueue| < QUEUE_LENGTH ==> track == old(track)
      ensures forall u :: u in track ==> track[u] == old(track)[u]
      ensures forall u :: u in old(track) && u != t ==> u in track
      ensures var r := (xNextExpireTime + xTimerPeriodInTicks[t]) % TICKS_PER_EPOCH;
              if r > xNextExpireTime then
                && xItemValue == old(xItemValue)[t := r] && pxCurrentTimerList == Insert(old(pxCurrentTimerList), xItemValue, t)
                && t in pxCurrentTimerList
              else
                && xItemValue == old(xItemValue) && pxCurrentTimerList == old(pxCurrentTimerList)
                && xTimerQueue == old(xTimerQueue) + if |old(xTimerQueue)| < QUEUE_LENGTH then [Start(t, xNextExpireTime)] else []
      ensures (xNextExpireTime + xTimerPeriodInTicks[t]) % TICKS_PER_EPOCH > xNextExpireTime ==> xTimerQueue == old(xTimerQueue)
    {
      hide AllOk, OthersSame, Insert, Value, InQueue, TrackOk;
      ghost var v, tr := V(), track;
      ListsOk(v, track, xTimerPeriodInTicks, uxAutoReload, but + {t});
      SameRefl(v, t);
      var xReloadTime := (xNextExpireTime + xTimerPeriodInTicks[t]) % TICKS_PER_EPOCH;
      if xReloadTime > xNextExpireTime {
        xItemValue := xItemValue[t := xReloadTime];
        pxCurrentTimerList := Insert(pxCurrentTimerList, xItemValue, t);
        PutAll(v, V(), track, xTimerPeriodInTicks, uxAutoReload, but, t, xReloadTime);
      } else {
        Reload(t, xNextExpireTime, epoch * TICKS_PER_EPOCH + xNextExpireTime);
        if |v.queue| < QUEUE_LENGTH {
          PostAll(v, track, xTimerPeriodInTicks, uxAutoReload, but, t, epoch * TICKS_PER_EPOCH + xNextExpireTime);
        } else {
          DroppedAll(v, tr, xTimerPeriodInTicks, uxAutoReload, but, t);
        }
      }
    }

    /** The head of the current list, whose time has come, leaves it. */
    method TakeExpired(ghost now: nat, ghost but: set<Timer>) returns (t: Timer, xNextExpireTime: nat)
      requires Inv(but) && pxCurrentTimerList != [] && pxCurrentTimerList[0] !in but && DueBy(now)
      requires epoch * TICKS_PER_EPOCH + Value(xItemValue, pxCurrentTimerList[0]) <= now
      modifies `pxCurrentTimerList, `track
      ensures t == old(pxCurrentTimerList[0]) && pxCurrentTimerList == old(pxCurrentTimerList[1..])
      ensures xNextExpireTime == Value(xItemValue, t) && xNextExpireTime < TICKS_PER_EPOCH
      ensures Inv(but + {t}) && DueBy(now) && OthersSame(old(V()), V(), t)
      ensures t in xTimerPeriodInTicks && t in uxAutoReload && t !in pxCurrentTimerList && t !in pxOverflowTimerList
      ensures track == if t in old(track) then old(track)[t := Called(old(track)[t], xTimerPeriodInTicks[t])] else old(track)
      ensures t in track ==>
                && !InQueue(V(), t) && track[t].due == epoch * TICKS_PER_EPOCH + xNextExpireTime
                && (uxAutoReload[t] || track[t].calls == 1)
      ensures Logged(callbacks, old(track)) ==> Logged(callbacks + [t], track)
    {
      hide AllOk, OthersSame, Value, InQueue, TrackOk, Logged;
      ghost var v := V();
      t := pxCurrentTimerList[0];
      xNextExpireTime := Value(xItemValue, t);
      HeadOutAll(v, track, xTimerPeriodInTicks, uxAutoReload, but);
      pxCurrentTimerList := pxCurrentTimerList[1..];
      if t in track {
        CalledAll(V(), track, xTimerPeriodInTicks, uxAutoReload, but + {t}, t);
      }
      NoteExpiry(t, now);
    }

    /** The branch on uxAutoReload that follows the callback. */
    method RestartIfAuto(t: Timer, xNextExpireTime: nat, ghost but: set<Timer>)
      requires Inv(but + {t}) && t in xTimerPeriodInTicks && t in uxAutoReload && xNextExpireTime < TICKS_PER_EPOCH
      requires t !in pxCurrentTimerList && t !in pxOverflowTimerList && t !in but && Logged(callbacks, track)
      requires t in track ==>
                 && !InQueue(V(), t) && track[t].due == epoch * TICKS_PER_EPOCH + xNextExpireTime
                 && (uxAutoReload[t] || track[t].calls == 1)
      modifies `pxCurrentTimerList, `xItemValue, `xTimerQueue, `stamps, `track
      ensures Inv(but) && OthersSame(old(V()), V(), t) && pxOverflowTimerList == old(pxOverflowTimerList)
      ensures Logged(callbacks, track) && |xTimerQueue| >= |old(xTimerQueue)|
      ensures |xTimerQueue| < QUEUE_LENGTH ==> track == old(track)
      ensures forall u :: u in track ==> u in old(track) && track[u] == old(track)[u]
      ensures forall u :: u in old(track) && u != t ==> u in track
      ensures t in track && t !in pxCurrentTimerList ==>
                CalledUpTo(track[t], xTimerPeriodInTicks[t], uxAutoReload[t], (epoch + 1) * TICKS_PER_EPOCH)
      ensures !uxAutoReload[t] ==> xTimerQueue == old(xTimerQueue)
      ensures var r := (xNextExpireTime + xTimerPeriodInTicks[t]) % TICKS_PER_EPOCH;
              if uxAutoReload[t] && r > xNextExpireTime then
                xItemValue == old(xItemValue)[t := r] && pxCurrentTimerList == Insert(old(pxCurrentTimerList), xItemValue, t)
              else
                xItemValue == old(xItemValue) && pxCurrentTimerList == old(pxCurrentTimerList)
    {
      hide AllOk, OthersSame, Slack, ListOk, Insert, Value, InQueue, TrackOk, Logged, Kept, CalledUpTo, Called;
      ghost var v, tr := V(), track;
      ListsOk(v, track, xTimerPeriodInTicks, uxAutoReload, but + {t});
      if uxAutoReload[t] {
        Restart(t, xNextExpireTime, but);
        LogFewer(callbacks, tr, track);
        if t in track && (xNextExpireTime + xTimerPeriodInTicks[t]) % TICKS_PER_EPOCH <= xNextExpireTime {
          ReloadPast(track[t], xTimerPeriodInTicks[t], epoch, xNextExpireTime);
        }
      } else {
        IdleAll(v, track, xTimerPeriodInTicks, uxAutoReload, but, t);
        if t in track {
          LastCall(track[t], xTimerPeriodInTicks[t], epoch, xNextExpireTime);
        }
        SameRefl(v, t);
      }
    }

    /** One turn of the loop in prvSwitchTimerLists: the first timer of the old epoch. */
    method ExpireHead(ghost now: nat, ghost but: set<Timer>)
      requires Inv(but) && pxCurrentTimerList != [] && pxCurrentTimerList[0] !in but
      requires (epoch + 1) * TICKS_PER_EPOCH <= now && DueBy(now) && Logged(callbacks, track)
      modifies `pxCurrentTimerList, `xItemValue, `xTimerQueue, `stamps, `track, `callbacks
      ensures Inv(but) && pxOverflowTimerList == old(pxOverflowTimerList) && DueBy(now) && Logged(callbacks, track)
      ensures ListOk(old(pxCurrentTimerList), old(xItemValue)) && ListOk(pxCurrentTimerList, xItemValue)
      ensures Slack(pxCurrentTimerList, xItemValue) < Slack(old(pxCurrentTimerList), old(xItemValue))
      ensures OthersSame(old(V()), V(), old(pxCurrentTimerList[0]))
      ensures Followed(old(track)) && |xTimerQueue| >= |old(xTimerQueue)|
      ensures callbacks == old(callbacks) + [old(pxCurrentTimerList[0])]
      ensures var t := old(pxCurrentTimerList[0]);
              t in uxAutoReload && !uxAutoReload[t] ==>
                t !in pxCurrentTimerList && t !in pxOverflowTimerList && xTimerQueue == old(xTimerQueue)
      ensures var t := old(pxCurrentTimerList[0]);
              t in track ==> t in old(track) && t in xTimerPeriodInTicks && track[t] == Called(old(track)[t], xTimerPeriodInTicks[t])
      ensures var t := old(pxCurrentTimerList[0]);
              t in track && t !in pxCurrentTimerList ==>
                && t in xTimerPeriodInTicks && t in uxAutoReload
                && CalledUpTo(track[t], xTimerPeriodInTicks[t], uxAutoReload[t], (epoch + 1) * TICKS_PER_EPOCH)
      ensures forall u :: u in track && u != old(pxCurrentTimerList[0]) ==> u in old(track) && track[u] == old(track)[u]
      ensures forall u :: u in old(track) && u != old(pxCurrentTimerList[0]) ==> u in track
    {
      hide AllOk, OthersSame, Slack, ListOk, Insert, Value, InQueue, TrackOk, Logged, Kept, CalledUpTo, Called;
      ghost var v := V();
      ListsOk(v, track, xTimerPeriodInTicks, uxAutoReload, but);
      SlackTail(pxCurrentTimerList, xItemValue);
      var t, xNextExpireTime := TakeExpired(now, but);
      ghost var v1, r, tr := V(), (xNextExpireTime + xTimerPeriodInTicks[t]) % TICKS_PER_EPOCH, track;
      if r > xNextExpireTime {
        SlackFalls(v.cur, v.value, r);
      }
      callbacks := callbacks + [t];
      RestartIfAuto(t, xNextExpireTime, but);
      KeptCalled(old(track), tr, track, t, xTimerPeriodInTicks[t]);
      SameTrans(v, v1, V(), t);
    }

    /** What a look at the clock does to the timers set aside: nothing. */
    ghost predicate SetAside(v: View, was: map<Timer, Track>, calls: seq<Timer>, but: set<Timer>)
      reads `pxCurrentTimerList, `pxOverflowTimerList, `xItemValue, `xTimerQueue, `stamps, `epoch, `track, `callbacks
    {
      && Untouched(v, V(), but) && SameCalls(calls, callbacks, but)
      && forall u :: u in but ==> (u in track <==> u in was) && (u in track ==> track[u] == was[u])
    }

    /** The loop of prvSwitchTimerLists. */
    method ExpireEpoch(ghost now: nat, ghost but: set<Timer>)
      requires Inv(but) && (epoch + 1) * TICKS_PER_EPOCH <= now && DueBy(now) && Logged(callbacks, track)
      requires forall u :: u in but ==> u !in pxCurrentTimerList && u !in pxOverflowTimerList
      modifies `pxCurrentTimerList, `xItemValue, `xTimerQueue, `stamps, `track, `callbacks
      ensures Inv(but) && pxCurrentTimerList == [] && DueBy(now) && Logged(callbacks, track)
      ensures Followed(old(track)) && |xTimerQueue| >= |old(xTimerQueue)| && SetAside(old(V()), old(track), old(callbacks), but)
      ensures CalledOrIn(old(pxCurrentTimerList), old(callbacks), callbacks, [])
      ensures Rounded(old(pxCurrentTimerList), [], track, xTimerPeriodInTicks, uxAutoReload, (epoch + 1) * TICKS_PER_EPOCH)
    {
      hide AllOk, OthersSame, Slack, ListOk, InQueue, Untouched, Logged, SameCalls, Kept, Rounded, CalledOrIn;
      ghost var v := V();
      ListsOk(v, track, xTimerPeriodInTicks, uxAutoReload, but);
      NoneTouched(v, but);
      NoneCalled(callbacks, but);
      NoneCalledSince(v.cur, callbacks);
      NoneRounded(v.cur, track, xTimerPeriodInTicks, uxAutoReload, (epoch + 1) * TICKS_PER_EPOCH);
      KeptSame(track, track);
      while pxCurrentTimerList != []
        invariant Inv(but) && ListOk(pxCurrentTimerList, xItemValue) && DueBy(now)
        invariant Logged(callbacks, track)
        invariant CalledOrIn(v.cur, old(callbacks), callbacks, pxCurrentTimerList)
        invariant Rounded(v.cur, pxCurrentTimerList, track, xTimerPeriodInTicks, uxAutoReload, (epoch + 1) * TICKS_PER_EPOCH)
        invariant Followed(old(track)) && |xTimerQueue| >= |old(xTimerQueue)| && SetAside(v, old(track), old(callbacks), but)
        decreases Slack(pxCurrentTimerList, xItemValue)
      {
        ghost var v1, t, made, tr := V(), pxCurrentTimerList[0], callbacks, track;
        NotAside(v, v1, but, t);
        ExpireHead(now, but);
        StillUntouched(v, v1, V(), but, t);
        KeptTrans(old(track), tr, track);
        OneMoreCall(old(callbacks), made, but, t);
        CalledOneMore(v.cur, old(callbacks), v1, V(), made, t);
        RoundedOneMore(v.cur, v1, V(), tr, track, xTimerPeriodInTicks, uxAutoReload, (epoch + 1) * TICKS_PER_EPOCH, t);
      }
    }

    /** prvSwitchTimerLists. */
    method SwitchTimerLists(ghost now: nat, ghost but: set<Timer>)
      requires Inv(but) && (epoch + 1) * TICKS_PER_EPOCH <= now && DueBy(now) && Logged(callbacks, track)
      requires forall u :: u in but ==> u !in pxCurrentTimerList && u !in pxOverflowTimerList
      modifies `pxCurrentTimerList, `pxOverflowTimerList, `xItemValue, `xTimerQueue, `stamps, `epoch, `track, `callbacks
      ensures Inv(but) && epoch == old(epoch) + 1 && pxOverflowTimerList == [] && DueBy(now) && Logged(callbacks, track)
      ensures Followed(old(track)) && |xTimerQueue| >= |old(xTimerQueue)| && SetAside(old(V()), old(track), old(callbacks), but)
      ensures CalledOrIn(old(pxCurrentTimerList), old(callbacks), callbacks, [])
      ensures Rounded(old(pxCurrentTimerList), [], track, xTimerPeriodInTicks, uxAutoReload, epoch * TICKS_PER_EPOCH)
    {
      hide AllOk, OthersSame, Slack, ListOk, InQueue, Untouched, Logged, SameCalls, Kept, Rounded, CalledOrIn;
      ghost var v := V();
      ExpireEpoch(now, but);
      ExchangeAll(V(), track, xTimerPeriodInTicks, uxAutoReload, but);
      ExchangeTouchesNone(v, V(), but);
      pxCurrentTimerList, pxOverflowTimerList := pxOverflowTimerList, pxCurrentTimerList;
      epoch := epoch + 1;
    }

    /** prvSampleTimeNow, at true time now, less than a full counter period after the last. */
    method SampleTimeNow(xTickCount: nat, ghost now: nat, ghost but: set<Timer>) returns (xTimeNow: nat, switched: bool)
      requires Inv(but) && xLastTime < TICKS_PER_EPOCH && DueBy(now) && Logged(callbacks, track)
      requires forall u :: u in but ==> u !in pxCurrentTimerList && u !in pxOverflowTimerList
      requires Last() <= now < Last() + TICKS_PER_EPOCH && xTickCount == now % TICKS_PER_EPOCH
      modifies `pxCurrentTimerList, `pxOverflowTimerList, `xItemValue, `xTimerQueue, `stamps, `epoch, `track, `callbacks,
               `xLastTime
      ensures Inv(but) && DueBy(now) && Logged(callbacks, track)
      ensures Last() == now && xLastTime == xTickCount && xTimeNow == xTickCount < TICKS_PER_EPOCH
      ensures Followed(old(track)) && |xTimerQueue| >= |old(xTimerQueue)| && SetAside(old(V()), old(track), old(callbacks), but)
      ensures epoch == old(epoch) + (if switched then 1 else 0)
      ensures !switched ==> V() == old(V()) && track == old(track) && callbacks == old(callbacks)
      ensures switched ==> pxOverflowTimerList == [] && CalledOrIn(old(pxCurrentTimerList), old(callbacks), callbacks, [])
                           && Rounded(old(pxCurrentTimerList), [], track, xTimerPeriodInTicks, uxAutoReload, epoch * TICKS_PER_EPOCH)
    {
      hide AllOk, Untouched, Logged;
      NoneTouched(V(), but);
      xTimeNow := xTickCount;
      WrapSeen(epoch, xLastTime, now);
      if xTimeNow < xLastTime {
        SwitchTimerLists(now, but);
        switched := true;
      } else {
        switched := false;
      }
      xLastTime := xTimeNow;
    }

    // ---- What the daemon does -----------------------------------------------------------

    /** prvInsertTimerInActiveList with what both its callers do about the invariant: timer t,
        to be restarted at true time C, either is back in a list or has expired already. */
    method InsertOrExpire(t: Timer, ghost C: nat, ghost now: nat, xTimeNow: nat, xCommandTime: nat) returns (expired: bool)
      requires Inv({t}) && t in xTimerPeriodInTicks && t !in pxCurrentTimerList && t !in pxOverflowTimerList
      requires now == epoch * TICKS_PER_EPOCH + xTimeNow && xTimeNow < TICKS_PER_EPOCH
      requires xCommandTime == C % TICKS_PER_EPOCH && InTime(C, now, xTimerPeriodInTicks[t])
      requires t in track ==> !InQueue(V(), t) && track[t].due == C && t in uxAutoReload && GoesOn(track[t], uxAutoReload[t])
      modifies `pxCurrentTimerList, `pxOverflowTimerList, `xItemValue
      ensures expired <==> C + xTimerPeriodInTicks[t] <= now
      ensures expired ==> Inv({t}) && t !in pxCurrentTimerList && t !in pxOverflowTimerList
                          && (InQueue(V(), t) <==> InQueue(old(V()), t))
      ensures !expired ==> Inv({}) && (t in pxCurrentTimerList || t in pxOverflowTimerList)
                           && ActiveUntil(V(), t, C + xTimerPeriodInTicks[t])
    {
      hide AllOk, InQueue, TrackOk, Slip, Insert, ActiveUntil;
      ghost var v, P := V(), xTimerPeriodInTicks[t];
      ListsOk(v, track, xTimerPeriodInTicks, uxAutoReload, {t});
      ghost var x := (C + P) % TICKS_PER_EPOCH;
      ModSum(C, P);
      EpochOf(epoch, xTimeNow, now);
      EpochOfExpiry(C + P);
      SlipFacts(C, now, P);
      expired := InsertTimerInActiveList(t, (xCommandTime + xTimerPeriodInTicks[t]) % TICKS_PER_EPOCH, xTimeNow, xCommandTime,
                                         C, now);
      if expired {
        ValueOnly(v, track, xTimerPeriodInTicks, uxAutoReload, t, x);
      } else {
        assert {} + {t} == {t};
        PutAll(v, V(), track, xTimerPeriodInTicks, uxAutoReload, {}, t, x);
      }
    }

    /** The reload in prvProcessExpiredTimer, from the true time X just expired for. */
    method RestartFrom(t: Timer, xNextExpireTime: nat, ghost X: nat, xTimeNow: nat, ghost now: nat)
      requires Inv({t}) && t in xTimerPeriodInTicks && t in uxAutoReload
      requires t !in pxCurrentTimerList && t !in pxOverflowTimerList
      requires now == epoch * TICKS_PER_EPOCH + xTimeNow && xTimeNow < TICKS_PER_EPOCH
      requires xNextExpireTime <= xTimeNow && X == epoch * TICKS_PER_EPOCH + xNextExpireTime
      requires t in track ==> !InQueue(V(), t) && track[t].due == X && (uxAutoReload[t] || track[t].calls == 1)
      modifies `pxCurrentTimerList, `pxOverflowTimerList, `xItemValue, `xTimerQueue, `stamps, `track
      ensures Inv({}) && |xTimerQueue| >= |old(xTimerQueue)| && (|xTimerQueue| < QUEUE_LENGTH ==> track.Keys == old(track).Keys)
      ensures forall u :: u in track ==> u in old(track) && track[u] == old(track)[u]
      ensures Logged(callbacks + [t], old(track)) ==> Logged(callbacks + [t], track)
      ensures Reloaded(old(V()), V(), t, X, xTimerPeriodInTicks[t], uxAutoReload[t], now)
    {
      hide AllOk, InQueue, Kept, Logged;
      assert {} + {t} == {t};
      ghost var tr := track;
      if uxAutoReload[t] {
        EpochOf(epoch, xNextExpireTime, X);
        var expired := InsertOrExpire(t, X, now, xTimeNow, xNextExpireTime);
        if expired {
          RestartByCommand(t, xNextExpireTime, X);
        }
        if Logged(callbacks + [t], tr) {
          LogFewer(callbacks + [t], tr, track);
        }
      } else {
        IdleAll(V(), track, xTimerPeriodInTicks, uxAutoReload, {}, t);
      }
    }

    /** The head leaves the current list, and is reloaded if it is to be. */
    method ReloadHead(xNextExpireTime: nat, xTimeNow: nat, ghost now: nat) returns (t: Timer)
      requires Inv({}) && DueBy(now) && Logged(callbacks, track) && pxCurrentTimerList != []
      requires xNextExpireTime == Value(xItemValue, pxCurrentTimerList[0])
      requires xNextExpireTime <= xTimeNow < TICKS_PER_EPOCH && now == epoch * TICKS_PER_EPOCH + xTimeNow
      modifies `pxCurrentTimerList, `pxOverflowTimerList, `xItemValue, `xTimerQueue, `stamps, `track
      ensures Inv({}) && DueBy(now) && Logged(callbacks + [t], track) && Followed(old(track))
      ensures t == old(pxCurrentTimerList[0]) && |xTimerQueue| >= |old(xTimerQueue)|
      ensures t in xTimerPeriodInTicks && t in uxAutoReload
      ensures t in track ==> t in old(track) && track[t] == Called(old(track)[t], xTimerPeriodInTicks[t])
      ensures forall u :: u in track && u != t ==> u in old(track) && track[u] == old(track)[u]
      ensures Reloaded(old(V()), V(), t, epoch * TICKS_PER_EPOCH + xNextExpireTime, xTimerPeriodInTicks[t], uxAutoReload[t], now)
    {
      hide AllOk, OthersSame, Insert, InQueue, TrackOk, Value, Logged, Kept, Called, Reloaded;
      ListsOk(V(), track, xTimerPeriodInTicks, uxAutoReload, {});
      ghost var v := V();
      var head, _ := TakeExpired(now, {});
      t := head;
      assert {} + {t} == {t};
      ghost var v1, tr := V(), track;
      RestartFrom(t, xNextExpireTime, epoch * TICKS_PER_EPOCH + xNextExpireTime, xTimeNow, now);
      ReloadedFrom(v, v1, V(), t, epoch * TICKS_PER_EPOCH + xNextExpireTime, xTimerPeriodInTicks[t], uxAutoReload[t], now);
      KeptCalled(old(track), tr, track, t, xTimerPeriodInTicks[t]);
    }

    /** prvProcessExpiredTimer, for the head of the current list. */
    method ProcessExpiredTimer(xNextExpireTime: nat, xTimeNow: nat, ghost now: nat)
      requires Valid() && pxCurrentTimerList != [] && xNextExpireTime == Value(xItemValue, pxCurrentTimerList[0])
      requires xNextExpireTime <= xTimeNow && xTimeNow == xLastTime && now == Last()
      modifies `pxCurrentTimerList, `pxOverflowTimerList, `xItemValue, `xTimerQueue, `stamps, `track, `callbacks
      ensures Valid() && Followed(old(track)) && |xTimerQueue| >= |old(xTimerQueue)|
      ensures CalledOnce(old(D()), D(), old(pxCurrentTimerList[0]))
      ensures var t := old(pxCurrentTimerList[0]);
              && t in xTimerPeriodInTicks && t in uxAutoReload
              && Reloaded(old(V()), V(), t, epoch * TICKS_PER_EPOCH + xNextExpireTime, xTimerPeriodInTicks[t], uxAutoReload[t], now)
    {
      hide AllOk, Value, Logged, Kept, Called, Reloaded;
      var t := ReloadHead(xNextExpireTime, xTimeNow, now);
      callbacks := callbacks + [t];
    }

    /** A command that restarts t from true time C. */
    method RestartByCommand(t: Timer, time: nat, ghost C: nat)
      requires Inv({t}) && t in xTimerPeriodInTicks && t !in pxCurrentTimerList && t !in pxOverflowTimerList
      requires time == C % TICKS_PER_EPOCH
      requires t in track ==> !InQueue(V(), t) && track[t].due == C && t in uxAutoReload && uxAutoReload[t]
      modifies `xTimerQueue, `stamps, `track
      ensures Inv({}) && Followed(old(track)) && |xTimerQueue| >= |old(xTimerQueue)|
      ensures xTimerQueue == old(xTimerQueue) + if |old(xTimerQueue)| < QUEUE_LENGTH then [Start(t, time)] else []
      ensures forall u :: u in track ==> u in old(track) && track[u] == old(track)[u]
    {
      hide AllOk, InQueue;
      ghost var v, tr := V(), track;
      assert {} + {t} == {t};
      Reload(t, time, C);
      if |v.queue| < QUEUE_LENGTH {
        PostAll(v, track, xTimerPeriodInTicks, uxAutoReload, {}, t, C);
      } else {
        DroppedAll(v, tr, xTimerPeriodInTicks, uxAutoReload, {}, t);
      }
    }

    /** prvGetNextExpireTime. */
    method GetNextExpireTime() returns (xNextExpireTime: nat, xListWasEmpty: bool)
      ensures xListWasEmpty <==> pxCurrentTimerList == []
      ensures xNextExpireTime == if xListWasEmpty then 0 else Value(xItemValue, pxCurrentTimerList[0])
    {
      xListWasEmpty := pxCurrentTimerList == [];
      xNextExpireTime := if xListWasEmpty then 0 else Value(xItemValue, pxCurrentTimerList[0]);
    }

    /** prvGetNextExpireTime and prvProcessTimerOrBlockTask.  The daemon blocks only when
        nothing is overdue, and not beyond the next expiry of any timer followed. */
    method ProcessTimerOrBlock(xTickCount: nat, ghost now: nat) returns (blocks: bool, xBlockTime: nat)
      requires Valid() && Last() <= now < Last() + TICKS_PER_EPOCH && xTickCount == now % TICKS_PER_EPOCH
      modifies `pxCurrentTimerList, `pxOverflowTimerList, `xItemValue, `xTimerQueue, `stamps, `epoch, `track, `callbacks,
               `xLastTime
      ensures Valid() && Looked(old(D()), D(), now, blocks, xBlockTime)
    {
      hide AllOk, Untouched, TrackOk, Logged, UpToDate, Kept, CalledOrIn, Rounded, Called, Value, SetAside, ListOk, Reloaded;
      blocks, xBlockTime := false, 0;
      KeptSame(track, track);
      var xNextExpireTime, xListWasEmpty := GetNextExpireTime();
      var xTimeNow, switched := SampleTimeNow(xTickCount, now, {});
      EpochOf(epoch, xLastTime, now);
      if !switched {
        if !xListWasEmpty && xNextExpireTime <= xTimeNow {
          ProcessExpiredTimer(xNextExpireTime, xTimeNow, now);
        } else {
          blocks := true;
          xBlockTime := (xNextExpireTime - xTimeNow) % TICKS_PER_EPOCH;
          if xTimerQueue == [] {
            ListsOk(V(), track, xTimerPeriodInTicks, uxAutoReload, {});
            forall t | t in track
              ensures UpToDate(D(), t, now, xBlockTime)
            {
              NothingOverdue(D(), now, xBlockTime, t);
            }
          }
        }
      }
    }

    /** A start command, taken from the queue at true time now and in time as one of true time C. */
    method StartTimer(t: Timer, time: nat, ghost C: nat, xTimeNow: nat, ghost now: nat)
      requires Inv({t}) && DueBy(now) && Logged(callbacks, track) && t in xTimerPeriodInTicks && t in uxAutoReload
      requires t !in pxCurrentTimerList && t !in pxOverflowTimerList
      requires now == Last() && xTimeNow == xLastTime < TICKS_PER_EPOCH
      requires time == C % TICKS_PER_EPOCH && InTime(C, now, xTimerPeriodInTicks[t])
      requires t in track ==> !InQueue(V(), t) && track[t].due == C && GoesOn(track[t], uxAutoReload[t])
      modifies `pxCurrentTimerList, `pxOverflowTimerList, `xItemValue, `xTimerQueue, `stamps, `track, `callbacks
      ensures Valid() && Last() == old(Last()) && StartMade(t, C, now, old(D()), D())
    {
      hide AllOk, InQueue, TrackOk, Logged, ActiveUntil, Kept, Called;
      KeptSame(track, track);
      var expired := InsertOrExpire(t, C, now, xTimeNow, time);
      if expired {
        ExpireAtOnce(t, time, C, now);
      }
    }

    /** A timer found expired when its start command is processed. */
    method ExpireAtOnce(t: Timer, time: nat, ghost C: nat, ghost now: nat)
      requires Inv({t}) && DueBy(now) && Logged(callbacks, track) && t in xTimerPeriodInTicks && t in uxAutoReload
      requires t !in pxCurrentTimerList && t !in pxOverflowTimerList
      requires time == C % TICKS_PER_EPOCH
      requires t in track ==>
                 && !InQueue(V(), t) && track[t].due == C && GoesOn(track[t], uxAutoReload[t])
                 && C + xTimerPeriodInTicks[t] <= now
      modifies `xTimerQueue, `stamps, `track, `callbacks
      ensures Inv({}) && DueBy(now) && Logged(callbacks, track) && Followed(old(track))
      ensures callbacks == old(callbacks) + [t] && |xTimerQueue| >= |old(xTimerQueue)|
      ensures xTimerQueue == old(xTimerQueue) + if uxAutoReload[t] && |old(xTimerQueue)| < QUEUE_LENGTH
                                                then [Start(t, (C + xTimerPeriodInTicks[t]) % TICKS_PER_EPOCH)] else []
      ensures t in track ==> t in old(track) && track[t] == Called(old(track)[t], xTimerPeriodInTicks[t])
    {
      hide AllOk, InQueue, TrackOk, Logged, Kept, Called;
      if t in track {
        CalledAll(V(), track, xTimerPeriodInTicks, uxAutoReload, {t}, t);
      }
      if t in track {
        DueAfterCall(t);
      }
      NoteExpiry(t, now);
      callbacks := callbacks + [t];
      ghost var tr := track;
      if uxAutoReload[t] {
        ModSum(C, xTimerPeriodInTicks[t]);
        RestartByCommand(t, (time + xTimerPeriodInTicks[t]) % TICKS_PER_EPOCH, C + xTimerPeriodInTicks[t]);
        LogFewer(callbacks, tr, track);
      } else {
        assert {} + {t} == {t};
        IdleAll(V(), track, xTimerPeriodInTicks, uxAutoReload, {}, t);
      }
      KeptCalled(old(track), tr, track, t, xTimerPeriodInTicks[t]);
    }

    lemma DueAfterCall(t: Timer)
      requires t in track && t in xTimerPeriodInTicks
      ensures var tr := Called(track[t], xTimerPeriodInTicks[t]);
              tr.due == track[t].due + xTimerPeriodInTicks[t] && tr.calls == track[t].calls + 1
    {
    }

    /** A started or restarted timer is followed from true time C on, unless more commands for
        it are queued already. */
    ghost method Follow(t: Timer, C: nat)
      requires Inv({t}) && t in xTimerPeriodInTicks && t in uxAutoReload
      modifies `track
      ensures Inv({t}) && old(track).Keys <= track.Keys
      ensures t !in old(track) && !InQueue(V(), t) ==>
                t in track && track[t] == Track(C, 0, C, multiset(callbacks)[t])
      ensures t in track && t !in old(track) ==>
                !InQueue(V(), t) && track[t].due == C && GoesOn(track[t], uxAutoReload[t])
      ensures forall u :: u in old(track) ==> track[u] == old(track)[u]
      ensures forall u :: u in track && u != t ==> u in old(track)
      ensures Logged(callbacks, old(track)) ==> Logged(callbacks, track)
      ensures forall n :: C <= n && old(DueBy(n)) ==> DueBy(n)
      ensures t in track && t in old(track) ==> track[t] == old(track)[t]
    {
      hide AllOk, InQueue;
      if t !in track && !InQueue(V(), t) {
        FollowAll(V(), track, xTimerPeriodInTicks, uxAutoReload, t, C, multiset(callbacks)[t]);
        track := track[t := Track(C, 0, C, multiset(callbacks)[t])];
      }
    }

    /** uxListRemove, for a timer in a list. */
    method RemoveIfActive(t: Timer)
      requires Inv({t})
      modifies `pxCurrentTimerList, `pxOverflowTimerList
      ensures Inv({t}) && t !in pxCurrentTimerList && t !in pxOverflowTimerList
      ensures InQueue(V(), t) <==> InQueue(old(V()), t)
    {
      hide InQueue, AllFine, Known;
      TakeOutAll(V(), track, xTimerPeriodInTicks, uxAutoReload, t);
      if t in pxCurrentTimerList {
        WithoutAbsent(pxOverflowTimerList, t);
        pxCurrentTimerList := Without(pxCurrentTimerList, t);
      } else {
        WithoutAbsent(pxCurrentTimerList, t);
        if t in pxOverflowTimerList {
          pxOverflowTimerList := Without(pxOverflowTimerList, t);
        } else {
          WithoutAbsent(pxOverflowTimerList, t);
        }
      }
    }

    /** The period-change command: the new period starts now. */
    method SetPeriod(t: Timer, period: nat, xTimeNow: nat, ghost now: nat)
      requires Inv({t}) && DueBy(now) && Logged(callbacks, track) && t in xTimerPeriodInTicks && t in uxAutoReload
      requires t !in track && 1 <= period < TICKS_PER_EPOCH
      requires t !in pxCurrentTimerList && t !in pxOverflowTimerList
      requires now == Last() && xTimeNow == xLastTime < TICKS_PER_EPOCH
      modifies `pxCurrentTimerList, `pxOverflowTimerList, `xItemValue, `track, `xTimerPeriodInTicks
      ensures Inv({}) && DueBy(now) && Logged(callbacks, track) && old(track).Keys <= track.Keys && Kept(old(track), track)
      ensures forall u :: u in track && u != t ==> u in old(track)
      ensures xTimerPeriodInTicks == old(xTimerPeriodInTicks)[t := period]
      ensures ActiveUntil(V(), t, now + period)
      ensures !InQueue(old(V()), t) ==> t in track && track[t] == Track(now, 0, now, multiset(callbacks)[t])
    {
      hide AllOk, InQueue, TrackOk, Logged, Kept;
      NewPeriodAll(V(), track, xTimerPeriodInTicks, uxAutoReload, t, period);
      xTimerPeriodInTicks := xTimerPeriodInTicks[t := period];
      Follow(t, now);
      KeptMore(old(track), track);
      EpochOf(epoch, xTimeNow, now);
      var _ := InsertOrExpire(t, now, now, xTimeNow, xTimeNow);
    }

    lemma AsideFacts(v: View, was: map<Timer, Track>, calls: seq<Timer>, t: Timer)
      requires SetAside(v, was, calls, {t})
      ensures multiset(callbacks)[t] == multiset(calls)[t]
      ensures t !in pxCurrentTimerList && t !in pxOverflowTimerList && (InQueue(V(), t) <==> InQueue(v, t))
      ensures (t in track <==> t in was) && (t in track ==> track[t] == was[t])
    {
    }

    /** What comes before the switch on the command: t leaves its list, and the clock is read. */
    method PrepareCommand(t: Timer, ghost starts: bool, ghost C: nat, xTickCount: nat, ghost now: nat) returns (xTimeNow: nat)
      requires Inv({t}) && xLastTime < TICKS_PER_EPOCH && DueBy(now) && Logged(callbacks, track)
      requires Last() <= now < Last() + TICKS_PER_EPOCH && xTickCount == now % TICKS_PER_EPOCH && (starts ==> C <= now)
      requires t in xTimerPeriodInTicks && t in uxAutoReload
      requires t in track ==> starts && !InQueue(V(), t) && track[t].due == C && GoesOn(track[t], uxAutoReload[t])
      modifies `pxCurrentTimerList, `pxOverflowTimerList, `xItemValue, `xTimerQueue, `stamps, `epoch, `track, `callbacks,
               `xLastTime
      ensures Inv({t}) && DueBy(now) && Logged(callbacks, track)
      ensures Last() == now && xTimeNow == xLastTime && xTimeNow < TICKS_PER_EPOCH
      ensures t !in pxCurrentTimerList && t !in pxOverflowTimerList
      ensures t in track ==> starts && !InQueue(V(), t) && track[t].due == C && GoesOn(track[t], uxAutoReload[t])
      ensures Prepared(t, starts, C, old(D()), D())
    {
      hide AllOk, InQueue, TrackOk, Logged, SetAside, Kept;
      KeptSame(track, track);
      RemoveIfActive(t);
      if starts {
        Follow(t, C);
        KeptMore(old(track), track);
      }
      ghost var v, tr := V(), track;
      var tick, _ := SampleTimeNow(xTickCount, now, {t});
      xTimeNow := tick;
      AsideFacts(v, tr, old(callbacks), t);
      KeptTrans(old(track), tr, track);
    }

    /** A start or reset command for timer t, taken from the queue and stamped with true time C;
        it is carried out as one of the time it is taken for. */
    method HandleStart(t: Timer, time: nat, ghost C: nat, xTickCount: nat, ghost now: nat)
      requires Inv({t}) && xLastTime < TICKS_PER_EPOCH && DueBy(Last()) && Logged(callbacks, track)
      requires Last() <= now < Last() + TICKS_PER_EPOCH && xTickCount == now % TICKS_PER_EPOCH
      requires time == C % TICKS_PER_EPOCH && C <= now
      requires t in xTimerPeriodInTicks && t in uxAutoReload
      requires t in track ==> !InQueue(V(), t) && track[t].due == C && GoesOn(track[t], uxAutoReload[t])
      modifies `pxCurrentTimerList, `pxOverflowTimerList, `xItemValue, `xTimerQueue, `stamps, `epoch, `track, `callbacks,
               `xLastTime
      ensures Valid() && Last() == now
      ensures |xTimerQueue| < QUEUE_LENGTH ==> old(track).Keys <= track.Keys
      ensures var s := Slip(C, now, xTimerPeriodInTicks[t]);
              var was := Slid(old(track), t, s);
              Kept(was, track) && Started(t, C + s, now, old(D()).(track := was), D())
    {
      hide AllOk, InQueue, TrackOk, Logged, ActiveUntil, Kept, Called, DaemonOk, InTime, Prepared, StartMade, Started, Slip,
           Slid;
      ghost var s := Slip(C, now, xTimerPeriodInTicks[t]);
      ListsOk(V(), track, xTimerPeriodInTicks, uxAutoReload, {t});
      SlipFacts(C, now, xTimerPeriodInTicks[t]);
      SlideStart(t, C, s, now);
      ghost var d := D();
      var xTimeNow := PrepareCommand(t, true, C + s, xTickCount, now);
      ghost var d1 := D();
      StartTimer(t, time, C + s, xTimeNow, now);
      StartComposes(t, C + s, now, d, d1, D());
    }

    /** The start of t put off by s. */
    ghost method SlideStart(t: Timer, C: nat, s: nat, now: nat)
      requires Inv({t}) && DueBy(now) && Logged(callbacks, track) && C + s <= now
      requires t in track ==> track[t].due == C
      modifies `track
      ensures track == Slid(old(track), t, s) && track.Keys == old(track).Keys
      ensures t in track ==> track[t].due == C + s && track[t].calls == old(track)[t].calls
      ensures Inv({t}) && DueBy(now) && Logged(callbacks, track)
    {
      hide AllOk, Logged;
      SlideAll(V(), track, xTimerPeriodInTicks, uxAutoReload, t, s);
      SlideLog(callbacks, track, t, s);
      track := Slid(track, t, s);
    }

    /** A stop command. */
    method HandleStop(t: Timer, xTickCount: nat, ghost now: nat)
      requires Inv({t}) && xLastTime < TICKS_PER_EPOCH && DueBy(Last()) && Logged(callbacks, track)
      requires Last() <= now < Last() + TICKS_PER_EPOCH && xTickCount == now % TICKS_PER_EPOCH
      requires t in xTimerPeriodInTicks && t in uxAutoReload && t !in track
      modifies `pxCurrentTimerList, `pxOverflowTimerList, `xItemValue, `xTimerQueue, `stamps, `epoch, `track, `callbacks,
               `xLastTime
      ensures Valid() && Last() == now && Kept(old(track), track)
      ensures |xTimerQueue| < QUEUE_LENGTH ==> old(track).Keys <= track.Keys
      ensures t !in pxCurrentTimerList && t !in pxOverflowTimerList
      ensures multiset(callbacks)[t] == multiset(old(callbacks))[t]
    {
      hide AllOk, InQueue, TrackOk, Logged, Kept;
      var _ := PrepareCommand(t, false, now, xTickCount, now);
      assert {} + {t} == {t};
      IdleAll(V(), track, xTimerPeriodInTicks, uxAutoReload, {}, t);
    }

    /** A period-change command. */
    method HandleChange(t: Timer, period: nat, xTickCount: nat, ghost now: nat)
      requires Inv({t}) && xLastTime < TICKS_PER_EPOCH && DueBy(Last()) && Logged(callbacks, track)
      requires Last() <= now < Last() + TICKS_PER_EPOCH && xTickCount == now % TICKS_PER_EPOCH
      requires t in xTimerPeriodInTicks && t in uxAutoReload && t !in track && 1 <= period < TICKS_PER_EPOCH
      modifies `pxCurrentTimerList, `pxOverflowTimerList, `xItemValue, `xTimerQueue, `stamps, `epoch, `track, `callbacks,
               `xLastTime, `xTimerPeriodInTicks
      ensures Valid() && Last() == now && Kept(old(track), track)
      ensures |xTimerQueue| < QUEUE_LENGTH ==> old(track).Keys <= track.Keys
      ensures Done(ChangePeriod(t, period), now, now, old(D()), D())
    {
      hide AllOk, InQueue, TrackOk, Logged, ActiveUntil, Kept;
      var xTimeNow := PrepareCommand(t, false, now, xTickCount, now);
      ghost var tr := track;
      SetPeriod(t, period, xTimeNow, now);
      KeptTrans(old(track), tr, track);
    }

    /** One turn of the loop in prvProcessReceivedCommands, at true time now: less than 2^16
        ticks after the last look at the clock, and not before the command was stamped. */
    method ProcessCommand(xTickCount: nat, ghost now: nat)
      requires Valid() && |stamps| == |xTimerQueue| && StampPast(D(), now)
      requires Last() <= now < Last() + TICKS_PER_EPOCH && xTickCount == now % TICKS_PER_EPOCH
      modifies `pxCurrentTimerList, `pxOverflowTimerList, `xItemValue, `xTimerQueue, `stamps, `epoch, `track, `callbacks,
               `xLastTime, `xTimerPeriodInTicks
      ensures Valid() && Served(old(D()), D(), now)
    {
      hide AllOk, InQueue, Logged, ActiveUntil, Kept, Started, Slip;
      if xTimerQueue == [] {
        return;
      }
      PopAll(V(), track, xTimerPeriodInTicks, uxAutoReload);
      KeptSame(track, track);
      var xMessage := xTimerQueue[0];
      ghost var C := stamps[0];
      xTimerQueue, stamps := xTimerQueue[1..], stamps[1..];
      match xMessage
      case Call =>
      case Start(t, time) =>
        HandleStart(t, time, C, xTickCount, now);
      case Stop(t) =>
        HandleStop(t, xTickCount, now);
      case ChangePeriod(t, period) =>
        HandleChange(t, period, xTickCount, now);
    }

    // ---- Other tasks ----------------------------------------------------------------------

    constructor ()
      ensures Valid() && Last() == 0 && track == map[] && xTimerQueue == []
    {
      xTimerPeriodInTicks, uxAutoReload, xItemValue := map[], map[], map[];
      pxCurrentTimerList, pxOverflowTimerList, xTimerQueue, callbacks, stamps := [], [], [], [], [];
      xLastTime, epoch, track := 0, 0, map[];
    }

    /** xTimerCreate: the timer is dormant, or there is none if it has no period. */
    method CreateTimer(t: Timer, period: nat, autoReload: bool) returns (created: bool)
      requires Valid() && t !in xTimerPeriodInTicks && period < TICKS_PER_EPOCH
      modifies `xTimerPeriodInTicks, `uxAutoReload
      ensures Valid() && (created <==> period > 0) && D() == Created(old(D()), t, period, autoReload)
      ensures created ==> xTimerPeriodInTicks == old(xTimerPeriodInTicks)[t := period]
                          && uxAutoReload == old(uxAutoReload)[t := autoReload]
    {
      if period == 0 {
        return false;
      }
      created := true;
      CreateAll(V(), track, xTimerPeriodInTicks, uxAutoReload, t, period, autoReload);
      hide AllOk;
      xTimerPeriodInTicks := xTimerPeriodInTicks[t := period];
      uxAutoReload := uxAutoReload[t := autoReload];
    }

    /** xTimerGenericCommand by another task, for a command stamped with true time C; a timer
        is no longer followed once there is a new command for it. */
    method UserCommand(m: Message, ghost C: nat) returns (xReturn: bool)
      requires Valid() && MessageOk(m, xTimerPeriodInTicks) && (m.Start? ==> m.time == C % TICKS_PER_EPOCH)
      modifies `xTimerQueue, `stamps, `track
      ensures Valid() && (xReturn <==> |old(xTimerQueue)| < QUEUE_LENGTH)
      ensures D() == Commanded(old(D()), m, C)
      ensures xTimerQueue == if xReturn then old(xTimerQueue) + [m] else old(xTimerQueue)
    {
      hide AllOk, Logged;
      ghost var tr := track;
      if |xTimerQueue| < QUEUE_LENGTH {
        CommandAll(V(), track, xTimerPeriodInTicks, uxAutoReload, m, C);
        if !m.Call? {
          track := track - {m.timer};
        }
        LogFewer(callbacks, tr, track);
      }
      xReturn := GenericCommand(m, C);
    }
  }

  lemma WrapSeen(epoch: nat, last: nat, now: nat)
    requires last < TICKS_PER_EPOCH
    requires epoch * TICKS_PER_EPOCH + last <= now < epoch * TICKS_PER_EPOCH + last + TICKS_PER_EPOCH
    ensures now == (if now % TICKS_PER_EPOCH < last then epoch + 1 else epoch) * TICKS_PER_EPOCH + now % TICKS_PER_EPOCH
  {
  }

  lemma EpochOf(epoch: nat, tick: nat, now: nat)
    requires now == epoch * TICKS_PER_EPOCH + tick && tick < TICKS_PER_EPOCH
    ensures now / TICKS_PER_EPOCH == epoch && now % TICKS_PER_EPOCH == tick
  {
  }

  lemma EpochOfExpiry(X: nat)
    ensures X == X / TICKS_PER_EPOCH * TICKS_PER_EPOCH + X % TICKS_PER_EPOCH
  {
  }
}
