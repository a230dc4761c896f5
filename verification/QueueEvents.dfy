/** The critical sections of queue.c as methods on the queue's fields.  Each is one step of
    the protocol in module QueueLock; what is stored in the queue is in module QueueStorage. */
module QueueEvents {
  import opened Options
  import opened Tasks
  import opened QueueLock

  class Queue {
    const uxLength: nat
    const uxItemSize: nat
    var uxMessagesWaiting: nat
    var xRxLock: int
    var xTxLock: int
    var xTasksWaitingToReceive: seq<Task>
    var xTasksWaitingToSend: seq<Task>
    ghost var wokenR: set<Task>
    ghost var wokenS: set<Task>
    ghost var pc: Places
    ghost var owner: Option<Task>

    ghost function S(): State
      reads this
    {
      State(uxLength, uxItemSize > 0, uxMessagesWaiting, xRxLock, xTxLock, xTasksWaitingToReceive, xTasksWaitingToSend,
            wokenR, wokenS, pc, owner)
    }

    /** xQueueGenericCreate; both sizes are unsigned chars. */
    constructor (length: nat, itemSize: nat)
      requires 0 < length < 0x100 && itemSize < 0x100
      ensures Fresh(S()) && S().length == length && S().sized == (itemSize > 0) && Inv(S()) && SendersOk(S())
    {
      uxLength, uxItemSize := length, itemSize;
      uxMessagesWaiting, xRxLock, xTxLock := 0, UNLOCKED, UNLOCKED;
      xTasksWaitingToReceive, xTasksWaitingToSend := [], [];
      wokenR, wokenS, pc, owner := {}, {}, map[], None;
    }

    /** xTaskRemoveFromEventList, for the receivers. */
    method WakeOneReceiver()
      requires xTasksWaitingToReceive != []
      modifies `xTasksWaitingToReceive, `wokenR
      ensures S() == old(S()).WakeReceiver()
    {
      wokenR := wokenR + {xTasksWaitingToReceive[0]};
      xTasksWaitingToReceive := xTasksWaitingToReceive[1..];
    }

    method WakeOneSender()
      requires xTasksWaitingToSend != []
      modifies `xTasksWaitingToSend, `wokenS
      ensures S() == old(S()).WakeSender()
    {
      wokenS := wokenS + {xTasksWaitingToSend[0]};
      xTasksWaitingToSend := xTasksWaitingToSend[1..];
    }

    /** Task t has looked at the queue. */
    ghost method NoteExamined(t: Task, p: Pc)
      modifies `wokenR, `wokenS, `pc
      ensures S() == old(S()).Examined(t, p)
    {
      wokenR := wokenR - {t};
      wokenS := wokenS - {t};
      pc := pc[t := p];
    }

    /** What prvCopyDataToQueue does to the count.  An item of size 0 is added, even if it was
        to overwrite another. */
    method CountItem(overwrite: bool)
      requires uxMessagesWaiting < 0x100 && (overwrite ==> uxLength == 1)
      requires if overwrite then uxItemSize > 0 ==> uxMessagesWaiting <= 1 else uxMessagesWaiting < 0xFF
      modifies `uxMessagesWaiting
      ensures uxMessagesWaiting ==
              if overwrite then Overwritten(uxItemSize > 0, old(uxMessagesWaiting)) else old(uxMessagesWaiting) + 1
    {
      if uxItemSize > 0 && overwrite && uxMessagesWaiting > 0 {
        uxMessagesWaiting := uxMessagesWaiting - 1;
      }
      uxMessagesWaiting := (uxMessagesWaiting + 1) % 0x100;
    }

    // ---- Task calls ---------------------------------------------------------------------

    /** The critical section of xQueueGenericSend; done is false when the task has to wait or
        to give up. */
    method SendSection(t: Task, xTicksToWait: nat, overwrite: bool) returns (done: bool)
      requires Base(S()) && Enabled(S(), Examine(t, xTicksToWait > 0))
      requires S().At(t).kind == if overwrite then Kind.Overwrite else Send
      modifies this
      ensures S() == Step(old(S()), Examine(t, xTicksToWait > 0))
      ensures done <==> overwrite || old(uxMessagesWaiting) < uxLength
      ensures done || xTicksToWait == 0 ==> S().At(t) == Out
      ensures !done && xTicksToWait > 0 ==> S().At(t).Suspending?
      ensures uxMessagesWaiting == if !done then old(uxMessagesWaiting)
                                   else if overwrite && uxItemSize > 0 then 1 else (old(uxMessagesWaiting) + 1) % 0x100
      ensures xTasksWaitingToReceive == if done then Tail(old(xTasksWaitingToReceive)) else old(xTasksWaitingToReceive)
      ensures xTasksWaitingToSend == old(xTasksWaitingToSend) && xRxLock == old(xRxLock) && xTxLock == old(xTxLock)
    {
      if uxMessagesWaiting < uxLength || overwrite {
        NoteExamined(t, Out);
        CountItem(overwrite);
        if xTasksWaitingToReceive != [] {
          WakeOneReceiver();
        }
        return true;
      }
      if xTicksToWait == 0 {
        NoteExamined(t, Out);
      } else {
        NoteExamined(t, Suspending(Send));
      }
      return false;
    }

    /** The critical section of xQueueGenericReceive. */
    method ReceiveSection(t: Task, xTicksToWait: nat, xJustPeeking: bool) returns (done: bool)
      requires Enabled(S(), Examine(t, xTicksToWait > 0))
      requires S().At(t).kind == if xJustPeeking then Peek else Receive
      modifies this
      ensures S() == Step(old(S()), Examine(t, xTicksToWait > 0))
      ensures done <==> old(uxMessagesWaiting) > 0
      ensures done || xTicksToWait == 0 ==> S().At(t) == Out
      ensures !done && xTicksToWait > 0 ==> S().At(t).Suspending?
      ensures uxMessagesWaiting == old(uxMessagesWaiting) - if done && !xJustPeeking then 1 else 0
      ensures xTasksWaitingToReceive == if done && xJustPeeking then Tail(old(xTasksWaitingToReceive))
                                        else old(xTasksWaitingToReceive)
      ensures xTasksWaitingToSend == if done && !xJustPeeking then Tail(old(xTasksWaitingToSend)) else old(xTasksWaitingToSend)
      ensures xRxLock == old(xRxLock) && xTxLock == old(xTxLock)
    {
      if uxMessagesWaiting > 0 {
        NoteExamined(t, Out);
        if !xJustPeeking {
          uxMessagesWaiting := uxMessagesWaiting - 1;
          if xTasksWaitingToSend != [] {
            WakeOneSender();
          }
        } else {
          if xTasksWaitingToReceive != [] {
            WakeOneReceiver();
          }
        }
        return true;
      }
      ghost var kind := S().At(t).kind;
      if xTicksToWait == 0 {
        NoteExamined(t, Out);
      } else {
        NoteExamined(t, Suspending(kind));
      }
      return false;
    }

    /** prvLockQueue. */
    method Lock(ghost t: Task)
      requires Enabled(S(), LockQueue(t))
      modifies this
      ensures S() == Step(old(S()), LockQueue(t))
      ensures xRxLock == (if old(xRxLock) == -1 then 0 else old(xRxLock))
      ensures xTxLock == (if old(xTxLock) == -1 then 0 else old(xTxLock))
    {
      if xRxLock == UNLOCKED {
        xRxLock := LOCKED_UNMODIFIED;
      }
      if xTxLock == UNLOCKED {
        xTxLock := LOCKED_UNMODIFIED;
      }
      pc := pc[t := TimeChecking(S().At(t).kind)];
    }

    /** prvIsQueueEmpty and prvIsQueueFull, and the choice that follows. */
    method Test(ghost t: Task, receives: bool) returns (blocks: bool)
      requires Enabled(S(), TestQueue(t)) && S().At(t).kind.Receives() == receives
      modifies `pc
      ensures S() == Step(old(S()), TestQueue(t)) && blocks == S().At(t).Placing?
      ensures blocks <==> if receives then uxMessagesWaiting == 0 else uxMessagesWaiting == uxLength
    {
      blocks := if receives then uxMessagesWaiting == 0 else uxMessagesWaiting == uxLength;
      ghost var kind := S().At(t).kind;
      pc := pc[t := if blocks then Placing(kind) else UnlockingTx(kind, Retry)];
    }

    /** vTaskPlaceOnEventList; the place in the list is that of the task's priority. */
    method Place(t: Task, receives: bool, pos: nat)
      requires Enabled(S(), PlaceOnList(t, pos)) && S().At(t).kind.Receives() == receives
      modifies this
      ensures S() == Step(old(S()), PlaceOnList(t, pos))
      ensures receives ==> xTasksWaitingToSend == old(xTasksWaitingToSend)
                           && xTasksWaitingToReceive == old(xTasksWaitingToReceive[..pos] + [t] + xTasksWaitingToReceive[pos..])
      ensures !receives ==> xTasksWaitingToReceive == old(xTasksWaitingToReceive)
                            && xTasksWaitingToSend == old(xTasksWaitingToSend[..pos] + [t] + xTasksWaitingToSend[pos..])
    {
      ghost var kind := S().At(t).kind;
      if receives {
        xTasksWaitingToReceive := Insert(xTasksWaitingToReceive, pos, t);
      } else {
        xTasksWaitingToSend := Insert(xTasksWaitingToSend, pos, t);
      }
      pc := pc[t := UnlockingTx(kind, Wait)];
    }

    /** The first critical section of prvUnlockQueue. */
    method UnlockTxHalf(ghost t: Task)
      requires Enabled(S(), UnlockTx(t))
      modifies this
      ensures S() == Step(old(S()), UnlockTx(t)) && xTxLock == -1
      ensures var list, n := old(xTasksWaitingToReceive), old(xTxLock);
              xTasksWaitingToReceive == if n <= 0 then list else if n >= |list| then [] else list[n..]
    {
      DrainIs(xTasksWaitingToReceive, wokenR, Most(xTxLock));
      ghost var was := S();
      while xTxLock > LOCKED_UNMODIFIED
        invariant S() == was.(toReceive := xTasksWaitingToReceive, wokenR := wokenR, txLock := xTxLock)
        invariant Drain(xTasksWaitingToReceive, wokenR, Most(xTxLock)) == Drain(was.toReceive, was.wokenR, Most(was.txLock))
        decreases xTxLock
      {
        if xTasksWaitingToReceive != [] {
          WakeOneReceiver();
        } else {
          break;
        }
        xTxLock := xTxLock - 1;
      }
      xTxLock := UNLOCKED;
      pc := pc[t := UnlockingRx(was.At(t).kind, was.At(t).after)];
    }

    /** The second critical section of prvUnlockQueue. */
    method UnlockRxHalf(ghost t: Task)
      requires Enabled(S(), UnlockRx(t))
      modifies this
      ensures S() == Step(old(S()), UnlockRx(t)) && xRxLock == -1
      ensures var list, n := old(xTasksWaitingToSend), old(xRxLock);
              xTasksWaitingToSend == if n <= 0 then list else if n >= |list| then [] else list[n..]
    {
      DrainIs(xTasksWaitingToSend, wokenS, Most(xRxLock));
      ghost var was := S();
      while xRxLock > LOCKED_UNMODIFIED
        invariant S() == was.(toSend := xTasksWaitingToSend, wokenS := wokenS, rxLock := xRxLock)
        invariant Drain(xTasksWaitingToSend, wokenS, Most(xRxLock)) == Drain(was.toSend, was.wokenS, Most(was.rxLock))
        decreases xRxLock
      {
        if xTasksWaitingToSend != [] {
          WakeOneSender();
          xRxLock := xRxLock - 1;
        } else {
          break;
        }
      }
      xRxLock := UNLOCKED;
      pc := pc[t := Resuming(was.At(t).kind, was.At(t).after)];
    }

    // ---- Interrupts ---------------------------------------------------------------------

    /** xQueueGenericSendFromISR. */
    method GenericSendFromISR(overwrite: bool) returns (xReturn: bool)
      requires Base(S()) && Enabled(S(), SendFromISR(overwrite))
      modifies this
      ensures S() == Step(old(S()), SendFromISR(overwrite))
      ensures xReturn <==> overwrite || old(uxMessagesWaiting) < uxLength
      ensures uxMessagesWaiting == if !xReturn then old(uxMessagesWaiting)
                                   else if overwrite && uxItemSize > 0 then 1 else (old(uxMessagesWaiting) + 1) % 0x100
      ensures xReturn && old(xTxLock) == -1 ==> xTxLock == -1 && xTasksWaitingToReceive == Tail(old(xTasksWaitingToReceive))
      ensures xReturn && old(xTxLock) != -1 ==>
                && xTasksWaitingToReceive == old(xTasksWaitingToReceive)
                && xTxLock == if old(xTxLock) == 127 then -128 else old(xTxLock) + 1
      ensures !xReturn ==> xTasksWaitingToReceive == old(xTasksWaitingToReceive) && xTxLock == old(xTxLock)
      ensures xTasksWaitingToSend == old(xTasksWaitingToSend) && xRxLock == old(xRxLock)
    {
      if uxMessagesWaiting < uxLength || overwrite {
        CountItem(overwrite);
        if xTxLock == UNLOCKED {
          if xTasksWaitingToReceive != [] {
            WakeOneReceiver();
          }
        } else {
          xTxLock := Count(xTxLock);
        }
        return true;
      }
      return false;
    }

    /** xQueueReceiveFromISR. */
    method GenericReceiveFromISR() returns (xReturn: bool)
      modifies this
      ensures S() == Step(old(S()), ReceiveFromISR)
      ensures xReturn <==> old(uxMessagesWaiting) > 0
      ensures uxMessagesWaiting == old(uxMessagesWaiting) - if xReturn then 1 else 0
      ensures xReturn && old(xRxLock) == -1 ==> xRxLock == -1 && xTasksWaitingToSend == Tail(old(xTasksWaitingToSend))
      ensures xReturn && old(xRxLock) != -1 ==>
                && xTasksWaitingToSend == old(xTasksWaitingToSend)
                && xRxLock == if old(xRxLock) == 127 then -128 else old(xRxLock) + 1
      ensures !xReturn ==> xTasksWaitingToSend == old(xTasksWaitingToSend) && xRxLock == old(xRxLock)
      ensures xTasksWaitingToReceive == old(xTasksWaitingToReceive) && xTxLock == old(xTxLock)
    {
      if uxMessagesWaiting > 0 {
        uxMessagesWaiting := uxMessagesWaiting - 1;
        if xRxLock == UNLOCKED {
          if xTasksWaitingToSend != [] {
            WakeOneSender();
          }
        } else {
          xRxLock := Count(xRxLock);
        }
        return true;
      }
      return false;
    }
  }

  /** A waiting list without its first task. */
  function Tail(list: seq<Task>): (rest: seq<Task>)
    ensures list != [] ==> |rest| == |list| - 1 && rest == list[1..]
    ensures list == [] ==> rest == []
  {
    if list == [] then [] else list[1..]
  }

  /** n wake-ups take the first n tasks off a list, or all of them. */
  lemma {:induction false} DrainIs(list: seq<Task>, woken: set<Task>, n: nat)
    ensures Drain(list, woken, n).0 == if n >= |list| then [] else list[n..]
    ensures forall t :: t in Drain(list, woken, n).1 <==> t in woken || t in (if n >= |list| then list else list[..n])
    decreases n
  {
    if n > 0 && list != [] {
      DrainIs(list[1..], woken + {list[0]}, n - 1);
    }
  }
}
