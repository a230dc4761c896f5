/** The scheduler of tasks.c as an object.  Every method is one critical section, one
    interrupt, or one section run with the scheduler suspended, so a run of the kernel is
    any sequence of calls. */
module Kernel {
  import opened Ring
  import opened KernelLists
  import opened Tasks
  import opened WakeTimes
  import opened Scheduling
  import opened Mutexes

  /** taskEVENT_LIST_ITEM_VALUE_IN_USE for 16-bit ticks. */
  const VALUE_IN_USE := 0x8000

  /** A 16-bit value with that bit set. */
  function InUse(v: nat): nat {
    if v / VALUE_IN_USE % 2 == 1 then v else v + VALUE_IN_USE
  }

  /** Only the mark is added. */
  lemma InUseIs(v: nat)
    requires v < TICKS_PER_EPOCH
    ensures InUse(v) < TICKS_PER_EPOCH && InUse(v) / VALUE_IN_USE == 1 && InUse(v) % VALUE_IN_USE == v % VALUE_IN_USE
  {
  }

  class Kernel {
    const idle: Task
    var ls: Lists
    var uxPriority: map<Task, nat>
    var uxBasePriority: map<Task, nat>
    var uxMutexesHeld: map<Task, nat>
    /** queue.c keeps this in each mutex; no entry stands for NULL. */
    var pxMutexHolder: map<Mutex, Task>
    var pxCurrentTCB: Task
    var xTickCount: nat
    var xNumOfOverflows: nat
    var xNextTaskUnblockTime: nat
    var uxPendedTicks: nat
    var uxSchedulerSuspended: nat
    var uxTopReadyPriority: nat
    var pxDelayedTaskList: bool
    var xYieldPending: bool
    /** How often xTickCount has wrapped. */
    ghost var epoch: nat
    /** Ticks dropped because uxPendedTicks wrapped. */
    ghost var lost: nat

    // ---- The invariant ------------------------------------------------------------------

    ghost function S(): Sched
      reads `ls, `uxTopReadyPriority
    {
      Sched(ls, uxTopReadyPriority)
    }

    ghost function Clock(): Clock
      reads `ls, `uxPriority, `epoch, `xTickCount, `pxDelayedTaskList
    {
      ClockOf(ls, uxPriority.Keys, pxDelayedTaskList, epoch, xTickCount)
    }

    /** All tick interrupts so far: processed, pended and lost. */
    ghost function Arrived(): nat
      reads `epoch, `xTickCount, `uxPendedTicks, `lost
    {
      epoch * TICKS_PER_EPOCH + xTickCount + uxPendedTicks + lost
    }

    ghost predicate IsReady(t: Task)
      reads `ls, `uxPriority
    {
      t in uxPriority && ls.In(Generic(t), Ready(uxPriority[t]))
    }

    /** The counter, and the wake times of lists l. */
    ghost predicate TickOkFor(l: Lists)
      reads `xTickCount, `xNumOfOverflows, `epoch, `pxDelayedTaskList, `xNextTaskUnblockTime
    {
      && xTickCount < TICKS_PER_EPOCH && xNumOfOverflows == epoch % 0x100
      && DelaysOk(l, pxDelayedTaskList, xTickCount + 1, xTickCount)
      && UnblockTimeOk(l, pxDelayedTaskList, xNextTaskUnblockTime) && xNextTaskUnblockTime <= MAX_DELAY
    }

    ghost predicate TickOk()
      reads `ls, `xTickCount, `xNumOfOverflows, `epoch, `pxDelayedTaskList, `xNextTaskUnblockTime
    {
      TickOkFor(ls)
    }

    ghost predicate Core()
      reads `ls, `uxPriority, `uxTopReadyPriority, `pxCurrentTCB, `uxPendedTicks, `uxSchedulerSuspended,
            `xTickCount, `xNumOfOverflows, `epoch, `pxDelayedTaskList, `xNextTaskUnblockTime
    {
      && Good(S(), uxPriority) && TickOk()
      && pxCurrentTCB in uxPriority && IsReady(idle)
      && uxPendedTicks < 0x100 && uxSchedulerSuspended < 0x100
    }

    /** Between operations. */
    ghost predicate Valid()
      reads `ls, `uxPriority, `uxTopReadyPriority, `pxCurrentTCB, `uxPendedTicks, `uxSchedulerSuspended,
            `xTickCount, `xNumOfOverflows, `epoch, `pxDelayedTaskList, `xNextTaskUnblockTime
    {
      && Core()
      && (uxSchedulerSuspended == 0 ==> uxPendedTicks == 0 && NonePended(ls))
    }

    ghost predicate MutexesOk()
      reads `uxPriority, `uxBasePriority, `uxMutexesHeld, `pxMutexHolder
    {
      Accounts(uxPriority, uxBasePriority, uxMutexesHeld, pxMutexHolder)
    }

    // ---- Creation -----------------------------------------------------------------------

    /** A started scheduler with nothing but its idle task. */
    constructor (idleTask: Task)
      ensures Valid() && MutexesOk() && idle == idleTask && pxCurrentTCB == idle && IsReady(idle)
      ensures Clock() == WakeTimes.Clock(0, map[]) && Arrived() == 0 && lost == 0 && uxSchedulerSuspended == 0
    {
      NoListsValid();
      FirstWell(idleTask);
      idle := idleTask;
      ls := NO_LISTS.InsertEnd(Ready(0), Generic(idleTask));
      uxPriority, uxBasePriority, uxMutexesHeld := map[idleTask := 0], map[idleTask := 0], map[idleTask := 0];
      pxMutexHolder := map[];
      pxCurrentTCB := idleTask;
      xTickCount, xNumOfOverflows, xNextTaskUnblockTime := 0, 0, MAX_DELAY;
      uxPendedTicks, uxSchedulerSuspended, uxTopReadyPriority := 0, 0, 0;
      pxDelayedTaskList, xYieldPending := false, false;
      epoch, lost := 0, 0;
    }

    // ---- List operations ----------------------------------------------------------------

    method Remove(x: Item)
      requires ls.Valid() && DelaySorted(ls) && x in ls.container
      modifies `ls
      ensures ls == Drop(old(ls), x)
    {
      RemoveKeeps(ls, x);
      ls := ls.Remove(x);
    }

    method AddTaskToReadyList(t: Task)
      requires ls.Valid() && DelaySorted(ls) && t in uxPriority && Generic(t) !in ls.container
      modifies `ls, `uxTopReadyPriority
      ensures S() == AddReady(old(S()), t, uxPriority[t])
    {
      InsertEndKeeps(ls, Ready(uxPriority[t]), Generic(t));
      if uxPriority[t] > uxTopReadyPriority {
        uxTopReadyPriority := uxPriority[t];
      }
      ls := ls.InsertEnd(Ready(uxPriority[t]), Generic(t));
    }

    /** Out of the state list, out of the event list if in one, and ready. */
    method ReadyTask(t: Task)
      requires Good(S(), uxPriority) && t in uxPriority
      modifies `ls, `uxTopReadyPriority
      ensures S() == Scheduling.MakeReady(old(S()), uxPriority, t)
    {
      assert Generic(t) in ls.container;
      hide Good, Lists.Valid, DelaySorted;
      Remove(Generic(t));
      if Event(t) in ls.container {
        Remove(Event(t));
      }
      AddTaskToReadyList(t);
    }

    // ---- The tick -----------------------------------------------------------------------

    /** prvResetNextTaskUnblockTime. */
    method ResetNextTaskUnblockTime(ghost lo: nat, ghost hi: nat)
      requires Good(S(), uxPriority) && DelaysOk(ls, pxDelayedTaskList, lo, hi)
      modifies `xNextTaskUnblockTime
      ensures IsNextWake(ls, pxDelayedTaskList, xNextTaskUnblockTime)
    {
      HeadTimeOk(S(), uxPriority, pxDelayedTaskList, lo, hi);
      if ls.Items(Delayed(pxDelayedTaskList)) == [] {
        xNextTaskUnblockTime := MAX_DELAY;
      } else {
        xNextTaskUnblockTime := ls.Value(ls.Items(Delayed(pxDelayedTaskList))[0]);
      }
    }

    /** taskSWITCH_DELAYED_LISTS, whose assertion is the first precondition. */
    method SwitchDelayedLists()
      requires ls.Items(Delayed(pxDelayedTaskList)) == []
      requires Good(S(), uxPriority) && DelaysOk(ls, !pxDelayedTaskList, 0, 0)
      requires xNumOfOverflows == epoch % 0x100
      modifies `pxDelayedTaskList, `xNumOfOverflows, `epoch, `xNextTaskUnblockTime
      ensures epoch == old(epoch) + 1 && pxDelayedTaskList == !old(pxDelayedTaskList)
      ensures xNumOfOverflows == epoch % 0x100
      ensures IsNextWake(ls, pxDelayedTaskList, xNextTaskUnblockTime)
    {
      hide Good, DelaysOk, IsNextWake;
      pxDelayedTaskList := !pxDelayedTaskList;
      xNumOfOverflows := (xNumOfOverflows + 1) % 0x100;
      epoch := epoch + 1;
      ResetNextTaskUnblockTime(0, 0);
    }

    /** The loop over the head of the delayed list. */
    method UnblockDueTasks() returns (xSwitchRequired: bool)
      requires Good(S(), uxPriority) && DelaysOk(ls, pxDelayedTaskList, xTickCount, xTickCount)
      requires pxCurrentTCB in uxPriority
      modifies `ls, `uxTopReadyPriority, `xNextTaskUnblockTime
      ensures S() == UnblockAll(old(S()), uxPriority, pxDelayedTaskList, xTickCount)
      ensures xNextTaskUnblockTime == HeadTime(ls, pxDelayedTaskList)
      ensures xSwitchRequired == DueAtLeast(old(ls), uxPriority, pxDelayedTaskList, xTickCount, uxPriority[pxCurrentTCB])
    {
      hide Good, DelaysOk, UnblockAll, DueAtLeast, DueCount, Scheduling.MakeReady, Unblocking;
      xSwitchRequired := false;
      ghost var p, was := uxPriority[pxCurrentTCB], S();
      UnblockStart(was, uxPriority, pxDelayedTaskList, xTickCount, p);
      while true
        invariant Unblocking(S(), was, uxPriority, pxDelayedTaskList, xTickCount, p, xSwitchRequired)
        decreases DueCount(ls, uxPriority, pxDelayedTaskList, xTickCount)
      {
        if ls.Items(Delayed(pxDelayedTaskList)) == [] {
          xNextTaskUnblockTime := MAX_DELAY;
          break;
        }
        var xItemValue := ls.Value(ls.Items(Delayed(pxDelayedTaskList))[0]);
        if xTickCount < xItemValue {
          xNextTaskUnblockTime := xItemValue;
          break;
        }
        var t := ls.Items(Delayed(pxDelayedTaskList))[0].task;
        UnblockOne(S(), was, uxPriority, pxDelayedTaskList, xTickCount, p, xSwitchRequired);
        ReadyTask(t);
        if uxPriority[t] >= uxPriority[pxCurrentTCB] {
          xSwitchRequired := true;
        }
      }
      UnblockNone(S(), was, uxPriority, pxDelayedTaskList, xTickCount, p, xSwitchRequired);
    }

    /** The counter moves, and the lists switch when it wraps. */
    method AdvanceTick()
      requires Good(S(), uxPriority) && TickOk()
      modifies `xTickCount, `pxDelayedTaskList, `xNumOfOverflows, `epoch, `xNextTaskUnblockTime
      ensures xTickCount < TICKS_PER_EPOCH && xNumOfOverflows == epoch % 0x100
      ensures DelaysOk(ls, pxDelayedTaskList, xTickCount, xTickCount)
      ensures UnblockTimeOk(ls, pxDelayedTaskList, xNextTaskUnblockTime) && xNextTaskUnblockTime <= MAX_DELAY
      ensures epoch * TICKS_PER_EPOCH + xTickCount == old(Clock()).now + 1
      ensures epoch * TICKS_PER_EPOCH + xTickCount == old(epoch * TICKS_PER_EPOCH + xTickCount) + 1
      ensures Clock().wake == old(Clock()).wake
    {
      hide Good, DelaysOk, ClockOf, Lists.Items;
      ghost var tasks := uxPriority.Keys;
      ClockNow(ls, tasks, pxDelayedTaskList, epoch, xTickCount);
      if xTickCount == MAX_DELAY {
        SwitchIsQuiet(S(), uxPriority, pxDelayedTaskList, epoch);
      } else {
        WithinEpoch(ls, tasks, pxDelayedTaskList, epoch, xTickCount);
      }
      xTickCount := (xTickCount + 1) % TICKS_PER_EPOCH;
      if xTickCount == 0 {
        SwitchDelayedLists();
      }
    }

    /** xTaskIncrementTick while the scheduler runs; time slicing is configured off. */
    method ProcessTick() returns (xSwitchRequired: bool)
      requires Core()
      modifies `ls, `uxTopReadyPriority, `xTickCount, `xNumOfOverflows, `xNextTaskUnblockTime, `pxDelayedTaskList, `epoch
      ensures Core() && epoch * TICKS_PER_EPOCH + xTickCount == old(epoch * TICKS_PER_EPOCH + xTickCount) + 1
      ensures Clock() == Step(old(Clock()), Tick)
      ensures DelaysOk(old(ls), pxDelayedTaskList, xTickCount, xTickCount)
      ensures S() == UnblockAll(old(S()), uxPriority, pxDelayedTaskList, xTickCount)
      ensures xSwitchRequired <==>
                DueAtLeast(old(ls), uxPriority, pxDelayedTaskList, xTickCount, uxPriority[pxCurrentTCB])
    {
      hide Good, DelaysOk, UnblockAll, DueAtLeast, ClockOf, Lists.Items, UnblockTimeOk, Due, HeadTime, AwakeAll, Step, Lists.In;
      xSwitchRequired := false;
      AdvanceTick();
      if xTickCount >= xNextTaskUnblockTime {
        xSwitchRequired := UnblockDueTasks();
        HeadTimeOk(S(), uxPriority, pxDelayedTaskList, xTickCount + 1, xTickCount);
      } else {
        NothingDue(S(), uxPriority, pxDelayedTaskList, xTickCount, uxPriority[pxCurrentTCB], xNextTaskUnblockTime);
      }
      UnblockIsTick(old(S()), uxPriority, pxDelayedTaskList, epoch, xTickCount, old(Clock()));
      StillReady(old(ls), ls, Due(old(ls), uxPriority.Keys, pxDelayedTaskList, xTickCount), uxPriority, idle);
    }

    /** xTaskIncrementTick. */
    method IncrementTick() returns (xSwitchRequired: bool)
      requires Core()
      modifies `ls, `uxTopReadyPriority, `xTickCount, `xNumOfOverflows, `xNextTaskUnblockTime, `uxPendedTicks,
               `pxDelayedTaskList, `epoch, `lost
      ensures Core() && Arrived() == old(Arrived()) + 1
      ensures uxSchedulerSuspended == 0 ==>
                && Clock() == Step(old(Clock()), Tick)
                && DelaysOk(old(ls), pxDelayedTaskList, xTickCount, xTickCount)
                && S() == UnblockAll(old(S()), uxPriority, pxDelayedTaskList, xTickCount)
                && uxPendedTicks == old(uxPendedTicks) && lost == old(lost)
                && (NonePended(old(ls)) ==> NonePended(ls))
      ensures uxSchedulerSuspended == 0 ==>
                (xSwitchRequired <==>
                   || xYieldPending
                   || DueAtLeast(old(ls), uxPriority, pxDelayedTaskList, xTickCount, uxPriority[pxCurrentTCB]))
      ensures uxSchedulerSuspended > 0 ==>
                && S() == old(S()) && Clock() == old(Clock()) && pxDelayedTaskList == old(pxDelayedTaskList)
                && (uxPendedTicks == 0 <==> old(uxPendedTicks) == 0xFF)
                && lost == old(lost) + (if uxPendedTicks == 0 then 0x100 else 0)
                && xSwitchRequired == xYieldPending
    {
      hide Good, DelaysOk, UnblockAll, DueAtLeast, ClockOf, Lists.Items, UnblockTimeOk, Due, AwakeAll, Step, Lists.In, NonePended;
      xSwitchRequired := false;
      if uxSchedulerSuspended == 0 {
        xSwitchRequired := ProcessTick();
        if NonePended(old(ls)) {
          StillNonePended(old(ls), ls, Due(old(ls), uxPriority.Keys, pxDelayedTaskList, xTickCount), uxPriority);
        }
      } else {
        uxPendedTicks := (uxPendedTicks + 1) % 0x100;
        lost := lost + if uxPendedTicks == 0 then 0x100 else 0;
      }
      if xYieldPending {
        xSwitchRequired := true;
      }
    }

    // ---- Suspending the scheduler and switching -----------------------------------------

    /** vTaskSuspendAll. */
    method SuspendAll()
      requires Valid() && uxSchedulerSuspended < 0xFF
      modifies `uxSchedulerSuspended
      ensures Valid() && uxSchedulerSuspended == old(uxSchedulerSuspended) + 1
    {
      uxSchedulerSuspended := uxSchedulerSuspended + 1;
    }

    /** The first loop of xTaskResumeAll. */
    method DrainPendingReady()
      requires Good(S(), uxPriority) && pxCurrentTCB in uxPriority
      modifies `ls, `uxTopReadyPriority, `xYieldPending
      ensures S() == DrainPending(old(S()), uxPriority) && NonePended(ls)
      ensures xYieldPending <==> old(xYieldPending) || NewlyReady(old(ls), ls, uxPriority, uxPriority[pxCurrentTCB])
    {
      hide Good, Draining, DrainPending, PendedAtLeast, PendedCount, Scheduling.MakeReady, AddReady, Drop, Lists.Items,
           NewlyReady;
      ghost var p, was := uxPriority[pxCurrentTCB], S();
      DrainStart(was, uxPriority, p, xYieldPending);
      while ls.Items(PendingReady) != []
        invariant Draining(S(), was, uxPriority, p, old(xYieldPending), xYieldPending)
        decreases PendedCount(ls, uxPriority)
      {
        var t := ls.Items(PendingReady)[0].task;
        DrainOne(S(), was, uxPriority, p, old(xYieldPending), xYieldPending);
        MovePended(t);
        if uxPriority[t] >= uxPriority[pxCurrentTCB] {
          xYieldPending := true;
        }
      }
      DrainNone(S(), was, uxPriority, p, old(xYieldPending), xYieldPending);
      DrainedNewlyReady(was, uxPriority, p);
    }

    method MovePended(t: Task)
      requires Good(S(), uxPriority) && t in uxPriority
      requires Event(t) in ls.container && Generic(t) in ls.container
      modifies `ls, `uxTopReadyPriority
      ensures S() == Scheduling.MakeReady(old(S()), uxPriority, t)
    {
      hide AddReady, Drop, Lists.Valid, DelaySorted;
      DropsCommute(ls, t);
      Remove(Event(t));
      Remove(Generic(t));
      AddTaskToReadyList(t);
    }

    /** The second loop of xTaskResumeAll. */
    method ReplayTicks(ghost c: Clock, ghost es: seq<WakeTimes.Event>)
      requires Core() && NonePended(ls) && uxSchedulerSuspended == 0 && Clock() == Run(c, es)
      modifies `ls, `uxTopReadyPriority, `xTickCount, `xNumOfOverflows, `xNextTaskUnblockTime, `uxPendedTicks,
               `xYieldPending, `pxDelayedTaskList, `epoch, `lost
      ensures Core() && NonePended(ls) && uxPendedTicks == 0
      ensures Arrived() == old(Arrived()) && lost == old(lost)
      ensures Clock() == Run(c, es + Ticks(old(uxPendedTicks)))
      ensures xYieldPending <==> old(xYieldPending) || NewlyReady(old(ls), ls, uxPriority, uxPriority[pxCurrentTCB])
      ensures OnlyWoken(old(ls), ls, uxPriority, {})
    {
      hide Good, DelaysOk, ClockOf, UnblockTimeOk, NonePended, Step, Run, Ticks, Lists.In, Lists.Items, UnblockAll, DueAtLeast,
           OnlyWoken, NewlyReady;
      ghost var p := uxPriority[pxCurrentTCB];
      SameOnlyWoken(ls, uxPriority, {});
      NoneNewlyReady(ls, uxPriority, p);
      ghost var n := uxPendedTicks;
      assert es + Ticks(0) == es;
      while uxPendedTicks > 0
        invariant Core() && NonePended(ls) && uxPendedTicks <= n && lost == old(lost)
        invariant Arrived() == old(Arrived())
        invariant Clock() == Run(c, es + Ticks(n - uxPendedTicks))
        invariant xYieldPending <==> old(xYieldPending) || NewlyReady(old(ls), ls, uxPriority, p)
        invariant OnlyWoken(old(ls), ls, uxPriority, {})
        decreases uxPendedTicks
      {
        OneMoreTick(c, es, n - uxPendedTicks);
        ghost var was := S();
        var xSwitchRequired := IncrementTick();
        TickOnlyWoken(was, uxPriority, pxDelayedTaskList, xTickCount);
        TickNewlyReady(was, uxPriority, pxDelayedTaskList, xTickCount, p);
        ReadyStays(old(ls), was.ls, uxPriority);
        NewlyReadyOn(old(ls), was.ls, ls, uxPriority, p);
        OnlyWokenOn(old(ls), was.ls, ls, uxPriority, {});
        if xSwitchRequired {
          xYieldPending := true;
        }
        uxPendedTicks := uxPendedTicks - 1;
      }
    }

    /** What xTaskResumeAll does when the scheduler is to run again. */
    method CatchUp()
      requires Core() && uxSchedulerSuspended == 0
      modifies `ls, `uxTopReadyPriority, `xTickCount, `xNumOfOverflows, `xNextTaskUnblockTime, `uxPendedTicks,
               `xYieldPending, `pxDelayedTaskList, `epoch, `lost
      ensures Valid() && Arrived() == old(Arrived()) && lost == old(lost)
      ensures Clock() == Run(old(Clock()), [Unblock(Pended(old(ls), uxPriority.Keys))] + Ticks(old(uxPendedTicks)))
      ensures OnlyWoken(old(ls), ls, uxPriority, Pended(old(ls), uxPriority.Keys))
      ensures forall t :: old(IsReady(t)) ==> IsReady(t)
      ensures forall t :: t in uxPriority && old(ls).In(Event(t), PendingReady) ==> IsReady(t) && Event(t) !in ls.container
      ensures xYieldPending <==> old(xYieldPending) || NewlyReady(old(ls), ls, uxPriority, uxPriority[pxCurrentTCB])
    {
      hide Good, DelaysOk, ClockOf, DrainPending, UnblockTimeOk, NonePended, Step, Run, Ticks, Pended, Lists.In, OnlyWoken,
           NewlyReady;
      DrainPendingReady();
      ghost var ts := Pended(old(ls), uxPriority.Keys);
      AfterDrain(old(S()), S(), uxPriority, idle);
      LeavingIsUnblock(old(ls), ls, uxPriority.Keys, ts, pxDelayedTaskList, epoch, xTickCount, xNextTaskUnblockTime);
      RunOne(old(Clock()), Unblock(ts));
      ghost var drained := ls;
      ReplayTicks(old(Clock()), [Unblock(ts)]);
      DrainThenReplay(old(S()), drained, ls, uxPriority, uxPriority[pxCurrentTCB]);
    }

    /** xTaskResumeAll, up to the yield it may ask for. */
    method ResumeAll() returns (xAlreadyYielded: bool)
      requires Valid() && uxSchedulerSuspended > 0
      modifies `ls, `uxTopReadyPriority, `xTickCount, `xNumOfOverflows, `xNextTaskUnblockTime, `uxPendedTicks,
               `uxSchedulerSuspended, `xYieldPending, `pxDelayedTaskList, `epoch, `lost
      ensures Valid() && uxSchedulerSuspended == old(uxSchedulerSuspended) - 1
      ensures Arrived() == old(Arrived()) && lost == old(lost)
      ensures uxSchedulerSuspended == 0 ==>
                Clock() == Run(old(Clock()), [Unblock(Pended(old(ls), uxPriority.Keys))] + Ticks(old(uxPendedTicks)))
      ensures uxSchedulerSuspended > 0 ==> S() == old(S()) && Clock() == old(Clock()) && uxPendedTicks == old(uxPendedTicks)
      ensures uxSchedulerSuspended == 0 ==> OnlyWoken(old(ls), ls, uxPriority, Pended(old(ls), uxPriority.Keys))
      ensures forall t :: old(IsReady(t)) ==> IsReady(t)
      ensures uxSchedulerSuspended == 0 ==>
                forall t :: t in uxPriority && old(ls).In(Event(t), PendingReady) ==> IsReady(t) && Event(t) !in ls.container
      ensures xAlreadyYielded <==> uxSchedulerSuspended == 0 && xYieldPending
      ensures uxSchedulerSuspended > 0 ==> xYieldPending == old(xYieldPending)
      ensures uxSchedulerSuspended == 0 ==>
                (xYieldPending <==>
                   || old(xYieldPending)
                   || exists t :: t in uxPriority && uxPriority[t] >= uxPriority[pxCurrentTCB] && !old(IsReady(t)) && IsReady(t))
    {
      hide Good, DelaysOk, ClockOf, UnblockTimeOk, NonePended, Step, Run, Ticks, Pended, Lists.In, OnlyWoken, NewlyReady;
      xAlreadyYielded := false;
      uxSchedulerSuspended := uxSchedulerSuspended - 1;
      if uxSchedulerSuspended == 0 {
        CatchUp();
        NewlyReadyIs(old(ls));
        if xYieldPending {
          xAlreadyYielded := true;
        }
      }
    }

    lemma NewlyReadyIs(was: Lists)
      requires pxCurrentTCB in uxPriority
      ensures NewlyReady(was, ls, uxPriority, uxPriority[pxCurrentTCB]) <==>
              exists t :: t in uxPriority && uxPriority[t] >= uxPriority[pxCurrentTCB]
                          && !(t in uxPriority && was.In(Generic(t), Ready(uxPriority[t]))) && IsReady(t)
    {
    }

    /** The loop of taskSELECT_HIGHEST_PRIORITY_TASK. */
    method FindTopPriority()
      requires Good(S(), uxPriority) && IsReady(idle)
      modifies `uxTopReadyPriority
      ensures Good(S(), uxPriority) && ls.Items(Ready(uxTopReadyPriority)) != []
    {
      hide Good, Lists.Items;
      while ls.Items(Ready(uxTopReadyPriority)) == []
        invariant Good(S(), uxPriority)
        decreases uxTopReadyPriority
      {
        LowerTop(S(), uxPriority, idle);
        uxTopReadyPriority := uxTopReadyPriority - 1;
      }
    }

    /** vTaskSwitchContext. */
    method SwitchContext()
      requires Valid()
      modifies `ls, `uxTopReadyPriority, `pxCurrentTCB, `xYieldPending
      ensures Valid() && Clock() == old(Clock())
      ensures uxSchedulerSuspended > 0 ==> xYieldPending && S() == old(S()) && pxCurrentTCB == old(pxCurrentTCB)
      ensures uxSchedulerSuspended == 0 ==>
                && !xYieldPending && IsReady(pxCurrentTCB) && uxTopReadyPriority == uxPriority[pxCurrentTCB]
                && (forall t :: IsReady(t) ==> uxPriority[t] <= uxPriority[pxCurrentTCB])
                && var l := Ready(uxPriority[pxCurrentTCB]);
                   && old(ls).Valid() && old(ls).Items(l) != [] && ls == old(ls).Next(l)
                   && old(ls).At(l).Valid() && Generic(pxCurrentTCB) == old(ls).At(l).Upcoming()[0]
    {
      hide Good, DelaysOk, ClockOf, Lists.Items, Lists.Next, UnblockTimeOk, NonePended;
      if uxSchedulerSuspended != 0 {
        xYieldPending := true;
      } else {
        xYieldPending := false;
        FindTopPriority();
        NextIsHighest(S(), uxPriority);
        OnlyTheIndexMoved(ls, ls.Next(Ready(uxTopReadyPriority)), uxPriority.Keys, pxDelayedTaskList, epoch, xTickCount,
                          xNextTaskUnblockTime);
        ls := ls.Next(Ready(uxTopReadyPriority));
        pxCurrentTCB := ls.At(Ready(uxTopReadyPriority)).Current().task;
      }
    }

    // ---- Blocking -----------------------------------------------------------------------

    /** prvAddCurrentTaskToDelayedList. */
    method AddCurrentTaskToDelayedList(xTimeToWake: nat)
      requires ls.Valid() && DelaySorted(ls) && Generic(pxCurrentTCB) !in ls.container
      modifies `ls, `xNextTaskUnblockTime
      ensures ls == Enlist(old(ls), pxCurrentTCB, xTimeToWake, pxDelayedTaskList, xTickCount)
      ensures xNextTaskUnblockTime == EarlierOf(old(xNextTaskUnblockTime), xTimeToWake, xTickCount)
    {
      SetValueKeeps(ls, Generic(pxCurrentTCB), xTimeToWake);
      ls := ls.SetValue(Generic(pxCurrentTCB), xTimeToWake);
      if xTimeToWake < xTickCount {
        ls := ls.Insert(Delayed(!pxDelayedTaskList), Generic(pxCurrentTCB));
      } else {
        ls := ls.Insert(Delayed(pxDelayedTaskList), Generic(pxCurrentTCB));
        if xTimeToWake < xNextTaskUnblockTime {
          xNextTaskUnblockTime := xTimeToWake;
        }
      }
    }

    /** The running task may block: it is ready, and not the idle task. */
    ghost predicate MayBlock()
      reads `ls, `uxPriority, `uxTopReadyPriority, `pxCurrentTCB, `uxPendedTicks, `uxSchedulerSuspended,
            `xTickCount, `xNumOfOverflows, `epoch, `pxDelayedTaskList, `xNextTaskUnblockTime
    {
      Valid() && IsReady(pxCurrentTCB) && pxCurrentTCB != idle
    }

    lemma MayBlockFacts()
      requires MayBlock()
      ensures Valid() && xTickCount < TICKS_PER_EPOCH && Clock().now == epoch * TICKS_PER_EPOCH + xTickCount
    {
    }

    /** uxListRemove and prvAddCurrentTaskToDelayedList. */
    method Reschedule(xTimeToWake: nat)
      requires ls.Valid() && DelaySorted(ls) && Generic(pxCurrentTCB) in ls.container
      modifies `ls, `xNextTaskUnblockTime
      ensures ls == DelayTask(old(ls), pxCurrentTCB, xTimeToWake, pxDelayedTaskList, xTickCount)
      ensures xNextTaskUnblockTime == EarlierOf(old(xNextTaskUnblockTime), xTimeToWake, xTickCount)
    {
      hide Enlist, Drop, EarlierOf, Lists.Valid, DelaySorted;
      Remove(Generic(pxCurrentTCB));
      AddCurrentTaskToDelayedList(xTimeToWake);
    }

    /** Blocking until the counter reaches another value. */
    method DelayTo(xTimeToWake: nat)
      requires MayBlock() && xTimeToWake < TICKS_PER_EPOCH && xTimeToWake != xTickCount
      modifies `ls, `xNextTaskUnblockTime
      ensures Valid()
      ensures Clock() == Step(old(Clock()), Block(pxCurrentTCB, (xTimeToWake - xTickCount) % TICKS_PER_EPOCH))
      ensures Event(pxCurrentTCB) !in ls.container && SameWaiters(old(ls))
    {
      hide Good, DelaysOk, ClockOf, UnblockTimeOk, DelayTask, Step, EarlierOf, Lists.Valid, DelaySorted, JoinsEvent, NonePended, Lists.In;
      ghost var s, t, next := S(), pxCurrentTCB, xNextTaskUnblockTime;
      ghost var d := (xTimeToWake - xTickCount) % TICKS_PER_EPOCH;
      assert 1 <= d && (xTickCount + d) % TICKS_PER_EPOCH == xTimeToWake;
      RunningFacts(s, uxPriority, t, idle);
      Reschedule(xTimeToWake);
      BlocksFor(s, s.ls, ls, uxPriority, t, idle, d, pxDelayedTaskList, epoch, xTickCount, next, xTimeToWake);
    }

    /** What vTaskDelay does between suspending and resuming the scheduler; a delay of 0 does
        neither, and only yields. */
    method Delay(xTicksToDelay: nat)
      requires MayBlock() && 1 <= xTicksToDelay <= MAX_DELAY && uxSchedulerSuspended > 0
      modifies `ls, `xNextTaskUnblockTime
      ensures Valid() && Clock() == Step(old(Clock()), Block(pxCurrentTCB, xTicksToDelay))
      ensures Event(pxCurrentTCB) !in ls.container && SameWaiters(old(ls))
    {
      hide MayBlock, Valid, Clock;
      MayBlockFacts();
      DelayTo((xTickCount + xTicksToDelay) % TICKS_PER_EPOCH);
    }

    /** The decision of vTaskDelayUntil.  The ghost argument is the true time that
        *pxPreviousWakeTime stands for; less than a full counter period after it, the wake
        time is still to come exactly if the task is to be delayed. */
    method DecideDelay(pxPreviousWakeTime: nat, xTimeIncrement: nat, xTimeToWake: nat, ghost prevTime: nat)
      returns (xShouldDelay: bool)
      requires xTickCount < TICKS_PER_EPOCH && xTimeIncrement < TICKS_PER_EPOCH
      requires pxPreviousWakeTime == prevTime % TICKS_PER_EPOCH
      requires xTimeToWake == (pxPreviousWakeTime + xTimeIncrement) % TICKS_PER_EPOCH
      ensures var now := epoch * TICKS_PER_EPOCH + xTickCount;
              prevTime <= now < prevTime + TICKS_PER_EPOCH ==>
                && xTimeToWake == (prevTime + xTimeIncrement) % TICKS_PER_EPOCH
                && (xShouldDelay <==> prevTime + xTimeIncrement > now)
                && (xShouldDelay ==> (xTimeToWake - xTickCount) % TICKS_PER_EPOCH == prevTime + xTimeIncrement - now)
      ensures xShouldDelay ==> xTimeToWake != xTickCount
    {
      DelayUntilIsExact(prevTime, xTimeIncrement, epoch, xTickCount, xTimeToWake);
      xShouldDelay := false;
      if xTickCount < pxPreviousWakeTime {
        if xTimeToWake < pxPreviousWakeTime && xTimeToWake > xTickCount {
          xShouldDelay := true;
        }
      } else {
        if xTimeToWake < pxPreviousWakeTime || xTimeToWake > xTickCount {
          xShouldDelay := true;
        }
      }
    }

    /** The same part of vTaskDelayUntil.  The ghost argument is the true time that
        *pxPreviousWakeTime stands for. */
    method DelayUntil(pxPreviousWakeTime: nat, xTimeIncrement: nat, ghost prevTime: nat)
      returns (xTimeToWake: nat, xShouldDelay: bool)
      requires MayBlock() && uxSchedulerSuspended > 0
      requires pxPreviousWakeTime == prevTime % TICKS_PER_EPOCH && xTimeIncrement < TICKS_PER_EPOCH
      modifies `ls, `xNextTaskUnblockTime
      ensures Valid() && xTimeToWake == (pxPreviousWakeTime + xTimeIncrement) % TICKS_PER_EPOCH
      ensures prevTime <= Clock().now < prevTime + TICKS_PER_EPOCH ==>
                && xTimeToWake == (prevTime + xTimeIncrement) % TICKS_PER_EPOCH
                && (xShouldDelay <==> prevTime + xTimeIncrement > Clock().now)
                && (xShouldDelay ==>
                      Clock() == Step(old(Clock()), Block(pxCurrentTCB, prevTime + xTimeIncrement - Clock().now)))
      ensures !xShouldDelay ==> S() == old(S()) && Clock() == old(Clock())
      ensures xShouldDelay ==>
                && Clock() == Step(old(Clock()), Block(pxCurrentTCB, (xTimeToWake - xTickCount) % TICKS_PER_EPOCH))
                && xTimeToWake != xTickCount && Event(pxCurrentTCB) !in ls.container && SameWaiters(old(ls))
    {
      hide MayBlock, Valid, Clock, S;
      MayBlockFacts();
      xTimeToWake := (pxPreviousWakeTime + xTimeIncrement) % TICKS_PER_EPOCH;
      xShouldDelay := DecideDelay(pxPreviousWakeTime, xTimeIncrement, xTimeToWake, prevTime);
      if xShouldDelay {
        DelayTo(xTimeToWake);
      }
    }

    /** uxListRemove and vListInsertEnd into the suspended list. */
    method Park(x: Item)
      requires ls.Valid() && DelaySorted(ls) && x in ls.container && x.Generic?
      modifies `ls
      ensures ls == SuspendTask(old(ls), x.task)
    {
      Remove(x);
      ls := ls.InsertEnd(Suspended, x);
    }

    /** Into the suspended list, or a delayed list if there is a timeout. */
    method BlockForOrGood(xTicksToWait: nat, ghost s: Sched)
      requires 1 <= xTicksToWait <= MAX_DELAY && uxTopReadyPriority == s.top
      requires Runs(s, uxPriority, pxCurrentTCB, idle) && JoinsEvent(s.ls, ls, pxCurrentTCB)
      requires TickOkFor(s.ls)
      modifies `ls, `xNextTaskUnblockTime
      ensures Good(S(), uxPriority) && IsReady(idle) && TickOk() && (NonePended(s.ls) ==> NonePended(ls))
      ensures var c := ClockOf(s.ls, uxPriority.Keys, pxDelayedTaskList, epoch, xTickCount);
              Clock() == if xTicksToWait == MAX_DELAY then c else Step(c, Block(pxCurrentTCB, xTicksToWait))
      ensures BlockReady(old(ls), pxCurrentTCB)
      ensures ls == BlockTask(old(ls), pxCurrentTCB, xTicksToWait, pxDelayedTaskList, xTickCount)
    {
      hide Good, DelaysOk, ClockOf, UnblockTimeOk, Step, Lists.Valid, DelaySorted, JoinsEvent, NonePended, Lists.In, OnlyLeft,
           DelayTask, SuspendTask;
      ghost var t, next := pxCurrentTCB, xNextTaskUnblockTime;
      JoinsFacts(s, ls, uxPriority, t, idle);
      JoinedValid(s.ls, ls, t);
      if xTicksToWait == MAX_DELAY {
        Park(Generic(pxCurrentTCB));
        BlocksForGood(s, old(ls), ls, uxPriority, t, idle, pxDelayedTaskList, epoch, xTickCount, next);
      } else {
        Reschedule((xTickCount + xTicksToWait) % TICKS_PER_EPOCH);
        BlocksFor(s, old(ls), ls, uxPriority, t, idle, xTicksToWait, pxDelayedTaskList, epoch, xTickCount, next,
                  (xTickCount + xTicksToWait) % TICKS_PER_EPOCH);
      }
    }

    /** All tasks but t wait for events as with the lists given, or do not. */
    ghost predicate SameWaitersBut(was: Lists, t: Task)
      reads `ls
    {
      forall u :: u != t ==> SameList(was, ls, Event(u))
    }

    // ---- Event lists --------------------------------------------------------------------

    /** vTaskPlaceOnEventList. */
    method PlaceOnEventList(q: int, xTicksToWait: nat)
      requires MayBlock() && 1 <= xTicksToWait <= MAX_DELAY
      modifies `ls, `xNextTaskUnblockTime
      ensures Valid() && ls.In(Event(pxCurrentTCB), EventList(q)) && SameWaitersBut(old(ls), pxCurrentTCB)
      ensures Clock() == if xTicksToWait == MAX_DELAY then old(Clock())
                         else Step(old(Clock()), Block(pxCurrentTCB, xTicksToWait))
      ensures var ls1 := Enqueued(old(ls), q, pxCurrentTCB);
              BlockReady(ls1, pxCurrentTCB) && ls == BlockTask(ls1, pxCurrentTCB, xTicksToWait, pxDelayedTaskList, xTickCount)
      ensures StandsByValue(old(ls), EventList(q), Event(pxCurrentTCB), ls.Items(EventList(q)))
    {
      hide Good, DelaysOk, ClockOf, UnblockTimeOk, Step, JoinsEvent, NonePended, BlockReady, BlockTask, Lists.Items, StandsByValue;
      ghost var s := S();
      RunningFacts(s, uxPriority, pxCurrentTCB, idle);
      EnqueuedByValue(ls, q, pxCurrentTCB);
      InsertKeeps(ls, EventList(q), Event(pxCurrentTCB));
      InsertKeepsSorted(ls, EventList(q), Event(pxCurrentTCB));
      ls := ls.Insert(EventList(q), Event(pxCurrentTCB));
      EnqueuedJoins(s.ls, ls, pxCurrentTCB, q);
      ghost var ls1 := ls;
      BlockForOrGood(xTicksToWait, s);
      BlockTaskElsewhere(ls1, pxCurrentTCB, xTicksToWait, pxDelayedTaskList, xTickCount, q);
    }

    /** vTaskPlaceOnUnorderedEventList. */
    method PlaceOnUnorderedEventList(q: int, xItemValue: nat, xTicksToWait: nat)
      requires MayBlock() && uxSchedulerSuspended > 0 && 1 <= xTicksToWait <= MAX_DELAY
      modifies `ls, `xNextTaskUnblockTime
      ensures Valid() && ls.In(Event(pxCurrentTCB), EventList(q)) && SameWaitersBut(old(ls), pxCurrentTCB)
      ensures Clock() == if xTicksToWait == MAX_DELAY then old(Clock())
                         else Step(old(Clock()), Block(pxCurrentTCB, xTicksToWait))
      ensures var ls1 := Appended(old(ls), q, pxCurrentTCB, InUse(xItemValue));
              BlockReady(ls1, pxCurrentTCB) && ls == BlockTask(ls1, pxCurrentTCB, xTicksToWait, pxDelayedTaskList, xTickCount)
      ensures ls.Value(Event(pxCurrentTCB)) == InUse(xItemValue)
    {
      hide Good, DelaysOk, ClockOf, UnblockTimeOk, Step, JoinsEvent, NonePended, BlockReady, BlockTask, Lists.Items;
      ghost var s := S();
      RunningFacts(s, uxPriority, pxCurrentTCB, idle);
      SetValueKeeps(ls, Event(pxCurrentTCB), InUse(xItemValue));
      ls := ls.SetValue(Event(pxCurrentTCB), InUse(xItemValue));
      InsertEndKeeps(ls, EventList(q), Event(pxCurrentTCB));
      ls := ls.InsertEnd(EventList(q), Event(pxCurrentTCB));
      EnqueuedJoins(s.ls, ls, pxCurrentTCB, q);
      ghost var ls1 := ls;
      BlockForOrGood(xTicksToWait, s);
      BlockTaskElsewhere(ls1, pxCurrentTCB, xTicksToWait, pxDelayedTaskList, xTickCount, q);
    }

    /** Waiter t is made ready. */
    method ReadyWaiter(t: Task)
      requires Valid() && t in uxPriority && Event(t) in ls.container && Generic(t) in ls.container
      modifies `ls, `uxTopReadyPriority
      ensures Valid() && Clock() == Step(old(Clock()), Unblock({t}))
      ensures Good(old(S()), uxPriority) && S() == Scheduling.MakeReady(old(S()), uxPriority, t)
      ensures IsReady(t) && Event(t) !in ls.container && SameWaitersBut(old(ls), t)
    {
      hide Good, DelaysOk, ClockOf, UnblockTimeOk, Step, NonePended, OnlyLeft, Lists.Valid, DelaySorted, AddReady,
           Scheduling.MakeReady, Awake, SameList;
      ghost var s := S();
      WakesWell(s, uxPriority, t, idle);
      MovePended(t);
      AwakeLists(s.ls, ls, t, uxPriority[t]);
      LeavingIsUnblock(s.ls, ls, uxPriority.Keys, {t}, pxDelayedTaskList, epoch, xTickCount, xNextTaskUnblockTime);
    }

    /** Waiter t is set aside while the scheduler is suspended. */
    method PendEvent(t: Task)
      requires Valid() && uxSchedulerSuspended > 0 && t in uxPriority && Event(t) in ls.container
      modifies `ls
      ensures Valid() && Clock() == old(Clock()) && ls == Pend(old(ls), t)
      ensures ls.In(Event(t), PendingReady) && SameWaitersBut(old(ls), t)
    {
      hide Good, DelaysOk, ClockOf, UnblockTimeOk, NonePended, OnlyLeft, Lists.Valid, DelaySorted;
      ghost var s := S();
      GoodLists(s, uxPriority);
      Remove(Event(t));
      InsertEndKeeps(ls, PendingReady, Event(t));
      ls := ls.InsertEnd(PendingReady, Event(t));
      assert ls == Pend(s.ls, t);
      PendsWell(s, ls, uxPriority, t, idle);
      LeavingIsUnblock(s.ls, ls, uxPriority.Keys, {}, pxDelayedTaskList, epoch, xTickCount, xNextTaskUnblockTime);
    }

    /** xTaskRemoveFromEventList: the head of the list. */
    method RemoveFromEventList(q: int) returns (xReturn: bool)
      requires Valid() && ls.Items(EventList(q)) != []
      modifies `ls, `uxTopReadyPriority, `xYieldPending
      ensures Valid()
      ensures var t := old(ls.Items(EventList(q))[0].task);
              && t in uxPriority && pxCurrentTCB in uxPriority
              && (xReturn <==> uxPriority[t] > uxPriority[pxCurrentTCB])
              && (uxSchedulerSuspended == 0 ==>
                    && Clock() == Step(old(Clock()), Unblock({t}))
                    && Good(old(S()), uxPriority) && S() == Scheduling.MakeReady(old(S()), uxPriority, t))
              && (uxSchedulerSuspended > 0 ==>
                    && Clock() == old(Clock())
                    && S() == Sched(Pend(old(ls), t), old(uxTopReadyPriority)))
      ensures var t := old(ls.Items(EventList(q))[0].task);
              if uxSchedulerSuspended == 0 then IsReady(t) && Event(t) !in ls.container else ls.In(Event(t), PendingReady)
      ensures xYieldPending == (old(xYieldPending) || xReturn)
      ensures SameWaitersBut(old(ls), old(ls.Items(EventList(q))[0].task))
    {
      hide Good, DelaysOk, ClockOf, UnblockTimeOk, Step, NonePended, Lists.Items, OnlyLeft, Lists.Valid, DelaySorted,
           Scheduling.MakeReady, AddReady;
      ghost var s := S();
      EventHead(s, uxPriority, q);
      GoodLists(s, uxPriority);
      var t := ls.Items(EventList(q))[0].task;
      if uxSchedulerSuspended == 0 {
        ReadyWaiter(t);
      } else {
        PendEvent(t);
      }
      xReturn := uxPriority[t] > uxPriority[pxCurrentTCB];
      if xReturn {
        xYieldPending := true;
      }
    }

    /** xTaskRemoveFromUnorderedEventList. */
    method RemoveFromUnorderedEventList(t: Task, q: int, xItemValue: nat) returns (xReturn: bool)
      requires Valid() && uxSchedulerSuspended > 0 && t in uxPriority && ls.In(Event(t), EventList(q))
      modifies `ls, `uxTopReadyPriority, `xYieldPending
      ensures Valid() && IsReady(t) && Event(t) !in ls.container
      ensures ls.container == Awake(old(ls).container, t, uxPriority[t])
      ensures ls.value == old(ls).value[Event(t) := InUse(xItemValue)]
      ensures SameWaitersBut(old(ls), t) && forall u :: old(IsReady(u)) ==> IsReady(u)
      ensures pxCurrentTCB in uxPriority && (xReturn <==> uxPriority[t] > uxPriority[pxCurrentTCB])
      ensures Clock() == Step(old(Clock()), Unblock({t}))
      ensures xYieldPending == (old(xYieldPending) || xReturn)
    {
      hide Good, DelaysOk, ClockOf, UnblockTimeOk, Step, NonePended, Lists.Items, OnlyLeft, Lists.Valid, DelaySorted,
           Scheduling.MakeReady, AddReady;
      ghost var s := S();
      GoodLists(s, uxPriority);
      WaiterBlocked(s, uxPriority, t, q);
      SetEventValue(t, InUse(xItemValue));
      ReadyWaiter(t);
      xReturn := uxPriority[t] > uxPriority[pxCurrentTCB];
      if xReturn {
        xYieldPending := true;
      }
    }

    // ---- Task states --------------------------------------------------------------------

    /** Out of the state list and any event list, to the end of list l. */
    method ParkIn(t: Task, l: ListId)
      requires ls.Valid() && DelaySorted(ls) && Generic(t) in ls.container && !l.Delayed?
      modifies `ls
      ensures ls == ParkTask(old(ls), t, l)
    {
      hide Lists.Valid, DelaySorted, Lists.Remove, Lists.InsertEnd;
      Remove(Generic(t));
      if Event(t) in ls.container {
        Remove(Event(t));
      }
      ls := ls.InsertEnd(l, Generic(t));
    }

    /** The first critical section of vTaskSuspend. */
    method Suspend(t: Task)
      requires Valid() && t in uxPriority && t != idle
      modifies `ls
      ensures Valid() && Clock() == Step(old(Clock()), Unblock({t}))
      ensures old(ls).Valid() && DelaySorted(old(ls)) && S() == Sched(ParkTask(old(ls), t, Suspended), old(uxTopReadyPriority))
      ensures SameWaitersBut(old(ls), t) && forall u :: u != t && old(IsReady(u)) ==> IsReady(u)
    {
      hide Good, DelaysOk, ClockOf, UnblockTimeOk, Step, NonePended, OnlyLeft, Lists.Valid, DelaySorted, Lists.Items, ParkTask;
      ghost var s := S();
      GoodLists(s, uxPriority);
      ParkIn(t, Suspended);
      ParksWell(s, ls, uxPriority, t, idle, Suspended);
      LeavingIsUnblock(s.ls, ls, uxPriority.Keys, {t}, pxDelayedTaskList, epoch, xTickCount, xNextTaskUnblockTime);
    }

    /** The first critical section of vTaskDelete; the idle task frees the memory later. */
    method Delete(t: Task)
      requires Valid() && t in uxPriority && t != idle
      modifies `ls
      ensures Valid() && Clock() == Step(old(Clock()), Unblock({t}))
      ensures old(ls).Valid() && DelaySorted(old(ls)) && S() == Sched(ParkTask(old(ls), t, Termination), old(uxTopReadyPriority))
      ensures SameWaitersBut(old(ls), t) && forall u :: u != t && old(IsReady(u)) ==> IsReady(u)
    {
      hide Good, DelaysOk, ClockOf, UnblockTimeOk, Step, NonePended, OnlyLeft, Lists.Valid, DelaySorted, Lists.Items, ParkTask;
      ghost var s := S();
      GoodLists(s, uxPriority);
      ParkIn(t, Termination);
      ParksWell(s, ls, uxPriority, t, idle, Termination);
      LeavingIsUnblock(s.ls, ls, uxPriority.Keys, {t}, pxDelayedTaskList, epoch, xTickCount, xNextTaskUnblockTime);
    }

    /** The second critical section of vTaskSuspend and vTaskDelete, entered if the task is not
        the running one; ticks and interrupts may come between the two. */
    method RefreshNextTaskUnblockTime()
      requires Valid()
      modifies `xNextTaskUnblockTime
      ensures Valid() && IsNextWake(ls, pxDelayedTaskList, xNextTaskUnblockTime)
    {
      hide Good, DelaysOk, NonePended;
      ResetNextTaskUnblockTime(xTickCount + 1, xTickCount);
    }

    /** prvTaskIsTaskSuspended: suspended, and neither resumed already nor waiting without a
        timeout for an event. */
    predicate IsSuspended(t: Task)
      reads `ls
    {
      && ls.In(Generic(t), Suspended)
      && !ls.In(Event(t), PendingReady)
      && Event(t) !in ls.container
    }

    /** vTaskResume; the result says whether it yields. */
    method Resume(t: Task) returns (xYieldRequired: bool)
      requires Valid() && t in uxPriority
      modifies `ls, `uxTopReadyPriority
      ensures Valid() && Clock() == old(Clock())
      ensures old(IsSuspended(t)) && t != pxCurrentTCB ==>
                IsReady(t) && Good(old(S()), uxPriority) && S() == Scheduling.MakeReady(old(S()), uxPriority, t)
      ensures !(old(IsSuspended(t)) && t != pxCurrentTCB) ==> S() == old(S())
      ensures t != pxCurrentTCB && old(ls.In(Generic(t), Suspended)) && old(Event(t) !in ls.container) ==> IsReady(t)
      ensures !old(ls.In(Generic(t), Suspended)) || old(Event(t) in ls.container) ==> ls == old(ls)
      ensures SameWaitersBut(old(ls), t) && forall u :: old(IsReady(u)) ==> IsReady(u)
      ensures pxCurrentTCB in uxPriority
      ensures xYieldRequired <==> old(IsSuspended(t)) && t != pxCurrentTCB && uxPriority[t] >= uxPriority[pxCurrentTCB]
    {
      hide Good, DelaysOk, ClockOf, UnblockTimeOk, Step, NonePended, OnlyLeft, Lists.Valid, DelaySorted, Lists.Items,
           Scheduling.MakeReady, AddReady;
      xYieldRequired := false;
      if t != pxCurrentTCB {
        if IsSuspended(t) {
          ghost var s := S();
          WakesWell(s, uxPriority, t, idle);
          ReadyTask(t);
          LeavingIsUnblock(s.ls, ls, uxPriority.Keys, {t}, pxDelayedTaskList, epoch, xTickCount, xNextTaskUnblockTime);
          NotInClock(s.ls, uxPriority.Keys, t, pxDelayedTaskList, epoch, xTickCount);
          xYieldRequired := uxPriority[t] >= uxPriority[pxCurrentTCB];
        }
      }
    }

    // ---- Priorities ---------------------------------------------------------------------

    /** The same tasks wait for events as with the lists given. */
    ghost predicate SameWaiters(was: Lists)
      reads `ls
    {
      forall u :: SameList(was, ls, Event(u))
    }

    /** A ready task leaves its ready list for the end of another one. */
    method MoveToPriority(t: Task, priority: nat)
      requires Valid() && IsReady(t) && priority < MAX_PRIORITIES
      modifies `ls, `uxTopReadyPriority, `uxPriority
      ensures Valid() && Clock() == old(Clock()) && uxPriority == old(uxPriority)[t := priority]
      ensures forall u :: old(IsReady(u)) ==> IsReady(u)
      ensures S() == AddReady(Sched(Drop(old(ls), Generic(t)), old(uxTopReadyPriority)), t, priority) && SameWaiters(old(ls))
      ensures ls.value == old(ls).value
    {
      hide Good, DelaysOk, ClockOf, UnblockTimeOk, NonePended, OnlyLeft, Lists.Valid, DelaySorted, Drop, AddReady;
      ghost var s, was := S(), uxPriority;
      GoodLists(s, was);
      Remove(Generic(t));
      uxPriority := uxPriority[t := priority];
      AddTaskToReadyList(t);
      ReprioritisedWell(s, S(), was, t, priority, idle);
      LeavingIsUnblock(s.ls, ls, was.Keys, {}, pxDelayedTaskList, epoch, xTickCount, xNextTaskUnblockTime);
      assert uxPriority.Keys == was.Keys;
    }

    /** listSET_LIST_ITEM_VALUE on an event item. */
    method SetEventValue(t: Task, v: nat)
      requires Valid() && t in uxPriority
      modifies `ls
      ensures Valid() && Clock() == old(Clock())
      ensures ls == old(ls).SetValue(Event(t), v) && ls.container == old(ls).container
      ensures forall u :: old(IsReady(u)) ==> IsReady(u)
    {
      hide Good, DelaysOk, ClockOf, UnblockTimeOk, NonePended, OnlyLeft, Lists.Valid, DelaySorted;
      ghost var s := S();
      Revalued(s, uxPriority, t, v, idle);
      ls := ls.SetValue(Event(t), v);
      LeavingIsUnblock(s.ls, ls, uxPriority.Keys, {}, pxDelayedTaskList, epoch, xTickCount, xNextTaskUnblockTime);
    }

    /** A task that is not ready only has its priority changed. */
    method JustSetPriority(t: Task, priority: nat)
      requires Valid() && t in uxPriority && !IsReady(t) && priority < MAX_PRIORITIES
      modifies `uxPriority
      ensures Valid() && Clock() == old(Clock()) && uxPriority == old(uxPriority)[t := priority]
      ensures forall u :: old(IsReady(u)) ==> IsReady(u)
    {
      hide Good, DelaysOk, ClockOf, UnblockTimeOk, NonePended, Lists.Valid, DelaySorted;
      OutrankedWell(S(), uxPriority, t, priority);
      assert uxPriority[t := priority].Keys == uxPriority.Keys;
      uxPriority := uxPriority[t := priority];
    }

    lemma PriorityFacts()
      requires Valid()
      ensures pxCurrentTCB in uxPriority
      ensures forall t :: t in uxPriority ==> uxPriority[t] < MAX_PRIORITIES
    {
    }

    lemma ReadyFacts(t: Task)
      requires IsReady(t)
      ensures t in uxPriority
    {
    }

    lemma MutexFacts(m: Mutex)
      requires MutexesOk()
      ensures m in pxMutexHolder ==> pxMutexHolder[m] in uxPriority
      ensures uxBasePriority.Keys == uxPriority.Keys && uxMutexesHeld.Keys == uxPriority.Keys
      ensures forall t :: t in uxPriority ==> uxBasePriority[t] <= uxPriority[t]
    {
    }

    /** Creating a task, without the mutex accounts. */
    method AddTask(t: Task, p: nat)
      requires Valid() && t !in uxPriority && p < MAX_PRIORITIES
      modifies `ls, `uxTopReadyPriority, `uxPriority
      ensures Valid() && IsReady(t) && Clock() == old(Clock()) && uxPriority == old(uxPriority)[t := p] && SameWaiters(old(ls))
    {
      hide Good, DelaysOk, ClockOf, UnblockTimeOk, NonePended, OnlyLeft, Lists.Valid, DelaySorted, IsDelayed, AddReady;
      ghost var s, was := S(), uxPriority;
      GoodLists(s, uxPriority);
      NoSuchTask(s, uxPriority, t);
      uxPriority := uxPriority[t := p];
      AddTaskToReadyList(t);
      CreatedWell(s, S(), was, t, p, idle);
      LeavingIsUnblock(s.ls, ls, was.Keys, {}, pxDelayedTaskList, epoch, xTickCount, xNextTaskUnblockTime);
      assert uxPriority.Keys == was.Keys + {t};
      OneMoreTask(ls, was.Keys, t, pxDelayedTaskList, epoch, xTickCount);
    }

    /** xTaskGenericCreate, once the memory is there; the result says whether it yields. */
    method CreateTask(t: Task, priority: nat) returns (xYieldRequired: bool)
      requires Valid() && MutexesOk() && t !in uxPriority
      modifies `ls, `uxTopReadyPriority, `uxPriority, `uxBasePriority, `uxMutexesHeld
      ensures Valid() && MutexesOk() && IsReady(t) && Clock() == old(Clock()) && SameWaiters(old(ls))
      ensures uxPriority == old(uxPriority)[t := if priority < MAX_PRIORITIES then priority else MAX_PRIORITIES - 1]
      ensures uxBasePriority == old(uxBasePriority)[t := if priority < MAX_PRIORITIES then priority else MAX_PRIORITIES - 1]
      ensures uxMutexesHeld == old(uxMutexesHeld)[t := 0]
      ensures pxCurrentTCB in uxPriority && (xYieldRequired <==> uxPriority[pxCurrentTCB] < priority)
    {
      hide Valid, Clock, IsReady, Accounts;
      var p := if priority < MAX_PRIORITIES then priority else MAX_PRIORITIES - 1;
      CreateAccounts(uxPriority, uxBasePriority, uxMutexesHeld, pxMutexHolder, t, p);
      uxBasePriority, uxMutexesHeld := uxBasePriority[t := p], uxMutexesHeld[t := 0];
      AddTask(t, p);
      PriorityFacts();
      xYieldRequired := uxPriority[pxCurrentTCB] < priority;
    }

    // ---- Mutexes ------------------------------------------------------------------------

    /** The part of xQueueGenericReceive that takes a free mutex. */
    method TakeMutex(m: Mutex)
      requires Valid() && MutexesOk() && m !in pxMutexHolder
      modifies `uxMutexesHeld, `pxMutexHolder
      ensures Valid() && MutexesOk() && pxMutexHolder == old(pxMutexHolder)[m := pxCurrentTCB]
    {
      hide Valid, Accounts;
      PriorityFacts();
      MutexFacts(m);
      TakeAccounts(uxPriority, uxBasePriority, uxMutexesHeld, pxMutexHolder, m, pxCurrentTCB);
      uxMutexesHeld := uxMutexesHeld[pxCurrentTCB := Increment(uxMutexesHeld[pxCurrentTCB])];
      pxMutexHolder := pxMutexHolder[m := pxCurrentTCB];
    }

    /** vTaskPriorityInherit, for the holder of a mutex the running task waits for. */
    method PriorityInherit(m: Mutex)
      requires Valid() && MutexesOk()
      modifies `ls, `uxTopReadyPriority, `uxPriority
      ensures Valid() && MutexesOk() && Clock() == old(Clock())
      ensures pxCurrentTCB in old(uxPriority)
      ensures uxPriority == if m in pxMutexHolder && pxMutexHolder[m] in old(uxPriority)
                            then old(uxPriority)[pxMutexHolder[m] := Max(old(uxPriority)[pxMutexHolder[m]],
                                                                         old(uxPriority)[pxCurrentTCB])]
                            else old(uxPriority)
      ensures m in pxMutexHolder && pxMutexHolder[m] in old(uxPriority) ==>
                var h, p := pxMutexHolder[m], old(uxPriority)[pxCurrentTCB];
                && h in uxPriority && uxPriority[h] == (if old(uxPriority)[h] < p then p else old(uxPriority)[h])
                && ls.value == if old(uxPriority)[h] < p && old(ls).Value(Event(h)) / VALUE_IN_USE % 2 == 0
                               then old(ls).value[Event(h) := MAX_PRIORITIES - p] else old(ls).value
      ensures SameWaiters(old(ls)) && forall t :: old(IsReady(t)) ==> IsReady(t)
    {
      hide Valid, Clock, Accounts, S;
      PriorityFacts();
      MutexFacts(m);
      if m in pxMutexHolder {
        var t := pxMutexHolder[m];
        var p := uxPriority[pxCurrentTCB];
        if uxPriority[t] < p {
          InheritAccounts(uxPriority, uxBasePriority, uxMutexesHeld, pxMutexHolder, m, p);
          if ls.Value(Event(t)) / VALUE_IN_USE % 2 == 0 {
            SetEventValue(t, MAX_PRIORITIES - p);
          }
          if ls.In(Generic(t), Ready(uxPriority[t])) {
            MoveToPriority(t, p);
          } else {
            JustSetPriority(t, p);
          }
        }
      }
    }

    /** xTaskPriorityDisinherit for a holder, which must be the running task. */
    method PriorityDisinherit(t: Task) returns (xReturn: bool)
      requires Valid() && IsReady(t)
      requires t in uxMutexesHeld && t in uxBasePriority && uxBasePriority[t] <= uxPriority[t]
      modifies `ls, `uxTopReadyPriority, `uxPriority, `uxMutexesHeld
      ensures Valid() && Clock() == old(Clock())
      ensures uxMutexesHeld == old(uxMutexesHeld)[t := Decrement(old(uxMutexesHeld)[t])]
      ensures var was := old(uxPriority);
              && uxPriority == was[t := GivePriority(was[t], uxBasePriority[t], uxMutexesHeld[t])]
              && (xReturn <==> uxPriority != was)
      ensures uxMutexesHeld[t] != 0 ==> uxPriority == old(uxPriority) && !xReturn
      ensures uxMutexesHeld[t] == 0 ==>
                && uxPriority == old(uxPriority)[t := uxBasePriority[t]]
                && (xReturn <==> old(uxPriority)[t] != uxBasePriority[t])
      ensures ls.value == if xReturn then old(ls).value[Event(t) := MAX_PRIORITIES - uxBasePriority[t]] else old(ls).value
      ensures SameWaiters(old(ls)) && forall u :: old(IsReady(u)) ==> IsReady(u)
    {
      hide Valid, Clock, S, IsReady, Decrement;
      xReturn := false;
      ReadyFacts(t);
      PriorityFacts();
      uxMutexesHeld := uxMutexesHeld[t := Decrement(uxMutexesHeld[t])];
      assert uxPriority[t := uxPriority[t]] == uxPriority;
      if uxPriority[t] != uxBasePriority[t] {
        if uxMutexesHeld[t] == 0 {
          MoveToPriority(t, uxBasePriority[t]);
          assert uxPriority[t] != old(uxPriority)[t];
          SetEventValue(t, MAX_PRIORITIES - uxPriority[t]);
          xReturn := true;
        }
      }
    }

    /** The part of prvCopyDataToQueue that gives a mutex back, after which it has no holder. */
    method GiveMutex(m: Mutex) returns (xReturn: bool)
      requires Valid() && MutexesOk()
      requires m in pxMutexHolder ==> pxMutexHolder[m] == pxCurrentTCB && IsReady(pxCurrentTCB)
      modifies `ls, `uxTopReadyPriority, `uxPriority, `uxMutexesHeld, `pxMutexHolder
      ensures Valid() && MutexesOk() && Clock() == old(Clock())
      ensures pxMutexHolder == old(pxMutexHolder) - {m}
      ensures var t, was := pxCurrentTCB, old(uxPriority);
              && t in was && t in uxMutexesHeld && t in uxBasePriority
              && uxPriority == (if m in old(pxMutexHolder)
                                then was[t := GivePriority(was[t], uxBasePriority[t], uxMutexesHeld[t])] else was)
              && (xReturn <==> uxPriority != was)
      ensures var t, was := pxCurrentTCB, old(uxPriority);
              if m in old(pxMutexHolder) && HeldCount(pxMutexHolder, t) % 0x100 == 0 then
                uxPriority == was[t := uxBasePriority[t]] && (xReturn <==> was[t] != uxBasePriority[t])
              else
                uxPriority == was && !xReturn
      ensures SameWaiters(old(ls)) && forall t :: old(IsReady(t)) ==> IsReady(t)
    {
      hide Valid, Clock, Accounts, S, IsReady, Decrement, GivePriority;
      xReturn := false;
      PriorityFacts();
      MutexFacts(m);
      assert m !in pxMutexHolder ==> pxMutexHolder - {m} == pxMutexHolder;
      if m in pxMutexHolder {
        var t := pxMutexHolder[m];
        GiveAccounts(uxPriority, uxBasePriority, uxMutexesHeld, pxMutexHolder, m, Decrement(uxMutexesHeld[t]),
                     GivePriority(uxPriority[t], uxBasePriority[t], Decrement(uxMutexesHeld[t])));
        xReturn := PriorityDisinherit(t);
      }
      pxMutexHolder := pxMutexHolder - {m};
      HeldFacts(pxCurrentTCB);
    }

    lemma HeldFacts(t: Task)
      requires MutexesOk() && t in uxPriority
      ensures t in uxMutexesHeld && uxMutexesHeld[t] == HeldCount(pxMutexHolder, t) % 0x100
    {
    }
  }
}