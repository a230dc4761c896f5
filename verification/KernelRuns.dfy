/** Sequences of kernel calls: a task delayed for d ticks at true time T, or blocked on an event
    for at most d ticks, sleeps until tick T + d is processed or the event reaches it, whatever
    the other tasks and the interrupts do meanwhile. */
module KernelRuns {
  import opened KernelLists
  import opened Mutexes
  import opened Options
  import opened Tasks
  import opened Scheduling
  import opened WakeTimes
  import opened Kernel

  datatype Call =
    | TickInterrupt
    | SuspendScheduler
    | ResumeScheduler
    | ContextSwitch
    | DelayFor(ticks: nat)
    | WaitForEvent(q: int, ticks: nat)
    | WaitForBits(q: int, value: nat, ticks: nat)
    | SignalEvent(q: int)
    | SignalBits(task: Task, q: int, value: nat)
    | SuspendTask(task: Task)
    | DeleteTask(task: Task)
    | RefreshUnblockTime
    | ResumeTask(task: Task)
    | NewTask(task: Task, priority: nat)
    | Take(mutex: Mutex)
    | Inherit(mutex: Mutex)
    | Give(mutex: Mutex)

  /** Task t waits on event list q, or on none. */
  ghost predicate WaitsOn(ls: Lists, t: Task, q: Option<int>) {
    match q
    case None => Event(t) !in ls.container
    case Some(n) => ls.In(Event(t), EventList(n))
  }

  /** Task t is blocked until true time w at the latest, on event list q if there is one. */
  ghost predicate Asleep(k: Kernel, t: Task, w: nat, q: Option<int>)
    reads k
  {
    t in k.Clock().wake && k.Clock().wake[t] == w && WaitsOn(k.ls, t, q)
  }

  /** Asleep until its time, and from then on ready and on no event list. */
  ghost predicate AsleepUntil(k: Kernel, t: Task, w: nat, q: Option<int>)
    reads k
  {
    if k.Clock().now < w then Asleep(k, t, w, q)
    else t !in k.Clock().wake && k.IsReady(t) && Event(t) !in k.ls.container
  }

  /** The calls that end a delay of t early: suspending or deleting it. */
  predicate Ends(call: Call, t: Task) {
    (call.SuspendTask? || call.DeleteTask?) && call.task == t
  }

  /** So does a signal to a list that t is the first to wait on, or one sent to t itself. */
  predicate Reaches(k: Kernel, call: Call, t: Task)
    reads k
  {
    || Ends(call, t)
    || (call.SignalEvent? && k.ls.Items(EventList(call.q)) != [] && k.ls.Items(EventList(call.q))[0].task == t)
    || (call.SignalBits? && call.task == t && k.ls.In(Event(t), EventList(call.q)))
  }

  /** The running task is ready and not the idle task. */
  predicate MayWait(k: Kernel)
    reads k
  {
    var t := k.pxCurrentTCB;
    t != k.idle && t in k.uxPriority && k.ls.In(Generic(t), Ready(k.uxPriority[t]))
  }

  lemma AsleepFacts(k: Kernel, t: Task, w: nat, q: Option<int>)
    requires k.Valid() && Asleep(k, t, w, q)
    ensures t in k.uxPriority && IsDelayed(k.ls, t) && !k.IsReady(t) && k.Clock().now < w
    ensures Pending(k.Clock())
  {
    ClockPending(k.ls, k.uxPriority.Keys, k.pxDelayedTaskList, k.epoch, k.xTickCount);
  }

  /** An event that neither is a tick nor concerns t leaves it asleep. */
  lemma OtherEvent(c: Clock, e: WakeTimes.Event, t: Task)
    requires t in c.wake && (if e.Block? then e.task != t else e.Unblock? && t !in e.tasks)
    ensures t in Step(c, e).wake && Step(c, e).wake[t] == c.wake[t] && Step(c, e).now == c.now
  {
  }

  lemma TickAsleep(c: Clock, t: Task)
    requires Pending(c) && t in c.wake
    ensures var c' := Step(c, Tick);
            && (t in c'.wake <==> c'.now < c.wake[t]) && c'.now == c.now + 1
            && (t in c'.wake ==> c'.wake[t] == c.wake[t])
  {
  }

  /** A delayed task that only ticks or its event can have moved still waits, or is ready. */
  lemma StillOrReady(ls: Lists, ls': Lists, priority: map<Task, nat>, ts: set<Task>, t: Task, q: Option<int>,
                     cur: bool, epoch: nat, tick: nat)
    requires OnlyWoken(ls, ls', priority, ts) && t in priority && IsDelayed(ls, t) && WaitsOn(ls, t, q)
    ensures if t in ClockOf(ls', priority.Keys, cur, epoch, tick).wake then WaitsOn(ls', t, q)
            else ls'.In(Generic(t), Ready(priority[t])) && Event(t) !in ls'.container
  {
  }

  /** A task that still waits has not been pended. */
  lemma NotPended(ls: Lists, tasks: set<Task>, t: Task, q: Option<int>)
    requires WaitsOn(ls, t, q)
    ensures t !in Pended(ls, tasks)
  {
  }

  lemma StillWaits(ls: Lists, ls': Lists, t: Task, q: Option<int>)
    requires SameList(ls, ls', Event(t)) && WaitsOn(ls, t, q)
    ensures WaitsOn(ls', t, q)
  {
  }

  // ---- One call --------------------------------------------------------------------------------

  /** Base priorities stay, and no priority goes down but that of a task that holds no mutex,
      or a multiple of 256 of them. */
  ghost predicate AccountsMove(was: map<Task, nat>, wasBase: map<Task, nat>, priority: map<Task, nat>, base: map<Task, nat>,
                               holder: map<Mutex, Task>) {
    forall u :: u in was && u in wasBase ==>
      && u in priority && u in base && base[u] == wasBase[u]
      && (HeldCount(holder, u) % 0x100 != 0 ==> priority[u] >= was[u])
  }

  lemma NoneMoved(priority: map<Task, nat>, base: map<Task, nat>, holder: map<Mutex, Task>)
    ensures AccountsMove(priority, base, priority, base, holder)
  {
  }

  method PerformTick(k: Kernel, ghost t: Task, ghost w: nat, ghost q: Option<int>)
    requires k.Valid() && k.MutexesOk()
    modifies k
    ensures k.Valid() && k.MutexesOk()
    ensures AccountsMove(old(k.uxPriority), old(k.uxBasePriority), k.uxPriority, k.uxBasePriority, k.pxMutexHolder)
    ensures old(Asleep(k, t, w, q)) ==> AsleepUntil(k, t, w, q) && k.Clock().now <= old(k.Clock()).now + 1
  {
    hide Good, DelaysOk, UnblockAll, UnblockTimeOk, ClockOf, OnlyWoken, Lists.In, IsDelayed, Step, Accounts, DueAtLeast, NonePended, Lists.Items, HeldCount;
    ghost var s, c, asleep := k.S(), k.Clock(), Asleep(k, t, w, q);
    NoneMoved(k.uxPriority, k.uxBasePriority, k.pxMutexHolder);
    if asleep {
      AsleepFacts(k, t, w, q);
      TickAsleep(c, t);
    }
    var _ := k.IncrementTick();
    if asleep && k.uxSchedulerSuspended == 0 {
      TickOnlyWoken(s, k.uxPriority, k.pxDelayedTaskList, k.xTickCount);
      StillOrReady(s.ls, k.ls, k.uxPriority, {}, t, q, k.pxDelayedTaskList, k.epoch, k.xTickCount);
    }
  }

  method PerformResume(k: Kernel, ghost t: Task, ghost w: nat, ghost q: Option<int>)
    requires k.Valid() && k.MutexesOk() && k.uxSchedulerSuspended > 0
    modifies k
    ensures k.Valid() && k.MutexesOk()
    ensures AccountsMove(old(k.uxPriority), old(k.uxBasePriority), k.uxPriority, k.uxBasePriority, k.pxMutexHolder)
    ensures old(Asleep(k, t, w, q)) ==>
              AsleepUntil(k, t, w, q) && k.Clock().now <= old(k.Clock()).now + old(k.uxPendedTicks)
  {
    hide Good, DelaysOk, UnblockTimeOk, ClockOf, OnlyWoken, Lists.In, IsDelayed, Step, Accounts, NonePended, Lists.Items, Run, Pended, PendedAtLeast, HeldCount;
    ghost var ls, c, n, asleep := k.ls, k.Clock(), k.uxPendedTicks, Asleep(k, t, w, q);
    ghost var ts := Pended(ls, k.uxPriority.Keys);
    NoneMoved(k.uxPriority, k.uxBasePriority, k.pxMutexHolder);
    if asleep {
      AsleepFacts(k, t, w, q);
      NotPended(ls, k.uxPriority.Keys, t, q);
    }
    var _ := k.ResumeAll();
    if asleep && k.uxSchedulerSuspended == 0 {
      ReplayAsleep(c, ts, n, t);
      StillOrReady(ls, k.ls, k.uxPriority, ts, t, q, k.pxDelayedTaskList, k.epoch, k.xTickCount);
    }
  }

  lemma ReplayAsleep(c: Clock, ts: set<Task>, n: nat, t: Task)
    requires Pending(c) && t in c.wake && t !in ts
    ensures var c' := Run(c, [Unblock(ts)] + Ticks(n));
            && (t in c'.wake <==> c'.now < c.wake[t]) && c'.now == c.now + n
            && (t in c'.wake ==> c'.wake[t] == c.wake[t])
  {
    var es := [Unblock(ts)] + Ticks(n);
    AllPossible(c, es);
    SleepsUntil(c, es, t);
    CountTicks(c, [Unblock(ts)], n);
    RunOne(c, Unblock(ts));
  }

  lemma {:induction false} AllPossible(c: Clock, es: seq<WakeTimes.Event>)
    requires forall e :: e in es ==> !e.Block?
    ensures Possible(c, es)
    decreases |es|
  {
    if es != [] {
      AllPossible(Step(c, es[0]), es[1..]);
    }
  }

  lemma {:induction false} CountTicks(c: Clock, es: seq<WakeTimes.Event>, n: nat)
    ensures Run(c, es + Ticks(n)).now == Run(c, es).now + n
  {
    if n == 0 {
      assert es + Ticks(0) == es;
    } else {
      CountTicks(c, es, n - 1);
      OneMoreTick(c, es, n - 1);
    }
  }

  lemma RunnerIsAwake(k: Kernel, t: Task, w: nat, q: Option<int>)
    requires k.Valid() && MayWait(k)
    ensures k.MayBlock()
    ensures Asleep(k, t, w, q) ==> k.pxCurrentTCB != t
  {
    if Asleep(k, t, w, q) {
      AsleepFacts(k, t, w, q);
    }
  }

  /** The calls in which the running task may block. */
  method PerformBlocking(k: Kernel, call: Call, ghost t: Task, ghost w: nat, ghost q: Option<int>)
    requires k.Valid() && k.MutexesOk()
    requires call.DelayFor? || call.WaitForEvent? || call.WaitForBits?
    modifies k
    ensures k.Valid() && k.MutexesOk()
    ensures AccountsMove(old(k.uxPriority), old(k.uxBasePriority), k.uxPriority, k.uxBasePriority, k.pxMutexHolder)
    ensures old(Asleep(k, t, w, q)) ==> Asleep(k, t, w, q) && k.Clock().now == old(k.Clock()).now
  {
    hide Good, DelaysOk, UnblockTimeOk, ClockOf, Lists.In, IsDelayed, Step, Accounts, NonePended, Lists.Items, Lists.Valid,
         DelaySorted, BlockReady, BlockTask, Scheduling.MakeReady, AddReady, ParkTask, Enqueued, Appended, OnlyWoken, MayWait,
         HeldCount;
    ghost var ls, asleep := k.ls, Asleep(k, t, w, q);
    NoneMoved(k.uxPriority, k.uxBasePriority, k.pxMutexHolder);
    if MayWait(k) && 1 <= call.ticks <= MAX_DELAY {
      RunnerIsAwake(k, t, w, q);
      if asleep {
        AsleepFacts(k, t, w, q);
        OtherEvent(k.Clock(), Block(k.pxCurrentTCB, call.ticks), t);
      }
      match call
      case DelayFor(ticks) =>
        if k.uxSchedulerSuspended > 0 {
          k.Delay(ticks);
        }
      case WaitForEvent(l, ticks) =>
        k.PlaceOnEventList(l, ticks);
      case WaitForBits(l, value, ticks) =>
        if k.uxSchedulerSuspended > 0 {
          k.PlaceOnUnorderedEventList(l, value, ticks);
        }
    }
    if asleep {
      StillWaits(ls, k.ls, t, q);
    }
  }

  /** A task other than t, if t is asleep, is moved. */
  lemma OtherMoved(k: Kernel, u: Task, t: Task, w: nat, q: Option<int>)
    requires k.Valid() && u != t
    ensures Asleep(k, t, w, q) ==>
              var c := Step(k.Clock(), Unblock({u})); t in c.wake && c.wake[t] == k.Clock().wake[t] && c.now == k.Clock().now
  {
    if Asleep(k, t, w, q) {
      AsleepFacts(k, t, w, q);
      OtherEvent(k.Clock(), Unblock({u}), t);
    }
  }

  /** The calls that move other tasks. */
  method PerformMoving(k: Kernel, call: Call, ghost t: Task, ghost w: nat, ghost q: Option<int>)
    requires k.Valid() && k.MutexesOk()
    requires call.SignalEvent? || call.SignalBits? || call.SuspendTask? || call.DeleteTask? || call.ResumeTask?
    modifies k
    ensures k.Valid() && k.MutexesOk()
    ensures AccountsMove(old(k.uxPriority), old(k.uxBasePriority), k.uxPriority, k.uxBasePriority, k.pxMutexHolder)
    ensures old(Asleep(k, t, w, q)) && !old(Reaches(k, call, t)) ==>
              Asleep(k, t, w, q) && k.Clock().now == old(k.Clock()).now
  {
    hide Good, DelaysOk, UnblockTimeOk, ClockOf, Lists.In, IsDelayed, Step, Accounts, NonePended, Lists.Items, Lists.Valid,
         DelaySorted, BlockReady, BlockTask, Scheduling.MakeReady, AddReady, ParkTask, Enqueued, Appended, OnlyWoken, HeldCount;
    ghost var ls, spared := k.ls, Asleep(k, t, w, q) && !Reaches(k, call, t);
    NoneMoved(k.uxPriority, k.uxBasePriority, k.pxMutexHolder);
    if spared {
      AsleepFacts(k, t, w, q);
    }
    match call {
      case SignalEvent(l) =>
        if k.ls.Items(EventList(l)) != [] {
          if spared {
            OtherMoved(k, k.ls.Items(EventList(l))[0].task, t, w, q);
          }
          var _ := k.RemoveFromEventList(l);
        }
      case SignalBits(u, l, value) =>
        if k.uxSchedulerSuspended > 0 && u in k.uxPriority && k.ls.In(Event(u), EventList(l)) {
          if spared {
            OtherMoved(k, u, t, w, q);
          }
          var _ := k.RemoveFromUnorderedEventList(u, l, value);
        }
      case SuspendTask(u) =>
        if u in k.uxPriority && u != k.idle {
          if spared {
            OtherMoved(k, u, t, w, q);
          }
          k.Suspend(u);
        }
      case DeleteTask(u) =>
        if u in k.uxPriority && u != k.idle {
          if spared {
            OtherMoved(k, u, t, w, q);
          }
          k.Delete(u);
        }
      case ResumeTask(u) =>
        if u in k.uxPriority {
          var _ := k.Resume(u);
        }
    }
    if spared {
      StillWaits(ls, k.ls, t, q);
    }
  }

  /** The calls that leave all delays alone. */
  method PerformQuiet(k: Kernel, call: Call, ghost t: Task, ghost w: nat, ghost q: Option<int>)
    requires k.Valid() && k.MutexesOk()
    requires call.SuspendScheduler? || call.ContextSwitch? || call.NewTask? || call.Take? || call.Inherit? || call.Give?
             || call.RefreshUnblockTime?
    modifies k
    ensures k.Valid() && k.MutexesOk()
    ensures AccountsMove(old(k.uxPriority), old(k.uxBasePriority), k.uxPriority, k.uxBasePriority, k.pxMutexHolder)
    ensures old(Asleep(k, t, w, q)) ==> Asleep(k, t, w, q) && k.Clock().now == old(k.Clock()).now
  {
    hide Good, DelaysOk, UnblockTimeOk, ClockOf, Lists.In, IsDelayed, Step, Accounts, NonePended, Lists.Items, Lists.Valid,
         DelaySorted, BlockReady, BlockTask, Scheduling.MakeReady, AddReady, ParkTask, Enqueued, Appended, OnlyWoken,
         MayGive, Kernel.MutexesOk, HeldCount, GivePriority;
    ghost var ls, asleep := k.ls, Asleep(k, t, w, q);
    AccountFacts(k);
    match call {
      case SuspendScheduler =>
        if k.uxSchedulerSuspended < 0xFF {
          k.SuspendAll();
        }
      case ContextSwitch =>
        k.SwitchContext();
      case NewTask(u, priority) =>
        if u !in k.uxPriority {
          var _ := k.CreateTask(u, priority);
        }
      case Take(m) =>
        if m !in k.pxMutexHolder {
          k.TakeMutex(m);
        }
      case RefreshUnblockTime =>
        k.RefreshNextTaskUnblockTime();
      case Inherit(m) =>
        k.PriorityInherit(m);
      case Give(m) =>
        if MayGive(k, m) {
          GiverRuns(k, m);
          var _ := k.GiveMutex(m);
        }
    }
    if asleep {
      StillWaits(ls, k.ls, t, q);
    }
  }

  lemma AccountFacts(k: Kernel)
    requires k.MutexesOk()
    ensures k.uxBasePriority.Keys == k.uxPriority.Keys
  {
  }

  /** Only the running task gives a mutex, and one it holds. */
  predicate MayGive(k: Kernel, m: Mutex)
    reads k
  {
    var t := k.pxCurrentTCB;
    m in k.pxMutexHolder ==> k.pxMutexHolder[m] == t && t in k.uxPriority && k.ls.In(Generic(t), Ready(k.uxPriority[t]))
  }

  lemma GiverRuns(k: Kernel, m: Mutex)
    requires MayGive(k, m)
    ensures m in k.pxMutexHolder ==> k.pxMutexHolder[m] == k.pxCurrentTCB && k.IsReady(k.pxCurrentTCB)
  {
  }

  /** Any call that can be made in the state at hand; one that cannot is passed over.  What is
      said about t, w and q holds of any task that is asleep. */
  method Perform(k: Kernel, call: Call, ghost t: Task, ghost w: nat, ghost q: Option<int>)
    requires k.Valid() && k.MutexesOk()
    modifies k
    ensures k.Valid() && k.MutexesOk()
    ensures AccountsMove(old(k.uxPriority), old(k.uxBasePriority), k.uxPriority, k.uxBasePriority, k.pxMutexHolder)
    ensures old(Asleep(k, t, w, q)) && !old(Reaches(k, call, t)) ==>
              && AsleepUntil(k, t, w, q)
              && k.Clock().now <= old(k.Clock()).now + if call.ResumeScheduler? then old(k.uxPendedTicks) else 1
  {
    hide Kernel.Valid, Kernel.MutexesOk, Kernel.Clock, Asleep, AccountsMove, Reaches;
    ghost var spared := Asleep(k, t, w, q) && !Reaches(k, call, t);
    NoneMoved(k.uxPriority, k.uxBasePriority, k.pxMutexHolder);
    if spared {
      AsleepFacts(k, t, w, q);
    }
    if call.TickInterrupt? {
      PerformTick(k, t, w, q);
    } else if call.ResumeScheduler? {
      if k.uxSchedulerSuspended > 0 {
        PerformResume(k, t, w, q);
      }
    } else {
      if call.DelayFor? || call.WaitForEvent? || call.WaitForBits? {
        PerformBlocking(k, call, t, w, q);
      } else if call.SignalEvent? || call.SignalBits? || call.SuspendTask? || call.DeleteTask? || call.ResumeTask? {
        PerformMoving(k, call, t, w, q);
      } else {
        PerformQuiet(k, call, t, w, q);
      }
      if spared {
        AsleepFacts(k, t, w, q);
      }
    }
  }

  // ---- Inherited priorities ------------------------------------------------------------------------

  /** Task t, while it and others make any calls, up to the first after which it holds no mutex,
      or a multiple of 256 of them: until then its priority never goes down, and with its last
      mutex given back it has its base priority again. */
  method HoldMutexes(k: Kernel, t: Task, calls: seq<Call>) returns (n: nat)
    requires k.Valid() && k.MutexesOk() && t in k.uxPriority && t in k.uxBasePriority
    modifies k
    ensures k.Valid() && k.MutexesOk() && n <= |calls|
    ensures t in k.uxPriority && t in k.uxBasePriority && k.uxBasePriority[t] == old(k.uxBasePriority[t])
    ensures n < |calls| ==> HeldCount(k.pxMutexHolder, t) % 0x100 == 0
    ensures HeldCount(k.pxMutexHolder, t) % 0x100 != 0 ==> k.uxPriority[t] >= old(k.uxPriority[t])
    ensures HeldCount(k.pxMutexHolder, t) == 0 ==> k.uxPriority[t] == k.uxBasePriority[t]
  {
    hide Kernel.Valid, Kernel.MutexesOk, HeldCount, Reaches, Asleep, AsleepUntil;
    n := 0;
    HeldOf(k, t);
    while n < |calls| && k.uxMutexesHeld[t] != 0
      invariant n <= |calls| && k.Valid() && k.MutexesOk() && t in k.uxMutexesHeld
      invariant t in k.uxPriority && t in k.uxBasePriority && k.uxBasePriority[t] == old(k.uxBasePriority[t])
      invariant k.uxMutexesHeld[t] == HeldCount(k.pxMutexHolder, t) % 0x100
      invariant HeldCount(k.pxMutexHolder, t) % 0x100 != 0 ==> k.uxPriority[t] >= old(k.uxPriority[t])
    {
      Perform(k, calls[n], t, 0, None);
      HeldOf(k, t);
      n := n + 1;
    }
    HeldOf(k, t);
  }

  lemma HeldOf(k: Kernel, t: Task)
    requires k.MutexesOk() && t in k.uxPriority
    ensures t in k.uxMutexesHeld && k.uxMutexesHeld[t] == HeldCount(k.pxMutexHolder, t) % 0x100
    ensures t in k.uxBasePriority && (HeldCount(k.pxMutexHolder, t) == 0 ==> k.uxPriority[t] == k.uxBasePriority[t])
  {
  }

  // ---- Whole waits -------------------------------------------------------------------------------

  /** Task t, asleep until w on event list q, while other tasks and interrupts make calls, up to
      the first that reaches it.  It sleeps as long as tick w has not been processed, and the
      call that processes that tick makes it ready. */
  method WaitUntil(k: Kernel, t: Task, ghost w: nat, ghost q: Option<int>, calls: seq<Call>) returns (n: nat)
    requires k.Valid() && k.MutexesOk() && Asleep(k, t, w, q)
    modifies k
    ensures k.Valid() && k.MutexesOk() && AsleepUntil(k, t, w, q) && n <= |calls|
    ensures n < |calls| ==> k.Clock().now >= w || Reaches(k, calls[n], t)
    ensures k.Clock().now > w ==> n > 0 && calls[n - 1].ResumeScheduler?
  {
    hide Kernel.Valid, Kernel.MutexesOk, Kernel.Clock, Asleep, AsleepUntil, IsWaiting, Reaches;
    n := 0;
    AsleepFacts(k, t, w, q);
    AsleepStill(k, t, w, q);
    WaitingIs(k, t, w, q);
    while n < |calls| && IsWaiting(k, t) && !Reaches(k, calls[n], t)
      invariant n <= |calls| && k.Valid() && k.MutexesOk() && AsleepUntil(k, t, w, q)
      invariant IsWaiting(k, t) <==> k.Clock().now < w
      invariant k.Clock().now > w ==> n > 0 && calls[n - 1].ResumeScheduler?
    {
      WaitingIs(k, t, w, q);
      Perform(k, calls[n], t, w, q);
      WaitingIs(k, t, w, q);
      n := n + 1;
    }
  }

  lemma AsleepStill(k: Kernel, t: Task, w: nat, q: Option<int>)
    requires Asleep(k, t, w, q) && k.Clock().now < w
    ensures AsleepUntil(k, t, w, q)
  {
  }

  /** The running task calls vTaskDelay at true time T for d ticks: it sleeps until T + d, as no
      call but one that suspends or deletes it ends its delay. */
  method DelayAndWait(k: Kernel, d: nat, calls: seq<Call>) returns (n: nat)
    requires k.MayBlock() && k.MutexesOk() && k.uxSchedulerSuspended > 0 && 1 <= d <= MAX_DELAY
    requires forall call :: call in calls ==> !Ends(call, k.pxCurrentTCB)
    modifies k
    ensures k.Valid() && k.MutexesOk() && n <= |calls|
    ensures var t, w := old(k.pxCurrentTCB), old(k.Clock().now) + d;
            && AsleepUntil(k, t, w, None)
            && (n < |calls| ==> k.Clock().now >= w)
            && (k.Clock().now > w ==> n > 0 && calls[n - 1].ResumeScheduler?)
  {
    hide Kernel.Valid, Kernel.MutexesOk, Kernel.MayBlock, Kernel.Clock, Asleep, AsleepUntil, Reaches;
    var t := k.pxCurrentTCB;
    ghost var w := k.Clock().now + d;
    StartDelay(k, d);
    n := WaitUntil(k, t, w, None, calls);
    if n < |calls| {
      assert calls[n] in calls;
      NothingReaches(k, calls[n], t, w);
    }
  }

  /** Nothing signals a task that waits for no event. */
  lemma NothingReaches(k: Kernel, call: Call, t: Task, w: nat)
    requires k.Valid() && AsleepUntil(k, t, w, None) && !Ends(call, t)
    ensures !Reaches(k, call, t)
  {
    hide Lists.Items, Lists.In;
    assert Event(t) !in k.ls.container;
    if call.SignalEvent? && k.ls.Items(EventList(call.q)) != [] {
      EventHead(k.S(), k.uxPriority, call.q);
    }
    if call.SignalBits? {
      NotIn(k.ls, Event(t), EventList(call.q));
    }
  }

  lemma NotIn(ls: Lists, x: Item, l: ListId)
    requires x !in ls.container
    ensures !ls.In(x, l)
  {
  }

  method StartDelay(k: Kernel, d: nat)
    requires k.MayBlock() && k.MutexesOk() && k.uxSchedulerSuspended > 0 && 1 <= d <= MAX_DELAY
    modifies k
    ensures k.Valid() && k.MutexesOk() && k.Clock().now == old(k.Clock().now)
    ensures Asleep(k, old(k.pxCurrentTCB), old(k.Clock().now) + d, None)
  {
    hide Kernel.Valid, Kernel.MayBlock, ClockOf, Accounts;
    k.Delay(d);
  }

  /** The running task blocks at true time T on event list q for at most d ticks: until a signal
      reaches it there it stays, and if none does it is ready, and off the list, once tick T + d
      is processed. */
  method BlockOnEventAndWait(k: Kernel, q: int, d: nat, calls: seq<Call>) returns (n: nat)
    requires k.MayBlock() && k.MutexesOk() && 1 <= d < MAX_DELAY
    modifies k
    ensures k.Valid() && k.MutexesOk() && n <= |calls|
    ensures var t, w := old(k.pxCurrentTCB), old(k.Clock().now) + d;
            && AsleepUntil(k, t, w, Some(q))
            && (n < |calls| ==> k.Clock().now >= w || Reaches(k, calls[n], t))
            && (k.Clock().now > w ==> n > 0 && calls[n - 1].ResumeScheduler?)
  {
    hide Kernel.Valid, Kernel.MutexesOk, Kernel.MayBlock, Kernel.Clock, Asleep, AsleepUntil, Reaches;
    var t := k.pxCurrentTCB;
    ghost var w := k.Clock().now + d;
    StartEventWait(k, q, d);
    n := WaitUntil(k, t, w, Some(q), calls);
  }

  method StartEventWait(k: Kernel, q: int, d: nat)
    requires k.MayBlock() && k.MutexesOk() && 1 <= d < MAX_DELAY
    modifies k
    ensures k.Valid() && k.MutexesOk() && k.Clock().now == old(k.Clock().now)
    ensures Asleep(k, old(k.pxCurrentTCB), old(k.Clock().now) + d, Some(q))
  {
    hide Kernel.Valid, Kernel.MayBlock, ClockOf, Accounts, Enqueued, BlockReady, BlockTask;
    k.PlaceOnEventList(q, d);
  }

  predicate IsWaiting(k: Kernel, t: Task)
    reads k
  {
    Generic(t) in k.ls.container && k.ls.container[Generic(t)].Delayed?
  }

  lemma WaitingIs(k: Kernel, t: Task, w: nat, q: Option<int>)
    requires k.Valid() && AsleepUntil(k, t, w, q)
    ensures IsWaiting(k, t) <==> k.Clock().now < w
    ensures k.Clock().now < w ==> Asleep(k, t, w, q)
  {
    if k.Clock().now < w {
      AsleepFacts(k, t, w, q);
    }
  }
}
