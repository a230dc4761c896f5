/** Where tasks stand in the scheduler's lists, and what readying a task does to them. */
module Scheduling {
  import opened Ring
  import opened KernelLists
  import opened Tasks
  import opened WakeTimes

  const MAX_PRIORITIES := 5
  const MAX_DELAY := 0xFFFF

  // ---- Where list items may be ----------------------------------------------------------

  predicate StateOk(l: ListId, priority: nat, top: nat) {
    match l
    case Ready(p) => p == priority && p <= top
    case Delayed(_) | Suspended | Termination => true
    case _ => false
  }

  /** Every task is in exactly one state list, ready lists hold only their own priority, and
      a task that waits for an event, or was just taken from one, is delayed or suspended. */
  ghost predicate Placed(c: map<Item, ListId>, priority: map<Task, nat>, top: nat) {
    && (forall t :: t in priority ==> Generic(t) in c && StateOk(c[Generic(t)], priority[t], top))
    && (forall t :: Generic(t) in c ==> t in priority)
    && (forall t :: Event(t) in c ==>
          && Generic(t) in c && (c[Generic(t)].Delayed? || c[Generic(t)].Suspended?)
          && (c[Event(t)].EventList? || c[Event(t)].PendingReady?))
  }

  /** Task t made ready, and taken out of any event list. */
  function Awake(c: map<Item, ListId>, t: Task, p: nat): map<Item, ListId> {
    (c - {Event(t)})[Generic(t) := Ready(p)]
  }

  /** All tasks ts made ready at once. */
  ghost function AwakeAll(c: map<Item, ListId>, ts: set<Task>, priority: map<Task, nat>): map<Item, ListId>
    requires ts <= priority.Keys
  {
    map x | x in c && !(x.Event? && x.task in ts) ::
      if x.Generic? && x.task in ts then Ready(priority[x.task]) else c[x]
  }

  lemma AwakeOneMore(c: map<Item, ListId>, ts: set<Task>, priority: map<Task, nat>, t: Task)
    requires ts <= priority.Keys && t in priority && Generic(t) in c && t !in ts
    ensures AwakeAll(c, {}, priority) == c
    ensures AwakeAll(Awake(c, t, priority[t]), ts, priority) == AwakeAll(c, ts + {t}, priority)
  {
  }

  // ---- The lists and the highest ready priority -------------------------------------------

  datatype Sched = Sched(ls: Lists, top: nat)

  ghost predicate Good(s: Sched, priority: map<Task, nat>) {
    && s.ls.Valid() && DelaySorted(s.ls)
    && Placed(s.ls.container, priority, s.top) && s.top < MAX_PRIORITIES
    && forall t :: t in priority ==> priority[t] < MAX_PRIORITIES
  }

  function Max(a: nat, b: nat): nat {
    if a < b then b else a
  }

  /** prvAddTaskToReadyList. */
  function AddReady(s: Sched, t: Task, p: nat): (r: Sched)
    requires s.ls.Valid() && DelaySorted(s.ls) && Generic(t) !in s.ls.container
    ensures r.ls.Valid() && DelaySorted(r.ls) && r.top == Max(s.top, p)
    ensures r.ls.container == s.ls.container[Generic(t) := Ready(p)] && r.ls.value == s.ls.value
  {
    InsertEndKeeps(s.ls, Ready(p), Generic(t));
    Sched(s.ls.InsertEnd(Ready(p), Generic(t)), Max(s.top, p))
  }

  /** A task made ready comes last in the turns of its ready list, save for the one running. */
  lemma ReadyTurn(s: Sched, t: Task, p: nat)
    requires s.ls.Valid() && DelaySorted(s.ls) && Generic(t) !in s.ls.container
    ensures var was, now := s.ls.At(Ready(p)), AddReady(s, t, p).ls.At(Ready(p));
            && was.Valid() && now.Valid()
            && (was.index == 0 ==> now.Upcoming() == was.Upcoming() + [Generic(t)])
            && (was.index > 0 ==> now.Upcoming() == was.Upcoming()[..|was.items| - 1] + [Generic(t), was.Current()])
    ensures forall m :: m != Ready(p) ==> AddReady(s, t, p).ls.At(m) == s.ls.At(m)
  {
    hide Lists.InsertEnd, Ring.Upcoming, DelaySorted;
    EndOfTurns(s.ls, Ready(p), Generic(t));
  }

  function Drop(ls: Lists, x: Item): (r: Lists)
    requires ls.Valid() && DelaySorted(ls)
    ensures r.Valid() && DelaySorted(r)
    ensures r.container == ls.container - {x} && r.value == ls.value
  {
    if x in ls.container then
      RemoveKeeps(ls, x);
      RemoveKeepsSorted(ls, x);
      ls.Remove(x)
    else
      ls
  }

  /** Out of its state list and its event list, if any, and onto its ready list. */
  function MakeReady(s: Sched, priority: map<Task, nat>, t: Task): (r: Sched)
    requires Good(s, priority) && t in priority
    ensures Good(r, priority)
    ensures r.ls.container == Awake(s.ls.container, t, priority[t]) && r.ls.value == s.ls.value
  {
    AddReady(Sched(Drop(Drop(s.ls, Generic(t)), Event(t)), s.top), t, priority[t])
  }

  // ---- Wake times -----------------------------------------------------------------------

  /** Wake values in the current list are at least lo, in the overflow list below hi. */
  ghost predicate DelaysOk(ls: Lists, cur: bool, lo: nat, hi: nat) {
    && (forall t :: ls.In(Generic(t), Delayed(cur)) ==> lo <= ls.Value(Generic(t)) <= MAX_DELAY)
    && (forall t :: ls.In(Generic(t), Delayed(!cur)) ==> ls.Value(Generic(t)) < hi)
  }

  /** prvResetNextTaskUnblockTime. */
  function HeadTime(ls: Lists, cur: bool): nat {
    if ls.Items(Delayed(cur)) == [] then MAX_DELAY else ls.Value(ls.Items(Delayed(cur))[0])
  }

  /** The tasks that tick value `tick` wakes. */
  ghost function Due(ls: Lists, tasks: set<Task>, cur: bool, tick: nat): (due: set<Task>)
    ensures due <= tasks
  {
    set t | t in tasks && ls.In(Generic(t), Delayed(cur)) && ls.Value(Generic(t)) == tick
  }

  /** A delayed list holds state items of tasks only, the earliest first. */
  lemma DelayedHead(s: Sched, priority: map<Task, nat>, cur: bool)
    requires Good(s, priority)
    ensures var d := s.ls.Items(Delayed(cur));
            && (d != [] ==> d[0] == Generic(d[0].task) && d[0].task in priority && s.ls.In(d[0], Delayed(cur)))
            && (forall t :: s.ls.In(Generic(t), Delayed(cur)) ==> d != [] && s.ls.Value(d[0]) <= s.ls.Value(Generic(t)))
  {
    var d := s.ls.Items(Delayed(cur));
    assert SortedList(s.ls, Delayed(cur));
    ListFacts(s.ls, Delayed(cur));
    if d != [] {
      HeadIsLeast(s.ls, Delayed(cur));
      assert d[0] == Generic(d[0].task) || d[0] == Event(d[0].task);
    }
  }

  /** No delayed task is due before xNextTaskUnblockTime. */
  ghost predicate UnblockTimeOk(ls: Lists, cur: bool, next: nat) {
    forall t :: ls.In(Generic(t), Delayed(cur)) ==> next <= ls.Value(Generic(t))
  }

  /** The next wake value: a delayed task has it, and none a smaller one. */
  ghost predicate IsNextWake(ls: Lists, cur: bool, next: nat) {
    && UnblockTimeOk(ls, cur, next) && next <= MAX_DELAY
    && (next == MAX_DELAY || exists t :: ls.In(Generic(t), Delayed(cur)) && ls.Value(Generic(t)) == next)
  }

  lemma HeadTimeOk(s: Sched, priority: map<Task, nat>, cur: bool, lo: nat, hi: nat)
    requires Good(s, priority) && DelaysOk(s.ls, cur, lo, hi)
    ensures IsNextWake(s.ls, cur, HeadTime(s.ls, cur))
  {
    DelayedHead(s, priority, cur);
  }

  /** The loop of xTaskIncrementTick: ready the head task while its time has come. */
  function UnblockAll(s: Sched, priority: map<Task, nat>, cur: bool, tick: nat): (r: Sched)
    requires Good(s, priority) && DelaysOk(s.ls, cur, tick, tick)
    ensures Good(r, priority) && DelaysOk(r.ls, cur, tick + 1, tick)
    ensures r.ls.container == AwakeAll(s.ls.container, Due(s.ls, priority.Keys, cur, tick), priority)
    ensures r.ls.value == s.ls.value
    decreases |Due(s.ls, priority.Keys, cur, tick)|
  {
    DelayedHead(s, priority, cur);
    var d := s.ls.Items(Delayed(cur));
    if d == [] || tick < s.ls.Value(d[0]) then
      NoneDue(s, priority, cur, tick);
      s
    else
      OneDue(s, priority, cur, tick, d[0].task);
      UnblockAll(MakeReady(s, priority, d[0].task), priority, cur, tick)
  }

  lemma NoneDue(s: Sched, priority: map<Task, nat>, cur: bool, tick: nat)
    requires DelaysOk(s.ls, cur, tick, tick)
    requires forall t :: s.ls.In(Generic(t), Delayed(cur)) ==> tick < s.ls.Value(Generic(t))
    ensures DelaysOk(s.ls, cur, tick + 1, tick) && Due(s.ls, priority.Keys, cur, tick) == {}
    ensures s.ls.container == AwakeAll(s.ls.container, {}, priority)
  {
  }

  lemma OneDue(s: Sched, priority: map<Task, nat>, cur: bool, tick: nat, t: Task)
    requires Good(s, priority) && DelaysOk(s.ls, cur, tick, tick)
    requires t in priority && s.ls.In(Generic(t), Delayed(cur)) && s.ls.Value(Generic(t)) <= tick
    ensures var s', due := MakeReady(s, priority, t), Due(s.ls, priority.Keys, cur, tick);
            && DelaysOk(s'.ls, cur, tick, tick)
            && t in due && Due(s'.ls, priority.Keys, cur, tick) == due - {t}
            && AwakeAll(s'.ls.container, due - {t}, priority) == AwakeAll(s.ls.container, due, priority)
  {
    hide MakeReady, Good;
    var due := Due(s.ls, priority.Keys, cur, tick);
    AwakeOneMore(s.ls.container, due - {t}, priority, t);
    assert due - {t} + {t} == due;
  }

  // ---- True time ------------------------------------------------------------------------

  ghost predicate IsDelayed(ls: Lists, t: Task) {
    Generic(t) in ls.container && ls.container[Generic(t)].Delayed?
  }

  /** A value in the current list lies in the current epoch of the counter, one in the
      overflow list in the next. */
  ghost function WakeTime(ls: Lists, t: Task, cur: bool, epoch: nat): nat
    requires IsDelayed(ls, t)
  {
    (if ls.container[Generic(t)] == Delayed(cur) then epoch else epoch + 1) * TICKS_PER_EPOCH + ls.Value(Generic(t))
  }

  /** The blocked tasks with a timeout, by true wake time. */
  ghost function ClockOf(ls: Lists, tasks: set<Task>, cur: bool, epoch: nat, tick: nat): Clock {
    Clock(epoch * TICKS_PER_EPOCH + tick, map t | t in tasks && IsDelayed(ls, t) :: WakeTime(ls, t, cur, epoch))
  }

  lemma ClockNow(ls: Lists, tasks: set<Task>, cur: bool, epoch: nat, tick: nat)
    ensures ClockOf(ls, tasks, cur, epoch, tick).now == epoch * TICKS_PER_EPOCH + tick
  {
  }

  lemma ClockPending(ls: Lists, tasks: set<Task>, cur: bool, epoch: nat, tick: nat)
    requires DelaysOk(ls, cur, tick + 1, tick) && tick < TICKS_PER_EPOCH
    ensures Pending(ClockOf(ls, tasks, cur, epoch, tick))
  {
    var c := ClockOf(ls, tasks, cur, epoch, tick);
    forall t | t in c.wake
      ensures c.now < c.wake[t] < c.now + TICKS_PER_EPOCH
    {
      assert ls.In(Generic(t), Delayed(cur)) || ls.In(Generic(t), Delayed(!cur));
    }
  }

  /** The lists switch when the counter wraps; no wake time changes, since the list that was
      current is empty by then. */
  lemma SwitchIsQuiet(s: Sched, priority: map<Task, nat>, cur: bool, epoch: nat)
    requires Good(s, priority) && DelaysOk(s.ls, cur, TICKS_PER_EPOCH, MAX_DELAY)
    ensures s.ls.Items(Delayed(cur)) == []
    ensures DelaysOk(s.ls, !cur, 0, 0)
    ensures var tasks := priority.Keys;
            ClockOf(s.ls, tasks, !cur, epoch + 1, 0).wake == ClockOf(s.ls, tasks, cur, epoch, MAX_DELAY).wake
  {
    DelayedHead(s, priority, cur);
  }

  /** After the counter moved to `tick`, readying the due tasks completes one tick. */
  lemma UnblockIsTick(s: Sched, priority: map<Task, nat>, cur: bool, epoch: nat, tick: nat, c: Clock)
    requires Good(s, priority) && DelaysOk(s.ls, cur, tick, tick) && tick < TICKS_PER_EPOCH
    requires c.now + 1 == epoch * TICKS_PER_EPOCH + tick
    requires c.wake == ClockOf(s.ls, priority.Keys, cur, epoch, tick).wake
    ensures ClockOf(UnblockAll(s, priority, cur, tick).ls, priority.Keys, cur, epoch, tick) == Step(c, Tick)
  {
    var ls' := UnblockAll(s, priority, cur, tick).ls;
    hide UnblockAll, Good, DelaysOk;
    var wake, wake' := Step(c, Tick).wake, ClockOf(ls', priority.Keys, cur, epoch, tick).wake;
    forall t
      ensures t in wake' <==> t in wake
      ensures t in wake' ==> wake'[t] == wake[t]
    {
      if t in priority {
        UnblockedOne(s.ls, ls', priority, cur, epoch, tick, t);
      }
    }
    SameWake(wake', wake);
  }

  lemma SameWake(m: map<Task, nat>, m': map<Task, nat>)
    requires forall t :: t in m <==> t in m'
    requires forall t :: t in m ==> m[t] == m'[t]
    ensures m == m'
  {
    assert m.Keys == m'.Keys;
    assert m == m';
  }

  lemma UnblockedOne(ls: Lists, ls': Lists, priority: map<Task, nat>, cur: bool, epoch: nat, tick: nat, t: Task)
    requires t in priority && DelaysOk(ls, cur, tick, tick) && tick < TICKS_PER_EPOCH
    requires ls'.container == AwakeAll(ls.container, Due(ls, priority.Keys, cur, tick), priority)
    requires ls'.value == ls.value
    ensures IsDelayed(ls', t) <==>
              IsDelayed(ls, t) && WakeTime(ls, t, cur, epoch) != epoch * TICKS_PER_EPOCH + tick
    ensures IsDelayed(ls', t) ==> WakeTime(ls', t, cur, epoch) == WakeTime(ls, t, cur, epoch)
  {
    if IsDelayed(ls, t) {
      assert ls.In(Generic(t), Delayed(cur)) || ls.In(Generic(t), Delayed(!cur));
    }
  }

  // ---- Blocking -------------------------------------------------------------------------

  /** Which list prvAddCurrentTaskToDelayedList chooses. */
  function DelayList(wake: nat, cur: bool, tick: nat): ListId {
    Delayed(if wake < tick then !cur else cur)
  }

  /** prvAddCurrentTaskToDelayedList. */
  function Enlist(ls: Lists, t: Task, wake: nat, cur: bool, tick: nat): (r: Lists)
    requires ls.Valid() && DelaySorted(ls) && Generic(t) !in ls.container
    ensures r.Valid() && DelaySorted(r)
    ensures r.container == ls.container[Generic(t) := DelayList(wake, cur, tick)]
    ensures r.value == ls.value[Generic(t) := wake]
  {
    SetValueKeeps(ls, Generic(t), wake);
    var valued := ls.SetValue(Generic(t), wake);
    InsertKeeps(valued, DelayList(wake, cur, tick), Generic(t));
    InsertKeepsSorted(valued, DelayList(wake, cur, tick), Generic(t));
    valued.Insert(DelayList(wake, cur, tick), Generic(t))
  }

  /** uxListRemove and prvAddCurrentTaskToDelayedList. */
  function DelayTask(ls: Lists, t: Task, wake: nat, cur: bool, tick: nat): (r: Lists)
    requires ls.Valid() && DelaySorted(ls) && Generic(t) in ls.container
    ensures r.Valid() && DelaySorted(r)
    ensures r.container == ls.container[Generic(t) := DelayList(wake, cur, tick)]
    ensures r.value == ls.value[Generic(t) := wake]
  {
    Enlist(Drop(ls, Generic(t)), t, wake, cur, tick)
  }

  /** xNextTaskUnblockTime follows a new head of the current list. */
  function EarlierOf(next: nat, wake: nat, tick: nat): (r: nat)
    ensures r <= next
  {
    if tick <= wake < next then wake else next
  }

  lemma EarlierIsOk(ls: Lists, ls': Lists, t: Task, wake: nat, cur: bool, tick: nat, next: nat)
    requires UnblockTimeOk(ls, cur, next)
    requires ls'.container == ls.container[Generic(t) := DelayList(wake, cur, tick)]
    requires ls'.value == ls.value[Generic(t) := wake]
    ensures UnblockTimeOk(ls', cur, EarlierOf(next, wake, tick))
  {
  }

  /** A delay of d ticks, added in 16 bits, is a block until true time now + d. */
  lemma DelayIsBlock(ls: Lists, ls': Lists, tasks: set<Task>, t: Task, d: nat, cur: bool, epoch: nat, tick: nat, wake: nat)
    requires DelaysOk(ls, cur, tick + 1, tick) && t in tasks && !IsDelayed(ls, t)
    requires tick < TICKS_PER_EPOCH && 1 <= d < TICKS_PER_EPOCH && wake == (tick + d) % TICKS_PER_EPOCH
    requires ls'.container == ls.container[Generic(t) := DelayList(wake, cur, tick)]
    requires ls'.value == ls.value[Generic(t) := wake]
    ensures DelaysOk(ls', cur, tick + 1, tick)
    ensures ClockOf(ls', tasks, cur, epoch, tick) == Step(ClockOf(ls, tasks, cur, epoch, tick), Block(t, d))
  {
    assert wake == if tick + d < TICKS_PER_EPOCH then tick + d else tick + d - TICKS_PER_EPOCH;
    DelayedOne(ls, ls', t, wake, cur, epoch, tick);
    assert WakeTime(ls', t, cur, epoch) == epoch * TICKS_PER_EPOCH + tick + d;
    hide WakeTime, DelaysOk, DelayList;
    SameWake(ClockOf(ls', tasks, cur, epoch, tick).wake, Step(ClockOf(ls, tasks, cur, epoch, tick), Block(t, d)).wake);
  }

  lemma DelayedOne(ls: Lists, ls': Lists, t: Task, wake: nat, cur: bool, epoch: nat, tick: nat)
    requires DelaysOk(ls, cur, tick + 1, tick) && wake < TICKS_PER_EPOCH && wake != tick
    requires ls'.container == ls.container[Generic(t) := DelayList(wake, cur, tick)]
    requires ls'.value == ls.value[Generic(t) := wake]
    ensures DelaysOk(ls', cur, tick + 1, tick)
    ensures IsDelayed(ls', t)
    ensures WakeTime(ls', t, cur, epoch) == (if wake < tick then epoch + 1 else epoch) * TICKS_PER_EPOCH + wake
    ensures forall u :: u != t ==> IsDelayed(ls', u) == IsDelayed(ls, u)
    ensures forall u :: u != t && IsDelayed(ls, u) ==> WakeTime(ls', u, cur, epoch) == WakeTime(ls, u, cur, epoch)
  {
  }

  /** uxListRemove and vListInsertEnd into the suspended list. */
  function SuspendTask(ls: Lists, t: Task): (r: Lists)
    requires ls.Valid() && DelaySorted(ls) && Generic(t) in ls.container
    ensures r.Valid() && DelaySorted(r)
    ensures r.container == ls.container[Generic(t) := Suspended] && r.value == ls.value
  {
    InsertEndKeeps(Drop(ls, Generic(t)), Suspended, Generic(t));
    Drop(ls, Generic(t)).InsertEnd(Suspended, Generic(t))
  }

  lemma BlockedPlaced(s: Sched, s': Sched, priority: map<Task, nat>, t: Task)
    requires Good(s, priority) && t in priority && s'.top == s.top
    requires s'.ls.Valid() && DelaySorted(s'.ls)
    requires Generic(t) in s'.ls.container
    requires var l := s'.ls.container[Generic(t)]; l.Delayed? || l.Suspended?
    requires Event(t) in s'.ls.container ==>
               var l := s'.ls.container[Event(t)]; l.EventList? || l.PendingReady?
    requires forall x: Item :: x.task != t ==>
               (x in s'.ls.container <==> x in s.ls.container)
               && (x in s.ls.container ==> s'.ls.container[x] == s.ls.container[x])
    ensures Good(s', priority)
  {
  }

  // ---- Leaving the blocked state early ------------------------------------------------------

  /** The tasks ts are no longer delayed, all others stay as they were. */
  ghost predicate OnlyLeft(ls: Lists, ls': Lists, ts: set<Task>) {
    && (forall t :: IsDelayed(ls', t) <==> IsDelayed(ls, t) && t !in ts)
    && (forall t :: IsDelayed(ls', t) ==>
          ls'.container[Generic(t)] == ls.container[Generic(t)] && ls'.Value(Generic(t)) == ls.Value(Generic(t)))
  }

  lemma LeavingIsUnblock(ls: Lists, ls': Lists, tasks: set<Task>, ts: set<Task>, cur: bool, epoch: nat, tick: nat, next: nat)
    requires OnlyLeft(ls, ls', ts)
    ensures ClockOf(ls', tasks, cur, epoch, tick) == Step(ClockOf(ls, tasks, cur, epoch, tick), Unblock(ts))
    ensures ts == {} ==> ClockOf(ls', tasks, cur, epoch, tick) == ClockOf(ls, tasks, cur, epoch, tick)
    ensures forall lo, hi :: DelaysOk(ls, cur, lo, hi) ==> DelaysOk(ls', cur, lo, hi)
    ensures UnblockTimeOk(ls, cur, next) ==> UnblockTimeOk(ls', cur, next)
  {
    var c, c' := ClockOf(ls, tasks, cur, epoch, tick), ClockOf(ls', tasks, cur, epoch, tick);
    SameWake(c'.wake, Step(c, Unblock(ts)).wake);
    if ts == {} {
      SameWake(c'.wake, c.wake);
    }
    forall t | ls'.In(Generic(t), Delayed(cur)) || ls'.In(Generic(t), Delayed(!cur))
      ensures IsDelayed(ls', t)
    {
    }
  }

  /** The tasks whose event came while the scheduler was suspended. */
  ghost function Pended(ls: Lists, tasks: set<Task>): (ts: set<Task>)
    ensures ts <= tasks
  {
    set t | t in tasks && ls.In(Event(t), PendingReady)
  }

  lemma PendedHead(s: Sched, priority: map<Task, nat>)
    requires Good(s, priority)
    ensures var d := s.ls.Items(PendingReady);
            && (d != [] ==> d[0] == Event(d[0].task) && d[0].task in Pended(s.ls, priority.Keys))
            && (d == [] ==> forall x :: !s.ls.In(x, PendingReady))
  {
    var d := s.ls.Items(PendingReady);
    ListFacts(s.ls, PendingReady);
    if d != [] {
      assert d[0] in d;
      assert d[0] == Generic(d[0].task) || d[0] == Event(d[0].task);
    }
  }

  /** The first loop of xTaskResumeAll. */
  function DrainPending(s: Sched, priority: map<Task, nat>): (r: Sched)
    requires Good(s, priority)
    ensures Good(r, priority) && forall x :: !r.ls.In(x, PendingReady)
    ensures r.ls.container == AwakeAll(s.ls.container, Pended(s.ls, priority.Keys), priority)
    ensures r.ls.value == s.ls.value
    decreases |Pended(s.ls, priority.Keys)|
  {
    PendedHead(s, priority);
    var d := s.ls.Items(PendingReady);
    if d == [] then
      assert Pended(s.ls, priority.Keys) == {};
      assert AwakeAll(s.ls.container, {}, priority) == s.ls.container;
      s
    else
      OnePended(s, priority, d[0].task);
      DrainPending(MakeReady(s, priority, d[0].task), priority)
  }

  lemma OnePended(s: Sched, priority: map<Task, nat>, t: Task)
    requires Good(s, priority) && t in Pended(s.ls, priority.Keys)
    ensures var s', ts := MakeReady(s, priority, t), Pended(s.ls, priority.Keys);
            && Pended(s'.ls, priority.Keys) == ts - {t}
            && AwakeAll(s'.ls.container, ts - {t}, priority) == AwakeAll(s.ls.container, ts, priority)
  {
    assert Generic(t) in s.ls.container;
    hide MakeReady, Good;
    var ts := Pended(s.ls, priority.Keys);
    AwakeOneMore(s.ls.container, ts - {t}, priority, t);
    assert ts - {t} + {t} == ts;
  }

  lemma AwakeLeaves(ls: Lists, ls': Lists, priority: map<Task, nat>, ts: set<Task>)
    requires ts <= priority.Keys && ls'.value == ls.value
    requires ls'.container == AwakeAll(ls.container, ts, priority)
    ensures OnlyLeft(ls, ls', ts)
  {
  }

  // ---- Who is moved -------------------------------------------------------------------------

  ghost predicate SameList(ls: Lists, ls': Lists, x: Item) {
    (x in ls'.container <==> x in ls.container) && (x in ls.container ==> ls'.container[x] == ls.container[x])
  }

  /** Task t is in the same lists as before. */
  ghost predicate SameLists(ls: Lists, ls': Lists, t: Task) {
    && SameList(ls, ls', Generic(t))
    && SameList(ls, ls', Event(t))
  }

  /** Tasks may have become ready, and left their event lists; all others are where they were,
      and so are all that were neither delayed nor in ts. */
  ghost predicate OnlyWoken(ls: Lists, ls': Lists, priority: map<Task, nat>, ts: set<Task>) {
    && ls'.value == ls.value
    && (forall t :: t in priority ==>
          SameLists(ls, ls', t) || (ls'.In(Generic(t), Ready(priority[t])) && Event(t) !in ls'.container))
    && (forall t :: t in priority && t !in ts && !IsDelayed(ls, t) ==> SameLists(ls, ls', t))
  }

  lemma AwakeLists(ls: Lists, ls': Lists, t: Task, p: nat)
    requires ls'.container == Awake(ls.container, t, p)
    ensures ls'.In(Generic(t), Ready(p)) && Event(t) !in ls'.container
    ensures forall u :: u != t ==> SameList(ls, ls', Event(u))
  {
  }

  lemma SameOnlyWoken(ls: Lists, priority: map<Task, nat>, ts: set<Task>)
    ensures OnlyWoken(ls, ls, priority, ts)
  {
  }

  lemma OnlyWokenOn(a: Lists, b: Lists, c: Lists, priority: map<Task, nat>, ts: set<Task>)
    requires OnlyWoken(a, b, priority, ts) && OnlyWoken(b, c, priority, {})
    ensures OnlyWoken(a, c, priority, ts)
  {
    forall t | t in priority
      ensures SameLists(a, c, t) || (c.In(Generic(t), Ready(priority[t])) && Event(t) !in c.container)
      ensures t !in ts && !IsDelayed(a, t) ==> SameLists(a, c, t)
    {
      OneWokenOn(a, b, c, priority, t);
    }
  }

  lemma OneWokenOn(a: Lists, b: Lists, c: Lists, priority: map<Task, nat>, t: Task)
    requires t in priority && OnlyWoken(b, c, priority, {})
    requires SameLists(a, b, t) || (b.In(Generic(t), Ready(priority[t])) && Event(t) !in b.container)
    ensures SameLists(a, c, t) || (c.In(Generic(t), Ready(priority[t])) && Event(t) !in c.container)
    ensures SameLists(a, b, t) && !IsDelayed(a, t) ==> SameLists(a, c, t)
  {
  }

  lemma AwakeOnlyWoken(ls: Lists, ls': Lists, priority: map<Task, nat>, woken: set<Task>, ts: set<Task>)
    requires woken <= priority.Keys && ls'.container == AwakeAll(ls.container, woken, priority) && ls'.value == ls.value
    requires forall t :: t in priority ==> Generic(t) in ls.container
    requires forall t :: t in woken ==> t in ts || IsDelayed(ls, t)
    ensures OnlyWoken(ls, ls', priority, ts)
  {
    forall t | t in priority
      ensures if t in woken then ls'.In(Generic(t), Ready(priority[t])) && Event(t) !in ls'.container else SameLists(ls, ls', t)
    {
    }
  }

  lemma TickOnlyWoken(s: Sched, priority: map<Task, nat>, cur: bool, tick: nat)
    requires Good(s, priority) && DelaysOk(s.ls, cur, tick, tick)
    ensures OnlyWoken(s.ls, UnblockAll(s, priority, cur, tick).ls, priority, {})
  {
    hide UnblockAll, DelaysOk, Lists.Valid, DelaySorted;
    AwakeOnlyWoken(s.ls, UnblockAll(s, priority, cur, tick).ls, priority, Due(s.ls, priority.Keys, cur, tick), {});
  }

  lemma DrainOnlyWoken(s: Sched, priority: map<Task, nat>)
    requires Good(s, priority)
    ensures OnlyWoken(s.ls, DrainPending(s, priority).ls, priority, Pended(s.ls, priority.Keys))
  {
    hide DrainPending, Lists.Valid, DelaySorted, Pended;
    AwakeOnlyWoken(s.ls, DrainPending(s, priority).ls, priority, Pended(s.ls, priority.Keys), Pended(s.ls, priority.Keys));
  }

  /** A task that is not pended stays ready. */
  lemma WokenStaysReady(s: Sched, ls': Lists, priority: map<Task, nat>, t: Task)
    requires Good(s, priority) && t in priority && s.ls.In(Generic(t), Ready(priority[t]))
    requires OnlyWoken(s.ls, ls', priority, Pended(s.ls, priority.Keys))
    ensures ls'.In(Generic(t), Ready(priority[t]))
  {
  }

  /** Some task of ts has priority p or higher. */
  ghost predicate SomeAtLeast(ts: set<Task>, priority: map<Task, nat>, p: nat)
    requires ts <= priority.Keys
  {
    exists t :: t in ts && priority[t] >= p
  }

  lemma AtLeastSplit(ts: set<Task>, t: Task, priority: map<Task, nat>, p: nat)
    requires ts <= priority.Keys && t in ts
    ensures SomeAtLeast(ts, priority, p) <==> SomeAtLeast(ts - {t}, priority, p) || priority[t] >= p
  {
    if SomeAtLeast(ts, priority, p) && priority[t] < p {
      var u :| u in ts && priority[u] >= p;
      assert u in ts - {t};
    }
  }

  /** The due tasks have priority p or higher somewhere. */
  ghost predicate DueAtLeast(ls: Lists, priority: map<Task, nat>, cur: bool, tick: nat, p: nat) {
    SomeAtLeast(Due(ls, priority.Keys, cur, tick), priority, p)
  }

  ghost function DueCount(ls: Lists, priority: map<Task, nat>, cur: bool, tick: nat): nat {
    |Due(ls, priority.Keys, cur, tick)|
  }

  /** Part of the due tasks of `was` are ready by now; switched says whether one of them has
      priority p or higher. */
  ghost predicate Unblocking(s: Sched, was: Sched, priority: map<Task, nat>, cur: bool, tick: nat, p: nat, switched: bool) {
    && Good(s, priority) && DelaysOk(s.ls, cur, tick, tick)
    && Good(was, priority) && DelaysOk(was.ls, cur, tick, tick)
    && UnblockAll(s, priority, cur, tick) == UnblockAll(was, priority, cur, tick)
    && (DueAtLeast(was.ls, priority, cur, tick, p) <==> switched || DueAtLeast(s.ls, priority, cur, tick, p))
  }

  predicate HeadDue(ls: Lists, cur: bool, tick: nat) {
    ls.Items(Delayed(cur)) != [] && HeadTime(ls, cur) <= tick
  }

  lemma UnblockStart(s: Sched, priority: map<Task, nat>, cur: bool, tick: nat, p: nat)
    requires Good(s, priority) && DelaysOk(s.ls, cur, tick, tick)
    ensures Unblocking(s, s, priority, cur, tick, p, false)
  {
  }

  lemma UnblockNone(s: Sched, was: Sched, priority: map<Task, nat>, cur: bool, tick: nat, p: nat, switched: bool)
    requires Unblocking(s, was, priority, cur, tick, p, switched) && !HeadDue(s.ls, cur, tick)
    ensures s == UnblockAll(was, priority, cur, tick)
    ensures switched == DueAtLeast(was.ls, priority, cur, tick, p)
  {
    DelayedHead(s, priority, cur);
    NoneDue(s, priority, cur, tick);
  }

  lemma UnblockOne(s: Sched, was: Sched, priority: map<Task, nat>, cur: bool, tick: nat, p: nat, switched: bool)
    requires Unblocking(s, was, priority, cur, tick, p, switched) && HeadDue(s.ls, cur, tick)
    ensures var t := s.ls.Items(Delayed(cur))[0].task;
            && t in priority && Good(s, priority)
            && var s' := MakeReady(s, priority, t);
               && Unblocking(s', was, priority, cur, tick, p, switched || priority[t] >= p)
               && DueCount(s'.ls, priority, cur, tick) < DueCount(s.ls, priority, cur, tick)
  {
    DelayedHead(s, priority, cur);
    var t := s.ls.Items(Delayed(cur))[0].task;
    OneDue(s, priority, cur, tick, t);
    hide Good, Due, DelaysOk, MakeReady;
    assert UnblockAll(MakeReady(s, priority, t), priority, cur, tick) == UnblockAll(s, priority, cur, tick);
    hide UnblockAll;
    FewerDue(s.ls, MakeReady(s, priority, t).ls, priority, cur, tick, t, p);
    hide DueAtLeast, DueCount;
  }

  lemma FewerDue(ls: Lists, ls': Lists, priority: map<Task, nat>, cur: bool, tick: nat, t: Task, p: nat)
    requires t in Due(ls, priority.Keys, cur, tick)
    requires Due(ls', priority.Keys, cur, tick) == Due(ls, priority.Keys, cur, tick) - {t}
    ensures DueAtLeast(ls, priority, cur, tick, p) <==> DueAtLeast(ls', priority, cur, tick, p) || priority[t] >= p
    ensures DueCount(ls', priority, cur, tick) < DueCount(ls, priority, cur, tick)
  {
    hide Due;
    AtLeastSplit(Due(ls, priority.Keys, cur, tick), t, priority, p);
  }

  /** One step of the counter within an epoch. */
  lemma WithinEpoch(ls: Lists, tasks: set<Task>, cur: bool, epoch: nat, tick: nat)
    requires DelaysOk(ls, cur, tick + 1, tick)
    ensures DelaysOk(ls, cur, tick + 1, tick + 1)
    ensures ClockOf(ls, tasks, cur, epoch, tick + 1).wake == ClockOf(ls, tasks, cur, epoch, tick).wake
  {
  }

  /** A tick below xNextTaskUnblockTime wakes nobody. */
  lemma NothingDue(s: Sched, priority: map<Task, nat>, cur: bool, tick: nat, p: nat, next: nat)
    requires Good(s, priority) && DelaysOk(s.ls, cur, tick, tick) && UnblockTimeOk(s.ls, cur, next) && tick < next
    ensures UnblockAll(s, priority, cur, tick) == s
    ensures !DueAtLeast(s.ls, priority, cur, tick, p)
  {
    DelayedHead(s, priority, cur);
    NoneDue(s, priority, cur, tick);
  }

  lemma StillReady(ls: Lists, ls': Lists, ts: set<Task>, priority: map<Task, nat>, t: Task)
    requires ts <= priority.Keys && t in priority && ls.In(Generic(t), Ready(priority[t]))
    requires ls'.container == AwakeAll(ls.container, ts, priority)
    ensures ls'.In(Generic(t), Ready(priority[t]))
  {
  }

  // ---- Resuming and switching ---------------------------------------------------------------

  ghost predicate NonePended(ls: Lists) {
    forall x :: !ls.In(x, PendingReady)
  }

  lemma StillNonePended(ls: Lists, ls': Lists, ts: set<Task>, priority: map<Task, nat>)
    requires ts <= priority.Keys && NonePended(ls)
    requires ls'.container == AwakeAll(ls.container, ts, priority)
    ensures NonePended(ls')
  {
    forall x
      ensures !ls'.In(x, PendingReady)
    {
      assert !ls.In(x, PendingReady);
    }
  }

  ghost predicate PendedAtLeast(ls: Lists, priority: map<Task, nat>, p: nat) {
    SomeAtLeast(Pended(ls, priority.Keys), priority, p)
  }

  /** A task of priority p or higher has become ready. */
  ghost predicate NewlyReady(ls: Lists, ls': Lists, priority: map<Task, nat>, p: nat) {
    exists t :: t in priority && priority[t] >= p
                && !ls.In(Generic(t), Ready(priority[t])) && ls'.In(Generic(t), Ready(priority[t]))
  }

  lemma AwakeNewlyReady(ls: Lists, ls': Lists, ts: set<Task>, priority: map<Task, nat>, p: nat)
    requires ts <= priority.Keys && ls'.container == AwakeAll(ls.container, ts, priority)
    requires forall t :: t in ts ==> Generic(t) in ls.container && !ls.container[Generic(t)].Ready?
    ensures SomeAtLeast(ts, priority, p) <==> NewlyReady(ls, ls', priority, p)
  {
    if SomeAtLeast(ts, priority, p) {
      var t :| t in ts && priority[t] >= p;
      assert ls'.In(Generic(t), Ready(priority[t])) && !ls.In(Generic(t), Ready(priority[t]));
    }
  }

  lemma DrainedNewlyReady(s: Sched, priority: map<Task, nat>, p: nat)
    requires Good(s, priority)
    ensures PendedAtLeast(s.ls, priority, p) <==> NewlyReady(s.ls, DrainPending(s, priority).ls, priority, p)
  {
    hide DrainPending, Lists.Valid, DelaySorted, NewlyReady, SomeAtLeast;
    AwakeNewlyReady(s.ls, DrainPending(s, priority).ls, Pended(s.ls, priority.Keys), priority, p);
  }

  lemma TickNewlyReady(s: Sched, priority: map<Task, nat>, cur: bool, tick: nat, p: nat)
    requires Good(s, priority) && DelaysOk(s.ls, cur, tick, tick)
    ensures DueAtLeast(s.ls, priority, cur, tick, p) <==> NewlyReady(s.ls, UnblockAll(s, priority, cur, tick).ls, priority, p)
  {
    hide UnblockAll, DelaysOk, Lists.Valid, DelaySorted, NewlyReady, SomeAtLeast, Placed;
    AwakeNewlyReady(s.ls, UnblockAll(s, priority, cur, tick).ls, Due(s.ls, priority.Keys, cur, tick), priority, p);
  }

  /** What has become ready in two turns has become so in the first or in the second. */
  lemma NewlyReadyOn(a: Lists, b: Lists, c: Lists, priority: map<Task, nat>, p: nat)
    requires OnlyWoken(b, c, priority, {})
    requires forall t :: t in priority && a.In(Generic(t), Ready(priority[t])) ==> b.In(Generic(t), Ready(priority[t]))
    ensures NewlyReady(a, c, priority, p) <==> NewlyReady(a, b, priority, p) || NewlyReady(b, c, priority, p)
  {
    if NewlyReady(a, b, priority, p) {
      var t :| t in priority && priority[t] >= p
               && !a.In(Generic(t), Ready(priority[t])) && b.In(Generic(t), Ready(priority[t]));
      assert c.In(Generic(t), Ready(priority[t]));
    }
  }

  lemma NoneNewlyReady(ls: Lists, priority: map<Task, nat>, p: nat)
    ensures !NewlyReady(ls, ls, priority, p)
  {
  }

  lemma ReadyStays(ls: Lists, ls': Lists, priority: map<Task, nat>)
    requires OnlyWoken(ls, ls', priority, {})
    ensures forall t :: t in priority && ls.In(Generic(t), Ready(priority[t])) ==> ls'.In(Generic(t), Ready(priority[t]))
  {
  }

  /** Draining the pending list and replaying the ticks, taken together. */
  lemma DrainThenReplay(s: Sched, drained: Lists, ls: Lists, priority: map<Task, nat>, p: nat)
    requires Good(s, priority) && drained == DrainPending(s, priority).ls
    requires OnlyWoken(drained, ls, priority, {}) && NonePended(ls)
    ensures OnlyWoken(s.ls, ls, priority, Pended(s.ls, priority.Keys))
    ensures NewlyReady(s.ls, ls, priority, p) <==> NewlyReady(s.ls, drained, priority, p) || NewlyReady(drained, ls, priority, p)
    ensures forall t :: t in priority && s.ls.In(Generic(t), Ready(priority[t])) ==> ls.In(Generic(t), Ready(priority[t]))
    ensures forall t :: t in priority && s.ls.In(Event(t), PendingReady) ==>
              ls.In(Generic(t), Ready(priority[t])) && Event(t) !in ls.container
  {
    hide Good, DrainPending, OnlyWoken, NewlyReady, NonePended, Lists.In, Pended;
    var ts := Pended(s.ls, priority.Keys);
    DrainOnlyWoken(s, priority);
    OnlyWokenOn(s.ls, drained, ls, priority, ts);
    forall t | t in priority && s.ls.In(Generic(t), Ready(priority[t]))
      ensures drained.In(Generic(t), Ready(priority[t])) && ls.In(Generic(t), Ready(priority[t]))
    {
      WokenStaysReady(s, drained, priority, t);
      WokenStaysReady(s, ls, priority, t);
    }
    NewlyReadyOn(s.ls, drained, ls, priority, p);
    PendedReady(s.ls, ls, priority);
  }

  lemma PendedReady(was: Lists, ls: Lists, priority: map<Task, nat>)
    requires OnlyWoken(was, ls, priority, Pended(was, priority.Keys)) && NonePended(ls)
    ensures forall t :: t in priority && was.In(Event(t), PendingReady) ==>
              ls.In(Generic(t), Ready(priority[t])) && Event(t) !in ls.container
  {
    forall t | t in priority && was.In(Event(t), PendingReady)
      ensures ls.In(Generic(t), Ready(priority[t])) && Event(t) !in ls.container
    {
      assert !ls.In(Event(t), PendingReady);
    }
  }

  ghost function PendedCount(ls: Lists, priority: map<Task, nat>): nat {
    |Pended(ls, priority.Keys)|
  }

  /** Part of the tasks pended in `was` are ready by now; yielding says whether one of them has
      priority p or higher, or a yield was pending from the start. */
  ghost predicate Draining(s: Sched, was: Sched, priority: map<Task, nat>, p: nat, yielded: bool, yielding: bool) {
    && Good(s, priority) && Good(was, priority)
    && DrainPending(s, priority) == DrainPending(was, priority)
    && (yielded || PendedAtLeast(was.ls, priority, p) <==> yielding || PendedAtLeast(s.ls, priority, p))
  }

  lemma DrainStart(s: Sched, priority: map<Task, nat>, p: nat, yielding: bool)
    requires Good(s, priority)
    ensures Draining(s, s, priority, p, yielding, yielding)
  {
  }

  lemma DrainNone(s: Sched, was: Sched, priority: map<Task, nat>, p: nat, yielded: bool, yielding: bool)
    requires Draining(s, was, priority, p, yielded, yielding) && s.ls.Items(PendingReady) == []
    ensures s == DrainPending(was, priority) && NonePended(s.ls)
    ensures yielding <==> yielded || PendedAtLeast(was.ls, priority, p)
  {
    PendedHead(s, priority);
  }

  lemma DrainOne(s: Sched, was: Sched, priority: map<Task, nat>, p: nat, yielded: bool, yielding: bool)
    requires Draining(s, was, priority, p, yielded, yielding) && s.ls.Items(PendingReady) != []
    ensures var t := s.ls.Items(PendingReady)[0].task;
            && t in priority && Event(t) in s.ls.container && Generic(t) in s.ls.container && Good(s, priority)
            && var s' := MakeReady(s, priority, t);
               && Draining(s', was, priority, p, yielded, yielding || priority[t] >= p)
               && PendedCount(s'.ls, priority) < PendedCount(s.ls, priority)
  {
    PendedHead(s, priority);
    var t := s.ls.Items(PendingReady)[0].task;
    OnePended(s, priority, t);
    assert Generic(t) in s.ls.container;
    hide Good, Pended, MakeReady;
    assert DrainPending(MakeReady(s, priority, t), priority) == DrainPending(s, priority);
    hide DrainPending;
    AtLeastSplit(Pended(s.ls, priority.Keys), t, priority, p);
  }

  /** The two removals of the drain loop come in the other order. */
  lemma DropsCommute(ls: Lists, t: Task)
    requires ls.Valid() && DelaySorted(ls)
    requires Generic(t) in ls.container && Event(t) in ls.container
    requires ls.container[Generic(t)] != ls.container[Event(t)]
    ensures Drop(Drop(ls, Event(t)), Generic(t)) == Drop(Drop(ls, Generic(t)), Event(t))
  {
    hide DelaySorted;
    var l, m := ls.container[Generic(t)], ls.container[Event(t)];
    var a, b := Drop(Drop(ls, Event(t)), Generic(t)), Drop(Drop(ls, Generic(t)), Event(t));
    ListFacts(ls, l);
    ListFacts(ls, m);
    assert ls.In(Generic(t), l) && ls.In(Event(t), m);
    assert l in ls.rings && m in ls.rings;
    assert a.rings == b.rings;
  }

  /** uxTopReadyPriority goes down past an empty ready list. */
  lemma LowerTop(s: Sched, priority: map<Task, nat>, idle: Task)
    requires Good(s, priority) && idle in priority && s.ls.In(Generic(idle), Ready(priority[idle]))
    requires s.ls.Items(Ready(s.top)) == []
    ensures s.top > 0 && Good(Sched(s.ls, s.top - 1), priority)
  {
    ListFacts(s.ls, Ready(s.top));
    assert forall t :: !s.ls.In(Generic(t), Ready(s.top));
  }

  /** The highest non-empty ready list gives its next task. */
  lemma NextIsHighest(s: Sched, priority: map<Task, nat>)
    requires Good(s, priority) && s.ls.Items(Ready(s.top)) != []
    ensures var l := Ready(s.top);
            && s.ls.Valid()
            && var ls' := s.ls.Next(l);
            && s.ls.Valid() && ls'.At(l).Valid() && ls'.At(l).index > 0
            && var t := ls'.At(l).Current().task;
            && s.ls.Valid() && s.ls.At(l).Valid() && Good(Sched(ls', s.top), priority)
            && ls'.container == s.ls.container && ls'.value == s.ls.value
            && t in priority && priority[t] == s.top && ls'.In(Generic(t), l)
            && Generic(t) == s.ls.At(l).Upcoming()[0]
            && forall u :: u in priority && ls'.In(Generic(u), Ready(priority[u])) ==> priority[u] <= s.top
  {
    var l := Ready(s.top);
    NextKeeps(s.ls, l);
    ListFacts(s.ls, l);
    NextRotates(s.ls.At(l));
    var x := s.ls.At(l).Next().Current();
    assert x in s.ls.Items(l) && s.ls.In(x, l);
    assert x == Generic(x.task) || x == Event(x.task);
  }

  lemma AfterDrain(s: Sched, s': Sched, priority: map<Task, nat>, idle: Task)
    requires Good(s, priority) && s' == DrainPending(s, priority)
    requires idle in priority && s.ls.In(Generic(idle), Ready(priority[idle]))
    ensures Good(s', priority) && s'.ls.In(Generic(idle), Ready(priority[idle]))
    ensures OnlyLeft(s.ls, s'.ls, Pended(s.ls, priority.Keys))
  {
    var ts := Pended(s.ls, priority.Keys);
    StillReady(s.ls, s'.ls, ts, priority, idle);
    AwakeLeaves(s.ls, s'.ls, priority, ts);
  }

  lemma OnlyTheIndexMoved(ls: Lists, ls': Lists, tasks: set<Task>, cur: bool, epoch: nat, tick: nat, next: nat)
    requires ls'.container == ls.container && ls'.value == ls.value
    ensures ClockOf(ls', tasks, cur, epoch, tick) == ClockOf(ls, tasks, cur, epoch, tick)
    ensures forall lo, hi :: DelaysOk(ls, cur, lo, hi) ==> DelaysOk(ls', cur, lo, hi)
    ensures UnblockTimeOk(ls, cur, next) ==> UnblockTimeOk(ls', cur, next)
    ensures NonePended(ls) ==> NonePended(ls')
  {
    LeavingIsUnblock(ls, ls', tasks, {}, cur, epoch, tick, next);
    assert forall x :: ls'.In(x, PendingReady) <==> ls.In(x, PendingReady);
  }

  // ---- Blocking the running task --------------------------------------------------------

  /** ls' differs from ls at most in task t waiting for an event. */
  ghost predicate JoinsEvent(ls: Lists, ls': Lists, t: Task) {
    && ls'.Valid() && DelaySorted(ls')
    && (forall x :: x != Event(t) ==> (x in ls'.container <==> x in ls.container))
    && (forall x :: x != Event(t) && x in ls.container ==> ls'.container[x] == ls.container[x])
    && (Event(t) in ls'.container ==> ls'.container[Event(t)].EventList?)
    && (forall u :: ls'.Value(Generic(u)) == ls.Value(Generic(u)))
  }

  /** Task t runs: it is in its ready list, and so is the idle task, which is another one. */
  ghost predicate Runs(s: Sched, priority: map<Task, nat>, t: Task, idle: Task) {
    && Good(s, priority) && t in priority && s.ls.In(Generic(t), Ready(priority[t]))
    && idle in priority && idle != t && s.ls.In(Generic(idle), Ready(priority[idle]))
  }

  lemma JoinsFacts(s: Sched, ls': Lists, priority: map<Task, nat>, t: Task, idle: Task)
    requires Runs(s, priority, t, idle) && JoinsEvent(s.ls, ls', t)
    ensures OnlyLeft(s.ls, ls', {}) && Generic(t) in ls'.container && !IsDelayed(ls', t)
  {
    assert Generic(t) in s.ls.container;
  }

  lemma RunningFacts(s: Sched, priority: map<Task, nat>, t: Task, idle: Task)
    requires Runs(s, priority, t, idle)
    ensures s.ls.Valid() && DelaySorted(s.ls) && Generic(t) in s.ls.container && Event(t) !in s.ls.container
    ensures JoinsEvent(s.ls, s.ls, t)
  {
    assert Generic(t) in s.ls.container;
  }

  lemma BlocksWell(s: Sched, ls1: Lists, ls': Lists, priority: map<Task, nat>, t: Task, idle: Task, l: ListId)
    requires Runs(s, priority, t, idle) && JoinsEvent(s.ls, ls1, t)
    requires ls'.Valid() && DelaySorted(ls') && (l.Delayed? || l.Suspended?)
    requires ls'.container == ls1.container[Generic(t) := l]
    ensures Good(Sched(ls', s.top), priority)
    ensures ls'.In(Generic(idle), Ready(priority[idle]))
    ensures NonePended(s.ls) ==> NonePended(ls')
  {
    BlockedPlaced(s, Sched(ls', s.top), priority, t);
    forall x | NonePended(s.ls)
      ensures !ls'.In(x, PendingReady)
    {
      assert !s.ls.In(x, PendingReady);
    }
  }

  /** Blocking with a timeout of d ticks. */
  lemma BlocksFor(s: Sched, ls1: Lists, ls': Lists, priority: map<Task, nat>, t: Task, idle: Task, d: nat,
                  cur: bool, epoch: nat, tick: nat, next: nat, wake: nat)
    requires Runs(s, priority, t, idle) && JoinsEvent(s.ls, ls1, t)
    requires DelaysOk(s.ls, cur, tick + 1, tick) && UnblockTimeOk(s.ls, cur, next)
    requires tick < TICKS_PER_EPOCH && 1 <= d < TICKS_PER_EPOCH && wake == (tick + d) % TICKS_PER_EPOCH
    requires Generic(t) in ls1.container ==> ls' == DelayTask(ls1, t, wake, cur, tick)
    ensures Good(Sched(ls', s.top), priority) && ls'.In(Generic(idle), Ready(priority[idle]))
    ensures NonePended(s.ls) ==> NonePended(ls')
    ensures DelaysOk(ls', cur, tick + 1, tick) && UnblockTimeOk(ls', cur, EarlierOf(next, wake, tick))
    ensures ClockOf(ls', priority.Keys, cur, epoch, tick)
            == Step(ClockOf(s.ls, priority.Keys, cur, epoch, tick), Block(t, d))
  {
    hide DelayTask, OnlyLeft, ClockOf, IsDelayed, Good, JoinsEvent, DelaysOk, UnblockTimeOk, NonePended, Lists.In;
    JoinsFacts(s, ls1, priority, t, idle);
    JoinedValid(s.ls, ls1, t);
    LeavingIsUnblock(s.ls, ls1, priority.Keys, {}, cur, epoch, tick, next);
    DelayIsBlock(ls1, ls', priority.Keys, t, d, cur, epoch, tick, wake);
    EarlierIsOk(ls1, ls', t, wake, cur, tick, next);
    BlocksWell(s, ls1, ls', priority, t, idle, DelayList(wake, cur, tick));
  }

  lemma JoinedValid(ls: Lists, ls': Lists, t: Task)
    requires JoinsEvent(ls, ls', t)
    ensures ls'.Valid() && DelaySorted(ls')
  {
  }

  lemma SuspendsQuietly(ls: Lists, ls1: Lists, ls': Lists, t: Task)
    requires OnlyLeft(ls, ls1, {}) && !IsDelayed(ls1, t)
    requires ls'.container == ls1.container[Generic(t) := Suspended] && ls'.value == ls1.value
    ensures OnlyLeft(ls, ls', {})
  {
  }

  /** Blocking without a timeout. */
  lemma BlocksForGood(s: Sched, ls1: Lists, ls': Lists, priority: map<Task, nat>, t: Task, idle: Task,
                      cur: bool, epoch: nat, tick: nat, next: nat)
    requires Runs(s, priority, t, idle) && JoinsEvent(s.ls, ls1, t)
    requires DelaysOk(s.ls, cur, tick + 1, tick) && UnblockTimeOk(s.ls, cur, next)
    requires Generic(t) in ls1.container ==> ls' == SuspendTask(ls1, t)
    ensures Good(Sched(ls', s.top), priority) && ls'.In(Generic(idle), Ready(priority[idle]))
    ensures NonePended(s.ls) ==> NonePended(ls')
    ensures DelaysOk(ls', cur, tick + 1, tick) && UnblockTimeOk(ls', cur, next)
    ensures ClockOf(ls', priority.Keys, cur, epoch, tick) == ClockOf(s.ls, priority.Keys, cur, epoch, tick)
  {
    hide SuspendTask, OnlyLeft, ClockOf, IsDelayed, Good, JoinsEvent, DelaysOk, UnblockTimeOk, NonePended, Lists.In;
    JoinsFacts(s, ls1, priority, t, idle);
    JoinedValid(s.ls, ls1, t);
    SuspendsQuietly(s.ls, ls1, ls', t);
    LeavingIsUnblock(s.ls, ls', priority.Keys, {}, cur, epoch, tick, next);
    BlocksWell(s, ls1, ls', priority, t, idle, Suspended);
  }

  /** Task t put into an event list; the value of its event item is its own affair. */
  lemma EnqueuedJoins(ls: Lists, ls': Lists, t: Task, q: int)
    requires ls'.Valid() && DelaySorted(ls')
    requires ls'.container == ls.container[Event(t) := EventList(q)]
    requires forall x :: x != Event(t) ==> ls'.Value(x) == ls.Value(x)
    ensures JoinsEvent(ls, ls', t)
  {
  }

  /** The test of vTaskDelayUntil, in 16 bits. */
  predicate ShouldDelay(prev: nat, wake: nat, tick: nat) {
    if tick < prev then wake < prev && wake > tick else wake < prev || wake > tick
  }

  /** It decides rightly whenever less than a full counter period has passed since the
      previous wake time, and the delay that follows ends at the intended time. */
  lemma DelayUntilIsExact(prevTime: nat, inc: nat, epoch: nat, tick: nat, wake: nat)
    requires tick < TICKS_PER_EPOCH && inc < TICKS_PER_EPOCH
    requires wake == (prevTime % TICKS_PER_EPOCH + inc) % TICKS_PER_EPOCH
    ensures var now, prev := epoch * TICKS_PER_EPOCH + tick, prevTime % TICKS_PER_EPOCH;
            prevTime <= now < prevTime + TICKS_PER_EPOCH ==>
              && wake == (prevTime + inc) % TICKS_PER_EPOCH
              && (ShouldDelay(prev, wake, tick) <==> prevTime + inc > now)
              && (ShouldDelay(prev, wake, tick) ==> (wake - tick) % TICKS_PER_EPOCH == prevTime + inc - now)
  {
    var a := prevTime / TICKS_PER_EPOCH;
    if prevTime <= epoch * TICKS_PER_EPOCH + tick < prevTime + TICKS_PER_EPOCH {
      assert epoch == a || epoch == a + 1;
    }
  }

  // ---- Suspending, resuming and deleting ----------------------------------------------------

  /** Out of the state list and any event list, to the end of list l. */
  function ParkTask(ls: Lists, t: Task, l: ListId): (r: Lists)
    requires ls.Valid() && DelaySorted(ls) && !l.Delayed?
    ensures r.Valid() && DelaySorted(r)
    ensures r.container == (ls.container - {Event(t)})[Generic(t) := l] && r.value == ls.value
  {
    var out := Drop(Drop(ls, Generic(t)), Event(t));
    InsertEndKeeps(out, l, Generic(t));
    out.InsertEnd(l, Generic(t))
  }

  /** Task t moved to the suspended or termination list, and out of any event list. */
  lemma ParksWell(s: Sched, ls': Lists, priority: map<Task, nat>, t: Task, idle: Task, l: ListId)
    requires Good(s, priority) && t in priority && t != idle
    requires idle in priority && s.ls.In(Generic(idle), Ready(priority[idle]))
    requires ls'.Valid() && DelaySorted(ls') && l in {Suspended, Termination}
    requires ls'.container == (s.ls.container - {Event(t)})[Generic(t) := l] && ls'.value == s.ls.value
    ensures Good(Sched(ls', s.top), priority) && ls'.In(Generic(idle), Ready(priority[idle]))
    ensures NonePended(s.ls) ==> NonePended(ls')
    ensures OnlyLeft(s.ls, ls', {t})
  {
    forall x | NonePended(s.ls)
      ensures !ls'.In(x, PendingReady)
    {
      assert !s.ls.In(x, PendingReady);
    }
  }

  /** Task t made ready from anywhere. */
  lemma WakesWell(s: Sched, priority: map<Task, nat>, t: Task, idle: Task)
    requires Good(s, priority) && t in priority
    requires idle in priority && s.ls.In(Generic(idle), Ready(priority[idle]))
    ensures var ls' := MakeReady(s, priority, t).ls;
            && ls'.In(Generic(idle), Ready(priority[idle]))
            && (NonePended(s.ls) ==> NonePended(ls'))
            && OnlyLeft(s.ls, ls', {t})
  {
    hide Good, AddReady, Drop, Awake, NonePended, OnlyLeft, Lists.In;
    var ls' := MakeReady(s, priority, t).ls;
    WokenLeaves(s.ls, ls', t, priority[t]);
    WokenPendsNone(s.ls, ls', t, priority[t]);
    IdleStays(s.ls, ls', priority, t, idle);
  }

  lemma WokenLeaves(ls: Lists, ls': Lists, t: Task, p: nat)
    requires ls'.container == Awake(ls.container, t, p) && ls'.value == ls.value
    ensures OnlyLeft(ls, ls', {t})
  {
  }

  lemma WokenPendsNone(ls: Lists, ls': Lists, t: Task, p: nat)
    requires ls'.container == Awake(ls.container, t, p)
    ensures NonePended(ls) ==> NonePended(ls')
  {
    forall x | NonePended(ls)
      ensures !ls'.In(x, PendingReady)
    {
      assert !ls.In(x, PendingReady);
    }
  }

  lemma IdleStays(ls: Lists, ls': Lists, priority: map<Task, nat>, t: Task, idle: Task)
    requires t in priority && idle in priority && ls'.container == Awake(ls.container, t, priority[t])
    requires ls.In(Generic(idle), Ready(priority[idle]))
    ensures ls'.In(Generic(idle), Ready(priority[idle]))
  {
  }

  /** Task t, taken from an event list while the scheduler is suspended, is set aside. */
  lemma PendsWell(s: Sched, ls': Lists, priority: map<Task, nat>, t: Task, idle: Task)
    requires Good(s, priority) && t in priority && Event(t) in s.ls.container
    requires idle in priority && s.ls.In(Generic(idle), Ready(priority[idle]))
    requires ls'.Valid() && DelaySorted(ls')
    requires ls'.container == s.ls.container[Event(t) := PendingReady] && ls'.value == s.ls.value
    ensures Good(Sched(ls', s.top), priority) && ls'.In(Generic(idle), Ready(priority[idle]))
    ensures OnlyLeft(s.ls, ls', {})
  {
  }

  lemma EventHead(s: Sched, priority: map<Task, nat>, q: int)
    requires Good(s, priority) && s.ls.Items(EventList(q)) != []
    ensures var x := s.ls.Items(EventList(q))[0];
            && x == Event(x.task) && x.task in priority && s.ls.In(x, EventList(q))
            && Generic(x.task) in s.ls.container
  {
    ListFacts(s.ls, EventList(q));
    var x := s.ls.Items(EventList(q))[0];
    assert x in s.ls.Items(EventList(q));
    assert x == Generic(x.task) || x == Event(x.task);
  }

  lemma GoodLists(s: Sched, priority: map<Task, nat>)
    requires Good(s, priority)
    ensures s.ls.Valid() && DelaySorted(s.ls)
    ensures forall t :: t in priority ==> Generic(t) in s.ls.container
  {
  }

  /** A task in an event list is delayed or suspended. */
  lemma WaiterBlocked(s: Sched, priority: map<Task, nat>, t: Task, q: int)
    requires Good(s, priority) && s.ls.In(Event(t), EventList(q))
    ensures t in priority && Generic(t) in s.ls.container
    ensures IsDelayed(s.ls, t) || s.ls.In(Generic(t), Suspended)
  {
  }

  /** The value of an event item may change at any time. */
  lemma Revalued(s: Sched, priority: map<Task, nat>, t: Task, v: nat, idle: Task)
    requires Good(s, priority) && t in priority
    ensures s.ls.Valid()
    ensures var ls' := s.ls.SetValue(Event(t), v);
            && Good(Sched(ls', s.top), priority) && OnlyLeft(s.ls, ls', {})
            && ls'.Valid() && DelaySorted(ls')
            && (NonePended(s.ls) ==> NonePended(ls'))
  {
    SetValueKeeps(s.ls, Event(t), v);
    var ls' := s.ls.SetValue(Event(t), v);
    forall x | NonePended(s.ls)
      ensures !ls'.In(x, PendingReady)
    {
      assert !s.ls.In(x, PendingReady);
    }
  }

  lemma NotInClock(ls: Lists, tasks: set<Task>, t: Task, cur: bool, epoch: nat, tick: nat)
    requires !IsDelayed(ls, t)
    ensures var c := ClockOf(ls, tasks, cur, epoch, tick);
            t !in c.wake && Step(c, Unblock({t})) == c
  {
    var c := ClockOf(ls, tasks, cur, epoch, tick);
    SameWake(Step(c, Unblock({t})).wake, c.wake);
  }

  // ---- Changing priorities and creating tasks -------------------------------------------------

  /** A ready task moves to the ready list of its new priority. */
  lemma ReprioritisedWell(s: Sched, s': Sched, priority: map<Task, nat>, t: Task, p: nat, idle: Task)
    requires Good(s, priority) && t in priority && s.ls.In(Generic(t), Ready(priority[t])) && p < MAX_PRIORITIES
    requires idle in priority && s.ls.In(Generic(idle), Ready(priority[idle]))
    requires s'.ls.Valid() && DelaySorted(s'.ls) && s'.top == Max(s.top, p)
    requires s'.ls.container == s.ls.container[Generic(t) := Ready(p)]
    requires forall x :: x != Event(t) ==> s'.ls.Value(x) == s.ls.Value(x)
    ensures Good(s', priority[t := p]) && OnlyLeft(s.ls, s'.ls, {})
    ensures s'.ls.In(Generic(idle), Ready(priority[t := p][idle]))
    ensures NonePended(s.ls) ==> NonePended(s'.ls)
  {
    forall x | NonePended(s.ls)
      ensures !s'.ls.In(x, PendingReady)
    {
      assert !s.ls.In(x, PendingReady);
    }
  }

  /** The priority of a task that is not ready is just a number. */
  lemma OutrankedWell(s: Sched, priority: map<Task, nat>, t: Task, p: nat)
    requires Good(s, priority) && t in priority && !s.ls.In(Generic(t), Ready(priority[t])) && p < MAX_PRIORITIES
    ensures Good(s, priority[t := p])
  {
  }

  lemma CreatedWell(s: Sched, s': Sched, priority: map<Task, nat>, t: Task, p: nat, idle: Task)
    requires Good(s, priority) && t !in priority && p < MAX_PRIORITIES
    requires idle in priority && s.ls.In(Generic(idle), Ready(priority[idle]))
    requires s'.ls.Valid() && DelaySorted(s'.ls) && s'.top == Max(s.top, p)
    requires s'.ls.container == s.ls.container[Generic(t) := Ready(p)] && s'.ls.value == s.ls.value
    ensures Good(s', priority[t := p]) && OnlyLeft(s.ls, s'.ls, {}) && !IsDelayed(s'.ls, t)
    ensures Generic(t) !in s.ls.container && !IsDelayed(s.ls, t)
    ensures s'.ls.In(Generic(idle), Ready(priority[t := p][idle]))
    ensures NonePended(s.ls) ==> NonePended(s'.ls)
  {
    forall x | NonePended(s.ls)
      ensures !s'.ls.In(x, PendingReady)
    {
      assert !s.ls.In(x, PendingReady);
    }
  }

  lemma OneMoreTask(ls: Lists, tasks: set<Task>, t: Task, cur: bool, epoch: nat, tick: nat)
    requires !IsDelayed(ls, t)
    ensures ClockOf(ls, tasks + {t}, cur, epoch, tick) == ClockOf(ls, tasks, cur, epoch, tick)
  {
    SameWake(ClockOf(ls, tasks + {t}, cur, epoch, tick).wake, ClockOf(ls, tasks, cur, epoch, tick).wake);
  }

  const NO_LISTS := Lists(map[], map[], map[])

  lemma NoListsValid()
    ensures NO_LISTS.Valid() && DelaySorted(NO_LISTS)
  {
    forall l
      ensures NO_LISTS.ListOk(l)
    {
    }
  }

  /** The first task. */
  lemma FirstWell(t: Task)
    ensures NO_LISTS.Valid() && DelaySorted(NO_LISTS)
    ensures var s := AddReady(Sched(NO_LISTS, 0), t, 0);
            && Good(s, map[t := 0]) && s.ls.In(Generic(t), Ready(0)) && NonePended(s.ls)
            && DelaysOk(s.ls, false, 1, 0) && UnblockTimeOk(s.ls, false, MAX_DELAY)
  {
    NoListsValid();
  }

  lemma NoSuchTask(s: Sched, priority: map<Task, nat>, t: Task)
    requires Good(s, priority) && t !in priority
    ensures Generic(t) !in s.ls.container
  {
  }

  // ---- The lists a blocking or waking call leaves ------------------------------------------------

  ghost predicate BlockReady(ls: Lists, t: Task) {
    ls.Valid() && DelaySorted(ls) && Generic(t) in ls.container
  }

  /** The state item of a blocking task goes to the suspended list, or with a timeout to one
      of the delayed lists. */
  ghost function BlockTask(ls: Lists, t: Task, ticks: nat, cur: bool, tick: nat): (r: Lists)
    requires BlockReady(ls, t)
    ensures r.container == ls.container[Generic(t) := if ticks == MAX_DELAY then Suspended
                                        else DelayList((tick + ticks) % TICKS_PER_EPOCH, cur, tick)]
  {
    if ticks == MAX_DELAY then SuspendTask(ls, t)
    else DelayTask(ls, t, (tick + ticks) % TICKS_PER_EPOCH, cur, tick)
  }

  /** vListInsert into an event list, by priority. */
  ghost function Enqueued(ls: Lists, q: int, t: Task): Lists {
    if ls.Valid() && Event(t) !in ls.container then ls.Insert(EventList(q), Event(t)) else ls
  }

  /** Blocking does not touch the event lists, nor the values of event items. */
  lemma BlockTaskElsewhere(ls: Lists, t: Task, ticks: nat, cur: bool, tick: nat, q: int)
    requires BlockReady(ls, t) && !ls.In(Generic(t), EventList(q))
    ensures BlockTask(ls, t, ticks, cur, tick).Items(EventList(q)) == ls.Items(EventList(q))
    ensures forall u :: BlockTask(ls, t, ticks, cur, tick).Value(Event(u)) == ls.Value(Event(u))
  {
    hide DelaySorted;
  }

  /** The items of list l of ls and x make up `after`: x stands behind all with a value up to
      its own, and before the first one with a greater value. */
  ghost predicate StandsByValue(ls: Lists, l: ListId, x: Item, after: seq<Item>) {
    exists pos :: 0 <= pos <= |ls.Items(l)| && IsSplice(ls.Items(l), after, x, pos)
                  && (forall i :: 0 <= i < pos ==> ls.Value(ls.Items(l)[i]) <= ls.Value(x))
                  && (pos < |ls.Items(l)| ==> ls.Value(ls.Items(l)[pos]) > ls.Value(x))
  }

  ghost predicate IsSplice(before: seq<Item>, after: seq<Item>, x: Item, pos: nat)
    requires pos <= |before|
  {
    after == before[..pos] + [x] + before[pos..]
  }

  lemma EnqueuedByValue(ls: Lists, q: int, t: Task)
    requires ls.Valid() && Event(t) !in ls.container
    ensures StandsByValue(ls, EventList(q), Event(t), Enqueued(ls, q, t).Items(EventList(q)))
  {
    var l := EventList(q);
    var pos := InsertPos(ls.Values(l), ls.Value(Event(t)));
    EnqueuedSplice(ls, q, t);
    hide Enqueued, Lists.Items, Lists.Valid;
    forall i | 0 <= i < pos
      ensures ls.Value(ls.Items(l)[i]) <= ls.Value(Event(t))
    {
      assert ls.Values(l)[i] <= ls.Value(Event(t));
    }
    assert pos < |ls.Items(l)| ==> ls.Values(l)[pos] > ls.Value(Event(t));
  }

  lemma EnqueuedSplice(ls: Lists, q: int, t: Task)
    requires ls.Valid() && Event(t) !in ls.container
    ensures var l := EventList(q);
            IsSplice(ls.Items(l), Enqueued(ls, q, t).Items(l), Event(t), InsertPos(ls.Values(l), ls.Value(Event(t))))
  {
    hide InsertPos, Lists.Value;
    assert ls.ListOk(EventList(q));
  }

  /** vListInsertEnd into an event list, with a value. */
  ghost function Appended(ls: Lists, q: int, t: Task, v: nat): Lists {
    var valued := ls.SetValue(Event(t), v);
    if valued.Valid() && Event(t) !in ls.container then valued.InsertEnd(EventList(q), Event(t)) else ls
  }

  /** From an event list to the end of the pending list. */
  ghost function Pend(ls: Lists, t: Task): Lists {
    if ls.Valid() && DelaySorted(ls) then Drop(ls, Event(t)).InsertEnd(PendingReady, Event(t)) else ls
  }

  /** Every task is in exactly one list, which is a state list; a ready task is in the list
      of its own priority, at or below uxTopReadyPriority. */
  lemma OneStateList(s: Sched, priority: map<Task, nat>, t: Task)
    requires Good(s, priority) && t in priority
    ensures exists l :: Generic(t) in s.ls.Items(l)
    ensures forall l, m :: Generic(t) in s.ls.Items(l) && Generic(t) in s.ls.Items(m) ==> l == m
    ensures forall l :: Generic(t) in s.ls.Items(l) ==>
              l.Delayed? || l.Suspended? || l.Termination? || (l == Ready(priority[t]) && priority[t] <= s.top)
  {
    var l := s.ls.container[Generic(t)];
    forall m
      ensures Generic(t) in s.ls.Items(m) <==> m == l
    {
      ListFacts(s.ls, m);
    }
    assert Generic(t) in s.ls.Items(l);
  }
}
