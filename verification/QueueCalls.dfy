/** How the calls of a task on a queue go, in every run of the lock protocol: a call with no
    block time never waits, and a call on its way out of the lock ends as it decided to. */
module QueueCalls {
  import opened Options
  import opened Sequences
  import opened Tasks
  import opened QueueLock

  // ---- Calls without block time ---------------------------------------------------------------

  /** Task t is in no call, or looks at the queue, and waits for nothing. */
  ghost predicate NotWaiting(s: State, t: Task) {
    && (s.At(t) == Out || s.At(t).Checking?)
    && t !in s.toReceive && t !in s.toSend && s.owner != Some(t)
  }

  lemma {:induction false} DrainedWereThere(list: seq<Task>, woken: set<Task>, n: nat, t: Task)
    requires t !in list
    ensures t !in Drain(list, woken, n).0
    decreases n
  {
    if n > 0 && list != [] {
      DrainedWereThere(list[1..], woken + {list[0]}, n - 1, t);
    }
  }

  lemma JoinedOnly(list: seq<Task>, pos: nat, u: Task, t: Task)
    requires pos <= |list| && t !in list && t != u
    ensures t !in Insert(list, pos, u)
  {
  }

  lemma {:induction false} StillNotIn(list: seq<Task>, u: Task, t: Task)
    requires t !in list
    ensures t !in Without(list, u)
  {
    if list != [] {
      StillNotIn(list[1..], u, t);
    }
  }

  /** A look at the queue wakes at most the head of a waiting list. */
  lemma ExamineWakes(s: State, u: Task, mayWait: bool)
    requires s.At(u).Checking?
    ensures var s' := ExamineStep(s, u, mayWait);
            && (forall t :: t in s'.toReceive ==> t in s.toReceive) && (forall t :: t in s'.toSend ==> t in s.toSend)
            && s'.owner == s.owner && (forall t :: t != u ==> s'.At(t) == s.At(t))
            && (s'.At(u) == Out || (mayWait && s'.At(u) == Suspending(s.At(u).kind)))
  {
  }

  lemma InterruptWakes(s: State, e: Event)
    requires Enabled(s, e) && (e.SendFromISR? || e.ReceiveFromISR? || e.Reset?)
    ensures var s' := Step(s, e);
            && (forall t :: t in s'.toReceive ==> t in s.toReceive) && (forall t :: t in s'.toSend ==> t in s.toSend)
            && s'.owner == s.owner && s'.pc == s.pc
  {
  }

  lemma MoveNotWaiting(s: State, e: Event, t: Task)
    requires NotWaiting(s, t) && Enabled(s, e) && OnlyMoves(e) && OwnerOk(s.pc, s.owner)
    ensures NotWaiting(Step(s, e), t)
  {
  }

  /** No step of the others, and no look at the queue without block time, makes t wait. */
  lemma StepNotWaiting(s: State, e: Event, t: Task)
    requires NotWaiting(s, t) && Enabled(s, e) && e != Examine(t, true) && OwnerOk(s.pc, s.owner)
    ensures NotWaiting(Step(s, e), t)
  {
    if OnlyMoves(e) {
      MoveNotWaiting(s, e, t);
    } else if e.SendFromISR? || e.ReceiveFromISR? || e.Reset? {
      InterruptWakes(s, e);
    } else {
      hide ExamineStep, Drain, Insert;
      match e
      case Examine(u, mayWait) => ExamineWakes(s, u, mayWait);
      case PlaceOnList(u, pos) =>
        if s.At(u).kind.Receives() {
          JoinedOnly(s.toReceive, pos, u, t);
        } else {
          JoinedOnly(s.toSend, pos, u, t);
        }
      case UnlockTx(u) => DrainedWereThere(s.toReceive, s.wokenR, Most(s.txLock), t);
      case UnlockRx(u) => DrainedWereThere(s.toSend, s.wokenS, Most(s.rxLock), t);
      case TimeOutWaiter(u) =>
        StillNotIn(s.toReceive, u, t);
        StillNotIn(s.toSend, u, t);
    }
  }

  lemma {:induction false} NeverWaits(s: State, es: seq<Event>, t: Task)
    requires Base(s) && NotWaiting(s, t) && Feasible(s, es) && Examine(t, true) !in es
    ensures NotWaiting(Run(s, es), t)
    decreases |es|
  {
    hide NotWaiting, Step, WaitersOk, KindsOk;
    if es != [] {
      StepKeepsBase(s, es[0]);
      StepNotWaiting(s, es[0], t);
      NeverWaits(Step(s, es[0]), es[1..], t);
    }
  }

  /** In every run from a new queue: a task all of whose calls have no block time is never in a
      waiting list, never suspends the scheduler, and never blocks. */
  lemma NoBlockTimeNeverWaits(s: State, es: seq<Event>, t: Task)
    requires Fresh(s) && Feasible(s, es) && Examine(t, true) !in es
    ensures var s' := Run(s, es);
            && t !in s'.toReceive && t !in s'.toSend
            && !s'.At(t).Suspended() && !s'.At(t).Suspending? && !s'.At(t).Blocked?
  {
    NeverWaits(s, es, t);
  }

  // ---- On the way out of the lock ----------------------------------------------------------------

  /** The steps of task t itself. */
  predicate By(e: Event, t: Task) {
    match e
    case SendFromISR(_) | ReceiveFromISR | Reset | TimeOutWaiter(_) => false
    case _ => e.t == t
  }

  function StepsOf(es: seq<Event>, t: Task): nat {
    if es == [] then 0 else (if By(es[0], t) then 1 else 0) + StepsOf(es[1..], t)
  }

  /** Where a call is n steps after it began to unlock the queue. */
  ghost predicate Leaving(p: Pc, kind: Kind, after: After, n: nat) {
    match n
    case 0 => p == UnlockingTx(kind, after)
    case 1 => p == UnlockingRx(kind, after)
    case 2 => p == Resuming(kind, after)
    case _ =>
      match after
      case Retry => p == Checking(kind)
      case Wait => p == Blocked(kind)
      case GiveUp => p == Out
  }

  lemma StepLeaving(s: State, e: Event, t: Task, kind: Kind, after: After, n: nat)
    requires Enabled(s, e) && n <= 3 && Leaving(s.At(t), kind, after, n) && (By(e, t) ==> n < 3)
    ensures Leaving(Step(s, e).At(t), kind, after, if By(e, t) then n + 1 else n)
  {
  }

  lemma {:induction false} LeavesFrom(s: State, es: seq<Event>, t: Task, kind: Kind, after: After, n: nat)
    requires Feasible(s, es) && Leaving(s.At(t), kind, after, n) && n + StepsOf(es, t) <= 3
    ensures Leaving(Run(s, es).At(t), kind, after, n + StepsOf(es, t))
    decreases |es|
  {
    hide Leaving, Step, By;
    if es != [] {
      StepLeaving(s, es[0], t, kind, after, n);
      LeavesFrom(Step(s, es[0]), es[1..], t, kind, after, if By(es[0], t) then n + 1 else n);
    }
  }

  /** A call whose time has run out ends, whatever else happens, without joining a waiting list:
      three steps of its own later it is over. */
  lemma GivesUp(s: State, es: seq<Event>, t: Task)
    requires Base(s) && Enabled(s, CheckTime(t, true)) && Feasible(Step(s, CheckTime(t, true)), es) && StepsOf(es, t) <= 3
    ensures var s' := Run(Step(s, CheckTime(t, true)), es);
            && t !in s'.toReceive && t !in s'.toSend && !s'.At(t).Placed()
            && (StepsOf(es, t) == 3 ==> s'.At(t) == Out)
  {
    var s1 := Step(s, CheckTime(t, true));
    StepKeepsBase(s, CheckTime(t, true));
    LeavesFrom(s1, es, t, s.At(t).kind, GiveUp, 0);
    RunKeepsBase(s1, es);
  }

  /** A call that finds something to receive, or room, under the lock looks at the queue again. */
  lemma LooksAgain(s: State, es: seq<Event>, t: Task)
    requires Base(s) && Enabled(s, TestQueue(t)) && Feasible(Step(s, TestQueue(t)), es) && StepsOf(es, t) == 3
    requires if s.At(t).kind.Receives() then s.messages > 0 else s.messages != s.length
    ensures Run(Step(s, TestQueue(t)), es).At(t) == Checking(s.At(t).kind)
  {
    LeavesFrom(Step(s, TestQueue(t)), es, t, s.At(t).kind, Retry, 0);
  }

  // ---- Timeouts ----------------------------------------------------------------------------------

  /** A task blocked on a waiting list that times out leaves it, the others keep their order, and
      it looks at the queue again. */
  lemma TimesOut(s: State, t: Task)
    requires Base(s) && Enabled(s, TimeOutWaiter(t)) && s.At(t).Blocked?
    ensures var s1 := Step(s, TimeOutWaiter(t));
            && t !in s1.toReceive && t !in s1.toSend && s1.messages == s.messages
            && (t !in s.toReceive ==> s1.toReceive == s.toReceive) && (t !in s.toSend ==> s1.toSend == s.toSend)
            && Enabled(s1, RunAgain(t)) && Step(s1, RunAgain(t)).At(t) == Checking(s.At(t).kind)
  {
    WithoutOne(s.toReceive, t);
    WithoutOne(s.toSend, t);
    if t !in s.toReceive {
      WithoutAbsent(s.toReceive, t);
    }
    if t !in s.toSend {
      WithoutAbsent(s.toSend, t);
    }
  }
}
