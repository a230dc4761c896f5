/** The limits of the 8-bit counts of queue.c: exactly when an unlock, a reset or an overwrite
    breaks the wake-up rules of module QueueLock, with runs from a new queue that get there. */
module QueueWraps {
  import opened Options
  import opened Sequences
  import opened Tasks
  import opened QueueLock

  // ---- What an unlock makes of a count -----------------------------------------------------------

  /** Whatever happened before: the first half of the unlock leaves the rule for receivers in
      force exactly when the count, as it stands, empties the list or covers the messages. */
  lemma UnlockTxExact(s: State, t: Task)
    requires Base(s) && s.At(t).UnlockingTx?
    ensures ReceiversOk(Step(s, UnlockTx(t))) <==>
            |s.toReceive| <= Most(s.txLock) || s.messages <= |s.wokenR| + Most(s.txLock)
  {
    DrainKeeps(s.pc, s.toReceive, s.wokenR, true, Most(s.txLock));
    hide WaitersOk, KindsOk;
    assert s.owner == Some(t);
  }

  /** And the second half that for senders. */
  lemma UnlockRxExact(s: State, t: Task)
    requires Base(s) && s.At(t).UnlockingRx?
    ensures SendersOk(Step(s, UnlockRx(t))) <==>
            |s.toSend| <= Most(s.rxLock) || s.length - s.messages <= |s.wokenS| + Most(s.rxLock)
  {
    DrainKeeps(s.pc, s.toSend, s.wokenS, false, Most(s.rxLock));
    hide WaitersOk, KindsOk;
    assert s.owner == Some(t);
  }

  // ---- What happens while the queue is locked ------------------------------------------------------

  /** An event between prvLockQueue and the end of prvUnlockQueue by task t: a move of t, or an
      interrupt. */
  predicate WhileLocked(e: Event, t: Task) {
    match e
    case SendFromISR(_) | ReceiveFromISR => true
    case CheckTime(u, _) => u == t
    case TestQueue(u) => u == t
    case PlaceOnList(u, _) => u == t
    case UnlockTx(u) => u == t
    case _ => false
  }

  predicate AllWhileLocked(es: seq<Event>, t: Task) {
    forall e :: e in es ==> WhileLocked(e, t)
  }

  function PostsOne(s: State, e: Event): nat {
    if e.SendFromISR? && (s.messages < s.length || e.overwrite) then 1 else 0
  }

  function ReceivesOne(s: State, e: Event): nat {
    if e.ReceiveFromISR? && s.messages > 0 then 1 else 0
  }

  /** The sends from interrupts that succeed in a run, and the receives. */
  function Posts(s: State, es: seq<Event>): nat
    requires Feasible(s, es)
    decreases |es|
  {
    if es == [] then 0 else PostsOne(s, es[0]) + Posts(Step(s, es[0]), es[1..])
  }

  function Receives(s: State, es: seq<Event>): nat
    requires Feasible(s, es)
    decreases |es|
  {
    if es == [] then 0 else ReceivesOne(s, es[0]) + Receives(Step(s, es[0]), es[1..])
  }

  /** A lock count after n more events.  A count that comes round to queueUNLOCKED stays there,
      because events then wake tasks themselves. */
  function LockAfter(lock: int, n: nat): int
    decreases n
  {
    if n == 0 || lock == UNLOCKED then lock else LockAfter(Count(lock), n - 1)
  }

  lemma {:induction false} LockAfterIs(lock: int, n: nat)
    requires -128 <= lock <= 127 && lock != UNLOCKED
    ensures LockAfter(lock, n) ==
            if lock >= 0 then
              if lock + n <= 127 then lock + n else if lock + n < 255 then lock + n - 0x100 else UNLOCKED
            else if lock + n < UNLOCKED then lock + n else UNLOCKED
    decreases n
  {
    if n > 0 && Count(lock) != UNLOCKED {
      LockAfterIs(Count(lock), n - 1);
    }
  }

  /** So what prvUnlockQueue sees is the number of events, or nothing if there were over 127. */
  lemma CountSeen(n: nat)
    ensures Most(LockAfter(LOCKED_UNMODIFIED, n)) == if n <= 127 then n else 0
  {
    LockAfterIs(LOCKED_UNMODIFIED, n);
  }

  lemma LockAfterOne(lock: int, one: nat, n: nat)
    requires one <= 1
    ensures LockAfter(if one == 1 && lock != UNLOCKED then Count(lock) else lock, n) == LockAfter(lock, one + n)
  {
  }

  /** Before the unlock: both counts follow the events, and until one of them has wrapped all
      the way round no task is woken. */
  lemma {:induction false} BeforeUnlock(s: State, t: Task, es: seq<Event>)
    requires Base(s) && s.owner == Some(t) && Feasible(s, es) && AllWhileLocked(es, t) && UnlockTx(t) !in es
    ensures var s' := Run(s, es);
            && s'.owner == Some(t)
            && s'.txLock == LockAfter(s.txLock, Posts(s, es)) && s'.rxLock == LockAfter(s.rxLock, Receives(s, es))
            && (s'.txLock != UNLOCKED ==> s'.wokenR == s.wokenR && |s'.toReceive| >= |s.toReceive|)
            && (s'.rxLock != UNLOCKED ==> s'.wokenS == s.wokenS && |s'.toSend| >= |s.toSend|)
    decreases |es|
  {
    if es != [] {
      var e, s1 := es[0], Step(s, es[0]);
      assert WhileLocked(e, t) && e != UnlockTx(t);
      StepKeepsBase(s, e);
      OneBeforeUnlock(s, t, e);
      BeforeUnlock(s1, t, es[1..]);
      LockAfterOne(s.txLock, PostsOne(s, e), Posts(s1, es[1..]));
      LockAfterOne(s.rxLock, ReceivesOne(s, e), Receives(s1, es[1..]));
      UnlockedStays(Posts(s1, es[1..]));
      UnlockedStays(Receives(s1, es[1..]));
    }
  }

  lemma UnlockedStays(n: nat)
    ensures LockAfter(UNLOCKED, n) == UNLOCKED
  {
  }

  lemma OneBeforeUnlock(s: State, t: Task, e: Event)
    requires s.owner == Some(t) && Enabled(s, e) && WhileLocked(e, t) && e != UnlockTx(t)
    ensures var s' := Step(s, e);
            && s'.owner == Some(t)
            && s'.txLock == (if PostsOne(s, e) == 1 && s.txLock != UNLOCKED then Count(s.txLock) else s.txLock)
            && s'.rxLock == (if ReceivesOne(s, e) == 1 && s.rxLock != UNLOCKED then Count(s.rxLock) else s.rxLock)
            && (s.txLock != UNLOCKED ==> s'.wokenR == s.wokenR && |s'.toReceive| >= |s.toReceive|)
            && (s.rxLock != UNLOCKED ==> s'.wokenS == s.wokenS && |s'.toSend| >= |s.toSend|)
  {
  }

  /** The general rule for receivers: from the moment task t has locked the queue, through any
      moves of t and any interrupts with n successful sends among them, to its unlock.  The
      rule then holds exactly if the count seen, n up to 127 and none beyond, empties the list
      or covers the messages.  Until 255 sends no receiver has been woken meanwhile. */
  lemma ReceiversAfterWindow(s: State, t: Task, es: seq<Event>)
    requires Inv(s) && s.At(t).TimeChecking? && s.txLock == LOCKED_UNMODIFIED
    requires Feasible(s, es) && AllWhileLocked(es, t) && UnlockTx(t) !in es && Run(s, es).At(t).UnlockingTx?
    ensures var s', n := Run(s, es), Posts(s, es);
            var seen := if n <= 127 then n else 0;
            && (ReceiversOk(Step(s', UnlockTx(t))) <==> |s'.toReceive| <= seen || s'.messages <= |s'.wokenR| + seen)
            && (n < 255 ==> s'.wokenR == s.wokenR)
  {
    assert s.owner == Some(t);
    BeforeUnlock(s, t, es);
    RunKeepsBase(s, es);
    UnlockTxExact(Run(s, es), t);
    CountSeen(Posts(s, es));
    LockAfterIs(LOCKED_UNMODIFIED, Posts(s, es));
  }

  lemma OwnerIs(s: State, t: Task)
    requires Base(s) && s.At(t).Suspended()
    ensures s.owner == Some(t)
  {
  }

  /** The first half of the unlock leaves the senders alone. */
  lemma TxHalf(s: State, t: Task)
    requires Base(s) && s.At(t).UnlockingTx?
    ensures var s' := Step(s, UnlockTx(t));
            s'.rxLock == s.rxLock && s'.wokenS == s.wokenS && s'.toSend == s.toSend && s'.messages == s.messages
            && s'.owner == Some(t) && s'.At(t).UnlockingRx?
  {
    assert s.owner == Some(t);
  }

  /** The general rule for senders, to the second half of the unlock, with n successful receives
      before the first half and m between the two. */
  lemma SendersAfterWindow(s: State, t: Task, es: seq<Event>, es': seq<Event>)
    requires Inv(s) && s.At(t).TimeChecking? && s.rxLock == LOCKED_UNMODIFIED
    requires Feasible(s, es) && AllWhileLocked(es, t) && UnlockTx(t) !in es && Run(s, es).At(t).UnlockingTx?
    requires var s1 := Step(Run(s, es), UnlockTx(t));
             Feasible(s1, es') && AllWhileLocked(es', t) && UnlockTx(t) !in es' && Run(s1, es').At(t).UnlockingRx?
    ensures var s1 := Step(Run(s, es), UnlockTx(t));
            var s', n := Run(s1, es'), Receives(s, es) + Receives(s1, es');
            var seen := if n <= 127 then n else 0;
            && (SendersOk(Step(s', UnlockRx(t))) <==> |s'.toSend| <= seen || s'.length - s'.messages <= |s'.wokenS| + seen)
            && (n < 255 ==> s'.wokenS == s.wokenS)
  {
    hide Step, Base, LocksOk, SendersOk, ReceiversOk, LockAfter, Run, Feasible, Receives, AllWhileLocked;
    OwnerIs(s, t);
    var s0 := Run(s, es);
    var s1 := Step(s0, UnlockTx(t));
    BeforeUnlock(s, t, es);
    RunKeepsBase(s, es);
    TxHalf(s0, t);
    StepKeepsBase(s0, UnlockTx(t));
    BeforeUnlock(s1, t, es');
    RunKeepsBase(s1, es');
    UnlockRxExact(Run(s1, es'), t);
    var n, m := Receives(s, es), Receives(s1, es');
    LockAfterSum(LOCKED_UNMODIFIED, n, m);
    CountSeen(n + m);
    LockAfterIs(LOCKED_UNMODIFIED, n + m);
    LockAfterIs(LOCKED_UNMODIFIED, n);
  }

  lemma {:induction false} LockAfterSum(lock: int, n: nat, m: nat)
    ensures LockAfter(LockAfter(lock, n), m) == LockAfter(lock, n + m)
    decreases n
  {
    if lock == UNLOCKED {
    } else if n > 0 {
      LockAfterSum(Count(lock), n - 1, m);
    }
  }

  // ---- Reaching the limits -------------------------------------------------------------------------

  lemma {:induction false} RunAppend(s: State, a: seq<Event>, b: seq<Event>)
    requires Feasible(s, a) && Feasible(Run(s, a), b)
    ensures Feasible(s, a + b) && Run(s, a + b) == Run(Run(s, a), b)
    ensures Possible(s, a) && Possible(Run(s, a), b) ==> Possible(s, a + b)
    decreases |a|
  {
    if a == [] {
      assert a + b == b;
    } else {
      assert (a + b)[1..] == a[1..] + b;
      RunAppend(Step(s, a[0]), a[1..], b);
    }
  }

  lemma Unroll(s: State, es: seq<Event>)
    requires es != [] && Enabled(s, es[0]) && Feasible(Step(s, es[0]), es[1..])
    ensures Feasible(s, es) && Run(s, es) == Run(Step(s, es[0]), es[1..])
    ensures NoWrap(s, es[0]) && Possible(Step(s, es[0]), es[1..]) ==> Possible(s, es)
  {
  }

  lemma RunNothing(s: State)
    ensures Possible(s, []) && Feasible(s, []) && Run(s, []) == s
  {
  }

  function Repeat(e: Event, n: nat): (es: seq<Event>)
    ensures |es| == n
  {
    if n == 0 then [] else [e] + Repeat(e, n - 1)
  }

  lemma RepeatRun(s: State, e: Event, n: nat, s': State)
    requires n > 0 && Enabled(s, e) && Feasible(Step(s, e), Repeat(e, n - 1)) && Run(Step(s, e), Repeat(e, n - 1)) == s'
    ensures Feasible(s, Repeat(e, n)) && Run(s, Repeat(e, n)) == s'
    ensures NoWrap(s, e) && Possible(Step(s, e), Repeat(e, n - 1)) ==> Possible(s, Repeat(e, n))
  {
    assert Repeat(e, n)[1..] == Repeat(e, n - 1);
    Unroll(s, Repeat(e, n));
  }

  /** The count is unlocked, or does not come round to that in n events. */
  predicate Steady(lock: int, n: nat) {
    || lock == UNLOCKED
    || (0 <= lock <= 127 && lock + n < 255)
    || (-128 <= lock < UNLOCKED && lock + n < UNLOCKED)
  }

  predicate SmallLock(lock: int, n: nat) {
    lock == UNLOCKED || (0 <= lock && lock + n <= 127)
  }

  /** n sends from interrupts into a queue with room, while it is locked or no receiver waits. */
  lemma {:induction false} SendsCount(s: State, n: nat)
    requires s.messages + n <= s.length && Steady(s.txLock, n) && (s.txLock == UNLOCKED ==> s.toReceive == [])
    ensures var es := Repeat(SendFromISR(false), n);
            && Feasible(s, es) && Run(s, es) == s.(messages := s.messages + n, txLock := LockAfter(s.txLock, n))
            && (SmallLock(s.txLock, n) ==> Possible(s, es))
    decreases n
  {
    if n == 0 {
      RunNothing(s);
    } else {
      var s1 := s.(messages := s.messages + 1, txLock := if s.txLock == UNLOCKED then UNLOCKED else Count(s.txLock));
      assert Step(s, SendFromISR(false)) == s1;
      SendsCount(s1, n - 1);
      RepeatRun(s, SendFromISR(false), n, s.(messages := s.messages + n, txLock := LockAfter(s.txLock, n)));
    }
  }

  /** n receives from interrupts, while the queue is locked or no sender waits. */
  lemma {:induction false} ReceivesCount(s: State, n: nat)
    requires s.messages >= n && Steady(s.rxLock, n) && (s.rxLock == UNLOCKED ==> s.toSend == [])
    ensures var es := Repeat(ReceiveFromISR, n);
            && Feasible(s, es) && Run(s, es) == s.(messages := s.messages - n, rxLock := LockAfter(s.rxLock, n))
            && (SmallLock(s.rxLock, n) ==> Possible(s, es))
    decreases n
  {
    if n == 0 {
      RunNothing(s);
    } else {
      var s1 := s.(messages := s.messages - 1, rxLock := if s.rxLock == UNLOCKED then UNLOCKED else Count(s.rxLock));
      assert Step(s, ReceiveFromISR) == s1;
      ReceivesCount(s1, n - 1);
      RepeatRun(s, ReceiveFromISR, n, s.(messages := s.messages - n, rxLock := LockAfter(s.rxLock, n)));
    }
  }

  lemma CountOn(messages: nat, n: nat)
    requires n > 0
    ensures ((messages + 1) % 0x100 + (n - 1)) % 0x100 == (messages + n) % 0x100
  {
  }

  /** n overwriting sends of items of size 0, with no receiver waiting. */
  lemma {:induction false} OverwritesCount(s: State, n: nat)
    requires !s.sized && s.length == 1 && s.messages < 0x100 && s.txLock == UNLOCKED && s.toReceive == []
    ensures var es := Repeat(SendFromISR(true), n);
            Possible(s, es) && Run(s, es) == s.(messages := (s.messages + n) % 0x100)
    decreases n
  {
    if n == 0 {
      RunNothing(s);
    } else {
      var s1 := s.(messages := (s.messages + 1) % 0x100);
      assert Step(s, SendFromISR(true)) == s1;
      OverwritesCount(s1, n - 1);
      CountOn(s.messages, n);
      RepeatRun(s, SendFromISR(true), n, s.(messages := (s.messages + n) % 0x100));
    }
  }

  /** A call of task t that finds nothing to receive, or no room, and joins the waiting tasks. */
  function JoinEvents(s: State, t: Task, kind: Kind): seq<Event> {
    [Call(t, kind), Examine(t, true), SuspendScheduler(t), LockQueue(t), CheckTime(t, false), TestQueue(t),
     PlaceOnList(t, if kind == Receive then |s.toReceive| else |s.toSend|)]
  }

  predicate CanJoin(s: State, t: Task, kind: Kind) {
    && s.owner == None && s.At(t) == Out && s.rxLock == UNLOCKED && s.txLock == UNLOCKED
    && t !in s.wokenR && t !in s.wokenS
    && ((kind == Receive && s.messages == 0) || (kind == Send && s.messages == s.length))
  }

  /** Task t at p in its call, with the scheduler and the queue as given. */
  function At(s: State, t: Task, p: Pc, owner: Option<Task>, lock: int): State {
    s.(pc := s.pc[t := p], owner := owner, rxLock := lock, txLock := lock)
  }

  function InList(s: State, t: Task, kind: Kind): State {
    if kind == Receive then s.(toReceive := s.toReceive + [t]) else s.(toSend := s.toSend + [t])
  }

  function Joined(s: State, t: Task, kind: Kind): State {
    InList(At(s, t, UnlockingTx(kind, Wait), Some(t), LOCKED_UNMODIFIED), t, kind)
  }

  lemma JoinRun(s: State, t: Task, kind: Kind)
    requires CanJoin(s, t, kind)
    ensures Possible(s, JoinEvents(s, t, kind)) && Run(s, JoinEvents(s, t, kind)) == Joined(s, t, kind)
  {
    var es := JoinEvents(s, t, kind);
    EnterRun(s, t, kind);
    LockedRun(s, t, kind);
    var s3 := At(s, t, Locking(kind), Some(t), UNLOCKED);
    RunAppend(s, es[..3], es[3..]);
    assert es == es[..3] + es[3..];
  }

  lemma EnterRun(s: State, t: Task, kind: Kind)
    requires CanJoin(s, t, kind)
    ensures var es := JoinEvents(s, t, kind)[..3];
            Possible(s, es) && Run(s, es) == At(s, t, Locking(kind), Some(t), UNLOCKED)
  {
    var es := JoinEvents(s, t, kind)[..3];
    var s1, s2 := At(s, t, Checking(kind), None, UNLOCKED), At(s, t, Suspending(kind), None, UNLOCKED);
    var s3 := At(s, t, Locking(kind), Some(t), UNLOCKED);
    assert s1.pc[t := Suspending(kind)] == s2.pc && s2.pc[t := Locking(kind)] == s3.pc;
    assert s.wokenR - {t} == s.wokenR && s.wokenS - {t} == s.wokenS;
    assert Step(s, es[0]) == s1 && Step(s1, es[1]) == s2 && Step(s2, es[2]) == s3;
    hide Step, At;
    RunNothing(s3);
    assert es[2..][1..] == [] && es[1..][1..] == es[2..];
    Unroll(s2, es[2..]);
    Unroll(s1, es[1..]);
    Unroll(s, es);
  }

  /** One step of task t while it has the queue locked. */
  lemma LockedStep(s: State, t: Task, kind: Kind, p: Pc, lock: int, e: Event, q: Pc)
    requires CanJoin(s, t, kind)
    requires match e
             case LockQueue(u) => u == t && lock == UNLOCKED && p == Locking(kind) && q == TimeChecking(kind)
             case CheckTime(u, expired) => u == t && !expired && lock == LOCKED_UNMODIFIED && p == TimeChecking(kind) && q == Testing(kind)
             case TestQueue(u) => u == t && lock == LOCKED_UNMODIFIED && p == Testing(kind) && q == Placing(kind)
             case _ => false
    ensures Enabled(At(s, t, p, Some(t), lock), e)
    ensures Step(At(s, t, p, Some(t), lock), e) == At(s, t, q, Some(t), LOCKED_UNMODIFIED)
  {
    assert s.pc[t := p][t := q] == s.pc[t := q];
  }

  lemma PlaceStep(s: State, t: Task, kind: Kind)
    requires CanJoin(s, t, kind)
    ensures var s6, e := At(s, t, Placing(kind), Some(t), LOCKED_UNMODIFIED), JoinEvents(s, t, kind)[6];
            Enabled(s6, e) && Step(s6, e) == Joined(s, t, kind)
  {
    assert s.pc[t := Placing(kind)][t := UnlockingTx(kind, Wait)] == s.pc[t := UnlockingTx(kind, Wait)];
  }

  lemma LockedRun(s: State, t: Task, kind: Kind)
    requires CanJoin(s, t, kind)
    ensures var es := JoinEvents(s, t, kind)[3..];
            var s3 := At(s, t, Locking(kind), Some(t), UNLOCKED);
            Possible(s3, es) && Run(s3, es) == Joined(s, t, kind)
  {
    hide Step, Enabled, At, Joined, CanJoin;
    var es := JoinEvents(s, t, kind)[3..];
    var s3, s4 := At(s, t, Locking(kind), Some(t), UNLOCKED), At(s, t, TimeChecking(kind), Some(t), LOCKED_UNMODIFIED);
    var s5, s6 := At(s, t, Testing(kind), Some(t), LOCKED_UNMODIFIED), At(s, t, Placing(kind), Some(t), LOCKED_UNMODIFIED);
    var s7 := Joined(s, t, kind);
    LockedStep(s, t, kind, Locking(kind), UNLOCKED, es[0], TimeChecking(kind));
    LockedStep(s, t, kind, TimeChecking(kind), LOCKED_UNMODIFIED, es[1], Testing(kind));
    LockedStep(s, t, kind, Testing(kind), LOCKED_UNMODIFIED, es[2], Placing(kind));
    PlaceStep(s, t, kind);
    RunNothing(s7);
    assert es[3..][1..] == [] && es[2..][1..] == es[3..] && es[1..][1..] == es[2..];
    Unroll(s6, es[3..]);
    Unroll(s5, es[2..]);
    Unroll(s4, es[1..]);
    Unroll(s3, es);
  }

  function BlockEvents(s: State, t: Task, kind: Kind): seq<Event> {
    JoinEvents(s, t, kind) + [UnlockTx(t), UnlockRx(t), ResumeScheduler(t)]
  }

  lemma BlockSteps(s: State, t: Task, kind: Kind)
    requires CanJoin(s, t, kind)
    ensures var s0, s3 := Joined(s, t, kind), InList(At(s, t, Blocked(kind), None, UNLOCKED), t, kind);
            var s1 := s0.(pc := s.pc[t := UnlockingRx(kind, Wait)], txLock := UNLOCKED);
            var s2 := s1.(pc := s.pc[t := Resuming(kind, Wait)], rxLock := UNLOCKED);
            && Enabled(s0, UnlockTx(t)) && Step(s0, UnlockTx(t)) == s1
            && Enabled(s1, UnlockRx(t)) && Step(s1, UnlockRx(t)) == s2
            && Enabled(s2, ResumeScheduler(t)) && Step(s2, ResumeScheduler(t)) == s3
  {
    var pc := s.pc;
    assert pc[t := UnlockingTx(kind, Wait)][t := UnlockingRx(kind, Wait)] == pc[t := UnlockingRx(kind, Wait)];
    assert pc[t := UnlockingRx(kind, Wait)][t := Resuming(kind, Wait)] == pc[t := Resuming(kind, Wait)];
    assert pc[t := Resuming(kind, Wait)][t := Blocked(kind)] == pc[t := Blocked(kind)];
  }

  lemma BlockRun(s: State, t: Task, kind: Kind)
    requires CanJoin(s, t, kind)
    ensures Possible(s, BlockEvents(s, t, kind))
    ensures Run(s, BlockEvents(s, t, kind)) == InList(At(s, t, Blocked(kind), None, UNLOCKED), t, kind)
  {
    hide Step, Enabled, At, Joined, InList, JoinEvents, CanJoin;
    var es := [UnlockTx(t), UnlockRx(t), ResumeScheduler(t)];
    var s0, s3 := Joined(s, t, kind), InList(At(s, t, Blocked(kind), None, UNLOCKED), t, kind);
    var s1 := s0.(pc := s.pc[t := UnlockingRx(kind, Wait)], txLock := UNLOCKED);
    var s2 := s1.(pc := s.pc[t := Resuming(kind, Wait)], rxLock := UNLOCKED);
    BlockSteps(s, t, kind);
    JoinRun(s, t, kind);
    RunNothing(s3);
    assert es[2..][1..] == [] && es[1..][1..] == es[2..];
    Unroll(s2, es[2..]);
    Unroll(s1, es[1..]);
    Unroll(s0, es);
    RunAppend(s, JoinEvents(s, t, kind), es);
  }

  /** Some run without a reset leads from s to s'; unless `wraps`, one in which no lock count wraps. */
  ghost predicate Reaches(s: State, s': State, wraps: bool) {
    exists es :: Leads(s, es, s', wraps)
  }

  ghost predicate Leads(s: State, es: seq<Event>, s': State, wraps: bool) {
    Feasible(s, es) && Run(s, es) == s' && Reset !in es && (wraps || Possible(s, es))
  }

  lemma ReachesOn(s: State, s1: State, s2: State, wraps: bool)
    requires Reaches(s, s1, wraps) && Reaches(s1, s2, wraps)
    ensures Reaches(s, s2, wraps)
  {
    var a :| Leads(s, a, s1, wraps);
    var b :| Leads(s1, b, s2, wraps);
    RunAppend(s, a, b);
    assert Leads(s, a + b, s2, wraps);
  }

  lemma ReachesStep(s: State, e: Event, wraps: bool)
    requires Enabled(s, e) && e != Reset && (wraps || NoWrap(s, e))
    ensures Reaches(s, Step(s, e), wraps)
  {
    RunNothing(Step(s, e));
    Unroll(s, [e]);
    assert Leads(s, [e], Step(s, e), wraps);
  }

  lemma ReachesBase(s: State, s': State, wraps: bool)
    requires Base(s) && Reaches(s, s', wraps)
    ensures Base(s')
  {
    var es :| Leads(s, es, s', wraps);
    RunKeepsBase(s, es);
  }

  lemma {:induction false} RepeatOnly(e: Event, n: nat)
    ensures forall x :: x in Repeat(e, n) ==> x == e
  {
    if n > 0 {
      RepeatOnly(e, n - 1);
    }
  }

  /** The queue filled by interrupts, before any task calls. */
  lemma ReachesFull(s: State, wraps: bool)
    requires Fresh(s)
    ensures Reaches(s, s.(messages := s.length), wraps)
  {
    var es := Repeat(SendFromISR(false), s.length);
    SendsCount(s, s.length);
    RepeatOnly(SendFromISR(false), s.length);
    assert Leads(s, es, s.(messages := s.length), wraps);
  }

  lemma ReachesJoined(s: State, t: Task, kind: Kind, wraps: bool)
    requires CanJoin(s, t, kind)
    ensures Reaches(s, Joined(s, t, kind), wraps)
  {
    JoinRun(s, t, kind);
    assert Leads(s, JoinEvents(s, t, kind), Joined(s, t, kind), wraps);
  }

  /** Task t waiting, and the queue unlocked again. */
  function Waiting(s: State, t: Task, kind: Kind): State {
    InList(At(s, t, Blocked(kind), None, UNLOCKED), t, kind)
  }

  lemma ReachesWaiting(s: State, t: Task, kind: Kind, wraps: bool)
    requires CanJoin(s, t, kind)
    ensures Reaches(s, Waiting(s, t, kind), wraps)
  {
    BlockRun(s, t, kind);
    assert Reset !in BlockEvents(s, t, kind);
    assert Leads(s, BlockEvents(s, t, kind), Waiting(s, t, kind), wraps);
  }

  // ---- The rules broken --------------------------------------------------------------------------

  lemma FreshBase(s: State)
    requires Fresh(s)
    ensures Base(s) && Inv(s) && SendersOk(s)
  {
  }

  /** A run from a new queue in which 128 sends while the queue is locked are forgotten: a
      receiver waits, and nobody has been told of the messages. */
  lemma WrapStrandsReceiver(s: State, t: Task)
    requires Fresh(s) && s.length >= 128
    ensures exists s' :: Reaches(s, s', true) && !ReceiversOk(s')
  {
    hide Base, Inv, ReceiversOk, Feasible, Run, Reaches, LockAfter, WaitersOk;
    FreshBase(s);
    var s1 := Joined(s, t, Receive);
    ReachesJoined(s, t, Receive, true);
    var s2 := s1.(messages := 128, txLock := -128);
    Reaches128Sends(s1);
    ReachesOn(s, s1, s2, true);
    ReachesBase(s, s2, true);
    ReachesStep(s2, UnlockTx(t), true);
    ReachesOn(s, s2, Step(s2, UnlockTx(t)), true);
    UnlockTxExact(s2, t);
  }

  lemma Reaches128Sends(s: State)
    requires s.txLock == LOCKED_UNMODIFIED && s.messages == 0 && s.length >= 128
    ensures Reaches(s, s.(messages := 128, txLock := -128), true)
  {
    LockAfterIs(LOCKED_UNMODIFIED, 128);
    SendsCount(s, 128);
    RepeatOnly(SendFromISR(false), 128);
    assert Leads(s, Repeat(SendFromISR(false), 128), s.(messages := 128, txLock := -128), true);
  }

  lemma Reaches128Receives(s: State)
    requires s.rxLock == LOCKED_UNMODIFIED && s.messages == s.length >= 128
    ensures Reaches(s, s.(messages := s.length - 128, rxLock := -128), true)
  {
    LockAfterIs(LOCKED_UNMODIFIED, 128);
    ReceivesCount(s, 128);
    RepeatOnly(ReceiveFromISR, 128);
    assert Leads(s, Repeat(ReceiveFromISR, 128), s.(messages := s.length - 128, rxLock := -128), true);
  }

  /** And one in which 128 receives are forgotten: a sender waits before 128 free slots. */
  lemma WrapStrandsSender(s: State, t: Task)
    requires Fresh(s) && s.length >= 128
    ensures exists s' :: Reaches(s, s', true) && !SendersOk(s')
  {
    hide Base, Inv, SendersOk, Feasible, Run, Reaches, LockAfter, WaitersOk;
    FreshBase(s);
    var full := s.(messages := s.length);
    ReachesFull(s, true);
    var s1 := Joined(full, t, Send);
    ReachesJoined(full, t, Send, true);
    ReachesOn(s, full, s1, true);
    var s2 := s1.(messages := s.length - 128, rxLock := -128);
    Reaches128Receives(s1);
    ReachesOn(s, s1, s2, true);
    ReachesBase(s, s2, true);
    TxHalf(s2, t);
    var s3 := Step(s2, UnlockTx(t));
    ReachesStep(s2, UnlockTx(t), true);
    ReachesOn(s, s2, s3, true);
    ReachesBase(s, s3, true);
    ReachesStep(s3, UnlockRx(t), true);
    ReachesOn(s, s3, Step(s3, UnlockRx(t)), true);
    UnlockRxExact(s3, t);
  }

  /** A reset frees the whole queue but wakes one sender only.  The rule for senders survives
      it exactly when no second sender waits, or as many as there are slots are on their way. */
  lemma ResetKeepsSenders(s: State)
    requires Inv(s) && Enabled(s, Reset)
    ensures SendersOk(Step(s, Reset)) <==> |s.toSend| <= 1 || s.length <= |s.wokenS| + 1
  {
    var s' := Step(s, Reset);
    assert s'.owner == None && s'.txLock == UNLOCKED;
    if s.toSend != [] {
      assert s.toSend[0] in s.toSend && s.toSend[0] !in s.wokenS;
      assert s'.toSend == s.toSend[1..] && s'.wokenS == s.wokenS + {s.toSend[0]};
    }
  }

  lemma ReachesInv(s: State, s': State)
    requires Inv(s) && Reaches(s, s', false)
    ensures Inv(s')
  {
    var es :| Leads(s, es, s', false);
    RunKeeps(s, es);
  }

  /** And it does not always: in any queue of two slots or more, two senders that wait. */
  lemma ResetStrandsSenders(s: State, t: Task, u: Task)
    requires Fresh(s) && s.length >= 2 && t != u
    ensures exists s' :: Reaches(s, s', false) && Enabled(s', Reset) && SendersOk(s') && !SendersOk(Step(s', Reset))
  {
    hide Base, Inv, Feasible, Run, Reaches, Step;
    FreshBase(s);
    var full := s.(messages := s.length);
    ReachesFull(s, false);
    var one := Waiting(full, t, Send);
    ReachesWaiting(full, t, Send, false);
    ReachesOn(s, full, one, false);
    assert one.At(u) == Out;
    var two := Waiting(one, u, Send);
    ReachesWaiting(one, u, Send, false);
    ReachesOn(s, one, two, false);
    ReachesInv(s, two);
    assert two.toSend == [t, u] && two.wokenS == {};
    ResetKeepsSenders(two);
  }

  /** The 8-bit count of items of size 0 coming round to 0 makes the one slot free without a
      word to the senders.  Their rule survives exactly when none waits, or one is on its way
      or announced. */
  lemma CountWrapExact(s: State, e: Event)
    requires Inv(s) && CountWraps(s, e) && Enabled(s, e)
    ensures SendersOk(Step(s, e)) <==>
            || (s.toSend == [] && !AboutToWait(s.pc, s.owner, false))
            || |if e.Examine? then s.wokenS - {e.t} else s.wokenS| + Most(s.rxLock) >= 1
  {
    var s' := Step(s, e);
    assert s.length == 1;
    assert s'.messages == 0 && s'.toSend == s.toSend && s'.rxLock == s.rxLock && s'.owner == s.owner;
    assert s'.wokenS == if e.Examine? then s.wokenS - {e.t} else s.wokenS;
    assert AboutToWait(s'.pc, s'.owner, false) == AboutToWait(s.pc, s.owner, false);
  }

  /** A run that gets there: a sender waits for a queue with an item of size 0, which is then
      overwritten 255 times. */
  lemma CountWrapStrandsSender(s: State, t: Task)
    requires Fresh(s) && !s.sized && s.length == 1
    ensures exists s' :: Reaches(s, s', false) && !SendersOk(s')
  {
    hide Base, Inv, Feasible, Run, Reaches, Step;
    var full := s.(messages := 1);
    ReachesFull(s, false);
    var s1 := Waiting(full, t, Send);
    ReachesWaiting(full, t, Send, false);
    ReachesOn(s, full, s1, false);
    var s2 := s1.(messages := 0);
    Reaches255Overwrites(s1);
    ReachesOn(s, s1, s2, false);
    assert s2.toSend == [t] && s2.wokenS == {};
  }

  lemma Reaches255Overwrites(s: State)
    requires !s.sized && s.length == 1 && s.messages == 1 && s.txLock == UNLOCKED && s.toReceive == []
    ensures Reaches(s, s.(messages := 0), false)
  {
    OverwritesCount(s, 255);
    RepeatOnly(SendFromISR(true), 255);
    assert Leads(s, Repeat(SendFromISR(true), 255), s.(messages := 0), false);
  }
}
