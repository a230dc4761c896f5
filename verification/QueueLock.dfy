/** The lock protocol of queue.c: blocking sends and receives, the FromISR calls that only
    count while the queue is locked, and the unlock that wakes by these counts.  Tasks step
    one critical section at a time; interrupts come in between everywhere. */
module QueueLock {
  import opened Options
  import opened Sequences
  import opened Tasks

  const UNLOCKED := -1
  const LOCKED_UNMODIFIED := 0

  datatype Kind = Receive | Peek | Send | Overwrite {
    predicate Receives() {
      Receive? || Peek?
    }
  }

  /** What follows once the queue is unlocked and the scheduler resumed. */
  datatype After = Retry | Wait | GiveUp

  /** Where a task is in xQueueGenericSend or xQueueGenericReceive. */
  datatype Pc =
    | Out
    | Checking(kind: Kind)
    | Suspending(kind: Kind)
    | Locking(kind: Kind)
    | TimeChecking(kind: Kind)
    | Testing(kind: Kind)
    | Placing(kind: Kind)
    | UnlockingTx(kind: Kind, after: After)
    | UnlockingRx(kind: Kind, after: After)
    | Resuming(kind: Kind, after: After)
    | Blocked(kind: Kind)
  {
    /** Between vTaskSuspendAll and xTaskResumeAll. */
    predicate Suspended() {
      Locking? || TimeChecking? || Testing? || Placing? || UnlockingTx? || UnlockingRx? || Resuming?
    }

    /** After vTaskPlaceOnEventList. */
    predicate Placed() {
      Blocked? || ((UnlockingTx? || UnlockingRx? || Resuming?) && after == Wait)
    }
  }

  type Places = map<Task, Pc>

  function Where(pc: Places, t: Task): Pc {
    if t in pc then pc[t] else Out
  }

  /** length is uxLength, and sized says that uxItemSize is not 0.  wokenR and wokenS are the tasks taken from the waiting lists by an event that have not
      examined the queue since. */
  datatype State = State(
    length: nat,
    sized: bool,
    messages: nat,
    rxLock: int,
    txLock: int,
    toReceive: seq<Task>,
    toSend: seq<Task>,
    wokenR: set<Task>,
    wokenS: set<Task>,
    pc: Places,
    owner: Option<Task>)
  {
    function At(t: Task): Pc {
      Where(pc, t)
    }

    function Goto(t: Task, p: Pc): State {
      this.(pc := pc[t := p])
    }

    /** Task t has looked at the queue, and goes to p. */
    function Examined(t: Task, p: Pc): State {
      this.(wokenR := wokenR - {t}, wokenS := wokenS - {t}, pc := pc[t := p])
    }

    /** xTaskRemoveFromEventList on the receivers, if there are any. */
    function WakeReceiver(): State {
      if toReceive == [] then this
      else this.(toReceive := toReceive[1..], wokenR := wokenR + {toReceive[0]})
    }

    function WakeSender(): State {
      if toSend == [] then this
      else this.(toSend := toSend[1..], wokenS := wokenS + {toSend[0]})
    }

    /** The loops of prvUnlockQueue. */
    function WakeReceivers(n: nat): State {
      var d := Drain(toReceive, wokenR, n);
      this.(toReceive := d.0, wokenR := d.1)
    }

    function WakeSenders(n: nat): State {
      var d := Drain(toSend, wokenS, n);
      this.(toSend := d.0, wokenS := d.1)
    }
  }

  /** Up to n tasks move from the head of a waiting list to the woken ones. */
  function Drain(list: seq<Task>, woken: set<Task>, n: nat): (seq<Task>, set<Task>)
    decreases n
  {
    if n == 0 || list == [] then (list, woken) else Drain(list[1..], woken + {list[0]}, n - 1)
  }

  /** ++ on a signed 8-bit char. */
  function Count(lock: int): int {
    if lock == 127 then -128 else lock + 1
  }

  /** The count after prvCopyDataToQueue with queueOVERWRITE, in 8 bits: an item of size 0 is
      not replaced, but counted. */
  function Overwritten(sized: bool, messages: nat): nat {
    if sized then 1 else (messages + 1) % 0x100
  }

  function Most(lock: int): nat {
    if lock > 0 then lock else 0
  }

  datatype Event =
    | Call(t: Task, kind: Kind)
    | Examine(t: Task, mayWait: bool)
    | SuspendScheduler(t: Task)
    | LockQueue(t: Task)
    | CheckTime(t: Task, expired: bool)
    | TestQueue(t: Task)
    | PlaceOnList(t: Task, pos: nat)
    | UnlockTx(t: Task)
    | UnlockRx(t: Task)
    | ResumeScheduler(t: Task)
    | RunAgain(t: Task)
    | TimeOutWaiter(t: Task)
    | SendFromISR(overwrite: bool)
    | ReceiveFromISR
    | Reset

  /** The critical section at the top of the loop of a send or receive. */
  function ExamineStep(s: State, t: Task, mayWait: bool): State
    requires s.At(t).Checking?
  {
    var kind := s.At(t).kind;
    var next := if mayWait then Suspending(kind) else Out;
    match kind
    case Receive =>
      if s.messages > 0 then s.Examined(t, Out).(messages := s.messages - 1).WakeSender() else s.Examined(t, next)
    case Peek =>
      if s.messages > 0 then s.Examined(t, Out).WakeReceiver() else s.Examined(t, next)
    case Send =>
      if s.messages < s.length then s.Examined(t, Out).(messages := s.messages + 1).WakeReceiver()
      else s.Examined(t, next)
    case Overwrite =>
      s.Examined(t, Out).(messages := Overwritten(s.sized, s.messages)).WakeReceiver()
  }

  function Insert(list: seq<Task>, pos: nat, t: Task): seq<Task>
    requires pos <= |list|
  {
    list[..pos] + [t] + list[pos..]
  }

  predicate Enabled(s: State, e: Event) {
    match e
    case Call(t, kind) => s.At(t) == Out && s.owner == None && (kind == Overwrite ==> s.length == 1)
    case Examine(t, _) => s.At(t).Checking? && s.owner == None
    case SuspendScheduler(t) => s.At(t).Suspending? && s.owner == None
    case LockQueue(t) => s.At(t).Locking?
    case CheckTime(t, _) => s.At(t).TimeChecking?
    case TestQueue(t) => s.At(t).Testing?
    case PlaceOnList(t, pos) =>
      s.At(t).Placing? && pos <= |if s.At(t).kind.Receives() then s.toReceive else s.toSend|
    case UnlockTx(t) => s.At(t).UnlockingTx?
    case UnlockRx(t) => s.At(t).UnlockingRx?
    case ResumeScheduler(t) => s.At(t).Resuming?
    case RunAgain(t) => s.At(t).Blocked? && t !in s.toReceive && t !in s.toSend && s.owner == None
    case TimeOutWaiter(t) => (t in s.toReceive || t in s.toSend) && s.owner == None
    case SendFromISR(overwrite) => overwrite ==> s.length == 1
    case ReceiveFromISR => true
    case Reset => s.owner == None
  }

  function Step(s: State, e: Event): State
    requires Enabled(s, e)
  {
    match e
    case Call(t, kind) => s.Goto(t, Checking(kind))
    case Examine(t, mayWait) => ExamineStep(s, t, mayWait)
    case SuspendScheduler(t) => s.(owner := Some(t)).Goto(t, Locking(s.At(t).kind))
    case LockQueue(t) =>
      s.(rxLock := if s.rxLock == UNLOCKED then LOCKED_UNMODIFIED else s.rxLock,
         txLock := if s.txLock == UNLOCKED then LOCKED_UNMODIFIED else s.txLock).Goto(t, TimeChecking(s.At(t).kind))
    case CheckTime(t, expired) =>
      s.Goto(t, if expired then UnlockingTx(s.At(t).kind, GiveUp) else Testing(s.At(t).kind))
    case TestQueue(t) =>
      var kind := s.At(t).kind;
      var blocks := if kind.Receives() then s.messages == 0 else s.messages == s.length;
      s.Goto(t, if blocks then Placing(kind) else UnlockingTx(kind, Retry))
    case PlaceOnList(t, pos) =>
      var kind := s.At(t).kind;
      if kind.Receives() then
        s.(toReceive := Insert(s.toReceive, pos, t)).Goto(t, UnlockingTx(kind, Wait))
      else
        s.(toSend := Insert(s.toSend, pos, t)).Goto(t, UnlockingTx(kind, Wait))
    case UnlockTx(t) =>
      s.WakeReceivers(Most(s.txLock)).(txLock := UNLOCKED).Goto(t, UnlockingRx(s.At(t).kind, s.At(t).after))
    case UnlockRx(t) =>
      s.WakeSenders(Most(s.rxLock)).(rxLock := UNLOCKED).Goto(t, Resuming(s.At(t).kind, s.At(t).after))
    case ResumeScheduler(t) =>
      var p := s.At(t);
      s.(owner := None).Goto(t, match p.after
                                case Retry => Checking(p.kind)
                                case Wait => Blocked(p.kind)
                                case GiveUp => Out)
    case RunAgain(t) => s.Goto(t, Checking(s.At(t).kind))
    case TimeOutWaiter(t) => s.(toReceive := Without(s.toReceive, t), toSend := Without(s.toSend, t))
    case SendFromISR(overwrite) =>
      if s.messages < s.length || overwrite then
        var s1 := s.(messages := if overwrite then Overwritten(s.sized, s.messages) else s.messages + 1);
        if s.txLock == UNLOCKED then s1.WakeReceiver() else s1.(txLock := Count(s.txLock))
      else s
    case ReceiveFromISR =>
      if s.messages > 0 then
        var s1 := s.(messages := s.messages - 1);
        if s.rxLock == UNLOCKED then s1.WakeSender() else s1.(rxLock := Count(s.rxLock))
      else s
    case Reset => s.(messages := 0, rxLock := UNLOCKED, txLock := UNLOCKED).WakeSender()
  }

  // ---- The invariant ------------------------------------------------------------------------

  /** Only the owner of the suspended scheduler is between suspending and resuming it. */
  ghost predicate OwnerOk(pc: Places, owner: Option<Task>) {
    && (forall t :: Where(pc, t).Suspended() ==> owner == Some(t))
    && (owner.Some? ==> Where(pc, owner.value).Suspended())
  }

  /** The queue is locked exactly between prvLockQueue and the two halves of prvUnlockQueue. */
  ghost predicate LocksOk(pc: Places, owner: Option<Task>, txLock: int, rxLock: int) {
    match owner
    case None => txLock == UNLOCKED && rxLock == UNLOCKED
    case Some(t) =>
      match Where(pc, t)
      case Locking(_) | Resuming(_, _) => txLock == UNLOCKED && rxLock == UNLOCKED
      case UnlockingRx(_, _) => txLock == UNLOCKED && rxLock >= LOCKED_UNMODIFIED
      case _ => txLock >= LOCKED_UNMODIFIED && rxLock >= LOCKED_UNMODIFIED
  }

  /** The tasks of a waiting list, and those woken from it that have not examined the queue
      since: they are placed, and no task is in the list twice, or both. */
  ghost predicate WaitersOk(pc: Places, list: seq<Task>, woken: set<Task>, receives: bool) {
    && NoDup(list)
    && (forall t :: t in list ==> Where(pc, t).Placed() && Where(pc, t).kind.Receives() == receives && t !in woken)
    && (forall t :: t in woken ==>
          (Where(pc, t).Placed() || Where(pc, t).Checking?) && Where(pc, t).kind.Receives() == receives)
  }

  /** Only overwriting items of size 0 can bring the count beyond the length. */
  predicate CountOk(messages: nat, length: nat, sized: bool) {
    0 < length < 0x100 && messages < 0x100 && (sized || length > 1 ==> messages <= length)
  }

  /** Only a send that overwrites needs a queue of length one, and it never blocks. */
  ghost predicate KindsOk(pc: Places, messages: nat, length: nat, sized: bool) {
    && CountOk(messages, length, sized)
    && forall t :: Where(pc, t) != Out && Where(pc, t).kind == Overwrite ==> Where(pc, t).Checking? && length == 1
  }

  /** The owner has decided to join the receivers' or the senders' list. */
  predicate AboutToWait(pc: Places, owner: Option<Task>, receives: bool) {
    owner.Some? && Where(pc, owner.value).Placing? && Where(pc, owner.value).kind.Receives() == receives
  }

  /** No lost wake-up: while a receiver waits, every message in the queue is matched by a
      woken receiver still to look at it, or by a wake-up the lock count still owes. */
  ghost predicate ReceiversOk(s: State) {
    s.toReceive != [] || AboutToWait(s.pc, s.owner, true) ==> s.messages <= |s.wokenR| + Most(s.txLock)
  }

  /** The same for free slots and senders. */
  ghost predicate SendersOk(s: State) {
    s.toSend != [] || AboutToWait(s.pc, s.owner, false) ==> s.length - s.messages <= |s.wokenS| + Most(s.rxLock)
  }

  /** What holds of the tasks and the count in every run, even if a lock count wraps. */
  ghost predicate Base(s: State) {
    && OwnerOk(s.pc, s.owner)
    && WaitersOk(s.pc, s.toReceive, s.wokenR, true) && WaitersOk(s.pc, s.toSend, s.wokenS, false)
    && KindsOk(s.pc, s.messages, s.length, s.sized)
  }

  /** Everything about one state but the two wake-up rules. */
  ghost predicate Shape(s: State) {
    Base(s) && LocksOk(s.pc, s.owner, s.txLock, s.rxLock)
  }

  ghost predicate Inv(s: State) {
    Shape(s) && ReceiversOk(s)
  }

  /** An interrupt does not run into the end of an 8-bit lock count. */
  predicate NoWrap(s: State, e: Event) {
    && (e.SendFromISR? ==> s.txLock < 127)
    && (e.ReceiveFromISR? ==> s.rxLock < 127)
  }

  /** Overwriting an item of size 0 runs into the end of the 8-bit count. */
  predicate CountWraps(s: State, e: Event) {
    && !s.sized && s.messages == 0xFF
    && ((e.Examine? && s.At(e.t) == Checking(Overwrite)) || e == SendFromISR(true))
  }

  // ---- Waking -------------------------------------------------------------------------------

  lemma WakeKeeps(pc: Places, list: seq<Task>, woken: set<Task>, receives: bool)
    requires WaitersOk(pc, list, woken, receives) && list != []
    ensures WaitersOk(pc, list[1..], woken + {list[0]}, receives)
    ensures |woken + {list[0]}| == |woken| + 1
  {
    assert forall t :: t in list[1..] ==> t in list;
    assert list[0] in list && list[0] !in list[1..];
  }

  lemma WakeReceiverKeeps(s: State)
    requires Base(s)
    ensures var s' := s.WakeReceiver();
            && Base(s') && s' == s.(toReceive := s'.toReceive, wokenR := s'.wokenR)
            && (s.toReceive == [] ==> s' == s)
            && (s.toReceive != [] ==> |s'.wokenR| == |s.wokenR| + 1)
  {
    hide OwnerOk, WaitersOk, KindsOk;
    if s.toReceive != [] {
      WakeKeeps(s.pc, s.toReceive, s.wokenR, true);
    }
  }

  lemma WakeSenderKeeps(s: State)
    requires Base(s)
    ensures var s' := s.WakeSender();
            && Base(s') && s' == s.(toSend := s'.toSend, wokenS := s'.wokenS)
            && (s.toSend == [] ==> s' == s)
            && (s.toSend != [] ==> |s'.wokenS| == |s.wokenS| + 1)
  {
    hide OwnerOk, WaitersOk, KindsOk;
    if s.toSend != [] {
      WakeKeeps(s.pc, s.toSend, s.wokenS, false);
    }
  }

  /** n wake-ups either empty the list or reach n more tasks. */
  lemma {:induction false} DrainKeeps(pc: Places, list: seq<Task>, woken: set<Task>, receives: bool, n: nat)
    requires WaitersOk(pc, list, woken, receives)
    ensures var d := Drain(list, woken, n);
            && WaitersOk(pc, d.0, d.1, receives)
            && (d.0 == [] || |d.1| == |woken| + n)
            && (d.0 == [] <==> |list| <= n)
            && (list == [] ==> d == (list, woken))
    decreases n
  {
    hide WaitersOk;
    if n > 0 && list != [] {
      WakeKeeps(pc, list, woken, receives);
      DrainKeeps(pc, list[1..], woken + {list[0]}, receives, n - 1);
    }
  }

  // ---- Every step keeps it --------------------------------------------------------------------

  /** Task t moves from p to q, and stays as much placed as it was. */
  lemma MovePlaces(s: State, t: Task, q: Pc)
    requires Base(s)
    requires s.At(t) != Out ==> q == Out || q.kind == s.At(t).kind
    requires t in s.toReceive || t in s.toSend ==> q.Placed()
    requires t in s.wokenR || t in s.wokenS ==> q.Placed() || q.Checking?
    requires q != Out && q.kind == Overwrite ==> q.Checking? && s.length == 1
    ensures var pc := s.pc[t := q];
            && WaitersOk(pc, s.toReceive, s.wokenR, true) && WaitersOk(pc, s.toSend, s.wokenS, false)
            && KindsOk(pc, s.messages, s.length, s.sized)
  {
    var pc := s.pc[t := q];
    assert forall u :: Where(pc, u) == if u == t then q else Where(s.pc, u);
  }

  predicate OnlyMoves(e: Event) {
    e.Call? || e.SuspendScheduler? || e.LockQueue? || e.CheckTime? || e.TestQueue? || e.ResumeScheduler? || e.RunAgain?
  }

  lemma OwnerMoves(s: State, e: Event)
    requires Base(s) && Enabled(s, e) && OnlyMoves(e)
    ensures var s' := Step(s, e);
            && OwnerOk(s'.pc, s'.owner)
            && Most(s'.txLock) == Most(s.txLock) && Most(s'.rxLock) == Most(s.rxLock)
  {
    hide WaitersOk;
    var s' := Step(s, e);
    var q := s'.At(e.t);
    assert forall u :: Where(s'.pc, u) == if u == e.t then q else Where(s.pc, u);
  }

  /** The steps that only move a task along. */
  lemma MovesKeep(s: State, e: Event)
    requires Base(s) && Enabled(s, e) && OnlyMoves(e)
    ensures Base(Step(s, e))
    ensures ReceiversOk(s) ==> ReceiversOk(Step(s, e))
    ensures SendersOk(s) ==> SendersOk(Step(s, e))
  {
    MovePlaces(s, e.t, Step(s, e).At(e.t));
    OwnerMoves(s, e);
    hide WaitersOk, KindsOk, OwnerOk;
  }

  lemma InsertKeeps(list: seq<Task>, pos: nat, t: Task)
    requires pos <= |list| && NoDup(list) && t !in list
    ensures NoDup(Insert(list, pos, t)) && Insert(list, pos, t) != []
    ensures forall u :: u in Insert(list, pos, t) <==> u == t || u in list
  {
    SplicedMembers(list, pos, t);
  }

  /** Task t, about to wait, joins a list. */
  lemma JoinKeeps(pc: Places, list: seq<Task>, woken: set<Task>, receives: bool, t: Task, pos: nat, q: Pc)
    requires WaitersOk(pc, list, woken, receives) && pos <= |list|
    requires Where(pc, t).Placing? && q.Placed() && q.kind.Receives() == receives
    ensures WaitersOk(pc[t := q], Insert(list, pos, t), woken, receives)
  {
    var pc' := pc[t := q];
    assert t !in list && t !in woken;
    InsertKeeps(list, pos, t);
    assert forall u :: Where(pc', u) == if u == t then q else Where(pc, u);
  }

  lemma PlaceKeeps(s: State, t: Task, pos: nat)
    requires Base(s) && Enabled(s, PlaceOnList(t, pos))
    ensures Base(Step(s, PlaceOnList(t, pos)))
    ensures ReceiversOk(s) ==> ReceiversOk(Step(s, PlaceOnList(t, pos)))
    ensures SendersOk(s) ==> SendersOk(Step(s, PlaceOnList(t, pos)))
  {
    var q := UnlockingTx(s.At(t).kind, Wait);
    if s.At(t).kind.Receives() {
      JoinKeeps(s.pc, s.toReceive, s.wokenR, true, t, pos, q);
      InsertKeeps(s.toReceive, pos, t);
    } else {
      JoinKeeps(s.pc, s.toSend, s.wokenS, false, t, pos, q);
      InsertKeeps(s.toSend, pos, t);
    }
    MovePlacing(s, t, q);
    hide WaitersOk, KindsOk;
    var pc := s.pc[t := q];
    assert forall u :: Where(pc, u) == if u == t then q else s.At(u);
  }

  lemma MovePlacing(s: State, t: Task, q: Pc)
    requires Base(s) && s.At(t).Placing? && q == UnlockingTx(s.At(t).kind, Wait)
    ensures t !in s.toReceive && t !in s.toSend
    ensures s.At(t).kind.Receives() ==> WaitersOk(s.pc[t := q], s.toSend, s.wokenS, false)
    ensures !s.At(t).kind.Receives() ==> WaitersOk(s.pc[t := q], s.toReceive, s.wokenR, true)
    ensures KindsOk(s.pc[t := q], s.messages, s.length, s.sized)
  {
    var pc := s.pc[t := q];
    assert Where(s.pc, t).kind != Overwrite;
    forall u | Where(pc, u) != Out && Where(pc, u).kind == Overwrite
      ensures Where(pc, u).Checking? && s.length == 1
    {
      assert Where(s.pc, u).kind == Overwrite;
    }
    assert forall u :: Where(pc, u) == if u == t then q else s.At(u);
  }

  lemma FewerBy(ts: set<Task>, t: Task)
    ensures |ts - {t}| + 1 >= |ts|
    ensures t !in ts ==> |ts - {t}| == |ts|
  {
    if t in ts {
      assert ts == (ts - {t}) + {t};
    } else {
      assert ts - {t} == ts;
    }
  }

  lemma ExaminedKeeps(s: State, t: Task, p: Pc)
    requires Base(s) && s.At(t).Checking? && s.owner == None
    requires p == Out || (p.Suspending? && p.kind == s.At(t).kind && p.kind != Overwrite)
    ensures Base(s.Examined(t, p))
  {
    var s' := s.Examined(t, p);
    var pc := s.pc[t := p];
    assert forall u :: Where(pc, u) == if u == t then p else Where(s.pc, u);
    assert WaitersOk(pc, s.toReceive, s.wokenR - {t}, true);
    assert WaitersOk(pc, s.toSend, s.wokenS - {t}, false);
    assert OwnerOk(pc, None) && KindsOk(pc, s.messages, s.length, s.sized);
  }

  /** An examination settles at most one wake-up, of the task's own kind. */
  lemma ExaminedCounts(s: State, t: Task, p: Pc)
    requires Base(s) && s.At(t).Checking?
    ensures var s' := s.Examined(t, p);
            && |s'.wokenR| + (if s.At(t).kind.Receives() then 1 else 0) >= |s.wokenR|
            && |s'.wokenS| + (if s.At(t).kind.Receives() then 0 else 1) >= |s.wokenS|
  {
    FewerBy(s.wokenR, t);
    FewerBy(s.wokenS, t);
    assert if s.At(t).kind.Receives() then t !in s.wokenS else t !in s.wokenR;
  }

  lemma Recounted(s: State, messages: nat)
    requires Base(s) && CountOk(messages, s.length, s.sized)
    ensures Base(s.(messages := messages))
  {
  }

  lemma Relocked(s: State, txLock: int, rxLock: int)
    requires Base(s)
    ensures Base(s.(txLock := txLock, rxLock := rxLock))
  {
  }

  lemma BaseFacts(s: State)
    requires Base(s)
    ensures CountOk(s.messages, s.length, s.sized)
    ensures forall t :: s.At(t).Checking? && s.At(t).kind == Overwrite ==> s.length == 1
  {
  }

  lemma LockFacts(s: State)
    requires Shape(s)
    ensures s.txLock >= UNLOCKED && s.rxLock >= UNLOCKED
    ensures AboutToWait(s.pc, s.owner, true) || AboutToWait(s.pc, s.owner, false) ==>
              s.txLock >= LOCKED_UNMODIFIED && s.rxLock >= LOCKED_UNMODIFIED
  {
  }

  lemma LocksKeep(s: State, e: Event)
    requires Shape(s) && Enabled(s, e) && NoWrap(s, e)
    ensures var s' := Step(s, e); LocksOk(s'.pc, s'.owner, s'.txLock, s'.rxLock)
  {
    hide WaitersOk, KindsOk, Step, OwnerOk, LocksOk;
    if e.SendFromISR? || e.ReceiveFromISR? {
      InterruptLocks(s, e);
    } else if s.owner == None {
      IdleLocks(s, e);
    } else {
      OwnerLocks(s, e);
    }
  }

  lemma InterruptLocks(s: State, e: Event)
    requires Shape(s) && Enabled(s, e) && NoWrap(s, e) && (e.SendFromISR? || e.ReceiveFromISR?)
    ensures var s' := Step(s, e); LocksOk(s'.pc, s'.owner, s'.txLock, s'.rxLock)
  {
    hide WaitersOk, KindsOk, OwnerOk;
    assert Step(s, e).pc == s.pc && Step(s, e).owner == s.owner;
  }

  lemma IdleLocks(s: State, e: Event)
    requires Shape(s) && Enabled(s, e) && s.owner == None && !e.SendFromISR? && !e.ReceiveFromISR?
    ensures var s' := Step(s, e); LocksOk(s'.pc, s'.owner, s'.txLock, s'.rxLock)
  {
    hide WaitersOk, KindsOk;
  }

  lemma OwnerLocks(s: State, e: Event)
    requires Shape(s) && Enabled(s, e) && s.owner.Some? && !e.SendFromISR? && !e.ReceiveFromISR?
    ensures var s' := Step(s, e); LocksOk(s'.pc, s'.owner, s'.txLock, s'.rxLock)
  {
    hide WaitersOk, KindsOk;
    assert e != Reset && !e.TimeOutWaiter? && e.t == s.owner.value;
  }

  lemma ReceiveKeeps(s: State, t: Task)
    requires Base(s) && s.At(t).Checking? && s.owner == None && s.At(t).kind == Receive && s.messages > 0
    ensures var s' := s.Examined(t, Out).(messages := s.messages - 1).WakeSender();
            && Base(s')
            && (ReceiversOk(s) ==> ReceiversOk(s'))
            && (SendersOk(s) ==> SendersOk(s'))
  {
    hide Base, State.WakeReceiver, State.WakeSender;
    BaseFacts(s);
    ExaminedKeeps(s, t, Out);
    ExaminedCounts(s, t, Out);
    Recounted(s.Examined(t, Out), s.messages - 1);
    WakeSenderKeeps(s.Examined(t, Out).(messages := s.messages - 1));
  }

  lemma PeekKeeps(s: State, t: Task)
    requires Base(s) && s.At(t).Checking? && s.owner == None && s.At(t).kind == Peek
    ensures var s' := s.Examined(t, Out).WakeReceiver();
            && Base(s')
            && (ReceiversOk(s) ==> ReceiversOk(s'))
            && (SendersOk(s) ==> SendersOk(s'))
  {
    hide Base, State.WakeReceiver, State.WakeSender;
    BaseFacts(s);
    ExaminedKeeps(s, t, Out);
    ExaminedCounts(s, t, Out);
    WakeReceiverKeeps(s.Examined(t, Out));
  }

  lemma SendKeeps(s: State, t: Task, m: nat)
    requires Base(s) && s.At(t).Checking? && s.owner == None && !s.At(t).kind.Receives()
    requires m <= s.messages + 1 && CountOk(m, s.length, s.sized)
    ensures var s' := s.Examined(t, Out).(messages := m).WakeReceiver();
            && Base(s')
            && (ReceiversOk(s) ==> ReceiversOk(s'))
            && ((m > s.messages || m >= s.length) && SendersOk(s) ==> SendersOk(s'))
  {
    hide Base, State.WakeReceiver, State.WakeSender;
    BaseFacts(s);
    ExaminedKeeps(s, t, Out);
    ExaminedCounts(s, t, Out);
    Recounted(s.Examined(t, Out), m);
    WakeReceiverKeeps(s.Examined(t, Out).(messages := m));
  }

  /** Nothing to receive, or no room to send. */
  lemma NothingKeeps(s: State, t: Task, next: Pc)
    requires Base(s) && s.At(t).Checking? && s.owner == None && s.At(t).kind != Overwrite
    requires if s.At(t).kind.Receives() then s.messages == 0 else s.messages >= s.length
    requires next == Out || next == Suspending(s.At(t).kind)
    ensures var s' := s.Examined(t, next);
            && Base(s')
            && (ReceiversOk(s) ==> ReceiversOk(s'))
            && (SendersOk(s) ==> SendersOk(s'))
  {
    hide Base;
    ExaminedKeeps(s, t, next);
    ExaminedCounts(s, t, next);
  }

  lemma ExamineKeeps(s: State, t: Task, mayWait: bool)
    requires Base(s) && Enabled(s, Examine(t, mayWait))
    ensures Base(ExamineStep(s, t, mayWait))
    ensures ReceiversOk(s) ==> ReceiversOk(ExamineStep(s, t, mayWait))
    ensures SendersOk(s) && !CountWraps(s, Examine(t, mayWait)) ==> SendersOk(ExamineStep(s, t, mayWait))
  {
    hide Base, ReceiversOk, SendersOk, State.WakeReceiver, State.WakeSender, State.Examined;
    BaseFacts(s);
    var kind := s.At(t).kind;
    if kind == Receive && s.messages > 0 {
      ReceiveKeeps(s, t);
    } else if kind == Peek && s.messages > 0 {
      PeekKeeps(s, t);
    } else if kind == Overwrite || (kind == Send && s.messages < s.length) {
      SendKeeps(s, t, if kind == Overwrite then Overwritten(s.sized, s.messages) else s.messages + 1);
    } else {
      NothingKeeps(s, t, if mayWait then Suspending(kind) else Out);
    }
  }

  lemma UnlockKeeps(s: State, e: Event)
    requires Base(s) && Enabled(s, e) && (e.UnlockTx? || e.UnlockRx?)
    ensures Base(Step(s, e))
    ensures ReceiversOk(s) ==> ReceiversOk(Step(s, e))
    ensures SendersOk(s) ==> SendersOk(Step(s, e))
  {
    if e.UnlockTx? {
      DrainKeeps(s.pc, s.toReceive, s.wokenR, true, Most(s.txLock));
      UnlockMoves(s.WakeReceivers(Most(s.txLock)), e.t, UnlockingRx(s.At(e.t).kind, s.At(e.t).after), UNLOCKED, s.rxLock);
    } else {
      DrainKeeps(s.pc, s.toSend, s.wokenS, false, Most(s.rxLock));
      UnlockMoves(s.WakeSenders(Most(s.rxLock)), e.t, Resuming(s.At(e.t).kind, s.At(e.t).after), s.txLock, UNLOCKED);
    }
  }

  lemma UnlockMoves(s: State, t: Task, q: Pc, txLock: int, rxLock: int)
    requires Base(s) && (s.At(t).UnlockingTx? || s.At(t).UnlockingRx?)
    requires q != Out && q.kind == s.At(t).kind
    requires if s.At(t).UnlockingTx? then q.UnlockingRx? && q.after == s.At(t).after && txLock == UNLOCKED && rxLock == s.rxLock
             else q.Resuming? && q.after == s.At(t).after && txLock == s.txLock && rxLock == UNLOCKED
    ensures Base(s.(txLock := txLock, rxLock := rxLock).Goto(t, q))
  {
    var pc := s.pc[t := q];
    MovePlaces(s, t, q);
    hide WaitersOk, KindsOk;
    assert forall u :: Where(pc, u) == if u == t then q else s.At(u);
  }

  /** An interrupt only touches the waiting lists of an unlocked queue; otherwise it counts. */
  lemma SendInterruptKeeps(s: State, overwrite: bool)
    requires Base(s) && Enabled(s, SendFromISR(overwrite))
    ensures Base(Step(s, SendFromISR(overwrite)))
    ensures Shape(s) && NoWrap(s, SendFromISR(overwrite)) && ReceiversOk(s) ==> ReceiversOk(Step(s, SendFromISR(overwrite)))
    ensures SendersOk(s) && !CountWraps(s, SendFromISR(overwrite)) ==> SendersOk(Step(s, SendFromISR(overwrite)))
  {
    hide Base, Shape, State.WakeReceiver, State.WakeSender;
    BaseFacts(s);
    if Shape(s) {
      LockFacts(s);
    }
    if s.messages < s.length || overwrite {
      var m := if overwrite then Overwritten(s.sized, s.messages) else s.messages + 1;
      Recounted(s, m);
      if s.txLock == UNLOCKED {
        WakeReceiverKeeps(s.(messages := m));
      } else {
        Relocked(s.(messages := m), Count(s.txLock), s.rxLock);
      }
    }
  }

  lemma ReceiveInterruptKeeps(s: State)
    requires Base(s)
    ensures Base(Step(s, ReceiveFromISR))
    ensures ReceiversOk(s) ==> ReceiversOk(Step(s, ReceiveFromISR))
    ensures Shape(s) && NoWrap(s, ReceiveFromISR) && SendersOk(s) ==> SendersOk(Step(s, ReceiveFromISR))
  {
    hide Base, Shape, State.WakeReceiver, State.WakeSender;
    BaseFacts(s);
    if Shape(s) {
      LockFacts(s);
    }
    if s.messages > 0 {
      Recounted(s, s.messages - 1);
      if s.rxLock == UNLOCKED {
        WakeSenderKeeps(s.(messages := s.messages - 1));
      } else {
        Relocked(s.(messages := s.messages - 1), s.txLock, Count(s.rxLock));
      }
    }
  }

  lemma TimeOutKeeps(s: State, t: Task)
    requires Base(s) && Enabled(s, TimeOutWaiter(t))
    ensures Base(Step(s, TimeOutWaiter(t)))
    ensures ReceiversOk(s) ==> ReceiversOk(Step(s, TimeOutWaiter(t)))
    ensures SendersOk(s) ==> SendersOk(Step(s, TimeOutWaiter(t)))
  {
    WithoutOne(s.toReceive, t);
    WithoutOne(s.toSend, t);
  }

  lemma ResetKeeps(s: State)
    requires Base(s) && Enabled(s, Reset)
    ensures Base(Step(s, Reset)) && ReceiversOk(Step(s, Reset))
  {
    var s1 := s.(messages := 0, rxLock := UNLOCKED, txLock := UNLOCKED);
    Recounted(s, 0);
    Relocked(s.(messages := 0), UNLOCKED, UNLOCKED);
    WakeSenderKeeps(s1);
  }

  /** Whatever the lock counts do, a step keeps what is known of the tasks and the count. */
  lemma StepKeepsBase(s: State, e: Event)
    requires Base(s) && Enabled(s, e)
    ensures Base(Step(s, e))
  {
    hide Base, ExamineStep;
    match e
    case Examine(t, mayWait) => ExamineKeeps(s, t, mayWait);
    case PlaceOnList(t, pos) => PlaceKeeps(s, t, pos);
    case UnlockTx(_) | UnlockRx(_) => UnlockKeeps(s, e);
    case SendFromISR(overwrite) => SendInterruptKeeps(s, overwrite);
    case ReceiveFromISR => ReceiveInterruptKeeps(s);
    case TimeOutWaiter(t) => TimeOutKeeps(s, t);
    case Reset => ResetKeeps(s);
    case _ => MovesKeep(s, e);
  }

  /** No step that wraps no count loses a wake-up, except that a reset may lose a sender's. */
  lemma StepKeeps(s: State, e: Event)
    requires Inv(s) && Enabled(s, e) && NoWrap(s, e)
    ensures Inv(Step(s, e))
    ensures SendersOk(s) && e != Reset && !CountWraps(s, e) ==> SendersOk(Step(s, e))
  {
    LocksKeep(s, e);
    StepKeepsBase(s, e);
    hide Base, LocksOk, ReceiversOk, SendersOk, ExamineStep;
    match e
    case Examine(t, mayWait) => ExamineKeeps(s, t, mayWait);
    case PlaceOnList(t, pos) => PlaceKeeps(s, t, pos);
    case UnlockTx(_) | UnlockRx(_) => UnlockKeeps(s, e);
    case SendFromISR(overwrite) => SendInterruptKeeps(s, overwrite);
    case ReceiveFromISR => ReceiveInterruptKeeps(s);
    case TimeOutWaiter(t) => TimeOutKeeps(s, t);
    case Reset => ResetKeeps(s);
    case _ => MovesKeep(s, e);
  }

  // ---- Whole runs -----------------------------------------------------------------------------

  predicate Feasible(s: State, es: seq<Event>)
    decreases |es|
  {
    es == [] || (Enabled(s, es[0]) && Feasible(Step(s, es[0]), es[1..]))
  }

  /** No lock count wraps. */
  predicate Possible(s: State, es: seq<Event>): (possible: bool)
    ensures possible ==> Feasible(s, es)
    decreases |es|
  {
    es == [] || (Enabled(s, es[0]) && NoWrap(s, es[0]) && Possible(Step(s, es[0]), es[1..]))
  }

  /** Nor does the count of items of size 0. */
  predicate NeverCountWraps(s: State, es: seq<Event>)
    requires Feasible(s, es)
    decreases |es|
  {
    es == [] || (!CountWraps(s, es[0]) && NeverCountWraps(Step(s, es[0]), es[1..]))
  }

  function Run(s: State, es: seq<Event>): State
    requires Feasible(s, es)
    decreases |es|
  {
    if es == [] then s else Run(Step(s, es[0]), es[1..])
  }

  /** A new queue, and no task inside any of its calls. */
  predicate Fresh(s: State) {
    && 0 < s.length < 0x100 && s.messages == 0 && s.rxLock == UNLOCKED && s.txLock == UNLOCKED
    && s.toReceive == [] && s.toSend == [] && s.wokenR == {} && s.wokenS == {} && s.pc == map[] && s.owner == None
  }

  lemma {:induction false} RunKeeps(s: State, es: seq<Event>)
    requires Inv(s) && Possible(s, es)
    ensures Inv(Run(s, es))
    ensures SendersOk(s) && Reset !in es && NeverCountWraps(s, es) ==> SendersOk(Run(s, es))
    decreases |es|
  {
    if es != [] {
      StepKeeps(s, es[0]);
      RunKeeps(Step(s, es[0]), es[1..]);
    }
  }

  lemma {:induction false} RunKeepsBase(s: State, es: seq<Event>)
    requires Base(s) && Feasible(s, es)
    ensures Base(Run(s, es))
    decreases |es|
  {
    if es != [] {
      StepKeepsBase(s, es[0]);
      RunKeepsBase(Step(s, es[0]), es[1..]);
    }
  }

  /** In every run from a new queue: whenever the scheduler is not suspended, a receiver waits
      only while every message has a woken receiver coming for it, and likewise a sender and
      free slots. */
  lemma NoLostWakeUp(s: State, es: seq<Event>)
    requires Fresh(s) && Possible(s, es) && Run(s, es).owner == None
    ensures var s' := Run(s, es);
            && (s'.toReceive != [] ==> s'.messages <= |s'.wokenR|)
            && (s'.toSend != [] && Reset !in es && NeverCountWraps(s, es) ==> s'.length - s'.messages <= |s'.wokenS|)
  {
    RunKeeps(s, es);
  }
}
