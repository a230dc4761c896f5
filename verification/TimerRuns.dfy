/** Whole runs of the timer daemon: what each of its steps does to its state as a value, and
    what follows for an auto-reload timer over any number of them. */
module TimerRuns {
  import opened Tasks
  import opened TimerLists

  /** The state of the daemon, with the timers followed, the callbacks made, and
      the true time of its last look at the clock. */
  datatype Daemon = Daemon(v: View, track: map<Timer, Track>, period: map<Timer, nat>, auto: map<Timer, bool>,
                           callbacks: seq<Timer>, last: nat)

  ghost predicate DaemonOk(d: Daemon) {
    && AllOk(d.v, d.track, d.period, d.auto, {}) && |d.v.queue| <= QUEUE_LENGTH
    && (forall t :: t in d.track ==> d.track[t].due <= d.last)
    && Logged(d.callbacks, d.track)
  }

  // ---- The steps ----------------------------------------------------------------------------

  /** The expiries of a timer up to n ticks after its start. */
  function Expiries(n: nat, P: nat, auto: bool): nat
    requires P > 0
  {
    if auto then n / P else if n >= P then 1 else 0
  }

  /** Nothing is overdue for timer t at true time now, nor will be before the block time ends. */
  ghost predicate UpToDate(d: Daemon, t: Timer, now: nat, xBlockTime: nat) {
    && t in d.track && t in d.period && t in d.auto && d.period[t] > 0
    && (GoesOn(d.track[t], d.auto[t]) ==>
          && d.track[t].due + d.period[t] > now
          && d.track[t].due + d.period[t] >= now + xBlockTime)
    && now >= d.track[t].start && d.track[t].calls == Expiries(now - d.track[t].start, d.period[t], d.auto[t])
  }

  function NextValue(v: View): nat {
    if v.cur == [] then 0 else Value(v.value, v.cur[0])
  }

  /** With no command queued and nothing in the current list due, nothing is overdue. */
  lemma NothingOverdue(d: Daemon, now: nat, xBlockTime: nat, t: Timer)
    requires DaemonOk(d) && d.v.queue == [] && now == d.last && now / TICKS_PER_EPOCH == d.v.epoch && t in d.track
    requires d.v.cur == [] || NextValue(d.v) > now % TICKS_PER_EPOCH
    requires NextValue(d.v) < TICKS_PER_EPOCH && xBlockTime == (NextValue(d.v) - now % TICKS_PER_EPOCH) % TICKS_PER_EPOCH
    ensures UpToDate(d, t, now, xBlockTime)
  {
    hide ViewOk, Known, Fine, Logged, Value;
    if GoesOn(d.track[t], d.auto[t]) {
      NextExpiry(d.v, d.track, d.period, d.auto, t);
      CallsAreFloor(d.track[t], d.period[t], now);
    }
  }

  /** One callback, for timer t. */
  ghost predicate CalledOnce(d: Daemon, d': Daemon, t: Timer) {
    && d'.callbacks == d.callbacks + [t]
    && (t in d'.track ==> t in d.track && t in d.period && d'.track[t] == Called(d.track[t], d.period[t]))
    && (forall u :: u in d'.track && u != t ==> u in d.track && d'.track[u] == d.track[u])
  }

  /** A look at the clock at true time now, and what is done about it. */
  ghost predicate Looked(d: Daemon, d': Daemon, now: nat, blocks: bool, xBlockTime: nat) {
    && d'.last == now && d'.v.epoch == now / TICKS_PER_EPOCH && d'.period == d.period && d'.auto == d.auto
    && d'.track.Keys <= d.track.Keys && Kept(d.track, d'.track)
    && (|d'.v.queue| < QUEUE_LENGTH ==> d'.track.Keys == d.track.Keys)
    && (blocks <==> d'.v.epoch == d.v.epoch && (d.v.cur == [] || NextValue(d.v) > now % TICKS_PER_EPOCH))
    && (blocks ==>
          && d'.v == d.v && d'.track == d.track && d'.callbacks == d.callbacks
          && xBlockTime == (NextValue(d.v) - now % TICKS_PER_EPOCH) % TICKS_PER_EPOCH
          && (d.v.queue == [] ==> forall t :: t in d'.track ==> UpToDate(d', t, now, xBlockTime)))
    && (d'.v.epoch == d.v.epoch && !blocks ==>
          var t := d.v.cur[0];
          && CalledOnce(d, d', t) && t in d.period && t in d.auto
          && Reloaded(d.v, d'.v, t, d.v.epoch * TICKS_PER_EPOCH + NextValue(d.v), d.period[t], d.auto[t], now))
    && (d'.v.epoch != d.v.epoch ==>
          && CalledOrIn(d.v.cur, d.callbacks, d'.callbacks, [])
          && Rounded(d.v.cur, [], d'.track, d.period, d.auto, d'.v.epoch * TICKS_PER_EPOCH))
  }

  /** What command m, taken for one of true time C and carried out at true time now, does for its
      timer, from the state d right after it was taken out of the queue. */
  ghost predicate Done(m: Message, C: nat, now: nat, d: Daemon, d': Daemon) {
    match m
    case Call =>
      d' == d
    case Start(t, _) =>
      && d'.period == d.period && t in d.period && t in d.auto && Started(t, C, now, d, d')
    case Stop(t) =>
      && d'.period == d.period && t !in d'.v.cur && t !in d'.v.over
      && multiset(d'.callbacks)[t] == multiset(d.callbacks)[t]
    case ChangePeriod(t, p) =>
      && d'.period == d.period[t := p] && ActiveUntil(d'.v, t, now + p) && t in d.auto
      && multiset(d'.callbacks)[t] == multiset(d.callbacks)[t]
      && (!InQueue(d.v, t) ==>
            t in d'.track && d'.track[t] == Track(now, 0, now, multiset(d.callbacks)[t]))
  }

  /** A start: a callback at once exactly if the expiry is past, and otherwise the timer is in a
      list until then.  It is followed from C, if it was not followed already. */
  ghost predicate Started(t: Timer, C: nat, now: nat, d: Daemon, d': Daemon)
    requires t in d.period && t in d.auto
  {
    var X := C + d.period[t];
    && (X <= now || ActiveUntil(d'.v, t, X))
    && multiset(d'.callbacks)[t] == multiset(d.callbacks)[t] + (if X <= now then 1 else 0)
    && (t in d.track && t in d'.track ==>
          d'.track[t] == if X <= now then Called(d.track[t], d.period[t]) else d.track[t])
    && (|d'.v.queue| < QUEUE_LENGTH && t !in d.track && !InQueue(d.v, t) ==>
          t in d'.track && d'.track[t].start == C && d'.track[t].before == multiset(d.callbacks)[t])
  }

  // ---- How a start command is carried out ------------------------------------------------------

  /** Timer t has left its list and the clock has been read; it is followed if it starts. */
  ghost predicate Prepared(t: Timer, starts: bool, C: nat, d: Daemon, d': Daemon) {
    && d'.period == d.period && d'.auto == d.auto && t in d.auto && Kept(d.track, d'.track)
    && (|d'.v.queue| < QUEUE_LENGTH ==> d.track.Keys <= d'.track.Keys)
    && multiset(d'.callbacks)[t] == multiset(d.callbacks)[t] && (InQueue(d'.v, t) <==> InQueue(d.v, t))
    && (starts && t !in d.track && !InQueue(d.v, t) ==>
          t in d'.track && d'.track[t] == Track(C, 0, C, multiset(d.callbacks)[t]))
    && (t in d.track ==> t in d'.track && d'.track[t] == d.track[t])
    && (!starts ==> t !in d'.track)
  }

  /** A timer started from C is in a list until it expires, or has expired and was called. */
  ghost predicate StartMade(t: Timer, C: nat, now: nat, d: Daemon, d': Daemon) {
    && d'.period == d.period && d'.auto == d.auto && t in d.period
    && d'.track.Keys <= d.track.Keys && Kept(d.track, d'.track) && |d'.v.queue| >= |d.v.queue|
    && (|d'.v.queue| < QUEUE_LENGTH ==> d'.track.Keys == d.track.Keys)
    && d'.callbacks == d.callbacks + (if t in d'.v.cur || t in d'.v.over then [] else [t])
    && var X := C + d.period[t];
       && (if X <= now then t !in d'.v.cur && t !in d'.v.over else ActiveUntil(d'.v, t, X))
       && (t in d'.track ==> t in d.track && d'.track[t] == if X <= now then Called(d.track[t], d.period[t]) else d.track[t])
  }

  lemma StartComposes(t: Timer, C: nat, now: nat, d: Daemon, d1: Daemon, d2: Daemon)
    requires t in d.period && t in d.auto
    requires Prepared(t, true, C, d, d1) && StartMade(t, C, now, d1, d2)
    ensures Kept(d.track, d2.track)
    ensures |d2.v.queue| < QUEUE_LENGTH ==> d.track.Keys <= d2.track.Keys
    ensures Started(t, C, now, d, d2)
  {
    hide InQueue;
    assert ActiveUntil(d2.v, t, C + d.period[t]) ==> t in d2.v.cur || t in d2.v.over;
  }

  /** By how much the start command that comes next is misunderstood at true time now. */
  ghost function HeadSlip(d: Daemon, now: nat): nat
    requires |d.v.stamps| == |d.v.queue|
  {
    if d.v.queue == [] || !d.v.queue[0].Start? || d.v.queue[0].timer !in d.period || now < d.v.stamps[0] then 0
    else Slip(d.v.stamps[0], now, d.period[d.v.queue[0].timer])
  }

  /** The next command taken from the queue; if it restarts a timer that is followed, then that
      is followed from the start that the command will be taken for. */
  ghost function Taken(d: Daemon, now: nat): Daemon
    requires d.v.queue != [] && |d.v.stamps| == |d.v.queue|
  {
    d.(v := Pop(d.v),
       track := if d.v.queue[0].Start? then Slid(d.track, d.v.queue[0].timer, HeadSlip(d, now)) else d.track)
  }

  /** One command taken from the queue, if there is one, at true time now. */
  ghost predicate Served(d: Daemon, d': Daemon, now: nat)
    requires |d.v.stamps| == |d.v.queue|
  {
    if d.v.queue == [] then d' == d
    else
      && d'.auto == d.auto && d'.last == (if d.v.queue[0].Call? then d.last else now)
      && Kept(Taken(d, now).track, d'.track)
      && (|d'.v.queue| < QUEUE_LENGTH ==> d.track.Keys <= d'.track.Keys)
      && Done(d.v.queue[0], d.v.stamps[0] + HeadSlip(d, now), now, Taken(d, now), d')
  }

  /** A command sent by another task: its timer is no longer followed. */
  ghost function Commanded(d: Daemon, m: Message, C: nat): Daemon {
    if |d.v.queue| < QUEUE_LENGTH then
      d.(v := Post(d.v, m, C), track := if m.Call? then d.track else d.track - {m.timer})
    else
      d
  }

  ghost function Created(d: Daemon, t: Timer, period: nat, auto: bool): Daemon {
    if period == 0 then d else d.(period := d.period[t := period], auto := d.auto[t := auto])
  }

  // ---- Runs -----------------------------------------------------------------------------------

  datatype Action =
    | Look(now: nat, blocks: bool, xBlockTime: nat)
    | Serve(now: nat)
    | Command(m: Message, C: nat)
    | Create(t: Timer, period: nat, auto: bool)

  /** No start command is served before its time stamp was taken. */
  ghost predicate StampPast(d: Daemon, now: nat)
    requires |d.v.stamps| == |d.v.queue|
  {
    d.v.queue != [] && d.v.queue[0].Start? ==> d.v.stamps[0] <= now
  }

  /** The daemon looks at the clock, or serves a command, less than a full period of the counter
      after its last look. */
  ghost predicate Step(d: Daemon, d': Daemon, a: Action)
    requires DaemonOk(d)
  {
    match a
    case Look(now, blocks, xBlockTime) => d.last <= now < d.last + TICKS_PER_EPOCH && Looked(d, d', now, blocks, xBlockTime)
    case Serve(now) => d.last <= now < d.last + TICKS_PER_EPOCH && StampPast(d, now) && Served(d, d', now)
    case Command(m, C) => d' == Commanded(d, m, C)
    case Create(t, period, auto) => t !in d.period && d' == Created(d, t, period, auto)
  }

  /** The states ds of a run with the steps acts, in any order. */
  ghost predicate IsRun(ds: seq<Daemon>, acts: seq<Action>) {
    && |ds| == |acts| + 1
    && (forall i :: 0 <= i < |ds| ==> DaemonOk(ds[i]))
    && (forall i :: 0 <= i < |acts| ==> Step(ds[i], ds[i + 1], acts[i]))
  }

  /** Step a from d to d' leaves timer t alone: the queue is not full after it, and it is no new
      command for t. */
  ghost predicate Spares(d': Daemon, a: Action, t: Timer) {
    |d'.v.queue| < QUEUE_LENGTH && !(a.Command? && a.m.For(t))
  }

  /** So do all steps from state k on. */
  ghost predicate Undisturbed(ds: seq<Daemon>, acts: seq<Action>, t: Timer, k: nat)
    requires IsRun(ds, acts)
  {
    forall i :: k <= i < |acts| ==> Spares(ds[i + 1], acts[i], t)
  }

  /** Step a serves a start of timer t that is not in time. */
  ghost predicate LateStart(d: Daemon, a: Action, t: Timer)
    requires DaemonOk(d)
  {
    && a.Serve? && d.v.queue != [] && d.v.queue[0].Start? && d.v.queue[0].timer == t
    && t in d.period && !InTime(d.v.stamps[0], a.now, d.period[t])
  }

  ghost predicate NeverLate(ds: seq<Daemon>, acts: seq<Action>, t: Timer, k: nat, i: nat)
    requires IsRun(ds, acts)
  {
    forall j :: k <= j < i && j < |acts| ==> !LateStart(ds[j], acts[j], t)
  }

  /** By how much step a puts off the start of timer t. */
  ghost function SlipAt(d: Daemon, a: Action, t: Timer): nat
    requires DaemonOk(d)
  {
    if a.Serve? && d.v.queue != [] && d.v.queue[0].Start? && d.v.queue[0].timer == t then HeadSlip(d, a.now) else 0
  }

  /** By how much the steps from k up to i do. */
  ghost function TotalSlip(ds: seq<Daemon>, acts: seq<Action>, t: Timer, k: nat, i: nat): nat
    requires IsRun(ds, acts) && k <= i <= |acts|
    decreases i - k
  {
    if k == i then 0 else SlipAt(ds[k], acts[k], t) + TotalSlip(ds, acts, t, k + 1, i)
  }

  lemma SlipWhenLate(d: Daemon, d': Daemon, a: Action, t: Timer)
    requires DaemonOk(d) && Step(d, d', a)
    ensures if LateStart(d, a, t) then SlipAt(d, a, t) >= TICKS_PER_EPOCH else SlipAt(d, a, t) == 0
  {
    hide ListOk, AllFine, Logged, InTime, Slip, Served;
    if a.Serve? && d.v.queue != [] && d.v.queue[0].Start? {
      assert MessageOk(d.v.queue[0], d.period);
      SlipFacts(d.v.stamps[0], a.now, d.period[d.v.queue[0].timer]);
    }
  }

  lemma {:induction false} SlipsWhenLate(ds: seq<Daemon>, acts: seq<Action>, t: Timer, k: nat, i: nat)
    requires IsRun(ds, acts) && k <= i <= |acts|
    ensures if NeverLate(ds, acts, t, k, i) then TotalSlip(ds, acts, t, k, i) == 0
            else TotalSlip(ds, acts, t, k, i) >= TICKS_PER_EPOCH
    decreases i - k
  {
    hide DaemonOk, Step, LateStart, SlipAt;
    if k < i {
      SlipWhenLate(ds[k], ds[k + 1], acts[k], t);
      SlipsWhenLate(ds, acts, t, k + 1, i);
    }
  }

  /** Timer t is followed in d' as it is in d, but from a start that is s later. */
  ghost predicate SameTrack(d: Daemon, d': Daemon, t: Timer, s: nat) {
    && t in d.track && t in d.period && t in d'.track && t in d'.period && d'.period[t] == d.period[t]
    && t in d.auto && t in d'.auto && d'.auto[t] == d.auto[t]
    && d'.track[t].start == d.track[t].start + s && d'.track[t].before == d.track[t].before
  }

  lemma StepKeeps(d: Daemon, d': Daemon, a: Action, t: Timer)
    requires DaemonOk(d) && DaemonOk(d') && Step(d, d', a) && Spares(d', a, t) && t in d.track
    ensures SameTrack(d, d', t, SlipAt(d, a, t))
  {
    hide ViewOk, Fine, Logged, Rounded, CalledOrIn, UpToDate, Started, InQueue, TrackOk, HeadSlip, StampPast;
    if a.Serve? && d.v.queue != [] {
      PopAll(d.v, d.track, d.period, d.auto);
    }
  }

  lemma {:induction false} FollowedThroughout(ds: seq<Daemon>, acts: seq<Action>, t: Timer, k: nat, i: nat)
    requires IsRun(ds, acts) && Undisturbed(ds, acts, t, k) && k <= i <= |acts| && t in ds[k].track
    ensures SameTrack(ds[k], ds[i], t, TotalSlip(ds, acts, t, k, i))
    decreases i - k
  {
    hide Step, Spares, AllOk, Logged, SlipAt;
    if i == k {
      FollowedHasPeriod(ds[k], t);
    } else {
      assert Step(ds[k], ds[k + 1], acts[k]) && Spares(ds[k + 1], acts[k], t);
      StepKeeps(ds[k], ds[k + 1], acts[k], t);
      FollowedThroughout(ds, acts, t, k + 1, i);
    }
  }

  lemma FollowedHasPeriod(d: Daemon, t: Timer)
    requires DaemonOk(d) && t in d.track
    ensures t in d.period && t in d.auto && TrackOk(d.track[t], d.period[t]) && d.track[t].due <= d.last
    ensures !d.auto[t] ==> d.track[t].calls <= 1
    ensures multiset(d.callbacks)[t] == d.track[t].before + d.track[t].calls
  {
  }

  /** Since it was started at C, timer t has had no callback early in state d. */
  ghost predicate NoneEarly(d: Daemon, t: Timer, C: nat, P: nat, before: nat) {
    var n := multiset(d.callbacks)[t];
    before <= n && C + (n - before) * P <= d.last
  }

  /** It has had one for each of its expiries up to true time now. */
  ghost predicate AllMade(d: Daemon, t: Timer, C: nat, P: nat, before: nat, now: nat) {
    now >= C && P > 0 && multiset(d.callbacks)[t] - before == (now - C) / P
  }

  /** It has had one callback at most. */
  ghost predicate AtMostOne(d: Daemon, t: Timer, before: nat) {
    before <= multiset(d.callbacks)[t] <= before + 1
  }

  /** It has had its only one if that was due by true time now. */
  ghost predicate OnceMade(d: Daemon, t: Timer, C: nat, P: nat, before: nat, now: nat) {
    now >= C && multiset(d.callbacks)[t] - before == if now >= C + P then 1 else 0
  }

  /** The daemon blocks, with no command left. */
  ghost predicate Blocks(d: Daemon, a: Action) {
    a.Look? && a.blocks && d.v.queue == []
  }

  /** Expiries are skipped exactly if the start was put off. */
  lemma SkippedIffPutOff(d: Daemon, t: Timer, C: nat, s: nat, P: nat, before: nat, now: nat)
    requires AllMade(d, t, C + s, P, before, now) && (s == 0 || s >= P)
    ensures AllMade(d, t, C, P, before, now) <==> s == 0
  {
    if s >= P {
      var x := now - C;
      assert x == P * (x / P) + x % P && x - s == P * ((x - s) / P) + (x - s) % P;
    }
  }

  /** Over any run that leaves auto-reload timer t alone from state k on: t has no callback early
      at any time, and whenever the daemon blocks with no command left, t has had as many as fit between
      its start, put off by the late services of its start commands so far, and now.  So none was
      skipped exactly if there was no such late service. */
  lemma EveryPeriod(ds: seq<Daemon>, acts: seq<Action>, t: Timer, k: nat)
    requires IsRun(ds, acts) && Undisturbed(ds, acts, t, k) && k <= |acts| && t in ds[k].track && t in ds[k].auto
    requires ds[k].auto[t]
    ensures t in ds[k].period
    ensures var C, P, before := ds[k].track[t].start, ds[k].period[t], ds[k].track[t].before;
            && (forall i :: k <= i < |ds| ==> NoneEarly(ds[i], t, C, P, before))
            && (forall i :: k <= i < |acts| && Blocks(ds[i], acts[i]) ==>
                  && AllMade(ds[i + 1], t, C + TotalSlip(ds, acts, t, k, i), P, before, acts[i].now)
                  && (AllMade(ds[i + 1], t, C, P, before, acts[i].now) <==> NeverLate(ds, acts, t, k, i)))
  {
    hide DaemonOk, Step, Undisturbed, AllMade, NoneEarly, NeverLate, TotalSlip;
    NoneEarlyAt(ds, acts, t, k, k);
    var C, P, before := ds[k].track[t].start, ds[k].period[t], ds[k].track[t].before;
    forall i | k <= i < |ds|
      ensures NoneEarly(ds[i], t, C, P, before)
    {
      NoneEarlyAt(ds, acts, t, k, i);
    }
    forall i | k <= i < |acts| && Blocks(ds[i], acts[i])
      ensures AllMade(ds[i + 1], t, C + TotalSlip(ds, acts, t, k, i), P, before, acts[i].now)
      ensures AllMade(ds[i + 1], t, C, P, before, acts[i].now) <==> NeverLate(ds, acts, t, k, i)
    {
      CountWhenBlocked(ds, acts, t, k, i);
    }
  }

  lemma NoneEarlyAt(ds: seq<Daemon>, acts: seq<Action>, t: Timer, k: nat, i: nat)
    requires IsRun(ds, acts) && Undisturbed(ds, acts, t, k) && k <= i <= |acts| && t in ds[k].track
    ensures t in ds[k].period
    ensures NoneEarly(ds[i], t, ds[k].track[t].start, ds[k].period[t], ds[k].track[t].before)
  {
    hide DaemonOk, Step, Undisturbed, NoneEarly, TotalSlip;
    FollowedThroughout(ds, acts, t, k, i);
    DueNotEarly(ds[i], t, ds[k].track[t].start, TotalSlip(ds, acts, t, k, i), ds[i].period[t], ds[k].track[t].before);
  }

  lemma CountWhenBlocked(ds: seq<Daemon>, acts: seq<Action>, t: Timer, k: nat, i: nat)
    requires IsRun(ds, acts) && Undisturbed(ds, acts, t, k) && k <= i < |acts| && t in ds[k].track && t in ds[k].period
    requires Blocks(ds[i], acts[i]) && t in ds[k].auto && ds[k].auto[t]
    ensures var C, P, before := ds[k].track[t].start, ds[k].period[t], ds[k].track[t].before;
            && AllMade(ds[i + 1], t, C + TotalSlip(ds, acts, t, k, i), P, before, acts[i].now)
            && (AllMade(ds[i + 1], t, C, P, before, acts[i].now) <==> NeverLate(ds, acts, t, k, i))
  {
    hide DaemonOk, Step, Undisturbed, AllMade, NeverLate, TotalSlip;
    var s := TotalSlip(ds, acts, t, k, i);
    FollowedThroughout(ds, acts, t, k, i);
    BlockedUpToDate(ds[i], ds[i + 1], acts[i], t);
    SlipsWhenLate(ds, acts, t, k, i);
    SkippedIffPutOff(ds[i + 1], t, ds[k].track[t].start, s, ds[k].period[t], ds[k].track[t].before, acts[i].now);
  }

  lemma DueNotEarly(d: Daemon, t: Timer, C: nat, s: nat, P: nat, before: nat)
    requires DaemonOk(d) && t in d.track && t in d.period && d.period[t] == P
    requires d.track[t].start == C + s && d.track[t].before == before
    ensures NoneEarly(d, t, C, P, before)
  {
    hide AllOk;
    FollowedHasPeriod(d, t);
  }

  lemma BlockedUpToDate(d: Daemon, d': Daemon, a: Action, t: Timer)
    requires DaemonOk(d) && DaemonOk(d') && Step(d, d', a) && Blocks(d, a) && t in d.track
    ensures t in d.period && t in d.auto && d.period[t] < TICKS_PER_EPOCH
    ensures if d.auto[t] then AllMade(d', t, d.track[t].start, d.period[t], d.track[t].before, a.now)
            else OnceMade(d', t, d.track[t].start, d.period[t], d.track[t].before, a.now)
  {
    hide AllOk, Logged, Kept, CalledOrIn, Rounded, Reloaded;
    FollowedHasPeriod(d, t);
    FollowedHasPeriod(d', t);
    assert UpToDate(d', t, a.now, a.xBlockTime);
  }

  lemma AtMostOnce(ds: seq<Daemon>, acts: seq<Action>, t: Timer, k: nat, i: nat)
    requires IsRun(ds, acts) && Undisturbed(ds, acts, t, k) && k <= i <= |acts| && t in ds[k].track && t in ds[k].auto
    requires !ds[k].auto[t]
    ensures AtMostOne(ds[i], t, ds[k].track[t].before)
  {
    hide DaemonOk, Step, Undisturbed, TotalSlip;
    FollowedThroughout(ds, acts, t, k, i);
    FollowedHasPeriod(ds[i], t);
  }

  lemma OnceWhenBlocked(ds: seq<Daemon>, acts: seq<Action>, t: Timer, k: nat, i: nat)
    requires IsRun(ds, acts) && Undisturbed(ds, acts, t, k) && k <= i < |acts| && t in ds[k].track && t in ds[k].period
    requires Blocks(ds[i], acts[i]) && t in ds[k].auto && !ds[k].auto[t]
    ensures OnceMade(ds[i + 1], t, ds[k].track[t].start + TotalSlip(ds, acts, t, k, i), ds[k].period[t],
                     ds[k].track[t].before, acts[i].now)
  {
    hide DaemonOk, Step, Undisturbed, AllMade, OnceMade, TotalSlip;
    FollowedThroughout(ds, acts, t, k, i);
    BlockedUpToDate(ds[i], ds[i + 1], acts[i], t);
  }

  /** A one-shot timer, left alone from state k on, is called at most once, not before its expiry,
      and has been called at every block with no command left after that, as put off by the late
      service of its start. */
  lemma OnlyOnce(ds: seq<Daemon>, acts: seq<Action>, t: Timer, k: nat)
    requires IsRun(ds, acts) && Undisturbed(ds, acts, t, k) && k <= |acts| && t in ds[k].track && t in ds[k].auto
    requires !ds[k].auto[t]
    ensures t in ds[k].period
    ensures var C, P, before := ds[k].track[t].start, ds[k].period[t], ds[k].track[t].before;
            && (forall i :: k <= i < |ds| ==>
                  AtMostOne(ds[i], t, before) && NoneEarly(ds[i], t, C, P, before))
            && (forall i :: k <= i < |acts| && Blocks(ds[i], acts[i]) ==>
                  OnceMade(ds[i + 1], t, C + TotalSlip(ds, acts, t, k, i), P, before, acts[i].now))
  {
    hide DaemonOk, Step, Undisturbed, AllMade, OnceMade, NoneEarly, TotalSlip, AtMostOne;
    NoneEarlyAt(ds, acts, t, k, k);
    var C, P, before := ds[k].track[t].start, ds[k].period[t], ds[k].track[t].before;
    forall i | k <= i < |ds|
      ensures AtMostOne(ds[i], t, before) && NoneEarly(ds[i], t, C, P, before)
    {
      NoneEarlyAt(ds, acts, t, k, i);
      AtMostOnce(ds, acts, t, k, i);
    }
    forall i | k <= i < |acts| && Blocks(ds[i], acts[i])
      ensures OnceMade(ds[i + 1], t, C + TotalSlip(ds, acts, t, k, i), P, before, acts[i].now)
    {
      OnceWhenBlocked(ds, acts, t, k, i);
    }
  }

  /** From the start itself: an auto-reload timer started, at step k of a run, by a command of
      true time C has none of its callbacks early, and one for each of C + P, C + 2P, ... exactly
      if neither that start nor one of its restarts is served late. */
  lemma FromTheStart(ds: seq<Daemon>, acts: seq<Action>, t: Timer, k: nat, C: nat)
    requires IsRun(ds, acts) && Undisturbed(ds, acts, t, k) && k < |acts| && acts[k].Serve?
    requires var d := ds[k];
             && d.v.queue != [] && |d.v.stamps| == |d.v.queue| && d.v.queue[0] == Start(t, C % TICKS_PER_EPOCH) && d.v.stamps[0] == C
             && t in d.auto && d.auto[t] && t !in d.track && !InQueue(Pop(d.v), t)
    ensures t in ds[k + 1].period
    ensures var P, before := ds[k + 1].period[t], multiset(ds[k].callbacks)[t];
            && (forall i :: k < i < |ds| ==> NoneEarly(ds[i], t, C, P, before))
            && (forall i :: k < i < |acts| && Blocks(ds[i], acts[i]) ==>
                  && AllMade(ds[i + 1], t, C + TotalSlip(ds, acts, t, k, i), P, before, acts[i].now)
                  && (AllMade(ds[i + 1], t, C, P, before, acts[i].now) <==> NeverLate(ds, acts, t, k, i)))
  {
    hide DaemonOk, Step, Spares, NoneEarly, AllMade, NeverLate, SlipAt, InQueue;
    assert Step(ds[k], ds[k + 1], acts[k]) && Spares(ds[k + 1], acts[k], t);
    StartFollowed(ds[k], ds[k + 1], acts[k], t, C);
    EveryPeriod(ds, acts, t, k + 1);
    var P, before := ds[k + 1].period[t], multiset(ds[k].callbacks)[t];
    forall i | k < i < |ds|
      ensures NoneEarly(ds[i], t, C, P, before)
    {
      EarlierStart(ds[i], t, C, SlipAt(ds[k], acts[k], t), P, before);
    }
    forall i | k < i < |acts| && Blocks(ds[i], acts[i])
      ensures AllMade(ds[i + 1], t, C + TotalSlip(ds, acts, t, k, i), P, before, acts[i].now)
      ensures AllMade(ds[i + 1], t, C, P, before, acts[i].now) <==> NeverLate(ds, acts, t, k, i)
    {
      SlipsWhenLate(ds, acts, t, k, i);
      FollowedHasPeriod(ds[k + 1], t);
      SkippedIffPutOff(ds[i + 1], t, C, TotalSlip(ds, acts, t, k, i), P, before, acts[i].now);
    }
  }

  lemma MissedIffPutOff(d: Daemon, t: Timer, C: nat, s: nat, P: nat, before: nat, now: nat)
    requires OnceMade(d, t, C + s, P, before, now) && (s == 0 || s >= P)
    ensures OnceMade(d, t, C, P, before, now) <==> s == 0 || now >= C + s + P
  {
  }

  /** A one-shot timer started, at step k of a run, by a command of true time C is called at most
      once, and not before C + P; at a block with no command left it has been called for C + P
      exactly if its start was served in time, or the expiry as put off by that has come too. */
  lemma OnceFromTheStart(ds: seq<Daemon>, acts: seq<Action>, t: Timer, k: nat, C: nat)
    requires IsRun(ds, acts) && Undisturbed(ds, acts, t, k) && k < |acts| && acts[k].Serve?
    requires var d := ds[k];
             && d.v.queue != [] && |d.v.stamps| == |d.v.queue| && d.v.queue[0] == Start(t, C % TICKS_PER_EPOCH) && d.v.stamps[0] == C
             && t in d.auto && !d.auto[t] && t !in d.track && !InQueue(Pop(d.v), t)
    ensures t in ds[k + 1].period
    ensures var P, before := ds[k + 1].period[t], multiset(ds[k].callbacks)[t];
            && (forall i :: k < i < |ds| ==>
                  AtMostOne(ds[i], t, before) && NoneEarly(ds[i], t, C, P, before))
            && (forall i :: k < i < |acts| && Blocks(ds[i], acts[i]) ==>
                  && OnceMade(ds[i + 1], t, C + TotalSlip(ds, acts, t, k, i), P, before, acts[i].now)
                  && (OnceMade(ds[i + 1], t, C, P, before, acts[i].now) <==>
                      NeverLate(ds, acts, t, k, i) || acts[i].now >= C + TotalSlip(ds, acts, t, k, i) + P))
  {
    hide DaemonOk, Step, Spares, NoneEarly, OnceMade, NeverLate, SlipAt, TotalSlip, InQueue, Undisturbed, AtMostOne;
    StartStep(ds, acts, t, k, C);
    var P, before := ds[k + 1].period[t], multiset(ds[k].callbacks)[t];
    forall i | k < i < |ds|
      ensures AtMostOne(ds[i], t, before) && NoneEarly(ds[i], t, C, P, before)
    {
      NoneEarlyAt(ds, acts, t, k + 1, i);
      AtMostOnce(ds, acts, t, k + 1, i);
      EarlierStart(ds[i], t, C, SlipAt(ds[k], acts[k], t), P, before);
    }
    forall i | k < i < |acts| && Blocks(ds[i], acts[i])
      ensures OnceMade(ds[i + 1], t, C + TotalSlip(ds, acts, t, k, i), P, before, acts[i].now)
      ensures OnceMade(ds[i + 1], t, C, P, before, acts[i].now) <==>
              NeverLate(ds, acts, t, k, i) || acts[i].now >= C + TotalSlip(ds, acts, t, k, i) + P
    {
      OnceWhenBlocked(ds, acts, t, k + 1, i);
      SlipFromHere(ds, acts, t, k, i);
      SlipsWhenLate(ds, acts, t, k, i);
      MissedIffPutOff(ds[i + 1], t, C, TotalSlip(ds, acts, t, k, i), P, before, acts[i].now);
    }
  }

  /** The step that serves the start. */
  lemma StartStep(ds: seq<Daemon>, acts: seq<Action>, t: Timer, k: nat, C: nat)
    requires IsRun(ds, acts) && Undisturbed(ds, acts, t, k) && k < |acts| && acts[k].Serve?
    requires var d := ds[k];
             && d.v.queue != [] && |d.v.stamps| == |d.v.queue| && d.v.queue[0] == Start(t, C % TICKS_PER_EPOCH) && d.v.stamps[0] == C
             && t in d.auto && t !in d.track && !InQueue(Pop(d.v), t)
    ensures Undisturbed(ds, acts, t, k + 1)
    ensures var d, d' := ds[k], ds[k + 1];
            && t in d'.track && t in d'.auto && d'.auto[t] == d.auto[t] && t in d'.period && 1 <= d'.period[t] < TICKS_PER_EPOCH
            && d'.track[t].start == C + SlipAt(d, acts[k], t) && d'.track[t].before == multiset(d.callbacks)[t]
  {
    hide DaemonOk, Step, Spares, SlipAt, InQueue;
    assert Step(ds[k], ds[k + 1], acts[k]) && Spares(ds[k + 1], acts[k], t);
    StartFollowed(ds[k], ds[k + 1], acts[k], t, C);
    FollowedHasPeriod(ds[k + 1], t);
  }

  lemma SlipFromHere(ds: seq<Daemon>, acts: seq<Action>, t: Timer, k: nat, i: nat)
    requires IsRun(ds, acts) && k < i <= |acts|
    ensures TotalSlip(ds, acts, t, k, i) == SlipAt(ds[k], acts[k], t) + TotalSlip(ds, acts, t, k + 1, i)
  {
  }

  lemma EarlierStart(d: Daemon, t: Timer, C: nat, s: nat, P: nat, before: nat)
    requires NoneEarly(d, t, C + s, P, before)
    ensures NoneEarly(d, t, C, P, before)
  {
  }

  lemma StartFollowed(d: Daemon, d': Daemon, a: Action, t: Timer, C: nat)
    requires DaemonOk(d) && a.Serve? && Step(d, d', a) && Spares(d', a, t)
    requires d.v.queue != [] && d.v.queue[0] == Start(t, C % TICKS_PER_EPOCH) && d.v.stamps[0] == C
    requires t in d.auto && t !in d.track && !InQueue(Pop(d.v), t)
    ensures t in d'.auto && d'.auto[t] == d.auto[t]
    ensures t in d'.track && d'.track[t].start == C + SlipAt(d, a, t) && d'.track[t].before == multiset(d.callbacks)[t]
  {
    hide AllOk, Logged, Kept, InQueue, ActiveUntil, HeadSlip;
  }

  // ---- A start that is served late ------------------------------------------------------------

  ghost function NewDaemon(): Daemon {
    Daemon(View([], [], map[], [], [], 0), map[], map[], map[], [], 0)
  }

  /** The daemon with one timer t of period 10, of which nothing is known but its start command. */
  ghost function Before(t: Timer, queue: seq<Message>, stamps: seq<nat>, epoch: nat, last: nat): Daemon {
    Daemon(View([], [], map[], queue, stamps, epoch), map[], map[t := 10], map[t := true], [], last)
  }

  /** Its start command served at 131075: it is in the list until 131076. */
  ghost function Misplaced(t: Timer): Daemon {
    Daemon(View([t], [], map[t := 4], [], [], 2), map[t := Track(131066, 0, 131066, 0)], map[t := 10], map[t := true], [],
           131075)
  }

  lemma BeforeOk(t: Timer, epoch: nat, last: nat)
    ensures DaemonOk(NewDaemon()) && DaemonOk(Before(t, [], [], epoch, last))
    ensures DaemonOk(Before(t, [Start(t, 65530)], [65530], epoch, last))
  {
  }

  lemma MisplacedView(t: Timer)
    ensures ViewOk(Misplaced(t).v)
  {
    var v := Misplaced(t).v;
    assert Values(v.cur, v.value) == [4];
  }

  lemma MisplacedKnown(t: Timer)
    ensures var d := Misplaced(t); Known(d.v, d.period, d.auto)
  {
    var d := Misplaced(t);
    assert d.period.Keys == {t} == d.auto.Keys;
  }

  lemma MisplacedFine(t: Timer)
    ensures Fine(Misplaced(t).v, t, 131066, 10) && TrackOk(Track(131066, 0, 131066, 0), 10)
  {
    var v := Misplaced(t).v;
    assert v.queue == [] && !InQueue(v, t);
    assert t in v.cur && v.epoch * TICKS_PER_EPOCH + Value(v.value, t) == 131076;
  }

  lemma MisplacedFollowed(t: Timer)
    ensures var d := Misplaced(t); AllFine(d.v, d.track, d.period, d.auto, {}) && Logged(d.callbacks, d.track)
  {
    hide Fine, TrackOk;
    var d := Misplaced(t);
    MisplacedFine(t);
    assert forall u :: u in d.track <==> u == t;
    assert d.track[t] == Track(131066, 0, 131066, 0);
  }

  lemma MisplacedOk(t: Timer)
    ensures DaemonOk(Misplaced(t))
  {
    hide ViewOk, Known, AllFine, Logged;
    MisplacedView(t);
    MisplacedKnown(t);
    MisplacedFollowed(t);
  }

  lemma LateTaken(t: Timer)
    ensures var d := Before(t, [Start(t, 65530)], [65530], 1, 65540);
            HeadSlip(d, 131075) == TICKS_PER_EPOCH && Taken(d, 131075) == Before(t, [], [], 1, 65540)
  {
  }

  lemma LateService(t: Timer)
    ensures Served(Before(t, [Start(t, 65530)], [65530], 1, 65540), Misplaced(t), 131075)
  {
    hide HeadSlip, Taken, Waiting;
    LateTaken(t);
    var v := Misplaced(t).v;
    assert t in v.cur && Value(v.value, t) == 4;
    assert ActiveUntil(v, t, 131076);
  }

  lemma StepsOfLateRun(t: Timer)
    ensures Created(NewDaemon(), t, 10, true) == Before(t, [], [], 0, 0)
    ensures Looked(Before(t, [], [], 0, 0), Before(t, [], [], 0, 60000), 60000, true, 5536)
    ensures Commanded(Before(t, [], [], 0, 60000), Start(t, 65530), 65530) == Before(t, [Start(t, 65530)], [65530], 0, 60000)
    ensures var q, stamps := [Start(t, 65530)], [65530];
            Looked(Before(t, q, stamps, 0, 60000), Before(t, q, stamps, 1, 65540), 65540, false, 0)
    ensures Looked(Misplaced(t), Misplaced(t), 131075, true, 1)
  {
    assert Before(t, [], [], 0, 60000).track - {t} == map[];
  }

  /** Looking at the clock more often than it wraps is not enough: here all looks and services
      are less than 2^16 ticks apart, but the start command, stamped with 65530, has waited 65545
      ticks when it is served, and the daemon blocks with none of the 6554 callbacks made. */
  lemma LateRun(t: Timer) returns (ds: seq<Daemon>, acts: seq<Action>)
    ensures acts == [Create(t, 10, true), Look(60000, true, 5536), Command(Start(t, 65530), 65530), Look(65540, false, 0),
                     Serve(131075), Look(131075, true, 1)]
    ensures IsRun(ds, acts) && ds[0] == NewDaemon() && LateStart(ds[4], acts[4], t)
    ensures ds[6].v.queue == [] && ds[6].callbacks == [] && (131075 - 65530) / 10 == 6554
    ensures !AllMade(ds[6], t, 65530, 10, 0, 131075)
    ensures t in ds[6].track && ds[6].track[t].start == 65530 + TICKS_PER_EPOCH
  {
    hide DaemonOk, Looked, Served, Created, Commanded;
    var q, stamps := [Start(t, 65530)], [65530];
    acts := [Create(t, 10, true), Look(60000, true, 5536), Command(Start(t, 65530), 65530), Look(65540, false, 0),
             Serve(131075), Look(131075, true, 1)];
    ds := [NewDaemon(), Before(t, [], [], 0, 0), Before(t, [], [], 0, 60000), Before(t, q, stamps, 0, 60000),
           Before(t, q, stamps, 1, 65540), Misplaced(t), Misplaced(t)];
    BeforeOk(t, 0, 0);
    BeforeOk(t, 0, 60000);
    BeforeOk(t, 1, 65540);
    MisplacedOk(t);
    StepsOfLateRun(t);
    LateService(t);
    assert forall i :: 0 <= i < |ds| ==> DaemonOk(ds[i]);
    assert forall i :: 0 <= i < |acts| ==> Step(ds[i], ds[i + 1], acts[i]);
  }
}
