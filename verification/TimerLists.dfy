/** Where an active software timer is: in the current or the overflow list of timers.c, or
    behind a command to restart it; and on which true time its next expiry falls. */
module TimerLists {
  import Indices
  import opened Ring
  import opened Sequences
  import opened Tasks

  datatype Timer = Timer(id: int)

  const QUEUE_LENGTH := 10

  /** All ways to start or reset a timer are one command to the daemon. */
  datatype Message =
    | Start(timer: Timer, time: nat)
    | Stop(timer: Timer)
    | ChangePeriod(timer: Timer, period: nat)
    | Call
  {
    predicate For(t: Timer) {
      !Call? && timer == t
    }
  }

  // ---- Placement --------------------------------------------------------------------------

  datatype Placement = Expired | Current | Overflow

  /** prvInsertTimerInActiveList, in 16 bits. */
  function Place(xNextExpiryTime: nat, xTimeNow: nat, xCommandTime: nat, period: nat): Placement {
    if xNextExpiryTime <= xTimeNow then
      if (xTimeNow - xCommandTime) % TICKS_PER_EPOCH >= period then Expired else Overflow
    else
      if xTimeNow < xCommandTime && xNextExpiryTime >= xCommandTime then Expired else Current
  }

  /** Where a timer belongs at true time N that is to expire at true time X. */
  predicate Fits(placement: Placement, X: nat, N: nat) {
    match placement
    case Expired => X <= N
    case Current => X > N && X / TICKS_PER_EPOCH == N / TICKS_PER_EPOCH
    case Overflow => X > N && X / TICKS_PER_EPOCH == N / TICKS_PER_EPOCH + 1
  }

  /** A command given at C is processed at N less than a full period of the counter later, or
      a few full periods and at least the timer's period P later. */
  predicate InTime(C: nat, N: nat, P: nat) {
    C <= N && (N < C + TICKS_PER_EPOCH || (N - C) % TICKS_PER_EPOCH >= P)
  }

  /** A command given at C and processed at N is placed by the true expiry time C + P, expired
      if that has come and otherwise in the list of the epoch it falls in, exactly when it is
      processed in time. */
  lemma PlaceIsExact(C: nat, N: nat, P: nat)
    requires C <= N && 1 <= P < TICKS_PER_EPOCH
    ensures Fits(Place((C + P) % TICKS_PER_EPOCH, N % TICKS_PER_EPOCH, C % TICKS_PER_EPOCH, P), C + P, N) <==> InTime(C, N, P)
  {
    if N < C + TICKS_PER_EPOCH {
      PlaceSoon(C, N, P);
    } else {
      PlaceLate(C, N, P);
    }
  }

  lemma PlaceSoon(C: nat, N: nat, P: nat)
    requires C <= N < C + TICKS_PER_EPOCH && 1 <= P < TICKS_PER_EPOCH
    ensures Fits(Place((C + P) % TICKS_PER_EPOCH, N % TICKS_PER_EPOCH, C % TICKS_PER_EPOCH, P), C + P, N)
  {
    var X := C + P;
    var c, n, x := C / TICKS_PER_EPOCH, N / TICKS_PER_EPOCH, X / TICKS_PER_EPOCH;
    assert n == c || n == c + 1;
    assert x == c || x == c + 1;
  }

  lemma PlaceLate(C: nat, N: nat, P: nat)
    requires C + TICKS_PER_EPOCH <= N && 1 <= P < TICKS_PER_EPOCH
    ensures Place((C + P) % TICKS_PER_EPOCH, N % TICKS_PER_EPOCH, C % TICKS_PER_EPOCH, P) == Expired
            <==> (N - C) % TICKS_PER_EPOCH >= P
  {
    var c, n := C % TICKS_PER_EPOCH, N % TICKS_PER_EPOCH;
    assert (N - C) % TICKS_PER_EPOCH == if n >= c then n - c else n + TICKS_PER_EPOCH - c;
    assert (C + P) % TICKS_PER_EPOCH == if c + P < TICKS_PER_EPOCH then c + P else c + P - TICKS_PER_EPOCH;
  }

  /** By how much a command given at C and processed at N is misunderstood: it is taken for one
      given that much later, a multiple of the counter's period. */
  function Slip(C: nat, N: nat, P: nat): nat
    requires C <= N
  {
    if InTime(C, N, P) then 0 else (N - C) / TICKS_PER_EPOCH * TICKS_PER_EPOCH
  }

  lemma SlipFacts(C: nat, N: nat, P: nat)
    requires C <= N && 1 <= P < TICKS_PER_EPOCH
    ensures var s := Slip(C, N, P);
            && C + s <= N && (C + s) % TICKS_PER_EPOCH == C % TICKS_PER_EPOCH && InTime(C + s, N, P)
            && (InTime(C, N, P) ==> s == 0)
            && (!InTime(C, N, P) ==> s >= TICKS_PER_EPOCH && N < C + s + P)
  {
    if !InTime(C, N, P) {
      var q := (N - C) / TICKS_PER_EPOCH;
      assert N == C + q * TICKS_PER_EPOCH + (N - C) % TICKS_PER_EPOCH;
    }
  }

  /** Every command is placed by the expiry time of the command it is taken for. */
  lemma PlaceSlips(C: nat, N: nat, P: nat)
    requires C <= N && 1 <= P < TICKS_PER_EPOCH
    ensures Fits(Place((C + P) % TICKS_PER_EPOCH, N % TICKS_PER_EPOCH, C % TICKS_PER_EPOCH, P), C + Slip(C, N, P) + P, N)
  {
    hide Place, Fits, InTime, Slip;
    var C' := C + Slip(C, N, P);
    SlipFacts(C, N, P);
    PlaceIsExact(C', N, P);
    ModSum(C, P);
    ModSum(C', P);
  }

  lemma ModSum(C: nat, P: nat)
    ensures (C % TICKS_PER_EPOCH + P) % TICKS_PER_EPOCH == (C + P) % TICKS_PER_EPOCH
  {
  }

  // ---- The two lists and the command queue --------------------------------------------------

  function Value(value: map<Timer, nat>, t: Timer): nat {
    if t in value then value[t] else 0
  }

  function Values(list: seq<Timer>, value: map<Timer, nat>): (v: seq<nat>)
    ensures |v| == |list| && forall i {:trigger v[i]} :: 0 <= i < |v| ==> v[i] == Value(value, list[i])
  {
    seq(|list|, i requires 0 <= i < |list| => Value(value, list[i]))
  }

  /** vListInsert by item value. */
  function Insert(list: seq<Timer>, value: map<Timer, nat>, t: Timer): seq<Timer> {
    var pos := InsertPos(Values(list, value), Value(value, t));
    list[..pos] + [t] + list[pos..]
  }

  /** One of the lists: no timer twice, earliest first, all values in 16 bits. */
  ghost predicate ListOk(list: seq<Timer>, value: map<Timer, nat>) {
    && NoDup(list) && Sorted(Values(list, value))
    && forall t :: t in list ==> Value(value, t) < TICKS_PER_EPOCH
  }

  lemma HeadIsLeast(list: seq<Timer>, value: map<Timer, nat>, t: Timer)
    requires ListOk(list, value) && t in list
    ensures Value(value, list[0]) <= Value(value, t)
  {
    var i :| 0 <= i < |list| && list[i] == t;
    var v := Values(list, value);
    assert v[0] <= v[i];
  }

  lemma InsertKeeps(list: seq<Timer>, value: map<Timer, nat>, t: Timer)
    requires ListOk(list, value) && t !in list && Value(value, t) < TICKS_PER_EPOCH
    ensures ListOk(Insert(list, value, t), value)
    ensures forall u :: u in Insert(list, value, t) <==> u == t || u in list
  {
    var v, pos := Values(list, value), InsertPos(Values(list, value), Value(value, t));
    var r := Insert(list, value, t);
    InsertStable(v, Value(value, t));
    assert Values(r, value) == v[..pos] + [Value(value, t)] + v[pos..];
    SplicedMembers(list, pos, t);
  }

  lemma TailKeeps(list: seq<Timer>, value: map<Timer, nat>)
    requires ListOk(list, value) && list != []
    ensures ListOk(list[1..], value)
    ensures forall u :: u in list[1..] <==> u in list && u != list[0]
  {
    assert Values(list[1..], value) == Values(list, value)[1..];
    assert forall u :: u in list && u != list[0] ==> u in list[1..];
  }

  lemma {:induction false} WithoutKeeps(list: seq<Timer>, value: map<Timer, nat>, t: Timer)
    requires ListOk(list, value)
    ensures ListOk(Without(list, t), value)
    ensures forall u :: u in Without(list, t) <==> u in list && u != t
  {
    if list != [] {
      TailKeeps(list, value);
      var rest, r := Without(list[1..], t), Without(list, t);
      WithoutKeeps(list[1..], value, t);
      if list[0] != t {
        forall u | u in rest
          ensures Value(value, list[0]) <= Value(value, u)
        {
          HeadIsLeast(list, value, u);
        }
        ConsKeeps(list[0], rest, value);
      }
    }
  }

  lemma ConsKeeps(h: Timer, rest: seq<Timer>, value: map<Timer, nat>)
    requires ListOk(rest, value) && h !in rest && Value(value, h) < TICKS_PER_EPOCH
    requires forall u :: u in rest ==> Value(value, h) <= Value(value, u)
    ensures ListOk([h] + rest, value)
  {
    var v := Values([h] + rest, value);
    assert v[1..] == Values(rest, value);
    forall i, j | 0 <= i < j < |v|
      ensures v[i] <= v[j]
    {
      assert v[j] == v[1..][j - 1];
      if i == 0 {
        assert rest[j - 1] in rest;
      } else {
        assert v[i] == v[1..][i - 1];
      }
    }
  }

  /** Setting the value of a timer outside the list changes nothing in it. */
  lemma OtherValue(list: seq<Timer>, value: map<Timer, nat>, t: Timer, x: nat)
    requires ListOk(list, value) && t !in list
    ensures ListOk(list, value[t := x])
  {
    assert Values(list, value[t := x]) == Values(list, value) by {
      forall i | 0 <= i < |list|
        ensures Values(list, value[t := x])[i] == Values(list, value)[i]
      {
        assert list[i] in list;
      }
    }
  }

  // ---- When a timer expires next ------------------------------------------------------------

  /** The daemon's data: both lists, their values, the queue, and the true times at which the
      queued commands were stamped. */
  datatype View = View(cur: seq<Timer>, over: seq<Timer>, value: map<Timer, nat>, queue: seq<Message>, stamps: seq<nat>,
                       epoch: nat)

  predicate InQueue(v: View, t: Timer) {
    exists i :: 0 <= i < |v.queue| && v.queue[i].For(t)
  }

  /** Exactly one command for t is queued: to start it, stamped with the true time C. */
  ghost predicate Waiting(v: View, t: Timer, C: nat) {
    exists i :: 0 <= i < |v.queue| && |v.stamps| == |v.queue| && v.queue[i] == Start(t, C % TICKS_PER_EPOCH) && v.stamps[i] == C
                && forall j :: 0 <= j < |v.queue| && v.queue[j].For(t) ==> j == i
  }

  /** Timer t, last expired or started at true time `due`, with period P, will expire at due + P. */
  ghost predicate Fine(v: View, t: Timer, due: nat, P: nat) {
    || (t in v.cur && v.epoch * TICKS_PER_EPOCH + Value(v.value, t) == due + P && !InQueue(v, t))
    || (t in v.over && (v.epoch + 1) * TICKS_PER_EPOCH + Value(v.value, t) == due + P && !InQueue(v, t))
    || (t !in v.cur && t !in v.over && Waiting(v, t, due))
  }

  /** Timer t is in a list, to expire at true time X. */
  ghost predicate ActiveUntil(v: View, t: Timer, X: nat) {
    || (t in v.cur && v.epoch * TICKS_PER_EPOCH + Value(v.value, t) == X)
    || (t in v.over && (v.epoch + 1) * TICKS_PER_EPOCH + Value(v.value, t) == X)
  }

  ghost predicate Loose(v: View, t: Timer) {
    t !in v.cur && t !in v.over && !InQueue(v, t)
  }

  ghost predicate ViewOk(v: View) {
    && ListOk(v.cur, v.value) && ListOk(v.over, v.value)
    && (forall t :: t in v.cur ==> t !in v.over)
    && |v.stamps| == |v.queue|
    && forall i :: 0 <= i < |v.queue| && v.queue[i].Start? ==> v.queue[i].time == v.stamps[i] % TICKS_PER_EPOCH
  }

  /** What one operation does to a timer it is not about: nothing. */
  ghost predicate SameFor(v: View, v': View, u: Timer) {
    && (u in v'.cur <==> u in v.cur) && (u in v'.over <==> u in v.over)
    && Value(v'.value, u) == Value(v.value, u) && v'.epoch == v.epoch
    && (InQueue(v', u) <==> InQueue(v, u))
    && forall C: nat :: Waiting(v, u, C) ==> Waiting(v', u, C)
  }

  // ---- The operations -----------------------------------------------------------------------

  ghost predicate OthersSame(v: View, v': View, t: Timer) {
    forall u :: u != t ==> SameFor(v, v', u)
  }

  /** uxListRemove. */
  function TakeOut(v: View, t: Timer): View {
    v.(cur := Without(v.cur, t), over := Without(v.over, t))
  }

  lemma TakeOutKeeps(v: View, t: Timer)
    requires ViewOk(v)
    ensures var v' := TakeOut(v, t); ViewOk(v') && OthersSame(v, v', t) && t !in v'.cur && t !in v'.over
  {
    WithoutKeeps(v.cur, v.value, t);
    WithoutKeeps(v.over, v.value, t);
  }

  /** Setting the item value and vListInsert. */
  function PutCurrent(v: View, t: Timer, x: nat): View {
    v.(value := v.value[t := x], cur := Insert(v.cur, v.value[t := x], t))
  }

  function PutOverflow(v: View, t: Timer, x: nat): View {
    v.(value := v.value[t := x], over := Insert(v.over, v.value[t := x], t))
  }

  lemma PutKeeps(v: View, t: Timer, x: nat)
    requires ViewOk(v) && t !in v.cur && t !in v.over && x < TICKS_PER_EPOCH
    ensures var v' := PutCurrent(v, t, x); ViewOk(v') && OthersSame(v, v', t) && t in v'.cur && Value(v'.value, t) == x
    ensures var v' := PutOverflow(v, t, x); ViewOk(v') && OthersSame(v, v', t) && t in v'.over && Value(v'.value, t) == x
  {
    OtherValue(v.cur, v.value, t, x);
    OtherValue(v.over, v.value, t, x);
    InsertKeeps(v.cur, v.value[t := x], t);
    InsertKeeps(v.over, v.value[t := x], t);
  }

  /** xTimerGenericCommand, when there is room. */
  function Post(v: View, m: Message, stamp: nat): View {
    v.(queue := v.queue + [m], stamps := v.stamps + [stamp])
  }

  lemma PostKeeps(v: View, m: Message, stamp: nat)
    requires ViewOk(v) && (m.Start? ==> m.time == stamp % TICKS_PER_EPOCH)
    ensures ViewOk(Post(v, m, stamp))
    ensures forall u :: !m.For(u) ==> SameFor(v, Post(v, m, stamp), u)
    ensures m.Start? && Loose(v, m.timer) ==> Waiting(Post(v, m, stamp), m.timer, stamp)
  {
    var v' := Post(v, m, stamp);
    forall u | !m.For(u)
      ensures SameFor(v, v', u)
    {
      if InQueue(v, u) {
        var i :| 0 <= i < |v.queue| && v.queue[i].For(u);
        assert v'.queue[i].For(u);
      }
      forall C: nat | Waiting(v, u, C)
        ensures Waiting(v', u, C)
      {
        var i :| 0 <= i < |v.queue| && v.queue[i] == Start(u, C % TICKS_PER_EPOCH) && v.stamps[i] == C
                 && forall j :: 0 <= j < |v.queue| && v.queue[j].For(u) ==> j == i;
        assert v'.queue[i] == Start(u, C % TICKS_PER_EPOCH) && v'.stamps[i] == C;
      }
    }
    if m.Start? && Loose(v, m.timer) {
      assert v'.queue[|v.queue|] == m && v'.stamps[|v.queue|] == stamp;
    }
  }

  /** xQueueReceive. */
  function Pop(v: View): View
    requires v.queue != [] && v.stamps != []
  {
    v.(queue := v.queue[1..], stamps := v.stamps[1..])
  }

  lemma PopKeeps(v: View)
    requires ViewOk(v) && v.queue != []
    ensures ViewOk(Pop(v))
    ensures forall u :: !v.queue[0].For(u) ==> SameFor(v, Pop(v), u)
    ensures forall t, C: nat :: v.queue[0].For(t) && Waiting(v, t, C) ==>
              v.queue[0] == Start(t, C % TICKS_PER_EPOCH) && v.stamps[0] == C && !InQueue(Pop(v), t)
  {
    var v' := Pop(v);
    forall u | !v.queue[0].For(u)
      ensures SameFor(v, v', u)
    {
      if InQueue(v, u) {
        var i :| 0 <= i < |v.queue| && v.queue[i].For(u);
        assert v'.queue[i - 1].For(u);
      }
      forall C: nat | Waiting(v, u, C)
        ensures Waiting(v', u, C)
      {
        var i :| 0 <= i < |v.queue| && v.queue[i] == Start(u, C % TICKS_PER_EPOCH) && v.stamps[i] == C
                 && forall j :: 0 <= j < |v.queue| && v.queue[j].For(u) ==> j == i;
        assert v'.queue[i - 1] == Start(u, C % TICKS_PER_EPOCH) && v'.stamps[i - 1] == C;
      }
    }
  }

  /** The exchange of the lists, once the current one is empty. */
  function Exchange(v: View): View {
    v.(cur := v.over, over := [], epoch := v.epoch + 1)
  }

  lemma ExchangeKeeps(v: View, t: Timer, due: nat, P: nat)
    requires ViewOk(v) && v.cur == []
    ensures ViewOk(Exchange(v))
    ensures Fine(v, t, due, P) ==> Fine(Exchange(v), t, due, P)
  {
    var v' := Exchange(v);
    if Waiting(v, t, due) {
      assert Waiting(v', t, due);
    }
    assert InQueue(v', t) == InQueue(v, t);
  }

  // ---- All timers followed ------------------------------------------------------------------

  /** A timer started at true time `start`, and its callbacks since, after the `before` that came
      earlier; the last of them, or the start, was for true time `due`. */
  datatype Track = Track(start: nat, calls: nat, due: nat, before: nat)

  /** The callback for the next expiry. */
  function Called(tr: Track, P: nat): Track {
    tr.(calls := tr.calls + 1, due := tr.due + P)
  }

  ghost predicate TrackOk(tr: Track, P: nat) {
    1 <= P < TICKS_PER_EPOCH && tr.due == tr.start + tr.calls * P
  }

  lemma CalledOk(tr: Track, P: nat)
    requires TrackOk(tr, P)
    ensures TrackOk(Called(tr, P), P)
  {
    assert (tr.calls + 1) * P == tr.calls * P + P;
  }

  /** A timer goes on until it has been called, and for ever if it reloads itself. */
  predicate GoesOn(tr: Track, auto: bool) {
    auto || tr.calls == 0
  }

  /** A followed timer has its next expiry where it should be, or has none and is nowhere. */
  ghost predicate Settled(v: View, t: Timer, tr: Track, P: nat, auto: bool) {
    if GoesOn(tr, auto) then Fine(v, t, tr.due, P) else tr.calls == 1 && Loose(v, t)
  }

  /** Every timer followed, other than `but`, is settled. */
  ghost predicate AllFine(v: View, track: map<Timer, Track>, period: map<Timer, nat>, auto: map<Timer, bool>, but: set<Timer>) {
    forall t :: t in track ==>
      && t in period && t in auto && TrackOk(track[t], period[t])
      && (t !in but ==> Settled(v, t, track[t], period[t], auto[t]))
  }

  lemma StillFine(v: View, v': View, track: map<Timer, Track>, period: map<Timer, nat>, auto: map<Timer, bool>,
                  but: set<Timer>, t: Timer)
    requires AllFine(v, track, period, auto, but) && OthersSame(v, v', t)
    ensures AllFine(v', track, period, auto, but + {t})
  {
    forall u | u in track && u !in but + {t}
      ensures Settled(v', u, track[u], period[u], auto[u])
    {
      assert SameFor(v, v', u);
    }
  }

  /** The floor of the elapsed time over the period: once nothing is overdue, there have been
      exactly that many callbacks. */
  lemma CallsAreFloor(tr: Track, P: nat, now: nat)
    requires TrackOk(tr, P) && tr.due <= now < tr.due + P
    ensures now >= tr.start && tr.calls == (now - tr.start) / P
  {
    Indices.DivModUnique(now - tr.start, P, tr.calls, now - tr.due);
  }

  lemma HeadOutKeeps(v: View)
    requires ViewOk(v) && v.cur != []
    ensures var t, v' := v.cur[0], v.(cur := v.cur[1..]);
            && ViewOk(v') && OthersSame(v, v', t) && t !in v'.cur && t !in v'.over
            && InQueue(v', t) == InQueue(v, t)
            && Value(v.value, t) < TICKS_PER_EPOCH
            && (forall due: nat, P: nat :: Fine(v, t, due, P) ==>
                  !InQueue(v', t) && v.epoch * TICKS_PER_EPOCH + Value(v.value, t) == due + P)
  {
    TailKeeps(v.cur, v.value);
    assert v.cur[0] in v.cur;
  }

  lemma Rejoin(v: View, track: map<Timer, Track>, period: map<Timer, nat>, auto: map<Timer, bool>, but: set<Timer>, t: Timer)
    requires AllFine(v, track, period, auto, but + {t})
    requires t in track && t !in but ==> Settled(v, t, track[t], period[t], auto[t])
    ensures AllFine(v, track, period, auto, but)
  {
  }

  /** Timers the daemon knows, in its lists and in its queue. */
  ghost predicate Known(v: View, period: map<Timer, nat>, auto: map<Timer, bool>) {
    && period.Keys == auto.Keys
    && (forall t :: t in period ==> 1 <= period[t] < TICKS_PER_EPOCH)
    && (forall t :: t in v.cur || t in v.over ==> t in period)
    && (forall i :: 0 <= i < |v.queue| ==> MessageOk(v.queue[i], period))
  }

  predicate MessageOk(m: Message, period: map<Timer, nat>) {
    && (m.Call? || m.timer in period)
    && (m.ChangePeriod? ==> 1 <= m.period < TICKS_PER_EPOCH)
  }

  lemma KnownSteps(v: View, period: map<Timer, nat>, auto: map<Timer, bool>, t: Timer, x: nat, m: Message, stamp: nat)
    requires ViewOk(v) && Known(v, period, auto) && t in period
    requires t !in v.cur && t !in v.over && x < TICKS_PER_EPOCH && MessageOk(m, period)
    ensures Known(PutCurrent(v, t, x), period, auto)
    ensures Known(PutOverflow(v, t, x), period, auto)
    ensures Known(Post(v, m, stamp), period, auto)
  {
    PutKeeps(v, t, x);
    OtherValue(v.cur, v.value, t, x);
    OtherValue(v.over, v.value, t, x);
    InsertKeeps(v.cur, v.value[t := x], t);
    InsertKeeps(v.over, v.value[t := x], t);
  }

  /** Room left below 2^16 by the values of a list. */
  ghost function Slack(list: seq<Timer>, value: map<Timer, nat>): nat {
    if list == [] then 0 else
    (if Value(value, list[0]) < TICKS_PER_EPOCH then TICKS_PER_EPOCH - Value(value, list[0]) else 0)
    + Slack(list[1..], value)
  }

  lemma {:induction false} SlackSplice(list: seq<Timer>, value: map<Timer, nat>, pos: nat, t: Timer)
    requires pos <= |list| && Value(value, t) < TICKS_PER_EPOCH
    requires forall u :: u in list ==> Value(value, u) < TICKS_PER_EPOCH
    ensures var r := list[..pos] + [t] + list[pos..];
            && (forall u :: u in r ==> Value(value, u) < TICKS_PER_EPOCH)
            && Slack(r, value) == Slack(list, value) + TICKS_PER_EPOCH - Value(value, t)
  {
    var r := list[..pos] + [t] + list[pos..];
    if pos == 0 {
      assert r[1..] == list;
    } else {
      assert r[1..] == list[1..][..pos - 1] + [t] + list[1..][pos - 1..];
      SlackSplice(list[1..], value, pos - 1, t);
    }
  }

  lemma {:induction false} SlackOther(list: seq<Timer>, value: map<Timer, nat>, t: Timer, x: nat)
    requires t !in list && forall u :: u in list ==> Value(value, u) < TICKS_PER_EPOCH
    ensures forall u :: u in list ==> Value(value[t := x], u) < TICKS_PER_EPOCH
    ensures Slack(list, value[t := x]) == Slack(list, value)
  {
    if list != [] {
      SlackOther(list[1..], value, t, x);
    }
  }

  /** Reloading the head within the epoch leaves less room. */
  lemma SlackFalls(list: seq<Timer>, value: map<Timer, nat>, x: nat)
    requires ListOk(list, value) && list != [] && Value(value, list[0]) < x < TICKS_PER_EPOCH
    ensures ListOk(Insert(list[1..], value[list[0] := x], list[0]), value[list[0] := x])
    ensures Slack(Insert(list[1..], value[list[0] := x], list[0]), value[list[0] := x]) < Slack(list, value)
  {
    var t, value' := list[0], value[list[0] := x];
    TailKeeps(list, value);
    OtherValue(list[1..], value, t, x);
    SlackOther(list[1..], value, t, x);
    InsertKeeps(list[1..], value', t);
    SlackSplice(list[1..], value', InsertPos(Values(list[1..], value'), x), t);
  }

  // ---- Steps on all timers at once ----------------------------------------------------------

  ghost predicate AllOk(v: View, track: map<Timer, Track>, period: map<Timer, nat>, auto: map<Timer, bool>, but: set<Timer>) {
    ViewOk(v) && Known(v, period, auto) && AllFine(v, track, period, auto, but)
  }

  lemma HeadOutAll(v: View, track: map<Timer, Track>, period: map<Timer, nat>, auto: map<Timer, bool>, but: set<Timer>)
    requires AllOk(v, track, period, auto, but) && v.cur != [] && v.cur[0] !in but
    ensures var t, v' := v.cur[0], v.(cur := v.cur[1..]);
            && AllOk(v', track, period, auto, but + {t}) && OthersSame(v, v', t)
            && t in period && t in auto && t !in v'.cur && t !in v'.over
            && Value(v.value, t) < TICKS_PER_EPOCH
            && (t in track ==>
                  && GoesOn(track[t], auto[t]) && TrackOk(track[t], period[t]) && !InQueue(v', t)
                  && v.epoch * TICKS_PER_EPOCH + Value(v.value, t) == track[t].due + period[t])
  {
    var t, v' := v.cur[0], v.(cur := v.cur[1..]);
    HeadOutKeeps(v);
    StillFine(v, v', track, period, auto, but, t);
    assert t in v.cur;
    assert forall u :: u in v'.cur ==> u in v.cur;
  }

  lemma CalledAll(v: View, track: map<Timer, Track>, period: map<Timer, nat>, auto: map<Timer, bool>, but: set<Timer>, t: Timer)
    requires AllOk(v, track, period, auto, but) && t in but && t in track
    ensures t in period && AllOk(v, track[t := Called(track[t], period[t])], period, auto, but)
  {
    CalledOk(track[t], period[t]);
  }

  /** Timer t taken to have been started, and to have expired last, by s later than it was. */
  function Slid(track: map<Timer, Track>, t: Timer, s: nat): map<Timer, Track> {
    if t in track then track[t := track[t].(start := track[t].start + s, due := track[t].due + s)] else track
  }

  lemma SlideAll(v: View, track: map<Timer, Track>, period: map<Timer, nat>, auto: map<Timer, bool>, t: Timer, s: nat)
    requires AllOk(v, track, period, auto, {t})
    ensures AllOk(v, Slid(track, t, s), period, auto, {t})
  {
  }

  lemma SlideLog(callbacks: seq<Timer>, track: map<Timer, Track>, t: Timer, s: nat)
    requires Logged(callbacks, track)
    ensures Logged(callbacks, Slid(track, t, s))
  {
  }

  lemma DroppedAll(v: View, track: map<Timer, Track>, period: map<Timer, nat>, auto: map<Timer, bool>, but: set<Timer>, t: Timer)
    requires AllOk(v, track, period, auto, but + {t})
    ensures AllOk(v, track - {t}, period, auto, but)
  {
  }

  /** Timer t put back into a list at its next expiry. */
  lemma PutAll(v: View, v': View, track: map<Timer, Track>, period: map<Timer, nat>, auto: map<Timer, bool>,
               but: set<Timer>, t: Timer, x: nat)
    requires AllOk(v, track, period, auto, but + {t}) && t in period && t !in v.cur && t !in v.over && x < TICKS_PER_EPOCH
    requires v' == PutCurrent(v, t, x) || v' == PutOverflow(v, t, x)
    requires t in track && t !in but ==>
               && !InQueue(v, t) && t in auto && GoesOn(track[t], auto[t])
               && var X := track[t].due + period[t];
                  v' == if X == v.epoch * TICKS_PER_EPOCH + x then PutCurrent(v, t, x)
                        else if X == (v.epoch + 1) * TICKS_PER_EPOCH + x then PutOverflow(v, t, x) else v
    ensures AllOk(v', track, period, auto, but) && OthersSame(v, v', t)
    ensures v' == PutCurrent(v, t, x) ==> ActiveUntil(v', t, v.epoch * TICKS_PER_EPOCH + x)
    ensures v' == PutOverflow(v, t, x) ==> ActiveUntil(v', t, (v.epoch + 1) * TICKS_PER_EPOCH + x)
  {
    PutKeeps(v, t, x);
    KnownSteps(v, period, auto, t, x, Call, 0);
    StillFine(v, v', track, period, auto, but + {t}, t);
    assert but + {t} + {t} == but + {t};
    assert InQueue(v', t) == InQueue(v, t);
    Rejoin(v', track, period, auto, but, t);
  }

  /** Timer t left to a command that restarts it. */
  lemma PostAll(v: View, track: map<Timer, Track>, period: map<Timer, nat>, auto: map<Timer, bool>,
                but: set<Timer>, t: Timer, C: nat)
    requires AllOk(v, track, period, auto, but + {t}) && t in period && t !in v.cur && t !in v.over
    requires t in track && t !in but ==> !InQueue(v, t) && track[t].due == C && t in auto && GoesOn(track[t], auto[t])
    ensures AllOk(Post(v, Start(t, C % TICKS_PER_EPOCH), C), track, period, auto, but)
    ensures OthersSame(v, Post(v, Start(t, C % TICKS_PER_EPOCH), C), t)
  {
    var m := Start(t, C % TICKS_PER_EPOCH);
    PostKeeps(v, m, C);
    KnownSteps(v, period, auto, t, 0, m, C);
    StillFine(v, Post(v, m, C), track, period, auto, but + {t}, t);
    assert but + {t} + {t} == but + {t};
    Rejoin(Post(v, m, C), track, period, auto, but, t);
  }

  lemma SameRefl(v: View, t: Timer)
    ensures OthersSame(v, v, t)
  {
  }

  lemma SameTrans(v: View, v1: View, v2: View, t: Timer)
    requires OthersSame(v, v1, t) && OthersSame(v1, v2, t)
    ensures OthersSame(v, v2, t)
  {
    forall u | u != t
      ensures SameFor(v, v2, u)
    {
      assert SameFor(v, v1, u) && SameFor(v1, v2, u);
    }
  }

  /** What becomes of timer t once it has expired for true time X: a one-shot timer is nowhere;
      one that reloads itself is in a list until X + P, or if that has come too, a command to
      restart it is queued, if there is room. */
  ghost predicate Reloaded(v: View, v': View, t: Timer, X: nat, P: nat, auto: bool, now: nat) {
    if !auto then t !in v'.cur && t !in v'.over && v'.queue == v.queue
    else if X + P > now then ActiveUntil(v', t, X + P) && v'.queue == v.queue
    else
      && t !in v'.cur && t !in v'.over
      && (v'.queue == v.queue + [Start(t, X % TICKS_PER_EPOCH)] || (v'.queue == v.queue && |v.queue| >= QUEUE_LENGTH))
  }

  /** Only the queue before matters. */
  lemma ReloadedFrom(v: View, v1: View, v': View, t: Timer, X: nat, P: nat, auto: bool, now: nat)
    requires Reloaded(v1, v', t, X, P, auto, now) && v.queue == v1.queue
    ensures Reloaded(v, v', t, X, P, auto, now)
  {
  }

  lemma SlackTail(list: seq<Timer>, value: map<Timer, nat>)
    requires ListOk(list, value) && list != []
    ensures ListOk(list[1..], value) && Slack(list[1..], value) < Slack(list, value)
  {
    TailKeeps(list, value);
    assert list[0] in list;
  }

  lemma ListsOk(v: View, track: map<Timer, Track>, period: map<Timer, nat>, auto: map<Timer, bool>, but: set<Timer>)
    requires AllOk(v, track, period, auto, but)
    ensures ListOk(v.cur, v.value) && ListOk(v.over, v.value)
    ensures forall t :: t in v.cur || t in v.over ==> t in period && t in auto && Value(v.value, t) < TICKS_PER_EPOCH
    ensures forall t :: t in period ==> 1 <= period[t] < TICKS_PER_EPOCH
  {
  }

  lemma IdleAll(v: View, track: map<Timer, Track>, period: map<Timer, nat>, auto: map<Timer, bool>, but: set<Timer>, t: Timer)
    requires AllOk(v, track, period, auto, but + {t})
    requires t in track ==> t in auto && !auto[t] && track[t].calls == 1 && Loose(v, t)
    ensures AllOk(v, track, period, auto, but)
  {
  }

  lemma ExchangeAll(v: View, track: map<Timer, Track>, period: map<Timer, nat>, auto: map<Timer, bool>, but: set<Timer>)
    requires AllOk(v, track, period, auto, but) && v.cur == []
    ensures AllOk(Exchange(v), track, period, auto, but)
    ensures forall u :: InQueue(Exchange(v), u) <==> InQueue(v, u)
  {
    forall t | t in track
      ensures t !in but ==> Settled(Exchange(v), t, track[t], period[t], auto[t])
    {
      ExchangeKeeps(v, t, track[t].due, period[t]);
    }
    ExchangeKeeps(v, Timer(0), 0, 0);
  }

  /** Timers out of both lists, with nothing done to them. */
  ghost predicate Untouched(v: View, v': View, ts: set<Timer>) {
    forall u :: u in ts ==>
      && u !in v.cur && u !in v.over && u !in v'.cur && u !in v'.over
      && (InQueue(v', u) <==> InQueue(v, u))
  }

  lemma StillUntouched(v: View, v1: View, v2: View, ts: set<Timer>, t: Timer)
    requires Untouched(v, v1, ts) && OthersSame(v1, v2, t) && t !in ts
    ensures Untouched(v, v2, ts)
  {
    forall u | u in ts
      ensures u !in v2.cur && u !in v2.over && (InQueue(v2, u) <==> InQueue(v, u))
    {
      assert SameFor(v1, v2, u);
    }
  }

  lemma NoneTouched(v: View, ts: set<Timer>)
    requires forall u :: u in ts ==> u !in v.cur && u !in v.over
    ensures Untouched(v, v, ts)
  {
  }

  lemma NotAside(v: View, v': View, ts: set<Timer>, t: Timer)
    requires Untouched(v, v', ts) && t in v'.cur
    ensures t !in ts
  {
  }

  lemma ExchangeTouchesNone(v: View, v': View, ts: set<Timer>)
    requires Untouched(v, v', ts) && forall u :: InQueue(Exchange(v'), u) <==> InQueue(v', u)
    ensures Untouched(v, Exchange(v'), ts)
  {
  }

  /** The item value of a timer out of both lists does not matter. */
  lemma ValueOnly(v: View, track: map<Timer, Track>, period: map<Timer, nat>, auto: map<Timer, bool>, t: Timer, x: nat)
    requires AllOk(v, track, period, auto, {t}) && t !in v.cur && t !in v.over
    ensures var v' := v.(value := v.value[t := x]);
            && AllOk(v', track, period, auto, {t}) && (InQueue(v', t) <==> InQueue(v, t))
  {
    var v' := v.(value := v.value[t := x]);
    OtherValue(v.cur, v.value, t, x);
    OtherValue(v.over, v.value, t, x);
    assert forall u :: InQueue(v', u) <==> InQueue(v, u);
    forall u | u != t
      ensures SameFor(v, v', u)
    {
      assert forall C: nat :: Waiting(v, u, C) ==> Waiting(v', u, C);
    }
    StillFine(v, v', track, period, auto, {t}, t);
    assert {t} + {t} == {t};
  }

  lemma TakeOutAll(v: View, track: map<Timer, Track>, period: map<Timer, nat>, auto: map<Timer, bool>, t: Timer)
    requires AllOk(v, track, period, auto, {t})
    ensures var v' := TakeOut(v, t);
            && AllOk(v', track, period, auto, {t}) && t !in v'.cur && t !in v'.over
            && (InQueue(v', t) <==> InQueue(v, t))
            && (t !in v.cur && t !in v.over ==> v' == v)
  {
    var v' := TakeOut(v, t);
    TakeOutKeeps(v, t);
    StillFine(v, v', track, period, auto, {t}, t);
    assert {t} + {t} == {t};
    WithoutKeeps(v.cur, v.value, t);
    WithoutKeeps(v.over, v.value, t);
    if t !in v.cur && t !in v.over {
      WithoutAbsent(v.cur, t);
      WithoutAbsent(v.over, t);
    }
  }

  /** A command for a timer that is followed is the one that restarts it. */
  lemma PopAll(v: View, track: map<Timer, Track>, period: map<Timer, nat>, auto: map<Timer, bool>)
    requires AllOk(v, track, period, auto, {}) && v.queue != []
    ensures v.queue[0].Call? ==> AllOk(Pop(v), track, period, auto, {})
    ensures !v.queue[0].Call? ==>
              var t := v.queue[0].timer;
              && AllOk(Pop(v), track, period, auto, {t}) && t in period && t in auto
              && (t in track ==>
                    && t !in v.cur && t !in v.over && !InQueue(Pop(v), t) && GoesOn(track[t], auto[t])
                    && v.queue[0] == Start(t, track[t].due % TICKS_PER_EPOCH) && v.stamps[0] == track[t].due)
    ensures v.queue[0].Start? ==> v.queue[0].time == v.stamps[0] % TICKS_PER_EPOCH
    ensures v.queue[0].ChangePeriod? ==> 1 <= v.queue[0].period < TICKS_PER_EPOCH
  {
    var v' := Pop(v);
    PopKeeps(v);
    forall u | u in track && !v.queue[0].For(u)
      ensures Settled(v', u, track[u], period[u], auto[u])
    {
      assert SameFor(v, v', u);
    }
    assert MessageOk(v.queue[0], period);
    if !v.queue[0].Call? {
      assert v.queue[0].For(v.queue[0].timer);
      assert InQueue(v, v.queue[0].timer);
    }
  }

  /** Timer t followed from now on: it is being started at true time C. */
  lemma FollowAll(v: View, track: map<Timer, Track>, period: map<Timer, nat>, auto: map<Timer, bool>, t: Timer,
                  C: nat, before: nat)
    requires AllOk(v, track, period, auto, {t}) && t in period && t in auto
    ensures AllOk(v, track[t := Track(C, 0, C, before)], period, auto, {t})
  {
  }

  lemma NewPeriodAll(v: View, track: map<Timer, Track>, period: map<Timer, nat>, auto: map<Timer, bool>, t: Timer, P: nat)
    requires AllOk(v, track, period, auto, {t}) && t in period && t !in track && 1 <= P < TICKS_PER_EPOCH
    ensures AllOk(v, track, period[t := P], auto, {t})
  {
  }

  /** With no command queued, the head of the current list, or the next wrap of the counter,
      bounds every next expiry from below. */
  lemma NextExpiry(v: View, track: map<Timer, Track>, period: map<Timer, nat>, auto: map<Timer, bool>, t: Timer)
    requires AllOk(v, track, period, auto, {}) && v.queue == [] && t in track && t in auto && GoesOn(track[t], auto[t])
    ensures track[t].due + period[t] >= (if v.cur == [] then (v.epoch + 1) * TICKS_PER_EPOCH
                                         else v.epoch * TICKS_PER_EPOCH + Value(v.value, v.cur[0]))
  {
    assert Fine(v, t, track[t].due, period[t]);
    if t in v.cur {
      HeadIsLeast(v.cur, v.value, t);
    }
    if v.cur != [] {
      assert v.cur[0] in v.cur;
    }
  }

  /** The callbacks made are those that were counted. */
  ghost predicate Logged(callbacks: seq<Timer>, track: map<Timer, Track>) {
    forall t :: t in track ==> multiset(callbacks)[t] == track[t].before + track[t].calls
  }

  lemma LogOne(callbacks: seq<Timer>, track: map<Timer, Track>, t: Timer, P: nat)
    requires Logged(callbacks, track)
    ensures Logged(callbacks + [t], if t in track then track[t := Called(track[t], P)] else track)
  {
  }

  /** Timers followed before and after are followed from the same start, and no callback is
      taken back. */
  ghost predicate Kept(was: map<Timer, Track>, track: map<Timer, Track>) {
    forall u :: u in track && u in was ==>
      track[u].start == was[u].start && track[u].before == was[u].before && track[u].calls >= was[u].calls
  }

  lemma KeptSame(was: map<Timer, Track>, track: map<Timer, Track>)
    requires forall u :: u in track ==> u in was && track[u] == was[u]
    ensures Kept(was, track)
  {
  }

  lemma KeptMore(was: map<Timer, Track>, track: map<Timer, Track>)
    requires forall u :: u in was ==> u in track && track[u] == was[u]
    ensures Kept(was, track)
  {
  }

  lemma KeptCalled(was: map<Timer, Track>, tr: map<Timer, Track>, track: map<Timer, Track>, t: Timer, P: nat)
    requires tr == if t in was then was[t := Called(was[t], P)] else was
    requires forall u :: u in track ==> u in tr && track[u] == tr[u]
    ensures Kept(was, track)
    ensures t in track ==> t in was && track[t] == Called(was[t], P)
    ensures forall u :: u in track && u != t ==> u in was && track[u] == was[u]
    ensures tr.Keys == was.Keys && track.Keys <= was.Keys
  {
  }

  lemma KeptTrans(a: map<Timer, Track>, b: map<Timer, Track>, c: map<Timer, Track>)
    requires Kept(a, b) && Kept(b, c) && c.Keys * a.Keys <= b.Keys
    ensures Kept(a, c)
  {
    forall u | u in c && u in a
      ensures c[u].start == a[u].start && c[u].before == a[u].before && c[u].calls >= a[u].calls
    {
      assert u in c.Keys * a.Keys;
    }
  }

  /** The last expiry before true time `boundary` has been called for. */
  ghost predicate CalledUpTo(tr: Track, P: nat, auto: bool, boundary: nat) {
    tr.due < boundary && if auto then boundary <= tr.due + P else tr.calls == 1
  }

  /** A timer whose next expiry falls out of the epoch of its last one. */
  lemma ReloadPast(tr: Track, P: nat, epoch: nat, x: nat)
    requires tr.due == epoch * TICKS_PER_EPOCH + x && x < TICKS_PER_EPOCH && 1 <= P < TICKS_PER_EPOCH
    requires (x + P) % TICKS_PER_EPOCH <= x
    ensures CalledUpTo(tr, P, true, (epoch + 1) * TICKS_PER_EPOCH)
  {
  }

  lemma LastCall(tr: Track, P: nat, epoch: nat, x: nat)
    requires tr.due == epoch * TICKS_PER_EPOCH + x && x < TICKS_PER_EPOCH && tr.calls == 1
    ensures CalledUpTo(tr, P, false, (epoch + 1) * TICKS_PER_EPOCH)
  {
  }

  /** So have those of all the timers of the list that are no longer in `cur`. */
  ghost predicate Rounded(list: seq<Timer>, cur: seq<Timer>, track: map<Timer, Track>, period: map<Timer, nat>,
                          auto: map<Timer, bool>, boundary: nat) {
    forall u :: u in list && u in track && u !in cur ==>
      u in period && u in auto && CalledUpTo(track[u], period[u], auto[u], boundary)
  }

  lemma NoneRounded(list: seq<Timer>, track: map<Timer, Track>, period: map<Timer, nat>, auto: map<Timer, bool>, boundary: nat)
    ensures Rounded(list, list, track, period, auto, boundary)
  {
  }

  lemma RoundedOneMore(list: seq<Timer>, v: View, v': View, track: map<Timer, Track>, track': map<Timer, Track>,
                       period: map<Timer, nat>, auto: map<Timer, bool>, boundary: nat, t: Timer)
    requires Rounded(list, v.cur, track, period, auto, boundary) && OthersSame(v, v', t)
    requires forall u :: u in track' && u != t ==> u in track && track'[u] == track[u]
    requires t in track' && t !in v'.cur ==> t in period && t in auto && CalledUpTo(track'[t], period[t], auto[t], boundary)
    ensures Rounded(list, v'.cur, track', period, auto, boundary)
  {
    forall u | u in list && u in track' && u !in v'.cur
      ensures u in period && u in auto && CalledUpTo(track'[u], period[u], auto[u], boundary)
    {
      if u != t {
        assert SameFor(v, v', u);
      }
    }
  }

  /** As many callbacks as before for each of the timers ts. */
  ghost predicate SameCalls(calls: seq<Timer>, calls': seq<Timer>, ts: set<Timer>) {
    forall u :: u in ts ==> multiset(calls')[u] == multiset(calls)[u]
  }

  lemma NoneCalled(calls: seq<Timer>, ts: set<Timer>)
    ensures SameCalls(calls, calls, ts)
  {
  }

  lemma OneMoreCall(calls: seq<Timer>, calls': seq<Timer>, ts: set<Timer>, t: Timer)
    requires SameCalls(calls, calls', ts) && t !in ts
    ensures SameCalls(calls, calls' + [t], ts)
  {
  }

  /** Every timer of the list is either still in `cur` or was called since `calls`. */
  ghost predicate CalledOrIn(list: seq<Timer>, calls: seq<Timer>, calls': seq<Timer>, cur: seq<Timer>) {
    calls <= calls' && forall u :: u in list ==> u in calls'[|calls|..] || u in cur
  }

  lemma NoneCalledSince(list: seq<Timer>, calls: seq<Timer>)
    ensures CalledOrIn(list, calls, calls, list)
  {
  }

  lemma CalledOneMore(list: seq<Timer>, calls: seq<Timer>, v: View, v': View, calls': seq<Timer>, t: Timer)
    requires CalledOrIn(list, calls, calls', v.cur) && OthersSame(v, v', t)
    ensures CalledOrIn(list, calls, calls' + [t], v'.cur)
  {
    assert (calls' + [t])[|calls|..] == calls'[|calls|..] + [t];
    forall u | u in list
      ensures u in calls'[|calls|..] + [t] || u in v'.cur
    {
      if u != t {
        assert SameFor(v, v', u);
      }
    }
  }

  lemma LogFewer(callbacks: seq<Timer>, track: map<Timer, Track>, track': map<Timer, Track>)
    requires Logged(callbacks, track)
    requires forall t :: t in track' ==> t in track && track'[t] == track[t]
    ensures Logged(callbacks, track')
  {
  }

  lemma CreateAll(v: View, track: map<Timer, Track>, period: map<Timer, nat>, auto: map<Timer, bool>,
                  t: Timer, P: nat, a: bool)
    requires AllOk(v, track, period, auto, {}) && t !in period && 1 <= P < TICKS_PER_EPOCH
    ensures AllOk(v, track, period[t := P], auto[t := a], {})
  {
  }

  /** A new command: all other timers go on as before. */
  lemma CommandAll(v: View, track: map<Timer, Track>, period: map<Timer, nat>, auto: map<Timer, bool>, m: Message, C: nat)
    requires AllOk(v, track, period, auto, {}) && MessageOk(m, period)
    requires m.Start? ==> m.time == C % TICKS_PER_EPOCH
    ensures AllOk(Post(v, m, C), if m.Call? then track else track - {m.timer}, period, auto, {})
  {
    var v' := Post(v, m, C);
    PostKeeps(v, m, C);
    forall u | u in track && !m.For(u)
      ensures Settled(v', u, track[u], period[u], auto[u])
    {
      assert SameFor(v, v', u);
    }
  }
}
