/** What the tick interrupt promises to delayed tasks, on unbounded time.  Class Kernel
    shows that its 16-bit counter and its two lists take exactly these steps. */
module WakeTimes {
  import opened Tasks

  /** now ticks have been processed; wake holds the blocked tasks that have a timeout. */
  datatype Clock = Clock(now: nat, wake: map<Task, nat>)

  datatype Event =
    | Tick
    | Block(task: Task, ticks: nat)
    | Unblock(tasks: set<Task>)

  function Step(c: Clock, e: Event): Clock {
    match e
    case Tick => Clock(c.now + 1, map t | t in c.wake && c.wake[t] != c.now + 1 :: c.wake[t])
    case Block(t, d) => Clock(c.now, c.wake[t := c.now + d])
    case Unblock(ts) => Clock(c.now, c.wake - ts)
  }

  /** Only a running task blocks, and for 1..65535 ticks. */
  predicate Enabled(c: Clock, e: Event) {
    e.Block? ==> e.task !in c.wake && 1 <= e.ticks < TICKS_PER_EPOCH
  }

  predicate Possible(c: Clock, es: seq<Event>)
    decreases |es|
  {
    es == [] || (Enabled(c, es[0]) && Possible(Step(c, es[0]), es[1..]))
  }

  function Run(c: Clock, es: seq<Event>): Clock
    decreases |es|
  {
    if es == [] then c else Run(Step(c, es[0]), es[1..])
  }

  /** n ticks in a row. */
  function Ticks(n: nat): (es: seq<Event>)
    ensures |es| == n && forall i :: 0 <= i < n ==> es[i] == Tick
  {
    seq(n, i => Tick)
  }

  ghost predicate Pending(c: Clock) {
    forall t :: t in c.wake ==> c.now < c.wake[t] < c.now + TICKS_PER_EPOCH
  }

  lemma {:induction false} RunKeepsPending(c: Clock, es: seq<Event>)
    requires Pending(c) && Possible(c, es)
    ensures Pending(Run(c, es))
    decreases |es|
  {
    if es != [] {
      RunKeepsPending(Step(c, es[0]), es[1..]);
    }
  }

  /** No event of the run takes t out early. */
  predicate LeavesAlone(es: seq<Event>, t: Task) {
    forall i :: 0 <= i < |es| ==> es[i].Unblock? ==> t !in es[i].tasks
  }

  predicate NeverBlocks(es: seq<Event>, t: Task) {
    forall i :: 0 <= i < |es| ==> es[i].Block? ==> es[i].task != t
  }

  /** Until its tick comes a blocked task keeps the wake time it has, and then it is gone. */
  lemma {:induction false} SleepsUntil(c: Clock, es: seq<Event>, t: Task)
    requires Pending(c) && Possible(c, es) && t in c.wake
    requires LeavesAlone(es, t) && NeverBlocks(es, t)
    ensures var c' := Run(c, es);
            && (t in c'.wake <==> c'.now < c.wake[t])
            && (t in c'.wake ==> c'.wake[t] == c.wake[t])
    decreases |es|
  {
    if es != [] {
      var c', rest := Step(c, es[0]), es[1..];
      RunKeepsPending(c, [es[0]]);
      assert Run(c, [es[0]]) == c';
      if t in c'.wake {
        SleepsUntil(c', rest, t);
      } else {
        StaysAwake(c', rest, t);
      }
    }
  }

  lemma {:induction false} StaysAwake(c: Clock, es: seq<Event>, t: Task)
    requires t !in c.wake && NeverBlocks(es, t)
    ensures t !in Run(c, es).wake && Run(c, es).now >= c.now
    decreases |es|
  {
    if es != [] {
      StaysAwake(Step(c, es[0]), es[1..], t);
    }
  }

  /** A task that blocks at time T for d ticks, and is not taken out early, is blocked
      after every further run exactly while fewer than T + d ticks have been processed. */
  lemma ExactTimeout(c: Clock, t: Task, d: nat, es: seq<Event>)
    requires Pending(c) && t !in c.wake && 1 <= d < TICKS_PER_EPOCH
    requires Possible(c, [Block(t, d)] + es) && LeavesAlone(es, t) && NeverBlocks(es, t)
    ensures var c' := Run(c, [Block(t, d)] + es);
            && (t in c'.wake <==> c'.now < c.now + d)
            && (t in c'.wake ==> c'.wake[t] == c.now + d)
  {
    var all := [Block(t, d)] + es;
    assert all[1..] == es;
    SleepsUntil(Step(c, all[0]), es, t);
  }

  lemma {:induction false} RunAppend(c: Clock, a: seq<Event>, b: seq<Event>)
    ensures Run(c, a + b) == Run(Run(c, a), b)
    decreases |a|
  {
    if a == [] {
      assert a + b == b;
    } else {
      assert (a + b)[1..] == a[1..] + b;
      RunAppend(Step(c, a[0]), a[1..], b);
    }
  }

  lemma OneMoreTick(c: Clock, es: seq<Event>, n: nat)
    ensures Run(c, es + Ticks(n + 1)) == Step(Run(c, es + Ticks(n)), Tick)
  {
    assert es + Ticks(n + 1) == (es + Ticks(n)) + [Tick];
    RunAppend(c, es + Ticks(n), [Tick]);
    var d := Run(c, es + Ticks(n));
    assert Run(d, [Tick]) == Run(Step(d, Tick), []);
  }

  lemma RunOne(c: Clock, e: Event)
    ensures Run(c, [e]) == Step(c, e)
  {
    assert Run(c, [e]) == Run(Step(c, e), []);
  }
}
