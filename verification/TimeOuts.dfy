/** vTaskSetTimeOutState and xTaskCheckForTimeOut: block times measured with a 16-bit tick
    counter and an 8-bit count of its overflows. */
module TimeOuts {
  import opened Tasks
  import opened Kernel

  const MAX_WAIT := 0xFFFF

  /** The low bits of a true time: the counter, and its overflow count. */
  datatype Stamp = Stamp(xOverflowCount: nat, xTimeOnEntering: nat)

  function StampOf(time: nat): Stamp {
    Stamp(time / TICKS_PER_EPOCH % 0x100, time % TICKS_PER_EPOCH)
  }

  datatype Verdict = Expired | Remaining(ticksToWait: nat, since: Stamp)

  /** xTaskCheckForTimeOut, from the stamp taken before and the stamp of this moment. */
  function CheckForTimeOut(entry: Stamp, now: Stamp, ticksToWait: nat): Verdict
    requires now.xTimeOnEntering < TICKS_PER_EPOCH && entry.xTimeOnEntering < TICKS_PER_EPOCH
  {
    var elapsed := (now.xTimeOnEntering - entry.xTimeOnEntering) % TICKS_PER_EPOCH;
    if ticksToWait == MAX_WAIT then
      Remaining(ticksToWait, entry)
    else if now.xOverflowCount != entry.xOverflowCount && now.xTimeOnEntering >= entry.xTimeOnEntering then
      Expired
    else if elapsed < ticksToWait then
      Remaining(ticksToWait - elapsed, now)
    else
      Expired
  }

  class TimeOut {
    var xOverflowCount: nat
    var xTimeOnEntering: nat

    function Get(): Stamp
      reads this
    {
      Stamp(xOverflowCount, xTimeOnEntering)
    }

    /** vTaskSetTimeOutState. */
    method SetState(k: Kernel)
      requires k.Valid()
      modifies this
      ensures Get() == StampOf(k.Clock().now)
    {
      KernelStamp(k);
      xOverflowCount := k.xNumOfOverflows;
      xTimeOnEntering := k.xTickCount;
    }

    /** xTaskCheckForTimeOut. */
    method Check(k: Kernel, pxTicksToWait: nat) returns (xReturn: bool, ticksToWait: nat)
      requires k.Valid() && xTimeOnEntering < TICKS_PER_EPOCH
      modifies this
      ensures match CheckForTimeOut(old(Get()), StampOf(k.Clock().now), pxTicksToWait)
              case Expired => xReturn && ticksToWait == pxTicksToWait && Get() == old(Get())
              case Remaining(w, since) => !xReturn && ticksToWait == w && Get() == since
    {
      KernelStamp(k);
      ticksToWait := pxTicksToWait;
      if ticksToWait == MAX_WAIT {
        xReturn := false;
      } else if k.xNumOfOverflows != xOverflowCount && k.xTickCount >= xTimeOnEntering {
        xReturn := true;
      } else if (k.xTickCount - xTimeOnEntering) % TICKS_PER_EPOCH < ticksToWait {
        ticksToWait := ticksToWait - (k.xTickCount - xTimeOnEntering) % TICKS_PER_EPOCH;
        SetState(k);
        xReturn := false;
      } else {
        xReturn := true;
      }
    }
  }

  lemma KernelStamp(k: Kernel)
    requires k.Valid()
    ensures StampOf(k.Clock().now) == Stamp(k.xNumOfOverflows, k.xTickCount)
    ensures k.xTickCount < TICKS_PER_EPOCH
  {
    assert k.Clock().now == k.epoch * TICKS_PER_EPOCH + k.xTickCount;
  }

  // ---- What the verdict means ---------------------------------------------------------------

  /** Expiry is reported exactly when the wait is over, and otherwise the deadline stays,
      as long as the counter wraps at most once between the two stamps. */
  lemma CheckIsExact(entered: nat, now: nat, wait: nat)
    requires entered <= now && now / TICKS_PER_EPOCH <= entered / TICKS_PER_EPOCH + 1 && wait < MAX_WAIT
    ensures match CheckForTimeOut(StampOf(entered), StampOf(now), wait)
            case Expired => now >= entered + wait
            case Remaining(w, since) => now < entered + wait && since == StampOf(now) && now + w == entered + wait
  {
    var e, n := entered / TICKS_PER_EPOCH, now / TICKS_PER_EPOCH;
    assert n == e || n == e + 1;
    assert n == e + 1 ==> n % 0x100 != e % 0x100;
  }

  /** Fewer than 2^16 ticks between the two are always close enough. */
  lemma CloseEnough(entered: nat, now: nat)
    requires entered <= now < entered + TICKS_PER_EPOCH
    ensures now / TICKS_PER_EPOCH <= entered / TICKS_PER_EPOCH + 1
  {
  }

  /** For any two times: the verdict is wrong exactly when a full period or more has passed,
      the low bits alone look early, and the overflow count does not give it away. */
  lemma WrongExactlyWhen(entered: nat, now: nat, wait: nat)
    requires entered <= now && wait < MAX_WAIT
    ensures var e, n := StampOf(entered), StampOf(now);
            (CheckForTimeOut(e, n, wait).Expired? <==> now >= entered + wait) <==>
            !(now - entered >= TICKS_PER_EPOCH && (now - entered) % TICKS_PER_EPOCH < wait
              && (n.xOverflowCount == e.xOverflowCount || n.xTimeOnEntering < e.xTimeOnEntering))
  {
    if now - entered < TICKS_PER_EPOCH {
      CloseEnough(entered, now);
      CheckIsExact(entered, now, wait);
    }
    ElapsedMod(entered, now);
  }

  lemma ElapsedMod(entered: nat, now: nat)
    requires entered <= now
    ensures (now % TICKS_PER_EPOCH - entered % TICKS_PER_EPOCH) % TICKS_PER_EPOCH == (now - entered) % TICKS_PER_EPOCH
  {
  }

  /** After two wraps the check can be wrong: a wait of 65534 ticks, checked after 131067. */
  lemma TwoWrapsFool()
    ensures CheckForTimeOut(StampOf(10), StampOf(131077), 65534).Remaining?
  {
    assert StampOf(10) == Stamp(0, 10);
    assert StampOf(131077) == Stamp(2, 5);
  }

  // ---- A whole blocking call ------------------------------------------------------------------

  /** The retry loop of a blocking send or receive, as far as time goes: it checks at each of
      the given times until one check reports expiry, and returns how many checks that took. */
  function ChecksUntilExpiry(since: Stamp, wait: nat, times: seq<nat>): (n: nat)
    requires since.xTimeOnEntering < TICKS_PER_EPOCH
    ensures n <= |times|
    decreases |times|
  {
    if times == [] then 0 else
    match CheckForTimeOut(since, StampOf(times[0]), wait)
    case Expired => 0
    case Remaining(w, s) => 1 + ChecksUntilExpiry(s, w, times[1..])
  }

  /** Each check comes less than 2^16 ticks after the one before. */
  ghost predicate Frequent(entered: nat, times: seq<nat>)
    decreases |times|
  {
    times != [] ==> entered <= times[0] < entered + TICKS_PER_EPOCH && Frequent(times[0], times[1..])
  }

  /** The loop keeps one absolute deadline: it gives up at the first check at or after it. */
  lemma {:induction false} OneDeadline(entered: nat, wait: nat, times: seq<nat>)
    requires Frequent(entered, times) && wait < MAX_WAIT
    ensures var n := ChecksUntilExpiry(StampOf(entered), wait, times);
            && (forall i :: 0 <= i < n ==> times[i] < entered + wait)
            && (n < |times| ==> times[n] >= entered + wait)
    decreases |times|
  {
    if times != [] {
      CloseEnough(entered, times[0]);
      CheckIsExact(entered, times[0], wait);
      match CheckForTimeOut(StampOf(entered), StampOf(times[0]), wait)
      case Expired =>
      case Remaining(w, s) =>
        OneDeadline(times[0], w, times[1..]);
        var n := ChecksUntilExpiry(StampOf(entered), wait, times);
        forall i | 0 <= i < n
          ensures times[i] < entered + wait
        {
          if i > 0 {
            assert times[i] == times[1..][i - 1];
          }
        }
    }
  }

  /** An unlimited wait never expires, whatever the times. */
  lemma {:induction false} Forever(since: Stamp, times: seq<nat>)
    requires since.xTimeOnEntering < TICKS_PER_EPOCH
    ensures ChecksUntilExpiry(since, MAX_WAIT, times) == |times|
    decreases |times|
  {
    if times != [] {
      Forever(since, times[1..]);
    }
  }
}
