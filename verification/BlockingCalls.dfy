/** The retry loop of a blocking send or receive: the time check of xTaskCheckForTimeOut and the
    wait for the remaining ticks, together over whole runs of the kernel. */
module BlockingCalls {
  import opened Options
  import opened Tasks
  import opened Kernel
  import opened KernelRuns
  import opened TimeOuts

  /** One turn of the loop, when there is still nothing to receive or no room.  It gives up
      exactly if the time that was left at `since` has run out.  Otherwise the task blocks on
      event list q for what is left of it: whenever in the wait the check came, a task that no
      call reaches is ready once the tick of the deadline is processed.  The renewed stamp and
      the remaining ticks have the same deadline, for the next turn. */
  method CheckAndBlock(k: Kernel, timeOut: TimeOut, q: int, ticksToWait: nat, ghost since: nat, calls: seq<Call>)
    returns (expired: bool, remaining: nat, n: nat)
    requires k.MayBlock() && k.MutexesOk() && ticksToWait < MAX_WAIT
    requires timeOut.Get() == StampOf(since)
    requires since <= k.Clock().now && k.Clock().now / TICKS_PER_EPOCH <= since / TICKS_PER_EPOCH + 1
    modifies k, timeOut
    ensures k.Valid() && k.MutexesOk() && n <= |calls|
    ensures var t, now, deadline := old(k.pxCurrentTCB), old(k.Clock().now), since + ticksToWait;
            && (expired <==> now >= deadline)
            && (expired ==> n == 0 && k.Clock() == old(k.Clock()) && k.IsReady(t))
            && (!expired ==>
                  && timeOut.Get() == StampOf(now) && now + remaining == deadline
                  && AsleepUntil(k, t, deadline, Some(q))
                  && (n < |calls| ==> k.Clock().now >= deadline || Reaches(k, calls[n], t))
                  && (k.Clock().now > deadline ==> n > 0 && calls[n - 1].ResumeScheduler?))
  {
    hide Kernel.Valid, Kernel.MutexesOk, Kernel.Clock, CheckForTimeOut, StampOf, AsleepUntil, Reaches;
    CheckIsExact(since, k.Clock().now, ticksToWait);
    StampSmall(since);
    expired, remaining := timeOut.Check(k, ticksToWait);
    n := 0;
    if !expired {
      n := BlockOnEventAndWait(k, q, remaining, calls);
    }
  }

  lemma StampSmall(time: nat)
    ensures StampOf(time).xTimeOnEntering < TICKS_PER_EPOCH
  {
  }
}
