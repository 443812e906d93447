/** vTaskSetTimeOutState and xTaskCheckForTimeOut, and the block-time budget of a call that
    waits, is woken and waits again. */
module BlockTime {
  import opened Ticks
  import opened ReadyBits
  import opened KernelSpec
  import opened KernelInvariant
  import opened KernelClock

  datatype TimeOut = TimeOut(overflowCount: Tick, timeOnEntering: Tick)

  datatype CheckResult = CheckResult(timedOut: bool, timeOut: TimeOut, remaining: Tick)

  // ----- the specification, given the value of the two kernel counters

  function Check(overflows: Tick, tick: Tick, t: TimeOut, wait: Tick): CheckResult {
    if wait == MAX_DELAY then CheckResult(false, t, wait)
    else if overflows != t.overflowCount && tick >= t.timeOnEntering then CheckResult(true, t, wait)
    else if Wrapped(tick - t.timeOnEntering) < wait then
      CheckResult(false, TimeOut(overflows, tick), wait - Wrapped(tick - t.timeOnEntering))
    else CheckResult(true, t, wait)
  }

  /** TimeOut_t and the block time of one call, both updated in place. */
  class WaitingCall {
    var overflowCount: Tick
    var timeOnEntering: Tick
    var ticksToWait: Tick

    function State(): TimeOut
      reads this
    {
      TimeOut(overflowCount, timeOnEntering)
    }

    constructor (wait: Tick)
      ensures ticksToWait == wait
    {
      ticksToWait := wait;
    }

    /** vTaskSetTimeOutState. */
    method SetTimeOutState(numOfOverflows: Tick, tickCount: Tick)
      modifies this`overflowCount, this`timeOnEntering
      ensures State() == TimeOut(numOfOverflows, tickCount)
    {
      overflowCount := numOfOverflows;
      timeOnEntering := tickCount;
    }

    /** xTaskCheckForTimeOut. */
    method CheckForTimeOut(numOfOverflows: Tick, tickCount: Tick) returns (timedOut: bool)
      modifies this
      ensures CheckResult(timedOut, State(), ticksToWait) ==
        Check(numOfOverflows, tickCount, old(State()), old(ticksToWait))
    {
      if ticksToWait == MAX_DELAY {
        timedOut := false;
      } else if numOfOverflows != overflowCount && tickCount >= timeOnEntering {
        timedOut := true;
      } else if Wrapped(tickCount - timeOnEntering) < ticksToWait {
        ticksToWait := ticksToWait - Wrapped(tickCount - timeOnEntering);
        SetTimeOutState(numOfOverflows, tickCount);
        timedOut := false;
      } else {
        timedOut := true;
      }
    }
  }

  // ----- on the unbounded clock

  /** xTickCount and xNumOfOverflows after n ticks. */
  function TickAt(n: nat): Tick {
    n % WRAP
  }

  function OverflowsAt(n: nat): Tick {
    (n / WRAP) % WRAP
  }

  /** The two counters as the kernel holds them. */
  lemma KernelCounters(k: Kernel)
    ensures TickAt(Now(k)) == k.tick && Now(k) / WRAP == k.overflows && OverflowsAt(Now(k)) == Wrapped(k.overflows)
  {
    assert Now(k) / WRAP == k.overflows;
  }

  function SetAt(n: nat): TimeOut {
    TimeOut(OverflowsAt(n), TickAt(n))
  }

  function CheckAt(n: nat, t: TimeOut, wait: Tick): CheckResult {
    Check(OverflowsAt(n), TickAt(n), t, wait)
  }

  lemma Elapsed(since: nat, n: nat)
    requires since <= n
    ensures Wrapped(TickAt(n) - TickAt(since)) == (n - since) % WRAP
  {
    assert n - since == (n / WRAP - since / WRAP) * WRAP + (TickAt(n) - TickAt(since));
  }

  lemma EpochsApart(since: nat, n: nat)
    requires since <= n
    ensures since / WRAP <= n / WRAP
    ensures n / WRAP == since / WRAP ==> n - since < WRAP
    ensures n / WRAP == since / WRAP + 1 ==> (n - since < WRAP <==> TickAt(n) < TickAt(since))
    ensures n / WRAP > since / WRAP && TickAt(n) >= TickAt(since) ==> n - since >= WRAP
    ensures n / WRAP > since / WRAP + 1 ==> n - since >= WRAP
  {
  }

  lemma OverflowsDiffer(since: nat, n: nat)
    requires since <= n
    ensures OverflowsAt(n) != OverflowsAt(since) <==> (n / WRAP - since / WRAP) % WRAP != 0
    ensures n / WRAP == since / WRAP + 1 ==> OverflowsAt(n) != OverflowsAt(since)
  {
  }

  /** What one check should answer. */
  predicate CorrectCheck(since: nat, n: nat, wait: Tick) {
    var r := CheckAt(n, SetAt(since), wait);
    && (r.timedOut <==> n - since >= wait)
    && (!r.timedOut ==> r.timeOut == SetAt(n) && n + r.remaining == since + wait)
  }

  /** A check answers correctly exactly when it does not mistake a wait that went more than once
      round the clock for a short one. */
  lemma CheckCorrectIff(since: nat, n: nat, wait: Tick)
    requires since <= n && wait != MAX_DELAY
    ensures CorrectCheck(since, n, wait) <==>
      || n / WRAP - since / WRAP <= 1
      || ((n / WRAP - since / WRAP) % WRAP != 0 && TickAt(n) >= TickAt(since))
      || (n - since) % WRAP >= wait
  {
    Elapsed(since, n);
    EpochsApart(since, n);
    OverflowsDiffer(since, n);
  }

  /** Going twice round the clock can pass for almost no time at all. */
  lemma TwiceRoundTheClock()
    ensures !CheckAt(2 * WRAP + 5, SetAt(10), WRAP - 2).timedOut && 2 * WRAP + 5 - 10 >= WRAP - 2
  {
  }

  // ----- any number of wake-and-retry rounds

  /** The last check made, at the times given in turn; a check is made only while the earlier ones
      did not report a time-out. */
  function CheckAll(t: TimeOut, wait: Tick, times: seq<nat>): CheckResult
    decreases |times|
  {
    if times == [] then CheckResult(false, t, wait)
    else
      var r := CheckAt(times[0], t, wait);
      if r.timedOut then r else CheckAll(r.timeOut, r.remaining, times[1..])
  }

  /** The clock never goes back between checks. */
  predicate Ordered(since: nat, times: seq<nat>)
    decreases |times|
  {
    times == [] || (since <= times[0] && Ordered(times[0], times[1..]))
  }

  /** And it overflows at most once between checks. */
  predicate Prompt(since: nat, times: seq<nat>)
    ensures Prompt(since, times) ==> Ordered(since, times)
    decreases |times|
  {
    times == [] || (since <= times[0] && times[0] / WRAP <= since / WRAP + 1 && Prompt(times[0], times[1..]))
  }

  lemma {:induction false} NeverBefore(since: nat, times: seq<nat>)
    requires Ordered(since, times)
    ensures forall x :: x in times ==> since <= x
    decreases |times|
  {
    if times != [] {
      NeverBefore(times[0], times[1..]);
      assert forall x :: x in times ==> x == times[0] || x in times[1..];
    }
  }

  function Latest(since: nat, times: seq<nat>): nat {
    if times == [] then since else times[|times| - 1]
  }

  /** The budget is conserved: after any rounds, the last reset plus the remaining ticks is the
      original deadline, and a time-out is reported exactly when a check reached it. */
  lemma {:induction false} BudgetConserved(since: nat, wait: Tick, times: seq<nat>)
    requires Prompt(since, times) && wait != MAX_DELAY
    ensures var r := CheckAll(SetAt(since), wait, times);
      && (r.timedOut <==> exists x :: x in times && x >= since + wait)
      && (!r.timedOut ==>
           r.timeOut == SetAt(Latest(since, times)) && Latest(since, times) + r.remaining == since + wait)
    decreases |times|
  {
    if times != [] {
      CheckCorrectIff(since, times[0], wait);
      var r := CheckAt(times[0], SetAt(since), wait);
      assert times[0] in times && forall x :: x in times <==> x == times[0] || x in times[1..];
      if !r.timedOut { BudgetConserved(times[0], r.remaining, times[1..]); }
    }
  }

  lemma CheckNeverEarly(since: nat, n: nat, wait: Tick)
    requires since <= n && wait != MAX_DELAY
    ensures var r := CheckAt(n, SetAt(since), wait);
      if r.timedOut then n >= since + wait
      else r.timeOut == SetAt(n) && n + r.remaining >= since + wait && r.remaining <= wait
  {
    Elapsed(since, n);
    EpochsApart(since, n);
    OverflowsDiffer(since, n);
  }

  /** However often the clock overflows between checks, a time-out is never reported early. */
  lemma {:induction false} NeverTimesOutEarly(since: nat, wait: Tick, times: seq<nat>)
    requires Ordered(since, times) && wait != MAX_DELAY
    requires CheckAll(SetAt(since), wait, times).timedOut
    ensures exists x :: x in times && x >= since + wait
    decreases |times|
  {
    CheckNeverEarly(since, times[0], wait);
    var r := CheckAt(times[0], SetAt(since), wait);
    assert times[0] in times;
    if !r.timedOut {
      NeverTimesOutEarly(times[0], r.remaining, times[1..]);
      var x :| x in times[1..] && x >= times[0] + r.remaining;
      assert x in times;
    }
  }

  /** portMAX_DELAY waits for ever. */
  lemma {:induction false} MaxDelayNeverTimesOut(t: TimeOut, times: seq<nat>)
    ensures !CheckAll(t, MAX_DELAY, times).timedOut && CheckAll(t, MAX_DELAY, times).remaining == MAX_DELAY
    decreases |times|
  {
    if times != [] { MaxDelayNeverTimesOut(t, times[1..]); }
  }

  /** A call that began to wait at since and, after any rounds, blocks again, sleeps until its
      original deadline: the time-out state and the delayed lists agree. */
  lemma BlocksUntilTheDeadline(k: Kernel, since: nat, wait: Tick, times: seq<nat>, id: nat)
    requires Structure(k) && ClockExact(k) && MayBlock(k)
    requires Prompt(since, times) && times != [] && times[|times| - 1] == Now(k) && wait != MAX_DELAY
    requires !CheckAll(SetAt(since), wait, times).timedOut
    ensures var k' := PlaceOnEventList(k, id, CheckAll(SetAt(since), wait, times).remaining);
      ClockExact(k') && Abstract(k') == Clocked(Now(k), Abstract(k).status[k.running := Sleeping(since + wait)])
  {
    hide *;
    var remaining := CheckAll(SetAt(since), wait, times).remaining;
    BudgetLeft(since, wait, times);
    WakesThen(k, remaining);
    PlaceOnEventListRefines(k, id, remaining);
  }

  lemma BudgetLeft(since: nat, wait: Tick, times: seq<nat>)
    requires Prompt(since, times) && wait != MAX_DELAY && times != []
    requires !CheckAll(SetAt(since), wait, times).timedOut
    ensures var remaining := CheckAll(SetAt(since), wait, times).remaining;
      0 < remaining < MAX_DELAY && times[|times| - 1] + remaining == since + wait
  {
    BudgetConserved(since, wait, times);
    assert times[|times| - 1] in times;
    NeverBefore(since, times);
  }

  lemma WakesThen(k: Kernel, ticks: Tick)
    requires 0 < ticks < MAX_DELAY
    ensures DelayStatus(k, ticks, true) == Sleeping(Now(k) + ticks) && DelayAllowed(k, ticks)
  {
  }
}
