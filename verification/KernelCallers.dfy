/** The calls that delay the running task, and the block times they ask for. */
module KernelCallers {
  import opened Options
  import opened Ticks
  import opened KernelSpec
  import opened KernelClock
  import opened KernelInvariant
  import opened KernelRuns
  import opened KernelEvents
  import BlockTime
  import T = TimerSpec

  /** A queue or event call is described by what it finds when it comes to block. */
  datatype Call =
    | TaskDelay(ticks: Tick)
    | DelayUntil(previous: Tick, increment: Tick)
    | QueueWait(timeOut: BlockTime.TimeOut, wait: Tick)
    | BitsWait(met: bool, wait: Tick)
    | NotifyWait(notified: bool, wait: Tick)
    | TimerWait(timers: T.Service)

  /** vTaskDelayUntil: whether to delay, by comparisons of wrapped times. */
  predicate ShouldDelay(previous: Tick, increment: Tick, tick: Tick) {
    var timeToWake := Wrapped(previous + increment);
    if tick < previous then timeToWake < previous && timeToWake > tick
    else timeToWake < previous || timeToWake > tick
  }

  /** The ticks the call blocks for at these values of the two kernel counters, if it blocks. */
  function TicksToWait(c: Call, overflows: Tick, tick: Tick): Option<Tick> {
    match c
    case TaskDelay(ticks) => if ticks > 0 then Some(ticks) else None
    case DelayUntil(previous, increment) =>
      if ShouldDelay(previous, increment, tick) then Some(Wrapped(previous + increment - tick)) else None
    case QueueWait(timeOut, wait) =>
      if wait == 0 then None
      else
        var r := BlockTime.Check(overflows, tick, timeOut, wait);
        if r.timedOut then None else Some(r.remaining)
    case BitsWait(met, wait) => if met || wait == 0 then None else Some(wait)
    case NotifyWait(notified, wait) => if notified || wait == 0 then None else Some(wait)
    case TimerWait(s) => T.ProcessOrBlock(s, tick).1
  }

  /** No caller ever asks for zero ticks at the maximal tick, which the delayed lists would not
      survive. */
  lemma CallersAllowed(c: Call, k: Kernel)
    requires TicksToWait(c, Wrapped(k.overflows), k.tick).Some?
    ensures DelayAllowed(k, TicksToWait(c, Wrapped(k.overflows), k.tick).value)
  {
  }

  /** The previous wake-up is not ahead of the clock, and is less than a wrap ago or the wrapped
      times happen to say the same. */
  predicate WrapIsHarmless(previous: nat, increment: Tick, now: nat) {
    previous <= now && (now - previous < WRAP || (now - previous) % WRAP >= increment)
  }

  /** Until when vTaskDelayUntil should delay, on the unbounded clock, and for how long from now. */
  function TrueDelay(previous: nat, increment: Tick, now: nat): Option<int> {
    if previous + increment > now then Some(previous + increment - now) else None
  }

  /** vTaskDelayUntil on the unbounded clock: it delays exactly until previous + increment, and
      not at all if that time has come, if and only if the previous wake-up is not ahead of the
      clock and the wrap since then does no harm. */
  lemma DelayUntilExactIff(previous: nat, increment: Tick, now: nat, overflows: Tick)
    requires increment > 0
    ensures TicksToWait(DelayUntil(previous % WRAP, increment), overflows, now % WRAP)
        == TrueDelay(previous, increment, now)
      <==> WrapIsHarmless(previous, increment, now)
  {
    if previous <= now {
      WrappedParts(previous, now);
      LateBy(previous % WRAP, increment, now % WRAP, (now - previous) % WRAP);
      hide ShouldDelay;
      WholeWraps(previous, now);
    } else {
      AheadIsNeverRight(previous, increment, now, overflows);
    }
  }

  /** A previous wake-up ahead of the clock is taken for one in the last wrap. */
  lemma AheadIsNeverRight(previous: nat, increment: Tick, now: nat, overflows: Tick)
    requires now < previous && increment > 0
    ensures TicksToWait(DelayUntil(previous % WRAP, increment), overflows, now % WRAP) !=
      TrueDelay(previous, increment, now)
  {
    var a, b := previous % WRAP, now % WRAP;
    var r := if a <= b then b - a else b - a + WRAP;
    WrappedParts(now, previous);
    LateBy(a, increment, b, r);
    hide ShouldDelay;
    WholeWraps(now, previous);
  }

  /** Ten ticks from a wake-up at 15 that is still to come: at tick 10 the answer is not to delay,
      although 25 has not come. */
  lemma AheadOfTheClock(overflows: Tick)
    ensures TicksToWait(DelayUntil(15, 10), overflows, 10) == None && TrueDelay(15, 10, 10) == Some(15)
  {
  }

  /** The steps that bring a delayed task back before its time. */
  function CutShort(t: TaskId, d: Tick): seq<Step> {
    [Delay(d), ContextSwitch, SuspendStep(t), ResumeStep(t)]
  }

  lemma OneMore(k: Kernel, step: Step, k1: Kernel, rest: seq<Step>, r: Kernel)
    requires Enabled(k, step) && Apply(k, step) == k1 && Runs(k1, rest) && After(k1, rest) == r
    ensures Runs(k, [step] + rest) && After(k, [step] + rest) == r
  {
    hide Enabled, Apply;
    assert ([step] + rest)[1..] == rest;
  }

  lemma FourSteps(k: Kernel, a: Step, k1: Kernel, b: Step, k2: Kernel, c: Step, k3: Kernel, e: Step, k4: Kernel)
    requires Enabled(k, a) && Apply(k, a) == k1 && Enabled(k1, b) && Apply(k1, b) == k2
    requires Enabled(k2, c) && Apply(k2, c) == k3 && Enabled(k3, e) && Apply(k3, e) == k4
    ensures Runs(k, [a, b, c, e]) && After(k, [a, b, c, e]) == k4
  {
    hide Enabled, Apply;
    assert Runs(k4, []) && After(k4, []) == k4;
    hide Runs, After;
    OneMore(k3, e, k4, [], k4);
    OneMore(k2, c, k3, [e] + [], k4);
    OneMore(k1, b, k2, [c] + ([e] + []), k4);
    OneMore(k, a, k1, [b] + ([c] + ([e] + [])), k4);
    assert [a] + ([b] + ([c] + ([e] + []))) == [a, b, c, e];
  }

  lemma DelayLeaves(k: Kernel, d: Tick)
    requires Enabled(k, Delay(d))
    ensures var k' := DelayCurrent(k, d, false);
      k.running != k.idle && k'.idle == k.idle && k'.schedulerSuspended == k.schedulerSuspended
  {
    DelayCurrentFrame(k, d, false);
    DelayCurrentFrame(LeaveReady(k), d, false);
    hide FileDelayed, LeaveReady;
  }

  /** A task that sleeps is not the one chosen to run. */
  lemma SwitchedAway(k: Kernel, t: TaskId, u: nat)
    requires Invariant(k) && Sleeps(k, t, u) && k.schedulerSuspended == 0
    ensures SwitchContext(k).running != t && SwitchContext(k).tasks == k.tasks
    ensures SwitchContext(k).schedulerSuspended == 0 && SwitchContext(k).idle == k.idle
    ensures k.tasks[t].state != Termination
  {
    SleeperIsDelayed(k, t, u);
    SwitchContextSelectsHighest(k);
    SwitchContextFrame(k, k.delayed);
    hide SwitchContext, Invariant;
  }

  /** Suspended by another and resumed: at the same time, awake. */
  lemma SuspendedAndResumed(k: Kernel, t: TaskId)
    requires Invariant(k) && t in k.tasks && t != k.running && t != k.idle && k.tasks[t].state != Termination
    ensures Enabled(k, SuspendStep(t)) && Invariant(Apply(k, SuspendStep(t)))
    ensures var k1 := Apply(k, SuspendStep(t));
      && Enabled(k1, ResumeStep(t)) && Awake(Apply(k1, ResumeStep(t)), t) && Now(Apply(k1, ResumeStep(t))) == Now(k)
  {
    hide Structure, PendingDrained, ClockExact, SuspendTask, ResumeTask, Now;
    StepKeepsInvariant(k, SuspendStep(t));
    SuspendThenResume(k, t);
    SuspendedTask(k, t);
    SameTime(k, SuspendStep(t));
    SameTime(Apply(k, SuspendStep(t)), ResumeStep(t));
  }

  lemma SameTime(k: Kernel, step: Step)
    requires Invariant(k) && Enabled(k, step) && !step.TickInterrupt? && !step.ResumeAllStep?
    ensures Now(Apply(k, step)) == Now(k)
  {
    hide *;
    if Now(Apply(k, step)) != Now(k) { ClockMoves(k, step); }
  }

  lemma DelayedAndSwitched(k: Kernel, d: Tick)
    requires Invariant(k) && Enabled(k, Delay(d)) && k.schedulerSuspended == 0
    ensures var k1 := Apply(k, Delay(d));
      && Enabled(k1, ContextSwitch)
      && var k2 := Apply(k1, ContextSwitch);
        && Invariant(k2) && Now(k2) == Now(k) && k.running in k2.tasks
        && k.running != k2.running && k.running != k2.idle && k2.tasks[k.running].state != Termination
  {
    hide Structure, PendingDrained, ClockExact, DelayCurrent, SwitchContext, Now;
    var k1 := Apply(k, Delay(d));
    DelaySleeps(k, d);
    DelayLeaves(k, d);
    StepKeepsInvariant(k, Delay(d));
    SwitchedAway(k1, k.running, Now(k) + d);
    StepKeepsInvariant(k1, ContextSwitch);
    SameTime(k, Delay(d));
    SameTime(k1, ContextSwitch);
  }

  /** And such a call can come about: a task that delays itself for d ticks, is suspended by
      another and resumed at once, is ready although the time it waited for is d ticks ahead. */
  lemma ResumedBeforeItsTime(k: Kernel, d: Tick)
    requires Invariant(k) && Enabled(k, Delay(d)) && d > 0 && k.schedulerSuspended == 0
    ensures Runs(k, CutShort(k.running, d))
    ensures var r := After(k, CutShort(k.running, d)); Awake(r, k.running) && Now(r) == Now(k) < Now(k) + d
  {
    hide Invariant, Enabled, Apply, Runs, After, Awake, Now;
    var t, k1 := k.running, Apply(k, Delay(d));
    DelayedAndSwitched(k, d);
    var k2 := Apply(k1, ContextSwitch);
    SuspendedAndResumed(k2, t);
    var k3 := Apply(k2, SuspendStep(t));
    FourSteps(k, Delay(d), k1, ContextSwitch, k2, SuspendStep(t), k3, ResumeStep(t), Apply(k3, ResumeStep(t)));
  }

  lemma WrappedParts(previous: nat, now: nat)
    requires previous <= now
    ensures var a, b, r := previous % WRAP, now % WRAP, (now - previous) % WRAP;
      r == if a <= b then b - a else b - a + WRAP
  {
    BlockTime.Elapsed(previous, now);
  }

  lemma WholeWraps(previous: nat, now: nat)
    requires previous <= now
    ensures (now - previous) % WRAP <= now - previous
    ensures now - previous < WRAP <==> (now - previous) % WRAP == now - previous
    ensures now - previous >= WRAP ==> now - previous >= (now - previous) % WRAP + WRAP
  {
  }

  /** On the wrapped times alone: r ticks after the previous wake-up. */
  lemma LateBy(a: Tick, increment: Tick, b: Tick, r: Tick)
    requires r == if a <= b then b - a else b - a + WRAP
    ensures ShouldDelay(a, increment, b) <==> increment > r
    ensures increment > r ==> Wrapped(a + increment - b) == increment - r
  {
    var sum := a + increment;
    assert Wrapped(sum) == if sum < WRAP then sum else sum - WRAP;
    assert a + increment - b == increment - r + if a <= b then 0 else WRAP;
  }

  lemma DelayingTaskMayBlock(c: Call, k: Kernel)
    requires c.TaskDelay? || c.DelayUntil?
    requires CanBlock(k) && TicksToWait(c, Wrapped(k.overflows), k.tick).Some?
    ensures Enabled(k, Delay(TicksToWait(c, Wrapped(k.overflows), k.tick).value))
  {
    CallersAllowed(c, k);
  }

  // ----- until when the caller sleeps

  /** The ticks a call asks for in this state of the kernel. */
  function Asks(c: Call, k: Kernel): Option<Tick> {
    TicksToWait(c, Wrapped(k.overflows), k.tick)
  }

  /** vTaskDelay sleeps exactly the ticks asked for, and does not block for none. */
  lemma TaskDelaySleeps(k: Kernel, ticks: Tick)
    requires Invariant(k) && CanBlock(k)
    ensures Asks(TaskDelay(ticks), k).None? <==> ticks == 0
    ensures ticks > 0 ==>
      && Enabled(k, Delay(Asks(TaskDelay(ticks), k).value))
      && Sleeps(Apply(k, Delay(Asks(TaskDelay(ticks), k).value)), k.running, Now(k) + ticks)
  {
    if ticks > 0 {
      DelayingTaskMayBlock(TaskDelay(ticks), k);
      hide Invariant, DelayCurrent, Sleeps, CanBlock;
      DelaySleeps(k, ticks);
    }
  }

  /** vTaskDelayUntil sleeps exactly until the previous wake-up plus the increment, and does not block
      if that time has come. */
  lemma DelayUntilSleeps(k: Kernel, previous: nat, increment: Tick)
    requires Invariant(k) && CanBlock(k) && increment > 0 && WrapIsHarmless(previous, increment, Now(k))
    ensures var c := DelayUntil(previous % WRAP, increment);
      && (Asks(c, k).None? <==> previous + increment <= Now(k))
      && (previous + increment > Now(k) ==>
           Enabled(k, Delay(Asks(c, k).value)) &&
             Sleeps(Apply(k, Delay(Asks(c, k).value)), k.running, previous + increment))
  {
    var c := DelayUntil(previous % WRAP, increment);
    BlockTime.KernelCounters(k);
    DelayUntilExactIff(previous, increment, Now(k), Wrapped(k.overflows));
    hide Invariant, DelayCurrent, Sleeps, CanBlock, WrapIsHarmless, ShouldDelay;
    if previous + increment > Now(k) {
      DelayingTaskMayBlock(c, k);
      DelaySleeps(k, Asks(c, k).value);
    }
  }

  /** A queue call that waits since the tick since sleeps exactly until since + wait, and gives up if
      that time has come. */
  lemma QueueWaitSleeps(k: Kernel, since: nat, wait: Tick, id: nat)
    requires Invariant(k) && CanBlock(k) && 0 < wait < MAX_DELAY && BlockTime.Prompt(since, [Now(k)])
    ensures var c := QueueWait(BlockTime.SetAt(since), wait);
      && (Asks(c, k).None? <==> Now(k) >= since + wait)
      && (Now(k) < since + wait ==>
           Abstract(PlaceOnEventList(k, id, Asks(c, k).value)) ==
             Clocked(Now(k), Abstract(k).status[k.running := Sleeping(since + wait)]))
  {
    hide Abstract, PlaceOnEventList, BlockTime.Check, Structure, ClockExact, PendingDrained;
    BlockTime.KernelCounters(k);
    BlockTime.CheckCorrectIff(since, Now(k), wait);
    if Now(k) < since + wait {
      var d := Asks(QueueWait(BlockTime.SetAt(since), wait), k).value;
      BlockTime.WakesThen(k, d);
      PlaceOnEventListRefines(k, id, d);
    }
  }

  /** A wait for event bits, or for a notification, that does not find what it waits for sleeps exactly
      its block time, without end for portMAX_DELAY; it does not block otherwise, or for no time. */
  lemma BitsWaitSleeps(k: Kernel, met: bool, wait: Tick, id: nat, value: Tick)
    requires Invariant(k) && CanBlock(k)
    ensures Asks(BitsWait(met, wait), k) == Asks(NotifyWait(met, wait), k)
    ensures Asks(BitsWait(met, wait), k).None? <==> met || wait == 0
    ensures !met && wait > 0 ==>
      var d := Asks(BitsWait(met, wait), k).value;
      var until := if wait == MAX_DELAY then Parked else Sleeping(Now(k) + wait);
      && Abstract(PlaceOnUnorderedEventList(k, id, value, d)) ==
           Clocked(Now(k), Abstract(k).status[k.running := until])
      && Abstract(DelayCurrent(k, d, true)) == Clocked(Now(k), Abstract(k).status[k.running := until])
  {
    hide Abstract, PlaceOnUnorderedEventList, DelayCurrent, Structure, ClockExact, PendingDrained, BlockingPoint;
    if !met && wait > 0 {
      PlaceUnorderedRefines(k, id, value, wait);
      MayBlockIsBlockingPoint(k);
      DelayCurrentRefines(k, wait, true);
    }
  }
}
