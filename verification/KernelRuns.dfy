/** Whole runs of the scheduler: every operation of tasks.c is a step, and tick interrupts come at any time.

    First the invariant and the clock are carried through every step; then a task is followed that
    delays itself, until it wakes; last, what keeps a ready task ready. */
module KernelRuns {
  import opened Ticks
  import opened ReadyBits
  import opened ListSpec
  import opened KernelSpec
  import opened KernelInvariant
  import opened KernelClock

  /** One critical section of the kernel, or one call made with the scheduler suspended. */
  datatype Step =
    | TickInterrupt
    | SuspendAll
    | ResumeAllStep
    | Delay(ticks: Tick)
    | WaitForEvent(id: nat, ticks: Tick)
    | WaitForBits(id: nat, value: Tick, ticks: Tick)
    | WaitRestricted(id: nat, ticks: Tick, indefinitely: bool)
    | Event(id: nat)
    | BitsSet(t: TaskId, value: Tick)
    | SuspendStep(t: TaskId)
    | ResetUnblockTime
    | ResumeStep(t: TaskId)
    | ResumeFromISR(t: TaskId)
    | Create(t: TaskId, p: Priority)
    | Delete(t: TaskId)
    | PrioritySet(t: TaskId, p: Priority)
    | Inherit(holder: TaskId)
    | TakeMutex
    | GiveMutex
    | ResetEventValue
    | ContextSwitch

  /** What the callers guarantee: only an executing task blocks, the idle task never does, a
      task suspends or deletes itself only while the scheduler runs. */
  predicate Enabled(k: Kernel, step: Step) {
    match step
    case ResumeAllStep => k.schedulerSuspended > 0
    case Delay(ticks) => CanBlock(k) && DelayAllowed(k, ticks)
    case WaitForEvent(_, ticks) => CanBlock(k) && DelayAllowed(k, ticks)
    case WaitForBits(_, _, ticks) => CanBlock(k) && DelayAllowed(k, ticks)
    case WaitRestricted(_, ticks, _) => CanBlock(k) && DelayAllowed(k, ticks)
    case Event(id) => EventItems(k, OnEvent(id)) != []
    case BitsSet(t, _) => t in k.tasks && k.tasks[t].event.OnEvent? && k.schedulerSuspended > 0
    case SuspendStep(t) => CanRemove(k, t)
    case Delete(t) => CanRemove(k, t)
    case ResumeStep(t) => t in k.tasks
    case ResumeFromISR(t) => t in k.tasks
    case Create(t, _) => t !in k.tasks
    case PrioritySet(t, _) => t in k.tasks
    case Inherit(holder) => holder in k.tasks
    case GiveMutex => TaskOf(k, k.running).mutexesHeld > 0
    case _ => true
  }

  predicate CanBlock(k: Kernel) {
    && k.running in k.tasks && k.running != k.idle
    && k.tasks[k.running].state.Ready? && k.tasks[k.running].event == Nowhere
  }

  predicate CanRemove(k: Kernel, t: TaskId) {
    && t in k.tasks && t != k.idle && k.tasks[t].state != Termination
    && (t == k.running ==> k.schedulerSuspended == 0)
  }

  function Apply(k: Kernel, step: Step): Kernel
    requires Enabled(k, step)
  {
    match step
    case TickInterrupt => IncrementTick(k).0
    case SuspendAll => k.(schedulerSuspended := k.schedulerSuspended + 1)
    case ResumeAllStep => ResumeAll(k)
    case Delay(ticks) => DelayCurrent(k, ticks, false)
    case WaitForEvent(id, ticks) => PlaceOnEventList(k, id, ticks)
    case WaitForBits(id, value, ticks) => PlaceOnUnorderedEventList(k, id, value, ticks)
    case WaitRestricted(id, ticks, indefinitely) => PlaceRestricted(k, id, ticks, indefinitely)
    case Event(id) => RemoveFromEventList(k, id)
    case BitsSet(t, value) => RemoveFromUnorderedEventList(k, t, value)
    case SuspendStep(t) => SuspendTask(k, t)
    case ResetUnblockTime => ResetNextUnblock(k)
    case ResumeStep(t) => ResumeTask(k, t)
    case ResumeFromISR(t) => ResumeTaskFromISR(k, t)
    case Create(t, p) => CreateTask(k, t, p)
    case Delete(t) => DeleteTask(k, t)
    case PrioritySet(t, p) => SetPriority(k, t, p)
    case Inherit(holder) => InheritPriority(k, holder)
    case TakeMutex => IncrementMutexHeld(k)
    case GiveMutex => DisinheritPriority(k)
    case ResetEventValue => ResetEventItemValue(k)
    case ContextSwitch => SwitchContext(k)
  }

  ghost predicate Runs(k: Kernel, steps: seq<Step>)
    decreases |steps|
  {
    steps == [] || (Enabled(k, steps[0]) && Runs(Apply(k, steps[0]), steps[1..]))
  }

  function After(k: Kernel, steps: seq<Step>): Kernel
    requires Runs(k, steps)
    decreases |steps|
  {
    if steps == [] then k else After(Apply(k, steps[0]), steps[1..])
  }

  /** The kernel as vTaskStartScheduler leaves it with only the idle task created. */
  function InitialKernel(idle: TaskId): Kernel {
    Kernel(map[idle := Tcb(0, 0, 0, Ready(0), 0, Nowhere, MAX_PRIORITIES)],
           map[Ready(0) := List([idle], 0)], map[],
           Delayed1, Delayed2, seq(WORD, i => i == 0), 0, 0, MAX_DELAY, 0, 0, false, idle, idle)
  }

  ghost predicate Invariant(k: Kernel) {
    Structure(k) && PendingDrained(k) && ClockExact(k)
  }

  lemma InitialInvariant(idle: TaskId)
    ensures Invariant(InitialKernel(idle))
  {
    var k := InitialKernel(idle);
    assert forall n :: StateItems(k, n) == if n == Ready(0) then List([idle], 0) else List([], 0);
    assert forall e :: EventItems(k, e) == [];
  }

  lemma BlockingSteps(k: Kernel, step: Step)
    requires Invariant(k) && Enabled(k, step)
    requires step.Delay? || step.WaitForEvent? || step.WaitForBits? || step.WaitRestricted?
    ensures Invariant(Apply(k, step))
  {
    hide Structure, PendingDrained, ClockExact, DelayCurrent, PlaceOnEventList, PlaceOnUnorderedEventList,
      PlaceRestricted, Abstract, BlockingPoint, DelayAllowed, DelayStatus;
    assert MayBlock(k);
    match step
    case Delay(ticks) =>
      DelayKeeps(k, ticks);
      MayBlockIsBlockingPoint(k);
      DelayCurrentRefines(k, ticks, false);
    case WaitForEvent(id, ticks) =>
      PlaceOnEventListKeeps(k, id, ticks);
      PlaceOnEventListRefines(k, id, ticks);
    case WaitForBits(id, value, ticks) =>
      PlaceOnUnorderedKeeps(k, id, value, ticks);
      PlaceUnorderedRefines(k, id, value, ticks);
    case WaitRestricted(id, ticks, indefinitely) =>
      PlaceRestrictedKeeps(k, id, ticks, indefinitely);
      PlaceRestrictedRefines(k, id, ticks, indefinitely);
  }

  lemma MayBlockIsBlockingPoint(k: Kernel)
    requires Structure(k) && ClockExact(k) && MayBlock(k)
    ensures BlockingPoint(k)
  {
  }

  lemma PendingUntouched(k: Kernel, k': Kernel)
    requires PendingDrained(k) && k'.schedulerSuspended == k.schedulerSuspended && k'.pendedTicks == k.pendedTicks
    requires k'.events == k.events
    ensures PendingDrained(k')
  {
  }

  lemma SchedulerSteps(k: Kernel, step: Step)
    requires Invariant(k) && Enabled(k, step)
    requires step.TickInterrupt? || step.SuspendAll? || step.ResumeAllStep? || step.ResetUnblockTime? ||
      step.ContextSwitch?
    ensures Invariant(Apply(k, step))
  {
    hide Structure, ClockExact, ResumeAll, ProcessTick, SwitchContext, Abstract, SpecTicks, Undisturbed;
    match step
    case TickInterrupt =>
      IncrementTickKeeps(k);
      if k.schedulerSuspended == 0 { ProcessTickRefines(k); }
      else { ClockIgnoresFlags(k, k.(pendedTicks := k.pendedTicks + 1)); }
    case SuspendAll =>
      FlagsIrrelevant(k, k.(schedulerSuspended := k.schedulerSuspended + 1));
      ClockIgnoresFlags(k, k.(schedulerSuspended := k.schedulerSuspended + 1));
    case ResumeAllStep =>
      ResumeAllKeeps(k);
      ResumeAllRefines(k);
    case ResetUnblockTime =>
      ResetUnblockClock(k);
      PendingUntouched(k, ResetNextUnblock(k));
    case ContextSwitch =>
      SwitchContextKeeps(k);
      SwitchContextClock(k);
  }

  /** The tasks a step may move other than by the clock. */
  function Touched(k: Kernel, step: Step): set<TaskId>
    requires Enabled(k, step)
  {
    match step
    case Event(id) => {EventItems(k, OnEvent(id))[0]}
    case BitsSet(t, _) => {t}
    case SuspendStep(t) => {t}
    case ResumeStep(t) => {t}
    case ResumeFromISR(t) => {t}
    case Create(t, _) => {t}
    case Delete(t) => {t}
    case PrioritySet(t, _) => {t}
    case Inherit(holder) => {holder}
    case _ => {k.running}
  }

  predicate IsBlockingStep(step: Step) {
    step.Delay? || step.WaitForEvent? || step.WaitForBits? || step.WaitRestricted?
  }

  predicate IsTaskStep(step: Step) {
    || step.Event? || step.BitsSet? || step.SuspendStep? || step.ResumeStep? || step.ResumeFromISR? || step.Create?
    || step.Delete? || step.PrioritySet? || step.Inherit? || step.TakeMutex? || step.GiveMutex?
    || step.ResetEventValue?
  }

  /** What the per-operation lemmas conclude. */
  ghost predicate Kept(k: Kernel, k': Kernel, touched: set<TaskId>) {
    Structure(k') && PendingDrained(k') && ClockExact(k') && Undisturbed(k, k', touched)
  }

  lemma SetPriorityKept(k: Kernel, t: TaskId, p: Priority)
    requires Invariant(k) && t in k.tasks
    ensures Kept(k, SetPriority(k, t, p), {t})
  {
    hide Structure, PendingDrained, ClockExact, Undisturbed, SetPriority, InheritPriority, IncrementMutexHeld;
    NamesOf(k);
    SetPriorityKeeps(k, t, p);
    PrioritiesClock(k, t, p);
  }

  lemma InheritPriorityKept(k: Kernel, t: TaskId)
    requires Invariant(k) && t in k.tasks
    ensures Kept(k, InheritPriority(k, t), {t})
  {
    hide Structure, PendingDrained, ClockExact, Undisturbed, SetPriority, InheritPriority, IncrementMutexHeld;
    NamesOf(k);
    InheritPriorityKeeps(k, t);
    PrioritiesClock(k, t, 0);
  }

  lemma MutexCountsKept(k: Kernel)
    requires Invariant(k)
    ensures Kept(k, IncrementMutexHeld(k), {k.running}) && Kept(k, DisinheritPriority(k), {k.running})
  {
    hide Structure, PendingDrained, ClockExact, Undisturbed, SetPriority, InheritPriority, DisinheritPriority,
      IncrementMutexHeld;
    NamesOf(k);
    IncrementMutexHeldKeeps(k);
    PrioritiesClock(k, k.running, 0);
    DisinheritPriorityKeeps(k);
    DisinheritClock(k);
  }

  lemma EventValueKept(k: Kernel)
    requires Invariant(k)
    ensures Kept(k, ResetEventItemValue(k), {k.running})
  {
    hide Structure, PendingDrained, ClockExact, Undisturbed;
    NamesOf(k);
    var task := TaskOf(k, k.running).(eventValue := MAX_PRIORITIES - TaskOf(k, k.running).priority);
    BookkeepingIrrelevant(k, k.running, task);
    BookkeepingClock(k, k.running, task);
    PendingUntouched(k, ResetEventItemValue(k));
  }

  lemma ResumeTaskKept(k: Kernel, t: TaskId)
    requires Invariant(k) && t in k.tasks
    ensures Kept(k, ResumeTask(k, t), {t}) && Kept(k, ResumeTaskFromISR(k, t), {t})
  {
    hide Structure, PendingDrained, ClockExact, Undisturbed, ResumeTask, ResumeTaskFromISR;
    NamesOf(k);
    ResumeTaskKeeps(k, t);
    ResumeTaskClock(k, t);
  }

  lemma RemoveTaskKept(k: Kernel, t: TaskId)
    requires Invariant(k) && t in k.tasks && t != k.idle
    ensures Kept(k, SuspendTask(k, t), {t}) && Kept(k, DeleteTask(k, t), {t})
  {
    hide Structure, PendingDrained, ClockExact, Undisturbed, SuspendTask, DeleteTask;
    NamesOf(k);
    SuspendTaskKeeps(k, t);
    SuspendTaskClock(k, t);
    DeleteTaskKeeps(k, t);
    DeleteTaskClock(k, t);
  }

  lemma CreateTaskKept(k: Kernel, t: TaskId, p: Priority)
    requires Invariant(k) && t !in k.tasks
    ensures Kept(k, CreateTask(k, t, p), {t})
  {
    hide Structure, PendingDrained, ClockExact, Undisturbed, CreateTask;
    CreateTaskKeeps(k, t, p);
    CreateTaskClock(k, t, p);
  }

  lemma EventKept(k: Kernel, id: nat)
    requires Invariant(k) && EventItems(k, OnEvent(id)) != []
    ensures Kept(k, RemoveFromEventList(k, id), {EventItems(k, OnEvent(id))[0]})
  {
    hide Structure, PendingDrained, ClockExact, Undisturbed, RemoveFromEventList;
    RemoveFromEventListKeeps(k, id);
    EventClock(k, id);
  }

  lemma BitsKept(k: Kernel, t: TaskId, value: Tick)
    requires Invariant(k) && t in k.tasks
    ensures Kept(k, RemoveFromUnorderedEventList(k, t, value), {t})
  {
    hide Structure, PendingDrained, ClockExact, Undisturbed, RemoveFromUnorderedEventList;
    NamesOf(k);
    RemoveFromUnorderedKeeps(k, t, value);
    UnorderedEventClock(k, t, value);
  }

  lemma TaskSteps(k: Kernel, step: Step)
    requires Invariant(k) && Enabled(k, step) && IsTaskStep(step)
    ensures Kept(k, Apply(k, step), Touched(k, step))
  {
    hide Invariant, Kept, SuspendTask, DeleteTask, ResumeTask, ResumeTaskFromISR, CreateTask, SetPriority,
      InheritPriority, DisinheritPriority, IncrementMutexHeld, RemoveFromEventList, RemoveFromUnorderedEventList,
      ResetEventItemValue;
    match step
    case Event(id) => EventKept(k, id);
    case BitsSet(t, value) => BitsKept(k, t, value);
    case SuspendStep(t) => RemoveTaskKept(k, t);
    case ResumeStep(t) => ResumeTaskKept(k, t);
    case ResumeFromISR(t) => ResumeTaskKept(k, t);
    case Create(t, p) => CreateTaskKept(k, t, p);
    case Delete(t) => RemoveTaskKept(k, t);
    case PrioritySet(t, p) => SetPriorityKept(k, t, p);
    case Inherit(holder) => InheritPriorityKept(k, holder);
    case TakeMutex => MutexCountsKept(k);
    case GiveMutex => MutexCountsKept(k);
    case ResetEventValue => EventValueKept(k);
  }

  lemma KeptGives(k: Kernel, k': Kernel, touched: set<TaskId>)
    requires Kept(k, k', touched)
    ensures Invariant(k') && Undisturbed(k, k', touched)
  {
  }

  lemma StepKeepsInvariant(k: Kernel, step: Step)
    requires Invariant(k) && Enabled(k, step)
    ensures Invariant(Apply(k, step))
  {
    hide Invariant, Apply, Kept, Touched;
    if IsBlockingStep(step) { BlockingSteps(k, step); }
    else if IsTaskStep(step) { TaskSteps(k, step); KeptGives(k, Apply(k, step), Touched(k, step)); }
    else { SchedulerSteps(k, step); }
  }

  lemma {:induction false} RunKeepsInvariant(k: Kernel, steps: seq<Step>)
    requires Invariant(k) && Runs(k, steps)
    ensures Invariant(After(k, steps))
    decreases |steps|
  {
    hide Invariant, Apply;
    if steps != [] {
      StepKeepsInvariant(k, steps[0]);
      RunKeepsInvariant(Apply(k, steps[0]), steps[1..]);
    }
  }

  // ----- the main results

  lemma StructureMeans(k: Kernel)
    requires Invariant(k)
    ensures forall n, t :: t in StateItems(k, n).items <==> t in k.tasks && k.tasks[t].state == n
    ensures forall n :: Distinct(StateItems(k, n).items)
    ensures forall t :: t in k.tasks && k.tasks[t].state.Ready? ==> k.tasks[t].state.priority == k.tasks[t].priority
    ensures k.schedulerSuspended == 0 ==> EventItems(k, Pending) == [] && k.pendedTicks == 0
    ensures forall p :: 0 <= p < WORD ==> (k.topReady[p] <==> p < MAX_PRIORITIES && StateItems(k, Ready(p)).items != [])
  {
    hide StateItems, EventItems, ClockExact, EventsExact, Distinct;
  }

  /** Over every run: each task's state item is on exactly the list its container names, once;
      the pending-ready list is empty and no tick is pended unless the scheduler is suspended;
      bit p of the ready bitmap is set exactly when the ready list of priority p is not empty. */
  lemma StructureAlways(idle: TaskId, steps: seq<Step>)
    requires Runs(InitialKernel(idle), steps)
    ensures var k := After(InitialKernel(idle), steps);
      && (forall n, t :: t in StateItems(k, n).items <==> t in k.tasks && k.tasks[t].state == n)
      && (forall n :: Distinct(StateItems(k, n).items))
      && (forall t :: t in k.tasks && k.tasks[t].state.Ready? ==> k.tasks[t].state.priority == k.tasks[t].priority)
      && (k.schedulerSuspended == 0 ==> EventItems(k, Pending) == [] && k.pendedTicks == 0)
      && (forall p :: 0 <= p < WORD ==> (k.topReady[p] <==> p < MAX_PRIORITIES && StateItems(k, Ready(p)).items != []))
  {
    hide *;
    InitialInvariant(idle);
    RunKeepsInvariant(InitialKernel(idle), steps);
    StructureMeans(After(InitialKernel(idle), steps));
  }

  /** Over every run: a context switch always selects a ready task of maximal priority, the
      next in turn on its ready list. */
  lemma SwitchAlwaysSelectsHighest(idle: TaskId, steps: seq<Step>)
    requires Runs(InitialKernel(idle), steps) && After(InitialKernel(idle), steps).schedulerSuspended == 0
    ensures var k := After(InitialKernel(idle), steps);
      var k' := SwitchContext(k);
      && k'.running in k'.tasks && k'.tasks[k'.running].state.Ready?
      && (forall t :: t in k'.tasks && k'.tasks[t].state.Ready? ==>
           k'.tasks[t].priority <= k'.tasks[k'.running].priority)
      && (var l := StateItems(k, Ready(k'.tasks[k'.running].priority));
          Valid(l) && l.items != [] && k'.running == Current(Next(l)))
  {
    InitialInvariant(idle);
    RunKeepsInvariant(InitialKernel(idle), steps);
    SwitchContextSelectsHighest(After(InitialKernel(idle), steps));
  }

  /** Over every run: nobody is overdue, xNextTaskUnblockTime never exceeds a wake time in the
      current list, and the current list is empty whenever the next tick switches the lists. */
  lemma ClockAlways(idle: TaskId, steps: seq<Step>)
    requires Runs(InitialKernel(idle), steps)
    ensures var k := After(InitialKernel(idle), steps);
      && (forall t :: t in k.tasks && k.tasks[t].state == k.delayed ==>
            k.tick <= k.tasks[t].wakeTime && k.nextUnblock <= k.tasks[t].wakeTime)
      && (k.tick == MAX_DELAY ==> StateItems(k, k.delayed).items == [])
  {
    hide *;
    InitialInvariant(idle);
    RunKeepsInvariant(InitialKernel(idle), steps);
    ClockMeans(After(InitialKernel(idle), steps));
  }

  lemma ClockMeans(k: Kernel)
    requires Invariant(k)
    ensures forall t :: t in k.tasks && k.tasks[t].state == k.delayed ==>
      k.tick <= k.tasks[t].wakeTime && k.nextUnblock <= k.tasks[t].wakeTime
    ensures k.tick == MAX_DELAY ==> StateItems(k, k.delayed).items == []
  {
    hide Structure, PendingDrained, SleepersSorted, StateItems;
    if k.tick == MAX_DELAY { CurrentListEmptyAtSwitch(k); }
  }

  /** Over every run: a tick processed while the scheduler runs is a tick of the simple
      scheduler on the unbounded clock. */
  lemma TickAlwaysRefines(idle: TaskId, steps: seq<Step>)
    requires Runs(InitialKernel(idle), steps) && After(InitialKernel(idle), steps).schedulerSuspended == 0
    ensures var k := After(InitialKernel(idle), steps);
      Abstract(IncrementTick(k).0) == SpecTick(Abstract(k))
  {
    InitialInvariant(idle);
    RunKeepsInvariant(InitialKernel(idle), steps);
    ProcessTickRefines(After(InitialKernel(idle), steps));
  }

  // ----- when a delayed task wakes

  /** An event or another task takes t out of its delay. */
  predicate WakesOrRemoves(k: Kernel, step: Step, t: TaskId)
    requires Enabled(k, step)
  {
    match step
    case Event(id) => EventItems(k, OnEvent(id))[0] == t
    case BitsSet(u, _) => u == t
    case SuspendStep(u) => u == t
    case Delete(u) => u == t
    case _ => false
  }

  /** t sleeps until the unbounded time u and no event has woken it. */
  ghost predicate Sleeps(k: Kernel, t: TaskId, u: nat) {
    t in k.tasks && StatusOf(k, k.tasks[t]) == Sleeping(u) && k.tasks[t].event != Pending
  }

  lemma SameTcbSleeps(k: Kernel, k': Kernel, t: TaskId, u: nat)
    requires Sleeps(k, t, u) && t in k'.tasks
    requires k'.tasks[t].state == k.tasks[t].state && k'.tasks[t].wakeTime == k.tasks[t].wakeTime &&
      k'.tasks[t].event == k.tasks[t].event
    requires k'.overflows == k.overflows && k'.delayed == k.delayed && k'.overflowDelayed == k.overflowDelayed
    ensures Sleeps(k', t, u)
  {
  }

  lemma ProcessedTick(k: Kernel, t: TaskId, u: nat)
    requires Structure(k) && ClockExact(k) && Sleeps(k, t, u)
    ensures var k' := ProcessTick(k).0;
      && Now(k') == Now(k) + 1 && t in k'.tasks
      && StatusOf(k', k'.tasks[t]) == WokenBy(Sleeping(u), Now(k'))
      && (k'.tasks[t] == k.tasks[t] || k'.tasks[t].state.Ready?)
  {
    hide *;
    var k', k1 := ProcessTick(k).0, AdvanceTick(k);
    SleepsMeans(k, t, u);
    ProcessTickRefines(k);
    ProcessTickWakes(k);
    AdvanceFrame(k);
    AbstractStatus(k, t);
    AbstractStatus(k', t);
    SpecTickStatus(Abstract(k), t);
    WokenIs(k1, t);
  }

  lemma SpecTickStatus(s: Clocked, t: TaskId)
    requires t in s.status
    ensures SpecTick(s).now == s.now + 1 && t in SpecTick(s).status &&
      SpecTick(s).status[t] == WokenBy(s.status[t], s.now + 1)
  {
  }

  lemma WokenIs(k: Kernel, t: TaskId)
    requires t in k.tasks
    ensures Woken(k, t) == k.tasks[t] || Woken(k, t).state.Ready?
  {
  }

  lemma SleepsThroughTick(k: Kernel, t: TaskId, u: nat)
    requires Invariant(k) && Sleeps(k, t, u)
    ensures var k' := IncrementTick(k).0;
      && Now(k) <= Now(k') && (Now(k') < u ==> Sleeps(k', t, u))
      && (k.schedulerSuspended == 0 && Now(k) + 1 == u ==> t in k'.tasks && StatusOf(k', k'.tasks[t]) == Runnable)
  {
    hide Structure, ClockExact, ProcessTick;
    if k.schedulerSuspended == 0 { ProcessedTick(k, t, u); } else { SameTcbSleeps(k, IncrementTick(k).0, t, u); }
  }

  lemma AbstractStatus(k: Kernel, t: TaskId)
    ensures Abstract(k).now == Now(k) && Abstract(k).status.Keys == k.tasks.Keys
    ensures t in k.tasks ==> Abstract(k).status[t] == StatusOf(k, k.tasks[t])
  {
  }

  lemma NotPending(k: Kernel, t: TaskId)
    requires Structure(k) && EventItems(k, Pending) == []
    ensures t in k.tasks ==> k.tasks[t].event != Pending
  {
    hide ListsExact, ReadyByPriority, BitmapExact, SchedulerFlags, IdleReady, WaitersBlocked;
  }

  lemma ResumeDrains(k: Kernel)
    requires Invariant(k) && k.schedulerSuspended == 1
    ensures Structure(ResumeAll(k)) && EventItems(ResumeAll(k), Pending) == []
  {
    hide Structure, ResumeAll, EventItems;
    ResumeAllKeeps(k);
  }

  lemma ResumeKeepsSleeping(k: Kernel, t: TaskId, u: nat)
    requires Invariant(k) && Sleeps(k, t, u) && k.schedulerSuspended == 1
    ensures var k' := ResumeAll(k);
      Now(k) <= Now(k') && (Now(k') < u ==> Sleeps(k', t, u))
  {
    hide ResumeAll, Resumed, ClockExact, Structure, StatusOf, Abstract, Now, EventItems, PendingDrained;
    ResumeAllRefines(k);
    ResumedStatuses(k, t);
    ResumeDrains(k);
    var k', s := ResumeAll(k), Abstract(Resumed(k));
    AbstractStatus(Resumed(k), t);
    AbstractStatus(k', t);
    SpecTicksAdvance(s, k.pendedTicks);
    NotPending(k', t);
  }

  lemma SleepsThroughResume(k: Kernel, t: TaskId, u: nat)
    requires Invariant(k) && Sleeps(k, t, u) && k.schedulerSuspended > 0
    ensures var k' := ResumeAll(k);
      Now(k) <= Now(k') && (Now(k') < u ==> Sleeps(k', t, u))
  {
    if k.schedulerSuspended > 1 {
      SameTcbSleeps(k, ResumeAll(k), t, u);
    } else {
      hide *;
      ResumeKeepsSleeping(k, t, u);
    }
  }

  lemma DelayTasks(k: Kernel, ticks: Tick, canBlockIndefinitely: bool, t: TaskId)
    requires DelayedNames(k) && k.delayed != k.overflowDelayed && k.running in k.tasks && t in k.tasks && t != k.running
    ensures var k' := DelayCurrent(k, ticks, canBlockIndefinitely);
      && t in k'.tasks && k'.tasks[t] == k.tasks[t]
      && k'.tick == k.tick && k'.overflows == k.overflows && k'.delayed == k.delayed &&
           k'.overflowDelayed == k.overflowDelayed
  {
    DelayCurrentFrame(k, ticks, canBlockIndefinitely);
    FileDelayedShape(LeaveReady(k), ticks, canBlockIndefinitely);
    hide FileDelayed, LeaveReady, FiledTask, FiledOn;
  }

  /** Blocking changes the running task only. */
  lemma BlockingTasks(k: Kernel, step: Step, t: TaskId)
    requires DelayedNames(k) && k.delayed != k.overflowDelayed && t in k.tasks && t != k.running
    requires Enabled(k, step) && IsBlockingStep(step)
    ensures var k' := Apply(k, step);
      && t in k'.tasks && k'.tasks[t] == k.tasks[t]
      && k'.tick == k.tick && k'.overflows == k.overflows && k'.delayed == k.delayed &&
           k'.overflowDelayed == k.overflowDelayed
  {
    hide DelayCurrent, Insert, SortedPosition, EventValues, StateItems, DelayAllowed, MarkedInUse;
    match step
    case Delay(ticks) => DelayTasks(k, ticks, false, t);
    case WaitForEvent(id, ticks) =>
      var items := EventItems(k, OnEvent(id));
      var p := SortedPosition(EventValues(k, items), TaskOf(k, k.running).eventValue);
      DelayTasks(k.(events := k.events[OnEvent(id) := Insert(items, p, k.running)],
                    tasks := k.tasks[k.running := TaskOf(k, k.running).(event := OnEvent(id))]), ticks, true, t);
    case WaitForBits(id, value, ticks) =>
      var k1 := k.(tasks := k.tasks[k.running := TaskOf(k, k.running).(eventValue := MarkedInUse(value))]);
      DelayTasks(AppendEvent(k1, OnEvent(id), k.running), ticks, true, t);
    case WaitRestricted(id, ticks, indefinitely) =>
      DelayTasks(AppendEvent(k, OnEvent(id), k.running), if indefinitely then MAX_DELAY else ticks, indefinitely, t);
  }

  lemma SleepsThroughBlocking(k: Kernel, step: Step, t: TaskId, u: nat)
    requires Invariant(k) && Enabled(k, step) && Sleeps(k, t, u) && IsBlockingStep(step)
    ensures Now(Apply(k, step)) == Now(k) && Sleeps(Apply(k, step), t, u)
  {
    hide Structure, ClockExact, PendingDrained, Apply;
    NamesOf(k);
    BlockingTasks(k, step, t);
    SameTcbSleeps(k, Apply(k, step), t, u);
  }

  /** Still where it was, with the same wake time. */
  ghost predicate Unmoved(k: Kernel, k': Kernel, t: TaskId) {
    && t in k.tasks && t in k'.tasks && k'.tasks[t].state == k.tasks[t].state
    && k'.tasks[t].wakeTime == k.tasks[t].wakeTime && k'.tasks[t].event == k.tasks[t].event
  }

  lemma ChangeUnmoved(k: Kernel, task: Tcb, t: TaskId, p: Priority)
    requires t in k.tasks && !k.tasks[t].state.Ready?
    requires task.state == k.tasks[t].state && task.wakeTime == k.tasks[t].wakeTime && task.event == k.tasks[t].event
    ensures Unmoved(k, ChangePriority(k.(tasks := k.tasks[t := task]), t, p), t)
  {
    hide ChangePriority;
    ChangePriorityFrame(k.(tasks := k.tasks[t := task]), t, p);
  }

  lemma PriorityUnmoved(k: Kernel, t: TaskId, p: Priority)
    requires t in k.tasks && !k.tasks[t].state.Ready?
    ensures Unmoved(k, SetPriority(k, t, p), t) && Unmoved(k, InheritPriority(k, t), t)
    ensures t == k.running ==>
      && Unmoved(k, DisinheritPriority(k), t) && Unmoved(k, IncrementMutexHeld(k), t)
      && Unmoved(k, ResetEventItemValue(k), t)
  {
    hide ChangePriority;
    var task := k.tasks[t];
    ChangeUnmoved(k, WithEventValueFor(task.(basePriority := p), p), t,
      if task.basePriority == task.priority then p else task.priority);
    ChangeUnmoved(k, WithEventValueFor(task, TaskOf(k, k.running).priority), t, TaskOf(k, k.running).priority);
    var given := MutexGiven(k);
    if t == k.running {
      ChangeUnmoved(k, given.(eventValue := MAX_PRIORITIES - given.basePriority), t, given.basePriority);
    }
  }

  lemma SleeperUnmoved(k: Kernel, step: Step, t: TaskId)
    requires t in k.tasks && IsDelayedList(k.tasks[t].state) && k.running in k.tasks && Enabled(k, step)
    requires step.PrioritySet? || step.Inherit? || step.ResumeStep? || step.ResumeFromISR? || step.TakeMutex? ||
      step.GiveMutex?
      || step.ResetEventValue?
    requires t in Touched(k, step)
    ensures Unmoved(k, Apply(k, step), t)
  {
    hide SetPriority, InheritPriority, DisinheritPriority, IncrementMutexHeld, ResetEventItemValue, MakeReady,
      AppendEvent, EventItems, CanRemove, SuspendTask, DeleteTask, CreateTask, RemoveFromEventList,
      RemoveFromUnorderedEventList, Unmoved, IsTaskSuspended;
    StaysPut(k, t);
    PriorityUnmoved(k, t, if step.PrioritySet? then step.p else 0);
  }

  lemma StaysPut(k: Kernel, t: TaskId)
    ensures t in k.tasks ==> Unmoved(k, k, t)
    ensures t in k.tasks && k.tasks[t].state != Suspended ==> !IsTaskSuspended(k, t)
  {
  }

  lemma SleepsUndisturbed(k: Kernel, k': Kernel, touched: set<TaskId>, t: TaskId, u: nat)
    requires Sleeps(k, t, u) && Undisturbed(k, k', touched) && t !in touched
    ensures Now(k') == Now(k) && Sleeps(k', t, u)
  {
    SameTcbSleeps(k, k', t, u);
  }

  lemma SleeperIsDelayed(k: Kernel, t: TaskId, u: nat)
    requires Invariant(k) && Sleeps(k, t, u)
    ensures t in k.tasks && IsDelayedList(k.tasks[t].state) && k.running in k.tasks
  {
    hide ListsExact, EventsExact, ReadyByPriority, BitmapExact, WaitersBlocked, ClockExact, PendingDrained;
  }

  lemma SleepsThroughTaskStep(k: Kernel, step: Step, t: TaskId, u: nat)
    requires Invariant(k) && Enabled(k, step) && Sleeps(k, t, u)
    requires IsTaskStep(step) && !WakesOrRemoves(k, step, t)
    ensures Now(Apply(k, step)) == Now(k) && Sleeps(Apply(k, step), t, u)
  {
    hide *;
    var k' := Apply(k, step);
    SleeperIsDelayed(k, t, u);
    TaskSteps(k, step);
    KeptGives(k, k', Touched(k, step));
    if t in Touched(k, step) {
      SleepersStepKinds(k, step, t);
      SleeperUnmoved(k, step, t);
      UndisturbedNow(k, k', Touched(k, step));
      UnmovedSleeps(k, k', t, u);
    } else {
      SleepsUndisturbed(k, k', Touched(k, step), t, u);
    }
  }

  lemma SleepersStepKinds(k: Kernel, step: Step, t: TaskId)
    requires Enabled(k, step) && IsTaskStep(step) && !WakesOrRemoves(k, step, t) && t in k.tasks &&
      t in Touched(k, step)
    ensures step.PrioritySet? || step.Inherit? || step.ResumeStep? || step.ResumeFromISR? || step.TakeMutex? ||
      step.GiveMutex?
      || step.ResetEventValue?
  {
    hide EventItems, CanRemove;
  }

  lemma UnmovedSleeps(k: Kernel, k': Kernel, t: TaskId, u: nat)
    requires Sleeps(k, t, u) && Unmoved(k, k', t)
    requires k'.overflows == k.overflows && k'.delayed == k.delayed && k'.overflowDelayed == k.overflowDelayed
    ensures Sleeps(k', t, u)
  {
  }

  lemma UndisturbedNow(k: Kernel, k': Kernel, touched: set<TaskId>)
    requires Undisturbed(k, k', touched)
    ensures Now(k') == Now(k)
    ensures k'.overflows == k.overflows && k'.delayed == k.delayed && k'.overflowDelayed == k.overflowDelayed
    ensures k'.pendedTicks == k.pendedTicks
  {
  }

  lemma StepOnSleeper(k: Kernel, step: Step, t: TaskId, u: nat)
    requires Invariant(k) && Enabled(k, step) && Sleeps(k, t, u) && !WakesOrRemoves(k, step, t)
    ensures Now(k) <= Now(Apply(k, step)) && (Now(Apply(k, step)) < u ==> Sleeps(Apply(k, step), t, u))
  {
    hide Invariant;
    if IsBlockingStep(step) {
      SleepsThroughBlocking(k, step, t, u);
    } else if IsTaskStep(step) {
      SleepsThroughTaskStep(k, step, t, u);
    } else if step.TickInterrupt? {
      SleepsThroughTick(k, t, u);
    } else if step.ResumeAllStep? {
      SleepsThroughResume(k, t, u);
    } else {
      QuietStep(k, step, t, u);
    }
  }

  lemma QuietStep(k: Kernel, step: Step, t: TaskId, u: nat)
    requires Sleeps(k, t, u) && (step.SuspendAll? || step.ResetUnblockTime? || step.ContextSwitch?)
    ensures Now(Apply(k, step)) == Now(k) && Sleeps(Apply(k, step), t, u)
  {
    SwitchContextFrame(k, k.delayed);
    SameTcbSleeps(k, Apply(k, step), t, u);
  }

  /** No step of the run wakes or removes t, and the clock never goes back. */
  ghost predicate LeftAlone(k: Kernel, steps: seq<Step>, t: TaskId)
    requires Runs(k, steps)
    decreases |steps|
  {
    steps == [] || (!WakesOrRemoves(k, steps[0], t) && LeftAlone(Apply(k, steps[0]), steps[1..], t))
  }

  lemma TickStepsCount(k: Kernel, step: Step)
    requires Invariant(k) && Enabled(k, step)
    ensures var k' := Apply(k, step);
      Now(k') + k'.pendedTicks == Now(k) + k.pendedTicks + if step.TickInterrupt? then 1 else 0
    ensures Now(k) <= Now(Apply(k, step))
  {
    if IsTaskStep(step) {
      hide Invariant, Apply, Kept, Undisturbed;
      TaskSteps(k, step);
      KeptGives(k, Apply(k, step), Touched(k, step));
      UndisturbedNow(k, Apply(k, step), Touched(k, step));
    } else if IsBlockingStep(step) {
      BlockingClock(k, step);
    } else if step.TickInterrupt? {
      if k.schedulerSuspended == 0 { ProcessTickKeeps(k); ProcessTickWakes(k); AdvanceFrame(k); }
    } else if step.ResumeAllStep? {
      ResumeAllClock(k);
    } else {
      SwitchContextFrame(k, k.delayed);
    }
  }

  lemma ResumeAllClock(k: Kernel)
    requires Invariant(k) && k.schedulerSuspended > 0
    ensures Now(ResumeAll(k)) + ResumeAll(k).pendedTicks == Now(k) + k.pendedTicks && Now(k) <= Now(ResumeAll(k))
  {
    ResumeAllRefines(k);
    ResumedNow(k);
    SpecTicksAdvance(Abstract(Resumed(k)), k.pendedTicks);
    hide Structure, ClockExact, Resumed, SpecTicks;
    assert Now(ResumeAll(k)) == Abstract(ResumeAll(k)).now;
  }

  lemma ResumedNow(k: Kernel)
    requires Structure(k) && ClockExact(k)
    ensures Now(Resumed(k)) == Now(k)
  {
    var k1 := k.(schedulerSuspended := 0);
    FlagsIrrelevant(k, k1);
    ClockIgnoresFlags(k, k1);
    hide Structure, ClockExact, ReadyAllPending;
    ReadyAllPendingClock(k1);
  }

  lemma DelayClock(k: Kernel, ticks: Tick, canBlockIndefinitely: bool)
    ensures var k' := DelayCurrent(k, ticks, canBlockIndefinitely);
      Now(k') == Now(k) && k'.pendedTicks == k.pendedTicks
  {
    DelayCurrentFrame(k, ticks, canBlockIndefinitely);
    DelayCurrentFrame(LeaveReady(k), ticks, canBlockIndefinitely);
    hide FileDelayed, LeaveReady;
  }

  lemma BlockingClock(k: Kernel, step: Step)
    requires Enabled(k, step) && IsBlockingStep(step)
    ensures Now(Apply(k, step)) == Now(k) && Apply(k, step).pendedTicks == k.pendedTicks
  {
    hide Insert, SortedPosition, EventValues, DelayCurrent, Enabled;
    match step
    case Delay(ticks) => DelayClock(k, ticks, false);
    case WaitForEvent(id, ticks) =>
      var items := EventItems(k, OnEvent(id));
      var p := SortedPosition(EventValues(k, items), TaskOf(k, k.running).eventValue);
      DelayClock(k.(events := k.events[OnEvent(id) := Insert(items, p, k.running)],
                    tasks := k.tasks[k.running := TaskOf(k, k.running).(event := OnEvent(id))]), ticks, true);
    case WaitForBits(id, value, ticks) =>
      var k1 := k.(tasks := k.tasks[k.running := TaskOf(k, k.running).(eventValue := MarkedInUse(value))]);
      DelayClock(AppendEvent(k1, OnEvent(id), k.running), ticks, true);
    case WaitRestricted(id, ticks, indefinitely) =>
      DelayClock(AppendEvent(k, OnEvent(id), k.running), if indefinitely then MAX_DELAY else ticks, indefinitely);
  }

  // ----- the main results on time

  function TickCount(steps: seq<Step>): nat {
    if steps == [] then 0 else (if steps[0].TickInterrupt? then 1 else 0) + TickCount(steps[1..])
  }

  /** No tick is lost: the unbounded clock plus the ticks still pended is the number of tick
      interrupts there have been. */
  lemma {:induction false} NoTickLost(k: Kernel, steps: seq<Step>)
    requires Invariant(k) && Runs(k, steps)
    ensures var r := After(k, steps);
      Now(r) + r.pendedTicks == Now(k) + k.pendedTicks + TickCount(steps) && Now(k) <= Now(r)
    decreases |steps|
  {
    hide Invariant, Apply;
    if steps != [] {
      TickStepsCount(k, steps[0]);
      StepKeepsInvariant(k, steps[0]);
      NoTickLost(Apply(k, steps[0]), steps[1..]);
    }
  }

  lemma {:induction false} SleepsUntilDue(k: Kernel, steps: seq<Step>, t: TaskId, u: nat)
    requires Invariant(k) && Sleeps(k, t, u) && Runs(k, steps) && LeftAlone(k, steps, t)
    ensures Now(After(k, steps)) < u ==> Sleeps(After(k, steps), t, u)
    decreases |steps|
  {
    hide Invariant, Apply, Sleeps;
    if steps != [] {
      var k1 := Apply(k, steps[0]);
      StepOnSleeper(k, steps[0], t, u);
      StepKeepsInvariant(k, steps[0]);
      NoTickLost(k1, steps[1..]);
      if Now(After(k, steps)) < u { SleepsUntilDue(k1, steps[1..], t, u); }
    }
  }

  /** A task that delays itself at the unbounded time N for d ticks and is not woken or removed
      by others is delayed in every later state whose time is before N + d: it is never early,
      through any number of wraps of the tick count and suspensions of the scheduler. */
  lemma NeverWokenEarly(k: Kernel, d: Tick, steps: seq<Step>)
    requires Invariant(k) && Enabled(k, Delay(d)) && d > 0
    requires var k1 := DelayCurrent(k, d, false); Runs(k1, steps) && LeftAlone(k1, steps, k.running)
    ensures var r := After(DelayCurrent(k, d, false), steps);
      Now(r) < Now(k) + d ==> k.running in r.tasks && StatusOf(r, r.tasks[k.running]) == Sleeping(Now(k) + d)
  {
    hide *;
    DelayApplies(k, d);
    StepKeepsInvariant(k, Delay(d));
    DelaySleeps(k, d);
    SleepsUntilDue(DelayCurrent(k, d, false), steps, k.running, Now(k) + d);
    SleepsMeans(After(DelayCurrent(k, d, false), steps), k.running, Now(k) + d);
  }

  lemma DelayApplies(k: Kernel, d: Tick)
    requires Enabled(k, Delay(d))
    ensures Apply(k, Delay(d)) == DelayCurrent(k, d, false)
  {
    hide DelayCurrent;
  }

  lemma SleepsMeans(k: Kernel, t: TaskId, u: nat)
    ensures Sleeps(k, t, u) ==> t in k.tasks && StatusOf(k, k.tasks[t]) == Sleeping(u)
  {
  }

  lemma FiledStatusOf(k1: Kernel, k': Kernel, d: Tick)
    requires k'.overflows == k1.overflows && k'.delayed == k1.delayed && k'.overflowDelayed == k1.overflowDelayed
    ensures StatusOf(k', FiledTask(k1, d, false)) == StatusOf(k1, FiledTask(k1, d, false))
    ensures DelayStatus(k1, d, false) == Sleeping(Now(k1) + d)
    ensures FiledTask(k1, d, false).event == TaskOf(k1, k1.running).event
  {
  }

  lemma DelayShape(k: Kernel, d: Tick)
    requires k.running in k.tasks && DelayedNames(k) && k.delayed != k.overflowDelayed
    ensures var k1, k' := LeaveReady(k), DelayCurrent(k, d, false);
      && k1.running == k.running && k1.tasks == k.tasks && Now(k1) == Now(k)
      && k1.delayed == k.delayed && k1.overflowDelayed == k.overflowDelayed
      && k'.overflows == k1.overflows && k'.delayed == k1.delayed && k'.overflowDelayed == k1.overflowDelayed
      && k.running in k'.tasks && k'.tasks[k.running] == FiledTask(k1, d, false)
  {
    hide FileDelayed, LeaveReady, FiledTask;
    DelayCurrentFrame(k, d, false);
    FileDelayedShape(LeaveReady(k), d, false);
  }

  lemma MayDelay(k: Kernel, d: Tick)
    requires Invariant(k) && Enabled(k, Delay(d))
    ensures k.running in k.tasks && k.tasks[k.running].event == Nowhere && DelayedNames(k) &&
      k.delayed != k.overflowDelayed
  {
    hide ListsExact, EventsExact, ReadyByPriority, BitmapExact, WaitersBlocked, ClockExact, PendingDrained;
  }

  lemma DelaySleeps(k: Kernel, d: Tick)
    requires Invariant(k) && Enabled(k, Delay(d))
    ensures Sleeps(DelayCurrent(k, d, false), k.running, Now(k) + d)
  {
    hide Invariant, Enabled, DelayCurrent, LeaveReady, FiledTask, StatusOf, DelayStatus, Now;
    MayDelay(k, d);
    DelayShape(k, d);
    FiledStatus(LeaveReady(k), d, false);
    FiledStatusOf(LeaveReady(k), DelayCurrent(k, d, false), d);
  }

  lemma SpecWakesDue(s: Clocked, n: nat, t: TaskId, u: nat)
    requires n > 0 && t in s.status
    ensures var s' := SpecTicks(s, n);
      && s'.now == s.now + n && t in s'.status && s'.status[t] == WokenBy(s.status[t], s.now + n)
      && (forall v :: v in s'.status && s'.status[v].Sleeping? ==> s'.now < s'.status[v].until)
  {
    SpecTicksAdvance(s, n);
    hide SpecTicks;
    var s' := SpecTicks(s, n);
    assert forall v :: v in s'.status <==> v in s.status;
    assert forall v :: v in s.status ==> s'.status[v] == WokenBy(s.status[v], s.now + n);
  }

  /** Nobody who is still asleep is due. */
  ghost predicate NobodyLate(k: Kernel) {
    forall v :: v in Abstract(k).status && Abstract(k).status[v].Sleeping? ==> Now(k) < Abstract(k).status[v].until
  }

  lemma TickIsNeverLate(k: Kernel, t: TaskId, u: nat)
    requires Invariant(k) && k.schedulerSuspended == 0 && Sleeps(k, t, u)
    ensures var k' := IncrementTick(k).0;
      && Now(k') == Now(k) + 1 && t in k'.tasks && NobodyLate(k')
      && StatusOf(k', k'.tasks[t]) == if u <= Now(k') then Runnable else Sleeping(u)
  {
    hide ProcessTick, Structure, ClockExact, StatusOf, Abstract;
    ProcessTickRefines(k);
    AbstractStatus(k, t);
    AbstractStatus(ProcessTick(k).0, t);
    SpecWakesDue(Abstract(k), 1, t, u);
    assert SpecTicks(Abstract(k), 1) == SpecTicks(SpecTick(Abstract(k)), 0);
  }

  lemma ResumeIsNeverLate(k: Kernel, t: TaskId, u: nat)
    requires Invariant(k) && k.schedulerSuspended == 1 && Sleeps(k, t, u) && k.pendedTicks > 0
    ensures var k' := ResumeAll(k);
      && Now(k') == Now(k) + k.pendedTicks && t in k'.tasks && NobodyLate(k')
      && StatusOf(k', k'.tasks[t]) == if u <= Now(k') then Runnable else Sleeping(u)
  {
    hide ResumeAll, Resumed, ClockExact, Structure, StatusOf, Abstract, Now, EventItems, PendingDrained;
    ResumeAllRefines(k);
    ResumedStatuses(k, t);
    AbstractStatus(Resumed(k), t);
    AbstractStatus(ResumeAll(k), t);
    SpecWakesDue(Abstract(Resumed(k)), k.pendedTicks, t, u);
  }

  /** And it is never late: whenever the clock moves, by a tick or by the ticks replayed when the
      scheduler is resumed, a task sleeping until u is ready exactly if u has come, and nobody
      who still sleeps is due. */
  lemma NeverWokenLate(k: Kernel, step: Step, t: TaskId, u: nat)
    requires Invariant(k) && Enabled(k, step) && Sleeps(k, t, u)
    requires Now(Apply(k, step)) != Now(k)
    ensures var k' := Apply(k, step);
      && t in k'.tasks && NobodyLate(k')
      && StatusOf(k', k'.tasks[t]) == if u <= Now(k') then Runnable else Sleeping(u)
  {
    hide Invariant, NobodyLate, StatusOf, ResumeAll, IncrementTick;
    ClockMoves(k, step);
    if step.TickInterrupt? { TickIsNeverLate(k, t, u); } else { ResumeIsNeverLate(k, t, u); }
  }

  /** Only a processed tick and the replay of pended ones move the clock. */
  lemma ClockMoves(k: Kernel, step: Step)
    requires Invariant(k) && Enabled(k, step) && Now(Apply(k, step)) != Now(k)
    ensures || (step.TickInterrupt? && k.schedulerSuspended == 0)
            || (step.ResumeAllStep? && k.schedulerSuspended == 1 && k.pendedTicks > 0)
  {
    if IsTaskStep(step) {
      hide Invariant, Apply, Kept, Undisturbed;
      TaskSteps(k, step);
      KeptGives(k, Apply(k, step), Touched(k, step));
      UndisturbedNow(k, Apply(k, step), Touched(k, step));
    } else if IsBlockingStep(step) {
      BlockingClock(k, step);
    } else if step.ResumeAllStep? {
      if k.schedulerSuspended == 1 { ResumeMoves(k); }
    } else if !step.TickInterrupt? {
      SwitchContextFrame(k, k.delayed);
    }
  }

  lemma ResumeMoves(k: Kernel)
    requires Invariant(k) && k.schedulerSuspended == 1
    ensures Now(ResumeAll(k)) == Now(k) + k.pendedTicks
  {
    hide ResumeAll, Resumed, SpecTicks, Structure, ClockExact;
    ResumeAllRefines(k);
    ResumedNow(k);
    SpecTicksAdvance(Abstract(Resumed(k)), k.pendedTicks);
    assert Now(ResumeAll(k)) == Abstract(ResumeAll(k)).now;
  }

  // ----- once awake

  predicate Awake(k: Kernel, t: TaskId) {
    t in k.tasks && k.tasks[t].state.Ready?
  }

  lemma BlockingLeavesAwake(k: Kernel, step: Step, t: TaskId)
    requires Invariant(k) && Enabled(k, step) && Awake(k, t) && IsBlockingStep(step) && k.running != t
    ensures Awake(Apply(k, step), t)
  {
    hide Structure, ClockExact, PendingDrained, Apply;
    NamesOf(k);
    BlockingTasks(k, step, t);
  }

  lemma ChangeLeavesAwake(k: Kernel, t: TaskId, task: Tcb, p: Priority)
    requires Awake(k, t) && task.state == k.tasks[t].state
    ensures Awake(ChangePriority(k.(tasks := k.tasks[t := task]), t, p), t)
  {
    ChangePriorityFrame(k.(tasks := k.tasks[t := task]), t, p);
    hide ChangePriority;
  }

  lemma RanksLeaveAwake(k: Kernel, t: TaskId, p: Priority)
    requires Awake(k, t)
    ensures Awake(SetPriority(k, t, p), t) && Awake(InheritPriority(k, t), t)
    ensures t == k.running ==>
      Awake(DisinheritPriority(k), t) && Awake(IncrementMutexHeld(k), t) && Awake(ResetEventItemValue(k), t)
  {
    hide ChangePriority;
    var task, given := k.tasks[t], MutexGiven(k);
    ChangeLeavesAwake(k, t, WithEventValueFor(task.(basePriority := p), p),
      if task.basePriority == task.priority then p else task.priority);
    ChangeLeavesAwake(k, t, WithEventValueFor(task, TaskOf(k, k.running).priority), TaskOf(k, k.running).priority);
    if t == k.running {
      ChangeLeavesAwake(k, t, given.(eventValue := MAX_PRIORITIES - given.basePriority), given.basePriority);
    }
  }

  lemma AwakeIsNotSuspended(k: Kernel, t: TaskId)
    requires Awake(k, t)
    ensures t in k.tasks && !IsTaskSuspended(k, t)
  {
  }

  lemma TouchedStaysAwake(k: Kernel, step: Step, t: TaskId)
    requires Enabled(k, step) && IsTaskStep(step) && !WakesOrRemoves(k, step, t)
    requires Awake(k, t) && t in Touched(k, step)
    ensures Awake(Apply(k, step), t)
  {
    hide SetPriority, InheritPriority, DisinheritPriority, IncrementMutexHeld, ResetEventItemValue, MakeReady,
      AppendEvent, EventItems, CanRemove, SuspendTask, DeleteTask, CreateTask, RemoveFromEventList,
      RemoveFromUnorderedEventList, Awake, IsTaskSuspended;
    AwakeIsNotSuspended(k, t);
    RanksLeaveAwake(k, t, if step.PrioritySet? then step.p else 0);
  }

  lemma UndisturbedAwake(k: Kernel, k': Kernel, touched: set<TaskId>, t: TaskId)
    requires Undisturbed(k, k', touched) && t !in touched && Awake(k, t)
    ensures Awake(k', t)
  {
  }

  lemma AwakeMeans(k: Kernel, t: TaskId)
    ensures Awake(k, t) <==> t in k.tasks && StatusOf(k, k.tasks[t]) == Runnable
  {
  }

  lemma AwakeWaitsForNothing(k: Kernel, t: TaskId)
    requires Invariant(k) && Awake(k, t)
    ensures k.tasks[t].event == Nowhere
  {
    hide ListsExact, EventsExact, ReadyByPriority, BitmapExact, ClockExact, PendingDrained;
  }

  lemma TickLeavesAwake(k: Kernel, t: TaskId)
    requires Invariant(k) && Awake(k, t)
    ensures Awake(IncrementTick(k).0, t)
  {
    hide ProcessTick, Structure, ClockExact, StatusOf, Abstract, SpecTick;
    if k.schedulerSuspended == 0 {
      AwakeMeans(k, t);
      AwakeMeans(ProcessTick(k).0, t);
      ProcessTickRefines(k);
      AbstractStatus(k, t);
      AbstractStatus(ProcessTick(k).0, t);
      SpecLeavesAwake(Abstract(k), 1, t);
      assert SpecTicks(Abstract(k), 1) == SpecTicks(SpecTick(Abstract(k)), 0);
    }
  }

  lemma SpecLeavesAwake(s: Clocked, n: nat, t: TaskId)
    requires t in s.status && s.status[t] == Runnable
    ensures t in SpecTicks(s, n).status && SpecTicks(s, n).status[t] == Runnable
  {
    SpecTicksAdvance(s, n);
  }

  lemma ResumeLeavesAwake(k: Kernel, t: TaskId)
    requires Invariant(k) && Awake(k, t) && k.schedulerSuspended > 0
    ensures Awake(ResumeAll(k), t)
  {
    if k.schedulerSuspended == 1 {
      AwakeWaitsForNothing(k, t);
      hide ResumeAll, Resumed, ClockExact, Structure, StatusOf, Abstract, Now, EventItems, PendingDrained, SpecTicks;
      AwakeMeans(k, t);
      AwakeMeans(ResumeAll(k), t);
      ResumeAllRefines(k);
      ResumedStatuses(k, t);
      AbstractStatus(Resumed(k), t);
      AbstractStatus(ResumeAll(k), t);
      SpecLeavesAwake(Abstract(Resumed(k)), k.pendedTicks, t);
    }
  }

  lemma StaysAwake(k: Kernel, step: Step, t: TaskId)
    requires Invariant(k) && Enabled(k, step) && Awake(k, t)
    requires !WakesOrRemoves(k, step, t) && !(IsBlockingStep(step) && k.running == t)
    ensures Awake(Apply(k, step), t)
  {
    hide Invariant, Awake;
    if IsBlockingStep(step) {
      BlockingLeavesAwake(k, step, t);
    } else if IsTaskStep(step) {
      hide Apply, Kept;
      TaskSteps(k, step);
      KeptGives(k, Apply(k, step), Touched(k, step));
      if t in Touched(k, step) { TouchedStaysAwake(k, step, t); }
      else { UndisturbedAwake(k, Apply(k, step), Touched(k, step), t); }
    } else if step.TickInterrupt? {
      TickLeavesAwake(k, t);
    } else if step.ResumeAllStep? {
      ResumeLeavesAwake(k, t);
    } else {
      QuietLeavesAwake(k, step, t);
    }
  }

  lemma QuietLeavesAwake(k: Kernel, step: Step, t: TaskId)
    requires Awake(k, t) && (step.SuspendAll? || step.ResetUnblockTime? || step.ContextSwitch?)
    ensures Awake(Apply(k, step), t)
  {
    SwitchContextFrame(k, k.delayed);
    hide SwitchContext;
  }

  /** No step of the run wakes or removes t, and t does not block again. */
  ghost predicate OnlyDelayed(k: Kernel, steps: seq<Step>, t: TaskId)
    requires Runs(k, steps)
    decreases |steps|
  {
    steps == [] || (
      && !WakesOrRemoves(k, steps[0], t) && !(IsBlockingStep(steps[0]) && k.running == t)
      && OnlyDelayed(Apply(k, steps[0]), steps[1..], t))
  }

  ghost predicate AsDelayed(k: Kernel, t: TaskId, u: nat) {
    if Now(k) < u then Sleeps(k, t, u) else Awake(k, t)
  }

  lemma StepAsDelayed(k: Kernel, step: Step, t: TaskId, u: nat)
    requires Invariant(k) && Enabled(k, step) && AsDelayed(k, t, u)
    requires !WakesOrRemoves(k, step, t) && !(IsBlockingStep(step) && k.running == t)
    ensures AsDelayed(Apply(k, step), t, u)
  {
    hide Invariant, Apply, Enabled, Sleeps, Awake, WakesOrRemoves, StatusOf, Now;
    if Now(k) < u {
      StepOnSleeper(k, step, t, u);
      if Now(Apply(k, step)) >= u {
        NeverWokenLate(k, step, t, u);
        AwakeMeans(Apply(k, step), t);
      }
    } else {
      TickStepsCount(k, step);
      StaysAwake(k, step, t);
    }
  }

  lemma {:induction false} RunAsDelayed(k: Kernel, steps: seq<Step>, t: TaskId, u: nat)
    requires Invariant(k) && AsDelayed(k, t, u) && Runs(k, steps) && OnlyDelayed(k, steps, t)
    ensures AsDelayed(After(k, steps), t, u)
    decreases |steps|
  {
    hide Invariant, Apply, AsDelayed;
    if steps != [] {
      StepAsDelayed(k, steps[0], t, u);
      StepKeepsInvariant(k, steps[0]);
      RunAsDelayed(Apply(k, steps[0]), steps[1..], t, u);
    }
  }

  /** Never early, never late: a task that delays itself at the unbounded time N for d ticks, is
      not woken or removed by others and does not block again, is delayed in exactly those
      later states whose time is before N + d, and ready in all others. */
  lemma DelayedExactly(k: Kernel, d: Tick, steps: seq<Step>)
    requires Invariant(k) && Enabled(k, Delay(d)) && d > 0
    requires var k1 := DelayCurrent(k, d, false); Runs(k1, steps) && OnlyDelayed(k1, steps, k.running)
    ensures var r := After(DelayCurrent(k, d, false), steps);
      && k.running in r.tasks
      && StatusOf(r, r.tasks[k.running]) == if Now(r) < Now(k) + d then Sleeping(Now(k) + d) else Runnable
  {
    hide *;
    var k1 := DelayCurrent(k, d, false);
    DelayApplies(k, d);
    StepKeepsInvariant(k, Delay(d));
    DelaySleeps(k, d);
    DelayClock(k, d, false);
    SleepsIsAsDelayed(k1, k.running, Now(k) + d);
    RunAsDelayed(k1, steps, k.running, Now(k) + d);
    AsDelayedMeans(After(k1, steps), k.running, Now(k) + d);
  }

  lemma SleepsIsAsDelayed(k: Kernel, t: TaskId, u: nat)
    requires Sleeps(k, t, u) && Now(k) < u
    ensures AsDelayed(k, t, u)
  {
  }

  lemma AsDelayedMeans(k: Kernel, t: TaskId, u: nat)
    requires AsDelayed(k, t, u)
    ensures t in k.tasks && StatusOf(k, k.tasks[t]) == if Now(k) < u then Sleeping(u) else Runnable
  {
  }
}
