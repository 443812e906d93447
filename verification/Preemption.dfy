/** When the kernel asks for a context switch, and that it always does when it must. */
module Preemption {
  import opened Ticks
  import opened ReadyBits
  import opened ListSpec
  import opened KernelSpec
  import opened KernelInvariant
  import opened KernelClock
  import opened KernelRuns
  import opened KernelEvents

  function Rank(k: Kernel, t: TaskId): Priority {
    TaskOf(k, t).priority
  }

  /** t was not ready, is ready, and ranks at least as high as the running task. */
  predicate Readied(k: Kernel, k': Kernel, t: TaskId) {
    t in k.tasks && !Awake(k, t) && Awake(k', t) && Rank(k', t) >= Rank(k', k'.running)
  }

  ghost predicate SomeReadied(k: Kernel, k': Kernel) {
    exists t :: Readied(k, k', t)
  }

  predicate Peers(k: Kernel, t: TaskId, u: TaskId) {
    t != u && Awake(k, t) && Awake(k, u) && Rank(k, t) == Rank(k, u) == Rank(k, k.running)
  }

  /** Two ready tasks have the running task's priority: while it is ready, another one has. */
  ghost predicate SomePeers(k: Kernel) {
    exists t, u :: Peers(k, t, u)
  }

  /** Tasks become ready, and nothing else happens that matters here. */
  ghost predicate OnlyReadies(k: Kernel, k': Kernel) {
    && k'.tasks.Keys == k.tasks.Keys && k'.running == k.running
    && (forall t :: t in k.tasks ==> Rank(k', t) == Rank(k, t) && (Awake(k, t) ==> Awake(k', t)))
  }

  lemma SomeReadiedIs(k: Kernel, k': Kernel, t: TaskId)
    requires Readied(k, k', t)
    ensures SomeReadied(k, k')
  {
  }

  lemma ReadiedInTwo(k: Kernel, k1: Kernel, k': Kernel)
    requires OnlyReadies(k, k1) && OnlyReadies(k1, k') && k.running in k.tasks
    ensures OnlyReadies(k, k')
    ensures SomeReadied(k, k') <==> SomeReadied(k, k1) || SomeReadied(k1, k')
    ensures SomePeers(k1) ==> SomePeers(k')
  {
    forall t ensures Readied(k, k', t) <==> Readied(k, k1, t) || Readied(k1, k', t) {}
    if SomePeers(k1) {
      var t, u :| Peers(k1, t, u);
      assert Peers(k', t, u);
    }
  }

  // ----- the unblocking loop

  /** A task whose time has come outranks the running one, or ranks as high. */
  predicate DueAbove(k: Kernel, t: TaskId) {
    t in k.tasks && k.tasks[t].state == k.delayed && k.tasks[t].wakeTime <= k.tick && Rank(k, t) >= Rank(k, k.running)
  }

  lemma {:induction false} WakeExpiredAnswer(k: Kernel, switchRequired: bool)
    requires Structure(k) && SleepersSorted(k)
    ensures WakeExpired(k, switchRequired).1 <==> switchRequired || exists t :: DueAbove(k, t)
    decreases |StateItems(k, k.delayed).items|
  {
    hide WakeHead, Structure, SleepersSorted, StateItems, DueAbove;
    NamesOf(k);
    var items := StateItems(k, k.delayed).items;
    if items != [] && k.tick >= TaskOf(k, items[0]).wakeTime {
      var t, k1 := items[0], WakeHead(k);
      WakeHeadWakes(k, t);
      WakeExpiredAnswer(k1, switchRequired || TaskOf(k1, t).priority >= TaskOf(k1, k1.running).priority);
      OneLessDue(k, t);
    } else {
      NobodyLeftToWake(k);
      NobodyDueAbove(k);
    }
  }

  lemma OneLessDue(k: Kernel, t: TaskId)
    requires Structure(k) && StateItems(k, k.delayed).items != [] && t == StateItems(k, k.delayed).items[0]
    requires k.tick >= TaskOf(k, t).wakeTime
    ensures var k1 := WakeHead(k);
      (exists u :: DueAbove(k, u)) <==> (exists u :: DueAbove(k1, u)) || Rank(k1, t) >= Rank(k1, k1.running)
  {
    hide WakeHead, Structure, StateItems;
    DelayedHead(k);
    NamesOf(k);
    WakeHeadFrame(k, t);
    var k1 := WakeHead(k);
    forall u ensures DueAbove(k, u) <==> DueAbove(k1, u) || (u == t && Rank(k1, t) >= Rank(k1, k.running)) {}
    if exists u :: DueAbove(k, u) {
      var u :| DueAbove(k, u);
      assert u != t ==> DueAbove(WakeHead(k), u);
    }
    if exists u :: DueAbove(WakeHead(k), u) {
      var u :| DueAbove(WakeHead(k), u);
      assert DueAbove(k, u);
    }
    assert Rank(WakeHead(k), t) >= Rank(WakeHead(k), k.running) ==> DueAbove(k, t);
  }

  lemma NobodyDueAbove(k: Kernel)
    requires forall t :: t in k.tasks ==> Woken(k, t) == k.tasks[t]
    requires !k.delayed.Ready?
    ensures forall t :: !DueAbove(k, t)
  {
    forall t ensures !DueAbove(k, t) {
      if t in k.tasks { assert Woken(k, t) == k.tasks[t]; }
    }
  }

  // ----- the tick

  /** A task was woken by a tick exactly if it was due. */
  lemma TickReadies(k: Kernel)
    requires Structure(k) && ClockExact(k)
    ensures var k1, k' := AdvanceTick(k), ProcessTick(k).0;
      && OnlyReadies(k, k') && k'.yieldPending == k.yieldPending
      && ((exists t :: DueAbove(k1, t)) <==> SomeReadied(k, k'))
  {
    hide ProcessTick, AdvanceTick, Structure, ClockExact, Woken;
    var k1, k' := AdvanceTick(k), ProcessTick(k).0;
    ProcessTickWakes(k);
    ProcessTickKeeps(k);
    AdvanceFrame(k);
    AdvanceTickKeeps(k);
    NamesOf(k1);
    NamesOf(k);
    forall t | t in k.tasks ensures Rank(k', t) == Rank(k, t) && (Awake(k, t) ==> Awake(k', t))
      && (DueAbove(k1, t) <==> Readied(k, k', t)) { WokenAnswer(k, k1, k', t); }
  }

  lemma WokenAnswer(k: Kernel, k1: Kernel, k': Kernel, t: TaskId)
    requires t in k.tasks && k.running in k.tasks && k1.tasks == k.tasks && k1.running == k.running == k'.running &&
      !k1.delayed.Ready?
    requires k'.tasks.Keys == k.tasks.Keys && k'.tasks[t] == Woken(k1, t) && k'.tasks[k.running] == Woken(k1, k.running)
    ensures Rank(k', t) == Rank(k, t) && (Awake(k, t) ==> Awake(k', t)) && (DueAbove(k1, t) <==> Readied(k, k', t))
  {
  }

  lemma TwoOnList(k: Kernel)
    requires Structure(k) && k.running in k.tasks
    ensures |StateItems(k, Ready(Rank(k, k.running))).items| > 1 <==> SomePeers(k)
  {
    var p := Rank(k, k.running);
    var items := StateItems(k, Ready(p)).items;
    if |items| > 1 {
      assert items[0] in items && items[1] in items && items[0] != items[1];
      assert Peers(k, items[0], items[1]);
    }
    if SomePeers(k) {
      var t, u :| Peers(k, t, u);
      assert t in items && u in items;
    }
  }

  /** What xTaskIncrementTick answers: while the scheduler runs, a switch is asked for exactly if
      one is pending already, a task that the tick readied ranks at least as high as the running
      one, or two ready tasks have its priority; while it is suspended, if one is pending. */
  lemma TickAnswer(k: Kernel)
    requires Structure(k) && ClockExact(k)
    ensures var (k', switchRequired) := IncrementTick(k);
      && OnlyReadies(k, k') && k'.yieldPending == k.yieldPending
      && (switchRequired <==>
            k.yieldPending || (k.schedulerSuspended == 0 && (SomeReadied(k, k') || SomePeers(k'))))
  {
    hide Structure, ClockExact, AdvanceTick, WakeExpired, StateItems;
    if k.schedulerSuspended == 0 {
      var k1 := AdvanceTick(k);
      AdvanceTickKeeps(k);
      AdvanceTickRefines(k);
      ProcessTickKeeps(k);
      NamesOf(k);
      TickReadies(k);
      TwoOnList(ProcessTick(k).0);
      WakeExpiredAnswer(k1, false);
      if k1.tick < k1.nextUnblock { NothingDue(k1); }
    }
  }

  lemma NothingDue(k: Kernel)
    requires UnblockTimeSafe(k) && k.tick < k.nextUnblock
    ensures forall t :: !DueAbove(k, t)
  {
  }

  // ----- resuming the scheduler

  lemma ReplayOnlyReadies(k: Kernel)
    requires Structure(k) && ClockExact(k) && k.schedulerSuspended == 0
    ensures OnlyReadies(k, ReplayTick(k))
    ensures ReplayTick(k).yieldPending <==> k.yieldPending || SomeReadied(k, ReplayTick(k)) || SomePeers(ReplayTick(k))
  {
    hide Structure, ClockExact, IncrementTick;
    TickAnswer(k);
    var k' := IncrementTick(k).0;
    FlagsDoNotMatter(k, k', ReplayTick(k));
  }

  lemma FlagsDoNotMatter(k: Kernel, k1: Kernel, k2: Kernel)
    requires k2.tasks == k1.tasks && k2.running == k1.running
    ensures OnlyReadies(k, k1) <==> OnlyReadies(k, k2)
    ensures OnlyReadies(k1, k) <==> OnlyReadies(k2, k)
    ensures SomeReadied(k, k1) <==> SomeReadied(k, k2)
    ensures SomeReadied(k1, k) <==> SomeReadied(k2, k)
    ensures SomePeers(k1) <==> SomePeers(k2)
  {
    forall t ensures Readied(k, k1, t) <==> Readied(k, k2, t) {}
    forall t ensures Readied(k1, k, t) <==> Readied(k2, k, t) {}
    forall t, u ensures Peers(k1, t, u) <==> Peers(k2, t, u) {}
  }

  /** What the replay of n pended ticks leaves pending. */
  lemma {:induction false} ReplayAnswer(k: Kernel, n: nat)
    requires Structure(k) && ClockExact(k) && k.schedulerSuspended == 0 && EventItems(k, Pending) == []
    ensures var k' := ReplayTicks(k, n);
      && OnlyReadies(k, k')
      && (k'.yieldPending <==> k.yieldPending || SomeReadied(k, k') || (n > 0 && SomePeers(k')))
    decreases n
  {
    hide Structure, ClockExact, ReplayTick, EventItems, SomeReadied, SomePeers, OnlyReadies;
    NamesOf(k);
    if n == 0 {
      NothingReadied(k);
    } else {
      var k1 := ReplayTick(k);
      ReplayOnlyReadies(k);
      ReplayTickKeeps(k);
      ReplayTickRefines(k);
      ReplayAnswer(k1, n - 1);
      ReadiedInTwo(k, k1, ReplayTicks(k1, n - 1));
      if n == 1 { NothingReadied(k1); }
    }
  }

  lemma NothingReadied(k: Kernel)
    ensures OnlyReadies(k, k) && !SomeReadied(k, k)
  {
  }

  lemma PendingHeadAnswer(k: Kernel)
    requires Structure(k) && EventItems(k, Pending) != []
    ensures var k' := ReadyPendingHead(k);
      OnlyReadies(k, k') && (k'.yieldPending <==> k.yieldPending || SomeReadied(k, k'))
  {
    hide Structure, EventItems, MakeReady;
    var t := EventItems(k, Pending)[0];
    var k1 := k.(events := k.events[Pending := EventItems(k, Pending)[1..]],
                 tasks := k.tasks[t := TaskOf(k, t).(event := Nowhere)]);
    PendingTask(k, t);
    AddToReadyListFrame(k1, t);
    NamesOf(k);
    var k' := ReadyPendingHead(k);
    forall u ensures Readied(k, k', u) <==> u == t && Rank(k', t) >= Rank(k', k'.running) {}
    if Rank(k', t) >= Rank(k', k'.running) { SomeReadiedIs(k, k', t); }
  }

  /** A task on the pending-ready list is not ready yet. */
  lemma PendingTask(k: Kernel, t: TaskId)
    requires Structure(k) && t in EventItems(k, Pending)
    ensures t in k.tasks && !k.tasks[t].state.Ready?
  {
    hide ListsExact, ReadyByPriority, BitmapExact, EventItems;
  }

  lemma {:induction false} PendingAnswer(k: Kernel)
    requires Structure(k)
    ensures var k' := ReadyPending(k);
      OnlyReadies(k, k') && (k'.yieldPending <==> k.yieldPending || SomeReadied(k, k'))
    decreases |EventItems(k, Pending)|
  {
    hide Structure, ReadyPendingHead, SomeReadied, OnlyReadies;
    NamesOf(k);
    if EventItems(k, Pending) == [] {
      NothingReadied(k);
    } else {
      var k1 := ReadyPendingHead(k);
      PendingHeadAnswer(k);
      ReadyPendingHeadKeeps(k);
      PendingAnswer(k1);
      ReadiedInTwo(k, k1, ReadyPending(k1));
    }
  }

  lemma AllPendingAnswer(k: Kernel)
    requires Structure(k)
    ensures var k' := ReadyAllPending(k);
      OnlyReadies(k, k') && (k'.yieldPending <==> k.yieldPending || SomeReadied(k, k'))
  {
    hide Structure, ReadyPending;
    NothingReadied(k);
    PendingAnswer(k);
    FlagsDoNotMatter(k, ReadyPending(k), ResetNextUnblock(ReadyPending(k)));
  }

  /** What xTaskResumeAll leaves pending once the scheduler runs, and answers: a switch is asked
      for exactly if one was pending, a task that it readied (because an event or a pended tick
      had woken it) ranks at least as high as the running one, or a tick was pended and two
      ready tasks have its priority. */
  lemma ResumeAnswer(k: Kernel)
    requires Invariant(k) && k.schedulerSuspended > 0
    ensures var k' := ResumeAll(k);
      && OnlyReadies(k, k')
      && (k'.yieldPending <==>
            k.yieldPending ||
            (k.schedulerSuspended == 1 && (SomeReadied(k, k') || (k.pendedTicks > 0 && SomePeers(k')))))
      && (k.schedulerSuspended > 1 ==> k'.tasks == k.tasks)
  {
    hide Structure, ClockExact, PendingDrained, ReadyAllPending, ReplayTicks, SomeReadied, SomePeers, OnlyReadies,
      EventItems;
    var k1 := k.(schedulerSuspended := k.schedulerSuspended - 1);
    NamesOf(k);
    NothingReadied(k);
    FlagsIrrelevant(k, k1);
    ClockIgnoresFlags(k, k1);
    FlagsDoNotMatter(k, k, k1);
    if k1.schedulerSuspended == 0 {
      var k2 := ReadyAllPending(k1);
      ReadyAllPendingKeeps(k1);
      ReadyAllPendingClock(k1);
      AllPendingAnswer(k1);
      ReplayAnswer(k2, k2.pendedTicks);
      var k3 := ReplayTicks(k2, k2.pendedTicks);
      ReadiedInTwo(k1, k2, k3);
      FlagsDoNotMatter(k3, k, k1);
      FlagsDoNotMatter(k, k3, ResumeAll(k));
      FlagsDoNotMatter(k1, k3, ResumeAll(k));
    }
  }

  // ----- no switch is missed

  /** The running task is ready and no ready task outranks it. */
  ghost predicate RunsHighest(k: Kernel) {
    Awake(k, k.running) && forall t :: Awake(k, t) ==> Rank(k, t) <= Rank(k, k.running)
  }

  /** The functions of tasks.c that yield, or tell their caller to: by their answer, or because the
      running task itself is no longer ready. */
  predicate Asks(k: Kernel, step: Step)
    requires Enabled(k, step)
  {
    match step
    case TickInterrupt => IncrementTick(k).1
    case Event(id) => Rank(k, EventItems(k, OnEvent(id))[0]) > Rank(k, k.running)
    case BitsSet(t, _) => Rank(k, t) > Rank(k, k.running)
    case SuspendStep(t) => t == k.running
    case Delete(t) => t == k.running
    case ResumeStep(t) => t != k.running && IsTaskSuspended(k, t) && Rank(k, t) >= Rank(k, k.running)
    case ResumeFromISR(t) =>
      IsTaskSuspended(k, t) && k.schedulerSuspended == 0 && Rank(k, t) >= Rank(k, k.running)
    case Create(_, p) => p > Rank(k, k.running)
    case PrioritySet(t, p) =>
      var base := TaskOf(k, t).basePriority;
      if t == k.running then p < base else p > base && p >= Rank(k, k.running)
    case GiveMutex => TaskOf(k, k.running).mutexesHeld == 1 && Rank(k, k.running) != TaskOf(k, k.running).basePriority
    case _ => IsBlockingStep(step)
  }

  /** A switch has been asked for since the last one. */
  function Asked(k: Kernel, asked: bool, step: Step): bool
    requires Enabled(k, step)
  {
    !step.ContextSwitch? && (asked || Asks(k, step))
  }

  function AskedAfter(k: Kernel, asked: bool, steps: seq<Step>): bool
    requires Runs(k, steps)
    decreases |steps|
  {
    if steps == [] then asked else AskedAfter(Apply(k, steps[0]), Asked(k, asked, steps[0]), steps[1..])
  }

  ghost predicate Served(k: Kernel, asked: bool) {
    asked || k.yieldPending || RunsHighest(k)
  }

  /** One task changed, and does not outrank the running one now. */
  lemma OneTaskServed(k: Kernel, k': Kernel, t: TaskId)
    requires RunsHighest(k) && k'.running == k.running
    requires forall u :: u != t ==> (u in k'.tasks <==> u in k.tasks) && (u in k.tasks ==> k'.tasks[u] == k.tasks[u])
    requires t == k.running ==> Awake(k', t) && Rank(k', t) >= Rank(k, t)
    requires Awake(k', t) ==> Rank(k', t) <= Rank(k', k.running)
    ensures RunsHighest(k')
  {
    forall u | Awake(k', u) ensures Rank(k', u) <= Rank(k', k'.running) {
      if u != t { assert Awake(k, u); }
    }
  }

  lemma NoneReadiedServed(k: Kernel, k': Kernel)
    requires RunsHighest(k) && OnlyReadies(k, k') && !SomeReadied(k, k')
    ensures RunsHighest(k')
  {
    forall t | Awake(k', t) ensures Rank(k', t) <= Rank(k', k'.running) {
      assert !Readied(k, k', t);
    }
  }

  lemma SameTasksServed(k: Kernel, k': Kernel)
    requires RunsHighest(k) && k'.tasks == k.tasks && k'.running == k.running
    ensures RunsHighest(k')
  {
    forall t | Awake(k', t) ensures Rank(k', t) <= Rank(k', k'.running) {
      assert Awake(k, t);
    }
  }

  lemma ClockServed(k: Kernel, step: Step)
    requires Invariant(k) && Enabled(k, step) && (step.TickInterrupt? || step.ResumeAllStep?)
    ensures k.yieldPending ==> Apply(k, step).yieldPending
    ensures RunsHighest(k) && !Asks(k, step) ==> Apply(k, step).yieldPending || RunsHighest(Apply(k, step))
  {
    hide Structure, ClockExact, PendingDrained, IncrementTick, ResumeAll, RunsHighest, OnlyReadies, SomeReadied,
      SomePeers;
    var k' := Apply(k, step);
    if step.TickInterrupt? {
      TickAnswer(k);
      if k.schedulerSuspended != 0 { PendedTick(k); }
    } else {
      ResumeAnswer(k);
    }
    if RunsHighest(k) {
      if k'.tasks == k.tasks { AllTheSame(k, k'); SameTasksServed(k, k'); }
      else if !SomeReadied(k, k') { NoneReadiedServed(k, k'); }
    }
  }

  lemma AllTheSame(k: Kernel, k': Kernel)
    requires OnlyReadies(k, k')
    ensures k'.running == k.running
  {
  }

  lemma PendedTick(k: Kernel)
    requires k.schedulerSuspended != 0
    ensures IncrementTick(k).0.tasks == k.tasks
  {
    hide ProcessTick;
  }

  /** One task is woken, or joins the pending-ready list. */
  lemma WokenOrPended(k: Kernel, t: TaskId)
    requires t in k.tasks
    ensures var k' := WakeOrPend(k, t);
      && k'.running == k.running && k'.yieldPending == k.yieldPending
      && k'.tasks == k.tasks[t := k'.tasks[t]] && Rank(k', t) == Rank(k, t)
      && (k.schedulerSuspended != 0 ==> k'.tasks[t].state == k.tasks[t].state)
  {
    AddToReadyListFrame(k, t);
    hide MakeReady;
  }

  /** Only t changes, its priority does not, and the step yields if t outranks the running task. */
  ghost predicate WokenByEvent(k: Kernel, k': Kernel, t: TaskId) {
    && t in k.tasks && t in k'.tasks && k'.tasks == k.tasks[t := k'.tasks[t]] && k'.running == k.running
    && Rank(k', t) == Rank(k, t)
    && (k'.yieldPending <==> k.yieldPending || Rank(k, t) > Rank(k, k.running))
  }

  lemma WokenServed(k: Kernel, k': Kernel, t: TaskId)
    requires WokenByEvent(k, k', t) && t != k.running
    ensures RunsHighest(k) && Rank(k, t) <= Rank(k, k.running) ==> RunsHighest(k')
  {
    if RunsHighest(k) && Rank(k, t) <= Rank(k, k.running) { OneTaskServed(k, k', t); }
  }

  lemma EventServed(k: Kernel, id: nat)
    requires Structure(k) && EventItems(k, OnEvent(id)) != []
    ensures var k' := RemoveFromEventList(k, id);
      var t := EventItems(k, OnEvent(id))[0];
      && (k'.yieldPending <==> k.yieldPending || Rank(k, t) > Rank(k, k.running))
      && (RunsHighest(k) && Rank(k, t) <= Rank(k, k.running) ==> RunsHighest(k'))
  {
    EventHeadBlocked(k, id);
    NamesOf(k);
    hide Structure, EventItems, RunsHighest, RemoveFromEventList, WokenByEvent;
    var t := EventItems(k, OnEvent(id))[0];
    EventWakes(k, id);
    if t == k.running {
      RunningIsAwakeIf(k);
      WokenYields(k, RemoveFromEventList(k, id), t);
    } else {
      WokenServed(k, RemoveFromEventList(k, id), t);
      WokenYields(k, RemoveFromEventList(k, id), t);
    }
  }

  lemma EventWakes(k: Kernel, id: nat)
    requires EventItems(k, OnEvent(id)) != [] && EventItems(k, OnEvent(id))[0] in k.tasks && k.running in k.tasks
    ensures WokenByEvent(k, RemoveFromEventList(k, id), EventItems(k, OnEvent(id))[0])
  {
    hide EventItems, RemoveEvent, WakeOrPend;
    var t := EventItems(k, OnEvent(id))[0];
    RemoveEventFrame(k, t);
    WokenOrPended(RemoveEvent(k, t), t);
  }

  lemma WokenYields(k: Kernel, k': Kernel, t: TaskId)
    requires WokenByEvent(k, k', t)
    ensures k'.yieldPending <==> k.yieldPending || Rank(k, t) > Rank(k, k.running)
  {
  }

  lemma RunningIsAwakeIf(k: Kernel)
    ensures RunsHighest(k) ==> Awake(k, k.running)
  {
  }

  lemma RunningIsAwake(k: Kernel)
    requires RunsHighest(k)
    ensures Awake(k, k.running)
  {
  }

  lemma BitsServed(k: Kernel, t: TaskId, value: Tick)
    requires Structure(k) && t in k.tasks && k.tasks[t].event.OnEvent?
    ensures var k' := RemoveFromUnorderedEventList(k, t, value);
      && (k'.yieldPending <==> k.yieldPending || Rank(k, t) > Rank(k, k.running))
      && (RunsHighest(k) && Rank(k, t) <= Rank(k, k.running) ==> RunsHighest(k'))
  {
    NamesOf(k);
    WaiterIsBlocked(k, t);
    hide Structure, RunsHighest, RemoveFromUnorderedEventList, WokenByEvent;
    BitsWake(k, t, value);
    RunningIsAwakeIf(k);
    WokenYields(k, RemoveFromUnorderedEventList(k, t, value), t);
    if t != k.running { WokenServed(k, RemoveFromUnorderedEventList(k, t, value), t); }
  }

  lemma WaiterIsBlocked(k: Kernel, t: TaskId)
    requires Structure(k) && t in k.tasks && k.tasks[t].event != Nowhere
    ensures !Awake(k, t)
  {
    hide ListsExact, EventsExact, ReadyByPriority, BitmapExact, IdleReady;
  }

  lemma BitsWake(k: Kernel, t: TaskId, value: Tick)
    requires t in k.tasks && k.running in k.tasks
    ensures WokenByEvent(k, RemoveFromUnorderedEventList(k, t, value), t)
  {
    hide RemoveEvent, MakeReady, MarkedInUse;
    var k0 := k.(tasks := k.tasks[t := TaskOf(k, t).(eventValue := MarkedInUse(value))]);
    var k1 := RemoveEvent(k0, t);
    RemoveEventFrame(k0, t);
    AddToReadyListFrame(k1, t);
  }

  /** Another task is suspended or deleted. */
  lemma RemovedServed(k: Kernel, t: TaskId)
    requires Structure(k) && t in k.tasks && t != k.running && t != k.idle
    ensures var k' := SuspendTask(k, t);
      k'.yieldPending == k.yieldPending && (RunsHighest(k) ==> RunsHighest(k'))
    ensures var k' := DeleteTask(k, t);
      k'.yieldPending == k.yieldPending && (RunsHighest(k) ==> RunsHighest(k'))
  {
    OffFrame(k, t);
    hide Structure, TakeOffStateList, RemoveEvent, InsertEnd, StateItems, RunsHighest;
    if RunsHighest(k) {
      OneTaskServed(k, SuspendTask(k, t), t);
      OneTaskServed(k, DeleteTask(k, t), t);
    }
  }

  lemma OffFrame(k: Kernel, t: TaskId)
    requires t in k.tasks
    ensures var k1 := RemoveEvent(TakeOffStateList(k, t), t);
      && k1.tasks == k.tasks[t := k.tasks[t].(event := Nowhere)] && k1.running == k.running
      && k1.yieldPending == k.yieldPending
  {
    hide StateItems, Unlist, RemoveEvent;
    RemoveEventFrame(TakeOffStateList(k, t), t);
  }

  lemma ReadiedServed(k: Kernel, t: TaskId)
    requires RunsHighest(k) && t in k.tasks && t != k.running && Rank(k, t) <= Rank(k, k.running)
    ensures RunsHighest(MakeReady(k, t))
  {
    AddToReadyListFrame(k, t);
    hide MakeReady;
    OneTaskServed(k, MakeReady(k, t), t);
  }

  lemma ResumedServed(k: Kernel, t: TaskId)
    requires t in k.tasks
    ensures ResumeTask(k, t).yieldPending == k.yieldPending && ResumeTaskFromISR(k, t).yieldPending == k.yieldPending
    ensures RunsHighest(k) && !Asks(k, ResumeStep(t)) ==> RunsHighest(ResumeTask(k, t))
    ensures RunsHighest(k) && !Asks(k, ResumeFromISR(t)) ==> RunsHighest(ResumeTaskFromISR(k, t))
  {
    hide MakeReady, RunsHighest;
    AddToReadyListFrame(k, t);
    if RunsHighest(k) {
      RunningIsAwake(k);
      if IsTaskSuspended(k, t) {
        if Rank(k, t) <= Rank(k, k.running) { ReadiedServed(k, t); }
        if k.schedulerSuspended != 0 { OneTaskServed(k, ResumeTaskFromISR(k, t), t); }
      }
    }
  }

  lemma CreatedServed(k: Kernel, t: TaskId, p: Priority)
    requires t !in k.tasks
    ensures CreateTask(k, t, p).yieldPending == k.yieldPending
    ensures RunsHighest(k) && p <= Rank(k, k.running) ==> RunsHighest(CreateTask(k, t, p))
  {
    CreateShape(k, t, p, Suspended);
    hide CreateTask;
    if RunsHighest(k) && p <= Rank(k, k.running) { OneTaskServed(k, CreateTask(k, t, p), t); }
  }

  /** A task of which only the priorities change. */
  lemma RerankedServed(k: Kernel, t: TaskId, task: Tcb, p: Priority)
    requires t in k.tasks && task.state == k.tasks[t].state
    ensures var k' := ChangePriority(k.(tasks := k.tasks[t := task]), t, p);
      && k'.yieldPending == k.yieldPending
      && (RunsHighest(k) && (if t == k.running then p >= Rank(k, t) else p <= Rank(k, k.running) || p <= Rank(k, t))
          ==> RunsHighest(k'))
  {
    ChangePriorityFrame(k.(tasks := k.tasks[t := task]), t, p);
    hide ChangePriority;
    var k' := ChangePriority(k.(tasks := k.tasks[t := task]), t, p);
    if RunsHighest(k) && (if t == k.running then p >= Rank(k, t) else p <= Rank(k, k.running) || p <= Rank(k, t)) {
      if Awake(k', t) { assert Awake(k, t); }
      OneTaskServed(k, k', t);
    }
  }

  lemma PrioritySetServed(k: Kernel, t: TaskId, p: Priority)
    requires Enabled(k, PrioritySet(t, p))
    ensures SetPriority(k, t, p).yieldPending == k.yieldPending
    ensures RunsHighest(k) && !Asks(k, PrioritySet(t, p)) ==> RunsHighest(SetPriority(k, t, p))
  {
    hide ChangePriority, RunsHighest;
    var task := k.tasks[t];
    RerankedServed(k, t, WithEventValueFor(task.(basePriority := p), p),
      if task.basePriority == task.priority then p else task.priority);
    if RunsHighest(k) && Awake(k, t) { RankBound(k, t); }
  }

  lemma GiveServed(k: Kernel)
    requires Enabled(k, GiveMutex) && k.running in k.tasks
    ensures DisinheritPriority(k).yieldPending == k.yieldPending
    ensures RunsHighest(k) && !Asks(k, GiveMutex) ==> RunsHighest(DisinheritPriority(k))
  {
    hide ChangePriority, RunsHighest;
    var task := MutexGiven(k);
    RerankedServed(k, k.running, task.(eventValue := MAX_PRIORITIES - task.basePriority), task.basePriority);
    RunningIsAwakeIf(k);
    if RunsHighest(k) && !Asks(k, GiveMutex) { OneTaskServed(k, DisinheritPriority(k), k.running); }
  }

  lemma RanksServed(k: Kernel, step: Step)
    requires Enabled(k, step) && k.running in k.tasks
    requires step.PrioritySet? || step.Inherit? || step.TakeMutex? || step.GiveMutex? || step.ResetEventValue?
    ensures Apply(k, step).yieldPending == k.yieldPending
    ensures RunsHighest(k) && !Asks(k, step) ==> RunsHighest(Apply(k, step))
  {
    hide ChangePriority, RunsHighest, SetPriority, DisinheritPriority;
    RunningIsAwakeIf(k);
    match step {
      case PrioritySet(t, p) => PrioritySetServed(k, t, p);
      case Inherit(h) =>
        RerankedServed(k, h, WithEventValueFor(k.tasks[h], Rank(k, k.running)), Rank(k, k.running));
      case GiveMutex => GiveServed(k);
      case TakeMutex =>
        if RunsHighest(k) { OneTaskServed(k, IncrementMutexHeld(k), k.running); }
      case ResetEventValue =>
        if RunsHighest(k) { OneTaskServed(k, ResetEventItemValue(k), k.running); }
    }
  }

  lemma RankBound(k: Kernel, t: TaskId)
    requires RunsHighest(k) && Awake(k, t)
    ensures Rank(k, t) <= Rank(k, k.running)
  {
  }

  lemma SwitchServed(k: Kernel)
    requires Invariant(k)
    ensures SwitchContext(k).yieldPending || RunsHighest(SwitchContext(k))
  {
    if k.schedulerSuspended == 0 {
      SwitchContextSelectsHighest(k);
      hide SwitchContext, Invariant;
    }
  }

  /** What a step does to the request, or to the reason there is none. */
  ghost predicate Serves(k: Kernel, step: Step)
    requires Enabled(k, step)
  {
    var k' := Apply(k, step);
    && (k.yieldPending ==> k'.yieldPending)
    && (RunsHighest(k) && !Asks(k, step) ==> k'.yieldPending || RunsHighest(k'))
  }

  lemma EventsServe(k: Kernel, step: Step)
    requires Structure(k) && Enabled(k, step) && (step.Event? || step.BitsSet?)
    ensures Serves(k, step)
  {
    hide Structure, RunsHighest, RemoveFromEventList, RemoveFromUnorderedEventList, EventItems;
    match step
    case Event(id) => EventServed(k, id);
    case BitsSet(t, value) => BitsServed(k, t, value);
  }

  lemma TasksServe(k: Kernel, step: Step)
    requires Structure(k) && Enabled(k, step)
    requires step.SuspendStep? || step.Delete? || step.ResumeStep? || step.ResumeFromISR? || step.Create?
    ensures Serves(k, step)
  {
    hide Structure, RunsHighest, SuspendTask, DeleteTask, ResumeTask, ResumeTaskFromISR, CreateTask;
    match step
    case SuspendStep(t) => if t != k.running { RemovedServed(k, t); } else { LeavesYield(k, t); }
    case Delete(t) => if t != k.running { RemovedServed(k, t); } else { LeavesYield(k, t); }
    case ResumeStep(t) => ResumedServed(k, t);
    case ResumeFromISR(t) => ResumedServed(k, t);
    case Create(t, p) => CreatedServed(k, t, p);
  }

  lemma LeavesYield(k: Kernel, t: TaskId)
    requires t in k.tasks
    ensures SuspendTask(k, t).yieldPending == k.yieldPending && DeleteTask(k, t).yieldPending == k.yieldPending
  {
    OffFrame(k, t);
    hide TakeOffStateList, RemoveEvent, InsertEnd, StateItems;
  }

  lemma RanksServe(k: Kernel, step: Step)
    requires Enabled(k, step) && k.running in k.tasks
    requires step.PrioritySet? || step.Inherit? || step.TakeMutex? || step.GiveMutex? || step.ResetEventValue?
    ensures Serves(k, step)
  {
    RanksServed(k, step);
    hide RunsHighest, Apply, Asks;
  }

  lemma ClockServes(k: Kernel, step: Step)
    requires Invariant(k) && Enabled(k, step) && (step.TickInterrupt? || step.ResumeAllStep?)
    ensures Serves(k, step)
  {
    ClockServed(k, step);
    hide RunsHighest, Apply, Asks;
  }

  lemma OthersServe(k: Kernel, step: Step)
    requires Invariant(k) && Enabled(k, step) && (IsBlockingStep(step) || step.SuspendAll? || step.ResetUnblockTime?)
    ensures Serves(k, step)
  {
    hide Invariant, RunsHighest, DelayCurrent, Insert, SortedPosition, EventValues, EventItems;
    if IsBlockingStep(step) {
      BlockingLeavesYield(k, step);
    } else if RunsHighest(k) {
      SameTasksServed(k, Apply(k, step));
    }
  }

  lemma BlockingLeavesYield(k: Kernel, step: Step)
    requires Enabled(k, step) && IsBlockingStep(step)
    ensures Apply(k, step).yieldPending == k.yieldPending
  {
    hide DelayCurrent, Insert, SortedPosition, EventValues, StateItems, DelayAllowed, MarkedInUse, EventItems;
    match step
    case Delay(ticks) => DelayLeavesYield(k, ticks, false);
    case WaitForEvent(id, ticks) =>
      var items := EventItems(k, OnEvent(id));
      var p := SortedPosition(EventValues(k, items), TaskOf(k, k.running).eventValue);
      DelayLeavesYield(k.(events := k.events[OnEvent(id) := Insert(items, p, k.running)],
                          tasks := k.tasks[k.running := TaskOf(k, k.running).(event := OnEvent(id))]), ticks, true);
    case WaitForBits(id, value, ticks) =>
      var k1 := k.(tasks := k.tasks[k.running := TaskOf(k, k.running).(eventValue := MarkedInUse(value))]);
      DelayLeavesYield(AppendEvent(k1, OnEvent(id), k.running), ticks, true);
    case WaitRestricted(id, ticks, indefinitely) =>
      DelayLeavesYield(AppendEvent(k, OnEvent(id), k.running), if indefinitely then MAX_DELAY else ticks, indefinitely);
  }

  lemma DelayLeavesYield(k: Kernel, ticks: Tick, canBlockIndefinitely: bool)
    ensures DelayCurrent(k, ticks, canBlockIndefinitely).yieldPending == k.yieldPending
  {
    DelayCurrentFrame(k, ticks, canBlockIndefinitely);
    DelayCurrentFrame(LeaveReady(k), ticks, canBlockIndefinitely);
    hide FileDelayed, LeaveReady;
  }

  lemma StepServes(k: Kernel, step: Step)
    requires Invariant(k) && Enabled(k, step) && !step.ContextSwitch?
    ensures Serves(k, step)
  {
    InvariantNames(k);
    hide Invariant, Serves, Enabled;
    if step.TickInterrupt? || step.ResumeAllStep? { ClockServes(k, step); }
    else if step.Event? || step.BitsSet? { EventsServe(k, step); }
    else if step.SuspendStep? || step.Delete? || step.ResumeStep? || step.ResumeFromISR? || step.Create? {
      TasksServe(k, step);
    } else if IsBlockingStep(step) || step.SuspendAll? || step.ResetUnblockTime? { OthersServe(k, step); }
    else { RanksServe(k, step); }
  }

  lemma StepServed(k: Kernel, asked: bool, step: Step)
    requires Invariant(k) && Enabled(k, step) && Served(k, asked)
    ensures Served(Apply(k, step), Asked(k, asked, step))
  {
    hide Invariant, RunsHighest, Apply, Asks, Enabled;
    if step.ContextSwitch? {
      SwitchApplies(k);
      SwitchServed(k);
    } else {
      StepServes(k, step);
    }
  }

  lemma SwitchApplies(k: Kernel)
    ensures Enabled(k, ContextSwitch) && Apply(k, ContextSwitch) == SwitchContext(k)
  {
    hide SwitchContext;
  }

  lemma InvariantNames(k: Kernel)
    requires Invariant(k)
    ensures Structure(k) && k.running in k.tasks
  {
    hide ListsExact, EventsExact, ReadyByPriority, BitmapExact, WaitersBlocked, ClockExact, PendingDrained;
  }

  lemma {:induction false} RunServed(k: Kernel, asked: bool, steps: seq<Step>)
    requires Invariant(k) && Served(k, asked) && Runs(k, steps)
    ensures Served(After(k, steps), AskedAfter(k, asked, steps))
    decreases |steps|
  {
    hide Invariant, Apply, Served, Asked;
    if steps != [] {
      StepServed(k, asked, steps[0]);
      StepKeepsInvariant(k, steps[0]);
      RunServed(Apply(k, steps[0]), Asked(k, asked, steps[0]), steps[1..]);
    }
  }

  /** Over every run: unless a switch is pending or has been asked for since the last one, the
      running task is ready and no ready task has a higher priority. */
  lemma NoSwitchMissed(idle: TaskId, steps: seq<Step>)
    requires Runs(InitialKernel(idle), steps)
    ensures var k := After(InitialKernel(idle), steps);
      AskedAfter(InitialKernel(idle), false, steps) || k.yieldPending || RunsHighest(k)
  {
    InitialInvariant(idle);
    InitialServed(idle);
    hide Invariant, InitialKernel, RunsHighest;
    RunServed(InitialKernel(idle), false, steps);
  }

  lemma InitialServed(idle: TaskId)
    ensures Served(InitialKernel(idle), false)
  {
  }

  /** Over every run: what the tick function answers. */
  lemma TickAnswersAlways(idle: TaskId, steps: seq<Step>)
    requires Runs(InitialKernel(idle), steps) && After(InitialKernel(idle), steps).schedulerSuspended == 0
    ensures var k := After(InitialKernel(idle), steps);
      var (k', switchRequired) := IncrementTick(k);
      switchRequired <==> k.yieldPending || SomeReadied(k, k') || SomePeers(k')
  {
    InitialInvariant(idle);
    RunKeepsInvariant(InitialKernel(idle), steps);
    hide Runs, After, InitialKernel, IncrementTick, Structure, ClockExact;
    TickAnswer(After(InitialKernel(idle), steps));
  }

  /** While the running task is ready, two peers means another ready task of its priority. */
  lemma PeersOfRunning(k: Kernel)
    requires Awake(k, k.running)
    ensures SomePeers(k) <==> exists t :: t != k.running && Awake(k, t) && Rank(k, t) == Rank(k, k.running)
  {
    if t :| t != k.running && Awake(k, t) && Rank(k, t) == Rank(k, k.running) { assert Peers(k, t, k.running); }
    if SomePeers(k) {
      var t, u :| Peers(k, t, u);
      var v := if t == k.running then u else t;
      assert v != k.running && Awake(k, v) && Rank(k, v) == Rank(k, k.running);
    }
  }
}
