/** What waking, resuming and suspending lead to; no wake-up is lost while the scheduler is suspended. */
module KernelWakes {
  import opened Ticks
  import opened ReadyBits
  import opened ListSpec
  import opened KernelSpec
  import opened KernelInvariant
  import opened KernelClock
  import opened KernelRuns
  import opened Preemption

  predicate IsPending(k: Kernel, t: TaskId) {
    t in k.tasks && k.tasks[t].event == Pending
  }

  /** Suspended by vTaskSuspend, or by a wait without a block time that waits for nothing any more. */
  predicate ReallySuspended(k: Kernel, t: TaskId) {
    t in k.tasks && k.tasks[t].state == Suspended && k.tasks[t].event == Nowhere
  }

  ghost predicate OthersSame(k: Kernel, k': Kernel, t: TaskId) {
    k'.running == k.running && forall u :: u != t ==>
      (u in k'.tasks <==> u in k.tasks) && (u in k.tasks ==> k'.tasks[u] == k.tasks[u])
  }

  /** vTaskResume makes a task ready exactly if it was already, or it is suspended and not the
      running one; nobody else is touched. */
  lemma ResumeWakesIff(k: Kernel, t: TaskId)
    requires t in k.tasks
    ensures var k' := ResumeTask(k, t);
      && (Awake(k', t) <==> Awake(k, t) || (t != k.running && ReallySuspended(k, t)))
      && OthersSame(k, k', t) && Rank(k', t) == Rank(k, t)
  {
    AddToReadyListFrame(k, t);
    hide MakeReady;
  }

  /** xTaskResumeFromISR makes a suspended task ready, or pending while the scheduler is suspended. */
  lemma ResumeFromISRWakesIff(k: Kernel, t: TaskId)
    requires t in k.tasks
    ensures var k' := ResumeTaskFromISR(k, t);
      && (Awake(k', t) <==> Awake(k, t) || (k.schedulerSuspended == 0 && ReallySuspended(k, t)))
      && (IsPending(k', t) <==> IsPending(k, t) || (k.schedulerSuspended > 0 && ReallySuspended(k, t)))
      && OthersSame(k, k', t) && Rank(k', t) == Rank(k, t)
  {
    AddToReadyListFrame(k, t);
    hide MakeReady;
  }

  /** An event makes the first waiter ready, or pending while the scheduler is suspended. */
  lemma EventWakesIff(k: Kernel, id: nat)
    requires Structure(k) && EventItems(k, OnEvent(id)) != []
    ensures var k', t := RemoveFromEventList(k, id), EventItems(k, OnEvent(id))[0];
      && (Awake(k', t) <==> k.schedulerSuspended == 0) && (IsPending(k', t) <==> k.schedulerSuspended > 0)
      && OthersSame(k, k', t) && Rank(k', t) == Rank(k, t)
  {
    EventHeadWaits(k, id);
    hide Structure, EventItems, RemoveEvent, WakeOrPend, OthersSame, Awake, IsPending;
    var t := EventItems(k, OnEvent(id))[0];
    var k1, k' := RemoveEvent(k, t), RemoveFromEventList(k, id);
    RemoveEventFrame(k, t);
    WakeOrPendIff(k1, t);
    OnlyTaskChanged(k, k1, t);
    OthersSameTrans(k, k1, WakeOrPend(k1, t), t);
    OnlyYields(WakeOrPend(k1, t), k', t);
    OthersSameTrans(k, WakeOrPend(k1, t), k', t);
  }

  lemma OnlyTaskChanged(k: Kernel, k': Kernel, t: TaskId)
    requires t in k.tasks && t in k'.tasks && k'.tasks == k.tasks[t := k'.tasks[t]] && k'.running == k.running
    ensures OthersSame(k, k', t)
  {
  }

  lemma OthersSameTrans(k: Kernel, k1: Kernel, k2: Kernel, t: TaskId)
    requires OthersSame(k, k1, t) && OthersSame(k1, k2, t)
    ensures OthersSame(k, k2, t)
  {
  }

  lemma OnlyYields(k: Kernel, k': Kernel, t: TaskId)
    requires k'.tasks == k.tasks && k'.running == k.running
    ensures OthersSame(k, k', t) && Rank(k', t) == Rank(k, t)
    ensures (Awake(k', t) <==> Awake(k, t)) && (IsPending(k', t) <==> IsPending(k, t))
  {
  }

  lemma WakeOrPendIff(k: Kernel, t: TaskId)
    requires t in k.tasks && !k.tasks[t].state.Ready? && k.tasks[t].event == Nowhere
    ensures var k' := WakeOrPend(k, t);
      && (Awake(k', t) <==> k.schedulerSuspended == 0) && (IsPending(k', t) <==> k.schedulerSuspended > 0)
      && OthersSame(k, k', t) && Rank(k', t) == Rank(k, t)
  {
    AddToReadyListFrame(k, t);
    hide MakeReady;
  }

  lemma EventHeadWaits(k: Kernel, id: nat)
    requires Structure(k) && EventItems(k, OnEvent(id)) != []
    ensures var t := EventItems(k, OnEvent(id))[0];
      t in k.tasks && k.tasks[t].event == OnEvent(id) && !k.tasks[t].state.Ready?
  {
    EventHeadBlocked(k, id);
    assert EventItems(k, OnEvent(id))[0] in EventItems(k, OnEvent(id));
    hide ListsExact, ReadyByPriority, BitmapExact, WaitersBlocked;
  }

  /** A task that deletes itself stays until the idle task removes it; any other is gone at once. */
  lemma DeletedIs(k: Kernel, t: TaskId)
    requires t in k.tasks
    ensures var k' := DeleteTask(k, t);
      && (t in k'.tasks <==> t == k.running) && !Awake(k', t)
      && (t == k.running ==> k'.tasks[t].state == Termination && k'.tasks[t].event == Nowhere)
      && OthersSame(k, k', t)
  {
    OffFrame(k, t);
    hide StateItems, TakeOffStateList, RemoveEvent, InsertEnd;
  }

  // ----- no wake-up is lost

  /** The pending tasks are made ready. */
  lemma {:induction false} PendingReadied(k: Kernel, t: TaskId)
    requires Structure(k) && t in EventItems(k, Pending)
    ensures Awake(ReadyPending(k), t)
    decreases |EventItems(k, Pending)|
  {
    hide Structure, ReadyPendingHead, EventItems, OnlyReadies;
    var k1, head := ReadyPendingHead(k), EventItems(k, Pending)[0];
    ReadyPendingHeadKeeps(k);
    PendingAnswer(k1);
    if t == head {
      HeadReadied(k);
      OnlyReadiesWakes(k1, ReadyPending(k1), t);
    } else {
      PendingReadied(k1, t);
    }
  }

  lemma OnlyReadiesWakes(k: Kernel, k': Kernel, t: TaskId)
    requires OnlyReadies(k, k') && Awake(k, t)
    ensures Awake(k', t)
  {
  }

  lemma HeadReadied(k: Kernel)
    requires EventItems(k, Pending) != []
    ensures Awake(ReadyPendingHead(k), EventItems(k, Pending)[0])
  {
    var t := EventItems(k, Pending)[0];
    var k1 := k.(events := k.events[Pending := EventItems(k, Pending)[1..]],
                 tasks := k.tasks[t := TaskOf(k, t).(event := Nowhere)]);
    AddToReadyListFrame(k1, t);
    hide MakeReady, EventItems;
  }

  lemma PendingListed(k: Kernel, t: TaskId)
    requires Structure(k) && IsPending(k, t)
    ensures t in EventItems(k, Pending) && !k.tasks[t].state.Ready?
  {
    hide ListsExact, ReadyByPriority, BitmapExact;
  }

  /** xTaskResumeAll makes every pending task ready once the scheduler runs again. */
  lemma ResumeAllServes(k: Kernel, t: TaskId)
    requires Invariant(k) && k.schedulerSuspended == 1 && IsPending(k, t)
    ensures Awake(ResumeAll(k), t)
  {
    PendingListed(k, t);
    hide Structure, ClockExact, ReadyPending, ReplayTicks, EventItems, OnlyReadies;
    var k1 := k.(schedulerSuspended := 0);
    PendingStays(k, k1);
    FlagsIrrelevant(k, k1);
    ClockIgnoresFlags(k, k1);
    PendingReadied(k1, t);
    ReadyAllPendingKeeps(k1);
    ReadyAllPendingClock(k1);
    var k2 := ReadyAllPending(k1);
    assert Awake(k2, t);
    hide ReadyAllPending;
    ReplayAnswer(k2, k2.pendedTicks);
    OnlyReadiesWakes(k2, ReplayTicks(k2, k2.pendedTicks), t);
  }

  /** Another task takes t out of the kernel's hands. */
  predicate Removes(step: Step, t: TaskId) {
    (step.SuspendStep? || step.Delete?) && step.t == t
  }

  lemma PendingSuspends(k: Kernel, t: TaskId)
    requires Invariant(k) && IsPending(k, t)
    ensures k.schedulerSuspended > 0 && DelayedNames(k) && k.delayed != k.overflowDelayed && k.running in k.tasks
  {
    PendingListed(k, t);
    NamesOf(k);
    hide Structure, ClockExact, EventItems;
  }

  lemma PendingThroughTaskStep(k: Kernel, step: Step, t: TaskId)
    requires Invariant(k) && Enabled(k, step) && IsPending(k, t) && IsTaskStep(step) && !Removes(step, t)
    ensures IsPending(Apply(k, step), t)
  {
    hide *;
    var k' := Apply(k, step);
    PendingListed(k, t) by { InvariantNames(k); }
    TaskSteps(k, step);
    KeptGives(k, k', Touched(k, step));
    if t in Touched(k, step) {
      InvariantNames(k);
      PendingStepKinds(k, step, t);
      PendingTouched(k, step, t);
    } else {
      PendingUndisturbed(k, k', Touched(k, step), t);
    }
  }

  lemma PendingUndisturbed(k: Kernel, k': Kernel, touched: set<TaskId>, t: TaskId)
    requires Undisturbed(k, k', touched) && t !in touched && IsPending(k, t)
    ensures IsPending(k', t)
  {
  }

  lemma PendingStepKinds(k: Kernel, step: Step, t: TaskId)
    requires Structure(k) && Enabled(k, step) && IsTaskStep(step) && !Removes(step, t) && IsPending(k, t)
    requires t in Touched(k, step)
    ensures step.PrioritySet? || step.Inherit? || step.ResumeStep? || step.ResumeFromISR? || step.TakeMutex? ||
      step.GiveMutex? || step.ResetEventValue?
  {
    if step.Event? { EventHeadWaits(k, step.id); }
    hide Structure, EventItems;
  }

  lemma PendingTouched(k: Kernel, step: Step, t: TaskId)
    requires Enabled(k, step) && IsPending(k, t) && !k.tasks[t].state.Ready? && t in Touched(k, step)
    requires step.PrioritySet? || step.Inherit? || step.ResumeStep? || step.ResumeFromISR? || step.TakeMutex? ||
      step.GiveMutex? || step.ResetEventValue?
    ensures IsPending(Apply(k, step), t)
  {
    hide SetPriority, InheritPriority, DisinheritPriority, IncrementMutexHeld, ResetEventItemValue, EventItems,
      IsPending, MakeReady, IsTaskSuspended;
    if step.ResumeStep? || step.ResumeFromISR? {
      NotReallySuspended(k, t);
    } else {
      PendingRanked(k, t, if step.PrioritySet? then step.p else 0);
    }
  }

  lemma PendingRanked(k: Kernel, t: TaskId, p: Priority)
    requires IsPending(k, t) && !k.tasks[t].state.Ready?
    ensures IsPending(SetPriority(k, t, p), t) && IsPending(InheritPriority(k, t), t)
    ensures t == k.running ==>
      IsPending(DisinheritPriority(k), t) && IsPending(IncrementMutexHeld(k), t) && IsPending(ResetEventItemValue(k), t)
  {
    PriorityUnmoved(k, t, p);
    hide SetPriority, InheritPriority, DisinheritPriority, IncrementMutexHeld, ResetEventItemValue, Unmoved, IsPending;
    PendingUnmoved(k, SetPriority(k, t, p), t);
    PendingUnmoved(k, InheritPriority(k, t), t);
    PendingUnmoved(k, DisinheritPriority(k), t);
    PendingUnmoved(k, IncrementMutexHeld(k), t);
    PendingUnmoved(k, ResetEventItemValue(k), t);
  }

  lemma PendingUnmoved(k: Kernel, k': Kernel, t: TaskId)
    requires IsPending(k, t)
    ensures Unmoved(k, k', t) ==> IsPending(k', t)
  {
  }

  lemma NotReallySuspended(k: Kernel, t: TaskId)
    requires IsPending(k, t)
    ensures t in k.tasks && !IsTaskSuspended(k, t)
  {
  }

  lemma PendingThroughBlocking(k: Kernel, step: Step, t: TaskId)
    requires Invariant(k) && Enabled(k, step) && IsPending(k, t) && IsBlockingStep(step)
    ensures IsPending(Apply(k, step), t)
  {
    PendingListed(k, t);
    PendingSuspends(k, t);
    hide Structure, ClockExact, PendingDrained, Apply;
    BlockingTasks(k, step, t);
  }

  /** A pending task stays pending until the scheduler is resumed, and then it is ready. */
  lemma PendingStep(k: Kernel, step: Step, t: TaskId)
    requires Invariant(k) && Enabled(k, step) && IsPending(k, t) && !Removes(step, t)
    ensures if step.ResumeAllStep? && k.schedulerSuspended == 1 then Awake(Apply(k, step), t)
      else IsPending(Apply(k, step), t)
  {
    hide Structure, ClockExact;
    PendingSuspends(k, t);
    if IsTaskStep(step) {
      hide Apply;
      PendingThroughTaskStep(k, step, t);
    } else if IsBlockingStep(step) {
      hide Apply;
      PendingThroughBlocking(k, step, t);
    } else if step.ResumeAllStep? {
      if k.schedulerSuspended == 1 { hide ResumeAll; ResumeAllServes(k, t); }
    } else {
      hide ProcessTick;
      SwitchContextFrame(k, k.delayed);
    }
  }

  /** t is ready at some point of the run. */
  ghost predicate Served(k: Kernel, steps: seq<Step>, t: TaskId)
    requires Runs(k, steps)
    decreases |steps|
  {
    Awake(k, t) || (steps != [] && Served(Apply(k, steps[0]), steps[1..], t))
  }

  /** Over every run: a task woken or resumed while the scheduler is suspended, and not suspended or
      deleted since, is still pending, or it has become ready. So nobody is forgotten: once the
      scheduler runs, it has been ready. */
  lemma {:induction false} NoWakeUpLost(k: Kernel, steps: seq<Step>, t: TaskId)
    requires Invariant(k) && IsPending(k, t) && Runs(k, steps)
    requires forall i :: 0 <= i < |steps| ==> !Removes(steps[i], t)
    ensures Served(k, steps, t) || (IsPending(After(k, steps), t) && After(k, steps).schedulerSuspended > 0)
    decreases |steps|
  {
    hide Invariant, Apply, Enabled, IsPending;
    if steps == [] {
      PendingSuspends(k, t);
    } else {
      var k1 := Apply(k, steps[0]);
      PendingStep(k, steps[0], t);
      StepKeepsInvariant(k, steps[0]);
      if IsPending(k1, t) { NoWakeUpLost(k1, steps[1..], t); }
    }
  }

  // ----- the next unblock time

  predicate WakesAt(k: Kernel, t: TaskId, time: Tick) {
    t in k.tasks && k.tasks[t].state == k.delayed && k.tasks[t].wakeTime == time
  }

  /** The next unblock time is the earliest wake time on the current delayed list, and the maximum
      if nobody is on it. */
  ghost predicate UnblockTimeExact(k: Kernel) {
    && (forall t :: t in k.tasks && k.tasks[t].state == k.delayed ==> k.nextUnblock <= k.tasks[t].wakeTime)
    && (k.nextUnblock == MAX_DELAY || exists t :: WakesAt(k, t, k.nextUnblock))
  }

  lemma ExactAfterReset(k: Kernel, k1: Kernel)
    requires Structure(k) && SleepersSorted(k) && k == ResetNextUnblock(k1)
    ensures UnblockTimeExact(k)
  {
    hide Structure, SleepersSorted, UnblockTimeExact;
    ResetUnblockExact(k);
    assert StateItems(k, k.delayed) == StateItems(k1, k1.delayed);
  }

  /** It is exact again once another task is deleted, or pending tasks have been made ready. */
  lemma DeleteUnblockExact(k: Kernel, t: TaskId)
    requires Structure(k) && ClockExact(k) && PendingDrained(k) && t in k.tasks && t != k.idle && t != k.running
    ensures UnblockTimeExact(DeleteTask(k, t))
  {
    hide Structure, PendingDrained, TakeOffStateList, RemoveEvent, ResetNextUnblock, UnblockTimeExact;
    DeleteTaskKeeps(k, t);
    DeleteTaskClock(k, t);
    ExactAfterReset(DeleteTask(k, t), RemoveEvent(TakeOffStateList(k, t),
      t).(tasks := RemoveEvent(TakeOffStateList(k, t), t).tasks - {t}));
  }

  lemma PendingUnblockExact(k: Kernel)
    requires Structure(k) && ClockExact(k) && EventItems(k, Pending) != []
    ensures UnblockTimeExact(ReadyAllPending(k))
  {
    hide Structure, ReadyPending, ResetNextUnblock, UnblockTimeExact;
    ReadyAllPendingKeeps(k);
    ReadyAllPendingClock(k);
    ExactAfterReset(ReadyAllPending(k), ReadyPending(k));
  }

  /** prvResetNextTaskUnblockTime finds it. */
  lemma ResetUnblockExact(k: Kernel)
    requires Structure(k) && SleepersSorted(k)
    ensures UnblockTimeExact(ResetNextUnblock(k))
  {
    hide EventsExact, ReadyByPriority, BitmapExact, WaitersBlocked, IdleReady;
    var items := StateItems(k, k.delayed).items;
    assert forall t :: t in items <==> t in k.tasks && k.tasks[t].state == k.delayed;
    if items != [] {
      assert items[0] in items;
      assert WakesAt(ResetNextUnblock(k), items[0], ResetNextUnblock(k).nextUnblock);
      forall t | t in items ensures k.tasks[items[0]].wakeTime <= k.tasks[t].wakeTime {
        var i :| 0 <= i < |items| && items[i] == t;
        assert WakeTimes(k, items)[0] <= WakeTimes(k, items)[i];
      }
    }
  }
}
