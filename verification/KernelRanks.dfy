/** The scheduler operations that leave every task's priorities and mutex count alone.

    A task's rank is its priority, its base priority and the number of mutexes it holds. The
    lemmas say of one operation each that it changes nobody's rank; a new task starts with its
    base priority and no mutex. */
module KernelRanks {
  import opened Ticks
  import opened ReadyBits
  import opened ListSpec
  import opened KernelSpec
  import opened KernelInvariant
  import opened KernelClock
  import opened KernelRuns

  predicate SameRank(a: Tcb, b: Tcb) {
    a.priority == b.priority && a.basePriority == b.basePriority && a.mutexesHeld == b.mutexesHeld
  }

  /** Every task keeps its priorities and its mutex count; a new task starts with none. */
  ghost predicate SameRanks(k: Kernel, k': Kernel) {
    && (forall t :: t in k.tasks ==> t in k'.tasks && SameRank(k.tasks[t], k'.tasks[t]))
    && (forall t :: t in k'.tasks && t !in k.tasks ==>
         k'.tasks[t].priority == k'.tasks[t].basePriority && k'.tasks[t].mutexesHeld == 0)
  }

  /** And its event item's value, unless it is one of those touched. */
  ghost predicate SameRanksBut(k: Kernel, k': Kernel, touched: set<TaskId>) {
    SameRanks(k, k') && forall t :: t in k.tasks && t !in touched ==> k'.tasks[t].eventValue == k.tasks[t].eventValue
  }

  lemma SameButTrans(k: Kernel, k1: Kernel, k2: Kernel, touched: set<TaskId>)
    requires SameRanksBut(k, k1, touched) && SameRanksBut(k1, k2, {})
    ensures SameRanksBut(k, k2, touched)
  {
  }

  lemma OneTaskRanks(k: Kernel, k': Kernel, t: TaskId)
    requires t in k.tasks && t in k'.tasks && k'.tasks == k.tasks[t := k'.tasks[t]] && SameRank(k.tasks[t], k'.tasks[t])
    ensures SameRanksBut(k, k', {t})
    ensures k'.tasks[t].eventValue == k.tasks[t].eventValue ==> SameRanksBut(k, k', {})
  {
  }

  lemma MakeReadyRanks(k: Kernel, t: TaskId)
    requires t in k.tasks
    ensures SameRanksBut(k, MakeReady(k, t), {}) && SameRanksBut(k, AddToReadyList(k, t), {})
  {
    AddToReadyListFrame(k, t);
    hide MakeReady, AddToReadyList, SameRanksBut;
    OneTaskRanks(k, MakeReady(k, t), t);
    OneTaskRanks(k, AddToReadyList(k, t), t);
  }

  lemma RemoveEventRanks(k: Kernel, t: TaskId)
    requires t in k.tasks
    ensures SameRanksBut(k, RemoveEvent(k, t), {}) && t in RemoveEvent(k, t).tasks
  {
    RemoveEventFrame(k, t);
    hide RemoveEvent, SameRanksBut;
    OneTaskRanks(k, RemoveEvent(k, t), t);
  }

  lemma AppendEventRanks(k: Kernel, e: EventPlace, t: TaskId)
    requires t in k.tasks
    ensures SameRanksBut(k, AppendEvent(k, e, t), {})
  {
    hide EventItems;
  }

  lemma WakeHeadRanks(k: Kernel)
    requires Structure(k) && StateItems(k, k.delayed).items != []
    ensures SameRanksBut(k, WakeHead(k), {})
  {
    var t := StateItems(k, k.delayed).items[0];
    assert t in StateItems(k, k.delayed).items;
    var k1 := RemoveState(k, k.delayed, t);
    assert k1.tasks == k.tasks && t in k1.tasks;
    hide Structure, StateItems, RemoveState, RemoveEvent, AddToReadyList, SameRanksBut;
    SameTasksRanks(k, k1);
    RemoveEventRanks(k1, t);
    MakeReadyRanks(RemoveEvent(k1, t), t);
    SameButTrans(k, k1, RemoveEvent(k1, t), {});
    SameButTrans(k, RemoveEvent(k1, t), WakeHead(k), {});
  }

  lemma {:induction false} WakeExpiredRanks(k: Kernel, switchRequired: bool)
    requires Structure(k)
    ensures SameRanksBut(k, WakeExpired(k, switchRequired).0, {})
    decreases |StateItems(k, k.delayed).items|
  {
    hide Structure, SameRanksBut, WakeHead;
    var l := StateItems(k, k.delayed);
    if l.items != [] && k.tick >= TaskOf(k, l.items[0]).wakeTime && IsDelayedList(k.delayed) && l.index <= |l.items| {
      WakeHeadKeeps(k);
      WakeHeadRanks(k);
      WakeHeadShortens(k);
      var t, k1 := l.items[0], WakeHead(k);
      WakeExpiredRanks(k1, switchRequired || TaskOf(k1, t).priority >= TaskOf(k1, k1.running).priority);
      SameButTrans(k, k1, WakeExpired(k, switchRequired).0, {});
    } else {
      SameTasksRanks(k, WakeExpired(k, switchRequired).0);
    }
  }

  lemma SameTasksRanks(k: Kernel, k': Kernel)
    requires k'.tasks == k.tasks
    ensures SameRanksBut(k, k', {})
  {
  }

  lemma IncrementTickRanks(k: Kernel)
    requires Structure(k)
    ensures SameRanksBut(k, IncrementTick(k).0, {})
  {
    hide Structure, ProcessTick, SameRanksBut;
    if k.schedulerSuspended == 0 { ProcessTickRanks(k); }
    SameTasksRanks(k, k.(pendedTicks := k.pendedTicks + 1));
  }

  lemma ProcessTickRanks(k: Kernel)
    requires Structure(k)
    ensures SameRanksBut(k, ProcessTick(k).0, {})
  {
    AdvanceTickKeeps(k);
    WakeExpiredRanks(AdvanceTick(k), false);
    assert AdvanceTick(k).tasks == k.tasks;
    hide Structure, WakeExpired, AdvanceTick, SameRanksBut, StateItems;
    SameTasksRanks(k, AdvanceTick(k));
    SameButTrans(k, AdvanceTick(k), WakeExpired(AdvanceTick(k), false).0, {});
  }

  lemma ReplayTickTasks(k: Kernel)
    ensures ReplayTick(k).tasks == IncrementTick(k).0.tasks
  {
    hide IncrementTick;
  }

  lemma {:induction false} ReplayTicksRanks(k: Kernel, count: nat)
    requires Structure(k) && k.schedulerSuspended == 0 && EventItems(k, Pending) == []
    ensures SameRanksBut(k, ReplayTicks(k, count), {})
    decreases count
  {
    hide Structure, IncrementTick, SameRanksBut, EventItems, StateItems, ReplayTick;
    if count == 0 {
      SameTasksRanks(k, k);
    } else {
      ReplayTickTasks(k);
      IncrementTickRanks(k);
      ReplayTickKeeps(k);
      ReplayTicksRanks(ReplayTick(k), count - 1);
      SameTasksRanks(IncrementTick(k).0, ReplayTick(k));
      SameButTrans(k, IncrementTick(k).0, ReplayTick(k), {});
      SameButTrans(k, ReplayTick(k), ReplayTicks(k, count), {});
    }
  }

  lemma {:induction false} ReadyPendingRanks(k: Kernel)
    requires Structure(k)
    ensures SameRanksBut(k, ReadyPending(k), {})
    decreases |EventItems(k, Pending)|
  {
    hide Structure, SameRanksBut, ReadyPendingHead;
    if EventItems(k, Pending) == [] {
      SameTasksRanks(k, k);
    } else {
      ReadyPendingHeadKeeps(k);
      ReadyPendingHeadRanks(k);
      ReadyPendingRanks(ReadyPendingHead(k));
      SameButTrans(k, ReadyPendingHead(k), ReadyPending(k), {});
    }
  }

  lemma PendingExists(k: Kernel)
    requires Structure(k) && EventItems(k, Pending) != []
    ensures EventItems(k, Pending)[0] in k.tasks
  {
    hide ListsExact, ReadyByPriority, BitmapExact, WaitersBlocked;
    assert EventItems(k, Pending)[0] in EventItems(k, Pending);
  }

  lemma ReadyPendingHeadRanks(k: Kernel)
    requires Structure(k) && EventItems(k, Pending) != []
    ensures SameRanksBut(k, ReadyPendingHead(k), {})
  {
    PendingExists(k);
    hide Structure, EventItems, MakeReady, SameRanksBut;
    var t := EventItems(k, Pending)[0];
    var k1 := k.(events := k.events[Pending := EventItems(k, Pending)[1..]],
                 tasks := k.tasks[t := TaskOf(k, t).(event := Nowhere)]);
    OneTaskRanks(k, k1, t);
    MakeReadyRanks(k1, t);
    SameButTrans(k, k1, MakeReady(k1, t), {});
    SameTasksRanks(MakeReady(k1, t), ReadyPendingHead(k));
    SameButTrans(k, MakeReady(k1, t), ReadyPendingHead(k), {});
  }

  lemma ReadyAllPendingRanks(k: Kernel)
    requires Structure(k)
    ensures SameRanksBut(k, ReadyAllPending(k), {})
  {
    ReadyPendingRanks(k);
    SameTasksRanks(k, k);
    hide Structure, ReadyPending, EventItems, StateItems, SameRanksBut;
    SameTasksRanks(ReadyPending(k), ResetNextUnblock(ReadyPending(k)));
    SameButTrans(k, ReadyPending(k), ResetNextUnblock(ReadyPending(k)), {});
  }

  lemma ResumeAllRanks(k: Kernel)
    requires Structure(k) && k.schedulerSuspended > 0
    ensures SameRanksBut(k, ResumeAll(k), {})
  {
    hide Structure, ReadyAllPending, ReplayTicks, EventItems, SameRanksBut;
    var k1 := k.(schedulerSuspended := k.schedulerSuspended - 1);
    FlagsIrrelevant(k, k1);
    SameTasksRanks(k, k1);
    if k1.schedulerSuspended == 0 {
      ReadyAllPendingRanks(k1);
      ReadyAllPendingKeeps(k1);
      var k2 := ReadyAllPending(k1);
      ReplayTicksRanks(k2, k2.pendedTicks);
      SameButTrans(k, k1, k2, {});
      SameButTrans(k, k2, ReplayTicks(k2, k2.pendedTicks), {});
      SameTasksRanks(ReplayTicks(k2, k2.pendedTicks), ResumeAll(k));
      SameButTrans(k, ReplayTicks(k2, k2.pendedTicks), ResumeAll(k), {});
    }
  }

  lemma DelayCurrentRanks(k: Kernel, ticks: Tick, canBlockIndefinitely: bool)
    requires k.running in k.tasks
    ensures SameRanksBut(k, DelayCurrent(k, ticks, canBlockIndefinitely), {})
  {
    DelayCurrentFrame(k, ticks, canBlockIndefinitely);
    hide LeaveReady, StateItems, SortedPosition, WakeTimes, Insert, InsertEnd;
  }

  lemma BlockingRanks(k: Kernel, id: nat, value: Tick, ticks: Tick, indefinitely: bool)
    requires k.running in k.tasks
    ensures SameRanksBut(k, PlaceOnEventList(k, id, ticks), {})
    ensures SameRanksBut(k, PlaceOnUnorderedEventList(k, id, value, ticks), {k.running})
    ensures SameRanksBut(k, PlaceRestricted(k, id, ticks, indefinitely), {})
  {
    hide DelayCurrent, EventItems, SortedPosition, EventValues, Insert, MarkedInUse, SameRanksBut;
    var p := SortedPosition(EventValues(k, EventItems(k, OnEvent(id))), TaskOf(k, k.running).eventValue);
    var k1 := k.(events := k.events[OnEvent(id) := Insert(EventItems(k, OnEvent(id)), p, k.running)],
                 tasks := k.tasks[k.running := TaskOf(k, k.running).(event := OnEvent(id))]);
    JoinAndDelayRanks(k, k1, ticks, true, {});
    var k2 := k.(tasks := k.tasks[k.running := TaskOf(k, k.running).(eventValue := MarkedInUse(value))]);
    JoinAndDelayRanks(k, AppendEvent(k2, OnEvent(id), k.running), ticks, true, {k.running});
    JoinAndDelayRanks(k, AppendEvent(k, OnEvent(id), k.running), if indefinitely then MAX_DELAY else ticks,
      indefinitely, {});
  }

  lemma JoinAndDelayRanks(k: Kernel, k1: Kernel, ticks: Tick, canBlockIndefinitely: bool, touched: set<TaskId>)
    requires k.running in k.tasks && k.running in k1.tasks && k1.running == k.running
    requires k1.tasks == k.tasks[k.running := k1.tasks[k.running]] && SameRank(k.tasks[k.running], k1.tasks[k.running])
    requires touched == {k.running} || (touched == {} &&
      k1.tasks[k.running].eventValue == k.tasks[k.running].eventValue)
    ensures SameRanksBut(k, DelayCurrent(k1, ticks, canBlockIndefinitely), touched)
  {
    hide DelayCurrent, SameRanksBut;
    OneTaskRanks(k, k1, k.running);
    DelayCurrentRanks(k1, ticks, canBlockIndefinitely);
    SameButTrans(k, k1, DelayCurrent(k1, ticks, canBlockIndefinitely), touched);
  }

  lemma EventRanks(k: Kernel, id: nat)
    requires Structure(k) && EventItems(k, OnEvent(id)) != []
    ensures SameRanksBut(k, RemoveFromEventList(k, id), {})
  {
    hide ListsExact, ReadyByPriority, BitmapExact, SchedulerFlags, IdleReady, WaitersBlocked, RemoveEvent, MakeReady,
      AppendEvent, SameRanksBut;
    var t := EventItems(k, OnEvent(id))[0];
    assert t in k.tasks by { assert t in EventItems(k, OnEvent(id)); }
    hide EventsExact, EventItems;
    var k1 := RemoveEvent(k, t);
    RemoveEventRanks(k, t);
    MakeReadyRanks(k1, t);
    AppendEventRanks(k1, Pending, t);
    SameButTrans(k, k1, WakeOrPend(k1, t), {});
    SameTasksRanks(WakeOrPend(k1, t), RemoveFromEventList(k, id));
    SameButTrans(k, WakeOrPend(k1, t), RemoveFromEventList(k, id), {});
  }

  lemma UnorderedEventRanks(k: Kernel, t: TaskId, value: Tick)
    requires t in k.tasks
    ensures SameRanksBut(k, RemoveFromUnorderedEventList(k, t, value), {t})
  {
    hide RemoveEvent, MakeReady, MarkedInUse, SameRanksBut;
    var k0 := k.(tasks := k.tasks[t := TaskOf(k, t).(eventValue := MarkedInUse(value))]);
    var k1 := RemoveEvent(k0, t);
    OneTaskRanks(k, k0, t);
    RemoveEventRanks(k0, t);
    MakeReadyRanks(k1, t);
    SameButTrans(k, k0, k1, {t});
    SameButTrans(k, k1, MakeReady(k1, t), {t});
    SameTasksRanks(MakeReady(k1, t), RemoveFromUnorderedEventList(k, t, value));
    SameButTrans(k, MakeReady(k1, t), RemoveFromUnorderedEventList(k, t, value), {t});
  }

  lemma ResumeRanks(k: Kernel, t: TaskId)
    requires t in k.tasks
    ensures SameRanksBut(k, ResumeTask(k, t), {}) && SameRanksBut(k, ResumeTaskFromISR(k, t), {})
  {
    hide MakeReady, AppendEvent, SameRanksBut;
    MakeReadyRanks(k, t);
    AppendEventRanks(k, Pending, t);
    SameTasksRanks(k, k);
  }

  lemma SuspendRanks(k: Kernel, t: TaskId)
    requires t in k.tasks
    ensures SameRanksBut(k, SuspendTask(k, t), {})
  {
    var k0 := TakeOffStateList(k, t);
    assert k0.tasks == k.tasks;
    hide TakeOffStateList, RemoveEvent, StateItems, InsertEnd, SameRanksBut;
    var k1 := RemoveEvent(k0, t);
    SameTasksRanks(k, k0);
    RemoveEventRanks(k0, t);
    SameButTrans(k, k0, k1, {});
    OneTaskRanks(k1, SuspendTask(k, t), t);
    SameButTrans(k, k1, SuspendTask(k, t), {});
  }

  lemma CreateRanks(k: Kernel, t: TaskId, p: Priority)
    requires t !in k.tasks
    ensures SameRanksBut(k, CreateTask(k, t, p), {})
  {
    var k1 := k.(tasks := k.tasks[t := Tcb(p, p, 0, Ready(p), 0, Nowhere, MAX_PRIORITIES - p)]);
    MakeReadyRanks(k1, t);
    hide AddToReadyList;
  }

  lemma PlainRanks(k: Kernel)
    ensures SameRanksBut(k, SwitchContext(k), {}) && SameRanksBut(k, ResetNextUnblock(k), {})
    ensures SameRanksBut(k, k.(schedulerSuspended := k.schedulerSuspended + 1), {})
  {
    hide StateItems, Valid, Next, Current, Highest;
  }

  lemma ResetRanks(k: Kernel)
    requires Structure(k)
    ensures SameRanksBut(k, ResetEventItemValue(k), {k.running})
  {
    assert k.running in k.tasks;
    hide Structure;
  }

  /** The steps of tasks.c that have nothing to do with priorities. */
  predicate Neutral(step: Step) {
    !step.Delete? && !step.PrioritySet? && !step.Inherit? && !step.TakeMutex? && !step.GiveMutex?
  }

  /** Whose event item a step uses for something else than the priority. */
  function Revalued(k: Kernel, step: Step): set<TaskId> {
    match step
    case WaitForBits(_, _, _) => {k.running}
    case BitsSet(t, _) => {t}
    case ResetEventValue => {k.running}
    case _ => {}
  }

  lemma SameButRanks(k: Kernel, k': Kernel, touched: set<TaskId>)
    ensures SameRanksBut(k, k', touched) ==> SameRanks(k, k')
  {
    hide SameRanks;
  }

  lemma WaitRanks(k: Kernel, step: Step)
    requires k.running in k.tasks && Enabled(k, step) && IsBlockingStep(step)
    ensures SameRanksBut(k, Apply(k, step), Revalued(k, step))
  {
    hide SameRanksBut, EventItems, DelayCurrent, PlaceOnEventList, PlaceOnUnorderedEventList, PlaceRestricted,
      DelayAllowed;
    match step
    case Delay(ticks) => DelayCurrentRanks(k, ticks, false);
    case WaitForEvent(id, ticks) => BlockingRanks(k, id, 0, ticks, false);
    case WaitForBits(id, value, ticks) => BlockingRanks(k, id, value, ticks, false);
    case WaitRestricted(id, ticks, indefinitely) => BlockingRanks(k, id, 0, ticks, indefinitely);
  }

  lemma TaskRanks(k: Kernel, step: Step)
    requires Structure(k) && Enabled(k, step) && IsTaskStep(step) && Neutral(step)
    ensures SameRanksBut(k, Apply(k, step), Revalued(k, step))
  {
    hide Structure, SameRanksBut, EventItems, SuspendTask, ResumeTask, ResumeTaskFromISR, RemoveFromEventList,
      RemoveFromUnorderedEventList, CreateTask, ResetEventItemValue;
    match step
    case Event(id) => EventRanks(k, id);
    case BitsSet(t, value) => UnorderedEventRanks(k, t, value);
    case SuspendStep(t) => SuspendRanks(k, t);
    case ResumeStep(t) => ResumeRanks(k, t);
    case ResumeFromISR(t) => ResumeRanks(k, t);
    case Create(t, p) => CreateRanks(k, t, p);
    case ResetEventValue => ResetRanks(k);
  }

  lemma ClockRanks(k: Kernel, step: Step)
    requires Structure(k) && Enabled(k, step) && !IsTaskStep(step) && !IsBlockingStep(step)
    ensures SameRanksBut(k, Apply(k, step), Revalued(k, step))
  {
    hide Structure, SameRanksBut, IncrementTick, ResumeAll, SwitchContext, ResetNextUnblock;
    match step
    case TickInterrupt => IncrementTickRanks(k);
    case ResumeAllStep => ResumeAllRanks(k);
    case _ => PlainRanks(k);
  }

  lemma NeutralRanks(k: Kernel, step: Step)
    requires Structure(k) && Enabled(k, step) && Neutral(step)
    ensures SameRanksBut(k, Apply(k, step), Revalued(k, step)) && SameRanks(k, Apply(k, step))
  {
    SameButRanks(k, Apply(k, step), Revalued(k, step));
    NamesOf(k);
    hide Structure, SameRanksBut, SameRanks, Apply, Enabled, Revalued;
    if IsBlockingStep(step) { WaitRanks(k, step); }
    else if IsTaskStep(step) { TaskRanks(k, step); }
    else { ClockRanks(k, step); }
  }
}
