/** The two wrapped delayed lists refine a scheduler with an unbounded clock.

    Clocked is the simple scheduler: a time that only grows and, for each task, whether it
    sleeps and until when. Abstract maps the kernel to it: a wake time on the current list
    belongs to the present wrap of the tick count, one on the overflow list to the next. The
    clock invariant, which makes the mapping exact, has three parts:

      SleepersSorted    both delayed lists are in the order of their wake times
      UnblockTimeSafe   xNextTaskUnblockTime is not later than any wake time in the current list
      NobodyOverdue     no wake time in the current list has passed

    A lemma ending in Refines says what an operation is on the simple scheduler, one ending in
    Clock that it leaves the sleepers alone and keeps the clock invariant. */
module KernelClock {
  import opened Ticks
  import opened ReadyBits
  import opened ListSpec
  import opened KernelSpec
  import opened KernelInvariant

  // ----- the simple scheduler

  datatype Status = Runnable | Sleeping(until: nat) | Parked | Deleted

  datatype Clocked = Clocked(now: nat, status: map<TaskId, Status>)

  function WokenBy(status: Status, now: nat): Status {
    if status.Sleeping? && status.until <= now then Runnable else status
  }

  /** Tick now + 1 wakes every task whose time has come, and does nothing else. */
  function SpecTick(s: Clocked): Clocked {
    Clocked(s.now + 1, map t | t in s.status :: WokenBy(s.status[t], s.now + 1))
  }

  function SpecTicks(s: Clocked, n: nat): Clocked
    decreases n
  {
    if n == 0 then s else SpecTicks(SpecTick(s), n - 1)
  }

  // ----- the refinement mapping

  function Now(k: Kernel): nat {
    k.overflows * WRAP + k.tick
  }

  /** What a task's list and item value mean on the unbounded clock. */
  function StatusOf(k: Kernel, task: Tcb): Status {
    if task.state.Ready? then Runnable
    else if task.state == k.delayed then Sleeping(k.overflows * WRAP + task.wakeTime)
    else if task.state == k.overflowDelayed then Sleeping((k.overflows + 1) * WRAP + task.wakeTime)
    else if task.state == Termination then Deleted
    else Parked
  }

  function Abstract(k: Kernel): Clocked {
    Clocked(Now(k), map t | t in k.tasks :: StatusOf(k, k.tasks[t]))
  }

  // ----- the clock invariant

  ghost predicate SleepersSorted(k: Kernel) {
    Sorted(WakeTimes(k, StateItems(k, k.delayed).items)) && Sorted(WakeTimes(k, StateItems(k, k.overflowDelayed).items))
  }

  /** xNextTaskUnblockTime never exceeds a wake time in the current list. */
  ghost predicate UnblockTimeSafe(k: Kernel) {
    forall t :: t in k.tasks && k.tasks[t].state == k.delayed ==> k.nextUnblock <= k.tasks[t].wakeTime
  }

  /** No task in the current list is overdue; one due at this very tick was just delayed for
      zero ticks, which the last tick of an epoch does not allow. */
  ghost predicate NobodyOverdue(k: Kernel) {
    forall t :: t in k.tasks && k.tasks[t].state == k.delayed ==>
      k.tick <= k.tasks[t].wakeTime && (k.tasks[t].wakeTime == k.tick ==> k.tick < MAX_DELAY)
  }

  ghost predicate ClockExact(k: Kernel) {
    SleepersSorted(k) && UnblockTimeSafe(k) && NobodyOverdue(k)
  }

  // ----- the tick

  /** What the clock argument needs to know about the lists. */
  predicate DelayedNames(k: Kernel) {
    IsDelayedList(k.delayed) && IsDelayedList(k.overflowDelayed)
  }

  lemma NamesOf(k: Kernel)
    requires Structure(k)
    ensures DelayedNames(k) && k.delayed != k.overflowDelayed && k.running in k.tasks
    ensures !k.delayed.Ready? && !k.overflowDelayed.Ready? && !IsDelayedList(Ready(0))
  {
    hide ListsExact, EventsExact, ReadyByPriority, BitmapExact, WaitersBlocked;
  }

  lemma NobodyLeftAtWrap(k: Kernel, t: TaskId)
    requires Structure(k) && NobodyOverdue(k) && Wrapped(k.tick + 1) == 0
    ensures t !in StateItems(k, k.delayed).items
  {
    assert t in k.tasks ==> k.tasks[t].state != k.delayed;
  }

  /** The current list is empty whenever the lists are switched: the assertion in
      taskSWITCH_DELAYED_LISTS holds. */
  lemma CurrentListEmptyAtSwitch(k: Kernel)
    requires Structure(k) && NobodyOverdue(k) && Wrapped(k.tick + 1) == 0
    ensures StateItems(k, k.delayed).items == []
  {
    var items := StateItems(k, k.delayed).items;
    if items != [] { NobodyLeftAtWrap(k, items[0]); }
  }

  /** The lists and tasks are those of k, though they may be named and counted differently. */
  ghost predicate SameTasksAndLists(k: Kernel, k': Kernel) {
    k'.tasks == k.tasks && k'.lists == k.lists
  }

  lemma SortedIrrelevant(k: Kernel, k': Kernel, n: StateList)
    requires SameTasksAndLists(k, k')
    ensures StateItems(k', n) == StateItems(k, n)
    ensures WakeTimes(k', StateItems(k', n).items) == WakeTimes(k, StateItems(k, n).items)
  {
  }

  lemma SwitchUnblockTime(k: Kernel, k1: Kernel, k': Kernel)
    requires Structure(k) && SleepersSorted(k) && k1 == k.(tick := 0) && k' == SwitchDelayedLists(k1)
    ensures UnblockTimeSafe(k')
  {
    var items := StateItems(k, k.overflowDelayed).items;
    assert StateItems(k', k'.delayed).items == items;
    forall t | t in k.tasks && k.tasks[t].state == k'.delayed ensures k'.nextUnblock <= k.tasks[t].wakeTime {
      assert t in items;
      HeadIsEarliest(k, items, t);
    }
  }

  /** The same tasks mean the same on the unbounded clock. */
  ghost predicate SameMeaning(k: Kernel, k': Kernel) {
    k'.tasks == k.tasks && forall t :: t in k.tasks ==> StatusOf(k', k.tasks[t]) == StatusOf(k, k.tasks[t])
  }

  lemma AdvanceFrame(k: Kernel)
    ensures var k' := AdvanceTick(k);
      && Now(k') == Now(k) + 1
      && k' == k.(tick := k'.tick, delayed := k'.delayed, overflowDelayed := k'.overflowDelayed,
                  overflows := k'.overflows, nextUnblock := k'.nextUnblock)
  {
  }

  /** Moving the clock on without waking anybody. */
  lemma AdvanceTickRefines(k: Kernel)
    requires Structure(k) && ClockExact(k)
    ensures var k' := AdvanceTick(k);
      SleepersSorted(k') && UnblockTimeSafe(k') && SameMeaning(k, k')
  {
    hide Structure, SameMeaning, UnblockTimeSafe, SleepersSorted, NobodyOverdue, AdvanceTick;
    if Wrapped(k.tick + 1) == 0 {
      CurrentListEmptyAtSwitch(k);
      AdvanceOnSwitch(k);
    } else {
      AdvanceInEpoch(k);
    }
  }

  lemma AdvanceInEpoch(k: Kernel)
    requires ClockExact(k) && Wrapped(k.tick + 1) != 0
    ensures var k' := AdvanceTick(k);
      SleepersSorted(k') && UnblockTimeSafe(k') && SameMeaning(k, k')
  {
    SortedIrrelevant(k, AdvanceTick(k), k.delayed);
    SortedIrrelevant(k, AdvanceTick(k), k.overflowDelayed);
    hide StateItems, WakeTimes, Sorted;
  }

  lemma AdvanceOnSwitch(k: Kernel)
    requires Structure(k) && SleepersSorted(k) && StateItems(k, k.delayed).items == [] && Wrapped(k.tick + 1) == 0
    ensures UnblockTimeSafe(AdvanceTick(k)) && SameMeaning(k, AdvanceTick(k)) && SleepersSorted(AdvanceTick(k))
  {
    var k1 := k.(tick := 0);
    AdvanceFrame(k);
    SortedIrrelevant(k, AdvanceTick(k), k.delayed);
    SortedIrrelevant(k, AdvanceTick(k), k.overflowDelayed);
    SwitchUnblockTime(k, k1, AdvanceTick(k));
    forall t | t in k.tasks ensures StatusOf(AdvanceTick(k), k.tasks[t]) == StatusOf(k, k.tasks[t]) {
      assert t !in StateItems(k, k.delayed).items;
    }
  }

  lemma HeadIsEarliest(k: Kernel, items: seq<TaskId>, t: TaskId)
    requires Sorted(WakeTimes(k, items)) && t in items
    ensures TaskOf(k, items[0]).wakeTime <= TaskOf(k, t).wakeTime
  {
    var i :| 0 <= i < |items| && items[i] == t;
    assert WakeTimes(k, items)[0] <= WakeTimes(k, items)[i];
  }

  /** A task due by now becomes ready; nothing else about any task changes. */
  function Woken(k: Kernel, t: TaskId): Tcb
    requires t in k.tasks
  {
    if k.tasks[t].state == k.delayed && k.tasks[t].wakeTime <= k.tick
    then k.tasks[t].(state := Ready(k.tasks[t].priority), event := Nowhere) else k.tasks[t]
  }

  lemma SortedSuffix(values: seq<Tick>)
    requires Sorted(values) && values != []
    ensures Sorted(values[1..])
  {
  }

  /** One turn of the waking loop on the delayed lists. */
  lemma WakeHeadItems(k: Kernel, t: TaskId)
    requires IsDelayedList(k.delayed) && IsDelayedList(k.overflowDelayed) && k.delayed != k.overflowDelayed
    requires StateItems(k, k.delayed).items != [] && t == StateItems(k, k.delayed).items[0]
    requires Valid(StateItems(k, k.delayed)) && t in k.tasks
    ensures StateItems(WakeHead(k), k.delayed).items == StateItems(k, k.delayed).items[1..]
    ensures StateItems(WakeHead(k), k.overflowDelayed) == StateItems(k, k.overflowDelayed)
  {
    WakeHeadShortens(k);
    WakeHeadFrame(k, t);
    assert Position(StateItems(k, k.delayed).items, t) == 0;
  }

  lemma WakeTimesSame(k: Kernel, k': Kernel, items: seq<TaskId>)
    requires forall i :: 0 <= i < |items| ==> TaskOf(k', items[i]).wakeTime == TaskOf(k, items[i]).wakeTime
    ensures WakeTimes(k', items) == WakeTimes(k, items)
  {
  }

  lemma HeadAppearsOnce(k: Kernel)
    requires Structure(k) && StateItems(k, k.delayed).items != []
    ensures var items, t := StateItems(k, k.delayed).items, StateItems(k, k.delayed).items[0];
      && t in k.tasks && k.tasks[t].state == k.delayed && t !in StateItems(k, k.overflowDelayed).items
      && forall i :: 0 <= i < |items| - 1 ==> items[1..][i] != t
  {
    assert StateItems(k, k.delayed).items[0] in StateItems(k, k.delayed).items;
  }

  lemma TailSorted(k: Kernel, k': Kernel, items: seq<TaskId>)
    requires items != [] && Sorted(WakeTimes(k, items))
    requires forall i :: 0 < i < |items| ==> TaskOf(k', items[i]).wakeTime == TaskOf(k, items[i]).wakeTime
    ensures Sorted(WakeTimes(k', items[1..]))
  {
    assert WakeTimes(k', items[1..]) == WakeTimes(k, items)[1..];
    SortedSuffix(WakeTimes(k, items));
  }

  /** Only the head's control block changes, and not its wake time. */
  lemma WakeHeadTimes(k: Kernel, t: TaskId, u: TaskId)
    requires t in k.tasks && StateItems(k, k.delayed).items != [] && t == StateItems(k, k.delayed).items[0]
    ensures TaskOf(WakeHead(k), u).wakeTime == TaskOf(k, u).wakeTime
    ensures WakeHead(k).delayed == k.delayed && WakeHead(k).overflowDelayed == k.overflowDelayed
  {
    WakeHeadFrame(k, t);
    hide WakeHead;
  }

  lemma WakeHeadLists(k: Kernel, t: TaskId)
    requires Structure(k) && SleepersSorted(k)
    requires StateItems(k, k.delayed).items != [] && t == StateItems(k, k.delayed).items[0]
    ensures SleepersSorted(WakeHead(k))
  {
    var items, other := StateItems(k, k.delayed).items, StateItems(k, k.overflowDelayed).items;
    HeadAppearsOnce(k);
    assert DelayedNames(k) && k.delayed != k.overflowDelayed && Valid(StateItems(k, k.delayed));
    hide WakeHead, Structure, Distinct, Sorted, TaskOf;
    WakeHeadItems(k, t);
    forall u { WakeHeadTimes(k, t, u); }
    TailSorted(k, WakeHead(k), items);
    WakeTimesSame(k, WakeHead(k), other);
  }

  lemma WakeHeadWakes(k: Kernel, t: TaskId)
    requires Structure(k) && SleepersSorted(k)
    requires StateItems(k, k.delayed).items != [] && t == StateItems(k, k.delayed).items[0]
    requires k.tick >= TaskOf(k, t).wakeTime
    ensures var k1 := WakeHead(k);
      && Structure(k1) && SleepersSorted(k1) && t in k.tasks && k1.delayed == k.delayed
      && k1.tasks.Keys == k.tasks.Keys && k1.tasks[t] == Woken(k, t)
      && (forall u :: u in k.tasks ==> Woken(k1, u) == Woken(k, u))
      && |StateItems(k1, k1.delayed).items| < |StateItems(k, k.delayed).items|
      && Valid(StateItems(k, k.delayed)) && IsDelayedList(k.delayed)
  {
    hide WakeHead, Structure, SleepersSorted, StateItems;
    DelayedHead(k);
    WakeHeadKeeps(k);
    WakeHeadFrame(k, t);
    WakeHeadLists(k, t);
    WakeHeadShortens(k);
  }

  lemma {:induction false} WakeExpiredWakes(k: Kernel, switchRequired: bool)
    requires Structure(k) && SleepersSorted(k)
    ensures var k' := WakeExpired(k, switchRequired).0;
      && k'.tasks.Keys == k.tasks.Keys && (forall t :: t in k.tasks ==> k'.tasks[t] == Woken(k, t))
      && SleepersSorted(k') && UnblockTimeSafe(k')
    decreases |StateItems(k, k.delayed).items|
  {
    hide WakeHead, Structure, SleepersSorted, UnblockTimeSafe, Woken;
    var items := StateItems(k, k.delayed).items;
    if items != [] && k.tick >= TaskOf(k, items[0]).wakeTime {
      var t, k1 := items[0], WakeHead(k);
      WakeHeadWakes(k, t);
      WakeExpiredWakes(k1, switchRequired || TaskOf(k1, t).priority >= TaskOf(k1, k1.running).priority);
    } else {
      NobodyLeftToWake(k);
    }
  }

  lemma NobodyLeftToWake(k: Kernel)
    requires Structure(k) && SleepersSorted(k)
    requires var items := StateItems(k, k.delayed).items; items == [] || k.tick < TaskOf(k, items[0]).wakeTime
    ensures forall t :: t in k.tasks ==> Woken(k, t) == k.tasks[t]
    ensures forall s :: SleepersSorted(k.(nextUnblock := s))
    ensures var items := StateItems(k, k.delayed).items;
      UnblockTimeSafe(k.(nextUnblock := if items == [] then MAX_DELAY else TaskOf(k, items[0]).wakeTime))
  {
    var items := StateItems(k, k.delayed).items;
    forall t | t in k.tasks && k.tasks[t].state == k.delayed ensures items != [] &&
      TaskOf(k, items[0]).wakeTime <= k.tasks[t].wakeTime {
      assert t in items;
      HeadIsEarliest(k, items, t);
    }
    forall s ensures SleepersSorted(k.(nextUnblock := s)) {
      assert forall n :: StateItems(k.(nextUnblock := s), n) == StateItems(k, n);
      assert forall l :: WakeTimes(k.(nextUnblock := s), l) == WakeTimes(k, l);
    }
  }

  /** After a tick, whoever is still delayed is due strictly later. */
  ghost predicate NobodyDue(k: Kernel) {
    forall t :: t in k.tasks && k.tasks[t].state == k.delayed ==> k.tick < k.tasks[t].wakeTime
  }

  lemma ProcessTickWakes(k: Kernel)
    requires Structure(k) && ClockExact(k)
    ensures var k1, k' := AdvanceTick(k), ProcessTick(k).0;
      && k'.tasks.Keys == k.tasks.Keys && (forall t :: t in k.tasks ==> k'.tasks[t] == Woken(k1, t))
      && SleepersSorted(k') && UnblockTimeSafe(k')
      && k'.tick == k1.tick && k'.overflows == k1.overflows && k'.delayed == k1.delayed &&
           k'.overflowDelayed == k1.overflowDelayed
  {
    var k1 := AdvanceTick(k);
    AdvanceTickKeeps(k);
    AdvanceTickRefines(k);
    AdvanceFrame(k);
    hide AdvanceTick, Structure, SleepersSorted;
    if k1.tick >= k1.nextUnblock {
      WakeExpiredKeeps(k1, false);
      WakeExpiredWakes(k1, false);
    } else {
      assert forall t :: t in k.tasks ==> Woken(k1, t) == k1.tasks[t];
    }
  }

  /** Being due on the wrapped clock is being due on the unbounded one. */
  lemma WokenRefines(k: Kernel, k1: Kernel, k': Kernel, t: TaskId)
    requires t in k.tasks && SameMeaning(k, k1) && Now(k1) == Now(k) + 1
    requires k1.delayed != k1.overflowDelayed && IsDelayedList(k1.delayed) && IsDelayedList(k1.overflowDelayed)
    requires k'.tick == k1.tick && k'.overflows == k1.overflows && k'.delayed == k1.delayed &&
      k'.overflowDelayed == k1.overflowDelayed
    ensures var s := StatusOf(k, k.tasks[t]);
      StatusOf(k', Woken(k1, t)) == WokenBy(s, Now(k) + 1)
  {
  }

  lemma ProcessTickStatuses(k: Kernel)
    requires Structure(k) && ClockExact(k)
    ensures var k1, k' := AdvanceTick(k), ProcessTick(k).0;
      && Now(k') == Now(k) + 1 && k'.tasks.Keys == k.tasks.Keys
      && (forall t :: t in k.tasks ==> StatusOf(k', k'.tasks[t]) == WokenBy(StatusOf(k, k.tasks[t]), Now(k) + 1))
  {
    assert DelayedNames(k) && k.delayed != k.overflowDelayed;
    hide ProcessTick, AdvanceTick, Structure, ClockExact, SleepersSorted, UnblockTimeSafe, SameMeaning, Woken,
      StatusOf;
    var k1, k' := AdvanceTick(k), ProcessTick(k).0;
    AdvanceLists(k);
    ProcessTickWakes(k);
    AdvanceTickRefines(k);
    AdvanceFrame(k);
    forall t | t in k.tasks ensures StatusOf(k', k'.tasks[t]) == WokenBy(StatusOf(k, k.tasks[t]), Now(k) + 1) {
      WokenRefines(k, k1, k', t);
    }
  }

  lemma ProcessTickClock(k: Kernel)
    requires Structure(k) && ClockExact(k)
    ensures ClockExact(ProcessTick(k).0) && NobodyDue(ProcessTick(k).0)
  {
    assert DelayedNames(k) && k.delayed != k.overflowDelayed;
    hide ProcessTick, AdvanceTick, Structure, SleepersSorted, UnblockTimeSafe, Woken;
    AdvanceLists(k);
    ProcessTickWakes(k);
    AdvanceFrame(k);
    WokenLeavesNobodyDue(AdvanceTick(k), ProcessTick(k).0);
  }

  /** xTaskIncrementTick refines the tick of the simple scheduler: it wakes exactly the tasks
      whose unbounded wake time has come, and keeps the clock invariant. */
  lemma ProcessTickRefines(k: Kernel)
    requires Structure(k) && ClockExact(k)
    ensures var k' := ProcessTick(k).0;
      ClockExact(k') && NobodyDue(k') && Abstract(k') == SpecTick(Abstract(k))
  {
    hide ProcessTick, Structure, ClockExact, NobodyDue, StatusOf;
    ProcessTickClock(k);
    ProcessTickStatuses(k);
    AbstractIs(ProcessTick(k).0, SpecTick(Abstract(k)));
  }

  lemma AbstractIs(k: Kernel, s: Clocked)
    requires s.now == Now(k) && s.status.Keys == k.tasks.Keys
    requires forall t :: t in k.tasks ==> StatusOf(k, k.tasks[t]) == s.status[t]
    ensures Abstract(k) == s
  {
  }

  lemma AdvanceLists(k: Kernel)
    requires IsDelayedList(k.delayed) && IsDelayedList(k.overflowDelayed) && k.delayed != k.overflowDelayed
    ensures var k' := AdvanceTick(k);
      IsDelayedList(k'.delayed) && IsDelayedList(k'.overflowDelayed) && k'.delayed != k'.overflowDelayed
  {
  }

  lemma WokenLeavesNobodyDue(k1: Kernel, k': Kernel)
    requires k'.tasks.Keys == k1.tasks.Keys && forall t :: t in k1.tasks ==> k'.tasks[t] == Woken(k1, t)
    requires k'.tick == k1.tick && k'.delayed == k1.delayed
    requires IsDelayedList(k1.delayed)
    ensures NobodyDue(k')
  {
  }

  /** n ticks in a row wake exactly the tasks due by the last of them. */
  lemma {:induction false} SpecTicksAdvance(s: Clocked, n: nat)
    ensures SpecTicks(s, n).now == s.now + n && SpecTicks(s, n).status.Keys == s.status.Keys
    ensures n > 0 ==> forall t :: t in s.status ==> SpecTicks(s, n).status[t] == WokenBy(s.status[t], s.now + n)
    decreases n
  {
    if n > 0 { SpecTicksAdvance(SpecTick(s), n - 1); }
  }

  // ----- replayed ticks

  lemma ClockIgnoresFlags(k: Kernel, k': Kernel)
    requires ClockExact(k)
    requires k' == k.(pendedTicks := k'.pendedTicks, schedulerSuspended := k'.schedulerSuspended,
      yieldPending := k'.yieldPending)
    ensures ClockExact(k') && Abstract(k') == Abstract(k)
  {
    SortedIrrelevant(k, k', k.delayed);
    SortedIrrelevant(k, k', k.overflowDelayed);
  }

  lemma ReplayTickRefines(k: Kernel)
    requires Structure(k) && ClockExact(k) && k.schedulerSuspended == 0
    ensures ClockExact(ReplayTick(k)) && Abstract(ReplayTick(k)) == SpecTick(Abstract(k))
  {
    ProcessTickRefines(k);
    hide ProcessTick, Structure, ClockExact, Abstract, SpecTick;
    ClockIgnoresFlags(ProcessTick(k).0, ReplayTick(k));
  }

  /** Ticks pended while the scheduler was suspended are replayed one by one. */
  lemma {:induction false} ReplayTicksRefine(k: Kernel, count: nat)
    requires Structure(k) && ClockExact(k) && k.schedulerSuspended == 0 && EventItems(k, Pending) == []
    ensures ClockExact(ReplayTicks(k, count)) && Abstract(ReplayTicks(k, count)) == SpecTicks(Abstract(k), count)
    decreases count
  {
    hide Structure, ClockExact, Abstract, SpecTick, ReplayTick;
    if count > 0 {
      ReplayTickKeeps(k);
      ReplayTickRefines(k);
      ReplayTicksRefine(ReplayTick(k), count - 1);
    }
  }

  // ----- blocking

  lemma WakeTimesInsert(k: Kernel, k': Kernel, items: seq<TaskId>, p: nat, t: TaskId)
    requires p <= |items| && t !in items
    requires forall u :: u in items ==> TaskOf(k', u).wakeTime == TaskOf(k, u).wakeTime
    ensures WakeTimes(k', Insert(items, p, t)) == Insert(WakeTimes(k, items), p, TaskOf(k', t).wakeTime)
  {
  }

  lemma InsertByWakeTimeSorted(k: Kernel, n: StateList, t: TaskId, time: Tick)
    requires t !in StateItems(k, n).items && Sorted(WakeTimes(k, StateItems(k, n).items))
    ensures var k' := InsertByWakeTime(k, n, t, time);
      Sorted(WakeTimes(k', StateItems(k', n).items))
  {
    var items := StateItems(k, n).items;
    WakeTimesInsert(k, InsertByWakeTime(k, n, t, time), items, SortedPosition(WakeTimes(k, items), time), t);
    SortedInsertion(WakeTimes(k, items), time);
  }

  /** The state of the other tasks, and the clock, are as they were; nobody joins a delayed list. */
  ghost predicate Undisturbed(k: Kernel, k': Kernel, touched: set<TaskId>) {
    && k'.tick == k.tick && k'.overflows == k.overflows && k'.pendedTicks == k.pendedTicks
    && k'.delayed == k.delayed && k'.overflowDelayed == k.overflowDelayed
    && (forall u :: u !in touched ==> (u in k.tasks <==> u in k'.tasks))
    && (forall u :: u !in touched && u in k.tasks ==>
          k'.tasks[u].state == k.tasks[u].state && k'.tasks[u].wakeTime == k.tasks[u].wakeTime &&
            k'.tasks[u].event == k.tasks[u].event)
    && (forall u :: u in k'.tasks && IsDelayedList(k'.tasks[u].state) ==>
          u in k.tasks && k'.tasks[u].state == k.tasks[u].state && k'.tasks[u].wakeTime == k.tasks[u].wakeTime)
  }

  lemma UndisturbedClock(k: Kernel, k': Kernel, touched: set<TaskId>)
    requires ClockExact(k) && Undisturbed(k, k', touched) && IsDelayedList(k.delayed)
    ensures NobodyOverdue(k') && Now(k') == Now(k)
    ensures k'.nextUnblock == k.nextUnblock ==> UnblockTimeSafe(k')
    ensures forall u :: u !in touched && u in k.tasks ==>
      u in k'.tasks && StatusOf(k', k'.tasks[u]) == StatusOf(k, k.tasks[u])
  {
  }

  /** The delayed lists are the same lists, of tasks with the same wake times. */
  lemma SortedSame(k: Kernel, k': Kernel)
    requires SleepersSorted(k) && k'.delayed == k.delayed && k'.overflowDelayed == k.overflowDelayed
    requires StateItems(k', k.delayed).items == StateItems(k, k.delayed).items
    requires StateItems(k', k.overflowDelayed).items == StateItems(k, k.overflowDelayed).items
    requires forall u :: u in StateItems(k, k.delayed).items || u in StateItems(k, k.overflowDelayed).items ==>
               TaskOf(k', u).wakeTime == TaskOf(k, u).wakeTime
    ensures SleepersSorted(k')
  {
    WakeTimesSame(k, k', StateItems(k, k.delayed).items);
    WakeTimesSame(k, k', StateItems(k, k.overflowDelayed).items);
  }

  lemma WithoutSorted(k: Kernel, l: List<TaskId>, t: TaskId)
    ensures Sorted(WakeTimes(k, l.items)) ==> Sorted(WakeTimes(k, Unlist(l, t).items))
  {
    var p := Position(l.items, t);
    if Sorted(WakeTimes(k, l.items)) && p < |l.items| && l.index <= |l.items| {
      var r := WakeTimes(k, Without(l.items, p));
      assert forall i :: 0 <= i < |r| ==> r[i] == WakeTimes(k, l.items)[if i < p then i else i + 1];
    }
  }

  lemma RemoveStateSorted(k: Kernel, n: StateList, t: TaskId)
    requires SleepersSorted(k)
    ensures SleepersSorted(RemoveState(k, n, t))
  {
    var k' := RemoveState(k, n, t);
    WithoutSorted(k, StateItems(k, n), t);
    assert forall items :: WakeTimes(k', items) == WakeTimes(k, items);
  }

  // ----- blocking

  /** What a delay of the given length means on the unbounded clock. */
  function DelayStatus(k: Kernel, ticks: Tick, canBlockIndefinitely: bool): Status {
    if ticks == MAX_DELAY && canBlockIndefinitely then Parked else Sleeping(Now(k) + ticks)
  }

  /** A delay of zero ticks is woken by the next tick, which must not be the wrapping one. */
  predicate DelayAllowed(k: Kernel, ticks: Tick) {
    ticks > 0 || k.tick < MAX_DELAY
  }

  ghost predicate BlockingPoint(k: Kernel) {
    && ClockExact(k) && k.running in k.tasks && !IsDelayedList(k.tasks[k.running].state)
    && IsDelayedList(k.delayed) && IsDelayedList(k.overflowDelayed) && k.delayed != k.overflowDelayed
    && k.running !in StateItems(k, k.delayed).items && k.running !in StateItems(k, k.overflowDelayed).items
  }

  lemma LeaveReadyClock(k: Kernel)
    requires BlockingPoint(k)
    ensures BlockingPoint(LeaveReady(k)) && Now(LeaveReady(k)) == Now(k)
  {
    var k' := LeaveReady(k);
    assert k'.tasks == k.tasks;
    SortedSame(k, k');
  }

  function FiledTask(k: Kernel, ticks: Tick, canBlockIndefinitely: bool): Tcb {
    if ticks == MAX_DELAY && canBlockIndefinitely then TaskOf(k, k.running).(state := Suspended)
    else TaskOf(k, k.running).(state := FiledOn(k, ticks, canBlockIndefinitely), wakeTime := Wrapped(k.tick + ticks))
  }

  lemma FileDelayedShape(k: Kernel, ticks: Tick, canBlockIndefinitely: bool)
    requires IsDelayedList(k.delayed) && IsDelayedList(k.overflowDelayed) && k.delayed != k.overflowDelayed
    ensures var k', n := FileDelayed(k, ticks, canBlockIndefinitely), FiledOn(k, ticks, canBlockIndefinitely);
      && k' == k.(lists := k'.lists, nextUnblock := k'.nextUnblock,
                  tasks := k.tasks[k.running := FiledTask(k, ticks, canBlockIndefinitely)])
      && k'.nextUnblock <= k.nextUnblock
      && (n == k.delayed ==> k'.nextUnblock <= Wrapped(k.tick + ticks))
  {
    hide Wrapped, StateItems, SortedPosition, WakeTimes, Insert, InsertEnd;
  }

  lemma FileDelayedLists(k: Kernel, ticks: Tick, canBlockIndefinitely: bool, m: StateList)
    ensures var k', n := FileDelayed(k, ticks, canBlockIndefinitely), FiledOn(k, ticks, canBlockIndefinitely);
      StateItems(k', m) == if n == m && n != Suspended
        then StateItems(InsertByWakeTime(k, n, k.running, Wrapped(k.tick + ticks)), m)
                           else if m == Suspended then StateItems(k', m) else StateItems(k, m)
  {
    hide SortedPosition, WakeTimes, Insert, InsertEnd, Wrapped;
  }

  lemma FiledStatus(k: Kernel, ticks: Tick, canBlockIndefinitely: bool)
    requires IsDelayedList(k.delayed) && IsDelayedList(k.overflowDelayed) && k.delayed != k.overflowDelayed
    ensures StatusOf(k, FiledTask(k, ticks, canBlockIndefinitely)) == DelayStatus(k, ticks, canBlockIndefinitely)
    ensures FiledOn(k, ticks, canBlockIndefinitely) == k.delayed ==> Wrapped(k.tick + ticks) == k.tick + ticks
  {
  }

  lemma InsertedSorted(k: Kernel, k': Kernel, n: StateList, time: Tick)
    requires Sorted(WakeTimes(k, StateItems(k, n).items)) && k.running !in StateItems(k, n).items
    requires StateItems(k', n) == StateItems(InsertByWakeTime(k, n, k.running, time), n)
    requires forall u :: u != k.running ==> TaskOf(k', u).wakeTime == TaskOf(k, u).wakeTime
    requires TaskOf(k', k.running).wakeTime == time
    ensures Sorted(WakeTimes(k', StateItems(k', n).items))
  {
    var k1 := InsertByWakeTime(k, n, k.running, time);
    InsertByWakeTimeSorted(k, n, k.running, time);
    assert forall u :: TaskOf(k1, u).wakeTime == TaskOf(k', u).wakeTime;
    WakeTimesSame(k1, k', StateItems(k1, n).items);
  }

  lemma FileDelayedSorted(k: Kernel, ticks: Tick, canBlockIndefinitely: bool)
    requires BlockingPoint(k)
    ensures SleepersSorted(FileDelayed(k, ticks, canBlockIndefinitely))
  {
    hide FileDelayed, InsertByWakeTime, Sorted, UnblockTimeSafe, NobodyOverdue, StateItems, WakeTimes;
    var k', n := FileDelayed(k, ticks, canBlockIndefinitely), FiledOn(k, ticks, canBlockIndefinitely);
    FileDelayedShape(k, ticks, canBlockIndefinitely);
    FileDelayedLists(k, ticks, canBlockIndefinitely, k.delayed);
    FileDelayedLists(k, ticks, canBlockIndefinitely, k.overflowDelayed);
    forall m | m == k.delayed || m == k.overflowDelayed ensures Sorted(WakeTimes(k', StateItems(k', m).items)) {
      if m == n { InsertedSorted(k, k', n, Wrapped(k.tick + ticks)); }
      else { WakeTimesSame(k, k', StateItems(k, m).items); }
    }
  }

  /** The effect of one task control block going to sleep. */
  ghost predicate FiledAs(k: Kernel, k': Kernel, task: Tcb) {
    && k' == k.(lists := k'.lists, nextUnblock := k'.nextUnblock, tasks := k.tasks[k.running := task])
    && k'.nextUnblock <= k.nextUnblock
    && (task.state == k.delayed ==> k'.nextUnblock <= task.wakeTime)
  }

  lemma FiledClock(k: Kernel, k': Kernel, task: Tcb)
    requires UnblockTimeSafe(k) && NobodyOverdue(k) && FiledAs(k, k', task)
    requires task.state == k.delayed ==> k.tick <= task.wakeTime && (task.wakeTime == k.tick ==> k.tick < MAX_DELAY)
    ensures UnblockTimeSafe(k') && NobodyOverdue(k')
  {
  }

  lemma FiledAbstract(k: Kernel, k': Kernel, task: Tcb)
    requires FiledAs(k, k', task)
    ensures Abstract(k') == Clocked(Now(k), Abstract(k).status[k.running := StatusOf(k, task)])
  {
    var s := Clocked(Now(k), Abstract(k).status[k.running := StatusOf(k, task)]);
    forall t | t in k'.tasks ensures StatusOf(k', k'.tasks[t]) == s.status[t] {
      if t != k.running { assert Abstract(k).status[t] == StatusOf(k, k.tasks[t]); }
    }
    AbstractIs(k', s);
  }

  lemma LeaveReadyAbstract(k: Kernel)
    ensures Abstract(LeaveReady(k)) == Abstract(k)
  {
    hide LeaveReady;
    DelayCurrentFrame(k, 0, false);
    SameFieldsSameAbstract(k, LeaveReady(k));
  }

  lemma SameFieldsSameAbstract(k: Kernel, k': Kernel)
    requires k'.tasks == k.tasks && k'.tick == k.tick && k'.overflows == k.overflows
    requires k'.delayed == k.delayed && k'.overflowDelayed == k.overflowDelayed
    ensures Abstract(k') == Abstract(k)
  {
    assert forall t :: t in k.tasks ==> StatusOf(k', k.tasks[t]) == StatusOf(k, k.tasks[t]);
  }

  /** Blocking refines the delay of the simple scheduler: the running task sleeps until the
      unbounded time now + ticks, or for ever, and the clock invariant is kept. */
  lemma DelayCurrentRefines(k: Kernel, ticks: Tick, canBlockIndefinitely: bool)
    requires BlockingPoint(k) && DelayAllowed(k, ticks)
    ensures var k' := DelayCurrent(k, ticks, canBlockIndefinitely);
      && ClockExact(k')
      && Abstract(k') == Clocked(Now(k), Abstract(k).status[k.running := DelayStatus(k, ticks, canBlockIndefinitely)])
  {
    var k1, k' := LeaveReady(k), DelayCurrent(k, ticks, canBlockIndefinitely);
    var task := FiledTask(k1, ticks, canBlockIndefinitely);
    LeaveReadyClock(k);
    LeaveReadyAbstract(k);
    DelayCurrentFrame(k, ticks, canBlockIndefinitely);
    FileDelayedShape(k1, ticks, canBlockIndefinitely);
    FiledStatus(k1, ticks, canBlockIndefinitely);
    FileDelayedSorted(k1, ticks, canBlockIndefinitely);
    assert task.state == k1.delayed ==> task.wakeTime == k1.tick + ticks;
    SameNowSameStatus(k, k1, ticks, canBlockIndefinitely);
    hide LeaveReady, FileDelayed, SleepersSorted, FiledTask, DelayStatus, StatusOf, StateItems, Abstract;
    assert FiledAs(k1, k', task);
    FiledClock(k1, k', task);
    FiledAbstract(k1, k', task);
  }

  lemma SameNowSameStatus(k: Kernel, k1: Kernel, ticks: Tick, canBlockIndefinitely: bool)
    requires Now(k) == Now(k1)
    ensures DelayStatus(k, ticks, canBlockIndefinitely) == DelayStatus(k1, ticks, canBlockIndefinitely)
  {
  }

  /** A delay of zero ticks files the task under the present tick. */
  lemma ZeroDelayFiled(k: Kernel)
    requires BlockingPoint(k)
    ensures var k' := DelayCurrent(k, 0, false);
      && k.running in k'.tasks && k'.tasks[k.running].state == k'.delayed && k'.tasks[k.running].wakeTime == k'.tick
      && k'.tick == k.tick && k'.overflows == k.overflows && k'.delayed == k.delayed &&
           k'.overflowDelayed == k.overflowDelayed
  {
    hide LeaveReady, FileDelayed, FiledTask, SleepersSorted, UnblockTimeSafe, StateItems, DelayStatus;
    var k1 := LeaveReady(k);
    LeaveReadyClock(k);
    DelayCurrentFrame(k, 0, false);
    FileDelayedShape(k1, 0, false);
    FiledNow(k1);
  }

  /** The unblocking loop does not touch a task that is not on the current delayed list. */
  lemma {:induction false} WakeExpiredLeaves(k: Kernel, switchRequired: bool, t: TaskId)
    requires Structure(k) && t in k.tasks && k.tasks[t].state != k.delayed
    ensures var k' := WakeExpired(k, switchRequired).0; t in k'.tasks && k'.tasks[t] == k.tasks[t]
    decreases |StateItems(k, k.delayed).items|
  {
    hide Structure, WakeHead, StateItems;
    var l := StateItems(k, k.delayed);
    if l.items != [] && k.tick >= TaskOf(k, l.items[0]).wakeTime && IsDelayedList(k.delayed) && l.index <= |l.items| {
      var u := l.items[0];
      DelayedHead(k);
      WakeHeadKeeps(k);
      WakeHeadFrame(k, u);
      WakeHeadShortens(k);
      var k1 := WakeHead(k);
      WakeExpiredLeaves(k1, switchRequired || TaskOf(k1, u).priority >= TaskOf(k1, k1.running).priority, t);
    }
  }

  /** A task still on the current list when the lists are switched misses a whole epoch. */
  lemma MissedAtSwitch(k: Kernel, t: TaskId)
    requires Structure(k) && t in k.tasks && k.tasks[t].state == k.delayed && k.tick == k.tasks[t].wakeTime == MAX_DELAY
    ensures var k' := ProcessTick(k).0; t in k'.tasks && StatusOf(k', k'.tasks[t]) == Sleeping(Now(k) + 2 * WRAP)
  {
    hide *;
    var k1 := AdvanceTick(k);
    AdvanceTickKeeps(k);
    AdvancedAtWrap(k);
    NamesOf(k);
    WakeExpiredKeeps(k1, false);
    WakeExpiredLeaves(k1, false, t);
    ProcessIsWake(k, t);
    MissedStatus(k, ProcessTick(k).0, k.tasks[t]);
  }

  /** What a processed tick leaves alone if its unblocking loop does. */
  lemma ProcessIsWake(k: Kernel, t: TaskId)
    requires var k1, k2 := AdvanceTick(k), WakeExpired(AdvanceTick(k), false).0;
      && t in k1.tasks && t in k2.tasks && k2.tasks[t] == k1.tasks[t]
      && k2 == k1.(tasks := k2.tasks, lists := k2.lists, events := k2.events, topReady := k2.topReady,
           nextUnblock := k2.nextUnblock)
    ensures var k', k1 := ProcessTick(k).0, AdvanceTick(k);
      && t in k'.tasks && k'.tasks[t] == k1.tasks[t] && k'.overflows == k1.overflows
      && k'.delayed == k1.delayed && k'.overflowDelayed == k1.overflowDelayed
  {
    hide AdvanceTick, WakeExpired, StateItems;
  }

  lemma MissedStatus(k: Kernel, k': Kernel, task: Tcb)
    requires k.delayed != k.overflowDelayed && !k.delayed.Ready? && k.tick == MAX_DELAY
    requires k'.delayed == k.overflowDelayed && k'.overflowDelayed == k.delayed && k'.overflows == k.overflows + 1
    requires task.state == k.delayed && task.wakeTime == MAX_DELAY
    ensures StatusOf(k', task) == Sleeping(Now(k) + 2 * WRAP)
  {
  }

  lemma AdvancedAtWrap(k: Kernel)
    requires k.tick == MAX_DELAY
    ensures var k1 := AdvanceTick(k);
      && k1.overflows == k.overflows + 1 && k1.tasks == k.tasks
      && k1.delayed == k.overflowDelayed && k1.overflowDelayed == k.delayed
  {
    hide StateItems;
  }

  /** vTaskDelay and the other callers never block for zero ticks at the maximal tick, and must
      not: exactly then the list that the next tick switches is not empty, and the task is
      not woken by that tick but sleeps twice round the clock. */
  lemma ZeroDelayOverdueIff(k: Kernel)
    requires Structure(k) && ClockExact(k) && MayBlock(k)
    ensures var k' := DelayCurrent(k, 0, false);
      Wrapped(k'.tick + 1) == 0 && StateItems(k', k'.delayed).items != [] <==> k.tick == MAX_DELAY
    ensures var after := ProcessTick(DelayCurrent(k, 0, false)).0;
      && k.running in after.tasks
      && StatusOf(after, after.tasks[k.running]) == if k.tick == MAX_DELAY then Sleeping(Now(k) + 2 * WRAP)
           else Runnable
  {
    hide *;
    ZeroDelayListed(k);
    var k' := DelayCurrent(k, 0, false);
    NowOf(k, k');
    if k.tick == MAX_DELAY {
      MissedAtSwitch(k', k.running);
    } else {
      NotTheLastTick(k);
      DelayCurrentRefines(k, 0, false);
      ProcessTickRefines(k');
      DueIsWoken(k', k.running);
    }
  }

  lemma NotTheLastTick(k: Kernel)
    requires k.tick != MAX_DELAY
    ensures DelayAllowed(k, 0) && Wrapped(k.tick + 1) != 0
  {
  }

  lemma NowOf(k: Kernel, k': Kernel)
    requires k'.tick == k.tick && k'.overflows == k.overflows
    ensures Now(k') == Now(k) && (k.tick == MAX_DELAY ==> Wrapped(k.tick + 1) == 0)
  {
  }

  lemma ZeroDelayListed(k: Kernel)
    requires Structure(k) && ClockExact(k) && MayBlock(k)
    ensures BlockingPoint(k) && !k.delayed.Ready?
    ensures var k' := DelayCurrent(k, 0, false);
      && Structure(k') && StateItems(k', k'.delayed).items != []
      && k.running in k'.tasks && k'.tasks[k.running].state == k'.delayed && k'.tasks[k.running].wakeTime == k'.tick
      && k'.tick == k.tick && k'.overflows == k.overflows && k'.delayed == k.delayed
  {
    hide DelayCurrent, ClockExact, Distinct, EventsExact;
    assert BlockingPoint(k);
    ZeroDelayFiled(k);
    DelayCurrentKeeps(k, 0, false);
    assert k.running in StateItems(DelayCurrent(k, 0, false), k.delayed).items;
  }

  lemma DueIsWoken(k: Kernel, t: TaskId)
    requires Abstract(ProcessTick(k).0) == SpecTick(Abstract(k))
    requires t in k.tasks && k.tasks[t].state == k.delayed && k.tasks[t].wakeTime <= k.tick && !k.delayed.Ready?
    ensures var k' := ProcessTick(k).0; t in k'.tasks && StatusOf(k', k'.tasks[t]) == Runnable
  {
    hide ProcessTick;
    var k' := ProcessTick(k).0;
    assert t in Abstract(k).status && Abstract(k).status[t] == StatusOf(k, k.tasks[t]);
    assert t in Abstract(k').status && Abstract(k').status[t] == StatusOf(k', k'.tasks[t]);
  }

  lemma FiledNow(k: Kernel)
    requires k.running in k.tasks
    ensures FiledTask(k, 0, false) == k.tasks[k.running].(state := k.delayed, wakeTime := k.tick)
  {
  }

  // ----- everything else leaves the sleepers alone

  /** One task changes, and does not join a delayed list. */
  lemma OneTaskUndisturbed(k: Kernel, k': Kernel, t: TaskId, task: Tcb)
    requires t in k.tasks && k'.tasks == k.tasks[t := task]
    requires k'.tick == k.tick && k'.overflows == k.overflows && k'.pendedTicks == k.pendedTicks
    requires k'.delayed == k.delayed && k'.overflowDelayed == k.overflowDelayed
    requires !IsDelayedList(task.state) || (task.state == k.tasks[t].state && task.wakeTime == k.tasks[t].wakeTime)
    ensures Undisturbed(k, k', {t})
  {
  }

  /** The same, with the clock invariant, when the delayed lists are untouched. */
  lemma OneTaskClock(k: Kernel, k': Kernel, t: TaskId, task: Tcb)
    requires ClockExact(k) && IsDelayedList(k.delayed) && IsDelayedList(k.overflowDelayed)
    requires t in k.tasks && k'.tasks == k.tasks[t := task] && task.wakeTime == k.tasks[t].wakeTime
    requires k'.tick == k.tick && k'.overflows == k.overflows && k'.nextUnblock == k.nextUnblock &&
      k'.pendedTicks == k.pendedTicks
    requires k'.delayed == k.delayed && k'.overflowDelayed == k.overflowDelayed
    requires !IsDelayedList(task.state) || task.state == k.tasks[t].state
    requires StateItems(k', k.delayed).items == StateItems(k, k.delayed).items
    requires StateItems(k', k.overflowDelayed).items == StateItems(k, k.overflowDelayed).items
    ensures ClockExact(k') && Undisturbed(k, k', {t})
  {
    OneTaskUndisturbed(k, k', t, task);
    SortedSame(k, k');
    hide SleepersSorted, Undisturbed;
    UndisturbedClock(k, k', {t});
  }

  lemma RemoveStateClock(k: Kernel, n: StateList, t: TaskId)
    requires ClockExact(k)
    ensures ClockExact(RemoveState(k, n, t))
  {
    RemoveStateSorted(k, n, t);
  }

  lemma MakeReadyLists(k: Kernel, t: TaskId, m: StateList)
    requires !m.Ready?
    ensures StateItems(MakeReady(k, t), m) == StateItems(RemoveState(k, TaskOf(k, t).state, t), m)
  {
  }

  lemma MakeReadyClock(k: Kernel, t: TaskId)
    requires ClockExact(k) && t in k.tasks && IsDelayedList(k.delayed) && IsDelayedList(k.overflowDelayed)
    ensures ClockExact(MakeReady(k, t)) && Undisturbed(k, MakeReady(k, t), {t})
  {
    var k1, k' := RemoveState(k, k.tasks[t].state, t), MakeReady(k, t);
    RemoveStateClock(k, k.tasks[t].state, t);
    AddToReadyListFrame(k, t);
    MakeReadyLists(k, t, k.delayed);
    MakeReadyLists(k, t, k.overflowDelayed);
    OneTaskUndisturbed(k, k', t, k'.tasks[t]);
    hide MakeReady, ClockExact, Undisturbed;
    OneTaskClock(k1, k', t, k'.tasks[t]);
  }

  lemma RemoveEventClock(k: Kernel, t: TaskId)
    requires ClockExact(k) && t in k.tasks && IsDelayedList(k.delayed) && IsDelayedList(k.overflowDelayed)
    ensures ClockExact(RemoveEvent(k, t)) && Undisturbed(k, RemoveEvent(k, t), {t})
  {
    RemoveEventFrame(k, t);
    hide RemoveEvent, ClockExact, Undisturbed;
    OneTaskClock(k, RemoveEvent(k, t), t, RemoveEvent(k, t).tasks[t]);
  }

  lemma AppendEventClock(k: Kernel, e: EventPlace, t: TaskId)
    requires ClockExact(k) && t in k.tasks && IsDelayedList(k.delayed) && IsDelayedList(k.overflowDelayed)
    ensures ClockExact(AppendEvent(k, e, t)) && Undisturbed(k, AppendEvent(k, e, t), {t})
  {
    hide ClockExact, Undisturbed;
    OneTaskClock(k, AppendEvent(k, e, t), t, k.tasks[t].(event := e));
  }

  lemma UndisturbedTrans(k: Kernel, k1: Kernel, k': Kernel, a: set<TaskId>, b: set<TaskId>)
    requires Undisturbed(k, k1, a) && Undisturbed(k1, k', b)
    ensures Undisturbed(k, k', a + b)
  {
  }

  lemma UndisturbedFlags(k: Kernel, k1: Kernel, k': Kernel, a: set<TaskId>)
    requires Undisturbed(k, k1, a)
    requires k' == k1.(yieldPending := k'.yieldPending, schedulerSuspended := k'.schedulerSuspended,
      nextUnblock := k'.nextUnblock)
    ensures Undisturbed(k, k', a)
  {
  }

  lemma WakeOrPendClock(k: Kernel, t: TaskId)
    requires ClockExact(k) && DelayedNames(k) && t in k.tasks
    ensures ClockExact(WakeOrPend(k, t)) && Undisturbed(k, WakeOrPend(k, t), {t})
  {
    hide ClockExact, Undisturbed, MakeReady, AppendEvent;
    if k.schedulerSuspended == 0 { MakeReadyClock(k, t); } else { AppendEventClock(k, Pending, t); }
  }

  lemma EventShape(k: Kernel, id: nat)
    requires EventItems(k, OnEvent(id)) != []
    ensures var t := EventItems(k, OnEvent(id))[0];
      var k2 := WakeOrPend(RemoveEvent(k, t), t);
      RemoveFromEventList(k, id) == k2.(yieldPending := RemoveFromEventList(k, id).yieldPending)
  {
    hide WakeOrPend, RemoveEvent, EventItems;
  }

  lemma EventClock(k: Kernel, id: nat)
    requires Structure(k) && ClockExact(k) && EventItems(k, OnEvent(id)) != []
    ensures var k', t := RemoveFromEventList(k, id), EventItems(k, OnEvent(id))[0];
      ClockExact(k') && Undisturbed(k, k', {t})
  {
    hide *;
    var t, k' := EventItems(k, OnEvent(id))[0], RemoveFromEventList(k, id);
    var k1 := RemoveEvent(k, t);
    EventHeadBlocked(k, id);
    NamesOf(k);
    NamesAre(k);
    RemoveEventClock(k, t);
    RemoveEventFrame(k, t);
    NamesAre(k1);
    WakeOrPendClock(k1, t);
    UndisturbedTrans(k, k1, WakeOrPend(k1, t), {t}, {t});
    assert {t} + {t} == {t};
    EventShape(k, id);
    ClockIgnoresFlags(WakeOrPend(k1, t), k');
    UndisturbedFlags(k, WakeOrPend(k1, t), k', {t});
  }

  lemma NamesAre(k: Kernel)
    ensures DelayedNames(k) <==> IsDelayedList(k.delayed) && IsDelayedList(k.overflowDelayed)
  {
  }

  lemma UnorderedEventClock(k: Kernel, t: TaskId, value: Tick)
    requires ClockExact(k) && DelayedNames(k) && t in k.tasks
    ensures var k' := RemoveFromUnorderedEventList(k, t, value);
      ClockExact(k') && Undisturbed(k, k', {t})
  {
    hide ClockExact, Undisturbed, RemoveEvent, MakeReady;
    var task := TaskOf(k, t).(eventValue := MarkedInUse(value));
    var k0 := k.(tasks := k.tasks[t := task]);
    OneTaskClock(k, k0, t, task);
    RemoveEventClock(k0, t);
    var k1 := RemoveEvent(k0, t);
    RemoveEventFrame(k0, t);
    MakeReadyClock(k1, t);
    var k2 := MakeReady(k1, t);
    UndisturbedTrans(k, k0, k1, {t}, {t});
    UndisturbedTrans(k, k1, k2, {t} + {t}, {t});
    assert {t} + {t} + {t} == {t};
    ClockIgnoresFlags(k2, k2.(yieldPending := true));
    UndisturbedFlags(k, k2, k2.(yieldPending := true), {t});
  }

  lemma PendingHeadMade(k: Kernel, t: TaskId, k1: Kernel)
    requires ClockExact(k) && DelayedNames(k) && t in k.tasks
    requires k1 == k.(events := k1.events, tasks := k.tasks[t := k.tasks[t].(event := Nowhere)])
    ensures ClockExact(MakeReady(k1, t)) && Undisturbed(k, MakeReady(k1, t), {t})
  {
    hide ClockExact, Undisturbed, MakeReady;
    OneTaskClock(k, k1, t, k.tasks[t].(event := Nowhere));
    MakeReadyClock(k1, t);
    UndisturbedTrans(k, k1, MakeReady(k1, t), {t}, {t});
    assert {t} + {t} == {t};
  }

  lemma PendingHeadClock(k: Kernel)
    requires Structure(k) && ClockExact(k) && EventItems(k, Pending) != []
    ensures ClockExact(ReadyPendingHead(k)) && Undisturbed(k, ReadyPendingHead(k), {EventItems(k, Pending)[0]})
  {
    var t := EventItems(k, Pending)[0];
    var k1 := k.(events := k.events[Pending := EventItems(k, Pending)[1..]],
                 tasks := k.tasks[t := TaskOf(k, t).(event := Nowhere)]);
    hide Structure, Core, ClockExact, Undisturbed, MakeReady, WaitersBlocked, EventItems, DelayedNames;
    PendingHeadRemoved(k, t, k1);
    NamesOf(k);
    PendingHeadMade(k, t, k1);
    var k2 := MakeReady(k1, t);
    ClockIgnoresFlags(k2, k2.(yieldPending := true));
    UndisturbedFlags(k, k2, k2.(yieldPending := true), {t});
  }

  function Members(s: seq<TaskId>): set<TaskId> {
    set t | t in s
  }

  lemma UndisturbedRefl(k: Kernel, touched: set<TaskId>)
    ensures Undisturbed(k, k, touched)
  {
  }

  lemma {:induction false} ReadyPendingClock(k: Kernel)
    requires Structure(k) && ClockExact(k)
    ensures ClockExact(ReadyPending(k)) && Undisturbed(k, ReadyPending(k), Members(EventItems(k, Pending)))
    decreases |EventItems(k, Pending)|
  {
    hide Structure, ClockExact, Undisturbed, ReadyPendingHead;
    if EventItems(k, Pending) == [] {
      UndisturbedRefl(k, Members(EventItems(k, Pending)));
    } else {
      PendingHeadClock(k);
      ReadyPendingHeadKeeps(k);
      var k1, items := ReadyPendingHead(k), EventItems(k, Pending);
      ReadyPendingClock(k1);
      UndisturbedTrans(k, k1, ReadyPending(k1), {items[0]}, Members(items[1..]));
      MembersOfTail(items);
    }
  }

  lemma MembersOfTail(items: seq<TaskId>)
    requires items != []
    ensures {items[0]} + Members(items[1..]) == Members(items)
  {
    assert items == [items[0]] + items[1..];
  }

  /** Recomputing xNextTaskUnblockTime makes it exact again. */
  lemma ResetUnblockClock(k: Kernel)
    requires Structure(k) && ClockExact(k)
    ensures ClockExact(ResetNextUnblock(k)) && Undisturbed(k, ResetNextUnblock(k), {})
    ensures Structure(ResetNextUnblock(k))
  {
    var items, k' := StateItems(k, k.delayed).items, ResetNextUnblock(k);
    forall t | t in k.tasks && k.tasks[t].state == k.delayed ensures k'.nextUnblock <= k.tasks[t].wakeTime {
      assert t in items;
      HeadIsEarliest(k, items, t);
    }
    UnblockTimeIrrelevant(k, k'.nextUnblock);
    SortedSame(k, k');
  }

  lemma ReadyAllPendingClock(k: Kernel)
    requires Structure(k) && ClockExact(k)
    ensures ClockExact(ReadyAllPending(k)) && Undisturbed(k, ReadyAllPending(k), Members(EventItems(k, Pending)))
  {
    hide Structure, ClockExact, Undisturbed, ReadyPending;
    if EventItems(k, Pending) == [] {
      UndisturbedRefl(k, Members(EventItems(k, Pending)));
    } else {
      ReadyPendingKeeps(k);
      ReadyPendingClock(k);
      ResetUnblockClock(ReadyPending(k));
      UndisturbedFlags(k, ReadyPending(k), ResetNextUnblock(ReadyPending(k)), Members(EventItems(k, Pending)));
    }
  }

  lemma UndisturbedStatus(k: Kernel, k': Kernel, touched: set<TaskId>, u: TaskId)
    requires Undisturbed(k, k', touched) && u !in touched && u in k.tasks
    ensures Now(k') == Now(k) && u in k'.tasks && k'.tasks[u].event == k.tasks[u].event
    ensures StatusOf(k', k'.tasks[u]) == StatusOf(k, k.tasks[u])
  {
  }

  lemma SameFieldsSameStatus(k: Kernel, k': Kernel, task: Tcb)
    requires k'.overflows == k.overflows && k'.delayed == k.delayed && k'.overflowDelayed == k.overflowDelayed
    ensures StatusOf(k', task) == StatusOf(k, task)
  {
  }

  /** Once the last suspension is lifted. */
  function Resumed(k: Kernel): Kernel {
    ReadyAllPending(k.(schedulerSuspended := 0))
  }

  lemma ReplayAfterPending(k: Kernel)
    requires Structure(k) && ClockExact(k) && k.schedulerSuspended == 0
    ensures var k2 := ReadyAllPending(k);
      && k2.pendedTicks == k.pendedTicks
      && ClockExact(ReplayTicks(k2, k2.pendedTicks))
      && Abstract(ReplayTicks(k2, k2.pendedTicks)) == SpecTicks(Abstract(k2), k.pendedTicks)
  {
    hide Structure, ClockExact, ReadyAllPending, Undisturbed, ReplayTicks, Abstract, SpecTicks;
    ReadyAllPendingKeeps(k);
    ReadyAllPendingClock(k);
    var k2 := ReadyAllPending(k);
    ReplayTicksRefine(k2, k2.pendedTicks);
  }

  /** xTaskResumeAll: the pending tasks become ready, then the pended ticks take effect one by
      one, exactly like ticks of the simple scheduler. */
  lemma ResumeAllRefines(k: Kernel)
    requires Structure(k) && ClockExact(k) && k.schedulerSuspended > 0
    ensures ClockExact(ResumeAll(k))
    ensures Abstract(ResumeAll(k)) ==
      if k.schedulerSuspended > 1 then Abstract(k) else SpecTicks(Abstract(Resumed(k)), k.pendedTicks)
  {
    hide Structure, ClockExact, ReadyAllPending, ReplayTicks, Abstract, SpecTicks;
    var k1 := k.(schedulerSuspended := k.schedulerSuspended - 1);
    FlagsIrrelevant(k, k1);
    ClockIgnoresFlags(k, k1);
    if k1.schedulerSuspended == 0 {
      ReplayAfterPending(k1);
      var k2 := ReplayTicks(ReadyAllPending(k1), k.pendedTicks);
      ClockIgnoresFlags(k2, k2.(pendedTicks := 0));
    }
  }

  /** Draining the pending-ready list moves no task that an event has not woken. */
  lemma ResumedStatuses(k: Kernel, u: TaskId)
    requires Structure(k) && ClockExact(k) && u in k.tasks && k.tasks[u].event != Pending
    ensures Now(Resumed(k)) == Now(k) && u in Resumed(k).tasks
    ensures StatusOf(Resumed(k), Resumed(k).tasks[u]) == StatusOf(k, k.tasks[u])
  {
    var k1 := k.(schedulerSuspended := 0);
    assert u !in Members(EventItems(k, Pending)) && IsDelayedList(k.delayed);
    assert EventItems(k1, Pending) == EventItems(k, Pending);
    hide Structure, ReadyAllPending, ClockExact, Members, Undisturbed, StatusOf, Abstract;
    FlagsIrrelevant(k, k1);
    ClockIgnoresFlags(k, k1);
    ReadyAllPendingClock(k1);
    UndisturbedStatus(k1, ReadyAllPending(k1), Members(EventItems(k1, Pending)), u);
    SameFieldsSameStatus(k, k1, k.tasks[u]);
  }

  lemma TakeOffClock(k: Kernel, t: TaskId)
    requires ClockExact(k) && t in k.tasks
    ensures ClockExact(TakeOffStateList(k, t))
    ensures var k' := TakeOffStateList(k, t);
      k' == k.(lists := k'.lists, topReady := k'.topReady)
  {
    RemoveStateClock(k, k.tasks[t].state, t);
    var k1 := RemoveState(k, k.tasks[t].state, t);
    SortedIrrelevant(k1, TakeOffStateList(k, t), k.delayed);
    SortedIrrelevant(k1, TakeOffStateList(k, t), k.overflowDelayed);
  }

  lemma OffListsClock(k: Kernel, t: TaskId)
    requires ClockExact(k) && DelayedNames(k) && t in k.tasks
    ensures var k' := RemoveEvent(TakeOffStateList(k, t), t);
      && ClockExact(k')
      && k' == k.(lists := k'.lists, topReady := k'.topReady, events := k'.events,
                  tasks := k.tasks[t := k.tasks[t].(event := Nowhere)])
  {
    hide ClockExact, TakeOffStateList, RemoveEvent, Undisturbed;
    TakeOffClock(k, t);
    RemoveEventClock(TakeOffStateList(k, t), t);
    RemoveEventFrame(TakeOffStateList(k, t), t);
  }

  lemma ParkClock(k0: Kernel, k: Kernel, t: TaskId, n: StateList)
    requires ClockExact(k) && DelayedNames(k) && t in k.tasks && !IsDelayedList(n)
    requires t in k0.tasks && k == k0.(lists := k.lists, topReady := k.topReady, events := k.events,
                  tasks := k0.tasks[t := k0.tasks[t].(event := Nowhere)])
    ensures var k' := k.(lists := k.lists[n := InsertEnd(StateItems(k, n), t)],
                         tasks := k.tasks[t := TaskOf(k, t).(state := n)]);
      ClockExact(k') && Undisturbed(k0, k', {t})
  {
    var k' := k.(lists := k.lists[n := InsertEnd(StateItems(k, n), t)],
                 tasks := k.tasks[t := TaskOf(k, t).(state := n)]);
    OneTaskUndisturbed(k0, k', t, k'.tasks[t]);
    hide ClockExact, Undisturbed;
    OneTaskClock(k, k', t, k'.tasks[t]);
  }

  lemma SuspendTaskClock(k: Kernel, t: TaskId)
    requires ClockExact(k) && DelayedNames(k) && t in k.tasks
    ensures ClockExact(SuspendTask(k, t)) && Undisturbed(k, SuspendTask(k, t), {t})
  {
    hide ClockExact, Undisturbed, RemoveEvent, TakeOffStateList;
    OffListsClock(k, t);
    ParkClock(k, RemoveEvent(TakeOffStateList(k, t), t), t, Suspended);
  }

  lemma ForgetClock(k0: Kernel, k: Kernel, t: TaskId)
    requires ClockExact(k) && DelayedNames(k) && InTransit(k, t)
    requires t in k0.tasks && k == k0.(lists := k.lists, topReady := k.topReady, events := k.events,
                  tasks := k0.tasks[t := k0.tasks[t].(event := Nowhere)])
    ensures var k' := k.(tasks := k.tasks - {t});
      ClockExact(k') && Undisturbed(k0, k', {t})
  {
    var k' := k.(tasks := k.tasks - {t});
    SortedSame(k, k');
  }

  lemma DeleteTaskClock(k: Kernel, t: TaskId)
    requires Structure(k) && PendingDrained(k) && ClockExact(k) && t in k.tasks && t != k.idle
    ensures ClockExact(DeleteTask(k, t)) && Undisturbed(k, DeleteTask(k, t), {t})
  {
    assert DelayedNames(k);
    OffListsKeeps(k, t);
    var k1 := RemoveEvent(TakeOffStateList(k, t), t);
    hide ClockExact, Undisturbed, RemoveEvent, TakeOffStateList, InTransit, Structure;
    OffListsClock(k, t);
    if t == k.running {
      ParkClock(k, k1, t, Termination);
    } else {
      ForgetClock(k, k1, t);
      ForgetKeeps(k1, t);
      var k2 := k1.(tasks := k1.tasks - {t});
      ResetUnblockClock(k2);
      UndisturbedFlags(k, k2, ResetNextUnblock(k2), {t});
    }
  }

  lemma ResumeTaskClock(k: Kernel, t: TaskId)
    requires ClockExact(k) && DelayedNames(k) && t in k.tasks
    ensures ClockExact(ResumeTask(k, t)) && Undisturbed(k, ResumeTask(k, t), {t})
    ensures ClockExact(ResumeTaskFromISR(k, t)) && Undisturbed(k, ResumeTaskFromISR(k, t), {t})
  {
    hide ClockExact, Undisturbed, MakeReady, AppendEvent;
    UndisturbedRefl(k, {t});
    MakeReadyClock(k, t);
    AppendEventClock(k, Pending, t);
  }

  lemma AddToReadyLists(k: Kernel, t: TaskId, m: StateList)
    requires !m.Ready?
    ensures StateItems(AddToReadyList(k, t), m) == StateItems(k, m)
  {
  }

  lemma NewTaskFields(k: Kernel, k': Kernel, t: TaskId, task: Tcb)
    requires UnblockTimeSafe(k) && NobodyOverdue(k) && t !in k.tasks && DelayedNames(k)
    requires k' == k.(tasks := k.tasks[t := task], lists := k'.lists, topReady := k'.topReady) &&
      !IsDelayedList(task.state)
    ensures UnblockTimeSafe(k') && NobodyOverdue(k') && Undisturbed(k, k', {t})
  {
  }

  lemma NewTaskUndisturbed(k: Kernel, k': Kernel, t: TaskId, task: Tcb)
    requires Structure(k) && ClockExact(k) && t !in k.tasks
    requires k' == k.(tasks := k.tasks[t := task], lists := k'.lists, topReady := k'.topReady) &&
      !IsDelayedList(task.state)
    requires StateItems(k', k.delayed) == StateItems(k, k.delayed)
    requires StateItems(k', k.overflowDelayed) == StateItems(k, k.overflowDelayed)
    ensures ClockExact(k') && Undisturbed(k, k', {t})
  {
    hide UnblockTimeSafe, NobodyOverdue, Undisturbed, SleepersSorted;
    SortedSame(k, k');
    NewTaskFields(k, k', t, task);
  }

  function NewTask(p: Priority): Tcb {
    Tcb(p, p, 0, Ready(p), 0, Nowhere, MAX_PRIORITIES - p)
  }

  lemma CreateShape(k: Kernel, t: TaskId, p: Priority, m: StateList)
    requires t !in k.tasks && !m.Ready?
    ensures var k' := CreateTask(k, t, p);
      k' == k.(tasks := k.tasks[t := NewTask(p)], lists := k'.lists, topReady := k'.topReady) &&
        StateItems(k', m) == StateItems(k, m)
  {
    var k1 := k.(tasks := k.tasks[t := NewTask(p)]);
    AddToReadyListFrame(k1, t);
    AddToReadyLists(k1, t, m);
    hide AddToReadyList;
    assert k1.tasks[t := k1.tasks[t].(state := Ready(p))] == k1.tasks;
  }

  lemma CreateTaskClock(k: Kernel, t: TaskId, p: Priority)
    requires Structure(k) && ClockExact(k) && t !in k.tasks
    ensures ClockExact(CreateTask(k, t, p)) && Undisturbed(k, CreateTask(k, t, p), {t})
  {
    hide Structure, ClockExact, Undisturbed, CreateTask, StateItems;
    NamesOf(k);
    CreateShape(k, t, p, k.delayed);
    CreateShape(k, t, p, k.overflowDelayed);
    NewTaskUndisturbed(k, CreateTask(k, t, p), t, NewTask(p));
  }

  lemma ChangePriorityClock(k: Kernel, t: TaskId, p: Priority)
    requires ClockExact(k) && DelayedNames(k) && t in k.tasks
    ensures ClockExact(ChangePriority(k, t, p)) && Undisturbed(k, ChangePriority(k, t, p), {t})
  {
    ChangePriorityFrame(k, t, p);
    ChangePriorityLists(k, t, p, k.delayed);
    ChangePriorityLists(k, t, p, k.overflowDelayed);
    hide ClockExact, Undisturbed, ChangePriority;
    OneTaskClock(k, ChangePriority(k, t, p), t, ChangePriority(k, t, p).tasks[t]);
  }

  lemma ChangePriorityLists(k: Kernel, t: TaskId, p: Priority, m: StateList)
    requires !m.Ready?
    ensures StateItems(ChangePriority(k, t, p), m) == StateItems(k, m)
  {
  }

  lemma BookkeepingClock(k: Kernel, t: TaskId, task: Tcb)
    requires ClockExact(k) && DelayedNames(k) && t in k.tasks
    requires task.state == k.tasks[t].state && task.wakeTime == k.tasks[t].wakeTime
    ensures ClockExact(k.(tasks := k.tasks[t := task])) && Undisturbed(k, k.(tasks := k.tasks[t := task]), {t})
  {
    hide ClockExact, Undisturbed;
    OneTaskClock(k, k.(tasks := k.tasks[t := task]), t, task);
  }

  lemma BookThenChange(k: Kernel, t: TaskId, task: Tcb, p: Priority)
    requires ClockExact(k) && DelayedNames(k) && t in k.tasks
    requires task.state == k.tasks[t].state && task.wakeTime == k.tasks[t].wakeTime
    ensures var k' := ChangePriority(k.(tasks := k.tasks[t := task]), t, p);
      ClockExact(k') && Undisturbed(k, k', {t})
  {
    hide ClockExact, Undisturbed, ChangePriority;
    var k1 := k.(tasks := k.tasks[t := task]);
    BookkeepingClock(k, t, task);
    ChangePriorityClock(k1, t, p);
    UndisturbedTrans(k, k1, ChangePriority(k1, t, p), {t}, {t});
    assert {t} + {t} == {t};
  }

  lemma PrioritiesClock(k: Kernel, t: TaskId, p: Priority)
    requires ClockExact(k) && DelayedNames(k) && t in k.tasks && k.running in k.tasks
    ensures ClockExact(SetPriority(k, t, p)) && Undisturbed(k, SetPriority(k, t, p), {t})
    ensures ClockExact(InheritPriority(k, t)) && Undisturbed(k, InheritPriority(k, t), {t})
    ensures ClockExact(IncrementMutexHeld(k)) && Undisturbed(k, IncrementMutexHeld(k), {k.running})
  {
    hide ClockExact, Undisturbed, ChangePriority;
    UndisturbedRefl(k, {t});
    var task, q := k.tasks[t], TaskOf(k, k.running).priority;
    BookThenChange(k, t, WithEventValueFor(task.(basePriority := p), p),
      if task.basePriority == task.priority then p else task.priority);
    BookThenChange(k, t, WithEventValueFor(task, q), q);
    BookkeepingClock(k, k.running, TaskOf(k, k.running).(mutexesHeld := TaskOf(k, k.running).mutexesHeld + 1));
  }

  lemma DisinheritClock(k: Kernel)
    requires ClockExact(k) && DelayedNames(k) && k.running in k.tasks
    ensures ClockExact(DisinheritPriority(k)) && Undisturbed(k, DisinheritPriority(k), {k.running})
  {
    hide ClockExact, Undisturbed, ChangePriority;
    var t := k.running;
    var task := MutexGiven(k);
    var task1 := task.(eventValue := MAX_PRIORITIES - task.basePriority);
    BookkeepingClock(k, t, task);
    BookThenChange(k, t, task1, task.basePriority);
  }

  lemma SwitchContextFrame(k: Kernel, m: StateList)
    ensures StateItems(SwitchContext(k), m).items == StateItems(k, m).items
    ensures SwitchContext(k) == k.(lists := SwitchContext(k).lists, running := SwitchContext(k).running,
      yieldPending := SwitchContext(k).yieldPending)
  {
  }

  lemma SwitchContextClock(k: Kernel)
    requires ClockExact(k)
    ensures ClockExact(SwitchContext(k)) && Undisturbed(k, SwitchContext(k), {})
  {
    SwitchContextFrame(k, k.delayed);
    SwitchContextFrame(k, k.overflowDelayed);
    hide SwitchContext;
    SortedSame(k, SwitchContext(k));
  }

  // ----- blocking on an event

  lemma OneTaskAbstract(k: Kernel, k': Kernel, t: TaskId, task: Tcb)
    requires t in k.tasks && k'.tasks == k.tasks[t := task]
    requires task.state == k.tasks[t].state && task.wakeTime == k.tasks[t].wakeTime
    requires k'.tick == k.tick && k'.overflows == k.overflows
    requires k'.delayed == k.delayed && k'.overflowDelayed == k.overflowDelayed
    ensures Abstract(k') == Abstract(k)
  {
    forall u | u in k'.tasks ensures StatusOf(k', k'.tasks[u]) == Abstract(k).status[u] {
      assert StatusOf(k', k'.tasks[u]) == StatusOf(k, k.tasks[u]);
    }
    AbstractIs(k', Abstract(k));
  }

  /** A ready task that joins an event list is about to block, and means what it meant. */
  lemma JoinedBlockingPoint(k: Kernel, k1: Kernel, task: Tcb)
    requires Structure(k) && ClockExact(k) && MayBlock(k)
    requires k1 == k.(tasks := k.tasks[k.running := task], events := k1.events)
    requires task.state == k.tasks[k.running].state && task.wakeTime == k.tasks[k.running].wakeTime
    ensures BlockingPoint(k1) && Abstract(k1) == Abstract(k) && Now(k1) == Now(k)
  {
    OneTaskAbstract(k, k1, k.running, task);
    assert DelayedNames(k) && k.delayed != k.overflowDelayed;
    assert k.running !in StateItems(k, k.delayed).items && k.running !in StateItems(k, k.overflowDelayed).items;
    assert StateItems(k1, k.delayed) == StateItems(k, k.delayed) &&
      StateItems(k1, k.overflowDelayed) == StateItems(k, k.overflowDelayed);
    hide ClockExact, Structure, Abstract, Undisturbed;
    OneTaskClock(k, k1, k.running, task);
  }

  /** vTaskPlaceOnEventList puts the running task to sleep like a delay. */
  lemma PlaceOnEventListRefines(k: Kernel, id: nat, ticks: Tick)
    requires Structure(k) && ClockExact(k) && MayBlock(k) && DelayAllowed(k, ticks)
    ensures var k' := PlaceOnEventList(k, id, ticks);
      ClockExact(k') && Abstract(k') == Clocked(Now(k), Abstract(k).status[k.running := DelayStatus(k, ticks, true)])
  {
    hide Structure, ClockExact, BlockingPoint, Abstract, DelayCurrent, Insert, SortedPosition, EventValues;
    var items := EventItems(k, OnEvent(id));
    var p := SortedPosition(EventValues(k, items), TaskOf(k, k.running).eventValue);
    var task := TaskOf(k, k.running).(event := OnEvent(id));
    var k1 := k.(events := k.events[OnEvent(id) := Insert(items, p, k.running)], tasks := k.tasks[k.running := task]);
    JoinedBlockingPoint(k, k1, task);
    DelayCurrentRefines(k1, ticks, true);
    SameNowSameStatus(k, k1, ticks, true);
  }

  /** vTaskPlaceOnEventListRestricted. */
  lemma PlaceRestrictedRefines(k: Kernel, id: nat, ticks: Tick, indefinitely: bool)
    requires Structure(k) && ClockExact(k) && MayBlock(k) && DelayAllowed(k, ticks)
    ensures var k' := PlaceRestricted(k, id, ticks, indefinitely);
      ClockExact(k') && Abstract(k') == Clocked(Now(k), Abstract(k).status[k.running :=
        if indefinitely then Parked else DelayStatus(k, ticks, false)])
  {
    hide Structure, ClockExact, BlockingPoint, Abstract, DelayCurrent;
    var k1 := AppendEvent(k, OnEvent(id), k.running);
    JoinedBlockingPoint(k, k1, TaskOf(k, k.running).(event := OnEvent(id)));
    DelayCurrentRefines(k1, if indefinitely then MAX_DELAY else ticks, indefinitely);
    SameNowSameStatus(k, k1, ticks, false);
  }

  /** vTaskPlaceOnUnorderedEventList. */
  lemma PlaceUnorderedRefines(k: Kernel, id: nat, value: Tick, ticks: Tick)
    requires Structure(k) && ClockExact(k) && MayBlock(k) && DelayAllowed(k, ticks)
    ensures var k' := PlaceOnUnorderedEventList(k, id, value, ticks);
      ClockExact(k') && Abstract(k') == Clocked(Now(k), Abstract(k).status[k.running := DelayStatus(k, ticks, true)])
  {
    hide Structure, ClockExact, BlockingPoint, Abstract, DelayCurrent;
    var task := TaskOf(k, k.running).(eventValue := MarkedInUse(value));
    var k0 := k.(tasks := k.tasks[k.running := task]);
    var k1 := AppendEvent(k0, OnEvent(id), k0.running);
    assert k1.tasks == k.tasks[k.running := task.(event := OnEvent(id))];
    JoinedBlockingPoint(k, k1, task.(event := OnEvent(id)));
    DelayCurrentRefines(k1, ticks, true);
    SameNowSameStatus(k, k1, ticks, true);
  }
}
