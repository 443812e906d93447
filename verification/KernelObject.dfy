/** tasks.c itself: the file's static variables as the fields of one object, its functions as
    methods proved against the specification functions.

    View is the object's state as a value. What the functions promise is proved about the
    specification functions, in KernelInvariant, KernelClock and KernelRuns. */
module KernelObject {
  import opened Ticks
  import opened ReadyBits
  import opened ListSpec
  import opened KernelSpec
  import opened KernelInvariant
  import opened KernelClock

  class TaskKernel {
    var tasks: map<TaskId, Tcb>
    var lists: map<StateList, List<TaskId>>
    var events: map<EventPlace, seq<TaskId>>
    var delayed: StateList
    var overflowDelayed: StateList
    var topReady: Bitmap
    var tick: Tick
    var overflows: nat
    var nextUnblock: Tick
    var pendedTicks: nat
    var schedulerSuspended: nat
    var yieldPending: bool
    var running: TaskId
    var idle: TaskId

    ghost function View(): Kernel
      reads this
    {
      Kernel(tasks, lists, events, delayed, overflowDelayed, topReady, tick, overflows, nextUnblock,
             pendedTicks, schedulerSuspended, yieldPending, running, idle)
    }

    function ListOf(n: StateList): (l: List<TaskId>)
      reads this
      ensures l == StateItems(View(), n)
    {
      if n in lists then lists[n] else List([], 0)
    }

    function WaitersFor(e: EventPlace): (s: seq<TaskId>)
      reads this
      ensures s == EventItems(View(), e)
    {
      if e in events then events[e] else []
    }

    function Block(t: TaskId): (task: Tcb)
      reads this
      ensures task == TaskOf(View(), t)
    {
      if t in tasks then tasks[t] else Tcb(0, 0, 0, Suspended, 0, Nowhere, 0)
    }

    /** uxListRemove of a state item: the item knows its list. */
    method RemoveStateItem(t: TaskId) returns (left: nat)
      modifies this`lists
      ensures View() == RemoveState(old(View()), old(Block(t)).state, t)
      ensures left == |ListOf(old(Block(t)).state).items|
    {
      var n := Block(t).state;
      lists := lists[n := Unlist(ListOf(n), t)];
      left := |ListOf(n).items|;
    }

    /** uxListRemove of an event item, if it is on a list. */
    method RemoveEventItem(t: TaskId)
      modifies this`events, this`tasks
      ensures View() == RemoveEvent(old(View()), t)
    {
      var e := Block(t).event;
      if e != Nowhere {
        var p := Position(WaitersFor(e), t);
        if p < |WaitersFor(e)| { events := events[e := Without(WaitersFor(e), p)]; }
        else { events := events[e := WaitersFor(e)]; }
        tasks := tasks[t := Block(t).(event := Nowhere)];
      }
    }

    /** prvAddTaskToReadyList. */
    method AddTaskToReadyList(t: TaskId)
      modifies this`topReady, this`lists, this`tasks
      ensures View() == AddToReadyList(old(View()), t)
    {
      var p := Block(t).priority;
      topReady := Record(topReady, p);
      lists := lists[Ready(p) := InsertEnd(ListOf(Ready(p)), t)];
      tasks := tasks[t := Block(t).(state := Ready(p))];
    }

    method ResetNextTaskUnblockTime()
      modifies this`nextUnblock
      ensures View() == ResetNextUnblock(old(View()))
    {
      if ListOf(delayed).items == [] { nextUnblock := MAX_DELAY; }
      else { nextUnblock := Block(ListOf(delayed).items[0]).wakeTime; }
    }

    /** taskSWITCH_DELAYED_LISTS; its configASSERT is the precondition. */
    method SwitchLists()
      requires ListOf(delayed).items == []
      modifies this`delayed, this`overflowDelayed, this`overflows, this`nextUnblock
      ensures View() == SwitchDelayedLists(old(View()))
    {
      var temp := delayed;
      delayed := overflowDelayed;
      overflowDelayed := temp;
      overflows := overflows + 1;
      ResetNextTaskUnblockTime();
    }

    /** The loop of xTaskIncrementTick that unblocks every task whose time has come. */
    method UnblockExpired() returns (switchRequired: bool)
      requires Structure(View())
      modifies this`tasks, this`lists, this`events, this`topReady, this`nextUnblock
      ensures (View(), switchRequired) == WakeExpired(old(View()), false)
    {
      hide Structure, WakeHead;
      switchRequired := false;
      while true
        invariant Structure(View()) && delayed == old(delayed)
        invariant WakeExpired(View(), switchRequired) == WakeExpired(old(View()), false)
        decreases |StateItems(View(), delayed).items|
      {
        if ListOf(delayed).items == [] {
          nextUnblock := MAX_DELAY;
          break;
        }
        var t := ListOf(delayed).items[0];
        var itemValue := Block(t).wakeTime;
        if tick < itemValue {
          nextUnblock := itemValue;
          break;
        }
        label Before:
        DelayedHead(View());
        WakeHeadKeeps(View());
        WakeHeadShortens(View());
        var left := RemoveStateItem(t);
        RemoveEventItem(t);
        AddTaskToReadyList(t);
        assert View() == WakeHead(old@Before(View())) by { WakeHeadSteps(old@Before(View()), t); }
        if Block(t).priority >= Block(running).priority { switchRequired := true; }
      }
    }

    lemma WakeHeadSteps(k: Kernel, t: TaskId)
      requires StateItems(k, k.delayed).items != [] && t == StateItems(k, k.delayed).items[0] &&
        TaskOf(k, t).state == k.delayed
      ensures WakeHead(k) == AddToReadyList(RemoveEvent(RemoveState(k, TaskOf(k, t).state, t), t), t)
    {
    }

    /** xTaskIncrementTick. */
    method IncrementTickCount() returns (switchRequired: bool)
      requires Structure(View())
      requires schedulerSuspended == 0 && tick == MAX_DELAY ==> ListOf(delayed).items == []
      modifies this
      ensures (View(), switchRequired) == IncrementTick(old(View()))
    {
      hide Structure, WakeExpired, SwitchDelayedLists;
      switchRequired := false;
      if schedulerSuspended == 0 {
        AdvanceTickKeeps(View());
        tick := Wrapped(tick + 1);
        if tick == 0 { SwitchLists(); }
        assert View() == AdvanceTick(old(View()));
        if tick >= nextUnblock { switchRequired := UnblockExpired(); }
        if |ListOf(Ready(Block(running).priority)).items| > 1 { switchRequired := true; }
      } else {
        pendedTicks := pendedTicks + 1;
      }
      if yieldPending { switchRequired := true; }
    }

    /** The first half of prvAddCurrentTaskToDelayedList. */
    method LeaveReadyList()
      modifies this`lists, this`topReady
      ensures View() == LeaveReady(old(View()))
    {
      var left := RemoveStateItem(running);
      if left == 0 { topReady := Reset(topReady, Block(running).priority); }
    }

    /** prvAddCurrentTaskToDelayedList. */
    method AddCurrentTaskToDelayedList(ticksToWait: Tick, canBlockIndefinitely: bool)
      modifies this`tasks, this`lists, this`topReady, this`nextUnblock
      ensures View() == DelayCurrent(old(View()), ticksToWait, canBlockIndefinitely)
    {
      hide LeaveReady, InsertByWakeTime;
      var constTickCount, t := tick, running;
      LeaveReadyList();
      if ticksToWait == MAX_DELAY && canBlockIndefinitely {
        lists := lists[Suspended := InsertEnd(ListOf(Suspended), t)];
        tasks := tasks[t := Block(t).(state := Suspended)];
      } else {
        var timeToWake := Wrapped(constTickCount + ticksToWait);
        if timeToWake < constTickCount {
          InsertByTime(overflowDelayed, t, timeToWake);
        } else {
          InsertByTime(delayed, t, timeToWake);
          if timeToWake < nextUnblock { nextUnblock := timeToWake; }
        }
      }
    }

    /** vListInsert of a state item whose value has just been set. */
    method InsertByTime(n: StateList, t: TaskId, time: Tick)
      modifies this`tasks, this`lists
      ensures View() == InsertByWakeTime(old(View()), n, t, time)
    {
      var l := ListOf(n);
      var p := FindPosition(l.items, time);
      lists := lists[n := List(Insert(l.items, p, t), if l.index > p then l.index + 1 else l.index)];
      tasks := tasks[t := Block(t).(state := n, wakeTime := time)];
    }

    /** The walk of vListInsert. */
    method FindPosition(items: seq<TaskId>, time: Tick) returns (p: nat)
      ensures p == SortedPosition(WakeTimes(View(), items), time)
    {
      ghost var times := WakeTimes(View(), items);
      if time == MAX_DELAY { return |items|; }
      p := 0;
      while p < |items| && Block(items[p]).wakeTime <= time
        invariant p <= |items| && forall k :: 0 <= k < p ==> times[k] <= time
      {
        p := p + 1;
      }
      SortedPositionUnique(times, time, p);
    }

    /** The walk of vListInsert over event items. */
    method FindEventPosition(items: seq<TaskId>, value: Tick) returns (p: nat)
      ensures p == SortedPosition(EventValues(View(), items), value)
    {
      ghost var values := EventValues(View(), items);
      if value == MAX_DELAY { return |items|; }
      p := 0;
      while p < |items| && Block(items[p]).eventValue <= value
        invariant p <= |items| && forall k :: 0 <= k < p ==> values[k] <= value
      {
        p := p + 1;
      }
      SortedPositionUnique(values, value, p);
    }

    /** vTaskPlaceOnEventList: the event item by priority, then the state item by time. */
    method PlaceOnEventList(id: nat, ticksToWait: Tick)
      modifies this`events, this`tasks, this`lists, this`topReady, this`nextUnblock
      ensures View() == KernelSpec.PlaceOnEventList(old(View()), id, ticksToWait)
    {
      hide DelayCurrent, Insert;
      var waiters := WaitersFor(OnEvent(id));
      var p := FindEventPosition(waiters, Block(running).eventValue);
      events := events[OnEvent(id) := Insert(waiters, p, running)];
      tasks := tasks[running := Block(running).(event := OnEvent(id))];
      AddCurrentTaskToDelayedList(ticksToWait, true);
    }

    /** vTaskPlaceOnUnorderedEventList. */
    method PlaceOnUnorderedEventList(id: nat, itemValue: Tick, ticksToWait: Tick)
      modifies this`events, this`tasks, this`lists, this`topReady, this`nextUnblock
      ensures View() == KernelSpec.PlaceOnUnorderedEventList(old(View()), id, itemValue, ticksToWait)
    {
      hide DelayCurrent, MarkedInUse;
      tasks := tasks[running := Block(running).(eventValue := MarkedInUse(itemValue))];
      events := events[OnEvent(id) := WaitersFor(OnEvent(id)) + [running]];
      tasks := tasks[running := Block(running).(event := OnEvent(id))];
      AddCurrentTaskToDelayedList(ticksToWait, true);
    }

    /** vTaskPlaceOnEventListRestricted. */
    method PlaceOnEventListRestricted(id: nat, ticksToWait: Tick, waitIndefinitely: bool)
      modifies this`events, this`tasks, this`lists, this`topReady, this`nextUnblock
      ensures View() == PlaceRestricted(old(View()), id, ticksToWait, waitIndefinitely)
    {
      hide DelayCurrent;
      events := events[OnEvent(id) := WaitersFor(OnEvent(id)) + [running]];
      tasks := tasks[running := Block(running).(event := OnEvent(id))];
      var ticks := if waitIndefinitely then MAX_DELAY else ticksToWait;
      AddCurrentTaskToDelayedList(ticks, waitIndefinitely);
    }

    /** xTaskRemoveFromEventList: true when the woken task has a higher priority. */
    method RemoveTaskFromEventList(id: nat) returns (higherPriorityWoken: bool)
      requires WaitersFor(OnEvent(id)) != []
      modifies this
      ensures View() == RemoveFromEventList(old(View()), id)
      ensures higherPriorityWoken <==> Block(old(WaitersFor(OnEvent(id)))[0]).priority > Block(running).priority
    {
      var t := WaitersFor(OnEvent(id))[0];
      RemoveEventItem(t);
      if schedulerSuspended == 0 {
        var left := RemoveStateItem(t);
        AddTaskToReadyList(t);
      } else {
        events := events[Pending := WaitersFor(Pending) + [t]];
        tasks := tasks[t := Block(t).(event := Pending)];
      }
      higherPriorityWoken := Block(t).priority > Block(running).priority;
      if higherPriorityWoken { yieldPending := true; }
    }

    /** xTaskRemoveFromUnorderedEventList: the scheduler is suspended, yet the task becomes ready. */
    method RemoveTaskFromUnorderedEventList(t: TaskId, itemValue: Tick) returns (higherPriorityWoken: bool)
      modifies this`events, this`tasks, this`lists, this`topReady, this`yieldPending
      ensures View() == RemoveFromUnorderedEventList(old(View()), t, itemValue)
      ensures higherPriorityWoken <==> Block(t).priority > Block(running).priority
    {
      hide RemoveEvent, RemoveState, AddToReadyList, MarkedInUse;
      tasks := tasks[t := Block(t).(eventValue := MarkedInUse(itemValue))];
      RemoveEventItem(t);
      var left := RemoveStateItem(t);
      AddTaskToReadyList(t);
      higherPriorityWoken := Block(t).priority > Block(running).priority;
      if higherPriorityWoken { yieldPending := true; }
    }

    /** vTaskSwitchContext: a task is always found, by the invariant. */
    method SwitchToHighest()
      requires Structure(View())
      modifies this`yieldPending, this`lists, this`running
      ensures View() == SwitchContext(old(View()))
    {
      hide Structure, Next, Valid, Current, LeadingZeros;
      if schedulerSuspended != 0 {
        yieldPending := true;
      } else {
        SelectionPoint(View());
        hide SwitchContext;
        var p := Highest(topReady);
        var l := Next(ListOf(Ready(p)));
        yieldPending := false;
        lists := lists[Ready(p) := l];
        running := Current(l);
      }
    }

    lemma PendingHeadSteps(k: Kernel, t: TaskId)
      requires Structure(k) && EventItems(k, Pending) != [] && t == EventItems(k, Pending)[0]
      ensures var k2 := MakeReady(RemoveEvent(k, t), t);
        ReadyPendingHead(k) == if TaskOf(k2, t).priority >= TaskOf(k2, k2.running).priority
          then k2.(yieldPending := true) else k2
    {
      assert t in EventItems(k, Pending);
      assert Without(EventItems(k, Pending), 0) == EventItems(k, Pending)[1..];
    }

    /** The loop of xTaskResumeAll over the pending-ready list. */
    method DrainPending()
      requires Structure(View())
      modifies this`tasks, this`lists, this`events, this`topReady, this`yieldPending
      ensures View() == ReadyPending(old(View()))
    {
      hide Structure, ReadyPendingHead, RemoveEvent, RemoveState, AddToReadyList;
      while WaitersFor(Pending) != []
        invariant Structure(View())
        invariant ReadyPending(View()) == ReadyPending(old(View()))
        decreases |EventItems(View(), Pending)|
      {
        label Before:
        var t := WaitersFor(Pending)[0];
        ReadyPendingHeadKeeps(View());
        PendingHeadSteps(View(), t);
        RemoveEventItem(t);
        var left := RemoveStateItem(t);
        AddTaskToReadyList(t);
        if Block(t).priority >= Block(running).priority { yieldPending := true; }
        assert View() == ReadyPendingHead(old@Before(View()));
      }
    }

    /** The replay of the ticks pended while the scheduler was suspended. */
    method ReplayPendedTicks()
      requires Structure(View()) && ClockExact(View()) && schedulerSuspended == 0 && EventItems(View(), Pending) == []
      modifies this
      ensures View() == ReplayTicks(old(View()), old(pendedTicks)).(pendedTicks := 0)
    {
      hide Structure, ClockExact, IncrementTick, ReadyPending;
      var pendedCounts := pendedTicks;
      while pendedCounts > 0
        invariant Structure(View()) && ClockExact(View()) && schedulerSuspended == 0 &&
          EventItems(View(), Pending) == []
        invariant ReplayTicks(View(), pendedCounts) == ReplayTicks(old(View()), old(pendedTicks))
      {
        ReplayTickKeeps(View());
        ReplayTickRefines(View());
        SwitchIsSafe(View());
        var switchRequired := IncrementTickCount();
        if switchRequired { yieldPending := true; }
        pendedCounts := pendedCounts - 1;
      }
      pendedTicks := 0;
    }

    lemma SwitchIsSafe(k: Kernel)
      requires Structure(k) && ClockExact(k)
      ensures k.tick == MAX_DELAY ==> StateItems(k, k.delayed).items == []
    {
      if k.tick == MAX_DELAY { CurrentListEmptyAtSwitch(k); }
    }

    /** xTaskResumeAll: pending tasks to their ready lists, then the pended ticks. */
    method ResumeScheduler() returns (alreadyYielded: bool)
      requires Structure(View()) && ClockExact(View()) && schedulerSuspended > 0
      modifies this
      ensures View() == ResumeAll(old(View()))
      ensures alreadyYielded <==> schedulerSuspended == 0 && yieldPending
    {
      hide Structure, ClockExact, ReadyPending, ReplayTicks, ResetNextUnblock;
      alreadyYielded := false;
      ghost var k1 := View().(schedulerSuspended := schedulerSuspended - 1);
      FlagsIrrelevant(View(), k1);
      ClockIgnoresFlags(View(), k1);
      schedulerSuspended := schedulerSuspended - 1;
      if schedulerSuspended == 0 {
        ReadyAllPendingKeeps(k1);
        ReadyAllPendingClock(k1);
        if WaitersFor(Pending) != [] {
          DrainPending();
          ResetNextTaskUnblockTime();
        }
        assert View() == ReadyAllPending(k1);
        ReplayTicksKeeps(View(), pendedTicks);
        ReplayPendedTicks();
        if yieldPending { alreadyYielded := true; }
      }
    }

    /** Moving a task between ready lists, or only changing its number, as both functions below do. */
    method MoveToPriority(t: TaskId, p: Priority)
      modifies this`tasks, this`lists, this`topReady
      ensures View() == ChangePriority(old(View()), t, p)
    {
      hide InsertEnd, Unlist, Record, Reset;
      var was := Block(t).priority;
      if Block(t).state == Ready(was) {
        var left := RemoveStateItem(t);
        if left == 0 { topReady := Reset(topReady, was); }
        tasks := tasks[t := Block(t).(priority := p)];
        AddTaskToReadyList(t);
      } else {
        tasks := tasks[t := Block(t).(priority := p)];
      }
    }

    /** vTaskPriorityInherit. */
    method Inherit(holder: TaskId)
      modifies this`tasks, this`lists, this`topReady
      ensures View() == InheritPriority(old(View()), holder)
    {
      hide ChangePriority;
      if Block(holder).priority < Block(running).priority {
        var p := Block(running).priority;
        if Block(holder).eventValue < ITEM_VALUE_IN_USE {
          tasks := tasks[holder := Block(holder).(eventValue := MAX_PRIORITIES - p)];
        } else {
          tasks := tasks[holder := Block(holder)];
        }
        MoveToPriority(holder, p);
      }
    }

    /** xTaskPriorityDisinherit by the running task, which is on its ready list and holds a mutex
        (the function's configASSERTs). */
    method Disinherit() returns (switchRequired: bool)
      requires Block(running).mutexesHeld > 0 && Block(running).state == Ready(Block(running).priority)
      modifies this`tasks, this`lists, this`topReady
      ensures View() == DisinheritPriority(old(View()))
      ensures switchRequired <==> old(Block(running).mutexesHeld == 1 &&
        Block(running).priority != Block(running).basePriority)
    {
      hide InsertEnd, Unlist, Record, Reset, StateItems;
      switchRequired := false;
      var t := running;
      tasks := tasks[t := Block(t).(mutexesHeld := Block(t).mutexesHeld - 1)];
      if Block(t).priority != Block(t).basePriority && Block(t).mutexesHeld == 0 {
        tasks := tasks[t := Block(t).(eventValue := MAX_PRIORITIES - Block(t).basePriority)];
        assert tasks == old(tasks)[t := MutexGiven(old(View())).(eventValue := MAX_PRIORITIES - Block(t).basePriority)];
        MoveToPriority(t, Block(t).basePriority);
        switchRequired := true;
      }
    }

    /** What vTaskSuspend and vTaskDelete do first. */
    method LeaveLists(t: TaskId)
      modifies this`tasks, this`lists, this`events, this`topReady
      ensures View() == RemoveEvent(TakeOffStateList(old(View()), t), t)
    {
      hide RemoveEvent, RemoveState, Reset;
      var left := RemoveStateItem(t);
      if left == 0 { ResetReadyPriority(Block(t).priority); }
      assert View() == TakeOffStateList(old(View()), t);
      RemoveEventItem(t);
    }

    /** taskRESET_READY_PRIORITY. */
    method ResetReadyPriority(p: Priority)
      modifies this`topReady
      ensures View() == ResetReady(old(View()), p)
    {
      if |ListOf(Ready(p)).items| == 0 { topReady := Reset(topReady, p); }
    }

    /** vTaskSuspend, up to the end of its first critical section. */
    method Suspend(t: TaskId)
      modifies this`tasks, this`lists, this`events, this`topReady
      ensures View() == SuspendTask(old(View()), t)
    {
      hide RemoveEvent, TakeOffStateList, InsertEnd;
      LeaveLists(t);
      lists := lists[Suspended := InsertEnd(ListOf(Suspended), t)];
      tasks := tasks[t := Block(t).(state := Suspended)];
    }

    /** vTaskResume; true when the resumed task may preempt the caller. */
    method Resume(t: TaskId) returns (yieldRequired: bool)
      modifies this`tasks, this`lists, this`topReady
      ensures View() == ResumeTask(old(View()), t)
      ensures yieldRequired <==>
        t != running && IsTaskSuspended(old(View()), t) && old(Block(t).priority >= Block(running).priority)
    {
      hide RemoveState, AddToReadyList;
      yieldRequired := false;
      if t != running && Block(t).state == Suspended && Block(t).event == Nowhere {
        yieldRequired := Block(t).priority >= Block(running).priority;
        var left := RemoveStateItem(t);
        AddTaskToReadyList(t);
      }
    }

    /** xTaskResumeFromISR; true when the resumed task became ready and may preempt. */
    method ResumeFromISR(t: TaskId) returns (yieldRequired: bool)
      modifies this`tasks, this`lists, this`topReady, this`events
      ensures View() == ResumeTaskFromISR(old(View()), t)
      ensures yieldRequired <==>
        IsTaskSuspended(old(View()), t) && schedulerSuspended == 0 && old(Block(t).priority >= Block(running).priority)
    {
      hide RemoveState, AddToReadyList;
      yieldRequired := false;
      if Block(t).state == Suspended && Block(t).event == Nowhere {
        if schedulerSuspended == 0 {
          yieldRequired := Block(t).priority >= Block(running).priority;
          var left := RemoveStateItem(t);
          AddTaskToReadyList(t);
        } else {
          events := events[Pending := WaitersFor(Pending) + [t]];
          tasks := tasks[t := Block(t).(event := Pending)];
        }
      }
    }

    /** vTaskDelete: a task that deletes itself is left for the idle task. */
    method Delete(t: TaskId)
      modifies this`tasks, this`lists, this`events, this`topReady, this`nextUnblock
      ensures View() == DeleteTask(old(View()), t)
    {
      hide RemoveEvent, TakeOffStateList, InsertEnd, ResetNextUnblock;
      LeaveLists(t);
      if t == running {
        lists := lists[Termination := InsertEnd(ListOf(Termination), t)];
        tasks := tasks[t := Block(t).(state := Termination)];
      } else {
        tasks := tasks - {t};
        ResetNextTaskUnblockTime();
      }
    }

    /** vTaskPrioritySet; true when another task may now have to run. */
    method PrioritySet(t: TaskId, p: Priority) returns (yieldRequired: bool)
      modifies this`tasks, this`lists, this`topReady
      ensures View() == SetPriority(old(View()), t, p)
      ensures yieldRequired <==>
        var base := old(Block(t)).basePriority;
        if t == running then p < base else p > base && p >= old(Block(running)).priority
    {
      hide ChangePriority;
      yieldRequired := false;
      var task := Block(t);
      if task.basePriority != p {
        if p > task.basePriority {
          if t != running && p >= Block(running).priority { yieldRequired := true; }
        } else if t == running {
          yieldRequired := true;
        }
        var newPriority := if task.basePriority == task.priority then p else task.priority;
        tasks := tasks[t := WithEventValueFor(task.(basePriority := p), p)];
        MoveToPriority(t, newPriority);
      }
    }

    /** uxTaskResetEventItemValue: the value is that of the bits that ended the wait. */
    method ResetEventValue() returns (value: Tick)
      modifies this`tasks
      ensures value == old(Block(running).eventValue) && View() == ResetEventItemValue(old(View()))
    {
      value := Block(running).eventValue;
      tasks := tasks[running := Block(running).(eventValue := MAX_PRIORITIES - Block(running).priority)];
    }
  }
}
