/** Event lists in priority order: who is woken by an event.

    The list of an event stays in the order of its waiters' priorities over all runs whose steps leave
    those priorities alone; at the end, what happens when a step does change one. */
module KernelEvents {
  import opened Ticks
  import opened ReadyBits
  import opened ListSpec
  import opened KernelSpec
  import opened KernelInvariant
  import opened KernelClock
  import opened KernelRuns

  /** The value of an event item is lower the higher the task's priority, unless a wait for
      event bits uses it. */
  predicate ByPriority(task: Tcb) {
    task.eventValue < ITEM_VALUE_IN_USE ==> task.eventValue == MAX_PRIORITIES - task.priority
  }

  ghost predicate ValuesByPriority(k: Kernel) {
    forall t :: t in k.tasks ==> ByPriority(k.tasks[t])
  }

  ghost predicate Orderly(values: seq<Tick>) {
    Sorted(values) && forall i :: 0 <= i < |values| ==> values[i] < ITEM_VALUE_IN_USE
  }

  /** The list of this event is in the order of its waiters' priorities. */
  ghost predicate Ordered(k: Kernel, id: nat) {
    ValuesByPriority(k) && Orderly(EventValues(k, EventItems(k, OnEvent(id))))
  }

  predicate SameValue(a: Tcb, b: Tcb) {
    a.eventValue == b.eventValue && a.priority == b.priority
  }

  ghost predicate SameValues(k: Kernel, k': Kernel) {
    && (forall t :: t in k.tasks ==> t in k'.tasks && SameValue(k.tasks[t], k'.tasks[t]))
    && (forall t :: t in k'.tasks && t !in k.tasks ==> ByPriority(k'.tasks[t]))
  }

  lemma SameValuesOf(k: Kernel, k': Kernel, items: seq<TaskId>)
    requires SameValues(k, k') && forall i :: 0 <= i < |items| ==> items[i] in k.tasks
    ensures EventValues(k', items) == EventValues(k, items)
  {
  }

  lemma WaitersExist(k: Kernel, id: nat)
    requires EventsExact(k)
    ensures forall i :: 0 <= i < |EventItems(k, OnEvent(id))| ==> EventItems(k, OnEvent(id))[i] in k.tasks
  {
    forall i | 0 <= i < |EventItems(k, OnEvent(id))| ensures EventItems(k, OnEvent(id))[i] in k.tasks {
      assert EventItems(k, OnEvent(id))[i] in EventItems(k, OnEvent(id));
    }
  }

  /** Nothing happened to this list or to what its waiters' items say. */
  lemma ListUntouched(k: Kernel, k': Kernel, id: nat)
    requires EventsExact(k) && Ordered(k, id) && SameValues(k, k')
    requires EventItems(k', OnEvent(id)) == EventItems(k, OnEvent(id))
    ensures Ordered(k', id)
  {
    WaitersExist(k, id);
    SameValuesOf(k, k', EventItems(k, OnEvent(id)));
    hide EventValues, EventItems, Orderly, EventsExact;
  }

  /** One task changes, in a way that does not show on this list. */
  lemma OneTaskOrdered(k: Kernel, k': Kernel, t: TaskId, task: Tcb, id: nat)
    requires Ordered(k, id) && k'.tasks == k.tasks[t := task]
    requires EventItems(k', OnEvent(id)) == EventItems(k, OnEvent(id))
    requires ByPriority(task) && t in k.tasks
    requires t in EventItems(k, OnEvent(id)) ==> task.eventValue == k.tasks[t].eventValue
    ensures Ordered(k', id)
  {
    var items := EventItems(k, OnEvent(id));
    assert forall i :: 0 <= i < |items| ==> TaskOf(k', items[i]).eventValue == TaskOf(k, items[i]).eventValue;
    assert EventValues(k', items) == EventValues(k, items);
    hide Orderly;
  }

  lemma NotWaiting(k: Kernel, t: TaskId, id: nat)
    requires EventsExact(k) && t in k.tasks && k.tasks[t].event != OnEvent(id)
    ensures t !in EventItems(k, OnEvent(id))
  {
    hide EventItems, Distinct;
  }

  lemma OrderlyWithout(values: seq<Tick>, p: nat)
    requires Orderly(values) && p < |values|
    ensures Orderly(Without(values, p))
  {
    var r := Without(values, p);
    assert forall i :: 0 <= i < |r| ==> r[i] == values[if i < p then i else i + 1];
  }

  lemma RemoveEventList(k: Kernel, t: TaskId, id: nat)
    requires t in k.tasks
    ensures var items, k' := EventItems(k, OnEvent(id)), RemoveEvent(k, t);
      || EventItems(k', OnEvent(id)) == items
      || (Position(items, t) < |items| && EventItems(k', OnEvent(id)) == Without(items, Position(items, t)))
  {
  }

  lemma RemoveEventValues(k: Kernel, t: TaskId)
    requires t in k.tasks
    ensures SameValues(k, RemoveEvent(k, t))
  {
    RemoveEventFrame(k, t);
    hide RemoveEvent;
  }

  lemma RemoveEventOrdered(k: Kernel, t: TaskId, id: nat)
    requires EventsExact(k) && Ordered(k, id) && t in k.tasks
    ensures Ordered(RemoveEvent(k, t), id)
  {
    hide EventValues, EventItems, Orderly, EventsExact, RemoveEvent, Without;
    var k', items := RemoveEvent(k, t), EventItems(k, OnEvent(id));
    RemoveEventValues(k, t);
    WaitersExist(k, id);
    RemoveEventList(k, t, id);
    SameValuesOf(k, k', items);
    if EventItems(k', OnEvent(id)) != items {
      var p := Position(items, t);
      ValuesWithout(k', items, p);
      OrderlyWithout(EventValues(k', items), p);
    }
  }

  lemma ValuesWithout(k: Kernel, items: seq<TaskId>, p: nat)
    requires p < |items|
    ensures EventValues(k, Without(items, p)) == Without(EventValues(k, items), p)
  {
  }

  lemma ValuesInsert(k: Kernel, items: seq<TaskId>, p: nat, t: TaskId)
    requires p <= |items|
    ensures EventValues(k, Insert(items, p, t)) == Insert(EventValues(k, items), p, TaskOf(k, t).eventValue)
  {
  }

  // ----- every operation that leaves priorities alone

  lemma MakeReadyOrdered(k: Kernel, t: TaskId, id: nat)
    requires EventsExact(k) && Ordered(k, id) && t in k.tasks
    ensures Ordered(MakeReady(k, t), id) && Ordered(AddToReadyList(k, t), id)
    ensures EventsExact(MakeReady(k, t)) && EventsExact(AddToReadyList(k, t))
  {
    AddToReadyListFrame(k, t);
    MakeReadyEvents(k, t);
    hide MakeReady, AddToReadyList, Ordered, EventsExact;
    ListUntouched(k, MakeReady(k, t), id);
    ListUntouched(k, AddToReadyList(k, t), id);
    SameEvents(k, MakeReady(k, t));
    SameEvents(k, AddToReadyList(k, t));
  }

  lemma MakeReadyEvents(k: Kernel, t: TaskId)
    ensures MakeReady(k, t).events == k.events && AddToReadyList(k, t).events == k.events
    ensures forall id :: EventItems(MakeReady(k, t), OnEvent(id)) == EventItems(k, OnEvent(id))
    ensures forall id :: EventItems(AddToReadyList(k, t), OnEvent(id)) == EventItems(k, OnEvent(id))
  {
  }

  lemma OnlyListsChange(k: Kernel, k': Kernel, id: nat)
    requires EventsExact(k) && Ordered(k, id) && k'.events == k.events && k'.tasks == k.tasks
    ensures EventsExact(k') && Ordered(k', id)
  {
    SameEvents(k, k');
    assert forall id :: EventItems(k', OnEvent(id)) == EventItems(k, OnEvent(id));
    hide EventItems, EventsExact, Ordered;
    ListUntouched(k, k', id);
  }

  lemma WakeHeadOrdered(k: Kernel, id: nat)
    requires Structure(k) && Ordered(k, id) && StateItems(k, k.delayed).items != []
    ensures Ordered(WakeHead(k), id)
  {
    var t := StateItems(k, k.delayed).items[0];
    assert t in StateItems(k, k.delayed).items;
    assert EventsExact(k) && t in k.tasks;
    var k1 := RemoveState(k, k.delayed, t);
    assert k1.tasks == k.tasks && k1.events == k.events;
    hide Structure, Ordered, EventsExact, RemoveState, RemoveEvent, AddToReadyList, StateItems;
    OnlyListsChange(k, k1, id);
    RemoveEventOrdered(k1, t, id);
    RemoveEventExact(k1, t);
    MakeReadyOrdered(RemoveEvent(k1, t), t, id);
  }

  lemma RemoveEventExact(k: Kernel, t: TaskId)
    requires EventsExact(k) && t in k.tasks
    ensures EventsExact(RemoveEvent(k, t)) && t in RemoveEvent(k, t).tasks
  {
    RemoveEventKeeps(k, t, {});
    RemoveEventFrame(k, t);
    hide EventsExact, RemoveEvent, ListsExact, ReadyByPriority, BitmapExact;
  }

  lemma {:induction false} WakeExpiredOrdered(k: Kernel, switchRequired: bool, id: nat)
    requires Structure(k) && Ordered(k, id)
    ensures Ordered(WakeExpired(k, switchRequired).0, id)
    decreases |StateItems(k, k.delayed).items|
  {
    hide Structure, Ordered, WakeHead, EventsExact;
    var l := StateItems(k, k.delayed);
    StructureEvents(k);
    if l.items != [] && k.tick >= TaskOf(k, l.items[0]).wakeTime && IsDelayedList(k.delayed) && l.index <= |l.items| {
      WakeHeadKeeps(k);
      WakeHeadOrdered(k, id);
      WakeHeadShortens(k);
      var t, k1 := l.items[0], WakeHead(k);
      WakeExpiredOrdered(k1, switchRequired || TaskOf(k1, t).priority >= TaskOf(k1, k1.running).priority, id);
    } else {
      OnlyListsChange(k, WakeExpired(k, switchRequired).0, id);
    }
  }

  lemma StructureEvents(k: Kernel)
    requires Structure(k)
    ensures EventsExact(k) && k.running in k.tasks
  {
    hide EventsExact, ListsExact, ReadyByPriority, BitmapExact, WaitersBlocked;
  }

  lemma AdvanceTasks(k: Kernel)
    ensures AdvanceTick(k).tasks == k.tasks && AdvanceTick(k).events == k.events
  {
    hide StateItems;
  }

  lemma IncrementTickOrdered(k: Kernel, id: nat)
    requires Structure(k) && Ordered(k, id)
    ensures Ordered(IncrementTick(k).0, id)
  {
    hide Structure, Ordered, EventsExact, WakeExpired, AdvanceTick, StateItems;
    StructureEvents(k);
    AdvanceTasks(k);
    AdvanceTickKeeps(k);
    OnlyListsChange(k, AdvanceTick(k), id);
    WakeExpiredOrdered(AdvanceTick(k), false, id);
    OnlyListsChange(k, k.(pendedTicks := k.pendedTicks + 1), id);
  }

  lemma {:induction false} ReplayTicksOrdered(k: Kernel, count: nat, id: nat)
    requires Structure(k) && Ordered(k, id) && k.schedulerSuspended == 0 && EventItems(k, Pending) == []
    ensures Ordered(ReplayTicks(k, count), id)
    decreases count
  {
    hide Structure, IncrementTick, Ordered, EventItems, EventsExact;
    if count > 0 {
      IncrementTickOrdered(k, id);
      IncrementTickKeeps(k);
      ReplayTickKeeps(k);
      StructureEvents(IncrementTick(k).0);
      OnlyListsChange(IncrementTick(k).0, ReplayTick(k), id);
      ReplayTicksOrdered(ReplayTick(k), count - 1, id);
    }
  }

  lemma PendingHeadWaits(k: Kernel)
    requires Structure(k) && EventItems(k, Pending) != []
    ensures var t := EventItems(k, Pending)[0]; t in k.tasks && k.tasks[t].event == Pending
  {
    hide ListsExact, ReadyByPriority, BitmapExact, WaitersBlocked, EventItems;
    assert EventItems(k, Pending)[0] in EventItems(k, Pending);
  }

  lemma PendingHeadOrdered(k: Kernel, id: nat)
    requires Structure(k) && Ordered(k, id) && EventItems(k, Pending) != []
    ensures Ordered(ReadyPendingHead(k), id)
  {
    hide Structure, Ordered, EventsExact, EventItems, RemoveEvent, MakeReady;
    var t := EventItems(k, Pending)[0];
    PendingHeadWaits(k);
    StructureEvents(k);
    var k1 := k.(events := k.events[Pending := EventItems(k, Pending)[1..]],
                 tasks := k.tasks[t := TaskOf(k, t).(event := Nowhere)]);
    assert k.tasks[t] == TaskOf(k, t);
    PendingHeadIsRemoved(k, t, k1);
    RemoveEventOrdered(k, t, id);
    RemoveEventExact(k, t);
    MakeReadyOrdered(k1, t, id);
    OnlyListsChange(MakeReady(k1, t), ReadyPendingHead(k), id);
  }

  lemma PendingHeadIsRemoved(k: Kernel, t: TaskId, k1: Kernel)
    requires EventItems(k, Pending) != [] && t == EventItems(k, Pending)[0] && t in k.tasks &&
      k.tasks[t].event == Pending
    requires k1 == k.(events := k.events[Pending := EventItems(k, Pending)[1..]],
      tasks := k.tasks[t := TaskOf(k, t).(event := Nowhere)])
    ensures k1 == RemoveEvent(k, t)
  {
    assert Without(EventItems(k, Pending), 0) == EventItems(k, Pending)[1..];
  }

  lemma {:induction false} ReadyPendingOrdered(k: Kernel, id: nat)
    requires Structure(k) && Ordered(k, id)
    ensures Ordered(ReadyPending(k), id)
    decreases |EventItems(k, Pending)|
  {
    hide Structure, Ordered, ReadyPendingHead;
    if EventItems(k, Pending) != [] {
      ReadyPendingHeadKeeps(k);
      PendingHeadOrdered(k, id);
      ReadyPendingOrdered(ReadyPendingHead(k), id);
    }
  }

  lemma ResumeAllOrdered(k: Kernel, id: nat)
    requires Structure(k) && Ordered(k, id) && k.schedulerSuspended > 0
    ensures Ordered(ResumeAll(k), id)
  {
    hide Structure, ReadyPending, ReplayTicks, EventItems, Ordered, StateItems, EventsExact;
    var k1 := k.(schedulerSuspended := k.schedulerSuspended - 1);
    StructureEvents(k);
    FlagsIrrelevant(k, k1);
    OnlyListsChange(k, k1, id);
    if k1.schedulerSuspended == 0 {
      ReadyPendingOrdered(k1, id);
      ReadyPendingKeeps(k1);
      StructureEvents(ReadyPending(k1));
      OnlyListsChange(ReadyPending(k1), ResetNextUnblock(ReadyPending(k1)), id);
      ReadyAllPendingKeeps(k1);
      var k2 := ReadyAllPending(k1);
      ReplayTicksOrdered(k2, k2.pendedTicks, id);
      ReplayTicksKeeps(k2, k2.pendedTicks);
      StructureEvents(ReplayTicks(k2, k2.pendedTicks));
      OnlyListsChange(ReplayTicks(k2, k2.pendedTicks), ResumeAll(k), id);
    }
  }

  lemma DelayCurrentValues(k: Kernel, ticks: Tick, canBlockIndefinitely: bool)
    requires k.running in k.tasks
    ensures SameValues(k, DelayCurrent(k, ticks, canBlockIndefinitely)) &&
      DelayCurrent(k, ticks, canBlockIndefinitely).events == k.events
  {
    DelayCurrentFrame(k, ticks, canBlockIndefinitely);
    hide LeaveReady, StateItems, SortedPosition, WakeTimes, Insert, InsertEnd;
  }

  lemma DelayCurrentOrdered(k: Kernel, ticks: Tick, canBlockIndefinitely: bool, id: nat)
    requires EventsExact(k) && Ordered(k, id) && k.running in k.tasks
    ensures Ordered(DelayCurrent(k, ticks, canBlockIndefinitely), id)
  {
    hide DelayCurrent, EventsExact, Ordered, SameValues;
    DelayCurrentValues(k, ticks, canBlockIndefinitely);
    SameLists(k, DelayCurrent(k, ticks, canBlockIndefinitely));
    ListUntouched(k, DelayCurrent(k, ticks, canBlockIndefinitely), id);
  }

  lemma SameLists(k: Kernel, k': Kernel)
    requires k'.events == k.events
    ensures forall id :: EventItems(k', OnEvent(id)) == EventItems(k, OnEvent(id))
  {
  }

  lemma ValuesStay(k: Kernel, k': Kernel)
    requires ValuesByPriority(k) && SameValues(k, k')
    ensures ValuesByPriority(k')
  {
  }

  lemma InsertOrderly(values: seq<Tick>, value: Tick)
    requires Orderly(values) && value < ITEM_VALUE_IN_USE
    ensures Orderly(Insert(values, SortedPosition(values, value), value))
  {
    SortedInsertion(values, value);
  }

  /** What joining a list leaves of the event lists. */
  lemma JoinedLists(k: Kernel, other: nat, items: seq<TaskId>, id: nat)
    requires k.running in k.tasks
    ensures var k1 := k.(events := k.events[OnEvent(other) := items],
                         tasks := k.tasks[k.running := TaskOf(k, k.running).(event := OnEvent(other))]);
      EventItems(k1, OnEvent(id)) == (if id == other then items else EventItems(k, OnEvent(id))) && SameValues(k, k1)
  {
  }

  /** A task that begins to wait goes behind every waiter of the same or a higher priority. */
  lemma WaitOrdered(k: Kernel, other: nat, ticks: Tick, id: nat)
    requires Structure(k) && Ordered(k, id) && MayBlock(k)
    requires other == id ==> TaskOf(k, k.running).eventValue < ITEM_VALUE_IN_USE
    ensures Ordered(PlaceOnEventList(k, other, ticks), id)
  {
    var items := EventItems(k, OnEvent(other));
    var p := SortedPosition(EventValues(k, items), TaskOf(k, k.running).eventValue);
    var k1 := k.(events := k.events[OnEvent(other) := Insert(items, p, k.running)],
                 tasks := k.tasks[k.running := TaskOf(k, k.running).(event := OnEvent(other))]);
    StructureEvents(k);
    JoinedLists(k, other, Insert(items, p, k.running), id);
    hide Structure, EventsExact, EventItems, EventValues, Insert, SortedPosition, Orderly, DelayCurrent, Joined,
      SameValues;
    WaitersExist(k, id);
    SameValuesOf(k, k1, EventItems(k, OnEvent(id)));
    if other == id {
      InsertOrderly(EventValues(k, items), TaskOf(k, k.running).eventValue);
      ValuesInsert(k1, items, p, k.running);
    }
    ValuesStay(k, k1);
    InsertEventJoins(k, OnEvent(other), k.running, p);
    JoinedKeepsEvents(k, k1, OnEvent(other), k.running);
    DelayCurrentOrdered(k1, ticks, true, id);
  }

  /** Joining another list at its end. */
  lemma AppendOrdered(k: Kernel, other: nat, ticks: Tick, canBlockIndefinitely: bool, id: nat)
    requires EventsExact(k) && Ordered(k, id) && k.running in k.tasks && k.tasks[k.running].event == Nowhere &&
      other != id
    ensures Ordered(DelayCurrent(AppendEvent(k, OnEvent(other), k.running), ticks, canBlockIndefinitely), id)
  {
    var k1 := AppendEvent(k, OnEvent(other), k.running);
    JoinedLists(k, other, EventItems(k, OnEvent(other)) + [k.running], id);
    AppendEventJoins(k, OnEvent(other), k.running);
    hide EventsExact, EventItems, Orderly, DelayCurrent, Joined, SameValues, Ordered;
    ListUntouched(k, k1, id);
    JoinedKeepsEvents(k, k1, OnEvent(other), k.running);
    DelayCurrentOrdered(k1, ticks, canBlockIndefinitely, id);
  }

  lemma BitsWaitOrdered(k: Kernel, other: nat, value: Tick, ticks: Tick, id: nat)
    requires Structure(k) && Ordered(k, id) && MayBlock(k) && other != id
    ensures Ordered(PlaceOnUnorderedEventList(k, other, value, ticks), id)
  {
    var task := TaskOf(k, k.running).(eventValue := MarkedInUse(value));
    var k1 := k.(tasks := k.tasks[k.running := task]);
    StructureEvents(k);
    hide Structure, EventsExact, Ordered, DelayCurrent, AppendEvent;
    NotWaiting(k, k.running, id);
    SameEvents(k, k1);
    OneTaskOrdered(k, k1, k.running, task, id);
    AppendOrdered(k1, other, ticks, true, id);
  }

  lemma RestrictedWaitOrdered(k: Kernel, other: nat, ticks: Tick, indefinitely: bool, id: nat)
    requires Structure(k) && Ordered(k, id) && MayBlock(k) && other != id
    ensures Ordered(PlaceRestricted(k, other, ticks, indefinitely), id)
  {
    StructureEvents(k);
    hide Structure, EventsExact, Ordered, DelayCurrent, AppendEvent;
    AppendOrdered(k, other, if indefinitely then MAX_DELAY else ticks, indefinitely, id);
  }

  lemma PendOrdered(k: Kernel, t: TaskId, id: nat)
    requires EventsExact(k) && Ordered(k, id) && t in k.tasks
    ensures Ordered(AppendEvent(k, Pending, t), id)
  {
    var k' := AppendEvent(k, Pending, t);
    assert EventItems(k', OnEvent(id)) == EventItems(k, OnEvent(id));
    hide EventItems, EventsExact, Ordered;
    ListUntouched(k, k', id);
  }

  lemma EventOrdered(k: Kernel, other: nat, id: nat)
    requires Structure(k) && Ordered(k, id) && EventItems(k, OnEvent(other)) != []
    ensures Ordered(RemoveFromEventList(k, other), id)
  {
    StructureEvents(k);
    WaitersExist(k, other);
    hide Structure, EventItems, RemoveEvent, MakeReady, AppendEvent, Ordered, EventsExact;
    var t := EventItems(k, OnEvent(other))[0];
    var k1 := RemoveEvent(k, t);
    RemoveEventOrdered(k, t, id);
    RemoveEventExact(k, t);
    MakeReadyOrdered(k1, t, id);
    PendOrdered(k1, t, id);
    FlagOnly(WakeOrPend(k1, t), id);
  }

  lemma FlagOnly(k: Kernel, id: nat)
    ensures Ordered(k, id) ==> Ordered(k.(yieldPending := true), id)
  {
    assert EventItems(k.(yieldPending := true), OnEvent(id)) == EventItems(k, OnEvent(id));
    assert forall items :: EventValues(k.(yieldPending := true), items) == EventValues(k, items);
    hide Orderly;
  }

  /** Marking the item and taking it off its list, in either order. */
  lemma MarkedAndRemoved(k: Kernel, t: TaskId, value: Tick)
    requires t in k.tasks
    ensures var marked, removed := k.(tasks := k.tasks[t := k.tasks[t].(eventValue := value)]), RemoveEvent(k, t);
      && t in removed.tasks && removed.tasks[t].event == Nowhere
      && RemoveEvent(marked, t) == removed.(tasks := removed.tasks[t := removed.tasks[t].(eventValue := value)])
  {
  }

  lemma BitsSetOrdered(k: Kernel, t: TaskId, value: Tick, id: nat)
    requires Structure(k) && Ordered(k, id) && t in k.tasks
    ensures Ordered(RemoveFromUnorderedEventList(k, t, value), id)
  {
    var marked, removed := k.(tasks := k.tasks[t := k.tasks[t].(eventValue := MarkedInUse(value))]), RemoveEvent(k, t);
    MarkedAndRemoved(k, t, MarkedInUse(value));
    var task := removed.tasks[t].(eventValue := MarkedInUse(value));
    var k1 := removed.(tasks := removed.tasks[t := task]);
    StructureEvents(k);
    hide Structure, EventItems, RemoveEvent, MakeReady, Ordered, EventsExact;
    RemoveEventOrdered(k, t, id);
    RemoveEventExact(k, t);
    NotWaiting(removed, t, id);
    SameLists(removed, k1);
    OneTaskOrdered(removed, k1, t, task, id);
    SameEvents(removed, k1);
    MakeReadyOrdered(k1, t, id);
    FlagOnly(MakeReady(k1, t), id);
  }

  /** Off the state list and off the event list. */
  lemma OffOrdered(k: Kernel, t: TaskId, id: nat)
    requires Structure(k) && Ordered(k, id) && t in k.tasks
    ensures var k1 := RemoveEvent(TakeOffStateList(k, t), t);
      && Ordered(k1, id) && EventsExact(k1) && t in k1.tasks && t !in EventItems(k1, OnEvent(id))
  {
    hide Structure, EventsExact, Ordered, TakeOffStateList, EventItems;
    var k0 := TakeOffStateList(k, t);
    StructureEvents(k);
    TakeOffTasks(k, t);
    OnlyListsChange(k, k0, id);
    RemoveEventOrdered(k0, t, id);
    RemoveEventExact(k0, t);
    RemoveEventFrame(k0, t);
    hide RemoveEvent;
    NotWaiting(RemoveEvent(k0, t), t, id);
  }

  lemma SuspendOrdered(k: Kernel, t: TaskId, id: nat)
    requires Structure(k) && Ordered(k, id) && t in k.tasks
    ensures Ordered(SuspendTask(k, t), id)
  {
    hide Structure, EventsExact, Ordered, TakeOffStateList, RemoveEvent, StateItems, EventItems, InsertEnd,
      SameValues, SuspendTask;
    var k1 := RemoveEvent(TakeOffStateList(k, t), t);
    OffOrdered(k, t, id);
    SuspendTasks(k, t);
    SameLists(k1, SuspendTask(k, t));
    ListUntouched(k1, SuspendTask(k, t), id);
  }

  lemma TakeOffTasks(k: Kernel, t: TaskId)
    ensures TakeOffStateList(k, t).tasks == k.tasks && TakeOffStateList(k, t).events == k.events
  {
    hide StateItems, Unlist;
  }

  lemma SuspendTasks(k: Kernel, t: TaskId)
    requires t in RemoveEvent(TakeOffStateList(k, t), t).tasks
    ensures var k1, k' := RemoveEvent(TakeOffStateList(k, t), t), SuspendTask(k, t);
      SameValues(k1, k') && k'.events == k1.events
  {
    hide TakeOffStateList, RemoveEvent, StateItems, InsertEnd;
  }

  /** A task that is on no list is forgotten, or waits to be. */
  lemma DeleteTasks(k: Kernel, t: TaskId)
    requires t in RemoveEvent(TakeOffStateList(k, t), t).tasks
    ensures var k1, k' := RemoveEvent(TakeOffStateList(k, t), t), DeleteTask(k, t);
      k'.events == k1.events && if t == k.running then SameValues(k1, k') else k'.tasks == k1.tasks - {t}
  {
    hide TakeOffStateList, RemoveEvent, StateItems, InsertEnd;
  }

  lemma ForgottenOrdered(k: Kernel, k': Kernel, t: TaskId, id: nat)
    requires Ordered(k, id) && k'.tasks == k.tasks - {t} && t !in EventItems(k, OnEvent(id))
    requires EventItems(k', OnEvent(id)) == EventItems(k, OnEvent(id))
    ensures Ordered(k', id)
  {
    var items := EventItems(k, OnEvent(id));
    assert forall i :: 0 <= i < |items| ==> TaskOf(k', items[i]) == TaskOf(k, items[i]);
    assert EventValues(k', items) == EventValues(k, items);
    hide Orderly;
  }

  lemma DeleteOrdered(k: Kernel, t: TaskId, id: nat)
    requires Structure(k) && Ordered(k, id) && t in k.tasks
    ensures Ordered(DeleteTask(k, t), id)
  {
    hide Structure, EventsExact, Ordered, TakeOffStateList, RemoveEvent, StateItems, EventItems, InsertEnd,
      SameValues, DeleteTask;
    var k1 := RemoveEvent(TakeOffStateList(k, t), t);
    OffOrdered(k, t, id);
    DeleteTasks(k, t);
    SameLists(k1, DeleteTask(k, t));
    if t == k.running {
      ListUntouched(k1, DeleteTask(k, t), id);
    } else {
      ForgottenOrdered(k1, DeleteTask(k, t), t, id);
    }
  }

  lemma ResumeOrdered(k: Kernel, t: TaskId, id: nat)
    requires EventsExact(k) && Ordered(k, id) && t in k.tasks
    ensures Ordered(ResumeTask(k, t), id) && Ordered(ResumeTaskFromISR(k, t), id)
  {
    hide MakeReady, AppendEvent, EventsExact, Ordered;
    MakeReadyOrdered(k, t, id);
    PendOrdered(k, t, id);
  }

  lemma CreateOrdered(k: Kernel, t: TaskId, p: Priority, id: nat)
    requires EventsExact(k) && Ordered(k, id) && t !in k.tasks
    ensures Ordered(CreateTask(k, t, p), id)
  {
    CreateShape(k, t, p, Suspended);
    var k' := CreateTask(k, t, p);
    MakeReadyEvents(k.(tasks := k.tasks[t := NewTask(p)]), t);
    assert k'.events == k.events;
    hide CreateTask, EventsExact, Ordered;
    SameLists(k, k');
    ListUntouched(k, k', id);
  }

  lemma PlainOrdered(k: Kernel, id: nat)
    requires EventsExact(k) && Ordered(k, id)
    ensures Ordered(SwitchContext(k), id) && Ordered(ResetNextUnblock(k), id)
    ensures Ordered(k.(schedulerSuspended := k.schedulerSuspended + 1), id)
  {
    hide EventsExact, Ordered, StateItems, Valid, Next, Current, Highest;
    OnlyListsChange(k, SwitchContext(k), id);
    OnlyListsChange(k, ResetNextUnblock(k), id);
    OnlyListsChange(k, k.(schedulerSuspended := k.schedulerSuspended + 1), id);
  }

  // ----- operations that may change priorities

  /** A waiter of this event that stays keeps its priority. */
  ghost predicate WaitersKeepPriority(k: Kernel, k': Kernel, id: nat) {
    forall t :: t in EventItems(k, OnEvent(id)) && t in k'.tasks ==> k'.tasks[t].priority == TaskOf(k, t).priority
  }

  /** One task changes and its item still says its priority. */
  lemma RerankedOrdered(k: Kernel, k': Kernel, t: TaskId, id: nat)
    requires Ordered(k, id) && t in k.tasks && k'.events == k.events && t in k'.tasks &&
      k'.tasks == k.tasks[t := k'.tasks[t]]
    requires ByPriority(k'.tasks[t]) && WaitersKeepPriority(k, k', id)
    requires k.tasks[t].eventValue < ITEM_VALUE_IN_USE ==> k'.tasks[t].eventValue < ITEM_VALUE_IN_USE
    ensures Ordered(k', id)
  {
    SameLists(k, k');
    var items := EventItems(k, OnEvent(id));
    if t in items {
      var i :| 0 <= i < |items| && items[i] == t;
      assert EventValues(k, items)[i] < ITEM_VALUE_IN_USE;
    }
    hide EventItems, Orderly;
    OneTaskOrdered(k, k', t, k'.tasks[t], id);
  }

  lemma ChangedTask(k: Kernel, t: TaskId, task: Tcb, p: Priority)
    requires t in k.tasks
    ensures var k' := ChangePriority(k.(tasks := k.tasks[t := task]), t, p);
      && k'.events == k.events && t in k'.tasks && k'.tasks == k.tasks[t := k'.tasks[t]]
      && k'.tasks[t].eventValue == task.eventValue && k'.tasks[t].priority == p
  {
    ChangePriorityFrame(k.(tasks := k.tasks[t := task]), t, p);
    hide ChangePriority;
  }

  /** vTaskPrioritySet makes the item say the base priority, so the task must not be running at
      an inherited one, unless that is the new one. */
  predicate Uninherited(task: Tcb, p: Priority) {
    task.basePriority == task.priority || task.basePriority == p || task.priority == p ||
      task.eventValue >= ITEM_VALUE_IN_USE
  }

  lemma SetPriorityOrdered(k: Kernel, t: TaskId, p: Priority, id: nat)
    requires Ordered(k, id) && t in k.tasks && Uninherited(k.tasks[t], p)
    requires WaitersKeepPriority(k, SetPriority(k, t, p), id)
    ensures Ordered(SetPriority(k, t, p), id)
  {
    var task := k.tasks[t];
    hide ChangePriority, EventItems, Orderly, EventValues;
    if task.basePriority != p {
      ChangedTask(k, t, WithEventValueFor(task.(basePriority := p), p),
        if task.basePriority == task.priority then p else task.priority);
      RerankedOrdered(k, SetPriority(k, t, p), t, id);
    }
  }

  lemma InheritOrdered(k: Kernel, h: TaskId, id: nat)
    requires Ordered(k, id) && h in k.tasks && WaitersKeepPriority(k, InheritPriority(k, h), id)
    ensures Ordered(InheritPriority(k, h), id)
  {
    var p := TaskOf(k, k.running).priority;
    hide ChangePriority, EventItems, Orderly, EventValues;
    if k.tasks[h].priority < p {
      ChangedTask(k, h, WithEventValueFor(k.tasks[h], p), p);
      RerankedOrdered(k, InheritPriority(k, h), h, id);
    }
  }

  lemma MutexCountOrdered(k: Kernel, k': Kernel, held: nat, id: nat)
    requires Ordered(k, id) && k.running in k.tasks
    requires k' == k.(tasks := k.tasks[k.running := k.tasks[k.running].(mutexesHeld := held)])
    ensures Ordered(k', id)
  {
    SameLists(k, k');
    hide EventItems, Orderly, EventValues;
    OneTaskOrdered(k, k', k.running, k'.tasks[k.running], id);
  }

  lemma DisinheritOrdered(k: Kernel, id: nat)
    requires Ordered(k, id) && k.running in k.tasks && WaitersKeepPriority(k, DisinheritPriority(k), id)
    ensures Ordered(DisinheritPriority(k), id)
  {
    var task := MutexGiven(k);
    hide ChangePriority, EventItems, Orderly, EventValues;
    if task.priority != task.basePriority && task.mutexesHeld == 0 {
      ChangedTask(k, k.running, task.(eventValue := MAX_PRIORITIES - task.basePriority), task.basePriority);
      RerankedOrdered(k, DisinheritPriority(k), k.running, id);
    } else {
      MutexCountOrdered(k, DisinheritPriority(k), task.mutexesHeld, id);
    }
  }

  lemma ResetValueOrdered(k: Kernel, id: nat)
    requires Ordered(k, id) && k.running in k.tasks
    ensures Ordered(ResetEventItemValue(k), id)
  {
    var k' := ResetEventItemValue(k);
    assert forall t :: t in k.tasks ==> k'.tasks[t].priority == k.tasks[t].priority;
    hide EventItems, Orderly, EventValues;
    RerankedOrdered(k, k', k.running, id);
  }

  // ----- whole runs

  /** What keeps the list of event id in order, as the code does not sort a list again: no task on
      it changes its priority, whoever joins it joins in order and with an item that says its
      priority, and nobody's base priority is set while it has inherited another. */
  ghost predicate KeepsOrder(k: Kernel, step: Step, id: nat)
    requires Enabled(k, step)
  {
    && WaitersKeepPriority(k, Apply(k, step), id)
    && (step.WaitForEvent? && step.id == id ==> TaskOf(k, k.running).eventValue < ITEM_VALUE_IN_USE)
    && (step.WaitForBits? || step.WaitRestricted? ==> step.id != id)
    && (step.PrioritySet? ==> Uninherited(k.tasks[step.t], step.p))
  }

  ghost predicate OrderKept(k: Kernel, steps: seq<Step>, id: nat)
    requires Runs(k, steps)
    decreases |steps|
  {
    steps == [] || (KeepsOrder(k, steps[0], id) && OrderKept(Apply(k, steps[0]), steps[1..], id))
  }

  lemma BlockingOrdered(k: Kernel, step: Step, id: nat)
    requires Structure(k) && Ordered(k, id) && Enabled(k, step) && KeepsOrder(k, step, id) && IsBlockingStep(step)
    ensures Ordered(Apply(k, step), id)
  {
    hide Structure, EventsExact, Ordered, EventItems, DelayCurrent, PlaceOnEventList, PlaceOnUnorderedEventList,
      PlaceRestricted, DelayAllowed, WaitersKeepPriority;
    StructureEvents(k);
    match step
    case Delay(ticks) => DelayCurrentOrdered(k, ticks, false, id);
    case WaitForEvent(other, ticks) => WaitOrdered(k, other, ticks, id);
    case WaitForBits(other, value, ticks) => BitsWaitOrdered(k, other, value, ticks, id);
    case WaitRestricted(other, ticks, indefinitely) => RestrictedWaitOrdered(k, other, ticks, indefinitely, id);
  }

  lemma SchedulerOrdered(k: Kernel, step: Step, id: nat)
    requires Structure(k) && Ordered(k, id) && Enabled(k, step) && !IsBlockingStep(step) && !IsTaskStep(step)
    ensures Ordered(Apply(k, step), id)
  {
    hide Structure, EventsExact, Ordered, EventItems, IncrementTick, ResumeAll, SwitchContext, ResetNextUnblock,
      StateItems;
    StructureEvents(k);
    match step
    case TickInterrupt => IncrementTickOrdered(k, id);
    case ResumeAllStep => ResumeAllOrdered(k, id);
    case _ => PlainOrdered(k, id);
  }

  lemma RankStepOrdered(k: Kernel, step: Step, id: nat)
    requires Structure(k) && Ordered(k, id) && Enabled(k, step) && KeepsOrder(k, step, id)
    requires step.PrioritySet? || step.Inherit? || step.TakeMutex? || step.GiveMutex? || step.ResetEventValue?
    ensures Ordered(Apply(k, step), id)
  {
    hide Structure, EventsExact, Ordered, EventItems, SetPriority, InheritPriority, DisinheritPriority,
      ResetEventItemValue, WaitersKeepPriority;
    StructureEvents(k);
    match step
    case PrioritySet(t, p) => SetPriorityOrdered(k, t, p, id);
    case Inherit(h) => InheritOrdered(k, h, id);
    case TakeMutex => MutexCountOrdered(k, IncrementMutexHeld(k), k.tasks[k.running].mutexesHeld + 1, id);
    case GiveMutex => DisinheritOrdered(k, id);
    case ResetEventValue => ResetValueOrdered(k, id);
  }

  lemma TaskOrdered(k: Kernel, step: Step, id: nat)
    requires Structure(k) && Ordered(k, id) && Enabled(k, step) && KeepsOrder(k, step, id) && IsTaskStep(step)
    ensures Ordered(Apply(k, step), id)
  {
    hide Structure, EventsExact, Ordered, EventItems, SuspendTask, ResumeTask, ResumeTaskFromISR, RemoveFromEventList,
      RemoveFromUnorderedEventList, DeleteTask, CreateTask, StateItems, KeepsOrder;
    StructureEvents(k);
    match step
    case Event(other) => EventOrdered(k, other, id);
    case BitsSet(t, value) => BitsSetOrdered(k, t, value, id);
    case SuspendStep(t) => SuspendOrdered(k, t, id);
    case ResumeStep(t) => ResumeOrdered(k, t, id);
    case ResumeFromISR(t) => ResumeOrdered(k, t, id);
    case Create(t, p) => CreateOrdered(k, t, p, id);
    case Delete(t) => DeleteOrdered(k, t, id);
    case _ => RankStepOrdered(k, step, id);
  }

  lemma StepOrdered(k: Kernel, step: Step, id: nat)
    requires Structure(k) && Ordered(k, id) && Enabled(k, step) && KeepsOrder(k, step, id)
    ensures Ordered(Apply(k, step), id)
  {
    hide Structure, Ordered, Enabled, Apply, KeepsOrder;
    if IsBlockingStep(step) { BlockingOrdered(k, step, id); }
    else if IsTaskStep(step) { TaskOrdered(k, step, id); }
    else { SchedulerOrdered(k, step, id); }
  }

  lemma {:induction false} RunOrdered(k: Kernel, steps: seq<Step>, id: nat)
    requires Invariant(k) && Ordered(k, id) && Runs(k, steps) && OrderKept(k, steps, id)
    ensures Ordered(After(k, steps), id)
    decreases |steps|
  {
    hide Ordered, Apply, Structure, ClockExact, PendingDrained, Enabled, KeepsOrder;
    if steps != [] {
      StepOrdered(k, steps[0], id);
      StepKeepsInvariant(k, steps[0]);
      RunOrdered(Apply(k, steps[0]), steps[1..], id);
    }
  }

  /** Over every run in which no task that waits for this event changes its priority: the event
      wakes a waiter of the highest priority. */
  lemma EventWakesHighest(idle: TaskId, steps: seq<Step>, id: nat, t: TaskId)
    requires Runs(InitialKernel(idle), steps) && OrderKept(InitialKernel(idle), steps, id)
    requires t in EventItems(After(InitialKernel(idle), steps), OnEvent(id))
    ensures var k := After(InitialKernel(idle), steps);
      var woken := EventItems(k, OnEvent(id))[0];
      woken in k.tasks && t in k.tasks && k.tasks[woken].priority >= k.tasks[t].priority
  {
    InitialInvariant(idle);
    InitialOrdered(idle, id);
    hide Runs, After, InitialKernel, OrderKept;
    RunOrdered(InitialKernel(idle), steps, id);
    RunKeepsInvariant(InitialKernel(idle), steps);
    HeadIsHighest(After(InitialKernel(idle), steps), id, t);
  }

  lemma InitialOrdered(idle: TaskId, id: nat)
    ensures Ordered(InitialKernel(idle), id)
  {
    assert EventItems(InitialKernel(idle), OnEvent(id)) == [];
  }

  /** Waiters further back rank no higher. */
  lemma WaitersDescend(k: Kernel, id: nat, i: nat, j: nat)
    requires Invariant(k) && Ordered(k, id) && i <= j < |EventItems(k, OnEvent(id))|
    ensures var items := EventItems(k, OnEvent(id));
      items[i] in k.tasks && items[j] in k.tasks && k.tasks[items[i]].priority >= k.tasks[items[j]].priority
  {
    hide Invariant, Structure, EventsExact, EventItems, EventValues, ByPriority, Sorted;
    StructureOf(k);
    StructureEvents(k);
    WaitersExist(k, id);
    ValueOf(k, id, i);
    ValueOf(k, id, j);
    SortedValues(EventValues(k, EventItems(k, OnEvent(id))), i, j);
  }

  lemma StructureOf(k: Kernel)
    requires Invariant(k)
    ensures Structure(k)
  {
  }

  /** The value of a waiter's item stands for its priority. */
  lemma ValueOf(k: Kernel, id: nat, i: nat)
    requires Ordered(k, id) && i < |EventItems(k, OnEvent(id))| && EventItems(k, OnEvent(id))[i] in k.tasks
    ensures var items := EventItems(k, OnEvent(id));
      EventValues(k, items)[i] == MAX_PRIORITIES - k.tasks[items[i]].priority
  {
    hide EventItems, Sorted;
    assert EventValues(k, EventItems(k, OnEvent(id)))[i] < ITEM_VALUE_IN_USE;
  }

  lemma SortedValues(values: seq<Tick>, i: nat, j: nat)
    requires Sorted(values) && i <= j < |values|
    ensures values[i] <= values[j]
  {
  }

  lemma HeadIsHighest(k: Kernel, id: nat, t: TaskId)
    requires Invariant(k) && Ordered(k, id) && t in EventItems(k, OnEvent(id))
    ensures var woken := EventItems(k, OnEvent(id))[0];
      woken in k.tasks && t in k.tasks && k.tasks[woken].priority >= k.tasks[t].priority
  {
    var i :| 0 <= i < |EventItems(k, OnEvent(id))| && EventItems(k, OnEvent(id))[i] == t;
    WaitersDescend(k, id, 0, i);
  }

  /** The first waiter is one of the highest priority. */
  ghost predicate HeadRanksHighest(k: Kernel, items: seq<TaskId>) {
    forall i :: 0 <= i < |items| ==> TaskOf(k, items[i]).priority <= TaskOf(k, items[0]).priority
  }

  /** Only the priority of t may have changed, and the list was not sorted again. */
  lemma RerankedHeadIff(k: Kernel, k': Kernel, id: nat, t: TaskId, p: Priority)
    requires Invariant(k) && Ordered(k, id) && t in EventItems(k, OnEvent(id))
    requires forall u :: u != t ==> TaskOf(k', u).priority == TaskOf(k, u).priority
    requires TaskOf(k', t).priority == p
    ensures var items := EventItems(k, OnEvent(id));
      HeadRanksHighest(k', items) <==>
        if t == items[0] then |items| > 1 ==> TaskOf(k, items[1]).priority <= p
        else TaskOf(k, items[0]).priority >= p
  {
    var items := EventItems(k, OnEvent(id));
    var m :| 0 <= m < |items| && items[m] == t;
    DistinctWaiters(k, id);
    forall i | 0 <= i < |items| ensures TaskOf(k, items[i]).priority <= TaskOf(k, items[0]).priority {
      WaitersDescend(k, id, 0, i);
    }
    forall i | 0 < i < |items| ensures TaskOf(k, items[i]).priority <= TaskOf(k, items[1]).priority {
      WaitersDescend(k, id, 1, i);
    }
    hide Invariant, Ordered, EventItems, TaskOf;
    if t == items[0] {
      assert forall i :: 0 < i < |items| ==> items[i] != t;
      if |items| > 1 && HeadRanksHighest(k', items) { assert TaskOf(k', items[1]).priority <= p; }
    } else {
      if HeadRanksHighest(k', items) { assert TaskOf(k', items[m]).priority <= TaskOf(k', items[0]).priority; }
    }
  }

  lemma DistinctWaiters(k: Kernel, id: nat)
    requires Invariant(k)
    ensures Distinct(EventItems(k, OnEvent(id)))
  {
    StructureEvents(k);
    hide Invariant, EventItems;
  }

  /** And the condition is needed: when a waiter inherits a priority, the head of the list is still
      a waiter of the highest priority exactly if it is that waiter, or ranks as high already. */
  lemma InheritingWaiterPassedOverIff(k: Kernel, h: TaskId, id: nat)
    requires Invariant(k) && Ordered(k, id) && h in EventItems(k, OnEvent(id))
    ensures var k', items := InheritPriority(k, h), EventItems(k, OnEvent(id));
      && EventItems(k', OnEvent(id)) == items
      && (HeadRanksHighest(k', items) <==>
            h == items[0] || TaskOf(k, items[0]).priority >= TaskOf(k, k.running).priority)
  {
    var items, p := EventItems(k, OnEvent(id)), TaskOf(k, k.running).priority;
    var m :| 0 <= m < |items| && items[m] == h;
    WaitersDescend(k, id, 0, m);
    if |items| > 1 { WaitersDescend(k, id, 0, 1); }
    InheritedRank(k, h);
    SameLists(k, InheritPriority(k, h));
    hide Invariant, Ordered, EventItems, InheritPriority;
    RerankedHeadIff(k, InheritPriority(k, h), id, h, if TaskOf(k, h).priority < p then p else TaskOf(k, h).priority);
  }

  /** When vTaskPrioritySet changes the priority of a waiter, the head of the list is still a waiter
      of the highest priority exactly if that waiter is not the head and the head ranks as high,
      or it is the head and the next ranks no higher. A waiter that has inherited keeps its
      priority. */
  lemma ChangedWaiterPassedOverIff(k: Kernel, t: TaskId, p: Priority, id: nat)
    requires Invariant(k) && Ordered(k, id) && t in EventItems(k, OnEvent(id))
    ensures var k', items, task := SetPriority(k, t, p), EventItems(k, OnEvent(id)), TaskOf(k, t);
      var q := if task.basePriority == task.priority then p else task.priority;
      && EventItems(k', OnEvent(id)) == items && TaskOf(k', t).priority == q
      && (HeadRanksHighest(k', items) <==>
            if t == items[0] then |items| > 1 ==> TaskOf(k, items[1]).priority <= q
            else TaskOf(k, items[0]).priority >= q)
  {
    var items, task := EventItems(k, OnEvent(id)), TaskOf(k, t);
    var m :| 0 <= m < |items| && items[m] == t;
    WaitersDescend(k, id, m, m);
    SetRank(k, t, p);
    SameLists(k, SetPriority(k, t, p));
    hide Invariant, Ordered, EventItems, SetPriority;
    RerankedHeadIff(k, SetPriority(k, t, p), id, t, if task.basePriority == task.priority then p else task.priority);
  }

  lemma SetRank(k: Kernel, t: TaskId, p: Priority)
    requires t in k.tasks
    ensures var k', task := SetPriority(k, t, p), k.tasks[t];
      && k'.tasks.Keys == k.tasks.Keys && k'.events == k.events
      && (forall u :: u in k.tasks && u != t ==> k'.tasks[u] == k.tasks[u])
      && k'.tasks[t].priority == if task.basePriority == task.priority then p else task.priority
  {
    var task := k.tasks[t];
    ChangedTask(k, t, WithEventValueFor(task.(basePriority := p), p),
      if task.basePriority == task.priority then p else task.priority);
    hide ChangePriority;
  }

  lemma InheritedRank(k: Kernel, h: TaskId)
    requires h in k.tasks
    ensures var k', p := InheritPriority(k, h), TaskOf(k, k.running).priority;
      && k'.tasks.Keys == k.tasks.Keys && k'.events == k.events
      && (forall t :: t in k.tasks && t != h ==> k'.tasks[t] == k.tasks[t])
      && k'.tasks[h].priority == if k.tasks[h].priority < p then p else k.tasks[h].priority
  {
    var p := TaskOf(k, k.running).priority;
    ChangedTask(k, h, WithEventValueFor(k.tasks[h], p), p);
    hide ChangePriority;
  }

  // ----- suspending and resuming

  lemma SuspendedTask(k: Kernel, t: TaskId)
    requires t in k.tasks
    ensures SuspendTask(k, t).tasks == k.tasks[t := k.tasks[t].(state := Suspended, event := Nowhere)]
    ensures SuspendTask(k, t).running == k.running
  {
    TakeOffTasks(k, t);
    var k0 := TakeOffStateList(k, t);
    RemoveEventFrame(k0, t);
    TakeOffRunning(k, t);
    hide TakeOffStateList, RemoveEvent, StateItems, InsertEnd;
  }

  lemma TakeOffRunning(k: Kernel, t: TaskId)
    ensures TakeOffStateList(k, t).running == k.running
  {
    hide StateItems, Unlist;
  }

  /** A task that is suspended by another waits for nothing and is on no list but the suspended
      one; resuming it makes it ready at its priority, at the end of that ready list's turn. */
  lemma SuspendThenResume(k: Kernel, t: TaskId)
    requires Structure(k) && PendingDrained(k) && t in k.tasks && t != k.idle && t != k.running
    ensures var k1 := SuspendTask(k, t);
      && IsTaskSuspended(k1, t) && t in StateItems(k1, Suspended).items
      && (forall e :: e != Nowhere ==> t !in EventItems(k1, e))
    ensures var k1, k2, p := SuspendTask(k, t), ResumeTask(SuspendTask(k, t), t), k.tasks[t].priority;
      && k2.tasks == k.tasks[t := k.tasks[t].(state := Ready(p), event := Nowhere)]
      && StateItems(k2, Ready(p)) == InsertEnd(StateItems(k1, Ready(p)), t) && k2.topReady[p]
      && t !in StateItems(k2, Suspended).items
  {
    hide Structure, PendingDrained, SuspendTask, MakeReady, StateItems, EventItems, InsertEnd;
    var k1 := SuspendTask(k, t);
    SuspendTaskKeeps(k, t);
    SuspendedTask(k, t);
    OnItsList(k1, t);
    ResumeTaskKeeps(k1, t);
    ReadiedTask(k1, t);
    OnItsList(ResumeTask(k1, t), t);
  }

  lemma OnItsList(k: Kernel, t: TaskId)
    requires Structure(k) && t in k.tasks
    ensures forall n :: t in StateItems(k, n).items <==> n == k.tasks[t].state
    ensures k.tasks[t].event == Nowhere ==> forall e :: e != Nowhere ==> t !in EventItems(k, e)
  {
    hide StateItems, EventItems, ReadyByPriority, BitmapExact, WaitersBlocked;
  }

  lemma ReadiedTask(k: Kernel, t: TaskId)
    requires t in k.tasks && !k.tasks[t].state.Ready?
    ensures var k', p := MakeReady(k, t), k.tasks[t].priority;
      && k'.tasks == k.tasks[t := k.tasks[t].(state := Ready(p))] && k'.topReady[p]
      && StateItems(k', Ready(p)) == InsertEnd(StateItems(k, Ready(p)), t)
  {
    AddToReadyListFrame(k, t);
    hide InsertEnd, Unlist;
  }
}
