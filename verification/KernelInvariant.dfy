/** What every operation of tasks.c keeps: each task on exactly one list, the bitmap exact.

    The operations are taken apart as the source writes them: a task leaves a list and is in
    transit, its fields change, it joins a list. A lemma named after a primitive says what that
    part keeps; one named after a function of tasks.c puts the parts together. Frame lemmas
    say which fields an operation leaves alone. The invariant has these parts, and a proof
    about one of them hides the others:

      ListsExact        the state lists agree with the tasks' state items
      EventsExact       the event lists agree with the tasks' event items
      ReadyByPriority   a ready task is on the ready list of its priority
      BitmapExact       a bit is set exactly for a ready list that is not empty
      WaitersBlocked    a task on an event list is not ready */
module KernelInvariant {
  import opened Ticks
  import opened ReadyBits
  import opened ListSpec
  import opened KernelSpec

  /** Every task is on the list its state item names, once, and on no other; the tasks of
      `inTransit` are on none. */
  ghost predicate ListsExact(k: Kernel, inTransit: set<TaskId>) {
    && (forall n :: Distinct(StateItems(k, n).items) && Valid(StateItems(k, n)))
    && (forall n, t :: t in StateItems(k, n).items <==>
          t in k.tasks && t !in inTransit && k.tasks[t].state == n)
  }

  ghost predicate EventsExact(k: Kernel) {
    && (forall e :: Distinct(EventItems(k, e)))
    && (forall e, t :: t in EventItems(k, e) && e != Nowhere ==> t in k.tasks && k.tasks[t].event == e)
    && (forall t :: t in k.tasks && k.tasks[t].event != Nowhere ==> t in EventItems(k, k.tasks[t].event))
  }

  /** A task waits for an event only while it is delayed or suspended. */
  ghost predicate WaitersBlocked(k: Kernel) {
    forall t :: t in k.tasks && k.tasks[t].event != Nowhere ==>
      IsDelayedList(k.tasks[t].state) || k.tasks[t].state == Suspended
  }

  ghost predicate ReadyByPriority(k: Kernel, inTransit: set<TaskId>) {
    forall t :: t in k.tasks && t !in inTransit && k.tasks[t].state.Ready? ==>
      k.tasks[t].state.priority == k.tasks[t].priority
  }

  /** Bit p is set exactly when some task of priority p is ready. */
  ghost predicate BitmapExact(k: Kernel) {
    forall p :: 0 <= p < WORD ==> (k.topReady[p] <==> p < MAX_PRIORITIES && StateItems(k, Ready(p)).items != [])
  }

  /** As BitmapExact, but the bit of one priority may still be set for an emptied list. */
  ghost predicate BitmapExactBut(k: Kernel, q: Priority) {
    && (forall p :: 0 <= p < WORD && p != q ==>
         (k.topReady[p] <==> p < MAX_PRIORITIES && StateItems(k, Ready(p)).items != []))
    && (StateItems(k, Ready(q)).items != [] ==> k.topReady[q])
  }

  ghost predicate SchedulerFlags(k: Kernel) {
    && IsDelayedList(k.delayed) && IsDelayedList(k.overflowDelayed) && k.delayed != k.overflowDelayed
    && k.running in k.tasks
    && k.idle in k.tasks
  }

  /** The idle task never blocks, so some task is always ready. */
  ghost predicate IdleReady(k: Kernel) {
    k.idle in k.tasks && k.tasks[k.idle].state.Ready?
  }

  ghost predicate WaitersBlockedBut(k: Kernel, u: TaskId) {
    forall t :: t in k.tasks && t != u && k.tasks[t].event != Nowhere ==>
      IsDelayedList(k.tasks[t].state) || k.tasks[t].state == Suspended
  }

  ghost predicate Core(k: Kernel) {
    && ListsExact(k, {}) && EventsExact(k) && ReadyByPriority(k, {})
    && BitmapExact(k) && SchedulerFlags(k) && IdleReady(k)
  }

  /** The pending-ready list and the pended ticks are only used while the scheduler is suspended. */
  ghost predicate PendingDrained(k: Kernel) {
    k.schedulerSuspended == 0 ==> EventItems(k, Pending) == [] && k.pendedTicks == 0
  }

  /** The invariant of the scheduler's data structures. */
  ghost predicate Structure(k: Kernel) {
    Core(k) && WaitersBlocked(k)
  }

  // ----- primitives

  lemma UnlistEffect(l: List<TaskId>, t: TaskId)
    requires Valid(l) && Distinct(l.items)
    ensures var r := Unlist(l, t);
      Valid(r) && Distinct(r.items) && forall u :: u in r.items <==> u in l.items && u != t
  {
    var p := Position(l.items, t);
    if p < |l.items| { WithoutMembers(l.items, p); }
  }

  lemma InsertEndEffect(l: List<TaskId>, t: TaskId)
    requires Valid(l) && Distinct(l.items) && t !in l.items
    ensures var r := InsertEnd(l, t);
      Valid(r) && Distinct(r.items) && forall u :: u in r.items <==> u in l.items || u == t
  {
    if 0 < l.index <= |l.items| { InsertMembers(l.items, l.index - 1, t); }
  }

  lemma RemoveStateKeeps(k: Kernel, n: StateList, t: TaskId)
    requires ListsExact(k, {}) && t in k.tasks && k.tasks[t].state == n
    ensures ListsExact(RemoveState(k, n, t), {t})
    ensures BitmapExact(k) ==>
      if n.Ready? then BitmapExactBut(RemoveState(k, n, t), n.priority) else BitmapExact(RemoveState(k, n, t))
    ensures ReadyByPriority(k, {}) ==> ReadyByPriority(RemoveState(k, n, t), {t})
  {
    UnlistEffect(StateItems(k, n), t);
    var k' := RemoveState(k, n, t);
    assert forall m :: StateItems(k', m) == if m == n then Unlist(StateItems(k, n), t) else StateItems(k, m);
    if n.Ready? { assert t in StateItems(k, n).items; }
  }

  lemma AddToReadyListKeeps(k: Kernel, t: TaskId)
    requires ListsExact(k, {t}) && t in k.tasks
    ensures var k' := AddToReadyList(k, t);
      && ListsExact(k', {})
      && (ReadyByPriority(k, {t}) ==> ReadyByPriority(k', {}))
      && (BitmapExact(k) || BitmapExactBut(k, k.tasks[t].priority) ==> BitmapExact(k'))
  {
    var n := Ready(k.tasks[t].priority);
    InsertEndEffect(StateItems(k, n), t);
    var k' := AddToReadyList(k, t);
    assert forall m :: StateItems(k', m) == if m == n then InsertEnd(StateItems(k, n), t) else StateItems(k, m);
    assert t in StateItems(k', n).items;
  }

  lemma ResetReadyKeeps(k: Kernel, p: Priority)
    requires BitmapExactBut(k, p)
    ensures BitmapExact(ResetReady(k, p))
  {
    assert forall m :: StateItems(ResetReady(k, p), m) == StateItems(k, m);
  }

  /** Putting a task in transit on a list other than the ready lists. */
  ghost predicate PutOn(k: Kernel, k': Kernel, n: StateList, t: TaskId) {
    && !n.Ready? && t in k.tasks
    && k'.tasks.Keys == k.tasks.Keys && (forall u :: u in k.tasks && u != t ==> k'.tasks[u] == k.tasks[u])
    && k'.tasks[t].state == n && k'.tasks[t].event == k.tasks[t].event
    && (forall m :: m != n ==> StateItems(k', m) == StateItems(k, m))
    && Valid(StateItems(k', n)) && Distinct(StateItems(k', n).items)
    && (forall u :: u in StateItems(k', n).items <==> u in StateItems(k, n).items || u == t)
    && k'.events == k.events && k'.topReady == k.topReady
  }

  /** All but one task in place. */
  ghost predicate InTransit(k: Kernel, t: TaskId) {
    ListsExact(k, {t}) && EventsExact(k) && ReadyByPriority(k, {t}) && BitmapExact(k) && t in k.tasks
  }

  ghost predicate InPlace(k: Kernel) {
    ListsExact(k, {}) && EventsExact(k) && ReadyByPriority(k, {}) && BitmapExact(k)
  }

  lemma SameEvents(k: Kernel, k': Kernel)
    requires EventsExact(k) && k'.tasks.Keys == k.tasks.Keys && k'.events == k.events
    requires forall u :: u in k.tasks ==> k'.tasks[u].event == k.tasks[u].event
    ensures EventsExact(k')
  {
    assert forall e :: EventItems(k', e) == EventItems(k, e);
  }

  lemma PutOnKeepsLists(k: Kernel, k': Kernel, n: StateList, t: TaskId)
    requires ListsExact(k, {t}) && PutOn(k, k', n, t)
    ensures ListsExact(k', {})
  {
  }

  lemma PutOnKeeps(k: Kernel, k': Kernel, n: StateList, t: TaskId)
    requires InTransit(k, t) && PutOn(k, k', n, t)
    ensures InPlace(k')
  {
    PutOnKeepsLists(k, k', n, t);
    SameEvents(k, k');
    hide ListsExact, EventsExact, Distinct;
    assert BitmapExact(k');
  }

  lemma InsertEndPutsOn(k: Kernel, n: StateList, t: TaskId)
    requires ListsExact(k, {t}) && t in k.tasks && !n.Ready?
    ensures PutOn(k, k.(lists := k.lists[n := InsertEnd(StateItems(k, n), t)],
                        tasks := k.tasks[t := TaskOf(k, t).(state := n)]), n, t)
  {
    InsertEndEffect(StateItems(k, n), t);
  }

  lemma InsertByWakeTimePutsOn(k: Kernel, n: StateList, t: TaskId, time: Tick)
    requires ListsExact(k, {t}) && t in k.tasks && !n.Ready?
    ensures PutOn(k, InsertByWakeTime(k, n, t, time), n, t)
  {
    InsertMembers(StateItems(k, n).items, SortedPosition(WakeTimes(k, StateItems(k, n).items), time), t);
  }

  /** Joining an event list, at any position. */
  ghost predicate Joined(k: Kernel, k': Kernel, e: EventPlace, t: TaskId) {
    && e != Nowhere && t in k.tasks && k.tasks[t].event == Nowhere
    && k'.tasks.Keys == k.tasks.Keys && (forall u :: u in k.tasks && u != t ==> k'.tasks[u] == k.tasks[u])
    && k'.tasks[t].event == e && k'.tasks[t].state == k.tasks[t].state && k'.tasks[t].priority == k.tasks[t].priority
    && (forall f :: f != e ==> EventItems(k', f) == EventItems(k, f))
    && Distinct(EventItems(k', e))
    && (forall u :: u in EventItems(k', e) <==> u in EventItems(k, e) || u == t)
    && k'.lists == k.lists && k'.topReady == k.topReady
  }

  /** Nothing about the state lists changed. */
  lemma SameStates(k: Kernel, k': Kernel, inTransit: set<TaskId>)
    requires k'.tasks.Keys == k.tasks.Keys && k'.lists == k.lists
    requires forall u :: u in k.tasks ==>
      k'.tasks[u].state == k.tasks[u].state && k'.tasks[u].priority == k.tasks[u].priority
    ensures ListsExact(k, inTransit) ==> ListsExact(k', inTransit)
    ensures ReadyByPriority(k, inTransit) ==> ReadyByPriority(k', inTransit)
    ensures BitmapExact(k) && k'.topReady == k.topReady ==> BitmapExact(k')
  {
    assert forall n :: StateItems(k', n) == StateItems(k, n);
  }

  lemma RemoveEventFrame(k: Kernel, t: TaskId)
    requires t in k.tasks
    ensures var k' := RemoveEvent(k, t);
      && k' == k.(events := k'.events, tasks := k.tasks[t := k.tasks[t].(event := Nowhere)])
      && (EventItems(k, Pending) == [] ==> EventItems(k', Pending) == [])
  {
    if k.tasks[t].event == Nowhere { assert k.tasks == k.tasks[t := k.tasks[t].(event := Nowhere)]; }
  }

  /** Leaving the event lists. */
  lemma RemoveEventKeeps(k: Kernel, t: TaskId, inTransit: set<TaskId>)
    requires EventsExact(k) && t in k.tasks
    ensures var k' := RemoveEvent(k, t);
      && EventsExact(k')
      && (ListsExact(k, inTransit) ==> ListsExact(k', inTransit))
      && (ReadyByPriority(k, inTransit) ==> ReadyByPriority(k', inTransit))
      && (BitmapExact(k) ==> BitmapExact(k'))
  {
    hide RemoveEvent, EventsExact, ListsExact, ReadyByPriority, BitmapExact;
    RemoveEventFrame(k, t);
    SameStates(k, RemoveEvent(k, t), inTransit);
    RemovedExactly(k, t);
  }

  lemma RemovedExactly(k: Kernel, t: TaskId)
    requires EventsExact(k) && t in k.tasks
    ensures EventsExact(RemoveEvent(k, t))
  {
    hide RemoveEvent, EventItems, Without, Position, Distinct;
    var k', e := RemoveEvent(k, t), k.tasks[t].event;
    RemoveEventFrame(k, t);
    if e != Nowhere {
      RemovedItems(k, t);
      WithoutMembers(EventItems(k, e), Position(EventItems(k, e), t));
      OthersExact(k, k', t, e);
    } else {
      RemovedNothing(k, t);
    }
  }

  lemma RemovedNothing(k: Kernel, t: TaskId)
    requires t in k.tasks && k.tasks[t].event == Nowhere
    ensures RemoveEvent(k, t) == k
  {
  }

  /** One task left one list. */
  lemma OthersExact(k: Kernel, k': Kernel, t: TaskId, e: EventPlace)
    requires EventsExact(k) && t in k.tasks && e == k.tasks[t].event != Nowhere
    requires k'.tasks == k.tasks[t := k.tasks[t].(event := Nowhere)]
    requires Distinct(EventItems(k', e)) && (forall u :: u in EventItems(k', e) <==> u in EventItems(k, e) && u != t)
    requires forall f :: f != e ==> EventItems(k', f) == EventItems(k, f)
    ensures EventsExact(k')
  {
    hide EventItems, Distinct;
  }

  lemma RemovedItems(k: Kernel, t: TaskId)
    requires EventsExact(k) && t in k.tasks && k.tasks[t].event != Nowhere
    ensures var k', e := RemoveEvent(k, t), k.tasks[t].event;
      && Position(EventItems(k, e), t) < |EventItems(k, e)| && EventItems(k, e)[Position(EventItems(k, e), t)] == t
      && EventItems(k', e) == Without(EventItems(k, e), Position(EventItems(k, e), t))
      && (forall f :: f != e ==> EventItems(k', f) == EventItems(k, f))
  {
  }

  lemma JoinedKeepsEvents(k: Kernel, k': Kernel, e: EventPlace, t: TaskId)
    requires EventsExact(k) && Joined(k, k', e, t)
    ensures EventsExact(k')
  {
    hide EventItems, Distinct, StateItems;
  }

  lemma JoinedKeeps(k: Kernel, k': Kernel, e: EventPlace, t: TaskId)
    requires InPlace(k) && Joined(k, k', e, t)
    ensures InPlace(k')
  {
    JoinedKeepsEvents(k, k', e, t);
    SameStates(k, k', {});
  }

  lemma AppendEventJoins(k: Kernel, e: EventPlace, t: TaskId)
    requires EventsExact(k) && e != Nowhere && t in k.tasks && k.tasks[t].event == Nowhere
    ensures Joined(k, AppendEvent(k, e, t), e, t)
  {
    assert t !in EventItems(k, e);
  }

  // ----- blocking

  lemma LeaveReadyKeeps(k: Kernel)
    requires InPlace(k) && k.running in k.tasks && k.tasks[k.running].state.Ready?
    ensures InTransit(LeaveReady(k), k.running)
  {
    var t, n := k.running, k.tasks[k.running].state;
    RemoveStateKeeps(k, n, t);
    var k1 := RemoveState(k, n, t);
    ResetReadyKeeps(k1, n.priority);
    SameEvents(k, LeaveReady(k));
    assert forall m :: StateItems(LeaveReady(k), m) == StateItems(k1, m);
  }

  lemma PutOnIgnoresUnblock(k: Kernel, k': Kernel, n: StateList, t: TaskId, time: Tick)
    requires PutOn(k, k', n, t)
    ensures PutOn(k, k'.(nextUnblock := time), n, t)
  {
    assert forall m :: StateItems(k'.(nextUnblock := time), m) == StateItems(k', m);
  }

  function FiledOn(k: Kernel, ticks: Tick, canBlockIndefinitely: bool): StateList {
    if ticks == MAX_DELAY && canBlockIndefinitely then Suspended
    else if Wrapped(k.tick + ticks) < k.tick then k.overflowDelayed else k.delayed
  }

  lemma FileDelayedPuts(k: Kernel, ticks: Tick, canBlockIndefinitely: bool)
    requires ListsExact(k, {k.running}) && k.running in k.tasks
    requires IsDelayedList(k.delayed) && IsDelayedList(k.overflowDelayed)
    ensures PutOn(k, FileDelayed(k, ticks, canBlockIndefinitely), FiledOn(k, ticks, canBlockIndefinitely), k.running)
  {
    hide PutOn, ListsExact, InsertByWakeTime, InsertEnd;
    var t, wake := k.running, Wrapped(k.tick + ticks);
    if ticks == MAX_DELAY && canBlockIndefinitely {
      InsertEndPutsOn(k, Suspended, t);
    } else if wake < k.tick {
      InsertByWakeTimePutsOn(k, k.overflowDelayed, t, wake);
    } else {
      var k1 := InsertByWakeTime(k, k.delayed, t, wake);
      InsertByWakeTimePutsOn(k, k.delayed, t, wake);
      PutOnIgnoresUnblock(k, k1, k.delayed, t, if wake < k1.nextUnblock then wake else k1.nextUnblock);
    }
  }

  /** What blocking leaves alone. */
  lemma DelayCurrentFrame(k: Kernel, ticks: Tick, canBlockIndefinitely: bool)
    ensures var k' := FileDelayed(k, ticks, canBlockIndefinitely);
      && k' == k.(tasks := k'.tasks, lists := k'.lists, nextUnblock := k'.nextUnblock)
    ensures LeaveReady(k) == k.(lists := LeaveReady(k).lists, topReady := LeaveReady(k).topReady)
  {
    hide StateItems, SortedPosition, WakeTimes, Insert, InsertEnd, Unlist, Reset, Wrapped;
  }

  lemma DelayCurrentKeeps(k: Kernel, ticks: Tick, canBlockIndefinitely: bool)
    requires Core(k) && WaitersBlockedBut(k, k.running)
    requires k.running != k.idle && k.tasks[k.running].state.Ready?
    ensures Structure(DelayCurrent(k, ticks, canBlockIndefinitely))
  {
    var k1, k' := LeaveReady(k), DelayCurrent(k, ticks, canBlockIndefinitely);
    var n := FiledOn(k1, ticks, canBlockIndefinitely);
    LeaveReadyKeeps(k);
    DelayCurrentFrame(k, ticks, canBlockIndefinitely);
    DelayCurrentFrame(k1, ticks, canBlockIndefinitely);
    FileDelayedPuts(k1, ticks, canBlockIndefinitely);
    PutOnKeeps(k1, k', n, k.running);
    hide DelayCurrent, FileDelayed, LeaveReady, ListsExact, EventsExact, ReadyByPriority, BitmapExact, Distinct;
    assert SchedulerFlags(k') && IdleReady(k') && WaitersBlocked(k');
  }

  // ----- waking

  /** Only the task's own state, the lists and the bitmap change. */
  lemma AddToReadyListFrame(k: Kernel, t: TaskId)
    ensures var k' := AddToReadyList(k, t);
      && k' == k.(tasks := k.tasks[t := TaskOf(k, t).(state := Ready(TaskOf(k, t).priority))],
                  lists := k'.lists, topReady := k'.topReady)
      && EventItems(k', Pending) == EventItems(k, Pending)
    ensures var k' := MakeReady(k, t);
      && k' == k.(tasks := k.tasks[t := TaskOf(k, t).(state := Ready(TaskOf(k, t).priority))],
                  lists := k'.lists, topReady := k'.topReady)
      && EventItems(k', Pending) == EventItems(k, Pending)
  {
  }

  lemma AddToReadyListPlaces(k: Kernel, t: TaskId)
    requires ListsExact(k, {t}) && EventsExact(k) && ReadyByPriority(k, {t}) && t in k.tasks
    requires BitmapExact(k) || BitmapExactBut(k, k.tasks[t].priority)
    ensures InPlace(AddToReadyList(k, t))
  {
    AddToReadyListKeeps(k, t);
    AddToReadyListFrame(k, t);
    hide AddToReadyList, ListsExact, ReadyByPriority;
    SameEvents(k, AddToReadyList(k, t));
  }

  lemma MakeReadyPlaces(k: Kernel, t: TaskId)
    requires InPlace(k) && t in k.tasks
    ensures InPlace(MakeReady(k, t))
  {
    var n := k.tasks[t].state;
    var k1 := RemoveState(k, n, t);
    RemoveStateKeeps(k, n, t);
    SameEvents(k, k1);
    assert ReadyByPriority(k1, {t});
    assert n.Ready? ==> n.priority == k.tasks[t].priority;
    AddToReadyListPlaces(k1, t);
  }

  lemma MakeReadyKeeps(k: Kernel, t: TaskId)
    requires Core(k) && WaitersBlockedBut(k, t) && t in k.tasks && k.tasks[t].event == Nowhere
    ensures Structure(MakeReady(k, t))
  {
    MakeReadyPlaces(k, t);
    AddToReadyListFrame(k, t);
    hide MakeReady, ListsExact, EventsExact, ReadyByPriority, BitmapExact;
    assert InPlace(MakeReady(k, t));
  }

  lemma WakeHeadPlaces(k: Kernel, t: TaskId)
    requires InPlace(k) && t in k.tasks && k.tasks[t].state == k.delayed && !k.delayed.Ready?
    ensures InTransit(RemoveEvent(RemoveState(k, k.delayed, t), t), t)
  {
    hide ListsExact, EventsExact, ReadyByPriority, BitmapExact, RemoveEvent;
    var k1 := RemoveState(k, k.delayed, t);
    RemoveStateKeeps(k, k.delayed, t);
    SameEvents(k, k1);
    RemoveEventKeeps(k1, t, {t});
    RemoveEventFrame(k1, t);
  }

  lemma WakeHeadFrame(k: Kernel, t: TaskId)
    requires t in k.tasks && StateItems(k, k.delayed).items != [] && t == StateItems(k, k.delayed).items[0]
    ensures var k' := WakeHead(k);
      && k' == k.(lists := k'.lists, events := k'.events, topReady := k'.topReady,
                  tasks := k.tasks[t := k.tasks[t].(event := Nowhere, state := Ready(k.tasks[t].priority))])
      && (EventItems(k, Pending) == [] ==> EventItems(k', Pending) == [])
  {
    var k1 := RemoveState(k, k.delayed, t);
    RemoveEventFrame(k1, t);
    AddToReadyListFrame(RemoveEvent(k1, t), t);
  }

  lemma WakeHeadKeeps(k: Kernel)
    requires Structure(k) && StateItems(k, k.delayed).items != []
    ensures Structure(WakeHead(k))
  {
    hide AddToReadyList, RemoveEvent, RemoveState, ListsExact, EventsExact, ReadyByPriority, BitmapExact, StateItems,
      EventItems;
    var t := StateItems(k, k.delayed).items[0];
    DelayedHead(k);
    WakeHeadPlaces(k, t);
    AddToReadyListPlaces(RemoveEvent(RemoveState(k, k.delayed, t), t), t);
    WakeHeadFrame(k, t);
  }

  lemma DelayedHead(k: Kernel)
    requires Structure(k) && StateItems(k, k.delayed).items != []
    ensures var t := StateItems(k, k.delayed).items[0]; t in k.tasks && k.tasks[t].state == k.delayed && t != k.idle
    ensures IsDelayedList(k.delayed) && Valid(StateItems(k, k.delayed))
  {
    hide EventsExact, ReadyByPriority, BitmapExact, WaitersBlocked, StateItems;
    assert StateItems(k, k.delayed).items[0] in StateItems(k, k.delayed).items;
  }

  // ----- the tick

  lemma AdvanceTickKeeps(k: Kernel)
    requires Structure(k)
    ensures Structure(AdvanceTick(k))
  {
    var k' := AdvanceTick(k);
    SameStates(k, k', {});
    SameEvents(k, k');
  }

  lemma PendingStays(k: Kernel, k': Kernel)
    requires k'.events == k.events
    ensures EventItems(k', Pending) == EventItems(k, Pending)
  {
  }

  lemma {:induction false} WakeExpiredKeeps(k: Kernel, switchRequired: bool)
    requires Structure(k)
    ensures var k' := WakeExpired(k, switchRequired).0;
      && Structure(k') && (EventItems(k, Pending) == [] ==> EventItems(k', Pending) == [])
      && k' == k.(tasks := k'.tasks, lists := k'.lists, events := k'.events, topReady := k'.topReady,
           nextUnblock := k'.nextUnblock)
    decreases |StateItems(k, k.delayed).items|
  {
    hide WakeHead, Structure, StateItems, EventItems;
    var l := StateItems(k, k.delayed);
    if l.items != [] && k.tick >= TaskOf(k, l.items[0]).wakeTime {
      DelayedHead(k);
      WakeHeadKeeps(k);
      WakeHeadFrame(k, l.items[0]);
      WakeHeadShortens(k);
      var t, k1 := l.items[0], WakeHead(k);
      WakeExpiredKeeps(k1, switchRequired || TaskOf(k1, t).priority >= TaskOf(k1, k1.running).priority);
    } else {
      UnblockTimeIrrelevant(k, if l.items == [] then MAX_DELAY else TaskOf(k, l.items[0]).wakeTime);
      PendingStays(k, WakeExpired(k, switchRequired).0);
    }
  }

  /** The invariant does not depend on nextUnblock, the flags or the counters. */
  lemma UnblockTimeIrrelevant(k: Kernel, time: Tick)
    requires Structure(k)
    ensures Structure(k.(nextUnblock := time))
  {
    SameStates(k, k.(nextUnblock := time), {});
    SameEvents(k, k.(nextUnblock := time));
  }

  lemma FlagsIrrelevant(k: Kernel, k': Kernel)
    requires Structure(k)
    requires k' == k.(pendedTicks := k'.pendedTicks, schedulerSuspended := k'.schedulerSuspended,
                      yieldPending := k'.yieldPending, nextUnblock := k'.nextUnblock)
    ensures Structure(k')
  {
    SameStates(k, k', {});
    SameEvents(k, k');
  }

  lemma ProcessTickKeeps(k: Kernel)
    requires Structure(k)
    ensures var k' := ProcessTick(k).0;
      && Structure(k') && (EventItems(k, Pending) == [] ==> EventItems(k', Pending) == [])
      && k'.schedulerSuspended == k.schedulerSuspended && k'.pendedTicks == k.pendedTicks
      && k'.running == k.running && k'.idle == k.idle && k'.yieldPending == k.yieldPending
  {
    AdvanceTickKeeps(k);
    WakeExpiredKeeps(AdvanceTick(k), false);
  }

  lemma IncrementTickKeeps(k: Kernel)
    requires Structure(k)
    ensures var k' := IncrementTick(k).0;
      && Structure(k') && k'.schedulerSuspended == k.schedulerSuspended
      && (EventItems(k, Pending) == [] ==> EventItems(k', Pending) == [])
      && (PendingDrained(k) ==> PendingDrained(k'))
  {
    hide Structure, ProcessTick;
    if k.schedulerSuspended == 0 {
      ProcessTickKeeps(k);
    } else {
      FlagsIrrelevant(k, k.(pendedTicks := k.pendedTicks + 1));
    }
  }

  lemma ReplayTickKeeps(k: Kernel)
    requires Structure(k) && k.schedulerSuspended == 0 && EventItems(k, Pending) == []
    ensures var k' := ReplayTick(k);
      Structure(k') && k'.schedulerSuspended == 0 && EventItems(k', Pending) == []
  {
    IncrementTickKeeps(k);
    hide IncrementTick, Structure;
    FlagsIrrelevant(IncrementTick(k).0, IncrementTick(k).0.(yieldPending := true));
  }

  lemma {:induction false} ReplayTicksKeeps(k: Kernel, count: nat)
    requires Structure(k) && k.schedulerSuspended == 0 && EventItems(k, Pending) == []
    ensures var k' := ReplayTicks(k, count);
      Structure(k') && k'.schedulerSuspended == 0 && EventItems(k', Pending) == []
    decreases count
  {
    hide Structure, ReplayTick;
    if count > 0 {
      ReplayTickKeeps(k);
      ReplayTicksKeeps(ReplayTick(k), count - 1);
    }
  }

  // ----- resuming the scheduler

  lemma ReadyPendingHeadKeeps(k: Kernel)
    requires Structure(k) && EventItems(k, Pending) != []
    ensures var k' := ReadyPendingHead(k);
      && Structure(k') && EventItems(k', Pending) == EventItems(k, Pending)[1..]
      && k' == k.(tasks := k'.tasks, lists := k'.lists, events := k'.events, topReady := k'.topReady,
           yieldPending := k'.yieldPending)
  {
    hide Structure, Core, WaitersBlocked, MakeReady;
    var t := EventItems(k, Pending)[0];
    var k1 := k.(events := k.events[Pending := EventItems(k, Pending)[1..]],
                 tasks := k.tasks[t := TaskOf(k, t).(event := Nowhere)]);
    PendingHeadRemoved(k, t, k1);
    MakeReadyKeeps(k1, t);
    AddToReadyListFrame(k1, t);
    var k2 := MakeReady(k1, t);
    FlagsIrrelevant(k2, k2.(yieldPending := true));
  }

  lemma PendingHeadRemoved(k: Kernel, t: TaskId, k1: Kernel)
    requires Structure(k) && EventItems(k, Pending) != [] && t == EventItems(k, Pending)[0]
    requires k1 == k.(events := k.events[Pending := EventItems(k, Pending)[1..]],
                      tasks := k.tasks[t := TaskOf(k, t).(event := Nowhere)])
    ensures t in k.tasks && Core(k1) && WaitersBlocked(k1)
  {
    assert t in EventItems(k, Pending);
    assert k1 == RemoveEvent(k, t) by {
      assert Position(EventItems(k, Pending), t) == 0;
      assert Without(EventItems(k, Pending), 0) == EventItems(k, Pending)[1..];
    }
    RemoveEventKeeps(k, t, {});
  }

  lemma {:induction false} ReadyPendingKeeps(k: Kernel)
    requires Structure(k)
    ensures var k' := ReadyPending(k);
      && Structure(k') && EventItems(k', Pending) == []
      && k' == k.(tasks := k'.tasks, lists := k'.lists, events := k'.events, topReady := k'.topReady,
           yieldPending := k'.yieldPending)
    decreases |EventItems(k, Pending)|
  {
    hide Structure, ReadyPendingHead;
    if EventItems(k, Pending) != [] {
      ReadyPendingHeadKeeps(k);
      ReadyPendingKeeps(ReadyPendingHead(k));
    }
  }

  lemma ReadyAllPendingKeeps(k: Kernel)
    requires Structure(k)
    ensures var k' := ReadyAllPending(k);
      && Structure(k') && EventItems(k', Pending) == []
      && k'.schedulerSuspended == k.schedulerSuspended && k'.pendedTicks == k.pendedTicks
  {
    hide Structure, ReadyPending;
    if EventItems(k, Pending) != [] {
      ReadyPendingKeeps(k);
      UnblockTimeIrrelevant(ReadyPending(k), ResetNextUnblock(ReadyPending(k)).nextUnblock);
    }
  }

  lemma ResumeAllKeeps(k: Kernel)
    requires Structure(k) && PendingDrained(k) && k.schedulerSuspended > 0
    ensures Structure(ResumeAll(k)) && PendingDrained(ResumeAll(k))
    ensures ResumeAll(k).schedulerSuspended == k.schedulerSuspended - 1
  {
    hide Structure, ReadyAllPending, ReplayTicks, EventItems;
    var k1 := k.(schedulerSuspended := k.schedulerSuspended - 1);
    FlagsIrrelevant(k, k1);
    PendingStays(k, k1);
    if k1.schedulerSuspended == 0 {
      ReadyAllPendingKeeps(k1);
      var k2 := ReadyAllPending(k1);
      ReplayTicksKeeps(k2, k2.pendedTicks);
      var k3 := ReplayTicks(k2, k2.pendedTicks);
      FlagsIrrelevant(k3, k3.(pendedTicks := 0));
      PendingStays(k3, k3.(pendedTicks := 0));
    }
  }

  // ----- events

  /** The task a non-empty event list wakes is blocked. */
  lemma EventHeadBlocked(k: Kernel, id: nat)
    requires Structure(k) && EventItems(k, OnEvent(id)) != []
    ensures var t := EventItems(k, OnEvent(id))[0];
      t in k.tasks && (IsDelayedList(k.tasks[t].state) || k.tasks[t].state == Suspended)
  {
    assert EventItems(k, OnEvent(id))[0] in EventItems(k, OnEvent(id));
  }

  lemma RemoveFromEventListKeeps(k: Kernel, id: nat)
    requires Structure(k) && PendingDrained(k) && EventItems(k, OnEvent(id)) != []
    ensures Structure(RemoveFromEventList(k, id)) && PendingDrained(RemoveFromEventList(k, id))
  {
    hide Structure, Core, MakeReady, RemoveEvent;
    var t := EventItems(k, OnEvent(id))[0];
    EventHeadBlocked(k, id);
    LeaveEventKeeps(k, t);
    var k1 := RemoveEvent(k, t);
    RemoveEventFrame(k, t);
    StructureGives(k1);
    if k.schedulerSuspended == 0 {
      MakeReadyKeeps(k1, t);
      AddToReadyListFrame(k1, t);
      FlagsIrrelevant(MakeReady(k1, t), MakeReady(k1, t).(yieldPending := true));
    } else {
      PendKeeps(k1, t);
      FlagsIrrelevant(AppendEvent(k1, Pending, t), AppendEvent(k1, Pending, t).(yieldPending := true));
    }
  }

  lemma StructureGives(k: Kernel)
    requires Structure(k)
    ensures Core(k) && WaitersBlocked(k) && forall t :: WaitersBlockedBut(k, t)
  {
  }

  lemma LeaveEventKeeps(k: Kernel, t: TaskId)
    requires Structure(k) && t in k.tasks
    ensures Structure(RemoveEvent(k, t))
  {
    RemoveEventKeeps(k, t, {});
    RemoveEventFrame(k, t);
    hide RemoveEvent, ListsExact, EventsExact, ReadyByPriority, BitmapExact;
    assert Structure(RemoveEvent(k, t));
  }

  lemma PendKeeps(k: Kernel, t: TaskId)
    requires Structure(k) && t in k.tasks && k.tasks[t].event == Nowhere
    requires IsDelayedList(k.tasks[t].state) || k.tasks[t].state == Suspended
    ensures Structure(AppendEvent(k, Pending, t))
  {
    hide ListsExact, EventsExact, ReadyByPriority, BitmapExact;
    AppendEventJoins(k, Pending, t);
    JoinedKeeps(k, AppendEvent(k, Pending, t), Pending, t);
    assert Structure(AppendEvent(k, Pending, t));
  }

  lemma EventValueIrrelevant(k: Kernel, t: TaskId, value: Tick)
    requires Structure(k) && t in k.tasks
    ensures Structure(k.(tasks := k.tasks[t := TaskOf(k, t).(eventValue := value)]))
  {
    var k' := k.(tasks := k.tasks[t := TaskOf(k, t).(eventValue := value)]);
    SameStates(k, k', {});
    SameEvents(k, k');
  }

  lemma RemoveFromUnorderedKeeps(k: Kernel, t: TaskId, value: Tick)
    requires Structure(k) && PendingDrained(k) && t in k.tasks
    ensures Structure(RemoveFromUnorderedEventList(k, t, value)) &&
      PendingDrained(RemoveFromUnorderedEventList(k, t, value))
  {
    hide MakeReady, RemoveEvent, Core, MarkedInUse, EventItems, StateItems;
    var k0 := k.(tasks := k.tasks[t := TaskOf(k, t).(eventValue := MarkedInUse(value))]);
    EventValueIrrelevant(k, t, MarkedInUse(value));
    PendingStays(k, k0);
    LeaveEventKeeps(k0, t);
    var k1 := RemoveEvent(k0, t);
    RemoveEventFrame(k0, t);
    MakeReadyKeeps(k1, t);
    AddToReadyListFrame(k1, t);
    PendingStays(MakeReady(k1, t), MakeReady(k1, t).(yieldPending := true));
    FlagsIrrelevant(MakeReady(k1, t), MakeReady(k1, t).(yieldPending := true));
  }

  /** The running task may block: it is ready, not waiting for anything and not the idle task. */
  ghost predicate MayBlock(k: Kernel) {
    && k.running in k.tasks && k.running != k.idle
    && k.tasks[k.running].state.Ready? && k.tasks[k.running].event == Nowhere
  }

  /** Joining an event list and then blocking. */
  lemma JoinAndDelayKeeps(k: Kernel, k1: Kernel, e: EventPlace, ticks: Tick, canBlockIndefinitely: bool)
    requires Structure(k) && PendingDrained(k) && MayBlock(k) && e != Pending
    requires Joined(k, k1, e, k.running)
    requires k1 == k.(tasks := k1.tasks, events := k1.events)
    ensures Structure(DelayCurrent(k1, ticks, canBlockIndefinitely)) &&
      PendingDrained(DelayCurrent(k1, ticks, canBlockIndefinitely))
  {
    hide FileDelayed, LeaveReady, Structure, Core, WaitersBlockedBut, Joined, EventItems, StateItems;
    JoinedCore(k, k1, e);
    DelayCurrentKeeps(k1, ticks, canBlockIndefinitely);
    DelayCurrentFrame(k1, ticks, canBlockIndefinitely);
    DelayCurrentFrame(LeaveReady(k1), ticks, canBlockIndefinitely);
    PendingStays(k1, DelayCurrent(k1, ticks, canBlockIndefinitely));
  }

  lemma JoinedCore(k: Kernel, k1: Kernel, e: EventPlace)
    requires Structure(k) && MayBlock(k) && e != Pending
    requires Joined(k, k1, e, k.running)
    requires k1 == k.(tasks := k1.tasks, events := k1.events)
    ensures Core(k1) && WaitersBlockedBut(k1, k1.running) && EventItems(k1, Pending) == EventItems(k, Pending)
    ensures k1.running in k1.tasks && k1.running != k1.idle && k1.tasks[k1.running].state.Ready?
  {
    hide ListsExact, EventsExact, ReadyByPriority, BitmapExact;
    JoinedKeeps(k, k1, e, k.running);
  }

  lemma InsertEventJoins(k: Kernel, e: EventPlace, t: TaskId, p: nat)
    requires EventsExact(k) && e != Nowhere && t in k.tasks && k.tasks[t].event == Nowhere && p <= |EventItems(k, e)|
    ensures Joined(k, k.(events := k.events[e := Insert(EventItems(k, e), p, t)],
                         tasks := k.tasks[t := TaskOf(k, t).(event := e)]), e, t)
  {
    assert t !in EventItems(k, e);
    InsertMembers(EventItems(k, e), p, t);
  }

  lemma PlaceOnEventListKeeps(k: Kernel, id: nat, ticks: Tick)
    requires Structure(k) && PendingDrained(k) && MayBlock(k)
    ensures Structure(PlaceOnEventList(k, id, ticks)) && PendingDrained(PlaceOnEventList(k, id, ticks))
  {
    var items := EventItems(k, OnEvent(id));
    var p := SortedPosition(EventValues(k, items), TaskOf(k, k.running).eventValue);
    var k1 := k.(events := k.events[OnEvent(id) := Insert(items, p, k.running)],
                 tasks := k.tasks[k.running := TaskOf(k, k.running).(event := OnEvent(id))]);
    assert EventsExact(k);
    hide Structure, PendingDrained, EventsExact, Joined, DelayCurrent, Insert, SortedPosition, EventValues;
    InsertEventJoins(k, OnEvent(id), k.running, p);
    JoinAndDelayKeeps(k, k1, OnEvent(id), ticks, true);
  }

  lemma PlaceRestrictedKeeps(k: Kernel, id: nat, ticks: Tick, indefinitely: bool)
    requires Structure(k) && PendingDrained(k) && MayBlock(k)
    ensures Structure(PlaceRestricted(k, id, ticks, indefinitely)) &&
      PendingDrained(PlaceRestricted(k, id, ticks, indefinitely))
  {
    AppendEventJoins(k, OnEvent(id), k.running);
    JoinAndDelayKeeps(k, AppendEvent(k, OnEvent(id), k.running), OnEvent(id),
      if indefinitely then MAX_DELAY else ticks, indefinitely);
  }

  lemma PlaceOnUnorderedKeeps(k: Kernel, id: nat, value: Tick, ticks: Tick)
    requires Structure(k) && PendingDrained(k) && MayBlock(k)
    ensures Structure(PlaceOnUnorderedEventList(k, id, value, ticks)) &&
      PendingDrained(PlaceOnUnorderedEventList(k, id, value, ticks))
  {
    var k0 := k.(tasks := k.tasks[k.running := TaskOf(k, k.running).(eventValue := MarkedInUse(value))]);
    EventValueIrrelevant(k, k.running, MarkedInUse(value));
    AppendEventJoins(k0, OnEvent(id), k0.running);
    JoinAndDelayKeeps(k0, AppendEvent(k0, OnEvent(id), k0.running), OnEvent(id), ticks, true);
  }

  lemma DelayKeeps(k: Kernel, ticks: Tick)
    requires Structure(k) && PendingDrained(k) && MayBlock(k)
    ensures Structure(DelayCurrent(k, ticks, false)) && PendingDrained(DelayCurrent(k, ticks, false))
  {
    DelayCurrentKeeps(k, ticks, false);
    DelayCurrentFrame(k, ticks, false);
    DelayCurrentFrame(LeaveReady(k), ticks, false);
  }

  // ----- suspending, resuming, creating and deleting tasks

  lemma TakeOffKeeps(k: Kernel, t: TaskId)
    requires InPlace(k) && t in k.tasks
    ensures InTransit(TakeOffStateList(k, t), t)
    ensures var k' := TakeOffStateList(k, t);
      k' == k.(lists := k'.lists, topReady := k'.topReady)
  {
    var n := k.tasks[t].state;
    var k1 := RemoveState(k, n, t);
    RemoveStateKeeps(k, n, t);
    SameEvents(k, k1);
    SameEvents(k, TakeOffStateList(k, t));
    if n.Ready? {
      assert n.priority == k.tasks[t].priority;
      if StateItems(k1, n).items == [] { ResetReadyKeeps(k1, n.priority); }
    } else {
      ResetReadyIdle(k1, k.tasks[t].priority);
    }
    SameStatesTransit(k1, TakeOffStateList(k, t), t);
  }

  /** Clearing the bit of an empty ready list whose bit is clear already changes nothing. */
  lemma ResetReadyIdle(k: Kernel, p: Priority)
    requires BitmapExact(k)
    ensures BitmapExact(ResetReady(k, p))
  {
    ResetReadyKeeps(k, p);
  }

  lemma SameStatesTransit(k: Kernel, k': Kernel, t: TaskId)
    requires k' == k.(topReady := k'.topReady)
    ensures ListsExact(k, {t}) ==> ListsExact(k', {t})
    ensures ReadyByPriority(k, {t}) ==> ReadyByPriority(k', {t})
  {
    SameStates(k, k', {t});
  }

  /** The last two steps of vTaskSuspend and of a task deleting itself. */
  lemma ParkKeeps(k: Kernel, t: TaskId, n: StateList)
    requires InTransit(k, t) && !n.Ready? && k.tasks[t].event == Nowhere
    requires WaitersBlockedBut(k, t) && SchedulerFlags(k) && IdleReady(k) && t != k.idle
    ensures Structure(k.(lists := k.lists[n := InsertEnd(StateItems(k, n), t)],
                         tasks := k.tasks[t := TaskOf(k, t).(state := n)]))
  {
    var k' := k.(lists := k.lists[n := InsertEnd(StateItems(k, n), t)],
                 tasks := k.tasks[t := TaskOf(k, t).(state := n)]);
    InsertEndPutsOn(k, n, t);
    PutOnKeeps(k, k', n, t);
    hide ListsExact, EventsExact, ReadyByPriority, BitmapExact, InsertEnd;
    assert Structure(k');
  }

  lemma OffListsKeeps(k: Kernel, t: TaskId)
    requires Structure(k) && PendingDrained(k) && t in k.tasks && t != k.idle
    ensures var k1 := RemoveEvent(TakeOffStateList(k, t), t);
      && InTransit(k1, t) && k1.tasks[t].event == Nowhere && WaitersBlockedBut(k1, t)
      && SchedulerFlags(k1) && IdleReady(k1) && PendingDrained(k1)
      && k1.schedulerSuspended == k.schedulerSuspended && k1.running == k.running && k1.idle == k.idle
      && k1.tasks == k.tasks[t := k.tasks[t].(event := Nowhere)]
  {
    TakeOffKeeps(k, t);
    var k0 := TakeOffStateList(k, t);
    RemoveEventKeeps(k0, t, {t});
    RemoveEventFrame(k0, t);
    assert EventItems(k0, Pending) == EventItems(k, Pending);
    hide TakeOffStateList, RemoveEvent, ListsExact, EventsExact, ReadyByPriority, BitmapExact;
    assert InTransit(RemoveEvent(k0, t), t);
  }

  lemma SuspendTaskKeeps(k: Kernel, t: TaskId)
    requires Structure(k) && PendingDrained(k) && t in k.tasks && t != k.idle
    ensures Structure(SuspendTask(k, t)) && PendingDrained(SuspendTask(k, t))
  {
    OffListsKeeps(k, t);
    hide RemoveEvent, TakeOffStateList, ListsExact, EventsExact, ReadyByPriority, BitmapExact;
    ParkKeeps(RemoveEvent(TakeOffStateList(k, t), t), t, Suspended);
  }

  lemma ResumeTaskKeeps(k: Kernel, t: TaskId)
    requires Structure(k) && PendingDrained(k) && t in k.tasks
    ensures Structure(ResumeTask(k, t)) && PendingDrained(ResumeTask(k, t))
    ensures Structure(ResumeTaskFromISR(k, t)) && PendingDrained(ResumeTaskFromISR(k, t))
  {
    if IsTaskSuspended(k, t) {
      MakeReadyKeeps(k, t);
      AddToReadyListFrame(k, t);
      hide MakeReady, ListsExact, EventsExact, ReadyByPriority, BitmapExact;
      PendKeeps(k, t);
    }
  }

  lemma NewTaskInTransit(k: Kernel, t: TaskId, task: Tcb)
    requires InPlace(k) && t !in k.tasks && task.event == Nowhere
    ensures InTransit(k.(tasks := k.tasks[t := task]), t)
  {
    var k1 := k.(tasks := k.tasks[t := task]);
    assert forall n :: StateItems(k1, n) == StateItems(k, n);
    assert forall e :: EventItems(k1, e) == EventItems(k, e);
  }

  lemma CreateTaskKeeps(k: Kernel, t: TaskId, p: Priority)
    requires Structure(k) && PendingDrained(k) && t !in k.tasks
    ensures Structure(CreateTask(k, t, p)) && PendingDrained(CreateTask(k, t, p))
  {
    hide AddToReadyList, ListsExact, EventsExact, ReadyByPriority, BitmapExact;
    var k1 := k.(tasks := k.tasks[t := Tcb(p, p, 0, Ready(p), 0, Nowhere, MAX_PRIORITIES - p)]);
    NewTaskInTransit(k, t, k1.tasks[t]);
    AddToReadyListPlaces(k1, t);
    AddToReadyListFrame(k1, t);
    assert EventItems(k1, Pending) == EventItems(k, Pending);
  }

  /** A task in transit that waits for nothing can be forgotten. */
  lemma ForgetInPlace(k: Kernel, t: TaskId)
    requires InTransit(k, t) && k.tasks[t].event == Nowhere
    ensures InPlace(k.(tasks := k.tasks - {t}))
  {
    var k' := k.(tasks := k.tasks - {t});
    assert forall n :: StateItems(k', n) == StateItems(k, n);
    assert forall e :: EventItems(k', e) == EventItems(k, e);
  }

  lemma ForgetKeeps(k: Kernel, t: TaskId)
    requires InTransit(k, t) && k.tasks[t].event == Nowhere
    requires WaitersBlockedBut(k, t) && SchedulerFlags(k) && IdleReady(k) && t != k.idle && t != k.running
    ensures Structure(k.(tasks := k.tasks - {t}))
  {
    ForgetInPlace(k, t);
    hide ListsExact, EventsExact, ReadyByPriority, BitmapExact;
  }

  lemma DeleteTaskKeeps(k: Kernel, t: TaskId)
    requires Structure(k) && PendingDrained(k) && t in k.tasks && t != k.idle
    ensures Structure(DeleteTask(k, t)) && PendingDrained(DeleteTask(k, t))
  {
    OffListsKeeps(k, t);
    var k1 := RemoveEvent(TakeOffStateList(k, t), t);
    hide RemoveEvent, TakeOffStateList, InTransit, Structure;
    if t == k.running {
      ParkKeeps(k1, t, Termination);
    } else {
      ForgetKeeps(k1, t);
      var k2 := k1.(tasks := k1.tasks - {t});
      UnblockTimeIrrelevant(k2, ResetNextUnblock(k2).nextUnblock);
    }
  }

  // ----- priorities

  /** A task in transit may change its priority. */
  lemma RepriorityInTransit(k: Kernel, t: TaskId, p: Priority)
    requires InTransit(k, t)
    ensures InTransit(k.(tasks := k.tasks[t := TaskOf(k, t).(priority := p)]), t)
  {
    var k' := k.(tasks := k.tasks[t := TaskOf(k, t).(priority := p)]);
    SameEvents(k, k');
    assert forall n :: StateItems(k', n) == StateItems(k, n);
  }

  lemma ChangePriorityReady(k: Kernel, t: TaskId, p: Priority)
    requires InPlace(k) && t in k.tasks && k.tasks[t].state == Ready(k.tasks[t].priority)
    ensures InPlace(ChangePriority(k, t, p))
  {
    hide ListsExact, EventsExact, ReadyByPriority, BitmapExact, BitmapExactBut, AddToReadyList;
    var was := k.tasks[t].priority;
    RemoveStateKeeps(k, Ready(was), t);
    var k0 := RemoveState(k, Ready(was), t);
    ResetReadyKeeps(k0, was);
    var k1 := ResetReady(k0, was);
    SameStatesTransit(k0, k1, t);
    SameEvents(k, k1);
    RepriorityInTransit(k1, t, p);
    AddToReadyListPlaces(k1.(tasks := k1.tasks[t := TaskOf(k1, t).(priority := p)]), t);
  }

  lemma ChangePriorityBlocked(k: Kernel, t: TaskId, p: Priority)
    requires InPlace(k) && t in k.tasks && !k.tasks[t].state.Ready?
    ensures InPlace(ChangePriority(k, t, p))
  {
    var k' := ChangePriority(k, t, p);
    SameEvents(k, k');
    assert forall n :: StateItems(k', n) == StateItems(k, n);
  }

  lemma ChangePriorityFrame(k: Kernel, t: TaskId, p: Priority)
    requires t in k.tasks
    ensures var k' := ChangePriority(k, t, p);
      && k' == k.(lists := k'.lists, topReady := k'.topReady, tasks := k'.tasks)
      && k'.tasks == k.tasks[t := k.tasks[t].(priority := p, state := k'.tasks[t].state)]
      && (k'.tasks[t].state == k.tasks[t].state || (k.tasks[t].state.Ready? && k'.tasks[t].state.Ready?))
  {
  }

  lemma ChangePriorityInPlace(k: Kernel, t: TaskId, p: Priority)
    requires InPlace(k) && t in k.tasks
    ensures InPlace(ChangePriority(k, t, p))
  {
    hide ChangePriority;
    if k.tasks[t].state.Ready? {
      assert k.tasks[t].state == Ready(k.tasks[t].priority);
      hide InPlace;
      ChangePriorityReady(k, t, p);
    } else {
      hide InPlace;
      ChangePriorityBlocked(k, t, p);
    }
  }

  lemma ChangePriorityKeeps(k: Kernel, t: TaskId, p: Priority)
    requires Structure(k) && t in k.tasks
    ensures Structure(ChangePriority(k, t, p)) && (PendingDrained(k) ==> PendingDrained(ChangePriority(k, t, p)))
  {
    hide ChangePriority, ListsExact, EventsExact, ReadyByPriority, BitmapExact;
    ChangePriorityInPlace(k, t, p);
    ChangePriorityFrame(k, t, p);
    assert EventItems(ChangePriority(k, t, p), Pending) == EventItems(k, Pending);
  }

  /** Bookkeeping fields of a task control block that the lists do not depend on. */
  lemma BookkeepingIrrelevant(k: Kernel, t: TaskId, task: Tcb)
    requires Structure(k) && t in k.tasks
    requires task.state == k.tasks[t].state && task.event == k.tasks[t].event && task.priority == k.tasks[t].priority
    ensures Structure(k.(tasks := k.tasks[t := task]))
  {
    SameStates(k, k.(tasks := k.tasks[t := task]), {});
    SameEvents(k, k.(tasks := k.tasks[t := task]));
  }

  lemma SetPriorityKeeps(k: Kernel, t: TaskId, p: Priority)
    requires Structure(k) && PendingDrained(k) && t in k.tasks
    ensures Structure(SetPriority(k, t, p)) && PendingDrained(SetPriority(k, t, p))
  {
    var task := k.tasks[t];
    var task1 := WithEventValueFor(task.(basePriority := p), p);
    BookkeepingIrrelevant(k, t, task1);
    hide ChangePriority, Structure;
    ChangePriorityKeeps(k.(tasks := k.tasks[t := task1]), t,
      if task.basePriority == task.priority then p else task.priority);
  }

  lemma InheritPriorityKeeps(k: Kernel, holder: TaskId)
    requires Structure(k) && PendingDrained(k) && holder in k.tasks
    ensures Structure(InheritPriority(k, holder)) && PendingDrained(InheritPriority(k, holder))
  {
    var p := TaskOf(k, k.running).priority;
    var task := WithEventValueFor(TaskOf(k, holder), p);
    BookkeepingIrrelevant(k, holder, task);
    hide ChangePriority, Structure;
    ChangePriorityKeeps(k.(tasks := k.tasks[holder := task]), holder, p);
  }

  lemma BookThenChangeKeeps(k: Kernel, t: TaskId, task: Tcb, p: Priority)
    requires Structure(k) && PendingDrained(k) && t in k.tasks
    requires task.state == k.tasks[t].state && task.event == k.tasks[t].event && task.priority == k.tasks[t].priority
    ensures Structure(k.(tasks := k.tasks[t := task])) && PendingDrained(k.(tasks := k.tasks[t := task]))
    ensures var k' := ChangePriority(k.(tasks := k.tasks[t := task]), t, p);
      Structure(k') && PendingDrained(k')
  {
    hide Structure, ChangePriority;
    BookkeepingIrrelevant(k, t, task);
    ChangePriorityKeeps(k.(tasks := k.tasks[t := task]), t, p);
  }

  lemma DisinheritPriorityKeeps(k: Kernel)
    requires Structure(k) && PendingDrained(k)
    ensures Structure(DisinheritPriority(k)) && PendingDrained(DisinheritPriority(k))
  {
    assert k.running in k.tasks;
    hide ChangePriority, Structure, PendingDrained;
    var t := k.running;
    var task := MutexGiven(k);
    var task1 := task.(eventValue := MAX_PRIORITIES - task.basePriority);
    BookThenChangeKeeps(k, t, task, 0);
    BookThenChangeKeeps(k, t, task1, task.basePriority);
  }

  lemma IncrementMutexHeldKeeps(k: Kernel)
    requires Structure(k) && PendingDrained(k)
    ensures Structure(IncrementMutexHeld(k)) && PendingDrained(IncrementMutexHeld(k))
  {
    hide ListsExact, EventsExact, ReadyByPriority, BitmapExact, WaitersBlocked;
    assert k.running in k.tasks;
    BookkeepingIrrelevant(k, k.running, TaskOf(k, k.running).(mutexesHeld := TaskOf(k, k.running).mutexesHeld + 1));
  }

  // ----- choosing the task to run

  /** vTaskSwitchContext selects a ready task, and no ready task has a higher priority. */
  lemma SwitchContextSelectsHighest(k: Kernel)
    requires Structure(k) && k.schedulerSuspended == 0
    ensures var k' := SwitchContext(k);
      && k'.running in k'.tasks && k'.tasks[k'.running].state == Ready(k'.tasks[k'.running].priority)
      && (forall t :: t in k'.tasks && k'.tasks[t].state.Ready? ==>
           k'.tasks[t].priority <= k'.tasks[k'.running].priority)
      && k'.tasks == k.tasks && !k'.yieldPending
      && (var p := k'.tasks[k'.running].priority;
          StateItems(k', Ready(p)) == Next(StateItems(k, Ready(p))) && k'.running == Current(StateItems(k', Ready(p))))
  {
    var q := k.tasks[k.idle].state.priority;
    assert k.idle in StateItems(k, Ready(q)).items;
    assert k.topReady[q];
    var p := Highest(k.topReady);
    var l := Next(StateItems(k, Ready(p)));
    assert Current(l) in l.items;
    assert Current(l) in StateItems(k, Ready(p)).items;
    forall t | t in k.tasks && k.tasks[t].state.Ready? ensures k.tasks[t].priority <= p {
      assert t in StateItems(k, k.tasks[t].state).items;
      assert k.topReady[k.tasks[t].priority];
    }
  }

  lemma SelectionPoint(k: Kernel)
    requires Structure(k) && k.schedulerSuspended == 0
    ensures exists q :: 0 <= q < WORD && k.topReady[q]
    ensures var p := Highest(k.topReady);
      && p < MAX_PRIORITIES && StateItems(k, Ready(p)).items != [] && Valid(StateItems(k, Ready(p)))
      && (var l := Next(StateItems(k, Ready(p)));
          SwitchContext(k) == k.(yieldPending := false, lists := k.lists[Ready(p) := l], running := Current(l)))
  {
    var q := k.tasks[k.idle].state.priority;
    assert k.idle in StateItems(k, Ready(q)).items;
    assert k.topReady[q];
    assert k.topReady[Highest(k.topReady)];
  }

  /** Moving an index does not touch the invariant. */
  lemma IndexIrrelevant(k: Kernel, n: StateList, l: List<TaskId>, t: TaskId)
    requires Structure(k) && t in k.tasks
    requires l.items == StateItems(k, n).items && Valid(l)
    ensures Structure(k.(lists := k.lists[n := l], running := t, yieldPending := false))
  {
    hide ListsExact, EventsExact, ReadyByPriority, BitmapExact, StateItems;
    var k' := k.(lists := k.lists[n := l], running := t, yieldPending := false);
    SameEvents(k, k');
    SameItems(k, k', n, l);
  }

  lemma SameItems(k: Kernel, k': Kernel, n: StateList, l: List<TaskId>)
    requires ListsExact(k, {}) && ReadyByPriority(k, {}) && BitmapExact(k)
    requires l.items == StateItems(k, n).items && Valid(l)
    requires k'.tasks == k.tasks && k'.lists == k.lists[n := l] && k'.topReady == k.topReady
    ensures ListsExact(k', {}) && ReadyByPriority(k', {}) && BitmapExact(k')
  {
    assert forall m :: StateItems(k', m) == if m == n then l else StateItems(k, m);
    hide StateItems;
  }

  lemma SwitchContextKeeps(k: Kernel)
    requires Structure(k) && PendingDrained(k)
    ensures Structure(SwitchContext(k)) && PendingDrained(SwitchContext(k))
  {
    hide Structure, StateItems, Next, Current, Valid, Highest;
    if k.schedulerSuspended != 0 {
      FlagsIrrelevant(k, k.(yieldPending := true));
    } else {
      SelectionPoint(k);
      SwitchContextSelectsHighest(k);
      var p := Highest(k.topReady);
      var l := Next(StateItems(k, Ready(p)));
      NextSameItems(StateItems(k, Ready(p)));
      IndexIrrelevant(k, Ready(p), l, Current(l));
      PendingStays(k, SwitchContext(k));
    }
  }

  lemma NextSameItems(l: List<TaskId>)
    requires Valid(l) && l.items != []
    ensures Next(l).items == l.items && Valid(Next(l))
  {
  }
}
