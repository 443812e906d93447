/** tasks.c: the lists, the clock and the task control blocks, as values. */
module KernelSpec {
  import opened Ticks
  import opened ReadyBits
  import opened ListSpec

  /** taskEVENT_LIST_ITEM_VALUE_IN_USE */
  const ITEM_VALUE_IN_USE: int := 0x8000_0000

  type TaskId = nat

  datatype StateList = Ready(priority: Priority) | Delayed1 | Delayed2 | Suspended | Termination

  datatype EventPlace = Nowhere | Pending | OnEvent(id: nat)

  /** state and event are the containers of xStateListItem and xEventListItem. */
  datatype Tcb = Tcb(
    priority: Priority,
    basePriority: Priority,
    mutexesHeld: nat,
    state: StateList,
    wakeTime: Tick,
    event: EventPlace,
    eventValue: Tick)

  datatype Kernel = Kernel(
    tasks: map<TaskId, Tcb>,
    lists: map<StateList, List<TaskId>>,
    events: map<EventPlace, seq<TaskId>>,
    delayed: StateList,
    overflowDelayed: StateList,
    topReady: Bitmap,
    tick: Tick,
    overflows: nat,
    nextUnblock: Tick,
    pendedTicks: nat,
    schedulerSuspended: nat,
    yieldPending: bool,
    running: TaskId,
    idle: TaskId)

  // ----- lists

  function StateItems(k: Kernel, n: StateList): List<TaskId> {
    if n in k.lists then k.lists[n] else List([], 0)
  }

  function EventItems(k: Kernel, e: EventPlace): seq<TaskId> {
    if e in k.events then k.events[e] else []
  }

  function TaskOf(k: Kernel, t: TaskId): Tcb {
    if t in k.tasks then k.tasks[t] else Tcb(0, 0, 0, Suspended, 0, Nowhere, 0)
  }

  function Position(s: seq<TaskId>, t: TaskId): (p: nat)
    ensures p <= |s|
    ensures t in s ==> p < |s| && s[p] == t
    ensures t !in s ==> p == |s|
  {
    if s == [] || s[0] == t then 0 else 1 + Position(s[1..], t)
  }

  /** uxListRemove on a named list. */
  function Unlist(l: List<TaskId>, t: TaskId): List<TaskId> {
    var p := Position(l.items, t);
    if p < |l.items| && l.index <= |l.items| then Remove(l, p) else l
  }

  function RemoveState(k: Kernel, n: StateList, t: TaskId): Kernel {
    k.(lists := k.lists[n := Unlist(StateItems(k, n), t)])
  }

  /** Take the event item off whatever list it is on. */
  function RemoveEvent(k: Kernel, t: TaskId): Kernel {
    var e := TaskOf(k, t).event;
    if e == Nowhere then k
    else
      var p := Position(EventItems(k, e), t);
      var items := if p < |EventItems(k, e)| then Without(EventItems(k, e), p) else EventItems(k, e);
      k.(events := k.events[e := items], tasks := k.tasks[t := TaskOf(k, t).(event := Nowhere)])
  }

  function AppendEvent(k: Kernel, e: EventPlace, t: TaskId): Kernel {
    k.(events := k.events[e := EventItems(k, e) + [t]],
       tasks := k.tasks[t := TaskOf(k, t).(event := e)])
  }

  /** prvAddTaskToReadyList. */
  function AddToReadyList(k: Kernel, t: TaskId): Kernel {
    var p := TaskOf(k, t).priority;
    k.(topReady := Record(k.topReady, p),
       lists := k.lists[Ready(p) := InsertEnd(StateItems(k, Ready(p)), t)],
       tasks := k.tasks[t := TaskOf(k, t).(state := Ready(p))])
  }

  /** Off whatever state list it is on and to the end of its ready list. */
  function MakeReady(k: Kernel, t: TaskId): Kernel {
    AddToReadyList(RemoveState(k, TaskOf(k, t).state, t), t)
  }

  /** taskRESET_READY_PRIORITY. */
  function ResetReady(k: Kernel, p: Priority): Kernel {
    if StateItems(k, Ready(p)).items == [] then k.(topReady := Reset(k.topReady, p)) else k
  }

  function WakeTimes(k: Kernel, items: seq<TaskId>): (r: seq<Tick>)
    ensures |r| == |items|
  {
    seq(|items|, i requires 0 <= i < |items| => TaskOf(k, items[i]).wakeTime)
  }

  function EventValues(k: Kernel, items: seq<TaskId>): (r: seq<Tick>)
    ensures |r| == |items|
  {
    seq(|items|, i requires 0 <= i < |items| => TaskOf(k, items[i]).eventValue)
  }

  /** vListInsert of a state item by wake time. */
  function InsertByWakeTime(k: Kernel, n: StateList, t: TaskId, time: Tick): Kernel {
    var l := StateItems(k, n);
    var p := SortedPosition(WakeTimes(k, l.items), time);
    k.(lists := k.lists[n := List(Insert(l.items, p, t), if l.index > p then l.index + 1 else l.index)],
       tasks := k.tasks[t := TaskOf(k, t).(state := n, wakeTime := time)])
  }

  /** prvResetNextTaskUnblockTime. */
  function ResetNextUnblock(k: Kernel): Kernel {
    var items := StateItems(k, k.delayed).items;
    k.(nextUnblock := if items == [] then MAX_DELAY else TaskOf(k, items[0]).wakeTime)
  }

  // ----- the clock

  /** taskSWITCH_DELAYED_LISTS. */
  function SwitchDelayedLists(k: Kernel): Kernel {
    ResetNextUnblock(k.(delayed := k.overflowDelayed, overflowDelayed := k.delayed, overflows := k.overflows + 1))
  }

  /** What waking one expired task does. */
  function WakeHead(k: Kernel): Kernel
    requires StateItems(k, k.delayed).items != []
  {
    var t := StateItems(k, k.delayed).items[0];
    AddToReadyList(RemoveEvent(RemoveState(k, k.delayed, t), t), t)
  }

  predicate IsDelayedList(n: StateList) {
    n == Delayed1 || n == Delayed2
  }

  lemma WakeHeadShortens(k: Kernel)
    requires StateItems(k, k.delayed).items != [] && IsDelayedList(k.delayed)
    requires StateItems(k, k.delayed).index <= |StateItems(k, k.delayed).items|
    ensures var k' := WakeHead(k);
      && k'.delayed == k.delayed
      && StateItems(k', k'.delayed) == Unlist(StateItems(k, k.delayed), StateItems(k, k.delayed).items[0])
      && |StateItems(k', k'.delayed).items| == |StateItems(k, k.delayed).items| - 1
  {
  }

  /** The unblocking loop of xTaskIncrementTick; the flag says whether a woken task should
      preempt the running one. */
  function WakeExpired(k: Kernel, switchRequired: bool): (Kernel, bool)
    decreases |StateItems(k, k.delayed).items|
  {
    var l := StateItems(k, k.delayed);
    if l.items == [] then (k.(nextUnblock := MAX_DELAY), switchRequired)
    else
      var t := l.items[0];
      if k.tick < TaskOf(k, t).wakeTime then (k.(nextUnblock := TaskOf(k, t).wakeTime), switchRequired)
      else if !IsDelayedList(k.delayed) || l.index > |l.items| then (k, switchRequired)
      else
        WakeHeadShortens(k);
        var k' := WakeHead(k);
        WakeExpired(k', switchRequired || TaskOf(k', t).priority >= TaskOf(k', k'.running).priority)
  }

  function AdvanceTick(k: Kernel): Kernel {
    var k1 := k.(tick := Wrapped(k.tick + 1));
    if k1.tick == 0 then SwitchDelayedLists(k1) else k1
  }

  /** xTaskIncrementTick while the scheduler is not suspended. */
  function ProcessTick(k: Kernel): (Kernel, bool) {
    var k1 := AdvanceTick(k);
    var (k2, woken) := if k1.tick >= k1.nextUnblock then WakeExpired(k1, false) else (k1, false);
    (k2, woken || |StateItems(k2, Ready(TaskOf(k2, k2.running).priority)).items| > 1)
  }

  /** xTaskIncrementTick: a tick that arrives while the scheduler is suspended is pended. */
  function IncrementTick(k: Kernel): (Kernel, bool) {
    if k.schedulerSuspended == 0 then
      var (k', switchRequired) := ProcessTick(k);
      (k', switchRequired || k'.yieldPending)
    else (k.(pendedTicks := k.pendedTicks + 1), k.yieldPending)
  }

  // ----- blocking

  /** The running task taken off its ready list, the bit of its priority cleared if that was
      the last one. */
  function LeaveReady(k: Kernel): Kernel {
    var n := TaskOf(k, k.running).state;
    var k1 := RemoveState(k, n, k.running);
    if StateItems(k1, n).items == [] then k1.(topReady := Reset(k1.topReady, TaskOf(k, k.running).priority)) else k1
  }

  /** The second half of prvAddCurrentTaskToDelayedList. */
  function FileDelayed(k: Kernel, ticks: Tick, canBlockIndefinitely: bool): Kernel {
    var t := k.running;
    if ticks == MAX_DELAY && canBlockIndefinitely then
      k.(lists := k.lists[Suspended := InsertEnd(StateItems(k, Suspended), t)],
         tasks := k.tasks[t := TaskOf(k, t).(state := Suspended)])
    else
      var wake := Wrapped(k.tick + ticks);
      if wake < k.tick then InsertByWakeTime(k, k.overflowDelayed, t, wake)
      else
        var k1 := InsertByWakeTime(k, k.delayed, t, wake);
        k1.(nextUnblock := if wake < k1.nextUnblock then wake else k1.nextUnblock)
  }

  /** prvAddCurrentTaskToDelayedList. */
  function DelayCurrent(k: Kernel, ticks: Tick, canBlockIndefinitely: bool): Kernel {
    FileDelayed(LeaveReady(k), ticks, canBlockIndefinitely)
  }

  /** vTaskPlaceOnEventList: in priority order by the event item's value. */
  function PlaceOnEventList(k: Kernel, id: nat, ticks: Tick): Kernel {
    var items := EventItems(k, OnEvent(id));
    var p := SortedPosition(EventValues(k, items), TaskOf(k, k.running).eventValue);
    var k1 := k.(events := k.events[OnEvent(id) := Insert(items, p, k.running)],
                 tasks := k.tasks[k.running := TaskOf(k, k.running).(event := OnEvent(id))]);
    DelayCurrent(k1, ticks, true)
  }

  /** The OR with taskEVENT_LIST_ITEM_VALUE_IN_USE. */
  function MarkedInUse(value: Tick): Tick {
    if value < ITEM_VALUE_IN_USE then value + ITEM_VALUE_IN_USE else value
  }

  /** vTaskPlaceOnUnorderedEventList. */
  function PlaceOnUnorderedEventList(k: Kernel, id: nat, value: Tick, ticks: Tick): Kernel {
    var k1 := k.(tasks := k.tasks[k.running := TaskOf(k, k.running).(eventValue := MarkedInUse(value))]);
    DelayCurrent(AppendEvent(k1, OnEvent(id), k.running), ticks, true)
  }

  /** vTaskPlaceOnEventListRestricted. */
  function PlaceRestricted(k: Kernel, id: nat, ticks: Tick, indefinitely: bool): Kernel {
    DelayCurrent(AppendEvent(k, OnEvent(id), k.running), if indefinitely then MAX_DELAY else ticks, indefinitely)
  }

  // ----- waking

  /** A woken task goes to its ready list, or to the pending-ready list while the scheduler
      is suspended. */
  function WakeOrPend(k: Kernel, t: TaskId): Kernel {
    if k.schedulerSuspended == 0 then MakeReady(k, t) else AppendEvent(k, Pending, t)
  }

  /** xTaskRemoveFromEventList. */
  function RemoveFromEventList(k: Kernel, id: nat): Kernel
    requires EventItems(k, OnEvent(id)) != []
  {
    var t := EventItems(k, OnEvent(id))[0];
    var k1 := RemoveEvent(k, t);
    var k2 := WakeOrPend(k1, t);
    if TaskOf(k2, t).priority > TaskOf(k2, k2.running).priority then k2.(yieldPending := true) else k2
  }

  /** xTaskRemoveFromUnorderedEventList. */
  function RemoveFromUnorderedEventList(k: Kernel, t: TaskId, value: Tick): Kernel {
    var k1 := RemoveEvent(k.(tasks := k.tasks[t := TaskOf(k, t).(eventValue := MarkedInUse(value))]), t);
    var k2 := MakeReady(k1, t);
    if TaskOf(k2, t).priority > TaskOf(k2, k2.running).priority then k2.(yieldPending := true) else k2
  }

  /** One turn of the loop of xTaskResumeAll over the pending-ready list. */
  function ReadyPendingHead(k: Kernel): Kernel
    requires EventItems(k, Pending) != []
  {
    var t := EventItems(k, Pending)[0];
    var k1 := k.(events := k.events[Pending := EventItems(k, Pending)[1..]],
                 tasks := k.tasks[t := TaskOf(k, t).(event := Nowhere)]);
    var k2 := MakeReady(k1, t);
    if TaskOf(k2, t).priority >= TaskOf(k2, k2.running).priority then k2.(yieldPending := true) else k2
  }

  function ReadyPending(k: Kernel): Kernel
    decreases |EventItems(k, Pending)|
  {
    if EventItems(k, Pending) == [] then k else ReadyPending(ReadyPendingHead(k))
  }

  /** One turn of the replay of pended ticks. */
  function ReplayTick(k: Kernel): Kernel {
    var (k1, switchRequired) := IncrementTick(k);
    if switchRequired then k1.(yieldPending := true) else k1
  }

  function ReplayTicks(k: Kernel, count: nat): Kernel
    decreases count
  {
    if count == 0 then k else ReplayTicks(ReplayTick(k), count - 1)
  }

  /** The first half of xTaskResumeAll: every pending task to its ready list. */
  function ReadyAllPending(k: Kernel): Kernel {
    if EventItems(k, Pending) == [] then k else ResetNextUnblock(ReadyPending(k))
  }

  /** xTaskResumeAll; the flag of the source is the final value of yieldPending. */
  function ResumeAll(k: Kernel): Kernel
    requires k.schedulerSuspended > 0
  {
    var k1 := k.(schedulerSuspended := k.schedulerSuspended - 1);
    if k1.schedulerSuspended > 0 then k1
    else
      var k2 := ReadyAllPending(k1);
      ReplayTicks(k2, k2.pendedTicks).(pendedTicks := 0)
  }

  // ----- tasks

  /** The common part of the code that takes a task off its state list and, when the list
      became empty, clears the bit of its priority if its ready list is empty. */
  function TakeOffStateList(k: Kernel, t: TaskId): Kernel {
    var k1 := RemoveState(k, TaskOf(k, t).state, t);
    if StateItems(k1, TaskOf(k, t).state).items == [] then ResetReady(k1, TaskOf(k, t).priority) else k1
  }

  /** vTaskSuspend, up to the end of its first critical section. */
  function SuspendTask(k: Kernel, t: TaskId): Kernel {
    var k1 := RemoveEvent(TakeOffStateList(k, t), t);
    k1.(lists := k1.lists[Suspended := InsertEnd(StateItems(k1, Suspended), t)],
        tasks := k1.tasks[t := TaskOf(k1, t).(state := Suspended)])
  }

  /** prvTaskIsTaskSuspended. */
  predicate IsTaskSuspended(k: Kernel, t: TaskId) {
    TaskOf(k, t).state == Suspended && TaskOf(k, t).event == Nowhere
  }

  /** vTaskResume. */
  function ResumeTask(k: Kernel, t: TaskId): Kernel {
    if t != k.running && IsTaskSuspended(k, t) then MakeReady(k, t) else k
  }

  /** xTaskResumeFromISR. */
  function ResumeTaskFromISR(k: Kernel, t: TaskId): Kernel {
    if !IsTaskSuspended(k, t) then k
    else if k.schedulerSuspended == 0 then MakeReady(k, t)
    else AppendEvent(k, Pending, t)
  }

  /** prvAddNewTaskToReadyList, with the scheduler running. */
  function CreateTask(k: Kernel, t: TaskId, p: Priority): Kernel {
    AddToReadyList(k.(tasks := k.tasks[t := Tcb(p, p, 0, Ready(p), 0, Nowhere, MAX_PRIORITIES - p)]), t)
  }

  /** vTaskDelete: a task that deletes itself waits on the termination list. */
  function DeleteTask(k: Kernel, t: TaskId): Kernel {
    var k1 := RemoveEvent(TakeOffStateList(k, t), t);
    if t == k.running then
      k1.(lists := k1.lists[Termination := InsertEnd(StateItems(k1, Termination), t)],
          tasks := k1.tasks[t := TaskOf(k1, t).(state := Termination)])
    else ResetNextUnblock(k1.(tasks := k1.tasks - {t}))
  }

  function WithEventValueFor(task: Tcb, p: Priority): Tcb {
    if task.eventValue < ITEM_VALUE_IN_USE then task.(eventValue := MAX_PRIORITIES - p) else task
  }

  /** Moving a ready task to the ready list of its new priority. */
  function ChangePriority(k: Kernel, t: TaskId, p: Priority): Kernel {
    var was := TaskOf(k, t).priority;
    if TaskOf(k, t).state == Ready(was) then
      var k1 := ResetReady(RemoveState(k, Ready(was), t), was);
      AddToReadyList(k1.(tasks := k1.tasks[t := TaskOf(k1, t).(priority := p)]), t)
    else k.(tasks := k.tasks[t := TaskOf(k, t).(priority := p)])
  }

  /** vTaskPrioritySet. */
  function SetPriority(k: Kernel, t: TaskId, p: Priority): Kernel {
    var task := TaskOf(k, t);
    if task.basePriority == p then k
    else
      var k1 := k.(tasks := k.tasks[t := WithEventValueFor(task.(basePriority := p), p)]);
      ChangePriority(k1, t, if task.basePriority == task.priority then p else task.priority)
  }

  /** vTaskPriorityInherit. */
  function InheritPriority(k: Kernel, holder: TaskId): Kernel {
    var p := TaskOf(k, k.running).priority;
    if TaskOf(k, holder).priority < p then
      ChangePriority(k.(tasks := k.tasks[holder := WithEventValueFor(TaskOf(k, holder), p)]), holder, p)
    else k
  }

  /** The running task with one mutex fewer. */
  function MutexGiven(k: Kernel): Tcb {
    var task := TaskOf(k, k.running);
    task.(mutexesHeld := if task.mutexesHeld > 0 then task.mutexesHeld - 1 else 0)
  }

  /** xTaskPriorityDisinherit by the running task, which holds at least one mutex. */
  function DisinheritPriority(k: Kernel): Kernel {
    var t, task := k.running, MutexGiven(k);
    if task.priority != task.basePriority && task.mutexesHeld == 0 then
      var k1 := k.(tasks := k.tasks[t := task.(eventValue := MAX_PRIORITIES - task.basePriority)]);
      ChangePriority(k1, t, task.basePriority)
    else k.(tasks := k.tasks[t := task])
  }

  /** uxTaskResetEventItemValue, after a wait for event bits has used the event item. */
  function ResetEventItemValue(k: Kernel): Kernel {
    k.(tasks := k.tasks[k.running :=
         TaskOf(k, k.running).(eventValue := MAX_PRIORITIES - TaskOf(k, k.running).priority)])
  }

  function IncrementMutexHeld(k: Kernel): Kernel {
    k.(tasks := k.tasks[k.running := TaskOf(k, k.running).(mutexesHeld := TaskOf(k, k.running).mutexesHeld + 1)])
  }

  /** vTaskSwitchContext. */
  function SwitchContext(k: Kernel): Kernel {
    if k.schedulerSuspended != 0 then k.(yieldPending := true)
    else if !(exists q :: 0 <= q < WORD && k.topReady[q]) then k.(yieldPending := false)
    else
      var p := Highest(k.topReady);
      if p >= MAX_PRIORITIES || StateItems(k, Ready(p)).items == [] ||
        !Valid(StateItems(k, Ready(p))) then k.(yieldPending := false)
      else
        var l := Next(StateItems(k, Ready(p)));
        k.(yieldPending := false, lists := k.lists[Ready(p) := l], running := Current(l))
  }
}
