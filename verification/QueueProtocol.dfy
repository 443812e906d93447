/** The blocking protocol of queue.c as a state machine. */
module QueueProtocol {
  import opened Options

  // Every critical section and every call made with the scheduler suspended is one atomic step.
  // A task walks through the loop of xQueueGenericSend / xQueueGenericReceive with a program
  // counter of its own; interrupts may run between any two steps, other tasks only while the
  // scheduler is not suspended. Time is abstracted: whether a block time has expired is chosen
  // freely by the environment, so every timing is covered.

  type TaskId = nat

  const UNLOCKED: int := -1
  const LOCKED_UNMODIFIED: int := 0
  const INT8_MAX: int := 127

  /** The increment of an int8_t lock counter, with the wrap-around of the cast. */
  function Int8Increment(c: int): int {
    if c == INT8_MAX then -128 else c + 1
  }

  /** The fields of a queue that the protocol uses.  The two woken sets are history: the
      tasks an event took off a wait list and that have not yet retried. */
  datatype Control = Control(
    length: nat,
    zeroSize: bool,
    messages: nat,
    rxLock: int,
    txLock: int,
    waitingToSend: seq<TaskId>,
    waitingToReceive: seq<TaskId>,
    wokenSenders: set<TaskId>,
    wokenReceivers: set<TaskId>)

  datatype Operation = Send(overwrite: bool) | Receive(peek: bool)

  datatype Outcome = Waited | TryAgain | TimedOut

  datatype Pc =
    | Idle
    | Top(op: Operation)
    | Suspend(op: Operation)
    | Lock(op: Operation)
    | CheckTimeOut(op: Operation)
    | CheckQueue(op: Operation)
    | Place(op: Operation)
    | UnlockTx(op: Operation, outcome: Outcome)
    | UnlockRx(op: Operation, outcome: Outcome)
    | Resume(op: Operation, outcome: Outcome)
    | Blocked(op: Operation)
    | Recheck(op: Operation)

  datatype State = State(q: Control, pc: seq<Pc>, suspendedBy: Option<TaskId>)

  // ----- the critical sections, as functions of the control fields

  /** xTaskRemoveFromEventList on the receivers' list, when it is not empty. */
  function WakeReceiver(q: Control): Control {
    if q.waitingToReceive == [] then q
    else q.(waitingToReceive := q.waitingToReceive[1..],
            wokenReceivers := q.wokenReceivers + {q.waitingToReceive[0]})
  }

  function WakeSender(q: Control): Control {
    if q.waitingToSend == [] then q
    else q.(waitingToSend := q.waitingToSend[1..],
            wokenSenders := q.wokenSenders + {q.waitingToSend[0]})
  }

  /** The count update at the end of prvCopyDataToQueue. */
  function AddMessage(q: Control, overwrite: bool): Control {
    if overwrite && !q.zeroSize && q.messages > 0 then q else q.(messages := q.messages + 1)
  }

  predicate HasRoom(q: Control, overwrite: bool) {
    q.messages < q.length || overwrite
  }

  /** The first critical section of xQueueGenericSend when it succeeds. */
  function SendSection(q: Control, overwrite: bool): Control {
    WakeReceiver(AddMessage(q, overwrite))
  }

  /** The first critical section of xQueueGenericReceive when it succeeds. */
  function ReceiveSection(q: Control, peek: bool): Control
    requires q.messages > 0
  {
    if peek then WakeReceiver(q) else WakeSender(q.(messages := q.messages - 1))
  }

  function IsrSendSection(q: Control, overwrite: bool): Control {
    if !HasRoom(q, overwrite) then q
    else
      var q1 := AddMessage(q, overwrite);
      if q.txLock == UNLOCKED then WakeReceiver(q1) else q1.(txLock := Int8Increment(q.txLock))
  }

  function IsrReceiveSection(q: Control): Control {
    if q.messages == 0 then q
    else
      var q1 := q.(messages := q.messages - 1);
      if q.rxLock == UNLOCKED then WakeSender(q1) else q1.(rxLock := Int8Increment(q.rxLock))
  }

  function LockSection(q: Control): Control {
    q.(rxLock := if q.rxLock == UNLOCKED then LOCKED_UNMODIFIED else q.rxLock,
       txLock := if q.txLock == UNLOCKED then LOCKED_UNMODIFIED else q.txLock)
  }

  /** The loop of prvUnlockQueue over the pending transmissions: one waiter per message
      posted while the queue was locked, until the list is empty. */
  function WakeReceivers(q: Control, pending: int): Control
    decreases pending
  {
    if pending <= LOCKED_UNMODIFIED || q.waitingToReceive == [] then q
    else WakeReceivers(WakeReceiver(q), pending - 1)
  }

  function WakeSenders(q: Control, pending: int): Control
    decreases pending
  {
    if pending <= LOCKED_UNMODIFIED || q.waitingToSend == [] then q
    else WakeSenders(WakeSender(q), pending - 1)
  }

  function UnlockTxSection(q: Control): Control {
    WakeReceivers(q, q.txLock).(txLock := UNLOCKED)
  }

  function UnlockRxSection(q: Control): Control {
    WakeSenders(q, q.rxLock).(rxLock := UNLOCKED)
  }

  // ----- steps

  /** One scheduling decision.  The extra fields resolve what the queue code does not
      determine: whether the block time is zero or has expired, and where the task's
      priority puts it on the wait list. */
  datatype Step =
    | Call(t: TaskId, op: Operation)
    | Run(t: TaskId, noBlockTime: bool, expired: bool, position: nat)
    | BlockTimeExpires(t: TaskId)
    | IsrSend(overwrite: bool)
    | IsrReceive
    | SuspendAll(t: TaskId)
    | ResumeAll(t: TaskId)

  predicate IsWaiting(q: Control, t: TaskId) {
    t in q.waitingToSend || t in q.waitingToReceive
  }

  predicate MayRun(s: State, t: TaskId) {
    t < |s.pc| && (s.suspendedBy == None || s.suspendedBy == Some(t))
  }

  predicate Enabled(s: State, step: Step) {
    match step
    case Call(t, op) =>
      MayRun(s, t) && s.pc[t] == Idle && (op.Send? && op.overwrite ==> s.q.length == 1)
    case Run(t, noBlockTime, _, position) =>
      && MayRun(s, t)
      && s.pc[t] != Idle
      && (s.pc[t].Top? && s.suspendedBy.Some? ==> noBlockTime)
      && (s.pc[t].Suspend? ==> s.suspendedBy == None)
      && (s.pc[t].Place? ==> position <= |WaitList(s.q, s.pc[t].op)|)
      && (s.pc[t].Blocked? ==> !IsWaiting(s.q, t))
    case BlockTimeExpires(t) =>
      t < |s.pc| && s.suspendedBy == None && s.pc[t].Blocked? && IsWaiting(s.q, t)
    case IsrSend(overwrite) => overwrite ==> s.q.length == 1
    case IsrReceive => true
    case SuspendAll(t) => t < |s.pc| && s.suspendedBy == None && s.pc[t] == Idle
    case ResumeAll(t) => t < |s.pc| && s.suspendedBy == Some(t) && s.pc[t] == Idle
  }

  function WaitList(q: Control, op: Operation): seq<TaskId> {
    if op.Send? then q.waitingToSend else q.waitingToReceive
  }

  function InsertAt(list: seq<TaskId>, position: nat, t: TaskId): seq<TaskId>
    requires position <= |list|
  {
    list[..position] + [t] + list[position..]
  }

  function Without(list: seq<TaskId>, t: TaskId): (r: seq<TaskId>)
    ensures forall u :: u in r <==> u in list && u != t
  {
    if list == [] then []
    else if list[0] == t then Without(list[1..], t)
    else [list[0]] + Without(list[1..], t)
  }

  function Retried(q: Control, t: TaskId): Control {
    q.(wokenSenders := q.wokenSenders - {t}, wokenReceivers := q.wokenReceivers - {t})
  }

  function RunTop(s: State, t: TaskId, op: Operation, noBlockTime: bool): State
    requires t < |s.pc|
  {
    var q := Retried(s.q, t);
    var giveUp := s.(q := q, pc := s.pc[t := if noBlockTime then Idle else Suspend(op)]);
    match op
    case Send(overwrite) =>
      if HasRoom(q, overwrite) then s.(q := SendSection(q, overwrite), pc := s.pc[t := Idle]) else giveUp
    case Receive(peek) =>
      if q.messages > 0 then s.(q := ReceiveSection(q, peek), pc := s.pc[t := Idle]) else giveUp
  }

  predicate MustWait(q: Control, op: Operation) {
    if op.Send? then q.messages == q.length else q.messages == 0
  }

  function PlaceOn(q: Control, op: Operation, t: TaskId, position: nat): Control
    requires position <= |WaitList(q, op)|
  {
    if op.Send? then q.(waitingToSend := InsertAt(q.waitingToSend, position, t))
    else q.(waitingToReceive := InsertAt(q.waitingToReceive, position, t))
  }

  function AfterResume(op: Operation, outcome: Outcome): Pc {
    match outcome
    case Waited => Blocked(op)
    case TryAgain => Top(op)
    case TimedOut => if op.Send? then Idle else Recheck(op)
  }

  function Apply(s: State, step: Step): State
    requires Enabled(s, step)
  {
    match step
    case Call(t, op) => s.(pc := s.pc[t := Top(op)])
    case Run(t, noBlockTime, expired, position) => RunTask(s, t, noBlockTime, expired, position)
    case BlockTimeExpires(t) =>
      s.(q := s.q.(waitingToSend := Without(s.q.waitingToSend, t),
                   waitingToReceive := Without(s.q.waitingToReceive, t)))
    case IsrSend(overwrite) => s.(q := IsrSendSection(s.q, overwrite))
    case IsrReceive => s.(q := IsrReceiveSection(s.q))
    case SuspendAll(t) => s.(suspendedBy := Some(t))
    case ResumeAll(t) => s.(suspendedBy := None)
  }

  function RunTask(s: State, t: TaskId, noBlockTime: bool, expired: bool, position: nat): State
    requires Enabled(s, Run(t, noBlockTime, expired, position))
  {
    match s.pc[t]
    case Top(op) => RunTop(s, t, op, noBlockTime)
    case Suspend(op) => s.(suspendedBy := Some(t), pc := s.pc[t := Lock(op)])
    case Lock(op) => s.(q := LockSection(s.q), pc := s.pc[t := CheckTimeOut(op)])
    case CheckTimeOut(op) => s.(pc := s.pc[t := if expired then UnlockTx(op, TimedOut) else CheckQueue(op)])
    case CheckQueue(op) => s.(pc := s.pc[t := if MustWait(s.q, op) then Place(op) else UnlockTx(op, TryAgain)])
    case Place(op) => s.(q := PlaceOn(s.q, op, t, position), pc := s.pc[t := UnlockTx(op, Waited)])
    case UnlockTx(op, outcome) => s.(q := UnlockTxSection(s.q), pc := s.pc[t := UnlockRx(op, outcome)])
    case UnlockRx(op, outcome) => s.(q := UnlockRxSection(s.q), pc := s.pc[t := Resume(op, outcome)])
    case Resume(op, outcome) => s.(suspendedBy := None, pc := s.pc[t := AfterResume(op, outcome)])
    case Blocked(op) => s.(pc := s.pc[t := Top(op)])
    case Recheck(op) => s.(pc := s.pc[t := if s.q.messages == 0 then Idle else Top(op)])
  }

  /** Fewer than 128 interrupt operations per lock window: no lock counter is at its limit
      when an interrupt is about to increment it. */
  predicate LockCounterRoom(s: State, step: Step) {
    (step.IsrSend? ==> s.q.txLock < INT8_MAX) && (step.IsrReceive? ==> s.q.rxLock < INT8_MAX)
  }

  ghost predicate Runs(s: State, steps: seq<Step>)
    decreases |steps|
  {
    steps == [] || (Enabled(s, steps[0]) && Runs(Apply(s, steps[0]), steps[1..]))
  }

  ghost predicate RunsWithRoom(s: State, steps: seq<Step>)
    decreases |steps|
  {
    steps == [] ||
    (Enabled(s, steps[0]) && LockCounterRoom(s, steps[0]) && RunsWithRoom(Apply(s, steps[0]), steps[1..]))
  }

  lemma RoomRunsRun(s: State, steps: seq<Step>)
    requires RunsWithRoom(s, steps)
    ensures Runs(s, steps)
    decreases |steps|
  {
    if steps != [] { RoomRunsRun(Apply(s, steps[0]), steps[1..]); }
  }

  function After(s: State, steps: seq<Step>): State
    requires Runs(s, steps)
    decreases |steps|
  {
    if steps == [] then s else After(Apply(s, steps[0]), steps[1..])
  }

  /** A queue as prvInitialiseNewQueue leaves it, possibly preloaded like a counting
      semaphore, with no call in progress. */
  ghost predicate Init(s: State) {
    && s.q.messages <= s.q.length
    && s.q.rxLock == UNLOCKED && s.q.txLock == UNLOCKED
    && s.q.waitingToSend == [] && s.q.waitingToReceive == []
    && s.q.wokenSenders == {} && s.q.wokenReceivers == {}
    && s.suspendedBy == None
    && forall t :: 0 <= t < |s.pc| ==> s.pc[t] == Idle
  }

  // ----- the invariant

  function Pending(lock: int): nat {
    if lock > 0 then lock else 0
  }

  predicate TxWindow(pc: Pc) {
    pc.CheckTimeOut? || pc.CheckQueue? || pc.Place? || pc.UnlockTx?
  }

  predicate RxWindow(pc: Pc) {
    TxWindow(pc) || pc.UnlockRx?
  }

  predicate SuspendedWindow(pc: Pc) {
    RxWindow(pc) || pc.Lock? || pc.Resume?
  }

  predicate AwaitingEvent(pc: Pc) {
    pc.Blocked? || ((pc.UnlockTx? || pc.UnlockRx? || pc.Resume?) && pc.outcome == Waited)
  }

  ghost predicate Distinct(list: seq<TaskId>) {
    forall i, j :: 0 <= i < j < |list| ==> list[i] != list[j]
  }

  /** The lock counters are -1 exactly outside the lock window of the suspending task. */
  ghost predicate LockDiscipline(s: State) {
    && UNLOCKED <= s.q.txLock <= INT8_MAX
    && UNLOCKED <= s.q.rxLock <= INT8_MAX
    && (s.suspendedBy.Some? ==> s.suspendedBy.value < |s.pc|)
    && (forall t :: 0 <= t < |s.pc| && SuspendedWindow(s.pc[t]) ==> s.suspendedBy == Some(t))
    && (s.q.txLock >= 0 <==> s.suspendedBy.Some? && TxWindow(s.pc[s.suspendedBy.value]))
    && (s.q.rxLock >= 0 <==> s.suspendedBy.Some? && RxWindow(s.pc[s.suspendedBy.value]))
    && (forall t :: 0 <= t < |s.pc| && s.pc[t].Suspend? ==> s.suspendedBy != Some(t))
  }

  /** A sender that overwrites always finds room, so it never gets past its first check. */
  ghost predicate OverwritersNeverWait(s: State) {
    forall t :: 0 <= t < |s.pc| && s.pc[t] != Idle && !s.pc[t].Top? ==> s.pc[t].op != Send(true)
  }

  ghost predicate WaitersAreWaiting(s: State) {
    && Distinct(s.q.waitingToSend) && Distinct(s.q.waitingToReceive)
    && (forall t :: t in s.q.waitingToSend ==>
          t < |s.pc| && AwaitingEvent(s.pc[t]) && s.pc[t].op == Send(false) && t !in s.q.wokenSenders)
    && (forall t :: t in s.q.waitingToReceive ==>
          t < |s.pc| && AwaitingEvent(s.pc[t]) && s.pc[t].op.Receive? && t !in s.q.wokenReceivers)
    && (forall t :: t in s.q.wokenSenders ==>
          t < |s.pc| && (AwaitingEvent(s.pc[t]) || s.pc[t].Top?) && s.pc[t].op == Send(false))
    && (forall t :: t in s.q.wokenReceivers ==>
          t < |s.pc| && (AwaitingEvent(s.pc[t]) || s.pc[t].Top?) && s.pc[t].op.Receive?)
  }

  /** Every message a waiter could take is accounted for by a task already on its way to
      take it or by a wake-up the unlocking task still owes. */
  ghost predicate MessagesClaimed(q: Control) {
    q.waitingToReceive != [] ==> q.messages <= |q.wokenReceivers| + Pending(q.txLock)
  }

  ghost predicate SpacesClaimed(q: Control) {
    q.waitingToSend != [] ==> q.length - q.messages <= |q.wokenSenders| + Pending(q.rxLock)
  }

  /** Between the second check and the wait list only interrupts can have changed the count. */
  ghost predicate AboutToWait(s: State) {
    forall t :: 0 <= t < |s.pc| && s.pc[t].Place? ==>
      if s.pc[t].op.Receive? then s.q.messages <= Pending(s.q.txLock)
      else s.q.length - s.q.messages <= Pending(s.q.rxLock)
  }

  ghost predicate Invariant(s: State) {
    && LockDiscipline(s) && OverwritersNeverWait(s) && WaitersAreWaiting(s)
    && MessagesClaimed(s.q) && SpacesClaimed(s.q) && AboutToWait(s)
  }

  // ----- what waking does to the claims

  /** A wake loop takes a prefix of the list; if any waiter is left, it woke one per pending count. */
  lemma {:induction false} WakeReceiversEffect(q: Control, pending: int)
    requires Distinct(q.waitingToReceive)
    requires forall t :: t in q.waitingToReceive ==> t !in q.wokenReceivers
    ensures var r := WakeReceivers(q, pending);
      && r == q.(waitingToReceive := r.waitingToReceive, wokenReceivers := r.wokenReceivers)
      && Distinct(r.waitingToReceive)
      && (forall t :: t in r.waitingToReceive ==> t in q.waitingToReceive && t !in r.wokenReceivers)
      && (forall t :: t in r.wokenReceivers ==> t in q.wokenReceivers || t in q.waitingToReceive)
      && |q.wokenReceivers| <= |r.wokenReceivers|
      && (r.waitingToReceive != [] ==> |r.wokenReceivers| == |q.wokenReceivers| + Pending(pending))
    decreases pending
  {
    if pending > LOCKED_UNMODIFIED && q.waitingToReceive != [] {
      assert q.waitingToReceive == [q.waitingToReceive[0]] + q.waitingToReceive[1..];
      WakeReceiversEffect(WakeReceiver(q), pending - 1);
    }
  }

  lemma {:induction false} WakeSendersEffect(q: Control, pending: int)
    requires Distinct(q.waitingToSend)
    requires forall t :: t in q.waitingToSend ==> t !in q.wokenSenders
    ensures var r := WakeSenders(q, pending);
      && r == q.(waitingToSend := r.waitingToSend, wokenSenders := r.wokenSenders)
      && Distinct(r.waitingToSend)
      && (forall t :: t in r.waitingToSend ==> t in q.waitingToSend && t !in r.wokenSenders)
      && (forall t :: t in r.wokenSenders ==> t in q.wokenSenders || t in q.waitingToSend)
      && |q.wokenSenders| <= |r.wokenSenders|
      && (r.waitingToSend != [] ==> |r.wokenSenders| == |q.wokenSenders| + Pending(pending))
    decreases pending
  {
    if pending > LOCKED_UNMODIFIED && q.waitingToSend != [] {
      assert q.waitingToSend == [q.waitingToSend[0]] + q.waitingToSend[1..];
      WakeSendersEffect(WakeSender(q), pending - 1);
    }
  }

  lemma RetriedCounts(q: Control, t: TaskId)
    ensures |q.wokenReceivers| <= |Retried(q, t).wokenReceivers| + 1
    ensures |q.wokenSenders| <= |Retried(q, t).wokenSenders| + 1
  {
    if t in q.wokenReceivers { assert q.wokenReceivers == Retried(q, t).wokenReceivers + {t}; }
    else { assert q.wokenReceivers == Retried(q, t).wokenReceivers; }
    if t in q.wokenSenders { assert q.wokenSenders == Retried(q, t).wokenSenders + {t}; }
    else { assert q.wokenSenders == Retried(q, t).wokenSenders; }
  }

  /** The lists are disjoint from the woken sets and free of duplicates. */
  ghost predicate ListsInOrder(q: Control) {
    && Distinct(q.waitingToSend) && Distinct(q.waitingToReceive)
    && (forall t :: t in q.waitingToSend ==> t !in q.wokenSenders)
    && (forall t :: t in q.waitingToReceive ==> t !in q.wokenReceivers)
  }

  /** `r` differs from `q` by tasks that left a wait list or a woken set, and by waiters woken. */
  ghost predicate Moved(q: Control, r: Control) {
    && r.length == q.length
    && (forall t :: t in r.waitingToSend ==> t in q.waitingToSend)
    && (forall t :: t in r.waitingToReceive ==> t in q.waitingToReceive)
    && (forall t :: t in r.wokenSenders ==> t in q.wokenSenders || t in q.waitingToSend)
    && (forall t :: t in r.wokenReceivers ==> t in q.wokenReceivers || t in q.waitingToReceive)
  }

  ghost predicate Claimed(q: Control) {
    ListsInOrder(q) && MessagesClaimed(q) && SpacesClaimed(q)
  }

  lemma WakeReceiverEffect(q: Control)
    requires ListsInOrder(q)
    ensures var r := WakeReceiver(q);
      && r == q.(waitingToReceive := r.waitingToReceive, wokenReceivers := r.wokenReceivers)
      && Moved(q, r) && ListsInOrder(r)
      && (r.waitingToReceive != [] ==> |r.wokenReceivers| == |q.wokenReceivers| + 1)
  {
    WakeReceiversEffect(q, 1);
    assert WakeReceivers(q, 1) == WakeReceiver(q) by {
      if q.waitingToReceive != [] { assert WakeReceivers(WakeReceiver(q), 0) == WakeReceiver(q); }
    }
  }

  lemma WakeSenderEffect(q: Control)
    requires ListsInOrder(q)
    ensures var r := WakeSender(q);
      && r == q.(waitingToSend := r.waitingToSend, wokenSenders := r.wokenSenders)
      && Moved(q, r) && ListsInOrder(r)
      && (r.waitingToSend != [] ==> |r.wokenSenders| == |q.wokenSenders| + 1)
  {
    WakeSendersEffect(q, 1);
    assert WakeSenders(q, 1) == WakeSender(q) by {
      if q.waitingToSend != [] { assert WakeSenders(WakeSender(q), 0) == WakeSender(q); }
    }
  }

  /** What the task's own first critical section leaves behind, starting from the moment it
      has ceased to count as woken. */
  lemma SendSectionClaims(q: Control, t: TaskId, overwrite: bool)
    requires Claimed(q) && t !in q.wokenReceivers && HasRoom(q, overwrite)
    requires overwrite ==> t !in q.wokenSenders
    requires !IsWaiting(q, t)
    ensures var r := SendSection(Retried(q, t), overwrite);
      && Claimed(r) && Moved(q, r) && r.txLock == q.txLock && r.rxLock == q.rxLock
      && t !in r.wokenSenders && t !in r.wokenReceivers && !IsWaiting(r, t)
  {
    RetriedCounts(q, t);
    assert Retried(q, t).wokenReceivers == q.wokenReceivers;
    WakeReceiverEffect(AddMessage(Retried(q, t), overwrite));
  }

  lemma ReceiveSectionClaims(q: Control, t: TaskId, peek: bool)
    requires Claimed(q) && t !in q.wokenSenders && q.messages > 0
    requires !IsWaiting(q, t)
    ensures var r := ReceiveSection(Retried(q, t), peek);
      && Claimed(r) && Moved(q, r) && r.txLock == q.txLock && r.rxLock == q.rxLock
      && t !in r.wokenSenders && t !in r.wokenReceivers && !IsWaiting(r, t)
  {
    RetriedCounts(q, t);
    var q1 := Retried(q, t);
    assert q1.wokenSenders == q.wokenSenders;
    if peek { WakeReceiverEffect(q1); } else { WakeSenderEffect(q1.(messages := q1.messages - 1)); }
  }

  /** A retry that finds nothing: the count is at the end where no claim is needed. */
  lemma FailedRetryClaims(q: Control, t: TaskId, op: Operation)
    requires Claimed(q)
    requires if op.Send? then t !in q.wokenReceivers && !HasRoom(q, op.overwrite)
             else t !in q.wokenSenders && q.messages == 0
    ensures Claimed(Retried(q, t)) && Moved(q, Retried(q, t))
  {
    RetriedCounts(q, t);
    if op.Send? { assert Retried(q, t).wokenReceivers == q.wokenReceivers; }
    else { assert Retried(q, t).wokenSenders == q.wokenSenders; }
  }

  lemma IsrSendClaims(q: Control, overwrite: bool)
    requires Claimed(q) && UNLOCKED <= q.txLock < INT8_MAX
    ensures var r := IsrSendSection(q, overwrite);
      && Claimed(r) && Moved(q, r) && r.rxLock == q.rxLock
      && (q.txLock == UNLOCKED ==> r.txLock == UNLOCKED)
      && (q.txLock >= 0 ==> q.txLock <= r.txLock <= INT8_MAX)
      && (q.txLock >= 0 ==> r.messages + q.txLock <= q.messages + r.txLock)
      && q.messages <= r.messages
  {
    WakeReceiverEffect(AddMessage(q, overwrite));
  }

  lemma IsrReceiveClaims(q: Control)
    requires Claimed(q) && UNLOCKED <= q.rxLock < INT8_MAX
    ensures var r := IsrReceiveSection(q);
      && Claimed(r) && Moved(q, r) && r.txLock == q.txLock
      && (q.rxLock == UNLOCKED ==> r.rxLock == UNLOCKED)
      && (q.rxLock >= 0 ==> q.rxLock <= r.rxLock <= INT8_MAX)
      && (q.rxLock >= 0 ==> q.messages + q.rxLock <= r.messages + r.rxLock)
      && r.messages <= q.messages
  {
    if q.messages > 0 { WakeSenderEffect(q.(messages := q.messages - 1)); }
  }

  lemma UnlockTxClaims(q: Control)
    requires Claimed(q)
    ensures var r := UnlockTxSection(q);
      Claimed(r) && Moved(q, r) && r.rxLock == q.rxLock && r.txLock == UNLOCKED && r.messages == q.messages
  {
    WakeReceiversEffect(q, q.txLock);
  }

  lemma UnlockRxClaims(q: Control)
    requires Claimed(q)
    ensures var r := UnlockRxSection(q);
      Claimed(r) && Moved(q, r) && r.txLock == q.txLock && r.rxLock == UNLOCKED && r.messages == q.messages
  {
    WakeSendersEffect(q, q.rxLock);
  }

  // ----- every step keeps the invariant

  /** The tasks on the lists and in the woken sets of `s'` stand where those of `s` stood. */
  lemma WaitersKept(s: State, s': State)
    requires WaitersAreWaiting(s) && Moved(s.q, s'.q) && ListsInOrder(s'.q) && |s'.pc| == |s.pc|
    requires forall t :: 0 <= t < |s.pc| && (t in s'.q.waitingToSend || t in s'.q.waitingToReceive) ==>
               s'.pc[t] == s.pc[t] || (AwaitingEvent(s'.pc[t]) && s'.pc[t].op == s.pc[t].op)
    requires forall t :: 0 <= t < |s.pc| && (t in s'.q.wokenSenders || t in s'.q.wokenReceivers) ==>
               s'.pc[t] == s.pc[t] || ((AwaitingEvent(s'.pc[t]) || s'.pc[t].Top?) && s'.pc[t].op == s.pc[t].op)
    ensures WaitersAreWaiting(s')
  {
  }

  /** A step whose task stays outside the lock window changes nothing about the window. */
  lemma WindowKept(s: State, s': State, t: TaskId)
    requires LockDiscipline(s) && AboutToWait(s) && t < |s.pc| && MayRun(s, t)
    requires |s'.pc| == |s.pc| && forall u :: 0 <= u < |s.pc| && u != t ==> s'.pc[u] == s.pc[u]
    requires s'.q.txLock == s.q.txLock && s'.q.rxLock == s.q.rxLock && s'.suspendedBy == s.suspendedBy
    requires !SuspendedWindow(s.pc[t]) && !SuspendedWindow(s'.pc[t])
    requires s'.pc[t].Suspend? ==> s.suspendedBy == None
    ensures LockDiscipline(s') && AboutToWait(s')
  {
    assert forall u :: 0 <= u < |s'.pc| && SuspendedWindow(s'.pc[u]) ==> u != t && SuspendedWindow(s.pc[u]);
  }

  /** A step outside the lock window that replaces the queue by one with its claims met. */
  lemma OffWindowStep(s: State, q: Control, t: TaskId, pc: Pc)
    requires Invariant(s) && t < |s.pc| && MayRun(s, t)
    requires Claimed(q) && Moved(s.q, q) && q.txLock == s.q.txLock && q.rxLock == s.q.rxLock
    requires t !in q.wokenSenders && t !in q.wokenReceivers && !IsWaiting(q, t)
    requires !SuspendedWindow(s.pc[t]) && !SuspendedWindow(pc)
    requires pc.Suspend? ==> s.suspendedBy == None && pc.op != Send(true)
    requires pc == Idle || pc.Suspend? || pc.Top?
    ensures Invariant(s.(q := q, pc := s.pc[t := pc]))
  {
    var s' := s.(q := q, pc := s.pc[t := pc]);
    WaitersKept(s, s');
    WindowKept(s, s', t);
  }

  /** The task that is at the top of its loop is on no list. */
  lemma AtTopFacts(s: State, t: TaskId)
    requires Invariant(s) && t < |s.pc| && s.pc[t].Top?
    ensures Claimed(s.q) && !IsWaiting(s.q, t)
    ensures t in s.q.wokenSenders ==> s.pc[t].op == Send(false)
    ensures t in s.q.wokenReceivers ==> s.pc[t].op.Receive?
  {
  }

  lemma TopKeepsInvariant(s: State, t: TaskId, op: Operation, noBlockTime: bool)
    requires Invariant(s) && MayRun(s, t) && s.pc[t] == Top(op)
    requires s.suspendedBy.Some? ==> noBlockTime
    ensures Invariant(RunTop(s, t, op, noBlockTime))
  {
    hide Invariant, Claimed, Moved, SendSection, ReceiveSection;
    AtTopFacts(s, t);
    match op {
      case Send(overwrite) =>
        if HasRoom(s.q, overwrite) {
          SendSectionClaims(s.q, t, overwrite);
          OffWindowStep(s, SendSection(Retried(s.q, t), overwrite), t, Idle);
        } else {
          FailedRetryClaims(s.q, t, op);
          OffWindowStep(s, Retried(s.q, t), t, if noBlockTime then Idle else Suspend(op));
        }
      case Receive(peek) =>
        if s.q.messages > 0 {
          ReceiveSectionClaims(s.q, t, peek);
          OffWindowStep(s, ReceiveSection(Retried(s.q, t), peek), t, Idle);
        } else {
          FailedRetryClaims(s.q, t, op);
          OffWindowStep(s, Retried(s.q, t), t, if noBlockTime then Idle else Suspend(op));
        }
    }
  }

  /** A step that only moves the task's program counter. */
  lemma PcStepKeepsWaiters(s: State, t: TaskId, pc: Pc)
    requires WaitersAreWaiting(s) && OverwritersNeverWait(s)
    requires t < |s.pc| && s.pc[t] != Idle && pc != Idle && pc.op == s.pc[t].op
    requires AwaitingEvent(s.pc[t]) ==> AwaitingEvent(pc) || (pc.Top? && !IsWaiting(s.q, t))
    requires s.pc[t].Top? ==> pc.Top?
    ensures WaitersAreWaiting(s.(pc := s.pc[t := pc])) && OverwritersNeverWait(s.(pc := s.pc[t := pc]))
  {
    WaitersKept(s, s.(pc := s.pc[t := pc]));
  }

  /** A step of the task that is inside the lock window and leaves the queue alone. */
  lemma WindowPcStep(s: State, t: TaskId, pc: Pc)
    requires Invariant(s) && t < |s.pc| && s.suspendedBy == Some(t)
    requires SuspendedWindow(s.pc[t]) && SuspendedWindow(pc) && pc.op == s.pc[t].op
    requires TxWindow(s.pc[t]) && TxWindow(pc)
    requires !AwaitingEvent(s.pc[t])
    requires pc.Place? ==> MustWait(s.q, pc.op)
    ensures Invariant(s.(pc := s.pc[t := pc]))
  {
    PcStepKeepsWaiters(s, t, pc);
  }

  /** A task outside any lock window leaves its own window state alone. */
  lemma OutsidePcStep(s: State, t: TaskId, pc: Pc)
    requires Invariant(s) && t < |s.pc| && MayRun(s, t)
    requires !SuspendedWindow(s.pc[t]) && (pc == Idle || pc.Top?)
    requires if pc == Idle || s.pc[t] == Idle then s.pc[t] == Idle || s.pc[t].Recheck? else pc.op == s.pc[t].op
    requires s.pc[t].Blocked? ==> pc.Top? && !IsWaiting(s.q, t)
    ensures Invariant(s.(pc := s.pc[t := pc]))
  {
    var s' := s.(pc := s.pc[t := pc]);
    assert ListsInOrder(s.q);
    WaitersKept(s, s');
    WindowKept(s, s', t);
  }

  lemma LockKeepsInvariant(s: State, t: TaskId, op: Operation)
    requires Invariant(s) && t < |s.pc| && s.suspendedBy == Some(t) && s.pc[t] == Lock(op)
    ensures Invariant(s.(q := LockSection(s.q), pc := s.pc[t := CheckTimeOut(op)]))
  {
    PcStepKeepsWaiters(s, t, CheckTimeOut(op));
  }

  lemma SuspendKeepsInvariant(s: State, t: TaskId, op: Operation)
    requires Invariant(s) && t < |s.pc| && s.suspendedBy == None && s.pc[t] == Suspend(op)
    ensures Invariant(s.(suspendedBy := Some(t), pc := s.pc[t := Lock(op)]))
  {
    PcStepKeepsWaiters(s, t, Lock(op));
  }

  lemma InsertAtDistinct(list: seq<TaskId>, position: nat, t: TaskId)
    requires position <= |list| && Distinct(list) && t !in list
    ensures Distinct(InsertAt(list, position, t))
    ensures forall u :: u in InsertAt(list, position, t) <==> u in list || u == t
  {
    forall u ensures u in InsertAt(list, position, t) <==> u in list || u == t {
      if u in list { var i :| 0 <= i < |list| && list[i] == u; assert u in list[..position] || u in list[position..]; }
    }
  }

  lemma PlaceKeepsInvariant(s: State, t: TaskId, op: Operation, position: nat)
    requires Invariant(s) && t < |s.pc| && s.suspendedBy == Some(t) && s.pc[t] == Place(op)
    requires position <= |WaitList(s.q, op)|
    ensures Invariant(s.(q := PlaceOn(s.q, op, t, position), pc := s.pc[t := UnlockTx(op, Waited)]))
  {
    hide Invariant, LockDiscipline, WaitersAreWaiting, MessagesClaimed, SpacesClaimed, AboutToWait,
      OverwritersNeverWait, PlaceOn;
    InvariantParts(s);
    PlacedWaiters(s, t, op, position);
    PlacedWindow(s, t, op, position);
    InvariantParts(s.(q := PlaceOn(s.q, op, t, position), pc := s.pc[t := UnlockTx(op, Waited)]));
  }

  lemma InvariantParts(s: State)
    ensures Invariant(s) <==>
      && LockDiscipline(s) && OverwritersNeverWait(s) && WaitersAreWaiting(s)
      && MessagesClaimed(s.q) && SpacesClaimed(s.q) && AboutToWait(s)
  {
    hide LockDiscipline, WaitersAreWaiting, MessagesClaimed, SpacesClaimed, AboutToWait, OverwritersNeverWait;
  }

  lemma PlacedWaiters(s: State, t: TaskId, op: Operation, position: nat)
    requires WaitersAreWaiting(s) && OverwritersNeverWait(s) && t < |s.pc| && s.pc[t] == Place(op)
    requires position <= |WaitList(s.q, op)|
    ensures var s' := s.(q := PlaceOn(s.q, op, t, position), pc := s.pc[t := UnlockTx(op, Waited)]);
      WaitersAreWaiting(s') && OverwritersNeverWait(s')
  {
    hide InsertAt, Distinct;
    NotYetWaiting(s, t);
    InsertAtDistinct(WaitList(s.q, op), position, t);
  }

  /** A task about to wait is on no list and has not been woken. */
  lemma NotYetWaiting(s: State, t: TaskId)
    requires WaitersAreWaiting(s) && t < |s.pc| && s.pc[t].Place?
    ensures t !in s.q.waitingToSend && t !in s.q.waitingToReceive
    ensures t !in s.q.wokenSenders && t !in s.q.wokenReceivers
  {
    hide Distinct;
  }

  lemma PlacedWindow(s: State, t: TaskId, op: Operation, position: nat)
    requires LockDiscipline(s) && AboutToWait(s) && MessagesClaimed(s.q) && SpacesClaimed(s.q)
    requires t < |s.pc| && s.suspendedBy == Some(t) && s.pc[t] == Place(op) && position <= |WaitList(s.q, op)|
    ensures var s' := s.(q := PlaceOn(s.q, op, t, position), pc := s.pc[t := UnlockTx(op, Waited)]);
      LockDiscipline(s') && AboutToWait(s') && MessagesClaimed(s'.q) && SpacesClaimed(s'.q)
  {
    hide InsertAt;
  }

  /** Unlocking settles the pending wake-ups, so the counter may go back to unlocked. */
  lemma UnlockTxKeepsInvariant(s: State, t: TaskId, op: Operation, outcome: Outcome)
    requires Invariant(s) && t < |s.pc| && s.suspendedBy == Some(t) && s.pc[t] == UnlockTx(op, outcome)
    ensures Invariant(s.(q := UnlockTxSection(s.q), pc := s.pc[t := UnlockRx(op, outcome)]))
  {
    UnlockTxClaims(s.q);
    WaitersKept(s, s.(q := UnlockTxSection(s.q), pc := s.pc[t := UnlockRx(op, outcome)]));
  }

  lemma UnlockRxKeepsInvariant(s: State, t: TaskId, op: Operation, outcome: Outcome)
    requires Invariant(s) && t < |s.pc| && s.suspendedBy == Some(t) && s.pc[t] == UnlockRx(op, outcome)
    ensures Invariant(s.(q := UnlockRxSection(s.q), pc := s.pc[t := Resume(op, outcome)]))
  {
    UnlockRxClaims(s.q);
    WaitersKept(s, s.(q := UnlockRxSection(s.q), pc := s.pc[t := Resume(op, outcome)]));
  }

  lemma ResumeKeepsInvariant(s: State, t: TaskId, op: Operation, outcome: Outcome)
    requires Invariant(s) && t < |s.pc| && s.suspendedBy == Some(t) && s.pc[t] == Resume(op, outcome)
    ensures Invariant(s.(suspendedBy := None, pc := s.pc[t := AfterResume(op, outcome)]))
  {
    WaitersKept(s, s.(suspendedBy := None, pc := s.pc[t := AfterResume(op, outcome)]));
  }

  lemma BlockTimeKeepsInvariant(s: State, t: TaskId)
    requires Invariant(s) && Enabled(s, BlockTimeExpires(t))
    ensures Invariant(Apply(s, BlockTimeExpires(t)))
  {
    WithoutDistinct(s.q.waitingToSend, t);
    WithoutDistinct(s.q.waitingToReceive, t);
    WaitersKept(s, Apply(s, BlockTimeExpires(t)));
  }

  lemma {:induction false} WithoutDistinct(list: seq<TaskId>, t: TaskId)
    requires Distinct(list)
    ensures Distinct(Without(list, t))
  {
    if list != [] {
      var rest := Without(list[1..], t);
      WithoutDistinct(list[1..], t);
      assert list[0] !in list[1..];
      assert forall k :: 0 <= k < |rest| ==> rest[k] in list[1..] by {
        assert forall k :: 0 <= k < |rest| ==> rest[k] in rest;
      }
    }
  }

  lemma IsrSendKeepsInvariant(s: State, overwrite: bool)
    requires Invariant(s) && s.q.txLock < INT8_MAX
    ensures Invariant(s.(q := IsrSendSection(s.q, overwrite)))
  {
    IsrSendClaims(s.q, overwrite);
    WaitersKept(s, s.(q := IsrSendSection(s.q, overwrite)));
  }

  lemma IsrReceiveKeepsInvariant(s: State)
    requires Invariant(s) && s.q.rxLock < INT8_MAX
    ensures Invariant(s.(q := IsrReceiveSection(s.q)))
  {
    IsrReceiveClaims(s.q);
    WaitersKept(s, s.(q := IsrReceiveSection(s.q)));
  }

  lemma RunKeepsInvariant(s: State, t: TaskId, noBlockTime: bool, expired: bool, position: nat)
    requires Invariant(s) && Enabled(s, Run(t, noBlockTime, expired, position))
    ensures Invariant(RunTask(s, t, noBlockTime, expired, position))
  {
    match s.pc[t]
    case Top(op) => TopKeepsInvariant(s, t, op, noBlockTime);
    case Suspend(op) => SuspendKeepsInvariant(s, t, op);
    case Lock(op) => LockKeepsInvariant(s, t, op);
    case CheckTimeOut(op) => WindowPcStep(s, t, if expired then UnlockTx(op, TimedOut) else CheckQueue(op));
    case CheckQueue(op) => WindowPcStep(s, t, if MustWait(s.q, op) then Place(op) else UnlockTx(op, TryAgain));
    case Place(op) => PlaceKeepsInvariant(s, t, op, position);
    case UnlockTx(op, outcome) => UnlockTxKeepsInvariant(s, t, op, outcome);
    case UnlockRx(op, outcome) => UnlockRxKeepsInvariant(s, t, op, outcome);
    case Resume(op, outcome) => ResumeKeepsInvariant(s, t, op, outcome);
    case Blocked(op) => OutsidePcStep(s, t, Top(op));
    case Recheck(op) => OutsidePcStep(s, t, if s.q.messages == 0 then Idle else Top(op));
  }

  lemma StepKeepsInvariant(s: State, step: Step)
    requires Invariant(s) && Enabled(s, step) && LockCounterRoom(s, step)
    ensures Invariant(Apply(s, step))
  {
    match step
    case Call(t, op) => OutsidePcStep(s, t, Top(op));
    case Run(t, noBlockTime, expired, position) => RunKeepsInvariant(s, t, noBlockTime, expired, position);
    case BlockTimeExpires(t) => BlockTimeKeepsInvariant(s, t);
    case IsrSend(overwrite) => IsrSendKeepsInvariant(s, overwrite);
    case IsrReceive => IsrReceiveKeepsInvariant(s);
    case SuspendAll(t) =>
    case ResumeAll(t) =>
  }

  lemma {:induction false} RunInvariant(s: State, steps: seq<Step>)
    requires Invariant(s) && RunsWithRoom(s, steps)
    ensures Runs(s, steps) && Invariant(After(s, steps))
    decreases |steps|
  {
    if steps != [] {
      StepKeepsInvariant(s, steps[0]);
      RunInvariant(Apply(s, steps[0]), steps[1..]);
    }
  }

  // ----- the main results

  /** No lost wake-up: after any interleaving of tasks and interrupts from a new queue, a
      receiver is left waiting only if every message present is spoken for by a receiver
      already woken or by a wake-up the unlocking task still owes; the same holds of senders
      and free spaces. */
  lemma NoLostWakeUp(s: State, steps: seq<Step>)
    requires Init(s) && RunsWithRoom(s, steps)
    ensures Runs(s, steps)
    ensures var q := After(s, steps).q;
      && (q.waitingToReceive != [] ==> q.messages <= |q.wokenReceivers| + Pending(q.txLock))
      && (q.waitingToSend != [] ==> q.length - q.messages <= |q.wokenSenders| + Pending(q.rxLock))
  {
    RunInvariant(s, steps);
  }

  /** When the scheduler is not suspended and every woken task has retried, a receiver waits
      only on an empty queue and a sender only on a full one. */
  lemma NobodyWaitsInVain(s: State, steps: seq<Step>)
    requires Init(s) && RunsWithRoom(s, steps)
    requires Runs(s, steps) && After(s, steps).suspendedBy == None
    requires After(s, steps).q.wokenReceivers == {} && After(s, steps).q.wokenSenders == {}
    ensures var q := After(s, steps).q;
      && (q.waitingToReceive != [] ==> q.messages == 0)
      && (q.waitingToSend != [] ==> q.messages >= q.length)
  {
    RunInvariant(s, steps);
  }

  /** A task is on at most one wait list, only while it is blocked (or about to be), and the
      queue is locked only while a task holds the scheduler suspended. */
  lemma WaitListsAreExact(s: State, steps: seq<Step>, t: TaskId)
    requires Init(s) && RunsWithRoom(s, steps)
    ensures Runs(s, steps)
    ensures var r := After(s, steps);
      && !(t in r.q.waitingToSend && t in r.q.waitingToReceive)
      && (IsWaiting(r.q, t) ==> t < |r.pc| && AwaitingEvent(r.pc[t]))
      && (r.q.txLock != UNLOCKED || r.q.rxLock != UNLOCKED ==> r.suspendedBy.Some?)
  {
    RunInvariant(s, steps);
  }

  // ----- why the 128 bound is needed

  /** A length-1 mailbox whose receiver 0 has checked that it is empty and is about to wait. */
  function AboutToBlock(): State {
    State(Control(1, false, 0, LOCKED_UNMODIFIED, LOCKED_UNMODIFIED, [], [], {}, {}),
          [Place(Receive(false))], Some(0))
  }

  function BlockingSteps(): seq<Step> {
    [Call(0, Receive(false)), Run(0, false, false, 0), Run(0, false, false, 0), Run(0, false, false, 0),
     Run(0, false, false, 0), Run(0, false, false, 0)]
  }

  function NewMailbox(): State {
    State(Control(1, false, 0, UNLOCKED, UNLOCKED, [], [], {}, {}), [Idle], None)
  }

  lemma MailboxReceiverGetsThere()
    ensures Init(NewMailbox()) && Runs(NewMailbox(), BlockingSteps())
    ensures After(NewMailbox(), BlockingSteps()) == AboutToBlock()
  {
    var s0 := NewMailbox();
    var s1 := Apply(s0, BlockingSteps()[0]);
    var s2 := Apply(s1, BlockingSteps()[1]);
    assert s2 == State(s0.q, [Suspend(Receive(false))], None);
    var s3 := Apply(s2, BlockingSteps()[2]);
    var s4 := Apply(s3, BlockingSteps()[3]);
    var s5 := Apply(s4, BlockingSteps()[4]);
    var s6 := Apply(s5, BlockingSteps()[5]);
    assert s6 == AboutToBlock();
    RunsOne(s5, BlockingSteps()[5..]);
    RunsOne(s4, BlockingSteps()[4..]);
    RunsOne(s3, BlockingSteps()[3..]);
    RunsOne(s2, BlockingSteps()[2..]);
    RunsOne(s1, BlockingSteps()[1..]);
    RunsOne(s0, BlockingSteps());
  }

  lemma RunsOne(s: State, steps: seq<Step>)
    requires steps != [] && Enabled(s, steps[0]) && Runs(Apply(s, steps[0]), steps[1..])
    ensures Runs(s, steps) && After(s, steps) == After(Apply(s, steps[0]), steps[1..])
  {
  }

  /** `k` interrupts overwrite the mailbox while the receiver holds the queue locked. */
  function Burst(k: nat): seq<Step> {
    seq(k, _ => IsrSend(true))
  }

  function BurstState(k: nat): State {
    var lock := if k <= INT8_MAX then k else if k < 256 then k - 256 else UNLOCKED;
    var s := AboutToBlock();
    s.(q := s.q.(messages := if k == 0 then 0 else 1, txLock := lock))
  }

  lemma BurstStateStarts()
    ensures BurstState(0) == AboutToBlock() && INT8_MAX == 127
  {
  }

  /** The int8_t counter wraps to negative at the 128th interrupt, and once it has come round
      to -1 the queue looks unlocked and stays that way. */
  lemma {:induction false} BurstEffect(k: nat, n: nat)
    ensures Runs(BurstState(k), Burst(n)) && After(BurstState(k), Burst(n)) == BurstState(k + n)
    decreases n
  {
    if n > 0 {
      assert Burst(n)[1..] == Burst(n - 1);
      assert Apply(BurstState(k), IsrSend(true)) == BurstState(k + 1);
      BurstEffect(k + 1, n - 1);
    }
  }

  lemma {:induction false} RunsConcat(s: State, first: seq<Step>, second: seq<Step>)
    requires Runs(s, first) && Runs(After(s, first), second)
    ensures Runs(s, first + second) && After(s, first + second) == After(After(s, first), second)
    decreases |first|
  {
    if first == [] {
      assert first + second == second;
    } else {
      assert (first + second)[1..] == first[1..] + second;
      RunsConcat(Apply(s, first[0]), first[1..], second);
    }
  }

  function FinishBlocking(): seq<Step> {
    [Run(0, false, false, 0), Run(0, false, false, 0), Run(0, false, false, 0), Run(0, false, false, 0)]
  }

  /** The receiver blocked, with the queue unlocked, a message present and nobody to wake it. */
  predicate Stranded(s: State) {
    && s.q.waitingToReceive != [] && s.q.messages > 0
    && s.q.wokenReceivers == {} && s.q.txLock == UNLOCKED && s.suspendedBy == None
  }

  lemma FinishBlockingEffect(k: nat)
    ensures var s := BurstState(k);
      Runs(s, FinishBlocking()) && (Stranded(After(s, FinishBlocking())) <==> k > INT8_MAX)
  {
    var s := BurstState(k);
    var q := s.q.(waitingToReceive := [0]);
    var q2 := UnlockTxSection(q);
    if 0 < k <= INT8_MAX {
      assert WakeReceiver(q).waitingToReceive == [];
      assert WakeReceivers(q, q.txLock) == WakeReceiver(q);
    }
    assert q2 == (if 0 < k <= INT8_MAX
      then q.(waitingToReceive := [], wokenReceivers := {0}, txLock := UNLOCKED) else q.(txLock := UNLOCKED));
    var s1 := Apply(s, FinishBlocking()[0]);
    assert s1.q == q;
    var s2 := Apply(s1, FinishBlocking()[1]);
    var s3 := Apply(s2, FinishBlocking()[2]);
    var s4 := Apply(s3, FinishBlocking()[3]);
    RunsOne(s3, FinishBlocking()[3..]);
    RunsOne(s2, FinishBlocking()[2..]);
    RunsOne(s1, FinishBlocking()[1..]);
    RunsOne(s, FinishBlocking());
    assert After(s, FinishBlocking()) == s4;
  }

  /** The bound on interrupts per lock window is exact: with `k` interrupts in the window the
      receiver is left waiting beside a message if and only if `k` is at least 128. */
  lemma LostWakeUpIffCounterWraps(k: nat)
    ensures var steps := BlockingSteps() + (Burst(k) + FinishBlocking());
      && Init(NewMailbox()) && Runs(NewMailbox(), steps)
      && (Stranded(After(NewMailbox(), steps)) <==> k >= 128)
  {
    BurstStateStarts();
    hide *;
    MailboxReceiverGetsThere();
    BurstEffect(0, k);
    FinishBlockingEffect(k);
    RunsConcat(BurstState(0), Burst(k), FinishBlocking());
    RunsConcat(NewMailbox(), BlockingSteps(), Burst(k) + FinishBlocking());
  }
}
