/** What a caller of a queue sees: when its call waits, ends, or goes on. */
module QueueCalls {
  import opened Options
  import opened Ticks
  import opened QueueProtocol
  import BlockTime

  /** A step of task t itself. */
  predicate Own(step: Step, t: TaskId) {
    (step.Run? || step.Call?) && step.t == t
  }

  function OwnSteps(steps: seq<Step>, t: TaskId): nat {
    if steps == [] then 0 else (if Own(steps[0], t) then 1 else 0) + OwnSteps(steps[1..], t)
  }

  /** Other tasks and interrupts do not move t, and only take it off a wait list. */
  lemma OthersLeave(s: State, step: Step, t: TaskId)
    requires Enabled(s, step) && !Own(step, t) && t < |s.pc|
    ensures var s' := Apply(s, step);
      |s'.pc| == |s.pc| && s'.pc[t] == s.pc[t] && (IsWaiting(s'.q, t) ==> IsWaiting(s.q, t))
  {
    hide InsertAt;
    match step
    case Run(u, noBlockTime, expired, position) => OtherTask(s, u, noBlockTime, expired, position, t);
    case IsrSend(overwrite) => IsrSendLeaves(s.q, overwrite, t);
    case IsrReceive => IsrReceiveLeaves(s.q, t);
    case _ =>
  }

  lemma WakingLeaves(q: Control, t: TaskId)
    ensures IsWaiting(WakeReceiver(q), t) ==> IsWaiting(q, t)
    ensures IsWaiting(WakeSender(q), t) ==> IsWaiting(q, t)
  {
  }

  lemma {:induction false} WakingAllLeaves(q: Control, pending: int, t: TaskId)
    ensures IsWaiting(WakeReceivers(q, pending), t) ==> IsWaiting(q, t)
    ensures IsWaiting(WakeSenders(q, pending), t) ==> IsWaiting(q, t)
    decreases pending
  {
    hide IsWaiting, WakeReceiver, WakeSender;
    WakingLeaves(q, t);
    if pending > 0 {
      WakingAllLeaves(WakeReceiver(q), pending - 1, t);
      WakingAllLeaves(WakeSender(q), pending - 1, t);
    }
  }

  lemma IsrSendLeaves(q: Control, overwrite: bool, t: TaskId)
    ensures IsWaiting(IsrSendSection(q, overwrite), t) ==> IsWaiting(q, t)
  {
    WakingLeaves(AddMessage(q, overwrite), t);
    hide WakeReceiver;
  }

  lemma IsrReceiveLeaves(q: Control, t: TaskId)
    ensures IsWaiting(IsrReceiveSection(q), t) ==> IsWaiting(q, t)
  {
    if q.messages > 0 { WakingLeaves(q.(messages := q.messages - 1), t); }
    hide WakeSender;
  }

  lemma InsertedOthers(list: seq<TaskId>, position: nat, u: TaskId, t: TaskId)
    requires position <= |list| && t != u
    ensures t in InsertAt(list, position, u) ==> t in list
  {
  }

  lemma OtherTask(s: State, u: TaskId, noBlockTime: bool, expired: bool, position: nat, t: TaskId)
    requires Enabled(s, Run(u, noBlockTime, expired, position)) && u != t && t < |s.pc|
    ensures var s' := RunTask(s, u, noBlockTime, expired, position);
      |s'.pc| == |s.pc| && s'.pc[t] == s.pc[t] && (IsWaiting(s'.q, t) ==> IsWaiting(s.q, t))
  {
    hide InsertAt, WakeReceiver, WakeSender, WakeReceivers, WakeSenders;
    match s.pc[u]
    case Top(op) => TopLeaves(s, u, op, noBlockTime, t);
    case Place(op) => InsertedOthers(WaitList(s.q, op), position, u, t);
    case UnlockTx(_, _) => WakingAllLeaves(s.q, s.q.txLock, t);
    case UnlockRx(_, _) => WakingAllLeaves(s.q, s.q.rxLock, t);
    case _ =>
  }

  lemma TopLeaves(s: State, u: TaskId, op: Operation, noBlockTime: bool, t: TaskId)
    requires u < |s.pc|
    ensures IsWaiting(RunTop(s, u, op, noBlockTime).q, t) ==> IsWaiting(s.q, t)
    ensures |RunTop(s, u, op, noBlockTime).pc| == |s.pc|
    ensures t != u && t < |s.pc| ==> RunTop(s, u, op, noBlockTime).pc[t] == s.pc[t]
  {
    hide WakeReceiver, WakeSender;
    var q := Retried(s.q, u);
    match op
    case Send(overwrite) => WakingLeaves(AddMessage(q, overwrite), t);
    case Receive(peek) =>
      WakingLeaves(q, t);
      if q.messages > 0 { WakingLeaves(q.(messages := q.messages - 1), t); }
  }

  // ----- while others run

  lemma {:induction false} OthersRun(s: State, t: TaskId, others: seq<Step>)
    requires Runs(s, others) && OwnSteps(others, t) == 0 && t < |s.pc|
    ensures var r := After(s, others);
      |r.pc| == |s.pc| && r.pc[t] == s.pc[t] && (IsWaiting(r.q, t) ==> IsWaiting(s.q, t))
    decreases |others|
  {
    hide IsWaiting, Apply, Enabled;
    if others != [] {
      OthersLeave(s, others[0], t);
      OthersRun(Apply(s, others[0]), t, others[1..]);
    }
  }

  // ----- leaving the lock window

  /** Where a call that has decided is, n steps of its own later. */
  function Leaving(op: Operation, outcome: Outcome, n: nat): Pc {
    if n == 0 then UnlockTx(op, outcome)
    else if n == 1 then UnlockRx(op, outcome)
    else if n == 2 then Resume(op, outcome)
    else match outcome
      case Waited => Blocked(op)
      case TryAgain => Top(op)
      case TimedOut => if op.Send? then Idle else Recheck(op)
  }

  lemma OwnLeavingStep(s: State, t: TaskId, op: Operation, outcome: Outcome, n: nat, step: Step)
    requires Enabled(s, step) && Own(step, t) && t < |s.pc| && s.pc[t] == Leaving(op, outcome, n) && n < 3
    ensures var s' := Apply(s, step);
      t < |s'.pc| && s'.pc[t] == Leaving(op, outcome, n + 1) && (IsWaiting(s'.q, t) ==> IsWaiting(s.q, t))
  {
    hide WakeReceivers, WakeSenders;
    WakingAllLeaves(s.q, s.q.txLock, t);
    WakingAllLeaves(s.q, s.q.rxLock, t);
  }

  lemma {:induction false} LeavingPath(
    s: State, t: TaskId, op: Operation, outcome: Outcome, n: nat, steps: seq<Step>)
    requires Runs(s, steps) && t < |s.pc| && s.pc[t] == Leaving(op, outcome, n)
    requires n + OwnSteps(steps, t) <= 3
    ensures var r := After(s, steps);
      && t < |r.pc| && r.pc[t] == Leaving(op, outcome, n + OwnSteps(steps, t))
      && (IsWaiting(r.q, t) ==> IsWaiting(s.q, t))
    decreases |steps|
  {
    hide IsWaiting, Leaving, Apply, Enabled;
    if steps != [] {
      var s1 := Apply(s, steps[0]);
      if Own(steps[0], t) {
        OwnLeavingStep(s, t, op, outcome, n, steps[0]);
        LeavingPath(s1, t, op, outcome, n + 1, steps[1..]);
      } else {
        OthersLeave(s, steps[0], t);
        LeavingPath(s1, t, op, outcome, n, steps[1..]);
      }
    }
  }

  // ----- a call whose block time is over

  /** A call whose block time is over at its check ends: in every interleaving it is not put on
      a wait list, and after three more steps of its own a sender has returned and a receiver
      looks a last time whether the queue is empty. */
  lemma TimedOutCallEnds(s: State, t: TaskId, op: Operation, check: Step, steps: seq<Step>)
    requires Invariant(s) && t < |s.pc| && s.pc[t] == CheckTimeOut(op)
    requires Runs(s, [check] + steps) && Own(check, t) && check.Run? && check.expired
    requires OwnSteps(steps, t) <= 3
    ensures var r := After(s, [check] + steps);
      && t < |r.pc| && !IsWaiting(r.q, t)
      && r.pc[t] != Place(op)
      && (OwnSteps(steps, t) == 3 ==> r.pc[t] == if op.Send? then Idle else Recheck(op))
  {
    assert !IsWaiting(s.q, t);
    FirstOf(s, check, steps);
    hide Invariant, IsWaiting;
    LeavingPath(Apply(s, check), t, op, TimedOut, 0, steps);
  }

  lemma FirstOf(s: State, step: Step, steps: seq<Step>)
    requires Runs(s, [step] + steps)
    ensures Enabled(s, step) && Runs(Apply(s, step), steps)
    ensures After(s, [step] + steps) == After(Apply(s, step), steps)
  {
    hide Apply, Enabled;
    assert ([step] + steps)[1..] == steps;
  }

  lemma {:induction false} JoinedRuns(s: State, steps: seq<Step>, more: seq<Step>)
    requires Runs(s, steps + more)
    ensures Runs(s, steps) && Runs(After(s, steps), more)
    ensures After(s, steps + more) == After(After(s, steps), more)
    decreases |steps|
  {
    hide Apply, Enabled;
    if steps == [] {
      assert steps + more == more;
    } else {
      assert (steps + more)[1..] == steps[1..] + more;
      JoinedRuns(Apply(s, steps[0]), steps[1..], more);
    }
  }

  /** The last look of a receiver decides on the queue as the others have left it by then: with
      nothing in it the call ends, otherwise it tries again. */
  lemma RecheckDecides(s: State, t: TaskId, op: Operation, others: seq<Step>, look: Step)
    requires t < |s.pc| && s.pc[t] == Recheck(op)
    requires Runs(s, others + [look]) && OwnSteps(others, t) == 0 && Own(look, t)
    ensures Runs(s, others)
    ensures var r := After(s, others + [look]);
      && t < |r.pc| && r.q == After(s, others).q
      && (r.pc[t] == Idle <==> r.q.messages == 0)
      && (r.pc[t] == Top(op) <==> r.q.messages > 0)
  {
    JoinedRuns(s, others, [look]);
    FirstOf(After(s, others), look, []);
    OthersRun(s, t, others);
  }

  // ----- a call with time left

  predicate Unsuitable(q: Control, op: Operation) {
    if op.Send? then q.messages == q.length else q.messages == 0
  }

  predicate OnItsList(q: Control, op: Operation, t: TaskId) {
    if op.Send? then t in q.waitingToSend else t in q.waitingToReceive
  }

  /** With time left the call looks at the queue again as the others have left it by then. With its
      next step it is on the wait list exactly if it was a sender that found the queue full or a
      receiver that found it empty. */
  lemma WaitsIffUnsuitable(
    s: State, t: TaskId, op: Operation, check: Step, others: seq<Step>, look: Step, more: seq<Step>, next: Step)
    requires Invariant(s) && t < |s.pc| && s.pc[t] == CheckTimeOut(op)
    requires Runs(s, [check] + others) && Own(check, t) && check.Run? && !check.expired
    requires Runs(After(s, [check] + others), [look] + (more + [next]))
    requires OwnSteps(others, t) == 0 && Own(look, t) && OwnSteps(more, t) == 0 && Own(next, t)
    ensures var seen := After(s, [check] + others);
      var r := After(seen, [look] + (more + [next]));
      OnItsList(r.q, op, t) <==> Unsuitable(seen.q, op)
  {
    assert !IsWaiting(s.q, t);
    hide Invariant, IsWaiting, OnItsList, Unsuitable;
    var seen := LookedAt(s, t, op, check, others);
    PlacedIffUnsuitable(seen, t, op, look, more, next);
  }

  lemma PlacedIffUnsuitable(s: State, t: TaskId, op: Operation, look: Step, more: seq<Step>, next: Step)
    requires t < |s.pc| && s.pc[t] == CheckQueue(op) && !IsWaiting(s.q, t)
    requires Runs(s, [look] + (more + [next])) && Own(look, t) && OwnSteps(more, t) == 0 && Own(next, t)
    ensures OnItsList(After(s, [look] + (more + [next])).q, op, t) <==> Unsuitable(s.q, op)
  {
    FirstOf(s, look, more + [next]);
    var looked := Apply(s, look);
    JoinedRuns(looked, more, [next]);
    OthersRun(looked, t, more);
    FirstOf(After(looked, more), next, []);
    assert looked.pc[t] == if Unsuitable(s.q, op) then Place(op) else UnlockTx(op, TryAgain);
    assert !IsWaiting(After(looked, more).q, t);
    hide Unsuitable;
    StepAfterLook(After(looked, more), t, op, next);
  }

  lemma StepAfterLook(s: State, t: TaskId, op: Operation, next: Step)
    requires Enabled(s, next) && Own(next, t) && t < |s.pc| && !IsWaiting(s.q, t)
    ensures s.pc[t] == Place(op) ==> OnItsList(Apply(s, next).q, op, t)
    ensures s.pc[t] == UnlockTx(op, TryAgain) ==> !OnItsList(Apply(s, next).q, op, t)
  {
    hide WakeReceivers, WakeSenders;
    WakingAllLeaves(s.q, s.q.txLock, t);
  }

  /** Where the second look is made. */
  lemma LookedAt(s: State, t: TaskId, op: Operation, check: Step, others: seq<Step>) returns (seen: State)
    requires t < |s.pc| && s.pc[t] == CheckTimeOut(op)
    requires Runs(s, [check] + others) && Own(check, t) && check.Run? && !check.expired && OwnSteps(others, t) == 0
    ensures seen == After(s, [check] + others)
    ensures t < |seen.pc| && seen.pc[t] == CheckQueue(op) && (IsWaiting(seen.q, t) ==> IsWaiting(s.q, t))
  {
    seen := After(s, [check] + others);
    FirstOf(s, check, others);
    OthersRun(Apply(s, check), t, others);
  }

  /** A call that found the queue suitable at its second look is back at the top after three more
      steps, and has not waited. */
  lemma SuitableTriesAgain(s: State, t: TaskId, op: Operation, look: Step, steps: seq<Step>)
    requires Invariant(s) && t < |s.pc| && s.pc[t] == CheckQueue(op) && !Unsuitable(s.q, op)
    requires Runs(s, [look] + steps) && Own(look, t) && OwnSteps(steps, t) <= 3
    ensures var r := After(s, [look] + steps);
      t < |r.pc| && !IsWaiting(r.q, t) && (OwnSteps(steps, t) == 3 ==> r.pc[t] == Top(op))
  {
    assert !IsWaiting(s.q, t);
    FirstOf(s, look, steps);
    hide Invariant, IsWaiting;
    LeavingPath(Apply(s, look), t, op, TryAgain, 0, steps);
  }

  /** A call placed on a list is blocked after three more steps; it moves on only when it is on no
      list any more, and then it is back at the top. */
  lemma PlacedCallBlocks(s: State, t: TaskId, op: Operation, place: Step, steps: seq<Step>, others: seq<Step>,
                         wake: Step)
    requires t < |s.pc| && s.pc[t] == Place(op)
    requires Runs(s, [place] + steps) && Own(place, t) && OwnSteps(steps, t) == 3
    requires Runs(After(s, [place] + steps), others + [wake]) && OwnSteps(others, t) == 0 && Own(wake, t)
    ensures Runs(After(s, [place] + steps), others)
    ensures var blocked := After(s, [place] + steps);
      && t < |blocked.pc| && blocked.pc[t] == Blocked(op)
      && !IsWaiting(After(blocked, others).q, t)
      && t < |After(blocked, others + [wake]).pc| && After(blocked, others + [wake]).pc[t] == Top(op)
  {
    hide IsWaiting;
    FirstOf(s, place, steps);
    LeavingPath(Apply(s, place), t, op, Waited, 0, steps);
    var blocked := After(s, [place] + steps);
    JoinedRuns(blocked, others, [wake]);
    OthersRun(blocked, t, others);
    FirstOf(After(blocked, others), wake, []);
  }

  // ----- the first look

  /** The first look decides: with room or a message the call is done and the count has moved, and
      otherwise it is done at once exactly if it may not wait, with nothing changed. */
  lemma FirstLookDecides(s: State, t: TaskId, op: Operation, look: Step)
    requires Enabled(s, look) && Own(look, t) && look.Run? && t < |s.pc| && s.pc[t] == Top(op)
    ensures var r := Apply(s, look);
      var suitable := if op.Send? then s.q.messages < s.q.length || op.overwrite else s.q.messages > 0;
      && t < |r.pc| && (r.pc[t] == Idle <==> suitable || look.noBlockTime)
      && (!suitable ==> r.q.messages == s.q.messages && r.q.waitingToSend == s.q.waitingToSend
                        && r.q.waitingToReceive == s.q.waitingToReceive)
      && (suitable && op.Receive? ==> r.q.messages == if op.peek then s.q.messages else s.q.messages - 1)
      && (suitable && op.Send? ==>
           r.q.messages == if op.overwrite && !s.q.zeroSize && s.q.messages > 0 then s.q.messages
                           else s.q.messages + 1)
  {
  }

  /** A call that may wait is at its check two steps after the first look. */
  lemma {:induction false} ReachesItsCheck(s: State, t: TaskId, op: Operation, steps: seq<Step>)
    requires Runs(s, steps) && t < |s.pc|
    ensures s.pc[t] == Suspend(op) && OwnSteps(steps, t) == 2 ==>
      t < |After(s, steps).pc| && After(s, steps).pc[t] == CheckTimeOut(op)
    ensures s.pc[t] == Lock(op) && OwnSteps(steps, t) == 1 ==>
      t < |After(s, steps).pc| && After(s, steps).pc[t] == CheckTimeOut(op)
    ensures s.pc[t] == CheckTimeOut(op) && OwnSteps(steps, t) == 0 ==>
      t < |After(s, steps).pc| && After(s, steps).pc[t] == CheckTimeOut(op)
    decreases |steps|
  {
    if steps != [] {
      if !Own(steps[0], t) {
        OthersLeave(s, steps[0], t);
        hide Apply, Enabled;
      }
      hide IsWaiting;
      if s.pc[t] != Idle || !Own(steps[0], t) { ReachesItsCheck(Apply(s, steps[0]), t, op, steps[1..]); }
    }
  }

  // ----- the count

  lemma {:induction false} WakingLeavesCount(q: Control, pending: int)
    ensures WakeReceivers(q, pending).messages == WakeSenders(q, pending).messages == q.messages
    ensures WakeReceivers(q, pending).length == WakeSenders(q, pending).length == q.length
    ensures WakeReceivers(q, pending).zeroSize == WakeSenders(q, pending).zeroSize == q.zeroSize
    decreases pending
  {
    if pending > 0 {
      WakingLeavesCount(WakeReceiver(q), pending - 1);
      WakingLeavesCount(WakeSender(q), pending - 1);
    }
  }

  /** An interrupt stores a message exactly if there is room, or it overwrites, and takes one exactly
      if there is one. */
  lemma InterruptsMoveCount(q: Control, overwrite: bool)
    ensures var q' := IsrSendSection(q, overwrite);
      && (q.messages >= q.length && !overwrite ==> q' == q)
      && (q.messages < q.length ==>
           q'.messages == if overwrite && !q.zeroSize && q.messages > 0 then q.messages else q.messages + 1)
    ensures var q' := IsrReceiveSection(q);
      if q.messages == 0 then q' == q else q'.messages == q.messages - 1
  {
  }

  /** Locking forgets no pending transmission or reception. */
  lemma LockForgetsNothing(q: Control)
    ensures var q' := LockSection(q);
      && Pending(q'.txLock) == Pending(q.txLock) && Pending(q'.rxLock) == Pending(q.rxLock)
      && q'.txLock != UNLOCKED && q'.rxLock != UNLOCKED && q' == q.(txLock := q'.txLock, rxLock := q'.rxLock)
  {
  }

  /** The step overwrites an item of size 0, which only counts. */
  predicate OverwritesNothing(s: State, step: Step) {
    s.q.zeroSize && match step
      case IsrSend(overwrite) => overwrite
      case Run(t, _, _, _) => t < |s.pc| && s.pc[t] == Top(Send(true))
      case _ => false
  }

  /** Overwriting is only asked for on queues of length 1. */
  ghost predicate OverwritersFit(s: State) {
    forall t :: 0 <= t < |s.pc| && s.pc[t] != Idle && s.pc[t].op == Send(true) ==> s.q.length == 1
  }

  lemma CountStep(s: State, step: Step)
    requires Enabled(s, step) && !OverwritesNothing(s, step) && s.q.messages <= s.q.length && OverwritersFit(s)
    ensures var s' := Apply(s, step);
      && s'.q.messages <= s'.q.length == s.q.length && s'.q.zeroSize == s.q.zeroSize && OverwritersFit(s')
  {
    hide WakeReceivers, WakeSenders, InsertAt, Without;
    WakingLeavesCount(s.q, s.q.txLock);
    WakingLeavesCount(s.q, s.q.rxLock);
  }

  ghost predicate NeverOverwritesNothing(s: State, steps: seq<Step>)
    requires Runs(s, steps)
    decreases |steps|
  {
    steps == [] ||
    (!OverwritesNothing(s, steps[0]) && NeverOverwritesNothing(Apply(s, steps[0]), steps[1..]))
  }

  /** Over every run, however tasks and interrupts interleave, the count stays within the length, as
      long as no item of size 0 is overwritten. */
  lemma {:induction false} CountWithinLength(s: State, steps: seq<Step>)
    requires s.q.messages <= s.q.length && OverwritersFit(s)
    requires Runs(s, steps) && NeverOverwritesNothing(s, steps)
    ensures var q := After(s, steps).q; q.messages <= q.length == s.q.length
    decreases |steps|
  {
    hide Apply, Enabled, OverwritersFit, OverwritesNothing;
    if steps != [] {
      CountStep(s, steps[0]);
      CountWithinLength(Apply(s, steps[0]), steps[1..]);
    }
  }

  // ----- the block time on the unbounded clock

  predicate AtCheck(s: State, step: Step, t: TaskId) {
    Own(step, t) && t < |s.pc| && s.pc[t].CheckTimeOut?
  }

  /** The checks t makes in a run, at the times given in turn, answer as xTaskCheckForTimeOut does. */
  ghost predicate Timed(
    s: State, steps: seq<Step>, t: TaskId, timeOut: BlockTime.TimeOut, wait: Tick, times: seq<nat>)
    requires Runs(s, steps)
    decreases |steps|
  {
    if steps == [] then times == []
    else if AtCheck(s, steps[0], t) then
      && times != [] && steps[0].Run?
      && var r := BlockTime.CheckAt(times[0], timeOut, wait);
        steps[0].expired == r.timedOut
        && Timed(Apply(s, steps[0]), steps[1..], t, r.timeOut, r.remaining, times[1..])
    else Timed(Apply(s, steps[0]), steps[1..], t, timeOut, wait, times)
  }

  lemma {:induction false} CheckWasMade(
    s: State, before: seq<Step>, check: Step, t: TaskId, timeOut: BlockTime.TimeOut, wait: Tick, times: seq<nat>)
    requires Runs(s, before + [check]) && Runs(s, before) && AtCheck(After(s, before), check, t)
    requires Timed(s, before + [check], t, timeOut, wait, times)
    ensures times != []
    decreases |before|
  {
    hide Apply, Enabled, BlockTime.Check, AtCheck;
    if before != [] {
      assert (before + [check])[1..] == before[1..] + [check];
      if !AtCheck(s, before[0], t) {
        CheckWasMade(Apply(s, before[0]), before[1..], check, t, timeOut, wait, times);
      }
    }
  }

  /** Over every run, whatever the number of wake-ups in between: a check of a call that started at
      since and that has not timed out before expires exactly at since + wait or later, as long as
      the clock overflows at most once between two checks. */
  lemma {:induction false} CheckExpiresWhenDue(
    s: State, before: seq<Step>, check: Step, t: TaskId, since: nat, wait: Tick, times: seq<nat>)
    requires Runs(s, before + [check]) && Runs(s, before) && AtCheck(After(s, before), check, t)
    requires Timed(s, before + [check], t, BlockTime.SetAt(since), wait, times)
    requires wait != MAX_DELAY && BlockTime.Prompt(since, times) && times != []
    requires forall i :: 0 <= i < |times| - 1 ==> times[i] < since + wait
    ensures check.Run? && (check.expired <==> times[|times| - 1] >= since + wait)
    decreases |before|
  {
    hide Apply, Enabled, BlockTime.Check;
    if before == [] {
      assert (before + [check])[1..] == [];
      BlockTime.CheckCorrectIff(since, times[0], wait);
    } else {
      assert (before + [check])[1..] == before[1..] + [check];
      var s1 := Apply(s, before[0]);
      if AtCheck(s, before[0], t) {
        BlockTime.CheckCorrectIff(since, times[0], wait);
        var r := BlockTime.CheckAt(times[0], BlockTime.SetAt(since), wait);
        CheckWasMade(s1, before[1..], check, t, r.timeOut, r.remaining, times[1..]);
        CheckExpiresWhenDue(s1, before[1..], check, t, times[0], r.remaining, times[1..]);
      } else {
        CheckExpiresWhenDue(s1, before[1..], check, t, since, wait, times);
      }
    }
  }

  /** From start-up: a call that reaches its check since + wait or later ends in every interleaving,
      and one that reaches it earlier looks at the queue again. */
  lemma CallEndsWhenDue(
    s: State, before: seq<Step>, check: Step, steps: seq<Step>, t: TaskId, op: Operation,
    since: nat, wait: Tick, times: seq<nat>)
    requires Init(s) && RunsWithRoom(s, before) && Runs(s, before) && Runs(s, before + [check])
    requires Own(check, t) && t < |After(s, before).pc| && After(s, before).pc[t] == CheckTimeOut(op)
    requires Timed(s, before + [check], t, BlockTime.SetAt(since), wait, times)
    requires wait != MAX_DELAY && BlockTime.Prompt(since, times) && times != []
    requires forall i :: 0 <= i < |times| - 1 ==> times[i] < since + wait
    requires Runs(After(s, before), [check] + steps) && OwnSteps(steps, t) <= 3
    ensures var r := After(After(s, before), [check] + steps);
      && (times[|times| - 1] >= since + wait ==>
           && t < |r.pc| && !IsWaiting(r.q, t)
           && (OwnSteps(steps, t) == 3 ==> r.pc[t] == if op.Send? then Idle else Recheck(op)))
      && (times[|times| - 1] < since + wait && OwnSteps(steps, t) == 0 ==>
           t < |r.pc| && r.pc[t] == CheckQueue(op))
  {
    RunInvariant(s, before);
    var at := After(s, before);
    hide Invariant, Init, RunsWithRoom, IsWaiting;
    CheckExpiresWhenDue(s, before, check, t, since, wait, times);
    if check.expired {
      TimedOutCallEnds(at, t, op, check, steps);
    } else if OwnSteps(steps, t) == 0 {
      FirstOf(at, check, steps);
      OthersRun(Apply(at, check), t, steps);
    }
  }
}
