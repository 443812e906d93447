/** One wait on an event group from its call to its return: who is let through, when, and with which bits. */
module EventWaits {
  import opened EventBits
  import opened EventGroups
  import opened EventGroupRuns

  /** What the two kinds of waiting ask for: one of the bits, or every one. */
  ghost predicate Enough(bits: Bits, waitedFor: Bits, all: bool) {
    if all then forall b :: b in waitedFor ==> b in bits else exists b :: b in waitedFor && b in bits
  }

  lemma MetIsEnough(bits: Bits, waitedFor: Bits, all: bool)
    ensures Met(bits, waitedFor, all) <==> Enough(bits, waitedFor, all)
  {
    assert forall b :: b in bits * waitedFor <==> b in bits && b in waitedFor;
    if all && Enough(bits, waitedFor, all) { assert bits * waitedFor == waitedFor; }
  }

  // ----- the calls

  /** xEventGroupWaitBits returns at once exactly if, waiting for all, every bit waited for is set,
      or, waiting for any, one of them is, or if it may not block; it returns the bits as they were,
      and clears those waited for if it was let through and is to clear. Otherwise the caller is
      the last waiter. */
  lemma WaitAnswer(g: Group, t: TaskId, waitedFor: Bits, clear: bool, all: bool, mayBlock: bool)
    requires Running(g, t)
    ensures var g' := WaitBits(g, t, waitedFor, clear, all, mayBlock);
      var through := if all then forall b :: b in waitedFor ==> b in g.bits
                     else exists b :: b in waitedFor && b in g.bits;
      && (Running(g', t) <==> through || !mayBlock)
      && (Running(g', t) ==> g' == g.(bits := g'.bits, returned := g.returned[t := g.bits]))
      && (!Running(g', t) ==> g' == g.(waiting := g.waiting + [Waiter(t, Pack(waitedFor, clear, all))]))
      && g'.bits == if through && clear then g.bits - waitedFor else g.bits
  {
    MetIsEnough(g.bits, waitedFor, all);
    var g' := WaitBits(g, t, waitedFor, clear, all, mayBlock);
    if g'.waiting != g.waiting { assert g'.waiting[|g.waiting|].task == t; Listed(g'.waiting, |g.waiting|); }
  }

  lemma {:induction false} Listed(waiting: seq<Waiter>, p: nat)
    requires p < |waiting|
    ensures PositionOf(waiting, waiting[p].task) < |waiting|
  {
  }

  /** xEventGroupSetBits releases a waiter exactly if the bits already there and those set are enough
      for it, and it is the bits of that moment that it then returns. */
  lemma SetReleasesIff(g: Group, bitsToSet: Bits, t: TaskId, waitedFor: Bits, clear: bool, all: bool)
    requires WellFormed(g) && Application(bitsToSet) && Application(waitedFor)
    requires Waiter(t, Pack(waitedFor, clear, all)) in g.waiting
    ensures var g' := SetBits(g, bitsToSet);
      var through := if all then forall b :: b in waitedFor ==> b in g.bits || b in bitsToSet
                     else exists b :: b in waitedFor && (b in g.bits || b in bitsToSet);
      && (t in g'.woken <==> through)
      && (Waiter(t, Pack(waitedFor, clear, all)) in g'.waiting <==> !through)
      && (t in g'.woken ==>
           g'.woken[t] == Unblocked(g.bits + bitsToSet) && Finish(g', t).returned[t] == g.bits + bitsToSet)
      && (through && clear ==> g'.bits !! waitedFor)
  {
    var w := Waiter(t, Pack(waitedFor, clear, all));
    PackRoundTrip(waitedFor, clear, all);
    MetIsEnough(g.bits + bitsToSet, waitedFor, all);
    SetBitsExact(g, bitsToSet);
    OnePerTask(g.waiting, w);
    ApplicationClosed(g.bits, bitsToSet);
    UnblockedRoundTrip(g.bits + bitsToSet);
    hide SetBits, Pack, Met, WasUnblocked, Unblocked, ClearsOnExit, WaitedFor, WantsAll, Application, DistinctTasks,
      InOrder;
  }

  /** xEventGroupSync lets its caller through at once exactly if with its own bits every bit waited
      for is set; the caller returns them all and they are clear afterwards. */
  lemma SyncAnswer(g: Group, t: TaskId, bitsToSet: Bits, waitedFor: Bits, mayBlock: bool)
    requires WellFormed(g) && Running(g, t) && Application(bitsToSet)
    ensures var g' := Sync(g, t, bitsToSet, waitedFor, mayBlock);
      var through := forall b :: b in waitedFor ==> b in g.bits || b in bitsToSet;
      && (Running(g', t) <==> through || !mayBlock)
      && (through ==> g'.returned == g.returned[t := g.bits + bitsToSet] && g'.bits !! waitedFor)
      && (!through && !mayBlock ==> g'.returned == g.returned[t := SetBits(g, bitsToSet).bits])
      && (!Running(g', t) ==>
           g'.returned == g.returned && Waiter(t, Pack(waitedFor, true, true)) in g'.waiting)
      && (!through ==> g'.bits == SetBits(g, bitsToSet).bits)
  {
    MetIsEnough(g.bits + bitsToSet, waitedFor, true);
    StillRunning(g, bitsToSet, t);
    SetBitsExact(g, bitsToSet);
    hide SetBits, Pack, Met, ClearsOnExit, WaitedFor, WantsAll, Application, DistinctTasks, InOrder, Satisfied;
    var g1, g' := SetBits(g, bitsToSet), Sync(g, t, bitsToSet, waitedFor, mayBlock);
    if |g'.waiting| > |g1.waiting| {
      assert g'.waiting[|g1.waiting|] == Waiter(t, Pack(waitedFor, true, true));
      Listed(g'.waiting, |g1.waiting|);
    }
  }

  /** A waiter whose block time is over returns the bits as they are when it runs again; they are
      cleared exactly if they are by then enough and it was to clear. */
  lemma TimedOutAnswer(g: Group, t: TaskId, waitedFor: Bits, clear: bool, all: bool)
    requires WellFormed(g) && Application(waitedFor) && t in g.woken && g.woken[t] == Pack(waitedFor, clear, all)
    ensures var g' := Finish(g, t);
      && g'.waiting == g.waiting && g'.woken == g.woken - {t} && g'.returned == g.returned[t := g.bits]
      && g'.bits == if clear && (if all then forall b :: b in waitedFor ==> b in g.bits
                                 else exists b :: b in waitedFor && b in g.bits)
                    then g.bits - waitedFor else g.bits
  {
    PackRoundTrip(waitedFor, clear, all);
    MetIsEnough(g.bits, waitedFor, all);
    assert g.bits - CONTROL_BYTES == g.bits by {
      assert forall b :: b in g.bits && b in CONTROL_BYTES ==> b in g.bits * CONTROL_BYTES;
    }
    hide Pack, Met, ClearsOnExit, WaitedFor, WantsAll, Application, DistinctTasks, WasUnblocked;
  }

  // ----- whole runs

  predicate SetsBits(step: Step) {
    step.Set? || step.Synchronise?
  }

  /** The setter of some step made the bits enough. */
  ghost predicate EnoughOnce(g: Group, steps: seq<Step>, waitedFor: Bits, all: bool)
    requires Runs(g, steps)
    decreases |steps|
  {
    steps != [] && ((SetsBits(steps[0]) && Enough(g.bits + steps[0].bits, waitedFor, all))
                    || EnoughOnce(Apply(g, steps[0]), steps[1..], waitedFor, all))
  }

  /** The bits of the first such moment. */
  ghost function BitsThen(g: Group, steps: seq<Step>, waitedFor: Bits, all: bool): Bits
    requires Runs(g, steps) && EnoughOnce(g, steps, waitedFor, all)
    decreases |steps|
  {
    if SetsBits(steps[0]) && Enough(g.bits + steps[0].bits, waitedFor, all) then g.bits + steps[0].bits
    else BitsThen(Apply(g, steps[0]), steps[1..], waitedFor, all)
  }

  /** The steps are not those of t's own wait ending. */
  predicate LeftAlone(steps: seq<Step>, t: TaskId) {
    forall i :: 0 <= i < |steps| ==> steps[i] != Expire(t) && steps[i] != Resume(t)
  }

  lemma TasksStay(g: Group, step: Step, t: TaskId)
    requires WellFormed(g) && Enabled(g, step) && step != Expire(t) && step != Resume(t) && !SetsBits(step)
    ensures var g' := Apply(g, step);
      && (t in g.woken ==> t in g'.woken && g'.woken[t] == g.woken[t])
      && (forall w :: w in g.waiting && w.task == t ==> w in g'.waiting)
  {
    hide Met, Pack, WellFormed, Application, WasUnblocked, ClearsOnExit, WaitedFor, WantsAll;
    if step.Expire? {
      assert DistinctTasks(g.waiting) by { WellFormedDistinct(g); }
      TimeOutExact(g, step.t);
      hide TimeOut;
    }
  }

  lemma WellFormedDistinct(g: Group)
    requires WellFormed(g)
    ensures DistinctTasks(g.waiting) && Application(g.bits) && forall w :: w in g.waiting ==> w.task !in g.woken
  {
  }

  /** What a setter does to a task, whether it only sets or also waits. */
  lemma SetterStep(g: Group, step: Step)
    requires WellFormed(g) && Enabled(g, step) && SetsBits(step)
    ensures var g', s := Apply(g, step), SetBits(g, step.bits);
      && g'.woken == s.woken && (forall w :: w in s.waiting ==> w in g'.waiting)
      && (forall w :: w in g'.waiting && w !in s.waiting ==> step.Synchronise? && w.task == step.t)
  {
    hide SetBits, Met, Pack, WellFormed, Application;
  }

  lemma WokenStays(g: Group, step: Step, t: TaskId)
    requires WellFormed(g) && Enabled(g, step) && step != Expire(t) && step != Resume(t) && t in g.woken
    ensures t in Apply(g, step).woken && Apply(g, step).woken[t] == g.woken[t]
  {
    hide SetBits, Met, Pack, Application, Apply, Enabled;
    if SetsBits(step) {
      SetterStep(g, step);
      SetBitsExact(g, step.bits);
    } else {
      TasksStay(g, step, t);
    }
  }

  /** A released task keeps the bits it was released with until it runs. */
  lemma {:induction false} WokenUntilItRuns(g: Group, steps: seq<Step>, t: TaskId)
    requires WellFormed(g) && Stable(g) && Runs(g, steps) && LeftAlone(steps, t) && t in g.woken
    ensures t in After(g, steps).woken && After(g, steps).woken[t] == g.woken[t]
    decreases |steps|
  {
    hide WellFormed, Stable, Apply, Enabled;
    if steps != [] {
      assert steps[0] != Expire(t) && steps[0] != Resume(t);
      StepKeeps(g, steps[0]);
      WokenStays(g, steps[0], t);
      WokenUntilItRuns(Apply(g, steps[0]), steps[1..], t);
    }
  }

  /** Over every run: a blocked task whose block time does not run out goes on waiting exactly as long
      as no setter makes the bits enough, and it then returns the bits of the first such moment,
      whatever has been set or cleared since. */
  lemma {:induction false} WaitsUntilEnough(
    g: Group, steps: seq<Step>, t: TaskId, waitedFor: Bits, clear: bool, all: bool)
    requires WellFormed(g) && Stable(g) && Application(waitedFor) && Runs(g, steps) && LeftAlone(steps, t)
    requires Waiter(t, Pack(waitedFor, clear, all)) in g.waiting
    ensures Waiter(t, Pack(waitedFor, clear, all)) in After(g, steps).waiting <==> !EnoughOnce(g, steps, waitedFor, all)
    ensures EnoughOnce(g, steps, waitedFor, all) ==>
      && t in After(g, steps).woken
      && Finish(After(g, steps), t).returned[t] == BitsThen(g, steps, waitedFor, all)
    decreases |steps|
  {
    hide WellFormed, Stable, Apply, Enabled, Pack, Application, Enough, Finish;
    if steps != [] {
      var step, g1 := steps[0], Apply(g, steps[0]);
      assert step != Expire(t) && step != Resume(t);
      StepKeeps(g, step);
      if SetsBits(step) && Enough(g.bits + step.bits, waitedFor, all) {
        ReleasedNow(g, step, t, waitedFor, clear, all);
        WokenUntilItRuns(g1, steps[1..], t);
        RunKeeps(g1, steps[1..]);
        WellFormedDistinct(After(g1, steps[1..]));
        FinishesWith(After(g1, steps[1..]), t, g.bits + step.bits);
      } else {
        WaitsOn(g, step, t, waitedFor, clear, all);
        WaitsUntilEnough(g1, steps[1..], t, waitedFor, clear, all);
      }
    }
  }

  lemma FinishesWith(g: Group, t: TaskId, bits: Bits)
    requires t in g.woken && g.woken[t] == Unblocked(bits) && Application(bits)
    ensures Finish(g, t).returned[t] == bits
  {
    UnblockedRoundTrip(bits);
  }

  lemma ReleasedNow(g: Group, step: Step, t: TaskId, waitedFor: Bits, clear: bool, all: bool)
    requires WellFormed(g) && Enabled(g, step) && SetsBits(step) && Application(waitedFor)
    requires Waiter(t, Pack(waitedFor, clear, all)) in g.waiting && Enough(g.bits + step.bits, waitedFor, all)
    ensures t in Apply(g, step).woken && Apply(g, step).woken[t] == Unblocked(g.bits + step.bits)
    ensures Application(g.bits + step.bits)
  {
    SetterStep(g, step);
    SetReleasesIff(g, step.bits, t, waitedFor, clear, all);
    ApplicationClosed(g.bits, step.bits);
    hide SetBits, Apply, Pack, Application, Finish, WellFormed, Unblocked;
    assert forall b :: b in g.bits + step.bits <==> b in g.bits || b in step.bits;
  }

  lemma WaitsOn(g: Group, step: Step, t: TaskId, waitedFor: Bits, clear: bool, all: bool)
    requires WellFormed(g) && Enabled(g, step) && step != Expire(t) && step != Resume(t) && Application(waitedFor)
    requires Waiter(t, Pack(waitedFor, clear, all)) in g.waiting
    requires !(SetsBits(step) && Enough(g.bits + step.bits, waitedFor, all))
    ensures Waiter(t, Pack(waitedFor, clear, all)) in Apply(g, step).waiting
  {
    if SetsBits(step) {
      SetterStep(g, step);
      SetReleasesIff(g, step.bits, t, waitedFor, clear, all);
      hide SetBits, Apply, Pack, Application, Finish, WellFormed, Unblocked;
      assert forall b :: b in g.bits + step.bits <==> b in g.bits || b in step.bits;
    } else {
      hide Apply, Pack;
      TasksStay(g, step, t);
    }
  }
}
