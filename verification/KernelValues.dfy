/** The value an event item carries while its task waits for event bits. */
module KernelValues {
  import opened Ticks
  import opened ReadyBits
  import opened KernelSpec
  import opened KernelInvariant
  import opened KernelClock
  import opened KernelRuns
  import opened KernelRanks
  import opened Preemption
  import opened KernelWakes

  /** The event item of t holds value, marked as in use for event bits. */
  predicate Carries(k: Kernel, t: TaskId, value: Tick) {
    t in k.tasks && value < ITEM_VALUE_IN_USE && k.tasks[t].eventValue == ITEM_VALUE_IN_USE + value
  }

  /** t itself uses its item for something else, is set bits for, or is deleted. */
  predicate Reuses(k: Kernel, step: Step, t: TaskId)
    requires Enabled(k, step)
  {
    t in Revalued(k, step) || step == Delete(t) || (step.GiveMutex? && k.running == t)
  }

  lemma ChangeCarries(k: Kernel, t: TaskId, task: Tcb, p: Priority, u: TaskId, value: Tick)
    requires t in k.tasks && Carries(k, u, value) && (t == u ==> task.eventValue == k.tasks[t].eventValue)
    ensures Carries(ChangePriority(k.(tasks := k.tasks[t := task]), t, p), u, value)
  {
    ChangePriorityFrame(k.(tasks := k.tasks[t := task]), t, p);
    hide ChangePriority;
  }

  lemma RankedCarries(k: Kernel, step: Step, t: TaskId, value: Tick)
    requires Enabled(k, step) && Carries(k, t, value) && !Reuses(k, step, t) && k.running in k.tasks
    requires step.PrioritySet? || step.Inherit? || step.TakeMutex? || step.GiveMutex?
    ensures Carries(Apply(k, step), t, value)
  {
    hide ChangePriority;
    match step {
      case PrioritySet(u, p) =>
        var task := k.tasks[u];
        ChangeCarries(k, u, WithEventValueFor(task.(basePriority := p), p),
          if task.basePriority == task.priority then p else task.priority, t, value);
      case Inherit(u) =>
        var p := TaskOf(k, k.running).priority;
        ChangeCarries(k, u, WithEventValueFor(k.tasks[u], p), p, t, value);
      case GiveMutex =>
        var task := MutexGiven(k);
        ChangeCarries(k, k.running, task.(eventValue := MAX_PRIORITIES - task.basePriority), task.basePriority, t,
          value);
      case TakeMutex =>
    }
  }

  lemma DeletedCarries(k: Kernel, u: TaskId, t: TaskId, value: Tick)
    requires u in k.tasks && u != t && Carries(k, t, value)
    ensures Carries(DeleteTask(k, u), t, value)
  {
    DeletedIs(k, u);
    hide DeleteTask;
  }

  lemma NeutralCarries(k: Kernel, k': Kernel, touched: set<TaskId>, t: TaskId, value: Tick)
    requires SameRanksBut(k, k', touched) && t !in touched && Carries(k, t, value)
    ensures Carries(k', t, value)
  {
  }

  /** No other step changes it: in particular no change of priority does. */
  lemma StepCarries(k: Kernel, step: Step, t: TaskId, value: Tick)
    requires Invariant(k) && Enabled(k, step) && Carries(k, t, value) && !Reuses(k, step, t)
    ensures Carries(Apply(k, step), t, value)
  {
    InvariantNames(k);
    hide Invariant, Structure, Carries, Apply, Enabled, SameRanksBut;
    if Neutral(step) {
      NeutralRanks(k, step);
      NeutralCarries(k, Apply(k, step), Revalued(k, step), t, value);
    } else if step.Delete? {
      DeleteApplies(k, step.t);
      DeletedCarries(k, step.t, t, value);
    } else {
      RankedCarries(k, step, t, value);
    }
  }

  lemma DeleteApplies(k: Kernel, t: TaskId)
    requires Enabled(k, Delete(t))
    ensures Apply(k, Delete(t)) == DeleteTask(k, t) && t in k.tasks
  {
    hide DeleteTask;
  }

  ghost predicate LeavesItem(k: Kernel, steps: seq<Step>, t: TaskId)
    requires Runs(k, steps)
    decreases |steps|
  {
    steps == [] || (!Reuses(k, steps[0], t) && LeavesItem(Apply(k, steps[0]), steps[1..], t))
  }

  lemma {:induction false} RunCarries(k: Kernel, steps: seq<Step>, t: TaskId, value: Tick)
    requires Invariant(k) && Runs(k, steps) && LeavesItem(k, steps, t) && Carries(k, t, value)
    ensures Carries(After(k, steps), t, value)
    decreases |steps|
  {
    hide Invariant, Carries, Apply, Enabled, Reuses;
    if steps != [] {
      StepCarries(k, steps[0], t, value);
      StepKeepsInvariant(k, steps[0]);
      RunCarries(Apply(k, steps[0]), steps[1..], t, value);
    }
  }

  /** The bits and options a task waits for stay in its event item over every run, until it is woken
      by a setter or uses the item again, whatever happens to its priority. */
  lemma WaitedForStays(k: Kernel, id: nat, value: Tick, ticks: Tick, steps: seq<Step>)
    requires Invariant(k) && Enabled(k, WaitForBits(id, value, ticks)) && value < ITEM_VALUE_IN_USE
    requires var k1 := Apply(k, WaitForBits(id, value, ticks)); Runs(k1, steps) && LeavesItem(k1, steps, k.running)
    ensures Carries(After(Apply(k, WaitForBits(id, value, ticks)), steps), k.running, value)
  {
    StepKeepsInvariant(k, WaitForBits(id, value, ticks));
    WaitCarries(k, id, value, ticks);
    hide Invariant, Carries, Apply, Enabled, LeavesItem, Runs;
    RunCarries(Apply(k, WaitForBits(id, value, ticks)), steps, k.running, value);
  }

  lemma WaitCarries(k: Kernel, id: nat, value: Tick, ticks: Tick)
    requires Enabled(k, WaitForBits(id, value, ticks)) && value < ITEM_VALUE_IN_USE
    ensures Carries(Apply(k, WaitForBits(id, value, ticks)), k.running, value)
  {
    hide DelayCurrent, EventItems;
    var k1 := k.(tasks := k.tasks[k.running := TaskOf(k, k.running).(eventValue := MarkedInUse(value))]);
    DelayCurrentRanks(AppendEvent(k1, OnEvent(id), k.running), ticks, true);
  }

  /** What a setter of event bits leaves in the item is what the woken task finds there when it runs
      and resets it. */
  lemma DeliveredStays(k: Kernel, t: TaskId, value: Tick, steps: seq<Step>)
    requires Invariant(k) && Enabled(k, BitsSet(t, value)) && value < ITEM_VALUE_IN_USE
    requires var k1 := Apply(k, BitsSet(t, value)); Runs(k1, steps) && LeavesItem(k1, steps, t)
    ensures Carries(After(Apply(k, BitsSet(t, value)), steps), t, value)
  {
    StepKeepsInvariant(k, BitsSet(t, value));
    SetterCarries(k, t, value);
    hide Invariant, Carries, Apply, Enabled, LeavesItem, Runs;
    RunCarries(Apply(k, BitsSet(t, value)), steps, t, value);
  }

  /** Resetting the item makes it stand for the task's priority again. */
  lemma ResetStandsForPriority(k: Kernel)
    requires k.running in k.tasks
    ensures var k' := ResetEventItemValue(k);
      && k'.tasks.Keys == k.tasks.Keys
      && k'.tasks[k.running].eventValue == MAX_PRIORITIES - k.tasks[k.running].priority
      && Rank(k', k.running) == Rank(k, k.running) && OthersSame(k, k', k.running)
  {
  }

  lemma SetterCarries(k: Kernel, t: TaskId, value: Tick)
    requires Enabled(k, BitsSet(t, value)) && value < ITEM_VALUE_IN_USE
    ensures Carries(Apply(k, BitsSet(t, value)), t, value)
  {
    hide RemoveEvent, MakeReady;
    var k0 := k.(tasks := k.tasks[t := TaskOf(k, t).(eventValue := MarkedInUse(value))]);
    RemoveEventFrame(k0, t);
    AddToReadyListFrame(RemoveEvent(k0, t), t);
  }
}
