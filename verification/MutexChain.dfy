/** A chain of two mutexes in which inheritance stops half way, from the start of the system.

    The states of the run are written down one by one, each as a change of the one before, and a
    lemma for each step shows that the system model takes it from one to the next. */
module MutexChain {
  import opened Ticks
  import opened ReadyBits
  import opened ListSpec
  import opened KernelSpec
  import opened KernelRuns
  import opened KernelRanks
  import opened PriorityInheritance

  const IDLE: TaskId := 0
  const LOW: TaskId := 1
  const MIDDLE: TaskId := 2
  const HIGH: TaskId := 3
  const FIRST: MutexId := 10
  const SECOND: MutexId := 20

  function Bits(ready: set<nat>): Bitmap {
    seq(WORD, p => p in ready)
  }

  lemma BitsChange(ready: set<nat>, p: Priority)
    ensures Record(Bits(ready), p) == Bits(ready + {p}) && Reset(Bits(ready), p) == Bits(ready - {p})
  {
  }

  /** The kernel at tick 0, with the scheduler running. */
  function At(tasks: map<TaskId, Tcb>, lists: map<StateList, List<TaskId>>, events: map<EventPlace, seq<TaskId>>,
              ready: set<nat>, running: TaskId): Kernel
  {
    Kernel(tasks, lists, events, Delayed1, Delayed2, Bits(ready), 0, 0, MAX_DELAY, 0, 0, false, running, IDLE)
  }

  lemma SwitchesTo(tasks: map<TaskId, Tcb>, lists: map<StateList, List<TaskId>>, events: map<EventPlace, seq<TaskId>>,
                   ready: set<nat>, running: TaskId, p: Priority, t: TaskId, index: nat)
    requires p in ready && (forall q :: q in ready ==> q <= p)
    requires Ready(p) in lists && lists[Ready(p)] == List([t], index) && index <= 1
    ensures SwitchContext(At(tasks, lists, events, ready, running)) ==
      At(tasks, lists[Ready(p) := List([t], 1)], events, ready, t)
  {
    assert Bits(ready)[p];
  }

  lemma Creates(tasks: map<TaskId, Tcb>, lists: map<StateList, List<TaskId>>, events: map<EventPlace, seq<TaskId>>,
                ready: set<nat>, running: TaskId, t: TaskId, p: Priority)
    requires t !in tasks && Ready(p) !in lists
    ensures CreateTask(At(tasks, lists, events, ready, running), t, p) ==
      At(tasks[t := Tcb(p, p, 0, Ready(p), 0, Nowhere, MAX_PRIORITIES - p)], lists[Ready(p) := List([t], 0)], events,
        ready + {p}, running)
  {
    BitsChange(ready, p);
    var task := Tcb(p, p, 0, Ready(p), 0, Nowhere, MAX_PRIORITIES - p);
    assert tasks[t := task][t := task] == tasks[t := task];
    assert InsertEnd(List([], 0), t) == List([t], 0);
  }

  ghost predicate StepsTo(s: System, step: MutexStep, s': System) {
    Allowed(s, step) && Run1(s, step) == s'
  }

  lemma {:induction false} RunsThrough(states: seq<System>, steps: seq<MutexStep>)
    requires |states| == |steps| + 1 && forall i :: 0 <= i < |steps| ==> StepsTo(states[i], steps[i], states[i + 1])
    ensures RunsTo(states[0], steps) && Final(states[0], steps) == states[|steps|]
    decreases |steps|
  {
    hide Allowed, Run1;
    if steps != [] {
      assert StepsTo(states[0], steps[0], states[1]);
      var states1, steps1 := states[1..], steps[1..];
      forall i | 0 <= i < |steps1| ensures StepsTo(states1[i], steps1[i], states1[i + 1]) {
        assert StepsTo(states[i + 1], steps[i + 1], states[i + 2]);
      }
      RunsThrough(states1, steps1);
    }
  }

  lemma SwitchStep(s: System, ready: set<nat>, p: Priority, t: TaskId, index: nat)
    requires s.k == At(s.k.tasks, s.k.lists, s.k.events, ready, s.k.running)
    requires p in ready && (forall q :: q in ready ==> q <= p)
    requires Ready(p) in s.k.lists && s.k.lists[Ready(p)] == List([t], index) && index <= 1
    ensures StepsTo(s, Other(ContextSwitch),
      s.(k := At(s.k.tasks, s.k.lists[Ready(p) := List([t], 1)], s.k.events, ready, t)))
  {
    SwitchesTo(s.k.tasks, s.k.lists, s.k.events, ready, s.k.running, p, t, index);
    hide SwitchContext, Bits, At;
  }

  lemma CreateStep(s: System, ready: set<nat>, t: TaskId, p: Priority)
    requires s.k == At(s.k.tasks, s.k.lists, s.k.events, ready, s.k.running)
    requires t !in s.k.tasks && Ready(p) !in s.k.lists
    ensures var task := Tcb(p, p, 0, Ready(p), 0, Nowhere, MAX_PRIORITIES - p);
      StepsTo(s, Other(Create(t, p)),
              s.(k := At(s.k.tasks[t := task], s.k.lists[Ready(p) := List([t], 0)], s.k.events, ready + {p},
                s.k.running)))
  {
    Creates(s.k.tasks, s.k.lists, s.k.events, ready, s.k.running, t, p);
    hide CreateTask, Bits, At;
  }

  /** Waiting for ever on an event list on which nobody waits. */
  lemma WaitsForEver(k: Kernel, id: nat, p: Priority, left: List<TaskId>, parked: List<TaskId>)
    requires k.running in k.tasks && EventItems(k, OnEvent(id)) == []
    requires k.tasks[k.running].state == Ready(p) && k.tasks[k.running].priority == p
    requires Unlist(StateItems(k, Ready(p)), k.running) == left &&
      InsertEnd(StateItems(k, Suspended), k.running) == parked
    ensures PlaceOnEventList(k, id, MAX_DELAY) == k.(
      events := k.events[OnEvent(id) := [k.running]],
      tasks := k.tasks[k.running := k.tasks[k.running].(event := OnEvent(id), state := Suspended)],
      lists := k.lists[Ready(p) := left][Suspended := parked],
      topReady := if left.items == [] then Reset(k.topReady, p) else k.topReady)
  {
    assert Insert([], 0, k.running) == [k.running];
    hide Unlist, InsertEnd, Insert, Reset;
    var task := k.tasks[k.running].(event := OnEvent(id));
    assert k.tasks[k.running := task][k.running := task.(state := Suspended)] ==
      k.tasks[k.running := task.(state := Suspended)];
  }

  lemma AtWaits(tasks: map<TaskId, Tcb>, lists: map<StateList, List<TaskId>>, events: map<EventPlace, seq<TaskId>>,
                ready: set<nat>, t: TaskId, id: nat, p: Priority, left: List<TaskId>, parked: List<TaskId>)
    requires t in tasks && tasks[t].state == Ready(p) && tasks[t].priority == p
    requires OnEvent(id) !in events && Ready(p) in lists && Unlist(lists[Ready(p)], t) == left
    requires InsertEnd(if Suspended in lists then lists[Suspended] else List([], 0), t) == parked
    ensures PlaceOnEventList(At(tasks, lists, events, ready, t), id, MAX_DELAY) ==
      At(tasks[t := tasks[t].(event := OnEvent(id), state := Suspended)], lists[Ready(p) := left][Suspended := parked],
         events[OnEvent(id) := [t]], if left.items == [] then ready - {p} else ready, t)
  {
    BitsChange(ready, p);
    hide Bits, Unlist, InsertEnd, PlaceOnEventList, Reset;
    WaitsForEver(At(tasks, lists, events, ready, t), id, p, left, parked);
  }

  /** A ready task that was alone on its list inherits a priority. */
  lemma Inherits(k: Kernel, h: TaskId, q: Priority, p: Priority, joined: List<TaskId>)
    requires h in k.tasks && k.running in k.tasks && k.tasks[k.running].priority == p > q
    requires k.tasks[h].state == Ready(q) && k.tasks[h].priority == q && k.tasks[h].eventValue < ITEM_VALUE_IN_USE
    requires Unlist(StateItems(k, Ready(q)), h) == List([], 0) && InsertEnd(StateItems(k, Ready(p)), h) == joined
    ensures InheritPriority(k, h) == k.(
      tasks := k.tasks[h := k.tasks[h].(priority := p, state := Ready(p), eventValue := MAX_PRIORITIES - p)],
      lists := k.lists[Ready(q) := List([], 0)][Ready(p) := joined],
      topReady := Record(Reset(k.topReady, q), p))
  {
    hide Unlist, InsertEnd, Reset, Record;
    var task := k.tasks[h].(eventValue := MAX_PRIORITIES - p);
    assert k.tasks[h := task][h := task.(priority := p)][h := task.(priority := p, state := Ready(p))] ==
      k.tasks[h := task.(priority := p, state := Ready(p))];
  }

  // ----- the tasks in the states they go through

  const Idle := Tcb(0, 0, 0, Ready(0), 0, Nowhere, 7)

  function Low(p: Priority, held: nat): Tcb {
    Tcb(p, 1, held, Ready(p), 0, Nowhere, MAX_PRIORITIES - p)
  }

  function Middle(held: nat): Tcb {
    Tcb(2, 2, held, Ready(2), 0, Nowhere, 5)
  }

  function MiddleWaits(p: Priority): Tcb {
    Tcb(p, 2, 1, Suspended, 0, OnEvent(SECOND), MAX_PRIORITIES - p)
  }

  const High := Tcb(3, 3, 0, Ready(3), 0, Nowhere, 4)

  const HighWaits := Tcb(3, 3, 0, Suspended, 0, OnEvent(FIRST), 4)

  function One(t: TaskId, index: nat): List<TaskId> {
    List([t], index)
  }

  // ----- the low task takes SECOND

  function S0(): System {
    System(At(map[IDLE := Idle], map[Ready(0) := One(IDLE, 0)], map[], {0}, IDLE), map[], {}, map[])
  }

  function S1(): System {
    System(At(map[IDLE := Idle, LOW := Low(1, 0)], map[Ready(0) := One(IDLE, 0), Ready(1) := One(LOW, 0)], map[],
      {0, 1}, IDLE),
           map[], {}, map[])
  }

  function S2(held: nat): System {
    System(At(map[IDLE := Idle, LOW := Low(1, held)], map[Ready(0) := One(IDLE, 0), Ready(1) := One(LOW, 1)], map[],
      {0, 1}, LOW),
           if held == 0 then map[] else map[SECOND := LOW], {}, map[])
  }

  lemma Step0()
    ensures Start(IDLE) == S0()
  {
    assert Bits({0}) == InitialKernel(IDLE).topReady;
  }

  lemma Step1()
    ensures StepsTo(S0(), Other(Create(LOW, 1)), S1())
  {
    hide StepsTo, Bits;
    CreateStep(S0(), {0}, LOW, 1);
    assert S1().k.tasks == S0().k.tasks[LOW := Low(1, 0)];
    assert S1().k.lists == S0().k.lists[Ready(1) := One(LOW, 0)];
    assert {0} + {1} == {0, 1};
  }

  lemma Step2()
    ensures StepsTo(S1(), Other(ContextSwitch), S2(0))
  {
    hide StepsTo, Bits;
    SwitchStep(S1(), {0, 1}, 1, LOW, 0);
    assert S2(0).k.lists == S1().k.lists[Ready(1) := One(LOW, 1)];
  }

  lemma Step3()
    ensures StepsTo(S2(0), Take(SECOND), S2(1))
  {
    hide Bits;
  }

  // ----- the middle task takes FIRST, claims SECOND and waits for it

  function S4(): System {
    System(At(map[IDLE := Idle, LOW := Low(1, 1), MIDDLE := Middle(0)],
              map[Ready(0) := One(IDLE, 0), Ready(1) := One(LOW, 1), Ready(2) := One(MIDDLE, 0)], map[], {0, 1, 2},
                LOW),
           map[SECOND := LOW], {}, map[])
  }

  function S5(held: nat): System {
    System(At(map[IDLE := Idle, LOW := Low(1, 1), MIDDLE := Middle(held)],
              map[Ready(0) := One(IDLE, 0), Ready(1) := One(LOW, 1), Ready(2) := One(MIDDLE, 1)], map[], {0, 1, 2},
                MIDDLE),
           if held == 0 then map[SECOND := LOW] else map[SECOND := LOW, FIRST := MIDDLE], {}, map[])
  }

  const Holders := map[SECOND := LOW, FIRST := MIDDLE]

  function S7(): System {
    var k := S5(1).k;
    System(At(k.tasks[LOW := Low(2, 1)], k.lists[Ready(1) := List([], 0)][Ready(2) := List([LOW, MIDDLE], 2)], map[],
      {0, 2}, MIDDLE),
           Holders, {Claim(SECOND, 2)}, map[LOW := {2}])
  }

  function S8(running: TaskId): System {
    var k := S7().k;
    System(At(k.tasks[MIDDLE := MiddleWaits(2)], k.lists[Ready(2) := One(LOW, 1)][Suspended := One(MIDDLE, 0)],
              k.events[OnEvent(SECOND) := [MIDDLE]], {0, 2}, running),
           Holders, {Claim(SECOND, 2)}, map[LOW := {2}])
  }

  lemma Step4()
    ensures StepsTo(S2(1), Other(Create(MIDDLE, 2)), S4())
  {
    hide StepsTo, Bits;
    CreateStep(S2(1), {0, 1}, MIDDLE, 2);
    assert S4().k.tasks == S2(1).k.tasks[MIDDLE := Middle(0)];
    assert S4().k.lists == S2(1).k.lists[Ready(2) := One(MIDDLE, 0)];
    assert {0, 1} + {2} == {0, 1, 2};
  }

  lemma Step5()
    ensures StepsTo(S4(), Other(ContextSwitch), S5(0))
  {
    hide StepsTo, Bits;
    SwitchStep(S4(), {0, 1, 2}, 2, MIDDLE, 0);
    assert S5(0).k.lists == S4().k.lists[Ready(2) := One(MIDDLE, 1)];
  }

  lemma Step6()
    ensures StepsTo(S5(0), Take(FIRST), S5(1))
  {
    hide Bits;
    assert S5(1).holder == S5(0).holder[FIRST := MIDDLE];
    assert S5(1).k.tasks == S5(0).k.tasks[MIDDLE := Middle(1)];
  }

  lemma Raised()
    ensures InheritPriority(S5(1).k, LOW) == S7().k
  {
    BitsChange({0, 1, 2}, 1);
    BitsChange({0, 2}, 2);
    assert {0, 1, 2} - {1} == {0, 2} && {0, 2} + {2} == {0, 2};
    assert Unlist(One(LOW, 1), LOW) == List([], 0) by { assert Without([LOW], 0) == []; }
    assert InsertEnd(One(MIDDLE, 1), LOW) == List([LOW, MIDDLE], 2) by {
      assert Insert([MIDDLE], 0, LOW) == [LOW, MIDDLE];
    }
    hide Bits, Unlist, InsertEnd, InheritPriority, Record, Reset;
    Inherits(S5(1).k, LOW, 1, 2, List([LOW, MIDDLE], 2));
  }

  lemma Step7()
    ensures StepsTo(S5(1), InheritFor(SECOND), S7())
  {
    Raised();
    hide InheritPriority, Bits;
    assert LentTo(S5(1).lent, LOW) + {2} == {2};
    assert S7().claims == S5(1).claims + {Claim(SECOND, 2)};
    assert S7().lent == S5(1).lent[LOW := {2}];
  }

  lemma MiddleBlocks()
    ensures PlaceOnEventList(S7().k, SECOND, MAX_DELAY) == S8(MIDDLE).k
  {
    assert Unlist(List([LOW, MIDDLE], 2), MIDDLE) == One(LOW, 1) by { assert Without([LOW, MIDDLE], 1) == [LOW]; }
    assert InsertEnd(List([], 0), MIDDLE) == One(MIDDLE, 0);
    hide Bits, Unlist, InsertEnd, PlaceOnEventList;
    var k := S7().k;
    AtWaits(k.tasks, k.lists, map[], {0, 2}, MIDDLE, SECOND, 2, One(LOW, 1), One(MIDDLE, 0));
  }

  lemma Step8()
    ensures StepsTo(S7(), Other(WaitForEvent(SECOND, MAX_DELAY)), S8(MIDDLE))
  {
    MiddleBlocks();
    hide PlaceOnEventList, Bits;
  }

  lemma Step9()
    ensures StepsTo(S8(MIDDLE), Other(ContextSwitch), S8(LOW))
  {
    hide StepsTo, Bits;
    SwitchStep(S8(MIDDLE), {0, 2}, 2, LOW, 1);
    assert S8(LOW).k.lists == S8(MIDDLE).k.lists[Ready(2) := One(LOW, 1)];
  }

  // ----- the high task claims FIRST and waits for it

  function S10(): System {
    var k := S8(LOW).k;
    S8(LOW).(k := At(k.tasks[HIGH := High], k.lists[Ready(3) := One(HIGH, 0)], k.events, {0, 2, 3}, LOW))
  }

  function S11(): System {
    var k := S10().k;
    S10().(k := At(k.tasks, k.lists[Ready(3) := One(HIGH, 1)], k.events, {0, 2, 3}, HIGH))
  }

  function S12(): System {
    var k := S11().k;
    System(At(k.tasks[MIDDLE := MiddleWaits(3)], k.lists, k.events, {0, 2, 3}, HIGH),
           Holders, {Claim(SECOND, 2), Claim(FIRST, 3)}, map[LOW := {2}, MIDDLE := {3}])
  }

  function S13(): System {
    var k := S12().k;
    S12().(k := At(k.tasks[HIGH := HighWaits], k.lists[Ready(3) := List([], 0)][Suspended := List([MIDDLE, HIGH], 0)],
                   k.events[OnEvent(FIRST) := [HIGH]], {0, 2}, HIGH))
  }

  lemma Step10()
    ensures StepsTo(S8(LOW), Other(Create(HIGH, 3)), S10())
  {
    hide StepsTo, Bits;
    CreateStep(S8(LOW), {0, 2}, HIGH, 3);
    assert {0, 2} + {3} == {0, 2, 3};
  }

  lemma Step11()
    ensures StepsTo(S10(), Other(ContextSwitch), S11())
  {
    hide StepsTo, Bits;
    SwitchStep(S10(), {0, 2, 3}, 3, HIGH, 0);
  }

  lemma Step12()
    ensures StepsTo(S11(), InheritFor(FIRST), S12())
  {
    hide Bits;
    var s, s' := S11(), S12();
    assert InheritPriority(s.k, MIDDLE) == s'.k by {
      assert s.k.tasks[MIDDLE := MiddleWaits(2).(eventValue := 4)][MIDDLE := MiddleWaits(3)] == s'.k.tasks;
    }
    hide InheritPriority;
    assert s'.claims == s.claims + {Claim(FIRST, 3)};
    assert LentTo(s.lent, MIDDLE) + {3} == {3};
    assert s'.lent == s.lent[MIDDLE := {3}];
  }

  lemma HighBlocks()
    ensures PlaceOnEventList(S12().k, FIRST, MAX_DELAY) == S13().k
  {
    assert Unlist(One(HIGH, 1), HIGH) == List([], 0) by { assert Without([HIGH], 0) == []; }
    assert InsertEnd(One(MIDDLE, 0), HIGH) == List([MIDDLE, HIGH], 0);
    assert {0, 2, 3} - {3} == {0, 2};
    hide Bits, Unlist, InsertEnd, PlaceOnEventList;
    var k := S12().k;
    AtWaits(k.tasks, k.lists, k.events, {0, 2, 3}, HIGH, FIRST, 3, List([], 0), List([MIDDLE, HIGH], 0));
  }

  lemma Step13()
    ensures StepsTo(S12(), Other(WaitForEvent(FIRST, MAX_DELAY)), S13())
  {
    HighBlocks();
    hide PlaceOnEventList, Bits;
  }

  // ----- the run

  const Chain := [
    Other(Create(LOW, 1)), Other(ContextSwitch), Take(SECOND),
    Other(Create(MIDDLE, 2)), Other(ContextSwitch), Take(FIRST), InheritFor(SECOND),
      Other(WaitForEvent(SECOND, MAX_DELAY)),
    Other(ContextSwitch), Other(Create(HIGH, 3)), Other(ContextSwitch), InheritFor(FIRST),
      Other(WaitForEvent(FIRST, MAX_DELAY))]

  /** A run from the start: the low task holds SECOND, the middle one holds FIRST and waits for
      SECOND, the high one waits for FIRST; the middle task has been raised to the priority of
      the high one, the low task has not. */
  lemma ChainStopsHalfWay()
    ensures RunsTo(Start(IDLE), Chain)
    ensures var s := Final(Start(IDLE), Chain);
      && s.holder == map[SECOND := LOW, FIRST := MIDDLE]
      && s.k.tasks.Keys == {IDLE, LOW, MIDDLE, HIGH}
      && s.k.tasks[MIDDLE].event == OnEvent(SECOND) && s.k.tasks[HIGH].event == OnEvent(FIRST)
      && s.k.tasks[MIDDLE].priority == s.k.tasks[HIGH].priority == 3 && s.k.tasks[LOW].priority == 2
  {
    assert S13().k.tasks.Keys == {IDLE, LOW, MIDDLE, HIGH};
    assert Chain[13..] == [];
    ChainRuns();
  }

  lemma ChainRuns()
    ensures RunsTo(Start(IDLE), Chain) && Final(Start(IDLE), Chain) == S13()
  {
    hide StepsTo, RunsTo, Final, Start, S0, S1, S2, S4, S5, S7, S8, S10, S11, S12, S13;
    Step0(); Step1(); Step2(); Step3(); Step4(); Step5(); Step6(); Step7();
    Step8(); Step9(); Step10(); Step11(); Step12(); Step13();
    var states := [S0(), S1(), S2(0), S2(1), S4(), S5(0), S5(1), S7(), S8(MIDDLE), S8(LOW),
                   S10(), S11(), S12(), S13()];
    RunsThrough(states, Chain);
  }
}
