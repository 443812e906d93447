/** Mutexes on top of the scheduler: queue.c's takes, waits and gives with the priority
    inheritance of tasks.c, over whole runs. */
module PriorityInheritance {
  import opened Ticks
  import opened ReadyBits
  import opened ListSpec
  import opened KernelSpec
  import opened KernelInvariant
  import opened KernelRuns
  import opened KernelRanks

  type MutexId = nat

  /** Some task of this priority waits, or waited, for the mutex its present holder took. */
  datatype Claim = Claim(mutex: MutexId, priority: Priority)

  /** holder is pxMutexHolder of the mutexes that are taken. The last two fields only record
      history: the claims on each taken mutex, and the claims made on each task since it last
      held no mutex. */
  datatype System = System(k: Kernel, holder: map<MutexId, TaskId>, claims: set<Claim>,
    lent: map<TaskId, set<Priority>>)

  datatype MutexStep =
    | Take(m: MutexId)
    | InheritFor(m: MutexId)
    | Give(m: MutexId)
    | Other(step: Step)

  /** A mutex is taken when it is free, claimed when it is not, and given by its holder. */
  predicate Allowed(s: System, step: MutexStep) {
    match step
    case Take(m) => m !in s.holder && s.k.running in s.k.tasks
    case InheritFor(m) => m in s.holder && s.k.running in s.k.tasks
    case Give(m) => m in s.holder && s.holder[m] == s.k.running && s.k.running in s.k.tasks
    case Other(step) => Neutral(step) && Enabled(s.k, step)
  }

  function LentTo(lent: map<TaskId, set<Priority>>, t: TaskId): set<Priority> {
    if t in lent then lent[t] else {}
  }

  function Run1(s: System, step: MutexStep): System
    requires Allowed(s, step)
  {
    match step
    case Take(m) => s.(k := IncrementMutexHeld(s.k), holder := s.holder[m := s.k.running])
    case InheritFor(m) =>
      var p := s.k.tasks[s.k.running].priority;
      s.(k := InheritPriority(s.k, s.holder[m]), claims := s.claims + {Claim(m, p)},
         lent := s.lent[s.holder[m] := LentTo(s.lent, s.holder[m]) + {p}])
    case Give(m) =>
      s.(k := DisinheritPriority(s.k), holder := s.holder - {m},
         claims := (set c | c in s.claims && c.mutex != m),
         lent := if MutexGiven(s.k).mutexesHeld == 0 then s.lent[s.k.running := {}] else s.lent)
    case Other(step) => s.(k := Apply(s.k, step))
  }

  ghost predicate RunsTo(s: System, steps: seq<MutexStep>)
    decreases |steps|
  {
    steps == [] || (Allowed(s, steps[0]) && RunsTo(Run1(s, steps[0]), steps[1..]))
  }

  function Final(s: System, steps: seq<MutexStep>): System
    requires RunsTo(s, steps)
    decreases |steps|
  {
    if steps == [] then s else Final(Run1(s, steps[0]), steps[1..])
  }

  function Start(idle: TaskId): System {
    System(InitialKernel(idle), map[], {}, map[])
  }

  // ----- the invariant

  function HeldBy(holder: map<MutexId, TaskId>, t: TaskId): set<MutexId> {
    set m | m in holder && holder[m] == t
  }

  /** uxMutexesHeld counts the mutexes that name the task as their holder. */
  ghost predicate CountsExact(tasks: map<TaskId, Tcb>, holder: map<MutexId, TaskId>) {
    && (forall t :: t in tasks ==> tasks[t].mutexesHeld == |HeldBy(holder, t)|)
    && (forall m :: m in holder ==> holder[m] in tasks)
  }

  /** A task's priority is the highest of its own and those lent to it. */
  predicate HighestOf(p: Priority, base: Priority, lent: set<Priority>) {
    p >= base && (forall q :: q in lent ==> q <= p) && (p == base || p in lent)
  }

  ghost predicate PrioritiesExact(tasks: map<TaskId, Tcb>, lent: map<TaskId, set<Priority>>) {
    && (forall t :: t in tasks ==> HighestOf(tasks[t].priority, tasks[t].basePriority, LentTo(lent, t)))
    && (forall t :: t in tasks && tasks[t].mutexesHeld == 0 ==> LentTo(lent, t) == {})
    && (forall t :: t in lent ==> t in tasks)
  }

  ghost predicate ClaimsExact(s: System) {
    forall c :: c in s.claims ==> c.mutex in s.holder && c.priority in LentTo(s.lent, s.holder[c.mutex])
  }

  predicate OwnedBy(tasks: map<TaskId, Tcb>, u: TaskId, p: Priority) {
    u in tasks && tasks[u].basePriority == p
  }

  /** No priority comes out of thin air. */
  ghost predicate PrioritiesOwned(tasks: map<TaskId, Tcb>) {
    forall t :: PriorityOwned(tasks, t)
  }

  ghost predicate PriorityOwned(tasks: map<TaskId, Tcb>, t: TaskId) {
    t in tasks ==> exists u :: OwnedBy(tasks, u, tasks[t].priority)
  }

  ghost predicate Inheritance(s: System) {
    && CountsExact(s.k.tasks, s.holder) && PrioritiesExact(s.k.tasks, s.lent)
    && ClaimsExact(s) && PrioritiesOwned(s.k.tasks)
  }

  lemma StartInheritance(idle: TaskId)
    ensures Inheritance(Start(idle)) && Invariant(Start(idle).k)
  {
    InitialInvariant(idle);
    assert OwnedBy(Start(idle).k.tasks, idle, 0);
    assert HeldBy(map[], idle) == {};
    hide Invariant;
  }

  // ----- what each step does to the ranks

  predicate RankIs(task: Tcb, p: Priority, base: Priority, held: nat) {
    task.priority == p && task.basePriority == base && task.mutexesHeld == held
  }

  /** Only the rank of t changed, and to this. */
  ghost predicate Reranked(tasks: map<TaskId, Tcb>, tasks': map<TaskId, Tcb>, t: TaskId, p: Priority, held: nat) {
    && t in tasks && tasks'.Keys == tasks.Keys && (forall u :: u in tasks && u != t ==> tasks'[u] == tasks[u])
    && RankIs(tasks'[t], p, tasks[t].basePriority, held)
  }

  lemma InheritRanks(k: Kernel, h: TaskId)
    requires h in k.tasks && k.running in k.tasks
    ensures var p, q := k.tasks[h].priority, k.tasks[k.running].priority;
      Reranked(k.tasks, InheritPriority(k, h).tasks, h, if p < q then q else p, k.tasks[h].mutexesHeld)
  {
    var p := k.tasks[k.running].priority;
    var k1 := k.(tasks := k.tasks[h := WithEventValueFor(TaskOf(k, h), p)]);
    ChangePriorityFrame(k1, h, p);
    hide ChangePriority;
  }

  lemma GiveRanks(k: Kernel)
    requires k.running in k.tasks && k.tasks[k.running].mutexesHeld > 0
    ensures var t := k.running;
      Reranked(k.tasks, DisinheritPriority(k).tasks, t,
               if k.tasks[t].mutexesHeld == 1 then k.tasks[t].basePriority
                 else k.tasks[t].priority, k.tasks[t].mutexesHeld - 1)
  {
    hide ChangePriority;
    var t, task := k.running, MutexGiven(k);
    var k1 := k.(tasks := k.tasks[t := task.(eventValue := MAX_PRIORITIES - task.basePriority)]);
    ChangePriorityFrame(k1, t, task.basePriority);
  }

  lemma OwnerStays(tasks: map<TaskId, Tcb>, tasks': map<TaskId, Tcb>, u: TaskId, p: Priority)
    requires OwnedBy(tasks, u, p)
    requires u in tasks' && tasks'[u].basePriority == tasks[u].basePriority
    ensures OwnedBy(tasks', u, p)
  {
  }

  lemma HasOwner(tasks: map<TaskId, Tcb>, t: TaskId) returns (u: TaskId)
    requires PrioritiesOwned(tasks) && t in tasks
    ensures OwnedBy(tasks, u, tasks[t].priority)
  {
    hide OwnedBy;
    assert PriorityOwned(tasks, t);
    u :| OwnedBy(tasks, u, tasks[t].priority);
  }

  lemma OwnedStays(tasks: map<TaskId, Tcb>, tasks': map<TaskId, Tcb>, t: TaskId, p: Priority, held: nat, owner: TaskId)
    requires PrioritiesOwned(tasks) && Reranked(tasks, tasks', t, p, held) && OwnedBy(tasks, owner, p)
    ensures PrioritiesOwned(tasks')
  {
    forall u ensures PriorityOwned(tasks', u) {
      if u == t {
        OwnerStays(tasks, tasks', owner, p);
      } else if u in tasks {
        var v := HasOwner(tasks, u);
        OwnerStays(tasks, tasks', v, tasks[u].priority);
      }
    }
  }

  lemma HeldChanges(holder: map<MutexId, TaskId>, m: MutexId, t: TaskId)
    ensures forall u :: u != t && (m !in holder || holder[m] == t) ==>
        HeldBy(holder[m := t], u) == HeldBy(holder, u) && HeldBy(holder - {m}, u) == HeldBy(holder, u)
    ensures HeldBy(holder[m := t], t) == HeldBy(holder, t) + {m}
    ensures HeldBy(holder - {m}, t) == HeldBy(holder, t) - {m}
  {
  }

  // ----- every step keeps the invariant

  lemma CountsReranked(tasks: map<TaskId, Tcb>, tasks': map<TaskId, Tcb>, holder: map<MutexId, TaskId>,
                       holder': map<MutexId, TaskId>,
                       t: TaskId, p: Priority, held: nat)
    requires CountsExact(tasks, holder) && Reranked(tasks, tasks', t, p, held) && held == |HeldBy(holder', t)|
    requires forall u :: u != t ==> HeldBy(holder', u) == HeldBy(holder, u)
    requires forall m :: m in holder' ==> holder'[m] in tasks
    ensures CountsExact(tasks', holder')
  {
    hide HeldBy;
  }

  lemma PrioritiesReranked(tasks: map<TaskId, Tcb>, tasks': map<TaskId, Tcb>, lent: map<TaskId, set<Priority>>,
                           t: TaskId, p: Priority, held: nat, newly: set<Priority>)
    requires PrioritiesExact(tasks, lent) && Reranked(tasks, tasks', t, p, held)
    requires HighestOf(p, tasks[t].basePriority, newly) && (held == 0 ==> newly == {})
    ensures PrioritiesExact(tasks', lent[t := newly])
  {
    hide HighestOf;
    assert forall u :: LentTo(lent[t := newly], u) == if u == t then newly else LentTo(lent, u);
  }

  lemma TakeKeeps(s: System, tasks: map<TaskId, Tcb>, m: MutexId, t: TaskId)
    requires Inheritance(s) && m !in s.holder && t in s.k.tasks
    requires Reranked(s.k.tasks, tasks, t, s.k.tasks[t].priority, s.k.tasks[t].mutexesHeld + 1)
    ensures CountsExact(tasks, s.holder[m := t]) && PrioritiesExact(tasks, s.lent) && PrioritiesOwned(tasks)
    ensures ClaimsExact(s.(holder := s.holder[m := t]))
  {
    hide PrioritiesOwned, HeldBy, OwnedBy;
    HeldChanges(s.holder, m, t);
    var u := HasOwner(s.k.tasks, t);
    OwnedStays(s.k.tasks, tasks, t, s.k.tasks[t].priority, s.k.tasks[t].mutexesHeld + 1, u);
    NotHeld(s.holder, m, t);
  }

  lemma NotHeld(holder: map<MutexId, TaskId>, m: MutexId, t: TaskId)
    ensures m in HeldBy(holder, t) <==> m in holder && holder[m] == t
  {
  }

  lemma InheritKeeps(s: System, tasks: map<TaskId, Tcb>, m: MutexId, h: TaskId, q: Priority, u: TaskId)
    requires Inheritance(s) && m in s.holder && h == s.holder[m] && h in s.k.tasks && OwnedBy(s.k.tasks, u, q)
    requires Reranked(s.k.tasks, tasks, h, if s.k.tasks[h].priority < q then q else s.k.tasks[h].priority,
      s.k.tasks[h].mutexesHeld)
    ensures CountsExact(tasks, s.holder) && PrioritiesOwned(tasks)
    ensures var lent := s.lent[h := LentTo(s.lent, h) + {q}];
      PrioritiesExact(tasks, lent) && ClaimsExact(s.(lent := lent, claims := s.claims + {Claim(m, q)}))
  {
    hide PrioritiesOwned, HeldBy, OwnedBy, PrioritiesExact, CountsExact, ClaimsExact, Reranked, LentTo;
    HoldersKnown(s.k.tasks, s.holder);
    InheritClaims(s, m, h, q);
    var p, held := if s.k.tasks[h].priority < q then q else s.k.tasks[h].priority, s.k.tasks[h].mutexesHeld;
    NotHeld(s.holder, m, h);
    HeldCount(s.k.tasks, s.holder, h);
    CountsReranked(s.k.tasks, tasks, s.holder, s.holder, h, p, held);
    LentMore(s.k.tasks, s.lent, h, q);
    PrioritiesReranked(s.k.tasks, tasks, s.lent, h, p, held, LentTo(s.lent, h) + {q});
    var v := HasOwner(s.k.tasks, h);
    OwnedStays(s.k.tasks, tasks, h, p, held, if s.k.tasks[h].priority < q then u else v);
  }

  lemma HoldersKnown(tasks: map<TaskId, Tcb>, holder: map<MutexId, TaskId>)
    requires CountsExact(tasks, holder)
    ensures forall n :: n in holder ==> holder[n] in tasks
  {
  }

  lemma HeldCount(tasks: map<TaskId, Tcb>, holder: map<MutexId, TaskId>, t: TaskId)
    requires CountsExact(tasks, holder) && t in tasks
    ensures tasks[t].mutexesHeld == |HeldBy(holder, t)|
  {
  }

  lemma LentMore(tasks: map<TaskId, Tcb>, lent: map<TaskId, set<Priority>>, h: TaskId, q: Priority)
    requires PrioritiesExact(tasks, lent) && h in tasks
    ensures HighestOf(if tasks[h].priority < q then q else tasks[h].priority, tasks[h].basePriority,
      LentTo(lent, h) + {q})
    ensures tasks[h].mutexesHeld == 0 ==> LentTo(lent, h) == {}
    ensures HighestOf(tasks[h].priority, tasks[h].basePriority, LentTo(lent, h))
  {
  }

  lemma InheritClaims(s: System, m: MutexId, h: TaskId, q: Priority)
    requires ClaimsExact(s) && m in s.holder && h == s.holder[m]
    ensures ClaimsExact(s.(lent := s.lent[h := LentTo(s.lent, h) + {q}], claims := s.claims + {Claim(m, q)}))
  {
  }

  lemma GiveKeeps(s: System, tasks: map<TaskId, Tcb>, m: MutexId, t: TaskId, lent: map<TaskId, set<Priority>>)
    requires Inheritance(s) && m in s.holder && s.holder[m] == t && t in s.k.tasks && s.k.tasks[t].mutexesHeld > 0
    requires Reranked(s.k.tasks, tasks, t,
                      if s.k.tasks[t].mutexesHeld == 1 then s.k.tasks[t].basePriority else s.k.tasks[t].priority,
                      s.k.tasks[t].mutexesHeld - 1)
    requires lent == if s.k.tasks[t].mutexesHeld == 1 then s.lent[t := {}] else s.lent
    ensures CountsExact(tasks, s.holder - {m}) && PrioritiesOwned(tasks) && PrioritiesExact(tasks, lent)
    ensures ClaimsExact(s.(holder := s.holder - {m}, lent := lent, claims := set c | c in s.claims && c.mutex != m))
  {
    hide PrioritiesOwned, HeldBy, OwnedBy, PrioritiesExact, CountsExact, ClaimsExact, Reranked, LentTo;
    HoldersKnown(s.k.tasks, s.holder);
    NotHeld(s.holder, m, t);
    HeldCount(s.k.tasks, s.holder, t);
    LentMore(s.k.tasks, s.lent, t, 0);
    if s.k.tasks[t].mutexesHeld == 1 { LastMutex(s.holder, m, t); }
    GiveClaims(s, m, t, lent);
    var p, held := if s.k.tasks[t].mutexesHeld == 1 then s.k.tasks[t].basePriority
      else s.k.tasks[t].priority, s.k.tasks[t].mutexesHeld - 1;
    HeldChanges(s.holder, m, t);
    CountsReranked(s.k.tasks, tasks, s.holder, s.holder - {m}, t, p, held);
    PrioritiesGiven(s.k.tasks, tasks, s.lent, lent, t, p, held);
    OwnBase(s.k.tasks, t);
    var u := HasOwner(s.k.tasks, t);
    OwnedStays(s.k.tasks, tasks, t, p, held, if s.k.tasks[t].mutexesHeld == 1 then t else u);
  }

  lemma PrioritiesGiven(tasks: map<TaskId, Tcb>, tasks': map<TaskId, Tcb>, lent: map<TaskId, set<Priority>>,
                        lent': map<TaskId, set<Priority>>, t: TaskId, p: Priority, held: nat)
    requires PrioritiesExact(tasks, lent) && Reranked(tasks, tasks', t, p, held)
    requires if held == 0 then p == tasks[t].basePriority && lent' == lent[t := {}]
             else p == tasks[t].priority && lent' == lent
    requires held + 1 == tasks[t].mutexesHeld
    ensures PrioritiesExact(tasks', lent')
  {
    if held == 0 { PrioritiesReranked(tasks, tasks', lent, t, p, held, {}); }
  }

  lemma GiveClaims(s: System, m: MutexId, t: TaskId, lent: map<TaskId, set<Priority>>)
    requires ClaimsExact(s) && m in s.holder
    requires lent == s.lent || (lent == s.lent[t := {}] && forall n :: n in s.holder && n != m ==> s.holder[n] != t)
    ensures ClaimsExact(s.(holder := s.holder - {m}, lent := lent, claims := set c | c in s.claims && c.mutex != m))
  {
    var s' := s.(holder := s.holder - {m}, lent := lent, claims := set c | c in s.claims && c.mutex != m);
    forall c | c in s'.claims ensures c.mutex in s'.holder && c.priority in LentTo(lent, s'.holder[c.mutex]) {
      assert c in s.claims;
    }
  }

  lemma OwnBase(tasks: map<TaskId, Tcb>, t: TaskId)
    requires t in tasks
    ensures OwnedBy(tasks, t, tasks[t].basePriority)
  {
  }

  lemma LastMutex(holder: map<MutexId, TaskId>, m: MutexId, t: TaskId)
    requires m in HeldBy(holder, t) && |HeldBy(holder, t)| == 1
    ensures forall n :: n in holder && n != m ==> holder[n] != t
  {
    var rest := HeldBy(holder, t) - {m};
    assert |rest| == 0;
    assert forall n :: n in holder && n != m && holder[n] == t ==> n in rest;
  }

  lemma OtherKeeps(s: System, k': Kernel)
    requires Inheritance(s) && SameRanks(s.k, k')
    ensures Inheritance(s.(k := k'))
  {
    hide OwnedBy;
    forall t | t in k'.tasks && t !in s.k.tasks ensures HeldBy(s.holder, t) == {} {}
    forall t ensures PriorityOwned(k'.tasks, t) {
      if t in s.k.tasks {
        var u := HasOwner(s.k.tasks, t);
        OwnerKnown(s.k.tasks, u, s.k.tasks[t].priority);
        OwnerStays(s.k.tasks, k'.tasks, u, s.k.tasks[t].priority);
      } else if t in k'.tasks {
        OwnBase(k'.tasks, t);
      }
    }
  }

  lemma OwnerKnown(tasks: map<TaskId, Tcb>, u: TaskId, p: Priority)
    requires OwnedBy(tasks, u, p)
    ensures u in tasks
  {
  }

  lemma StepKeeps(s: System, step: MutexStep)
    requires Inheritance(s) && Invariant(s.k) && Allowed(s, step)
    ensures Inheritance(Run1(s, step)) && Invariant(Run1(s, step).k)
  {
    hide PrioritiesOwned, PrioritiesExact, CountsExact, HeldBy, Invariant, Reranked, SameRanks, InheritPriority,
      DisinheritPriority, IncrementMutexHeld, Apply, Enabled, Neutral;
    StepKeepsKernel(s, step);
    var t := s.k.running;
    HoldersKnown(s.k.tasks, s.holder);
    match step
    case Take(m) =>
      TakeRanks(s.k);
      TakeKeeps(s, IncrementMutexHeld(s.k).tasks, m, t);
    case InheritFor(m) =>
      InheritRanks(s.k, s.holder[m]);
      var u := HasOwner(s.k.tasks, t);
      InheritKeeps(s, InheritPriority(s.k, s.holder[m]).tasks, m, s.holder[m], s.k.tasks[t].priority, u);
    case Give(m) =>
      HolderCounts(s, m, t);
      GiveRanks(s.k);
      GiveKeeps(s, DisinheritPriority(s.k).tasks, m, t, Run1(s, step).lent);
    case Other(step) =>
      InvariantHasStructure(s.k);
      NeutralRanks(s.k, step);
      OtherKeeps(s, Apply(s.k, step));
  }

  lemma InvariantHasStructure(k: Kernel)
    requires Invariant(k)
    ensures Structure(k)
  {
  }

  lemma TakeRanks(k: Kernel)
    requires k.running in k.tasks
    ensures Reranked(k.tasks, IncrementMutexHeld(k).tasks, k.running, k.tasks[k.running].priority,
      k.tasks[k.running].mutexesHeld + 1)
  {
  }

  lemma HolderCounts(s: System, m: MutexId, t: TaskId)
    requires CountsExact(s.k.tasks, s.holder) && m in s.holder && s.holder[m] == t && t in s.k.tasks
    ensures s.k.tasks[t].mutexesHeld > 0
  {
    assert m in HeldBy(s.holder, t);
  }

  lemma StepKeepsKernel(s: System, step: MutexStep)
    requires Inheritance(s) && Invariant(s.k) && Allowed(s, step)
    ensures Invariant(Run1(s, step).k)
  {
    hide Invariant, PrioritiesExact, PrioritiesOwned, HeldBy, CountsExact, InheritPriority, DisinheritPriority,
      IncrementMutexHeld, Apply, Enabled, Neutral;
    HoldersKnown(s.k.tasks, s.holder);
    match step
    case Take(m) =>
      MutexSteps(s.k, s.k.running);
      StepKeepsInvariant(s.k, TakeMutex);
    case InheritFor(m) =>
      MutexSteps(s.k, s.holder[m]);
      StepKeepsInvariant(s.k, Inherit(s.holder[m]));
    case Give(m) =>
      HolderCounts(s, m, s.k.running);
      MutexSteps(s.k, s.k.running);
      StepKeepsInvariant(s.k, GiveMutex);
    case Other(step) => StepKeepsInvariant(s.k, step);
  }

  lemma MutexSteps(k: Kernel, h: TaskId)
    requires h in k.tasks
    ensures Enabled(k, TakeMutex) && Apply(k, TakeMutex) == IncrementMutexHeld(k)
    ensures Enabled(k, Inherit(h)) && Apply(k, Inherit(h)) == InheritPriority(k, h)
    ensures TaskOf(k, k.running).mutexesHeld > 0 ==>
      Enabled(k, GiveMutex) && Apply(k, GiveMutex) == DisinheritPriority(k)
  {
    hide InheritPriority, DisinheritPriority, IncrementMutexHeld;
  }

  lemma {:induction false} RunKeeps(s: System, steps: seq<MutexStep>)
    requires Inheritance(s) && Invariant(s.k) && RunsTo(s, steps)
    ensures Inheritance(Final(s, steps)) && Invariant(Final(s, steps).k)
    decreases |steps|
  {
    hide Inheritance, Invariant, Run1, Allowed;
    if steps != [] {
      StepKeeps(s, steps[0]);
      RunKeeps(Run1(s, steps[0]), steps[1..]);
    }
  }

  // ----- the main results

  /** Over every run: uxMutexesHeld is the number of mutexes naming the task as holder; the
      priority of a task is exactly the highest of its base priority and the priorities lent to
      it since it last held no mutex, so never below its base and equal to it when it holds
      none; and every priority is the base priority of some task. */
  lemma InheritanceAlways(idle: TaskId, steps: seq<MutexStep>, t: TaskId)
    requires RunsTo(Start(idle), steps) && t in Final(Start(idle), steps).k.tasks
    ensures var s := Final(Start(idle), steps);
      var task := s.k.tasks[t];
      && task.mutexesHeld == |HeldBy(s.holder, t)|
      && HighestOf(task.priority, task.basePriority, LentTo(s.lent, t))
      && (HeldBy(s.holder, t) == {} ==> task.priority == task.basePriority)
      && exists u :: u in s.k.tasks && s.k.tasks[u].basePriority == task.priority
  {
    StartInheritance(idle);
    hide Invariant;
    RunKeeps(Start(idle), steps);
    var s := Final(Start(idle), steps);
    hide PrioritiesOwned;
    var u := HasOwner(s.k.tasks, t);
    assert u in s.k.tasks;
  }

  /** The claim recorded for a mutex stays, with the same holder, until the mutex is given. */
  lemma {:induction false} ClaimStays(s: System, steps: seq<MutexStep>, c: Claim)
    requires RunsTo(s, steps) && c in s.claims && c.mutex in s.holder && Give(c.mutex) !in steps
    ensures var s' := Final(s, steps);
      c in s'.claims && c.mutex in s'.holder && s'.holder[c.mutex] == s.holder[c.mutex]
    decreases |steps|
  {
    if steps != [] {
      assert steps[0] in steps && forall step :: step in steps[1..] ==> step in steps;
      var s1 := Run1(s, steps[0]);
      assert c in s1.claims && c.mutex in s1.holder && s1.holder[c.mutex] == s.holder[c.mutex] by {
        hide InheritPriority, DisinheritPriority, IncrementMutexHeld, Apply;
      }
      hide Run1, Allowed;
      ClaimStays(s1, steps[1..], c);
    }
  }

  /** From the moment a task of priority p has found a mutex taken, until the holder gives that
      mutex, the holder's priority is at least p: whatever else happens, in any order. */
  lemma InheritedUntilGiven(idle: TaskId, before: seq<MutexStep>, m: MutexId, after: seq<MutexStep>)
    requires RunsTo(Start(idle), before) && Allowed(Final(Start(idle), before), InheritFor(m))
    requires RunsTo(Run1(Final(Start(idle), before), InheritFor(m)), after) && Give(m) !in after
    ensures var s := Final(Start(idle), before);
      var s' := Final(Run1(s, InheritFor(m)), after);
      && m in s'.holder && s'.holder[m] == s.holder[m] && s'.holder[m] in s'.k.tasks
      && s'.k.tasks[s'.holder[m]].priority >= s.k.tasks[s.k.running].priority
  {
    StartInheritance(idle);
    var s := Final(Start(idle), before);
    var c := Claim(m, s.k.tasks[s.k.running].priority);
    assert c in Run1(s, InheritFor(m)).claims;
    assert m in Run1(s, InheritFor(m)).holder && Run1(s, InheritFor(m)).holder[m] == s.holder[m];
    hide Inheritance, Invariant, Run1, InheritPriority;
    RunKeeps(Start(idle), before);
    StepKeeps(s, InheritFor(m));
    RunKeeps(Run1(s, InheritFor(m)), after);
    ClaimStays(Run1(s, InheritFor(m)), after, c);
    ClaimHonoured(Final(Run1(s, InheritFor(m)), after), c);
  }

  lemma ClaimHonoured(s: System, c: Claim)
    requires Inheritance(s) && c in s.claims
    ensures c.mutex in s.holder && s.holder[c.mutex] in s.k.tasks && s.k.tasks[s.holder[c.mutex]].priority >= c.priority
  {
    hide PrioritiesOwned, HeldBy;
  }

  // ----- chains of mutexes

  /** Inheritance is one level deep: a claim on m reaches the holder of another mutex exactly
      when that is the same task, or already as high. */
  lemma InheritanceIsOneLevel(s: System, m: MutexId, second: MutexId)
    requires Inheritance(s) && Allowed(s, InheritFor(m)) && second in s.holder
    ensures var k', p := Run1(s, InheritFor(m)).k, s.k.tasks[s.k.running].priority;
      && s.holder[second] in k'.tasks
      && (k'.tasks[s.holder[second]].priority >= p <==>
            s.holder[second] == s.holder[m] || s.k.tasks[s.holder[second]].priority >= p)
  {
    hide PrioritiesOwned, PrioritiesExact, HeldBy, InheritPriority;
    InheritRanks(s.k, s.holder[m]);
  }

  /** Over every run: a task is raised to p exactly when its own priority is that high or some
      task, itself that high at the time, claimed one of its mutexes since it last held none. */
  lemma ReachedIffClaimed(idle: TaskId, steps: seq<MutexStep>, t: TaskId, p: Priority)
    requires RunsTo(Start(idle), steps) && t in Final(Start(idle), steps).k.tasks
    ensures var s := Final(Start(idle), steps);
      s.k.tasks[t].priority >= p <==> s.k.tasks[t].basePriority >= p || exists q :: q in LentTo(s.lent, t) && q >= p
  {
    StartInheritance(idle);
    hide Invariant;
    RunKeeps(Start(idle), steps);
    var s := Final(Start(idle), steps);
    hide PrioritiesOwned, CountsExact, ClaimsExact, RunsTo, Final;
    assert HighestOf(s.k.tasks[t].priority, s.k.tasks[t].basePriority, LentTo(s.lent, t));
  }

  /** When the chain is followed from its high end, p reaches the other: the holder of m, having
      been claimed from by a task of priority p, hands p on when it then claims `second`
      itself. */
  lemma LaterClaimCarries(idle: TaskId, before: seq<MutexStep>, m: MutexId, between: seq<MutexStep>, second: MutexId,
                          after: seq<MutexStep>)
    requires RunsTo(Start(idle), before) && Allowed(Final(Start(idle), before), InheritFor(m))
    requires RunsTo(Run1(Final(Start(idle), before), InheritFor(m)), between) && Give(m) !in between
    requires var s2 := Final(Run1(Final(Start(idle), before), InheritFor(m)), between);
      && Allowed(s2, InheritFor(second)) && m in s2.holder && s2.k.running == s2.holder[m]
      && RunsTo(Run1(s2, InheritFor(second)), after) && Give(second) !in after
    ensures var s := Final(Start(idle), before);
      var s' := Final(Run1(Final(Run1(s, InheritFor(m)), between), InheritFor(second)), after);
      && second in s'.holder && s'.holder[second] in s'.k.tasks
      && s'.k.tasks[s'.holder[second]].priority >= s.k.tasks[s.k.running].priority
  {
    var s := Final(Start(idle), before);
    hide Run1, Allowed, Final, RunsTo, Inheritance;
    InheritedUntilGiven(idle, before, m, between);
    var prefix := before + [InheritFor(m)] + between;
    RunsOn(Start(idle), before, InheritFor(m), between);
    InheritedUntilGiven(idle, prefix, second, after);
  }

  lemma {:induction false} RunsOn(s: System, before: seq<MutexStep>, step: MutexStep, after: seq<MutexStep>)
    requires RunsTo(s, before) && Allowed(Final(s, before), step) && RunsTo(Run1(Final(s, before), step), after)
    ensures RunsTo(s, before + [step] + after)
    ensures Final(s, before + [step] + after) == Final(Run1(Final(s, before), step), after)
    decreases |before|
  {
    hide Run1, Allowed;
    var steps := before + [step] + after;
    if before == [] {
      assert steps == [step] + after && steps[1..] == after;
    } else {
      assert steps[0] == before[0] && steps[1..] == before[1..] + [step] + after;
      RunsOn(Run1(s, before[0]), before[1..], step, after);
    }
  }

  /** At some point of the run the task has at least this priority. */
  ghost predicate Reaches(s: System, steps: seq<MutexStep>, t: TaskId, p: Priority)
    requires RunsTo(s, steps)
    decreases |steps|
  {
    (t in s.k.tasks && s.k.tasks[t].priority >= p) || (steps != [] && Reaches(Run1(s, steps[0]), steps[1..], t, p))
  }

  /** A task of at least this priority finds a mutex taken that t holds. */
  predicate ClaimsFrom(s: System, step: MutexStep, t: TaskId, p: Priority)
    requires Allowed(s, step)
  {
    step.InheritFor? && s.holder[step.m] == t && s.k.tasks[s.k.running].priority >= p
  }

  ghost predicate SomeClaim(s: System, steps: seq<MutexStep>, t: TaskId, p: Priority)
    requires RunsTo(s, steps)
    decreases |steps|
  {
    steps != [] && (ClaimsFrom(s, steps[0], t, p) || SomeClaim(Run1(s, steps[0]), steps[1..], t, p))
  }

  lemma OneStepRaisesIff(s: System, step: MutexStep, t: TaskId, p: Priority)
    requires Inheritance(s) && Invariant(s.k) && Allowed(s, step)
    requires t in s.k.tasks && s.k.tasks[t].priority < p
    ensures var k' := Run1(s, step).k; t in k'.tasks && (k'.tasks[t].priority >= p <==> ClaimsFrom(s, step, t, p))
  {
    hide PrioritiesOwned, HeldBy, Invariant, InheritPriority, DisinheritPriority, IncrementMutexHeld, Apply, Enabled,
      Neutral;
    match step
    case Take(m) => TakeRanks(s.k);
    case InheritFor(m) => InheritRanks(s.k, s.holder[m]);
    case Give(m) =>
      HolderCounts(s, m, s.k.running);
      GiveRanks(s.k);
      assert HighestOf(s.k.tasks[t].priority, s.k.tasks[t].basePriority, LentTo(s.lent, t));
    case Other(step) =>
      InvariantHasStructure(s.k);
      NeutralRanks(s.k, step);
  }

  lemma {:induction false} ReachesIffClaimed(s: System, steps: seq<MutexStep>, t: TaskId, p: Priority)
    requires Inheritance(s) && Invariant(s.k) && RunsTo(s, steps)
    requires t in s.k.tasks && s.k.tasks[t].priority < p
    ensures Reaches(s, steps, t, p) <==> SomeClaim(s, steps, t, p)
    decreases |steps|
  {
    hide Run1, Inheritance, Invariant, Allowed, ClaimsFrom;
    if steps != [] {
      var s1 := Run1(s, steps[0]);
      StepKeeps(s, steps[0]);
      OneStepRaisesIff(s, steps[0], t, p);
      if s1.k.tasks[t].priority < p { ReachesIffClaimed(s1, steps[1..], t, p); }
    }
  }

  /** The order of the claims decides: when a task of priority p claims m, whose holder waits for
      `second` already, the holder of `second` is raised to p in what follows exactly when
      another claim that high is made on it later. */
  lemma EarlierClaimFallsShort(s: System, m: MutexId, second: MutexId, after: seq<MutexStep>)
    requires Inheritance(s) && Invariant(s.k) && Allowed(s, InheritFor(m)) && second in s.holder
    requires RunsTo(Run1(s, InheritFor(m)), after)
    ensures var p, h := s.k.tasks[s.k.running].priority, s.holder[second];
      Reaches(Run1(s, InheritFor(m)), after, h, p) <==>
        h == s.holder[m] || s.k.tasks[h].priority >= p || SomeClaim(Run1(s, InheritFor(m)), after, h, p)
  {
    var p, h := s.k.tasks[s.k.running].priority, s.holder[second];
    InheritanceIsOneLevel(s, m, second);
    StepKeeps(s, InheritFor(m));
    hide Run1, Inheritance, Invariant, SomeClaim;
    if h != s.holder[m] && s.k.tasks[h].priority < p {
      ReachesIffClaimed(Run1(s, InheritFor(m)), after, h, p);
    }
  }
}
