/** Whole runs of an event group: stability and the rendezvous. */
module EventGroupRuns {
  import opened EventBits
  import opened EventGroups

  /** One call made with the scheduler suspended, or one critical section. Bits set from an interrupt
      are set by the daemon task. */
  datatype Step =
    | Set(bits: Bits)
    | Clear(bits: Bits)
    | Wait(t: TaskId, waitedFor: Bits, clear: bool, all: bool, mayBlock: bool)
    | Synchronise(t: TaskId, bits: Bits, waitedFor: Bits, mayBlock: bool)
    | Expire(t: TaskId)
    | Resume(t: TaskId)

  /** t is running: it is not in the middle of a wait. */
  predicate Running(g: Group, t: TaskId) {
    t !in g.woken && PositionOf(g.waiting, t) == |g.waiting|
  }

  /** The configASSERTs on the arguments, and only a running task calls. */
  predicate Enabled(g: Group, step: Step) {
    match step
    case Set(bits) => Application(bits)
    case Clear(bits) => Application(bits)
    case Wait(t, waitedFor, _, _, _) => Running(g, t) && Application(waitedFor) && waitedFor != {}
    case Synchronise(t, bits, waitedFor, _) => Running(g, t) && Application(bits) && Application(waitedFor) &&
      waitedFor != {}
    case Expire(t) => !Running(g, t) && t !in g.woken
    case Resume(t) => t in g.woken
  }

  function Apply(g: Group, step: Step): Group
    requires Enabled(g, step)
  {
    match step
    case Set(bits) => SetBits(g, bits)
    case Clear(bits) => ClearBits(g, bits)
    case Wait(t, waitedFor, clear, all, mayBlock) => WaitBits(g, t, waitedFor, clear, all, mayBlock)
    case Synchronise(t, bits, waitedFor, mayBlock) => Sync(g, t, bits, waitedFor, mayBlock)
    case Expire(t) => TimeOut(g, t)
    case Resume(t) => Finish(g, t)
  }

  ghost predicate Runs(g: Group, steps: seq<Step>)
    decreases |steps|
  {
    steps == [] || (Enabled(g, steps[0]) && Runs(Apply(g, steps[0]), steps[1..]))
  }

  function After(g: Group, steps: seq<Step>): Group
    requires Runs(g, steps)
    decreases |steps|
  {
    if steps == [] then g else After(Apply(g, steps[0]), steps[1..])
  }

  // ----- stability

  /** No waiter is satisfied by the bits. */
  ghost predicate Stable(g: Group) {
    forall w :: w in g.waiting ==> !Satisfied(g.bits, w)
  }

  ghost predicate WellFormed(g: Group) {
    && Application(g.bits) && DistinctTasks(g.waiting)
    && (forall w :: w in g.waiting ==> w.task !in g.woken)
  }

  lemma FewerBitsStable(g: Group, bits: Bits)
    requires Stable(g) && bits <= g.bits
    ensures Stable(g.(bits := bits))
  {
    forall w | w in g.waiting ensures !Satisfied(bits, w) {
      MetMonotone(bits, g.bits, WaitedFor(w.item), WantsAll(w.item));
    }
  }

  lemma SetBitsKeeps(g: Group, bitsToSet: Bits)
    requires WellFormed(g) && Application(bitsToSet)
    ensures WellFormed(SetBits(g, bitsToSet)) && Stable(SetBits(g, bitsToSet))
  {
    var bits, g' := g.bits + bitsToSet, SetBits(g, bitsToSet);
    ApplicationClosed(g.bits, bitsToSet);
    ApplicationClosed(bits, ToClear(bits, g.waiting));
    SetBitsExact(g, bitsToSet);
    hide ToClear, Staying, Wake, Application, DistinctTasks;
    FewerBitsStable(g'.(bits := bits), g'.bits);
    forall w | w in g'.waiting ensures w.task !in g'.woken {
      assert forall v :: v in g.waiting && v.task == w.task ==> v == w by { OnePerTask(g.waiting, w); }
    }
  }

  lemma OnePerTask(waiting: seq<Waiter>, w: Waiter)
    requires DistinctTasks(waiting) && w in waiting
    ensures forall v :: v in waiting && v.task == w.task ==> v == w
  {
  }

  lemma BlockKeeps(g: Group, t: TaskId, waitedFor: Bits, clear: bool, all: bool)
    requires WellFormed(g) && Stable(g) && Running(g, t) && Application(waitedFor) && !Met(g.bits, waitedFor, all)
    ensures WellFormed(Block(g, t, waitedFor, clear, all)) && Stable(Block(g, t, waitedFor, clear, all))
  {
    PackRoundTrip(waitedFor, clear, all);
    hide Pack, WaitedFor, WantsAll, ClearsOnExit, Application;
    var g' := Block(g, t, waitedFor, clear, all);
    assert forall w :: w in g'.waiting ==> w in g.waiting || w == Waiter(t, Pack(waitedFor, clear, all));
  }

  lemma TimeOutExact(g: Group, t: TaskId)
    requires DistinctTasks(g.waiting) && !Running(g, t) && t !in g.woken
    ensures var g' := TimeOut(g, t);
      && DistinctTasks(g'.waiting) && (forall w :: w in g'.waiting <==> w in g.waiting && w.task != t)
      && t in g'.woken && Waiter(t, g'.woken[t]) in g.waiting &&
           g' == g.(waiting := g'.waiting, woken := g.woken[t := g'.woken[t]])
  {
    var p := PositionOf(g.waiting, t);
    var r := g.waiting[..p] + g.waiting[p + 1..];
    assert forall i :: 0 <= i < |r| ==> r[i] == g.waiting[if i < p then i else i + 1];
    assert g.waiting[p] == Waiter(t, g.waiting[p].item);
    forall w | w in g.waiting && w.task != t ensures w in r {
      var i :| 0 <= i < |g.waiting| && g.waiting[i] == w;
      assert r[if i < p then i else i - 1] == w;
    }
  }

  lemma StepKeeps(g: Group, step: Step)
    requires WellFormed(g) && Stable(g) && Enabled(g, step)
    ensures WellFormed(Apply(g, step)) && Stable(Apply(g, step))
  {
    hide Satisfied, Met, Pack, DistinctTasks, SetBits;
    match step
    case Set(bits) => SetBitsKeeps(g, bits);
    case Clear(bits) =>
      ApplicationClosed(g.bits, bits);
      FewerBitsStable(g, g.bits - bits);
    case Wait(t, waitedFor, clear, all, mayBlock) =>
      ApplicationClosed(g.bits, waitedFor);
      FewerBitsStable(g, g.bits - waitedFor);
      if !Met(g.bits, waitedFor, all) { BlockKeeps(g, t, waitedFor, clear, all); }
    case Synchronise(t, bits, waitedFor, mayBlock) =>
      var g1 := SetBits(g, bits);
      SetBitsKeeps(g, bits);
      ApplicationClosed(g1.bits, waitedFor);
      FewerBitsStable(g1, g1.bits - waitedFor);
      if !Met(g.bits + bits, waitedFor, true) {
        StillRunning(g, bits, t);
        NotMetAfter(g, bits, waitedFor);
        BlockKeeps(g1, t, waitedFor, true, true);
      }
    case Expire(t) => TimeOutExact(g, t);
    case Resume(t) =>
      FinishKeeps(g, t);
  }

  lemma StillRunning(g: Group, bits: Bits, t: TaskId)
    requires WellFormed(g) && Running(g, t)
    ensures Running(SetBits(g, bits), t)
  {
    SetBitsExact(g, bits);
    hide SetBits, Satisfied, DistinctTasks, Application;
    var r := SetBits(g, bits);
    assert forall w :: w in g.waiting ==> w.task != t;
    assert forall i :: 0 <= i < |r.waiting| ==> r.waiting[i] in r.waiting;
  }

  lemma NotMetAfter(g: Group, bits: Bits, waitedFor: Bits)
    requires !Met(g.bits + bits, waitedFor, true)
    ensures !Met(SetBits(g, bits).bits, waitedFor, true)
  {
    hide ToClear, Staying, Wake;
    MetMonotone(SetBits(g, bits).bits, g.bits + bits, waitedFor, true);
  }

  lemma FinishKeeps(g: Group, t: TaskId)
    requires WellFormed(g) && Stable(g) && t in g.woken
    ensures WellFormed(Finish(g, t)) && Stable(Finish(g, t))
  {
    hide Satisfied, Met, DistinctTasks;
    ApplicationClosed(g.bits, WaitedFor(g.woken[t]));
    FewerBitsStable(g, g.bits - WaitedFor(g.woken[t]));
  }

  lemma {:induction false} RunKeeps(g: Group, steps: seq<Step>)
    requires WellFormed(g) && Stable(g) && Runs(g, steps)
    ensures WellFormed(After(g, steps)) && Stable(After(g, steps))
    decreases |steps|
  {
    hide WellFormed, Stable, Apply, Enabled;
    if steps != [] {
      StepKeeps(g, steps[0]);
      RunKeeps(Apply(g, steps[0]), steps[1..]);
    }
  }

  /** Over every run from a new event group, whenever the scheduler is not suspended, no task waits
      for bits that are there. */
  lemma StableAlways(steps: seq<Step>, w: Waiter)
    requires Runs(Group({}, [], map[], map[]), steps) && w in After(Group({}, [], map[], map[]), steps).waiting
    ensures !Met(After(Group({}, [], map[], map[]), steps).bits, WaitedFor(w.item), WantsAll(w.item))
  {
    assert WellFormed(Group({}, [], map[], map[]));
    RunKeeps(Group({}, [], map[], map[]), steps);
  }

  /** A waiter released by a set gets back, when it runs again, exactly the bits of that moment,
      and they satisfy what it waited for. */
  lemma ReleasedResult(g: Group, bits: Bits, w: Waiter)
    requires WellFormed(g) && Application(bits) && w in g.waiting && Satisfied(g.bits + bits, w)
    ensures var g' := SetBits(g, bits);
      && w.task in g'.woken
      && Finish(g', w.task) == g'.(woken := g'.woken - {w.task}, returned := g'.returned[w.task := g.bits + bits])
      && Met(Finish(g', w.task).returned[w.task], WaitedFor(w.item), WantsAll(w.item))
  {
    SetBitsExact(g, bits);
    ApplicationClosed(g.bits, bits);
    UnblockedRoundTrip(g.bits + bits);
    hide SetBits, WasUnblocked, Unblocked, WaitedFor, WantsAll, Met, ClearsOnExit, Application, DistinctTasks,
      InOrder;
  }

  /** A waiter that times out and then finds its condition met returns the bits as they are and
      clears them if it was to; otherwise it only returns them. */
  lemma TimedOutResult(g: Group, t: TaskId, waitedFor: Bits, clear: bool, all: bool)
    requires WellFormed(g) && Application(waitedFor) && Waiter(t, Pack(waitedFor, clear, all)) in g.waiting
    ensures var g1 := TimeOut(g, t);
      && t in g1.woken && g1.bits == g.bits
      && Finish(g1, t) == g1.(woken := g1.woken - {t}, returned := g1.returned[t := g.bits],
                              bits := if Met(g.bits, waitedFor, all) && clear then g.bits - waitedFor else g.bits)
  {
    var w := Waiter(t, Pack(waitedFor, clear, all));
    OnePerTask(g.waiting, w);
    assert !Running(g, t) by { var i :| 0 <= i < |g.waiting| && g.waiting[i] == w; }
    TimeOutExact(g, t);
    PackRoundTrip(waitedFor, clear, all);
    assert g.bits - CONTROL_BYTES == g.bits by {
      assert forall b :: b in g.bits && b in CONTROL_BYTES ==> b in g.bits * CONTROL_BYTES;
    }
    hide TimeOut, Pack, WasUnblocked, WaitedFor, WantsAll, Met, ClearsOnExit, Application, DistinctTasks;
  }

  // ----- the rendezvous

  /** What each task of the party sets when it arrives; all wait for the union all. */
  datatype Party = Party(sets: map<TaskId, Bits>, all: Bits)

  /** Each task sets a bit that no other sets, and all is the union. */
  ghost predicate IsParty(p: Party) {
    && p.sets != map[] && Application(p.all)
    && (forall b :: InParty(p, b) <==> b in p.all)
    && (forall t :: t in p.sets ==> HasOwnBit(p, t))
  }

  ghost predicate InParty(p: Party, b: nat) {
    exists t :: SetsBit(p, t, b)
  }

  ghost predicate HasOwnBit(p: Party, t: TaskId) {
    exists b :: OwnBit(p, t, b)
  }

  ghost predicate OwnBit(p: Party, t: TaskId, b: nat) {
    SetsBit(p, t, b) && forall u :: u in p.sets && u != t ==> b !in p.sets[u]
  }

  predicate SetsBit(p: Party, t: TaskId, b: nat) {
    t in p.sets && b in p.sets[t]
  }

  /** An item that will not clear the party's bits. */
  predicate Harmless(item: Bits, all: Bits) {
    !WasUnblocked(item) && ClearsOnExit(item) ==> WaitedFor(item) !! all
  }

  /** The steps of a rendezvous: the tasks of the party arrive, once each and without time-out,
      and run again when they were released; others do as they like with other bits. */
  predicate Meets(p: Party, arrived: set<TaskId>, step: Step) {
    match step
    case Set(bits) => bits !! p.all
    case Clear(bits) => bits !! p.all
    case Wait(t, waitedFor, clear, _, _) => t !in p.sets && (clear ==> waitedFor !! p.all)
    case Synchronise(t, bits, waitedFor, mayBlock) =>
      if t in p.sets then t !in arrived && bits == p.sets[t] && waitedFor == p.all && mayBlock
      else bits !! p.all && waitedFor !! p.all
    case Expire(t) => t !in p.sets
    case Resume(t) => true
  }

  function Arrivals(p: Party, step: Step): set<TaskId> {
    if step.Synchronise? && step.t in p.sets then {step.t} else {}
  }

  ghost predicate RendezvousRun(g: Group, p: Party, arrived: set<TaskId>, steps: seq<Step>)
    decreases |steps|
  {
    steps == [] || (Enabled(g, steps[0]) && Meets(p, arrived, steps[0])
                    && RendezvousRun(Apply(g, steps[0]), p, arrived + Arrivals(p, steps[0]), steps[1..]))
  }

  function Ended(g: Group, p: Party, arrived: set<TaskId>, steps: seq<Step>): Group
    requires RendezvousRun(g, p, arrived, steps)
    decreases |steps|
  {
    if steps == [] then g else Ended(Apply(g, steps[0]), p, arrived + Arrivals(p, steps[0]), steps[1..])
  }

  function Everyone(p: Party, arrived: set<TaskId>, steps: seq<Step>): set<TaskId>
    decreases |steps|
  {
    if steps == [] then arrived else Everyone(p, arrived + Arrivals(p, steps[0]), steps[1..])
  }

  function PartyItem(p: Party): Bits {
    Pack(p.all, true, true)
  }

  /** Those not of the party leave its bits alone. */
  ghost predicate OthersHarmless(g: Group, p: Party) {
    && (forall w :: w in g.waiting && w.task !in p.sets && ClearsOnExit(w.item) ==> WaitedFor(w.item) !! p.all)
    && (forall t :: t in g.woken && t !in p.sets ==> Harmless(g.woken[t], p.all))
  }

  /** Before the last arrival: those who arrived wait, and of the party's bits exactly theirs are set. */
  ghost predicate Gathering(g: Group, p: Party, arrived: set<TaskId>) {
    && (forall b :: b in p.all ==> (b in g.bits <==> exists t :: t in arrived && SetsBit(p, t, b)))
    && (forall t :: t in arrived ==> Waiter(t, PartyItem(p)) in g.waiting)
    && (forall w :: w in g.waiting && w.task in p.sets ==> w.item == PartyItem(p))
    && (forall t :: t in p.sets ==> t !in g.woken && t !in g.returned)
  }

  /** After it: everyone has been released with all the bits, and they are clear. */
  ghost predicate Released(g: Group, p: Party) {
    && g.bits !! p.all
    && (forall w :: w in g.waiting ==> w.task !in p.sets)
    && (forall t :: t in p.sets ==>
          if t in g.woken then WasUnblocked(g.woken[t]) && p.all <= g.woken[t]
          else t in g.returned && p.all <= g.returned[t])
  }

  ghost predicate Meeting(g: Group, p: Party, arrived: set<TaskId>) {
    && WellFormed(g) && OthersHarmless(g, p) && arrived <= p.sets.Keys
    && if arrived == p.sets.Keys then Released(g, p) else Gathering(g, p, arrived)
  }

  lemma SomeoneMissing(p: Party, arrived: set<TaskId>) returns (b: nat)
    requires IsParty(p) && arrived <= p.sets.Keys && arrived != p.sets.Keys
    ensures b in p.all && forall t :: t in arrived ==> b !in p.sets[t]
  {
    var t :| t in p.sets.Keys && t !in arrived;
    assert HasOwnBit(p, t);
    b :| OwnBit(p, t, b);
    assert InParty(p, b);
  }

  lemma SatisfiedParty(bits: Bits, p: Party, t: TaskId)
    requires Application(p.all)
    ensures Satisfied(bits, Waiter(t, PartyItem(p))) <==> p.all <= bits
    ensures ClearsOnExit(PartyItem(p)) && WaitedFor(PartyItem(p)) == p.all && !WasUnblocked(PartyItem(p))
  {
    PackRoundTrip(p.all, true, true);
    assert bits * p.all == p.all <==> p.all <= bits;
  }

  lemma UnblockedHarmless(bits: Bits, all: Bits)
    requires Application(bits)
    ensures Harmless(Unblocked(bits), all) && WasUnblocked(Unblocked(bits)) && bits <= Unblocked(bits)
  {
    UnblockedRoundTrip(bits);
  }

  /** What SetBitsExact says, as far as the party is concerned. */
  ghost predicate SetSeen(g: Group, g': Group, bits: Bits, p: Party) {
    && WellFormed(g') && OthersHarmless(g', p)
    && (forall w :: w in g'.waiting <==> w in g.waiting && !Satisfied(bits, w))
    && (forall w :: w in g.waiting && Satisfied(bits, w) ==> w.task in g'.woken && g'.woken[w.task] == Unblocked(bits))
    && (forall t :: (forall w :: w in g.waiting && w.task == t ==> !Satisfied(bits, w)) ==>
          (t in g'.woken <==> t in g.woken) && (t in g.woken ==> g'.woken[t] == g.woken[t]))
    && (forall b :: b in g'.bits <==>
          b in bits &&
          !exists w :: w in g.waiting && Satisfied(bits, w) && ClearsOnExit(w.item) && b in WaitedFor(w.item))
    && g'.returned == g.returned
  }

  lemma SetIsSeen(g: Group, p: Party, bits: Bits)
    requires WellFormed(g) && OthersHarmless(g, p) && Application(bits)
    ensures SetSeen(g, SetBits(g, bits), g.bits + bits, p)
  {
    SetBitsExact(g, bits);
    SetBitsKeeps(g, bits);
    ApplicationClosed(g.bits, bits);
    UnblockedHarmless(g.bits + bits, p.all);
    hide SetBits, Satisfied, ClearsOnExit, WaitedFor, WasUnblocked, Unblocked, Application, DistinctTasks, InOrder;
    var g' := SetBits(g, bits);
    forall t | t in g'.woken && t !in p.sets ensures Harmless(g'.woken[t], p.all) {
      if exists w :: w in g.waiting && w.task == t && Satisfied(g.bits + bits, w) {
        var w :| w in g.waiting && w.task == t && Satisfied(g.bits + bits, w);
      }
    }
  }

  /** Setting bits while the party is not complete: its tasks go on waiting, and its bits change as
      the setter says. */
  lemma SetWhileGathering(g: Group, g': Group, p: Party, arrived: set<TaskId>, bits: Bits)
    requires Application(p.all) && OthersHarmless(g, p) && Gathering(g, p, arrived) && arrived <= p.sets.Keys
    requires SetSeen(g, g', g.bits + bits, p) && !(p.all <= g.bits + bits)
    ensures forall b :: b in p.all ==> (b in g'.bits <==> b in g.bits || b in bits)
    ensures forall t :: t in arrived ==> Waiter(t, PartyItem(p)) in g'.waiting
    ensures forall w :: w in g'.waiting && w.task in p.sets ==> w.item == PartyItem(p)
    ensures forall t :: t in p.sets ==> t !in g'.woken && t !in g'.returned
  {
    var b1 := g.bits + bits;
    hide Satisfied, ClearsOnExit, WaitedFor, WasUnblocked, Unblocked, PartyItem, Application, Harmless, WellFormed,
      SetsBit;
    forall w | w in g.waiting && w.task in p.sets ensures !Satisfied(b1, w) { SatisfiedParty(b1, p, w.task); }
    assert forall w :: w in g.waiting && Satisfied(b1, w) && ClearsOnExit(w.item) ==> WaitedFor(w.item) !! p.all;
  }

  /** Setting the last of the party's bits: its waiting tasks are all released with every bit. */
  lemma SetCompletes(g: Group, g': Group, p: Party, arrived: set<TaskId>, bits: Bits)
    requires Application(p.all) && Application(g.bits + bits) && Gathering(g, p, arrived) && arrived <= p.sets.Keys
    requires SetSeen(g, g', g.bits + bits, p) && p.all <= g.bits + bits
    ensures forall w :: w in g'.waiting ==> w.task !in p.sets
    ensures forall t :: t in arrived ==> t in g'.woken && WasUnblocked(g'.woken[t]) && p.all <= g'.woken[t]
  {
    var b1 := g.bits + bits;
    UnblockedHarmless(b1, p.all);
    hide Satisfied, ClearsOnExit, WaitedFor, WasUnblocked, Unblocked, PartyItem, Application, Harmless, WellFormed,
      SetsBit, OthersHarmless;
    forall w | w in g.waiting && w.task in p.sets ensures Satisfied(b1, w) { SatisfiedParty(b1, p, w.task); }
    forall t | t in arrived ensures t in g'.woken && g'.woken[t] == Unblocked(b1) {
      assert Waiter(t, PartyItem(p)) in g.waiting;
    }
  }

  /** Setting other bits when the party is over. */
  lemma SetWhileReleased(g: Group, g': Group, p: Party, bits: Bits)
    requires Released(g, p) && SetSeen(g, g', g.bits + bits, p) && bits !! p.all
    ensures Released(g', p)
  {
    hide Satisfied, ClearsOnExit, WaitedFor, WasUnblocked, Unblocked, Application, Harmless, WellFormed,
      OthersHarmless;
  }

  // ----- each step of a rendezvous

  lemma OtherBitsDoNotComplete(g: Group, p: Party, arrived: set<TaskId>, bits: Bits)
    requires IsParty(p) && Gathering(g, p, arrived) && arrived <= p.sets.Keys && arrived != p.sets.Keys && bits !! p.all
    ensures !(p.all <= g.bits + bits)
  {
    var b := SomeoneMissing(p, arrived);
    assert b !in bits;
  }

  /** The party's bits are all there exactly when the last task arrives. */
  lemma CompleteExactly(g: Group, p: Party, arrived: set<TaskId>, t: TaskId)
    requires IsParty(p) && Gathering(g, p, arrived) && arrived <= p.sets.Keys && t in p.sets
    ensures p.all <= g.bits + p.sets[t] <==> arrived + {t} == p.sets.Keys
  {
    var now := arrived + {t};
    if now == p.sets.Keys {
      forall b | b in p.all ensures b in g.bits + p.sets[t] {
        assert InParty(p, b);
        var u :| SetsBit(p, u, b);
        assert u == t || u in arrived;
      }
    } else {
      var b := SomeoneMissing(p, now);
      assert t in now && b !in p.sets[t];
    }
  }

  lemma SetMeets(g: Group, p: Party, arrived: set<TaskId>, bits: Bits)
    requires IsParty(p) && Meeting(g, p, arrived) && Application(bits) && bits !! p.all
    ensures Meeting(SetBits(g, bits), p, arrived)
  {
    SetIsSeen(g, p, bits);
    if arrived == p.sets.Keys {
      SetWhileReleased(g, SetBits(g, bits), p, bits);
    } else {
      OtherBitsDoNotComplete(g, p, arrived, bits);
      SetWhileGathering(g, SetBits(g, bits), p, arrived, bits);
    }
    hide SetBits, Satisfied, PartyItem, Application, DistinctTasks, Harmless, ClearsOnExit, WaitedFor, Unblocked,
      WasUnblocked, IsParty, SetsBit;
  }

  lemma ClearMeets(g: Group, p: Party, arrived: set<TaskId>, bits: Bits)
    requires Meeting(g, p, arrived) && bits !! p.all
    ensures Meeting(ClearBits(g, bits), p, arrived)
  {
    ApplicationClosed(g.bits, bits);
    hide PartyItem, Application, DistinctTasks, Harmless, ClearsOnExit, WaitedFor, WasUnblocked, SetsBit;
  }

  lemma ReturnMeets(g: Group, p: Party, arrived: set<TaskId>, t: TaskId, value: Bits)
    requires Meeting(g, p, arrived) && t !in p.sets
    ensures Meeting(Return(g, t, value), p, arrived)
  {
    hide PartyItem, Application, DistinctTasks, Harmless, ClearsOnExit, WaitedFor, WasUnblocked, SetsBit;
  }

  lemma BlockMeets(g: Group, p: Party, arrived: set<TaskId>, t: TaskId, waitedFor: Bits, clear: bool, all: bool)
    requires Meeting(g, p, arrived) && t !in p.sets && Running(g, t) && Application(waitedFor) &&
      (clear ==> waitedFor !! p.all)
    ensures Meeting(Block(g, t, waitedFor, clear, all), p, arrived)
  {
    PackRoundTrip(waitedFor, clear, all);
    hide PartyItem, Application, Harmless, ClearsOnExit, WaitedFor, WasUnblocked, SetsBit, Pack;
    var g', w0 := Block(g, t, waitedFor, clear, all), Waiter(t, Pack(waitedFor, clear, all));
    assert forall w :: w in g'.waiting <==> w in g.waiting || w == w0;
  }

  lemma ExpireMeets(g: Group, p: Party, arrived: set<TaskId>, t: TaskId)
    requires Meeting(g, p, arrived) && t !in p.sets && !Running(g, t) && t !in g.woken
    ensures Meeting(TimeOut(g, t), p, arrived)
  {
    TimeOutExact(g, t);
    hide TimeOut, PartyItem, Application, DistinctTasks, ClearsOnExit, WaitedFor, WasUnblocked, SetsBit;
  }

  lemma ResumeOther(g: Group, p: Party, arrived: set<TaskId>, t: TaskId)
    requires Meeting(g, p, arrived) && t in g.woken && t !in p.sets
    ensures Meeting(Finish(g, t), p, arrived)
  {
    var g1, item := g.(woken := g.woken - {t}), g.woken[t];
    assert Meeting(g1, p, arrived) by {
      hide PartyItem, Application, DistinctTasks, Harmless, ClearsOnExit, WaitedFor, WasUnblocked, SetsBit;
    }
    assert Harmless(item, p.all);
    hide Meeting, Met;
    if !WasUnblocked(item) && ClearsOnExit(item) {
      ClearMeets(g1, p, arrived, WaitedFor(item));
      ReturnMeets(ClearBits(g1, WaitedFor(item)), p, arrived, t, g.bits - CONTROL_BYTES);
    }
    ReturnMeets(g1, p, arrived, t, g.bits - CONTROL_BYTES);
    ReturnMeets(g1, p, arrived, t, item - CONTROL_BYTES);
  }

  lemma ResumeParty(g: Group, p: Party, arrived: set<TaskId>, t: TaskId)
    requires IsParty(p) && Meeting(g, p, arrived) && t in g.woken && t in p.sets
    ensures Meeting(Finish(g, t), p, arrived)
  {
    assert arrived == p.sets.Keys && WasUnblocked(g.woken[t]) && p.all <= g.woken[t];
    assert p.all <= g.woken[t] - CONTROL_BYTES by {
      forall b | b in p.all ensures b !in CONTROL_BYTES { assert b in CONTROL_BYTES ==> b in p.all * CONTROL_BYTES; }
    }
    hide PartyItem, Application, DistinctTasks, Harmless, ClearsOnExit, WaitedFor, WasUnblocked, SetsBit, IsParty;
  }

  lemma ArriveMeets(g: Group, p: Party, arrived: set<TaskId>, t: TaskId)
    requires IsParty(p) && Meeting(g, p, arrived) && t in p.sets && t !in arrived && Running(g, t)
    requires Application(p.sets[t])
    ensures Meeting(Sync(g, t, p.sets[t], p.all, true), p, arrived + {t})
  {
    hide IsParty, SetBits, SetSeen, Gathering, Released, OthersHarmless, DistinctTasks, Application, PartyItem;
    var bits := p.sets[t];
    var g1 := SetBits(g, bits);
    PartyApplication(p);
    SetIsSeen(g, p, bits);
    CompleteExactly(g, p, arrived, t);
    assert (g.bits + bits) * p.all == p.all <==> p.all <= g.bits + bits;
    ApplicationClosed(g.bits, bits);
    SeenWellFormed(g, g1, g.bits + bits, p);
    if p.all <= g.bits + bits {
      ApplicationClosed(g1.bits, p.all);
      SetCompletes(g, g1, p, arrived, bits);
      LastArrives(g, g1, p, arrived, t);
    } else {
      SetWhileGathering(g, g1, p, arrived, bits);
      StillRunning(g, bits, t);
      NextArrives(g, g1, p, arrived, t);
    }
  }

  lemma PartyApplication(p: Party)
    requires IsParty(p)
    ensures Application(p.all)
  {
  }

  lemma SeenWellFormed(g: Group, g': Group, bits: Bits, p: Party)
    requires SetSeen(g, g', bits, p)
    ensures WellFormed(g') && OthersHarmless(g', p)
  {
  }

  lemma LastArrives(g: Group, g1: Group, p: Party, arrived: set<TaskId>, t: TaskId)
    requires Running(g, t) && t in p.sets && SetSeen(g, g1, g.bits + p.sets[t], p) && arrived + {t} == p.sets.Keys
    requires p.all <= g.bits + p.sets[t] && Application(g1.bits - p.all)
    requires forall w :: w in g1.waiting ==> w.task !in p.sets
    requires forall u :: u in arrived ==> u in g1.woken && WasUnblocked(g1.woken[u]) && p.all <= g1.woken[u]
    ensures Meeting(Return(ClearBits(g1, p.all), t, g.bits + p.sets[t]), p, arrived + {t})
  {
    assert forall w :: w in g.waiting ==> w.task != t;
    hide PartyItem, Application, DistinctTasks, Harmless, ClearsOnExit, WaitedFor, WasUnblocked, Satisfied, Unblocked;
    assert t !in g1.woken;
  }

  lemma NextArrives(g: Group, g1: Group, p: Party, arrived: set<TaskId>, t: TaskId)
    requires t in p.sets && t !in arrived && Gathering(g, p, arrived) && arrived <= p.sets.Keys &&
      arrived + {t} != p.sets.Keys
    requires WellFormed(g1) && OthersHarmless(g1, p) && Running(g1, t) && Application(p.all)
    requires forall b :: b in p.all ==> (b in g1.bits <==> b in g.bits || b in p.sets[t])
    requires forall u :: u in arrived ==> Waiter(u, PartyItem(p)) in g1.waiting
    requires forall w :: w in g1.waiting && w.task in p.sets ==> w.item == PartyItem(p)
    requires forall u :: u in p.sets ==> u !in g1.woken && u !in g1.returned
    ensures Meeting(Block(g1, t, p.all, true, true), p, arrived + {t})
  {
    var g', w0 := Block(g1, t, p.all, true, true), Waiter(t, PartyItem(p));
    assert forall w :: w in g'.waiting <==> w in g1.waiting || w == w0;
    hide PartyItem, Application, Harmless, ClearsOnExit, WaitedFor, WasUnblocked, Pack;
    forall b | b in p.all ensures b in g'.bits <==> exists u :: u in arrived + {t} && SetsBit(p, u, b) {
      if b in g.bits { var u :| u in arrived && SetsBit(p, u, b); assert u in arrived + {t}; }
      if b in p.sets[t] { assert SetsBit(p, t, b); }
    }
  }

  lemma MeetingStep(g: Group, p: Party, arrived: set<TaskId>, step: Step)
    requires IsParty(p) && Meeting(g, p, arrived) && Enabled(g, step) && Meets(p, arrived, step)
    ensures Meeting(Apply(g, step), p, arrived + Arrivals(p, step))
  {
    hide Meeting, IsParty, SetBits, Met, Running, Application, TimeOut, Finish;
    assert arrived + {} == arrived;
    match step
    case Set(bits) => SetMeets(g, p, arrived, bits);
    case Clear(bits) => ClearMeets(g, p, arrived, bits);
    case Wait(t, waitedFor, clear, all, mayBlock) =>
      if Met(g.bits, waitedFor, all) {
        if clear { ClearMeets(g, p, arrived, waitedFor); ReturnMeets(ClearBits(g, waitedFor), p, arrived, t, g.bits); }
        else { ReturnMeets(g, p, arrived, t, g.bits); }
      } else if mayBlock { BlockMeets(g, p, arrived, t, waitedFor, clear, all); }
      else { ReturnMeets(g, p, arrived, t, g.bits); }
    case Synchronise(t, bits, waitedFor, mayBlock) =>
      if t in p.sets {
        ArriveMeets(g, p, arrived, t);
      } else {
        var g1 := SetBits(g, bits);
        SetMeets(g, p, arrived, bits);
        MeetingWellFormed(g, p, arrived);
        StillRunning(g, bits, t);
        if Met(g.bits + bits, waitedFor, true) {
          ClearMeets(g1, p, arrived, waitedFor);
          ReturnMeets(ClearBits(g1, waitedFor), p, arrived, t, g.bits + bits);
        } else if mayBlock { BlockMeets(g1, p, arrived, t, waitedFor, true, true); }
        else { ReturnMeets(g1, p, arrived, t, g1.bits); }
      }
    case Expire(t) => ExpireMeets(g, p, arrived, t);
    case Resume(t) => if t in p.sets { ResumeParty(g, p, arrived, t); } else { ResumeOther(g, p, arrived, t); }
  }

  lemma MeetingWellFormed(g: Group, p: Party, arrived: set<TaskId>)
    requires Meeting(g, p, arrived)
    ensures WellFormed(g)
  {
  }

  lemma {:induction false} MeetingRun(g: Group, p: Party, arrived: set<TaskId>, steps: seq<Step>)
    requires IsParty(p) && Meeting(g, p, arrived) && RendezvousRun(g, p, arrived, steps)
    ensures Meeting(Ended(g, p, arrived, steps), p, Everyone(p, arrived, steps))
    decreases |steps|
  {
    hide IsParty, Meeting, Apply, Enabled, Meets, Arrivals;
    if steps != [] {
      MeetingStep(g, p, arrived, steps[0]);
      MeetingRun(Apply(g, steps[0]), p, arrived + Arrivals(p, steps[0]), steps[1..]);
    }
  }

  /** Nobody of the party waits or has returned yet, its bits are clear, and nobody else is about
      to clear them. */
  ghost predicate BeforeRendezvous(g: Group, p: Party) {
    && WellFormed(g) && OthersHarmless(g, p) && g.bits !! p.all
    && (forall w :: w in g.waiting ==> w.task !in p.sets)
    && (forall t :: t in p.sets ==> t !in g.woken && t !in g.returned)
  }

  /** The rendezvous, in any order of arrival and whatever others do with other bits: until the
      last task arrives everybody who arrived waits and nobody is released; from then on
      everybody is, each with every bit of the union, and those bits are clear. */
  lemma Rendezvous(g: Group, p: Party, steps: seq<Step>)
    requires IsParty(p) && BeforeRendezvous(g, p) && RendezvousRun(g, p, {}, steps)
    ensures var g', arrived := Ended(g, p, {}, steps), Everyone(p, {}, steps);
      if arrived != p.sets.Keys then
        && (forall t :: t in arrived ==> Waiter(t, PartyItem(p)) in g'.waiting)
        && (forall t :: t in p.sets ==> t !in g'.woken && t !in g'.returned)
      else
        && g'.bits !! p.all
        && (forall w :: w in g'.waiting ==> w.task !in p.sets)
        && (forall t :: t in p.sets ==>
              if t in g'.woken then WasUnblocked(g'.woken[t]) && p.all <= g'.woken[t]
              else t in g'.returned && p.all <= g'.returned[t])
  {
    assert Meeting(g, p, {}) by {
      var t :| t in p.sets;
      assert t in p.sets.Keys;
      hide PartyItem, Application, DistinctTasks, ClearsOnExit, WaitedFor, WasUnblocked, SetsBit;
    }
    hide IsParty, SetsBit, PartyItem, WasUnblocked, RendezvousRun, Ended, Everyone, WellFormed, OthersHarmless;
    MeetingRun(g, p, {}, steps);
  }
}
