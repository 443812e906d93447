/** An event group: setting, clearing and waiting. */
module EventGroups {
  import opened EventBits

  type TaskId = nat

  /** A blocked task and its event list item, in the order of xTasksWaitingForBits. */
  datatype Waiter = Waiter(task: TaskId, item: Bits)

  /** woken holds the event list items of tasks that left the list and have not run since;
      returned the last value each task got back from a wait. */
  datatype Group = Group(bits: Bits, waiting: seq<Waiter>, woken: map<TaskId, Bits>, returned: map<TaskId, Bits>)

  predicate Satisfied(bits: Bits, w: Waiter) {
    Met(bits, WaitedFor(w.item), WantsAll(w.item))
  }

  /** The waiters that stay, in order. */
  function Staying(bits: Bits, waiting: seq<Waiter>): seq<Waiter> {
    if waiting == [] then []
    else (if Satisfied(bits, waiting[0]) then [] else [waiting[0]]) + Staying(bits, waiting[1..])
  }

  /** The union of the bits of the woken waiters that clear on exit. */
  function ToClear(bits: Bits, waiting: seq<Waiter>): Bits {
    if waiting == [] then {}
    else
      var w := waiting[0];
      (if Satisfied(bits, w) && ClearsOnExit(w.item) then WaitedFor(w.item) else {}) + ToClear(bits, waiting[1..])
  }

  function Wake(bits: Bits, waiting: seq<Waiter>, woken: map<TaskId, Bits>): map<TaskId, Bits>
    decreases |waiting|
  {
    if waiting == [] then woken
    else Wake(bits, waiting[1..], if Satisfied(bits, waiting[0]) then woken[waiting[0].task := Unblocked(bits)]
      else woken)
  }

  /** xEventGroupSetBits. */
  function SetBits(g: Group, bitsToSet: Bits): Group {
    var bits := g.bits + bitsToSet;
    g.(bits := bits - ToClear(bits, g.waiting), waiting := Staying(bits, g.waiting),
      woken := Wake(bits, g.waiting, g.woken))
  }

  /** xEventGroupClearBits. */
  function ClearBits(g: Group, bitsToClear: Bits): Group {
    g.(bits := g.bits - bitsToClear)
  }

  /** vTaskPlaceOnUnorderedEventList: at the end of the list. */
  function Block(g: Group, t: TaskId, waitedFor: Bits, clear: bool, all: bool): Group {
    g.(waiting := g.waiting + [Waiter(t, Pack(waitedFor, clear, all))])
  }

  function Return(g: Group, t: TaskId, value: Bits): Group {
    g.(returned := g.returned[t := value])
  }

  /** xEventGroupWaitBits, up to the point where the caller has returned or is blocked. */
  function WaitBits(g: Group, t: TaskId, waitedFor: Bits, clear: bool, all: bool, mayBlock: bool): Group {
    if Met(g.bits, waitedFor, all) then
      Return(if clear then ClearBits(g, waitedFor) else g, t, g.bits)
    else if mayBlock then Block(g, t, waitedFor, clear, all)
    else Return(g, t, g.bits)
  }

  /** xEventGroupSync, likewise. */
  function Sync(g: Group, t: TaskId, bitsToSet: Bits, waitedFor: Bits, mayBlock: bool): Group {
    var g1 := SetBits(g, bitsToSet);
    if Met(g.bits + bitsToSet, waitedFor, true) then Return(ClearBits(g1, waitedFor), t, g.bits + bitsToSet)
    else if mayBlock then Block(g1, t, waitedFor, true, true)
    else Return(g1, t, g1.bits)
  }

  /** Position of a waiting task, |waiting| if it is not waiting. */
  function PositionOf(waiting: seq<Waiter>, t: TaskId): (p: nat)
    ensures p <= |waiting| && (p < |waiting| ==> waiting[p].task == t)
    ensures p == |waiting| ==> forall i :: 0 <= i < |waiting| ==> waiting[i].task != t
  {
    if waiting == [] || waiting[0].task == t then 0 else 1 + PositionOf(waiting[1..], t)
  }

  /** The tick interrupt takes a waiting task whose block time is over off the list. */
  function TimeOut(g: Group, t: TaskId): Group {
    var p := PositionOf(g.waiting, t);
    if p == |g.waiting| then g
    else g.(waiting := g.waiting[..p] + g.waiting[p + 1..], woken := g.woken[t := g.waiting[p].item])
  }

  /** The task runs again and finishes the wait it was blocked in; both waits end in the same way. */
  function Finish(g: Group, t: TaskId): Group
    requires t in g.woken
  {
    var item, g1 := g.woken[t], g.(woken := g.woken - {t});
    if WasUnblocked(item) then Return(g1, t, item - CONTROL_BYTES)
    else
      Return(if Met(g.bits, WaitedFor(item), WantsAll(item)) && ClearsOnExit(item)
             then ClearBits(g1, WaitedFor(item)) else g1,
             t, g.bits - CONTROL_BYTES)
  }

  // ----- the event group as an object

  class EventGroup {
    var eventBits: Bits
    var waiting: seq<Waiter>
    var woken: map<TaskId, Bits>
    var returned: map<TaskId, Bits>

    ghost function View(): Group
      reads this
    {
      Group(eventBits, waiting, woken, returned)
    }

    constructor ()
      ensures View() == Group({}, [], map[], map[])
    {
      eventBits, waiting, woken, returned := {}, [], map[], map[];
    }

    /** xEventGroupSetBits: walks the list once, taking out the tasks that match. */
    method SetEventBits(bitsToSet: Bits) returns (result: Bits)
      requires Application(bitsToSet)
      modifies this
      ensures View() == SetBits(old(View()), bitsToSet) && result == eventBits
    {
      var bitsToClear: Bits := {};
      eventBits := eventBits + bitsToSet;
      ghost var all := waiting;
      ghost var visited := 0;
      var next := 0;
      hide Staying, ToClear, Wake;
      VisitedNone(eventBits, all, woken);
      while next < |waiting|
        invariant next <= |waiting| && visited <= |all| && waiting[next..] == all[visited..]
        invariant eventBits == old(eventBits) + bitsToSet && returned == old(returned)
        invariant waiting[..next] == Staying(eventBits, all[..visited])
        invariant bitsToClear == ToClear(eventBits, all[..visited])
        invariant woken == Wake(eventBits, all[..visited], old(woken))
        decreases |waiting| - next
      {
        var w := waiting[next];
        NextOf(waiting, next, all, visited);
        VisitOne(eventBits, all, visited, old(woken));
        var matched := if w.item * WAIT_FOR_ALL_BITS == {} then WaitedFor(w.item) * eventBits != {}
                       else WaitedFor(w.item) * eventBits == WaitedFor(w.item);
        assert matched == Satisfied(eventBits, w) by { Commutes(eventBits, WaitedFor(w.item)); }
        if matched {
          if w.item * CLEAR_EVENTS_ON_EXIT != {} { bitsToClear := bitsToClear + WaitedFor(w.item); }
          woken := woken[w.task := Unblocked(eventBits)];
          waiting := waiting[..next] + waiting[next + 1..];
        } else {
          next := next + 1;
        }
        visited := visited + 1;
      }
      assert all[..visited] == all && waiting[..next] == waiting;
      eventBits := eventBits - bitsToClear;
      result := eventBits;
    }

    /** xEventGroupClearBits returns the bits as they were. */
    method ClearEventBits(bitsToClear: Bits) returns (before: Bits)
      requires Application(bitsToClear)
      modifies this`eventBits
      ensures View() == ClearBits(old(View()), bitsToClear) && before == old(eventBits)
    {
      before := eventBits;
      eventBits := eventBits - bitsToClear;
    }

    /** xEventGroupWaitBits before it yields. */
    method WaitForBits(t: TaskId, waitedFor: Bits, clear: bool, all: bool, mayBlock: bool)
      requires Application(waitedFor) && waitedFor != {}
      modifies this
      ensures View() == WaitBits(old(View()), t, waitedFor, clear, all, mayBlock)
    {
      var current := eventBits;
      if Met(current, waitedFor, all) {
        returned := returned[t := current];
        if clear { eventBits := eventBits - waitedFor; }
      } else if !mayBlock {
        returned := returned[t := current];
      } else {
        var controlBits: Bits := {};
        if clear { controlBits := controlBits + CLEAR_EVENTS_ON_EXIT; }
        if all { controlBits := controlBits + WAIT_FOR_ALL_BITS; }
        assert (waitedFor + controlBits) + ITEM_VALUE_IN_USE == Pack(waitedFor, clear, all);
        waiting := waiting + [Waiter(t, (waitedFor + controlBits) + ITEM_VALUE_IN_USE)];
      }
    }

    /** xEventGroupSync before it yields. */
    method SyncOn(t: TaskId, bitsToSet: Bits, waitedFor: Bits, mayBlock: bool)
      requires Application(waitedFor) && waitedFor != {} && Application(bitsToSet)
      modifies this
      ensures View() == Sync(old(View()), t, bitsToSet, waitedFor, mayBlock)
    {
      hide SetBits;
      var original := eventBits;
      var _ := SetEventBits(bitsToSet);
      if (original + bitsToSet) * waitedFor == waitedFor {
        returned := returned[t := original + bitsToSet];
        eventBits := eventBits - waitedFor;
      } else if mayBlock {
        waiting := waiting + [Waiter(t, (waitedFor + CLEAR_EVENTS_ON_EXIT + WAIT_FOR_ALL_BITS) + ITEM_VALUE_IN_USE)];
      } else {
        returned := returned[t := eventBits];
      }
    }

    /** What both waits do when the blocked task runs again. */
    method FinishWait(t: TaskId)
      requires t in woken
      modifies this
      ensures View() == Finish(old(View()), t)
    {
      var item := woken[t];
      woken := woken - {t};
      if item * UNBLOCKED_DUE_TO_BIT_SET == {} {
        var value := eventBits;
        if Met(value, WaitedFor(item), WantsAll(item)) {
          if ClearsOnExit(item) { eventBits := eventBits - WaitedFor(item); }
        }
        returned := returned[t := value - CONTROL_BYTES];
      } else {
        returned := returned[t := item - CONTROL_BYTES];
      }
    }
  }

  lemma Commutes(a: Bits, b: Bits)
    ensures a * b == b * a
  {
  }

  /** Taking out the waiter at next, or going past it. */
  lemma NextOf(waiting: seq<Waiter>, next: nat, all: seq<Waiter>, visited: nat)
    requires next < |waiting| && visited <= |all| && waiting[next..] == all[visited..]
    ensures visited < |all| && waiting[next] == all[visited] && waiting[next + 1..] == all[visited + 1..]
    ensures waiting[..next + 1] == waiting[..next] + [waiting[next]]
    ensures var rest := waiting[..next] + waiting[next + 1..];
      |rest| == |waiting| - 1 && rest[..next] == waiting[..next] && rest[next..] == all[visited + 1..]
  {
    assert |waiting[next..]| == |all[visited..]|;
    assert waiting[next] == waiting[next..][0] && all[visited] == all[visited..][0];
    assert waiting[next + 1..] == waiting[next..][1..] && all[visited + 1..] == all[visited..][1..];
  }

  lemma VisitedNone(bits: Bits, waiting: seq<Waiter>, woken: map<TaskId, Bits>)
    ensures Staying(bits, waiting[..0]) == [] && ToClear(bits, waiting[..0]) == {} &&
      Wake(bits, waiting[..0], woken) == woken
  {
  }

  /** The three results of the walk, one waiter further. */
  lemma {:induction false} VisitOne(bits: Bits, waiting: seq<Waiter>, n: nat, woken: map<TaskId, Bits>)
    requires n < |waiting|
    ensures var w := waiting[n];
      && Staying(bits, waiting[..n + 1]) == Staying(bits, waiting[..n]) + (if Satisfied(bits, w) then [] else [w])
      && ToClear(bits, waiting[..n + 1]) ==
           ToClear(bits, waiting[..n]) + (if Satisfied(bits, w) && ClearsOnExit(w.item) then WaitedFor(w.item) else {})
      && Wake(bits, waiting[..n + 1], woken) ==
           (var m := Wake(bits, waiting[..n], woken); if Satisfied(bits, w) then m[w.task := Unblocked(bits)] else m)
    decreases n
  {
    hide Satisfied;
    if n == 0 {
      assert waiting[..1] == [waiting[0]] && waiting[..1][1..] == [];
    } else {
      var head, rest := waiting[0], waiting[1..];
      assert waiting[..n + 1][1..] == rest[..n] && waiting[..n][1..] == rest[..n - 1];
      var woken1 := if Satisfied(bits, head) then woken[head.task := Unblocked(bits)] else woken;
      VisitOne(bits, rest, n - 1, woken1);
    }
  }

  // ----- what setting bits does

  ghost predicate DistinctTasks(waiting: seq<Waiter>) {
    forall i, j :: 0 <= i < j < |waiting| ==> waiting[i].task != waiting[j].task
  }

  /** Exactly the unsatisfied waiters stay. */
  lemma {:induction false} StayingExact(bits: Bits, waiting: seq<Waiter>)
    ensures forall w :: w in Staying(bits, waiting) <==> w in waiting && !Satisfied(bits, w)
    decreases |waiting|
  {
    if waiting != [] { StayingExact(bits, waiting[1..]); }
  }

  /** Those that stay keep their order. */
  lemma {:induction false} StayingOrder(bits: Bits, waiting: seq<Waiter>, i: nat, j: nat)
    requires i < j < |Staying(bits, waiting)|
    ensures exists p, q ::
      0 <= p < q < |waiting| && waiting[p] == Staying(bits, waiting)[i] && waiting[q] == Staying(bits, waiting)[j]
    decreases |waiting|
  {
    var r, rest := Staying(bits, waiting), waiting[1..];
    StayingExact(bits, rest);
    if Satisfied(bits, waiting[0]) {
      StayingOrder(bits, rest, i, j);
      var p, q :| 0 <= p < q < |rest| && rest[p] == r[i] && rest[q] == r[j];
      assert waiting[p + 1] == r[i] && waiting[q + 1] == r[j];
    } else if i > 0 {
      StayingOrder(bits, rest, i - 1, j - 1);
      var p, q :| 0 <= p < q < |rest| && rest[p] == r[i] && rest[q] == r[j];
      assert waiting[p + 1] == r[i] && waiting[q + 1] == r[j];
    } else {
      assert r[j] == Staying(bits, rest)[j - 1] && r[j] in rest;
      var q :| 0 <= q < |rest| && rest[q] == r[j];
      assert waiting[0] == r[0] && waiting[q + 1] == r[j];
    }
  }

  /** Exactly the bits some woken clear-on-exit waiter waited for are cleared. */
  lemma {:induction false} ToClearExact(bits: Bits, waiting: seq<Waiter>)
    ensures forall b :: b in ToClear(bits, waiting) <==>
        exists w :: w in waiting && Satisfied(bits, w) && ClearsOnExit(w.item) && b in WaitedFor(w.item)
    decreases |waiting|
  {
    if waiting != [] {
      ToClearExact(bits, waiting[1..]);
      hide Satisfied, ClearsOnExit, WaitedFor;
      assert forall w :: w in waiting <==> w == waiting[0] || w in waiting[1..];
    }
  }

  lemma {:induction false} WakeExact(bits: Bits, waiting: seq<Waiter>, woken: map<TaskId, Bits>)
    requires DistinctTasks(waiting)
    ensures forall w :: w in waiting && Satisfied(bits, w) ==>
        w.task in Wake(bits, waiting, woken) && Wake(bits, waiting, woken)[w.task] == Unblocked(bits)
    ensures forall t :: (forall w :: w in waiting && w.task == t ==> !Satisfied(bits, w)) ==>
        (t in Wake(bits, waiting, woken) <==> t in woken) && (t in woken ==> Wake(bits, waiting, woken)[t] == woken[t])
    decreases |waiting|
  {
    if waiting != [] {
      hide Satisfied, Unblocked;
      var w0, rest := waiting[0], waiting[1..];
      var woken1 := if Satisfied(bits, w0) then woken[w0.task := Unblocked(bits)] else woken;
      WakeExact(bits, rest, woken1);
      assert forall w :: w in waiting <==> w == w0 || w in rest;
      assert forall w :: w in rest ==> w.task != w0.task;
    }
  }

  /** What is in r comes from waiting, in the same order. */
  ghost predicate InOrder(r: seq<Waiter>, waiting: seq<Waiter>) {
    forall i, j :: 0 <= i < j < |r| ==>
      exists p, q :: 0 <= p < q < |waiting| && waiting[p] == r[i] && waiting[q] == r[j]
  }

  lemma StayingInOrder(bits: Bits, waiting: seq<Waiter>)
    ensures InOrder(Staying(bits, waiting), waiting)
  {
    var r := Staying(bits, waiting);
    forall i, j | 0 <= i < j < |r|
      ensures exists p, q :: 0 <= p < q < |waiting| && waiting[p] == r[i] && waiting[q] == r[j]
    {
      StayingOrder(bits, waiting, i, j);
    }
  }

  lemma StayingDistinct(bits: Bits, waiting: seq<Waiter>)
    requires DistinctTasks(waiting)
    ensures DistinctTasks(Staying(bits, waiting))
  {
    var r := Staying(bits, waiting);
    forall i, j | 0 <= i < j < |r| ensures r[i].task != r[j].task { StayingOrder(bits, waiting, i, j); }
  }

  /** xEventGroupSetBits wakes exactly the waiters that old | set satisfies, each with those bits;
      the others keep their order; and it leaves old | set less the bits waited for by the
      woken waiters that clear on exit. */
  lemma SetBitsExact(g: Group, bitsToSet: Bits)
    requires DistinctTasks(g.waiting)
    ensures var g', bits := SetBits(g, bitsToSet), g.bits + bitsToSet;
      && (forall w :: w in g'.waiting <==> w in g.waiting && !Satisfied(bits, w))
      && InOrder(g'.waiting, g.waiting)
      && (forall w :: w in g.waiting && Satisfied(bits, w) ==>
           w.task in g'.woken && g'.woken[w.task] == Unblocked(bits))
      && (forall t :: (forall w :: w in g.waiting && w.task == t ==> !Satisfied(bits, w)) ==>
            (t in g'.woken <==> t in g.woken) && (t in g.woken ==> g'.woken[t] == g.woken[t]))
      && (forall b :: b in g'.bits <==>
            b in bits &&
            !exists w :: w in g.waiting && Satisfied(bits, w) && ClearsOnExit(w.item) && b in WaitedFor(w.item))
      && DistinctTasks(g'.waiting) && g'.returned == g.returned
  {
    var bits := g.bits + bitsToSet;
    StayingExact(bits, g.waiting);
    ToClearExact(bits, g.waiting);
    WakeExact(bits, g.waiting, g.woken);
    StayingDistinct(bits, g.waiting);
    StayingInOrder(bits, g.waiting);
    hide Staying, ToClear, Wake, Satisfied, ClearsOnExit, WaitedFor, Unblocked, DistinctTasks, InOrder;
  }
}
