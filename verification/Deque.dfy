/** What a queue promises its users: a bounded double-ended queue of items. */
module Deque {

  type Item = seq<bv8>

  datatype Position = Back | Front | Overwrite

  datatype Operation = Send(item: Item, position: Position) | Receive | Peek

  datatype Result = Sent | Full | Got(item: Item) | Empty

  /** queueOVERWRITE is only allowed on queues of length 1, where it replaces the item. */
  function Enqueue(items: seq<Item>, item: Item, position: Position): seq<Item> {
    match position
    case Back => items + [item]
    case Front => [item] + items
    case Overwrite => [item]
  }

  function Accepts(items: seq<Item>, capacity: nat, position: Position): bool {
    |items| < capacity || position == Overwrite
  }

  function Perform(items: seq<Item>, capacity: nat, op: Operation): (seq<Item>, Result) {
    match op
    case Send(item, position) =>
      if Accepts(items, capacity, position) then (Enqueue(items, item, position), Sent) else (items, Full)
    case Receive => if items == [] then (items, Empty) else (items[1..], Got(items[0]))
    case Peek => if items == [] then (items, Empty) else (items, Got(items[0]))
  }

  function PerformAll(items: seq<Item>, capacity: nat, ops: seq<Operation>): (r: (seq<Item>, seq<Result>))
    ensures |r.1| == |ops|
    decreases |ops|
  {
    if ops == [] then (items, [])
    else
      var (items1, result) := Perform(items, capacity, ops[0]);
      var (items2, results) := PerformAll(items1, capacity, ops[1..]);
      (items2, [result] + results)
  }

  /** The items accepted, in the order they were sent. */
  function Accepted(ops: seq<Operation>, results: seq<Result>): seq<Item>
    requires |ops| == |results|
  {
    if ops == [] then []
    else (if ops[0].Send? && results[0] == Sent then [ops[0].item] else []) + Accepted(ops[1..], results[1..])
  }

  /** The items taken out, in the order they were received. */
  function Received(ops: seq<Operation>, results: seq<Result>): seq<Item>
    requires |ops| == |results|
  {
    if ops == [] then []
    else (if ops[0] == Receive && results[0].Got? then [results[0].item] else []) + Received(ops[1..], results[1..])
  }

  // ----- what queue.c does with items of a given size

  /** prvCopyDataToQueue: an empty item is only counted, whatever the position. */
  function Store(items: seq<Item>, itemSize: nat, item: Item, position: Position): seq<Item> {
    if itemSize == 0 then items + [item] else Enqueue(items, item, position)
  }

  function Serve(items: seq<Item>, capacity: nat, itemSize: nat, op: Operation): (seq<Item>, Result) {
    match op
    case Send(item, position) =>
      if Accepts(items, capacity, position) then (Store(items, itemSize, item, position), Sent) else (items, Full)
    case _ => Perform(items, capacity, op)
  }

  function ServeAll(items: seq<Item>, capacity: nat, itemSize: nat, ops: seq<Operation>): (r: (seq<Item>, seq<Result>))
    ensures |r.1| == |ops|
    decreases |ops|
  {
    if ops == [] then (items, [])
    else
      var (items1, result) := Serve(items, capacity, itemSize, ops[0]);
      var (items2, results) := ServeAll(items1, capacity, itemSize, ops[1..]);
      (items2, [result] + results)
  }

  /** The arguments queue.c asks for: items of the queue's size, overwriting only on length 1. */
  predicate Fits(op: Operation, capacity: nat, itemSize: nat) {
    op.Send? ==> |op.item| == itemSize && (op.position == Overwrite ==> capacity == 1)
  }

  predicate AllOfSize(items: seq<Item>, itemSize: nat) {
    forall i :: 0 <= i < |items| ==> |items[i]| == itemSize
  }

  /** The double-ended queue never overwrites an item. */
  predicate NothingReplaced(items: seq<Item>, capacity: nat, ops: seq<Operation>)
    decreases |ops|
  {
    ops == [] || (
      && (ops[0].Send? && ops[0].position == Overwrite ==> items == [])
      && NothingReplaced(Perform(items, capacity, ops[0]).0, capacity, ops[1..]))
  }

  lemma EmptyItemsAlike(a: seq<Item>, b: seq<Item>)
    requires AllOfSize(a, 0) && AllOfSize(b, 0) && |a| == |b|
    ensures a == b
  {
    assert forall i :: 0 <= i < |a| ==> a[i] == [] && b[i] == [];
  }

  /** One call meets the double-ended queue except when it overwrites an empty item: the
      count then goes beyond the length. */
  lemma ServeMeetsDequeIff(items: seq<Item>, capacity: nat, itemSize: nat, op: Operation)
    requires AllOfSize(items, itemSize) && Fits(op, capacity, itemSize) && |items| <= capacity
    ensures var surplus := op.Send? && op.position == Overwrite && items != [];
      && (Serve(items, capacity, itemSize, op) == Perform(items, capacity, op) <==> itemSize > 0 || !surplus)
      && (|Serve(items, capacity, itemSize, op).0| <= capacity <==> itemSize > 0 || !surplus)
    ensures AllOfSize(Perform(items, capacity, op).0, itemSize) && |Perform(items, capacity, op).0| <= capacity
    ensures AllOfSize(Serve(items, capacity, itemSize, op).0, itemSize)
  {
    if itemSize == 0 && op.Send? && Accepts(items, capacity, op.position) && (op.position != Overwrite || items == []) {
      EmptyItemsAlike(items + [op.item], Enqueue(items, op.item, op.position));
    }
  }

  /** An empty item too many is never made up for: the difference shows in a later result or
      stays in the queue. */
  lemma {:induction false} SurplusShows(held: seq<Item>, items: seq<Item>, ops: seq<Operation>)
    requires |items| <= 1 && |items| < |held| && AllOfSize(held, 0) && AllOfSize(items, 0)
    requires forall op :: op in ops ==> Fits(op, 1, 0)
    ensures ServeAll(held, 1, 0, ops) != PerformAll(items, 1, ops)
    decreases |ops|
  {
    if ops != [] {
      var (held1, result) := Serve(held, 1, 0, ops[0]);
      var (items1, expected) := Perform(items, 1, ops[0]);
      assert ops[0] in ops;
      if result == expected {
        SurplusShows(held1, items1, ops[1..]);
        var (_, results) := ServeAll(held1, 1, 0, ops[1..]);
        var (_, expecteds) := PerformAll(items1, 1, ops[1..]);
        assert ([result] + results)[1..] == results && ([expected] + expecteds)[1..] == expecteds;
      } else {
        assert ServeAll(held, 1, 0, ops).1[0] == result && PerformAll(items, 1, ops).1[0] == expected;
      }
    }
  }

  /** Any run of a queue meets the double-ended queue, in results and items, exactly when its
      items are not empty or nothing is ever overwritten. */
  lemma {:induction false} ServeAllMeetsDequeIff(items: seq<Item>, capacity: nat, itemSize: nat, ops: seq<Operation>)
    requires AllOfSize(items, itemSize) && |items| <= capacity
    requires forall op :: op in ops ==> Fits(op, capacity, itemSize)
    ensures ServeAll(items, capacity, itemSize, ops) == PerformAll(items, capacity, ops) <==>
      itemSize > 0 || NothingReplaced(items, capacity, ops)
    decreases |ops|
  {
    if ops != [] {
      var op := ops[0];
      assert op in ops;
      var (items1, result) := Perform(items, capacity, op);
      var (held1, served) := Serve(items, capacity, itemSize, op);
      ServeMeetsDequeIff(items, capacity, itemSize, op);
      ServeAllMeetsDequeIff(items1, capacity, itemSize, ops[1..]);
      if itemSize == 0 && op.Send? && op.position == Overwrite && items != [] {
        SurplusShows(held1, items1, ops[1..]);
      }
      var (_, results) := PerformAll(items1, capacity, ops[1..]);
      var (_, serveds) := ServeAll(held1, capacity, itemSize, ops[1..]);
      assert ([result] + results)[1..] == results && ([served] + serveds)[1..] == serveds;
    }
  }

  /** First in, first out: with sends to the back only, what has been received followed by
      what is still stored is what was stored followed by what was accepted. */
  lemma {:induction false} FirstInFirstOut(items: seq<Item>, capacity: nat, ops: seq<Operation>)
    requires forall op :: op in ops && op.Send? ==> op.position == Back
    ensures var (items', results) := PerformAll(items, capacity, ops);
      Received(ops, results) + items' == items + Accepted(ops, results)
    decreases |ops|
  {
    if ops != [] {
      var (items1, result) := Perform(items, capacity, ops[0]);
      FirstInFirstOut(items1, capacity, ops[1..]);
      var (items2, results) := PerformAll(items1, capacity, ops[1..]);
      assert ([result] + results)[1..] == results;
      var got := if ops[0] == Receive && result.Got? then [result.item] else [];
      var sent := if ops[0].Send? && result == Sent then [ops[0].item] else [];
      assert got + items1 == items + sent by { assert ops[0] in ops; }
      assert got + (Received(ops[1..], results) + items2) == got + (items1 + Accepted(ops[1..], results));
      Regroup(got, Received(ops[1..], results), items2);
      Regroup(got, items1, Accepted(ops[1..], results));
      Regroup(items, sent, Accepted(ops[1..], results));
    }
  }

  lemma Regroup<T>(a: seq<T>, b: seq<T>, c: seq<T>)
    ensures (a + b) + c == a + (b + c)
  {
  }

  /** The i-th result is the answer to the i-th call after the first i. */
  lemma {:induction false} PrefixPerformed(items: seq<Item>, capacity: nat, ops: seq<Operation>, i: nat)
    requires i < |ops|
    ensures var (held, before), (_, results) := PerformAll(items, capacity, ops[..i]), PerformAll(items, capacity, ops);
      before == results[..i] && results[i] == Perform(held, capacity, ops[i]).1
    decreases |ops|
  {
    if i > 0 {
      assert ops[..i][1..] == ops[1..][..i - 1] && ops[..i][0] == ops[0];
      PrefixPerformed(Perform(items, capacity, ops[0]).0, capacity, ops[1..], i - 1);
    }
  }

  /** What a queue of sends to the back answers, in terms of its answers so far: a send is refused
      exactly if as many items are outstanding as there is room for, and a receive or a peek gives
      the oldest outstanding item, if there is one. */
  lemma AnswersExactly(items: seq<Item>, capacity: nat, ops: seq<Operation>, i: nat)
    requires forall op :: op in ops && op.Send? ==> op.position == Back
    requires i < |ops|
    ensures var results := PerformAll(items, capacity, ops).1;
      var sent, taken := items + Accepted(ops[..i], results[..i]), |Received(ops[..i], results[..i])|;
      && taken <= |sent|
      && (ops[i].Send? ==> results[i] == if |sent| - taken < capacity then Sent else Full)
      && (!ops[i].Send? ==> results[i] == if taken < |sent| then Got(sent[taken]) else Empty)
  {
    PrefixPerformed(items, capacity, ops, i);
    FirstInFirstOut(items, capacity, ops[..i]);
    var (held, before) := PerformAll(items, capacity, ops[..i]);
    var sent, received := items + Accepted(ops[..i], before), Received(ops[..i], before);
    assert received + held == sent;
    assert ops[i] in ops;
    assert held != [] ==> sent[|received|] == held[0];
  }

  /** An overwrite leaves one item, whatever was there, and a peek leaves what it shows. */
  lemma OverwriteThenPeek(items: seq<Item>, capacity: nat, item: Item)
    ensures var (items1, result) := Perform(items, capacity, Send(item, Overwrite));
      var (items2, seen) := Perform(items1, capacity, Peek);
      result == Sent && seen == Got(item) && items2 == items1 && Perform(items2, capacity, Receive) == ([], Got(item))
  {
    assert [item][1..] == [];
  }

  /** Sending to the front and receiving with nothing in between gives the same item back
      and leaves the queue as it was. */
  lemma FrontThenReceive(items: seq<Item>, capacity: nat, item: Item)
    requires |items| < capacity
    ensures var (items1, result) := Perform(items, capacity, Send(item, Front));
      result == Sent && Perform(items1, capacity, Receive) == (items, Got(item))
  {
    assert ([item] + items)[1..] == items;
  }
}
