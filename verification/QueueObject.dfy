/** queue.c: one queue object with its byte storage, wait lists and lock counters. */
module QueueObject {
  import opened Deque
  import opened Arithmetic
  import Ring
  import P = QueueProtocol

  lemma SlotBounds(slot: nat, length: nat, size: nat)
    requires slot < length
    ensures slot * size + size <= length * size
  {
    var beyond := length - slot - 1;
    assert length * size == (slot + 1 + beyond) * size == slot * size + size + beyond * size;
  }

  lemma SlotsApart(i: nat, k: nat, size: nat)
    requires i != k
    ensures i * size + size <= k * size || k * size + size <= i * size
  {
    MulOrder(i + 1, k, size);
    MulOrder(k + 1, i, size);
    assert (i + 1) * size == i * size + size && (k + 1) * size == k * size + size;
  }

  /** The storage area cut into `length` items of `size` bytes. */
  ghost function Slots(bytes: seq<bv8>, length: nat, size: nat): (r: seq<Item>)
    requires |bytes| == length * size
    ensures |r| == length
  {
    seq(length, i requires 0 <= i < length => SlotBytes(bytes, i, length, size))
  }

  ghost function SlotBytes(bytes: seq<bv8>, i: nat, length: nat, size: nat): (r: Item)
    requires |bytes| == length * size && i < length
    ensures |r| == size
  {
    SlotBounds(i, length, size);
    bytes[i * size..i * size + size]
  }

  /** Moving one slot on, in bytes, with the wrap at pcTail. */
  lemma SlotStep(slot: nat, length: nat, size: nat)
    requires slot < length && size > 0
    ensures var next := slot * size + size;
      (if next >= length * size then 0 else next) == Ring.Wrap(length, slot + 1) * size
  {
    SlotBounds(slot, length, size);
    if slot + 1 < length { SlotBounds(slot + 1, length, size); }
  }

  lemma SlotStepBack(slot: nat, length: nat, size: nat)
    requires slot < length && size > 0
    ensures length * size - size >= 0
    ensures (if slot * size < size then length * size - size else slot * size - size) ==
      Ring.Previous(length, slot) * size
  {
    assert length * size - size == (length - 1) * size;
    if slot > 0 { assert slot * size - size == (slot - 1) * size; }
  }

  /** Copying an item over one slot changes that slot and no other. */
  lemma CopyChangesOneSlot(bytes: seq<bv8>, length: nat, size: nat, slot: nat, item: Item, bytes': seq<bv8>)
    requires |bytes| == |bytes'| == length * size && slot < length && |item| == size
    requires slot * size + size <= length * size
    requires bytes' == bytes[..slot * size] + item + bytes[slot * size + size..]
    ensures Slots(bytes', length, size) == Slots(bytes, length, size)[slot := item]
  {
    forall i | 0 <= i < length
      ensures SlotBytes(bytes', i, length, size) == (if i == slot then item else SlotBytes(bytes, i, length, size))
    {
      SlotBounds(i, length, size);
      if i != slot { SlotsApart(i, slot, size); }
    }
  }

  class Queue {
    const length: nat
    const itemSize: nat
    const storage: array<bv8>
    var messages: nat
    var readFrom: nat
    var writeTo: nat
    var rxLock: int
    var txLock: int
    var waitingToSend: seq<P.TaskId>
    var waitingToReceive: seq<P.TaskId>
    ghost var lastRead: nat
    ghost var wokenSenders: set<P.TaskId>
    ghost var wokenReceivers: set<P.TaskId>

    /** readFrom and writeTo are byte offsets from pcHead; pcTail is length * itemSize. */
    ghost predicate Valid()
      reads this, storage
    {
      && length > 0
      && storage.Length == length * itemSize
      && (itemSize > 0 ==> messages <= length)
      && lastRead < length
      && (itemSize > 0 ==>
            readFrom == lastRead * itemSize &&
            writeTo == Ring.Wrap(length, lastRead + 1 + messages) * itemSize)
    }

    ghost function Contents(): (r: seq<Item>)
      requires Valid()
      reads this, storage
      ensures |r| == messages
    {
      if itemSize == 0 then seq(messages, _ => [])
      else Ring.Stored(Slots(storage[..], length, itemSize), lastRead, messages)
    }

    lemma ContentsOfSize()
      requires Valid()
      ensures AllOfSize(Contents(), itemSize)
    {
      if itemSize > 0 {
        forall i | 0 <= i < |Contents()| ensures |Contents()[i]| == itemSize {
          assert Contents()[i] == SlotBytes(storage[..], Ring.Wrap(length, lastRead + 1 + i), length, itemSize);
        }
      }
    }

    /** The fields the blocking protocol works on. */
    ghost function Control(): P.Control
      reads this
    {
      P.Control(length, itemSize == 0, messages, rxLock, txLock, waitingToSend, waitingToReceive,
                wokenSenders, wokenReceivers)
    }

    constructor (uxLength: nat, uxItemSize: nat)
      requires uxLength > 0
      ensures Valid() && fresh(storage) && length == uxLength && itemSize == uxItemSize
      ensures Contents() == []
      ensures Control() == P.Control(uxLength, uxItemSize == 0, 0, P.UNLOCKED, P.UNLOCKED, [], [], {}, {})
    {
      length, itemSize := uxLength, uxItemSize;
      storage := new bv8[uxLength * uxItemSize];
      messages, writeTo, readFrom := 0, 0, (uxLength - 1) * uxItemSize;
      rxLock, txLock := P.UNLOCKED, P.UNLOCKED;
      waitingToSend, waitingToReceive := [], [];
      lastRead, wokenSenders, wokenReceivers := uxLength - 1, {}, {};
    }

    /** memcpy into the storage area, at the start of a slot. */
    method CopyIn(offset: nat, item: Item, ghost slot: nat)
      requires storage.Length == length * itemSize && |item| == itemSize
      requires slot < length && offset == slot * itemSize
      modifies storage
      ensures Slots(storage[..], length, itemSize) == old(Slots(storage[..], length, itemSize))[slot := item]
    {
      SlotBounds(slot, length, itemSize);
      forall j | 0 <= j < itemSize { storage[offset + j] := item[j]; }
      assert storage[..] == old(storage[..])[..offset] + item + old(storage[..])[offset + itemSize..];
      CopyChangesOneSlot(old(storage[..]), length, itemSize, slot, item, storage[..]);
    }

    /** The write position moves on; the item goes behind the stored ones. */
    method CopyToBack(item: Item)
      requires Valid() && |item| == itemSize && itemSize > 0 && messages < length
      modifies this`writeTo, storage
      ensures writeTo == Ring.Wrap(length, lastRead + 1 + (messages + 1)) * itemSize
      ensures Ring.Stored(Slots(storage[..], length, itemSize), lastRead, messages + 1) == old(Contents()) + [item]
    {
      ghost var slots, slot := Slots(storage[..], length, itemSize), Ring.Wrap(length, lastRead + 1 + messages);
      Ring.WrapSteps(length, lastRead, messages);
      Ring.PushBack(slots, lastRead, messages, item);
      SlotStep(slot, length, itemSize);
      hide Slots, Ring.Stored, Ring.Wrap;
      CopyIn(writeTo, item, slot);
      writeTo := writeTo + itemSize;
      if writeTo >= length * itemSize { writeTo := 0; }
    }

    /** The read position moves back; the item goes before the first count stored ones. */
    method CopyToFront(item: Item, ghost count: nat)
      requires Valid() && |item| == itemSize && itemSize > 0 && count < length
      modifies this`readFrom, this`lastRead, storage
      ensures lastRead == Ring.Previous(length, old(lastRead)) < length && readFrom == lastRead * itemSize
      ensures Ring.Stored(Slots(storage[..], length, itemSize), lastRead, count + 1) ==
        [item] + Ring.Stored(old(Slots(storage[..], length, itemSize)), old(lastRead), count)
    {
      ghost var slots := Slots(storage[..], length, itemSize);
      Ring.PushFront(slots, lastRead, count, item);
      SlotStepBack(lastRead, length, itemSize);
      hide Slots, Ring.Stored, Ring.Wrap;
      CopyIn(readFrom, item, lastRead);
      if readFrom < itemSize { readFrom := length * itemSize - itemSize; } else { readFrom := readFrom - itemSize; }
      lastRead := Ring.Previous(length, lastRead);
    }

    /** prvCopyDataToQueue, for a queue that is not a mutex. */
    method CopyDataToQueue(item: Item, position: Position)
      requires Valid() && |item| == itemSize
      requires if position == Overwrite then length == 1 else messages < length
      modifies this`messages, this`readFrom, this`writeTo, this`lastRead, storage
      ensures Valid()
      ensures Contents() == Store(old(Contents()), itemSize, item, position)
      ensures Control() == P.AddMessage(old(Control()), position == Overwrite)
    {
      hide Slots, Ring.Stored;
      var waiting := messages;
      if itemSize == 0 {
      } else if position == Back {
        CopyToBack(item);
      } else {
        if position == Overwrite {
          if waiting > 0 { waiting := waiting - 1; }
        }
        assert waiting == 0 ==> Ring.Stored(Slots(storage[..], length, itemSize), lastRead, waiting) == [];
        Ring.WrapSteps(length, lastRead, waiting);
        CopyToFront(item, waiting);
      }
      messages := waiting + 1;
    }

    /** memcpy out of the storage area, from the start of a slot. */
    method CopyOut(offset: nat, ghost slot: nat) returns (buffer: Item)
      requires storage.Length == length * itemSize && slot < length && offset == slot * itemSize
      ensures buffer == Slots(storage[..], length, itemSize)[slot]
    {
      SlotBounds(slot, length, itemSize);
      buffer := storage[offset..offset + itemSize];
      assert buffer == SlotBytes(storage[..], slot, length, itemSize);
    }

    lemma PoppedSlot(size: nat, last: nat, count: nat)
      requires last < size && 0 < count <= size
      ensures Ring.Wrap(size, last + 1 + count) == Ring.Wrap(size, Ring.Wrap(size, last + 1) + count)
    {
    }

    /** prvCopyDataFromQueue: advance the read pointer and copy the item there. */
    method CopyDataFromQueue() returns (buffer: Item)
      requires Valid() && messages > 0
      modifies this`readFrom, this`lastRead
      ensures unchanged(storage) && buffer == old(Contents())[0]
      ensures itemSize == 0 ==> Valid() && Contents() == old(Contents())
      ensures itemSize > 0 ==>
        && lastRead == Ring.Wrap(length, old(lastRead) + 1) && readFrom == lastRead * itemSize
        && writeTo == Ring.Wrap(length, lastRead + messages) * itemSize
        && Ring.Stored(Slots(storage[..], length, itemSize), lastRead, messages - 1) == old(Contents())[1..]
    {
      hide Slots, Ring.Stored, Ring.Wrap;
      buffer := [];
      if itemSize != 0 {
        SlotStep(lastRead, length, itemSize);
        readFrom := readFrom + itemSize;
        if readFrom >= length * itemSize { readFrom := 0; }
        buffer := CopyOut(readFrom, Ring.Wrap(length, lastRead + 1));
        PoppedSlot(length, lastRead, messages);
        Ring.PopFront(Slots(storage[..], length, itemSize), lastRead, messages);
        lastRead := Ring.Wrap(length, lastRead + 1);
      }
    }

    method WakeReceiver()
      requires waitingToReceive != []
      modifies this`waitingToReceive, this`wokenReceivers
      ensures Control() == P.WakeReceiver(old(Control()))
    {
      wokenReceivers := wokenReceivers + {waitingToReceive[0]};
      waitingToReceive := waitingToReceive[1..];
    }

    method WakeSender()
      requires waitingToSend != []
      modifies this`waitingToSend, this`wokenSenders
      ensures Control() == P.WakeSender(old(Control()))
    {
      wokenSenders := wokenSenders + {waitingToSend[0]};
      waitingToSend := waitingToSend[1..];
    }

    /** The first critical section of xQueueGenericSend. */
    method Send(item: Item, position: Position) returns (sent: bool)
      requires Valid() && |item| == itemSize && (position == Overwrite ==> length == 1)
      modifies this, storage
      ensures Valid()
      ensures sent == P.HasRoom(old(Control()), position == Overwrite)
      ensures (Contents(), if sent then Sent else Full) ==
        Serve(old(Contents()), length, itemSize, Deque.Operation.Send(item, position))
      ensures Control() == if sent then P.SendSection(old(Control()), position == Overwrite) else old(Control())
    {
      sent := messages < length || position == Overwrite;
      if sent {
        CopyDataToQueue(item, position);
        if waitingToReceive != [] { WakeReceiver(); }
      }
    }

    /** The first critical section of xQueueGenericReceive. */
    method Receive(justPeeking: bool) returns (got: bool, buffer: Item)
      requires Valid()
      modifies this
      ensures Valid() && got == (old(messages) > 0)
      ensures var op := if justPeeking then Peek else Deque.Operation.Receive;
        (Contents(), if got then Got(buffer) else Empty) == Perform(old(Contents()), length, op)
      ensures Control() == if got then P.ReceiveSection(old(Control()), justPeeking) else old(Control())
    {
      got, buffer := messages > 0, [];
      if got {
        var originalReadPosition := readFrom;
        ghost var originalSlot := lastRead;
        buffer := CopyDataFromQueue();
        if !justPeeking {
          messages := messages - 1;
          assert Contents() == old(Contents())[1..];
          if waitingToSend != [] { WakeSender(); }
        } else {
          readFrom, lastRead := originalReadPosition, originalSlot;
          if waitingToReceive != [] { WakeReceiver(); }
        }
      }
    }

    /** xQueueGenericSendFromISR, and xQueueGiveFromISR when the items are empty. */
    method SendFromISR(item: Item, position: Position) returns (sent: bool)
      requires Valid() && |item| == itemSize && (position == Overwrite ==> length == 1)
      modifies this, storage
      ensures Valid()
      ensures sent == P.HasRoom(old(Control()), position == Overwrite)
      ensures (Contents(), if sent then Sent else Full) ==
        Serve(old(Contents()), length, itemSize, Deque.Operation.Send(item, position))
      ensures Control() == P.IsrSendSection(old(Control()), position == Overwrite)
    {
      sent := messages < length || position == Overwrite;
      if sent {
        var lock := txLock;
        CopyDataToQueue(item, position);
        if lock == P.UNLOCKED {
          if waitingToReceive != [] { WakeReceiver(); }
        } else {
          txLock := P.Int8Increment(lock);
        }
      }
    }

    method ReceiveFromISR() returns (got: bool, buffer: Item)
      requires Valid()
      modifies this
      ensures Valid() && got == (old(messages) > 0)
      ensures (Contents(), if got then Got(buffer) else Empty) ==
        Perform(old(Contents()), length, Deque.Operation.Receive)
      ensures Control() == P.IsrReceiveSection(old(Control()))
    {
      got, buffer := messages > 0, [];
      if got {
        var lock := rxLock;
        buffer := CopyDataFromQueue();
        messages := messages - 1;
        assert Contents() == old(Contents())[1..];
        if lock == P.UNLOCKED {
          if waitingToSend != [] { WakeSender(); }
        } else {
          rxLock := P.Int8Increment(lock);
        }
      }
    }

    method PeekFromISR() returns (got: bool, buffer: Item)
      requires Valid()
      modifies this`readFrom, this`lastRead
      ensures Valid() && Control() == old(Control())
      ensures (Contents(), if got then Got(buffer) else Empty) == Perform(old(Contents()), length, Peek)
    {
      got, buffer := messages > 0, [];
      if got {
        var originalReadPosition := readFrom;
        ghost var originalSlot := lastRead;
        buffer := CopyDataFromQueue();
        readFrom, lastRead := originalReadPosition, originalSlot;
      }
    }

    /** prvLockQueue. */
    method Lock()
      modifies this`rxLock, this`txLock
      ensures Control() == P.LockSection(old(Control()))
    {
      if rxLock == P.UNLOCKED { rxLock := P.LOCKED_UNMODIFIED; }
      if txLock == P.UNLOCKED { txLock := P.LOCKED_UNMODIFIED; }
    }

    /** The first critical section of prvUnlockQueue. */
    method UnlockTx()
      modifies this`txLock, this`waitingToReceive, this`wokenReceivers
      ensures Control() == P.UnlockTxSection(old(Control()))
    {
      var lock := txLock;
      while lock > P.LOCKED_UNMODIFIED
        invariant txLock == old(txLock)
        invariant P.WakeReceivers(Control(), lock) == P.WakeReceivers(old(Control()), old(txLock))
      {
        if waitingToReceive == [] { break; }
        WakeReceiver();
        lock := lock - 1;
      }
      txLock := P.UNLOCKED;
    }

    /** The second critical section of prvUnlockQueue. */
    method UnlockRx()
      modifies this`rxLock, this`waitingToSend, this`wokenSenders
      ensures Control() == P.UnlockRxSection(old(Control()))
    {
      var lock := rxLock;
      while lock > P.LOCKED_UNMODIFIED
        invariant rxLock == old(rxLock)
        invariant P.WakeSenders(Control(), lock) == P.WakeSenders(old(Control()), old(rxLock))
      {
        if waitingToSend == [] { break; }
        WakeSender();
        lock := lock - 1;
      }
      rxLock := P.UNLOCKED;
    }

    /** Any sequence of non-blocking sends, receives and peeks on the byte ring, for any item
        size, gives exactly the results, and leaves exactly the items, of the double-ended
        queue, unless it overwrites an empty item. */
    method PerformOperations(ops: seq<Deque.Operation>) returns (results: seq<Result>)
      requires Valid()
      requires forall op :: op in ops ==> Fits(op, length, itemSize)
      modifies this, storage
      ensures Valid()
      ensures (Contents(), results) == ServeAll(old(Contents()), length, itemSize, ops)
      ensures old(messages) <= length ==>
        ((Contents(), results) == PerformAll(old(Contents()), length, ops) <==>
          itemSize > 0 || NothingReplaced(old(Contents()), length, ops))
    {
      ghost var was := Contents();
      ContentsOfSize();
      if messages <= length { ServeAllMeetsDequeIff(was, length, itemSize, ops); }
      if ops == [] { return []; }
      assert ops[0] in ops;
      var result;
      match ops[0] {
        case Send(item, position) =>
          var sent := Send(item, position);
          result := if sent then Sent else Full;
        case Receive =>
          var got, buffer := Receive(false);
          result := if got then Got(buffer) else Empty;
        case Peek =>
          var got, buffer := Receive(true);
          result := if got then Got(buffer) else Empty;
      }
      assert (Contents(), result) == Serve(was, length, itemSize, ops[0]);
      var rest := PerformOperations(ops[1..]);
      results := [result] + rest;
    }
  }

  /** A binary semaphore that is given twice by overwriting has a count of 2, beyond its length. */
  method OverwriteTwice() returns (q: Queue)
    ensures fresh(q) && q.Valid() && q.length == 1 && q.itemSize == 0 && q.messages == 2
    ensures q.Contents() != PerformAll([], 1,
      [Deque.Operation.Send([], Overwrite), Deque.Operation.Send([], Overwrite)]).0
  {
    q := new Queue(1, 0);
    var ops := [Deque.Operation.Send([], Overwrite), Deque.Operation.Send([], Overwrite)];
    var first := q.Send([], Overwrite);
    var second := q.Send([], Overwrite);
    assert ops[1..] == [ops[1]] && ops[1..][1..] == [];
  }

  /** queueOVERWRITE on a length-1 queue of empty items, a binary semaphore, does not replace:
      the call meets the double-ended queue, and the count stays within the length, exactly
      when the semaphore was not given. */
  lemma OverwriteStaysWithinLength(q: P.Control, items: seq<Item>, itemSize: nat, item: Item)
    requires q.length == 1 && q.messages == |items| <= 1 && q.zeroSize == (itemSize == 0)
    requires AllOfSize(items, itemSize) && |item| == itemSize
    ensures var op := Deque.Operation.Send(item, Overwrite);
      && P.AddMessage(q, true).messages == |Serve(items, 1, itemSize, op).0|
      && (P.AddMessage(q, true).messages <= q.length <==> itemSize > 0 || items == [])
      && (Serve(items, 1, itemSize, op) == Perform(items, 1, op) <==> itemSize > 0 || items == [])
  {
    ServeMeetsDequeIff(items, 1, itemSize, Deque.Operation.Send(item, Overwrite));
  }
}
