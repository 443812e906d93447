/** The ring of item slots behind a queue, without the byte arithmetic. */
module Ring {

  /** Slot number `i` of a ring, for walks of at most twice round. */
  function Wrap(length: nat, i: nat): (r: nat)
    requires i < 3 * length
    ensures r < length
  {
    if i < length then i else if i < 2 * length then i - length else i - 2 * length
  }

  /** The stored items: the slots that follow the last one read. */
  function Stored<T>(slots: seq<T>, last: nat, count: nat): (r: seq<T>)
    requires last < |slots| && count <= |slots|
    ensures |r| == count
  {
    seq(count, k requires 0 <= k < count => slots[Wrap(|slots|, last + 1 + k)])
  }

  function Previous(length: nat, slot: nat): nat
    requires slot < length
  {
    if slot == 0 then length - 1 else slot - 1
  }

  lemma WrapSteps(length: nat, last: nat, count: nat)
    requires last < length && count < length
    ensures Wrap(length, Wrap(length, last + 1 + count) + 1) == Wrap(length, last + 1 + (count + 1))
    ensures Wrap(length, Previous(length, last) + 1 + (count + 1)) == Wrap(length, last + 1 + count)
  {
  }

  /** Slots are all different while the ring is not walked twice. */
  lemma WriteSlotIsFree(length: nat, last: nat, count: nat, k: nat)
    requires last < length && k < count < length
    ensures Wrap(length, last + 1 + k) != Wrap(length, last + 1 + count)
    ensures Wrap(length, last + 1 + k) != last
  {
  }

  lemma PushBack<T>(slots: seq<T>, last: nat, count: nat, x: T)
    requires last < |slots| && count < |slots|
    ensures Stored(slots[Wrap(|slots|, last + 1 + count) := x], last, count + 1) == Stored(slots, last, count) + [x]
  {
    var slots' := slots[Wrap(|slots|, last + 1 + count) := x];
    var r, s := Stored(slots', last, count + 1), Stored(slots, last, count) + [x];
    forall k | 0 <= k <= count ensures r[k] == s[k] {
      assert r[k] == slots'[Wrap(|slots|, last + 1 + k)];
      if k < count { WriteSlotIsFree(|slots|, last, count, k); }
    }
  }

  lemma PushFront<T>(slots: seq<T>, last: nat, count: nat, x: T)
    requires last < |slots| && count < |slots|
    ensures Stored(slots[last := x], Previous(|slots|, last), count + 1) == [x] + Stored(slots, last, count)
  {
    var r, s := Stored(slots[last := x], Previous(|slots|, last), count + 1), [x] + Stored(slots, last, count);
    forall k | 0 <= k <= count ensures r[k] == s[k] {
      assert r[k] == slots[last := x][Wrap(|slots|, Previous(|slots|, last) + 1 + k)];
      if k > 0 { WriteSlotIsFree(|slots|, last, count, k - 1); }
    }
  }

  lemma PopFront<T>(slots: seq<T>, last: nat, count: nat)
    requires last < |slots| && 0 < count <= |slots|
    ensures slots[Wrap(|slots|, last + 1)] == Stored(slots, last, count)[0]
    ensures Stored(slots, Wrap(|slots|, last + 1), count - 1) == Stored(slots, last, count)[1..]
  {
    var r, s := Stored(slots, Wrap(|slots|, last + 1), count - 1), Stored(slots, last, count)[1..];
    forall k | 0 <= k < count - 1 ensures r[k] == s[k] {
      assert r[k] == slots[Wrap(|slots|, Wrap(|slots|, last + 1) + 1 + k)];
      assert s[k] == slots[Wrap(|slots|, last + 1 + (k + 1))];
    }
  }
}
