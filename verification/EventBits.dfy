/** A 32-bit word of event bits as the set of the bits that are set in it: | is +, & is *, & ~ is -.
    The upper eight bits are the control byte (event_groups.c with 32-bit ticks). */
module EventBits {

  type Bits = s: set<nat> | forall b :: b in s ==> b < 32

  /** eventCLEAR_EVENTS_ON_EXIT_BIT 0x01000000 and its neighbours. */
  const CLEAR_EVENTS_ON_EXIT: Bits := {24}
  const UNBLOCKED_DUE_TO_BIT_SET: Bits := {25}
  const WAIT_FOR_ALL_BITS: Bits := {26}
  const CONTROL_BYTES: Bits := {24, 25, 26, 27, 28, 29, 30, 31}
  /** taskEVENT_LIST_ITEM_VALUE_IN_USE 0x80000000 */
  const ITEM_VALUE_IN_USE: Bits := {31}

  predicate Application(bits: Bits) {
    bits * CONTROL_BYTES == {}
  }

  /** prvTestWaitCondition. */
  predicate Met(bits: Bits, waitedFor: Bits, all: bool) {
    if all then bits * waitedFor == waitedFor else bits * waitedFor != {}
  }

  // ----- the event list item of a blocked task

  function Pack(waitedFor: Bits, clear: bool, all: bool): Bits {
    waitedFor + (if clear then CLEAR_EVENTS_ON_EXIT else {}) + (if all then WAIT_FOR_ALL_BITS else {}) +
      ITEM_VALUE_IN_USE
  }

  function WaitedFor(item: Bits): Bits {
    item - CONTROL_BYTES
  }

  predicate ClearsOnExit(item: Bits) {
    item * CLEAR_EVENTS_ON_EXIT != {}
  }

  predicate WantsAll(item: Bits) {
    item * WAIT_FOR_ALL_BITS != {}
  }

  /** The value stored when the task is woken by bits. */
  function Unblocked(bits: Bits): Bits {
    bits + UNBLOCKED_DUE_TO_BIT_SET + ITEM_VALUE_IN_USE
  }

  predicate WasUnblocked(item: Bits) {
    item * UNBLOCKED_DUE_TO_BIT_SET != {}
  }

  /** The packed item decodes to what was stored, and is not taken for a wake-up. */
  lemma PackRoundTrip(waitedFor: Bits, clear: bool, all: bool)
    requires Application(waitedFor)
    ensures var item := Pack(waitedFor, clear, all);
      WaitedFor(item) == waitedFor && (ClearsOnExit(item) <==> clear) && (WantsAll(item) <==> all) &&
        !WasUnblocked(item)
  {
    var item := Pack(waitedFor, clear, all);
    assert forall b :: b in waitedFor ==> b !in CONTROL_BYTES by {
      assert forall b :: b in waitedFor && b in CONTROL_BYTES ==> b in waitedFor * CONTROL_BYTES;
    }
    assert 24 in item <==> clear;
    assert 26 in item <==> all;
    assert 25 !in item;
    if clear { assert 24 in item * CLEAR_EVENTS_ON_EXIT; }
    if all { assert 26 in item * WAIT_FOR_ALL_BITS; }
  }

  /** The bits stored at a wake-up come back unchanged, and are recognised as a wake-up. */
  lemma UnblockedRoundTrip(bits: Bits)
    requires Application(bits)
    ensures WasUnblocked(Unblocked(bits)) && Unblocked(bits) - CONTROL_BYTES == bits
  {
    assert forall b :: b in bits && b in CONTROL_BYTES ==> b in bits * CONTROL_BYTES;
    assert 25 in Unblocked(bits) * UNBLOCKED_DUE_TO_BIT_SET;
  }

  lemma ApplicationClosed(a: Bits, b: Bits)
    requires Application(a)
    ensures Application(a - b) && Application(a * b)
    ensures Application(b) ==> Application(a + b)
  {
    assert (a - b) * CONTROL_BYTES <= a * CONTROL_BYTES;
    assert (a * b) * CONTROL_BYTES <= a * CONTROL_BYTES;
    assert (a + b) * CONTROL_BYTES == a * CONTROL_BYTES + b * CONTROL_BYTES;
  }

  /** Fewer bits satisfy fewer conditions. */
  lemma MetMonotone(fewer: Bits, bits: Bits, waitedFor: Bits, all: bool)
    requires fewer <= bits
    ensures Met(fewer, waitedFor, all) ==> Met(bits, waitedFor, all)
  {
    assert fewer * waitedFor <= bits * waitedFor <= waitedFor;
  }
}
