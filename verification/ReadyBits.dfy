/** uxTopReadyPriority as its 32 bits (configUSE_PORT_OPTIMISED_TASK_SELECTION is 1). */
module ReadyBits {

  const MAX_PRIORITIES: nat := 7
  const WORD: nat := 32

  type Priority = p: nat | p < MAX_PRIORITIES witness 0

  type Bitmap = b: seq<bool> | |b| == WORD witness seq(WORD, _ => false)

  /** portRECORD_READY_PRIORITY: |= 1UL << p. */
  function Record(bits: Bitmap, p: Priority): Bitmap {
    bits[p := true]
  }

  /** portRESET_READY_PRIORITY: &= ~(1UL << p). */
  function Reset(bits: Bitmap, p: Priority): Bitmap {
    bits[p := false]
  }

  /** __CLZ: the number of clear bits above the highest set one. */
  function LeadingZeros(bits: Bitmap, from: nat): (n: nat)
    requires from <= WORD
    ensures n <= from
    ensures forall p :: from - n <= p < from ==> !bits[p]
    ensures n < from ==> bits[from - n - 1]
  {
    if from == 0 || bits[from - 1] then 0 else 1 + LeadingZeros(bits, from - 1)
  }

  /** portGET_HIGHEST_PRIORITY: 31 - __CLZ, which the code only evaluates on a non-zero word. */
  function Highest(bits: Bitmap): (p: nat)
    requires exists q :: 0 <= q < WORD && bits[q]
    ensures p < WORD && bits[p] && forall q :: p < q < WORD ==> !bits[q]
  {
    31 - LeadingZeros(bits, WORD)
  }
}
