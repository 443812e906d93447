/** The 32-bit tick type of the port (configUSE_16_BIT_TICKS is 0). */
module Ticks {
  const WRAP: int := 0x1_0000_0000
  const MAX_DELAY: int := WRAP - 1

  type Tick = t: int | 0 <= t < WRAP witness 0

  /** Unsigned 32-bit arithmetic. */
  function Wrapped(n: int): Tick {
    n % WRAP
  }
}
