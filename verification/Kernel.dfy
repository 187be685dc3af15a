/** Constants and machine arithmetic that the schedulers share. */
module Kernel {

  const U64: int := 0x1_0000_0000_0000_0000
  const NSEC_PER_SEC: int := 1_000_000_000
  const CFQ_IDLE_DELAY: int := NSEC_PER_SEC / 5

  /** Fixed-point one, 1 << CFQ_SERVICE_SHIFT. */
  const ONE: int := 4096

  /** Unsigned 64-bit wrap-around. */
  function Wrap(x: int): (r: int)
    ensures 0 <= r < U64
    ensures 0 <= x < U64 ==> r == x
  {
    x % U64
  }

  /** Data direction of a request. */
  datatype Dir = READ | WRITE
}
