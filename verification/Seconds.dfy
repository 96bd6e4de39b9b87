/** Rounding of waiting times. */
module Seconds {
  /** Math.ceil(ms / 1000) */
  function CeilSeconds(ms: int): (s: int)
    ensures 1000 * (s - 1) < ms <= 1000 * s
  {
    -((-ms) / 1000)
  }
}
