/** Rounding up. */
module Rounding {

  /** `Math.ceil(ms / 1000)` */
  function CeilSeconds(ms: int): (s: int)
    ensures 1000 * (s - 1) < ms <= 1000 * s
  {
    -((-ms) / 1000)
  }

  function Ceil(x: real): (n: int)
    ensures (n - 1) as real < x <= n as real
  {
    -((-x).Floor)
  }

  function MaxInt(a: int, b: int): (m: int) { if a >= b then a else b }
}
