/** The few numeric helpers the program spells out with `Math.max`, `Math.min` and `Math.round`. */
module Numeric {

  function Max(a: int, b: int): int {
    if a < b then b else a
  }

  function Min(a: int, b: int): int {
    if a < b then a else b
  }

  /** `Math.max(lo, Math.min(hi, v))`. */
  function Clamp(v: int, lo: int, hi: int): (r: int)
    requires lo <= hi
    ensures lo <= r <= hi
    ensures lo <= v <= hi ==> r == v
    ensures v < lo ==> r == lo
    ensures hi < v ==> r == hi
  {
    Max(lo, Min(hi, v))
  }

  /** `Math.round`: the nearest integer, halves rounded towards positive infinity. */
  function Round(x: real): (r: int)
    ensures x - 1.0 / 2.0 < r as real <= x + 1.0 / 2.0
  {
    (x + 1.0 / 2.0).Floor
  }
}
