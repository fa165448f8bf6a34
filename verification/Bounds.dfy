/** Clamping to a range, as both safety modules define it
    (pibot/control/safety.py and pibot/arm/safety.py), and int() of a float. */
module Bounds {

  /** max(low, min(high, value)) */
  function Bound(value: real, low: real, high: real): (r: real)
    ensures low <= high ==> low <= r <= high
    ensures low <= value <= high ==> r == value
  {
    var capped := if value < high then value else high;
    if capped > low then capped else low
  }

  /** `y` is `x` if that is in the range, else the end of the range on its side. */
  predicate Nearest(x: real, low: real, high: real, y: real) {
    if x < low then y == low else if x > high then y == high else y == x
  }

  /** Towards zero. */
  function Truncate(x: real): (n: int)
    ensures x >= 0.0 ==> n as real <= x < n as real + 1.0
    ensures x <= 0.0 ==> n as real - 1.0 < x <= n as real
  {
    if x >= 0.0 then x.Floor else -((-x).Floor)
  }

  lemma TruncateWhole(n: int)
    ensures Truncate(n as real) == n
  {
  }
}
