/** Numeric helpers shared by the scoring code: `min`/`max` on reals and Python's `round`, kept abstract. */
module Numeric {

  /** Python's `round(x, ndigits)`; the model never fixes which rounding function it is. */
  type Rounding = (real, nat) -> real

  /** A rounding function that never reverses the order of two values. */
  ghost predicate MonotoneRounding(round: Rounding) {
    forall x: real, y: real, d: nat {:trigger round(x, d), round(y, d)} :: x <= y ==> round(x, d) <= round(y, d)
  }

  function Min(x: real, y: real): (r: real)
    ensures r <= x && r <= y
    ensures r == x || r == y
  {
    if x <= y then x else y
  }

  function Max(x: real, y: real): (r: real)
    ensures x <= r && y <= r
    ensures r == x || r == y
  {
    if x <= y then y else x
  }
}
