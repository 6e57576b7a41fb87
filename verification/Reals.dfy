/** Comparisons of real numbers. */
module Reals {
  function Abs(x: real): real {
    if x < 0.0 then -x else x
  }

  function Max(x: real, y: real): real {
    if x < y then y else x
  }

  function Min(x: real, y: real): real {
    if x < y then x else y
  }

  function Clip(x: real, lo: real, hi: real): real {
    Max(lo, Min(hi, x))
  }
}
