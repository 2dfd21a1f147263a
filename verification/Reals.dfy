/** Extremes and magnitude of real numbers. */
module Reals {

  function Min(a: real, b: real): real {
    if a <= b then a else b
  }

  function Max(a: real, b: real): real {
    if a <= b then b else a
  }

  function Abs(x: real): real {
    if x < 0.0 then -x else x
  }
}
