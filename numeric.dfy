/**
 * Helpers for the `f32::min`, `f32::max` and `abs` calls of the source, on reals.
 * Their bodies are all a caller needs; they carry no contracts of their own.
 */
module Numeric {

  function Min(a: real, b: real): real {
    if a <= b then a else b
  }

  function Max(a: real, b: real): real {
    if a >= b then a else b
  }

  function Abs(a: real): real {
    if a < 0.0 then -a else a
  }
}
