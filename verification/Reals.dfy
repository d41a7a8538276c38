/** `Math.min`, `Math.max` and `Math.abs`. */
module Reals {
  function Min(a: real, b: real): real { if a < b then a else b }
  function Max(a: real, b: real): real { if a > b then a else b }
  function Abs(x: real): real { if x < 0.0 then 0.0 - x else x }
}
