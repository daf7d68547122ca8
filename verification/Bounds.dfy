/** Bounded arithmetic on natural numbers, as the source's `min` and `saturating_sub`. */
module Bounds {
  function Min(a: nat, b: nat): nat { if a < b then a else b }

  function SaturatingSub(a: nat, b: nat): nat { if a < b then 0 else a - b }
}
