/** Powers of a number base. */
module Numerals {
  function Power(base: nat, n: nat): nat {
    if n == 0 then 1 else base * Power(base, n - 1)
  }
}
