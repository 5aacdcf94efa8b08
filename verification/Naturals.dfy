/** Arithmetic of unsigned words: the least, the greatest, and subtraction that stops at zero. */
module Naturals {

  function Min(a: nat, b: nat): nat {
    if a <= b then a else b
  }

  function Max(a: nat, b: nat): nat {
    if a <= b then b else a
  }

  function Minus(a: nat, b: nat): nat {
    if b <= a then a - b else 0
  }
}
