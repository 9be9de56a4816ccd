module Naturals {
  function Min(a: nat, b: nat): nat {
    if a < b then a else b
  }

  function Max(a: nat, b: nat): nat {
    if a < b then b else a
  }

  /** Subtraction that stops at zero. */
  function Minus(a: nat, b: nat): nat {
    if a < b then 0 else a - b
  }
}
