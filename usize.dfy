/** Rust `usize` arithmetic used by the viewport code, on unbounded naturals.
    Only the saturating forms appear in the source, so no wrap-around is needed. */
module Usize {

  /** `a.saturating_sub(b)`: never below zero. */
  function SatSub(a: nat, b: nat): nat {
    if a >= b then a - b else 0
  }

  /** `a.min(b)`. */
  function Min(a: nat, b: nat): nat {
    if a <= b then a else b
  }
}
