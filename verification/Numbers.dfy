/** Arithmetic that several modules share. */
module Numbers {

  function Min(a: nat, b: nat): nat {
    if a < b then a else b
  }

  function Abs(x: real): real {
    if x < 0.0 then -x else x
  }

  /** A product as a named term, so that proofs about sums of products can stay linear. */
  function Mul(a: real, b: real): real {
    a * b
  }

  lemma ProductNonnegative(x: real, y: real)
    requires x >= 0.0 && y >= 0.0
    ensures x * y >= 0.0
  {
  }
}
