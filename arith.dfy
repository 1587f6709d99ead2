/** Monotonicity of multiplication, used by the chunk and window arithmetic. */
module Arith {

  lemma MulMonotone(x: nat, y: nat, b: nat)
    requires x <= y
    ensures x * b <= y * b
  {
  }
}
