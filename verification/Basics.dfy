/** Types shared by the other modules. */
module Basics {

  datatype Option<+T> = None | Some(value: T)

  type Byte = x: nat | x < 0x100

  /** A product, under a name that proofs can hide. */
  function Times(n: nat, x: nat): nat {
    n * x
  }

  lemma TimesStep(n: nat, x: nat)
    ensures Times(0, x) == 0 && Times(1, x) == x
    ensures Times(n + 1, x) == Times(n, x) + x
  {
  }
}
