/** The little arithmetic the adapters and the paged query share. */
module Arithmetic {

  function Min(x: nat, y: nat): nat {
    if x < y then x else y
  }

  lemma {:induction false} Times(x: nat, y: nat, n: nat)
    requires x <= y
    ensures x * n <= y * n
  {
    assert (y - x) * n >= 0;
  }
}
