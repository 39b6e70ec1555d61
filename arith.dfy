/** Integer facts the block and ring arithmetic rely on. */
module Arith {

  lemma MulMono(a: int, b: int, B: nat)
    requires a <= b
    ensures a * B <= b * B
  {
    var d := b - a;
    assert b * B == a * B + d * B;
    assert d * B >= 0;
  }

  /** Distributivity, as a lemma of its own: called where the step is needed,
      it keeps the nonlinear fact out of the larger schedule proofs, which
      the solver otherwise finds much costlier. */
  lemma MulAdd(a: int, b: int, B: int)
    ensures a * B + b * B == (a + b) * B
  {
  }

  lemma DivModUnique(x: int, q: int, r: int, B: nat)
    requires B > 0 && x == q * B + r && 0 <= r < B
    ensures x / B == q && x % B == r
  {
    var q', r' := x / B, x % B;
    assert x == q' * B + r' && 0 <= r' < B;
    if q' < q {
      MulMono(q' + 1, q, B);
      assert false;
    }
    if q' > q {
      MulMono(q + 1, q', B);
      assert false;
    }
  }
}
