/** Facts about products and remainders that the solver does not find by itself. */
module Arithmetic {

  lemma DivBounds(a: nat, k: nat)
    requires k > 0
    ensures a / k * k <= a < a / k * k + k
  {
  }

  lemma MulMonotone(x: nat, y: nat, k: nat)
    requires x <= y
    ensures x * k <= y * k
  {
  }

  lemma Distribute(x: nat, y: nat, k: nat)
    ensures (x + y) * k == x * k + y * k
  {
  }

  /** Quotient and remainder are the only ones that fit. */
  lemma Remainder(x: nat, k: nat, q: nat, r: nat)
    requires x == q * k + r && r < k
    ensures x % k == r
  {
    var d := x / k;
    DivBounds(x, k);
    if q < d {
      MulMonotone(q + 1, d, k);
      Distribute(q, 1, k);
      assert false;
    }
    if d < q {
      MulMonotone(d + 1, q, k);
      Distribute(d, 1, k);
      assert false;
    }
    assert x == x / k * k + x % k;
  }

  lemma MultipleMod(q: nat, k: nat)
    requires k > 0
    ensures q * k % k == 0
  {
    Remainder(q * k, k, q, 0);
  }
}
