/** Facts about Euclidean division by a positive divisor, shared by the page and bucket counts. */
module Arith {

  lemma DivSmall(m: nat, k: nat)
    requires m < k
    ensures m / k == 0
  {
  }

  lemma DivStep(m: nat, k: nat)
    requires k > 0
    ensures (m + k) / k == m / k + 1
  {
    var q, r := m / k, m % k;
    assert (q + 1) * k == q * k + k;
    DivUnique(m + k, k, q + 1, r);
  }

  /** Division has one quotient: the one with a remainder in `[0, k)`. */
  lemma DivUnique(a: int, k: int, q: int, r: int)
    requires k > 0 && 0 <= r < k && a == q * k + r
    ensures a / k == q
  {
    var q', r' := a / k, a % k;
    assert a == q' * k + r';
    if q > q' {
      MulAtLeast(q - q', k);
    } else if q < q' {
      MulAtLeast(q' - q, k);
    }
  }

  lemma MulAtLeast(d: int, k: int)
    requires d >= 1 && k > 0
    ensures d * k >= k
  {
    assert d * k == (d - 1) * k + k;
  }

  /** A product over its own factor leaves no remainder. */
  lemma MulDiv(q: nat, k: nat)
    requires k > 0
    ensures (q * k) % k == 0 && (q * k) / k == q
  {
    DivUnique(q * k, k, q, 0);
  }

  lemma MulPred(i: int, k: int)
    ensures (i - 1) * k == i * k - k
  {
  }

  lemma MulSucc(i: int, k: int)
    ensures (i + 1) * k == i * k + k
  {
  }

  lemma MulLe(a: nat, b: nat, k: nat)
    requires a <= b
    ensures a * k <= b * k
  {
  }
}
