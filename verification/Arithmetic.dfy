/** Quotients and remainders. */
module Arithmetic {
  lemma StepDivMod(n: nat, k: nat)
    requires k > 0
    ensures n % k == k - 1 ==> (n + 1) / k == n / k + 1 && (n + 1) % k == 0
    ensures n % k < k - 1 ==> (n + 1) / k == n / k && (n + 1) % k == n % k + 1
  {
    var q, r := n / k, n % k;
    assert n == k * q + r;
    if r == k - 1 {
      assert n + 1 == k * (q + 1);
      DivModOf(n + 1, k, q + 1, 0);
    } else {
      DivModOf(n + 1, k, q, r + 1);
    }
  }

  lemma {:induction false} DivModOf(n: nat, k: nat, q: nat, r: nat)
    requires k > 0 && r < k && n == k * q + r
    ensures n / k == q && n % k == r
  {
    var d := n / k - q;
    assert n == k * (n / k) + n % k;
    assert k * d == k * (n / k) - k * q;
    MultipleBound(k, d);
  }

  lemma MultipleBound(k: int, d: int)
    requires k > 0
    ensures d >= 1 ==> k * d >= k
    ensures d <= -1 ==> k * d <= -k
  {
  }
}
