/** Division with remainder, and the number of multiples in a range. */
module Arithmetic {

  lemma MultipleSign(e: int, d: int)
    requires d > 0
    ensures e >= 1 ==> e * d >= d
    ensures e <= -1 ==> e * d <= -d
  {
  }

  lemma Bounded(e: int, d: int)
    requires d > 0 && -d < e * d < d
    ensures e == 0
  {
    MultipleSign(e, d);
  }

  /** A quotient and a remainder in range are the quotient and the remainder. */
  lemma DivUnique(m: int, d: int, q: int, r: int)
    requires d > 0 && 0 <= r < d && m == q * d + r
    ensures m / d == q && m % d == r
  {
    var e := m / d - q;
    assert m == (m / d) * d + m % d;
    assert e * d == r - m % d;
    assert -d < e * d < d;
    Bounded(e, d);
  }

  /** One more either starts the next multiple or adds to the remainder. */
  lemma DivNext(n: nat, k: nat)
    requires k > 0
    ensures (n + 1) / k == n / k + (if n % k == k - 1 then 1 else 0)
    ensures (n + 1) % k == if n % k == k - 1 then 0 else n % k + 1
  {
    var q, m := n / k, n % k;
    assert n == q * k + m;
    if m == k - 1 {
      assert n + 1 == (q + 1) * k + 0;
      DivUnique(n + 1, k, q + 1, 0);
    } else {
      DivUnique(n + 1, k, q, m + 1);
    }
  }
}
