/** Integer division, for counting the multiples of a number in a stretch of positions. */
module Quotients {
  lemma NonZeroMultiple(d: int, k: nat)
    ensures d >= 1 ==> d * k >= k
    ensures d <= -1 ==> d * k <= -(k as int)
  {
    if d >= 1 {
      assert (d - 1) * k >= 0;
    } else if d <= -1 {
      assert (-d - 1) * k >= 0;
    }
  }

  lemma QuotientIs(n: nat, k: nat, q: nat, r: nat)
    requires k >= 1 && n == q * k + r && r < k
    ensures n / k == q && n % k == r
  {
    var d := n / k - q;
    assert n == (n / k) * k + n % k;
    assert d * k == r - n % k;
    NonZeroMultiple(d, k);
  }

  lemma NextQuotient(n: nat, k: nat)
    requires k >= 1
    ensures if n % k + 1 == k then (n + 1) / k == n / k + 1 && (n + 1) % k == 0
            else (n + 1) / k == n / k && (n + 1) % k == n % k + 1
  {
    var q, r := n / k, n % k;
    assert n == q * k + r;
    if r + 1 == k {
      assert n + 1 == (q + 1) * k + 0;
      QuotientIs(n + 1, k, q + 1, 0);
    } else {
      QuotientIs(n + 1, k, q, r + 1);
    }
  }

  /** A stretch of positions spans at most ceil(length / k) multiples of `k`. */
  lemma QuotientSpread(a: nat, b: nat, k: nat)
    requires k >= 1 && a <= b
    ensures b / k - a / k <= (b - a + k - 1) / k
  {
    var m := b - a + k - 1;
    var d := b / k - a / k - m / k;
    assert a == (a / k) * k + a % k && b == (b / k) * k + b % k && m == (m / k) * k + m % k;
    assert d * k == (b / k) * k - (a / k) * k - (m / k) * k;
    NonZeroMultiple(d, k);
  }

  /** Positions counted from a multiple of `k`. */
  lemma FromMultiple(n: nat, k: nat, i: nat)
    requires k >= 1 && n % k == 0 && i <= k
    ensures (n + i) % k == if i == k then 0 else i
  {
    var q := n / k;
    assert n == q * k;
    if i == k {
      assert n + i == (q + 1) * k + 0;
      QuotientIs(n + i, k, q + 1, 0);
    } else {
      QuotientIs(n + i, k, q, i);
    }
  }
}
