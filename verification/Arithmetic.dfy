/** Facts about products that the solver is better not asked twice. */
module Arithmetic {

  lemma Grows(n: int, m: int)
    requires n > 0
    ensures m >= 1 ==> n * m >= n
    ensures m <= -1 ==> n * m <= -n
  {
  }

  /** A multiple of n that is smaller than n is zero. */
  lemma SmallMultiple(n: int, m: int, d: int)
    requires n > 0 && -n < d < n && n * m == d
    ensures d == 0 && m == 0
  {
    Grows(n, m);
  }

  lemma ResidueRepeats(a: nat, n: nat)
    requires 0 < n <= a
    ensures a % n == (a - n) % n
  {
    var q, p := a / n, (a - n) / n;
    assert a == n * q + a % n;
    assert a - n == n * p + (a - n) % n;
    SmallMultiple(n, q - p - 1, (a - n) % n - a % n);
  }

  lemma MultipleHasNoRest(n: int, q: int)
    requires n > 0
    ensures (n * q) % n == 0
  {
    var a := n * q;
    assert a == n * (a / n) + a % n;
    SmallMultiple(n, q - a / n, a % n);
  }
}
