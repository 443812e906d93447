/** Multiples and quotients of natural numbers. */
module Arithmetic {

  lemma MulOrder(a: nat, b: nat, p: nat)
    ensures a <= b ==> a * p <= b * p
  {
    if a <= b { assert b * p == a * p + (b - a) * p; }
  }

  /** The quotient is the only number whose multiple is the last one not above n. */
  lemma QuotientIs(n: nat, p: nat, q: nat)
    requires p > 0 && q * p <= n < q * p + p
    ensures n / p == q
  {
    QuotientBounds(n, p);
    OnlyQuotient(n, p, n / p, q);
  }

  lemma QuotientBounds(n: nat, p: nat)
    requires p > 0
    ensures n / p * p <= n < n / p * p + p
  {
  }

  lemma OnlyQuotient(n: nat, p: nat, d: nat, q: nat)
    requires d * p <= n < d * p + p && q * p <= n < q * p + p
    ensures d == q
  {
    if d < q { Apart(d, q, p); }
    if q < d { Apart(q, d, p); }
  }

  lemma Apart(a: nat, b: nat, p: nat)
    requires a < b
    ensures a * p + p <= b * p
  {
    assert b * p == a * p + p + (b - a - 1) * p;
  }

  lemma QuotientNext(n: nat, p: nat)
    requires p > 0
    ensures (n + p) / p == n / p + 1
  {
    QuotientBounds(n, p);
    var d := n / p;
    assert (d + 1) * p == d * p + p;
    QuotientIs(n + p, p, d + 1);
  }
}
