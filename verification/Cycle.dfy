/** The cyclic successor of the printers, and the division facts that go with periods. */
module Cycle {

  /** next() of both printers */
  function Next(n: nat, threads: nat): nat { if n + 1 == threads then 0 else n + 1 }

  /** Quotient and remainder are determined by the division equation. */
  lemma QuotientIs(x: int, d: int, q: int, r: int)
    requires x == q * d + r && 0 <= r < d
    ensures x / d == q && x % d == r
  {
    var k := x / d - q;
    assert x == (x / d) * d + x % d;
    assert k * d == r - x % d;
    assert k >= 1 ==> k * d >= d;
    assert k <= -1 ==> k * d <= 0 - d;
  }

  /** One more: either the remainder grows, or a period is complete. */
  lemma NextQuotient(x: nat, d: nat)
    requires d >= 1
    ensures x % d == d - 1 ==> (x + 1) / d == x / d + 1 && (x + 1) % d == 0 && (x / d + 1) * d == x + 1
    ensures x % d != d - 1 ==> (x + 1) / d == x / d && (x + 1) % d == x % d + 1
  {
    var q, r := x / d, x % d;
    assert x == q * d + r;
    if r == d - 1 {
      assert x + 1 == (q + 1) * d + 0;
      QuotientIs(x + 1, d, q + 1, 0);
    } else {
      QuotientIs(x + 1, d, q, r + 1);
    }
  }

  /** next() counts modulo the number of threads. */
  lemma NextIsDue(x: nat, threads: nat)
    requires threads > 0
    ensures (x + 1) % threads == Next(x % threads, threads)
  {
    NextQuotient(x, threads);
  }
}
