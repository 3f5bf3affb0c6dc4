/** Quotients and remainders of natural numbers. */
module Arith {

  function Quotient(v: nat, p: nat): nat
    requires p > 0
  {
    v / p
  }

  lemma Multiple(n: nat, d: int)
    requires d >= 1
    ensures n * d >= n
  {
  }

  lemma SmallMultiple(n: nat, d: int)
    requires n > 0 && 0 - n < n * d < n
    ensures d == 0
  {
    if d >= 1 {
      Multiple(n, d);
    } else if d <= -1 {
      Multiple(n, 0 - d);
    }
  }

  /** Quotient and remainder are unique. */
  lemma Remainder(x: nat, n: nat, q: nat, r: nat)
    requires n > 0 && x == n * q + r && r < n
    ensures x % n == r && x / n == q
  {
    SmallMultiple(n, q - x / n);
  }

  /** Counting on, one index runs round as the other goes straight. */
  lemma Wrap(i: nat, n: nat)
    requires n > 0
    ensures (i + 1) % n == if i % n + 1 >= n then 0 else i % n + 1
  {
    var q := i / n;
    if i % n + 1 >= n {
      assert i + 1 == n * (q + 1);
      Remainder(i + 1, n, q + 1, 0);
    } else {
      assert i + 1 == n * q + (i % n + 1);
      Remainder(i + 1, n, q, i % n + 1);
    }
  }
}
