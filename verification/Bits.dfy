/**
  The shift and bit operators of C on unsigned 64-bit numbers (sections 6.5.7, 6.5.10 and 6.5.12
  of ISO/IEC 9899:1999), and when they are arithmetic.
 */
module Bits {
  import opened Arith
  import opened Counters

  /** `a & b` */
  function And(a: nat, b: nat): nat {
    if a == 0 then 0 else (if a % 2 == 1 && b % 2 == 1 then 1 else 0) + 2 * And(a / 2, b / 2)
  }

  /** `a | b` */
  function Or(a: nat, b: nat): nat
    decreases a + b
  {
    if a == 0 && b == 0 then 0 else (if a % 2 == 1 || b % 2 == 1 then 1 else 0) + 2 * Or(a / 2, b / 2)
  }

  /** `v >> n` */
  function ShiftRight(v: nat, n: nat): nat { Quotient(v, Pow2(n)) }

  /** `v << n`; bits that leave the 64 are lost. */
  function ShiftLeft(v: nat, n: nat): nat { v * Pow2(n) % Pow2(64) }

  /** A mask of `n` ones keeps the remainder. */
  lemma {:induction false} MaskIsRemainder(v: nat, n: nat)
    ensures And(v, Pow2(n) - 1) == v % Pow2(n)
  {
    if n == 0 {
      AndNothing(v);
    } else {
      var p := Pow2(n - 1);
      MaskIsRemainder(v / 2, n - 1);
      assert Pow2(n) - 1 == 2 * (p - 1) + 1;
      assert And(v, 2 * (p - 1) + 1) == v % 2 + 2 * And(v / 2, p - 1) by {
        assert (2 * (p - 1) + 1) / 2 == p - 1;
      }
      hide And, Pow2;
      RemainderOfDouble(v, p);
    }
  }

  lemma {:induction false} AndNothing(v: nat)
    ensures And(v, 0) == 0
  {
    if v != 0 {
      AndNothing(v / 2);
    }
  }

  lemma RemainderOfDouble(v: nat, p: nat)
    requires p > 0
    ensures v % (2 * p) == v % 2 + 2 * (v / 2 % p)
  {
    var q := v / 2 / p;
    assert v / 2 == p * q + v / 2 % p;
    assert 2 * (p * q) == 2 * p * q;
    Remainder(v, 2 * p, q, v % 2 + 2 * (v / 2 % p));
  }

  /** Numbers without a common one are put together by adding. */
  lemma {:induction false} OrIsPlus(s: nat, i: nat, n: nat)
    requires i < Pow2(n)
    ensures Or(s * Pow2(n), i) == s * Pow2(n) + i
  {
    if n == 0 {
      assert s * 1 == s;
      OrNothing(s);
    } else {
      var a := s * Pow2(n - 1);
      assert s * Pow2(n) == 2 * a by {
        assert s * (2 * Pow2(n - 1)) == 2 * (s * Pow2(n - 1));
      }
      OrIsPlus(s, i / 2, n - 1);
      hide Pow2;
      assert 2 * a / 2 == a && 2 * a % 2 == 0;
    }
  }

  lemma {:induction false} OrNothing(v: nat)
    ensures Or(v, 0) == v
  {
    if v != 0 {
      OrNothing(v / 2);
    }
  }

  /** A shift to the left is multiplication as long as nothing is lost. */
  lemma ShiftIsTimes(v: nat, n: nat)
    requires v * Pow2(n) < Pow2(64)
    ensures ShiftLeft(v, n) == v * Pow2(n)
  {
    hide Pow2;
    Remainder(v * Pow2(n), Pow2(64), 0, v * Pow2(n));
  }
}
