/**
  The AKA sequence numbers of hlr_auc_gw.c: SQN = SEQ | IND in six big-endian octets
  (Annex C.3.2 of 3GPP TS 33.102).  The value is cut off at 48 bits when it is written back.
 */
module Sqn {
  import opened Octets
  import opened Counters
  import opened Arith
  import opened Bits

  /** A sequence number, and a length of IND for which `1 << ind_len` is defined in C. */
  type Sqn6 = s: Octets | |s| == 6 witness Zeros(6)
  type IndLen = n: nat | n <= 30

  function Seq(v: nat, n: IndLen): nat { Quotient(v, Pow2(n)) }

  function Ind(v: nat, n: IndLen): (ind: nat)
    ensures ind < Pow2(n)
  {
    v % Pow2(n)
  }

  /** SEQ | IND */
  function Join(seq_: nat, ind: nat, n: IndLen): nat { seq_ * Pow2(n) + ind }

  /** The value `inc_sqn` computes, before it is cut off. */
  function Bumped(v: nat, n: IndLen): nat {
    Join(Seq(v, n) + 1, (v + 1) % Pow2(n), n)
  }

  /** How many values SEQ has: it is 48 - ind_len bits wide. */
  function SeqRange(n: IndLen): (r: nat)
    ensures r > 0
  {
    Pow2(48 - n)
  }

  function Next(sqn: Sqn6, n: IndLen): Sqn6 { Encode(6, Bumped(Value(sqn), n)) }

  /** `inc_sqn`, on numbers of 64 bits */
  method IncSqn(sqn: array<Octet>, indLen: IndLen)
    requires sqn.Length == 6
    modifies sqn
    ensures sqn[..] == Next(old(sqn[..]), indLen)
  {
    hide *;
    var was := sqn[..];
    var hi, lo := NextParts(was, indLen);
    Copy(sqn, 0, hi);
    Copy(sqn, 4, lo);
    PutBoth(was, hi, lo);
  }

  /** What it computes: the first four octets and the last two. */
  method NextParts(sqn: Sqn6, indLen: IndLen) returns (hi: Octets, lo: Octets)
    ensures |hi| == 4 && |lo| == 2 && hi + lo == Next(sqn, indLen)
  {
    Fields(sqn, indLen);
    hide *;
    var val := Fetch(sqn);
    var seq_ := ShiftRight(val, indLen) + 1;
    var ind := And(val + 1, ShiftLeft(1, indLen) - 1);
    val := Or(ShiftLeft(seq_, indLen), ind);
    hi, lo := Encode(4, ShiftRight(val, 16)), Encode(2, And(val, 0xffff));
  }

  /** `WPA_GET_BE32` and `WPA_GET_BE16` put together. */
  function Fetch(sqn: Sqn6): nat { Or(ShiftLeft(Value(sqn[..4]), 16), Value(sqn[4..])) }

  lemma PutBoth(was: Sqn6, hi: Octets, lo: Octets)
    requires |hi| == 4 && |lo| == 2
    ensures Put(Put(was, 0, hi), 4, lo) == hi + lo
  {
  }

  /** Its shifts and masks are the arithmetic of `Next`. */
  lemma Fields(sqn: Sqn6, n: IndLen)
    ensures ShiftLeft(1, n) > 0
    ensures var val := Fetch(sqn);
            var new_ := Or(ShiftLeft(ShiftRight(val, n) + 1, n), And(val + 1, ShiftLeft(1, n) - 1));
            Encode(4, ShiftRight(new_, 16)) + Encode(2, And(new_, 0xffff)) == Next(sqn, n)
  {
    Fetched(sqn);
    Added(sqn, n);
    Stored(Bumped(Value(sqn), n));
    hide Fetch, Or, And, ShiftLeft, ShiftRight, Value, Encode, Bumped;
  }

  lemma Added(sqn: Sqn6, n: IndLen)
    ensures ShiftLeft(1, n) > 0
    ensures var v := Value(sqn);
            Or(ShiftLeft(ShiftRight(v, n) + 1, n), And(v + 1, ShiftLeft(1, n) - 1)) == Bumped(v, n)
  {
    var v, p := Value(sqn), Pow2(n);
    PowBound(n);
    SeqFits(sqn, n);
    hide Value, Pow2, Or, And, Quotient;
    ShiftIsTimes(1, n);
    MaskIsRemainder(v + 1, n);
    ShiftIsTimes(Seq(v, n) + 1, n);
    OrIsPlus(Seq(v, n) + 1, (v + 1) % p, n);
    hide ShiftLeft;
  }

  /** The number read in two parts. */
  lemma Fetched(sqn: Sqn6)
    ensures Fetch(sqn) == Value(sqn)
  {
    var hi, lo := Value(sqn[..4]), Value(sqn[4..]);
    Sixteen();
    Bounds();
    hide Or, ShiftLeft, Pow2;
    InParts(sqn);
    hide Value, Range;
    ShiftIsTimes(hi, 16);
    OrIsPlus(hi, lo, 16);
  }

  lemma InParts(sqn: Sqn6)
    ensures Value(sqn) == Value(sqn[..4]) * 65536 + Value(sqn[4..])
  {
    assert sqn[..5][..4] == sqn[..4] && sqn[4..][..1] == sqn[4..5] && sqn[4..5][..0] == [];
    assert sqn[..5][4] == sqn[4] && sqn[4..][1] == sqn[5] && sqn[4..5][0] == sqn[4];
    hide Num, Range;
    assert Value(sqn[4..5]) == Num(sqn[4]);
  }

  lemma Sixteen()
    ensures Pow2(16) == 65536
  {
    Byte8(8);
    Byte8(0);
  }

  lemma Bounds()
    ensures Range(4) == 0x1_0000_0000 && Range(2) == 65536 && Range(6) == 0x1_0000_0000_0000
    ensures Pow2(64) == 0x1_0000_0000_0000_0000 && Pow2(48) == Range(6)
  {
    RangeIsPow2(6);
    RangeIsPow2(8);
    assert Range(2) == 256 * Range(1) == 65536;
    assert Range(4) == 256 * Range(3) == 65536 * Range(2);
    assert Range(6) == 256 * Range(5) == 65536 * Range(4);
    assert Range(8) == 256 * Range(7) == 65536 * Range(6);
    hide Pow2;
  }

  /** Neither mask nor sum leaves the 64 bits. */
  lemma PowBound(n: IndLen)
    ensures Pow2(n) < Pow2(64)
  {
    PowMonotone(n, 63);
    assert Pow2(64) == 2 * Pow2(63);
    hide Pow2;
  }

  lemma SeqFits(sqn: Sqn6, n: IndLen)
    ensures (Seq(Value(sqn), n) + 1) * Pow2(n) < Pow2(64)
  {
    Bounds();
    PowMonotone(n, 30);
    PowSmall();
    hide Pow2, Value, Range, Quotient;
    NextMultiple(Value(sqn), Pow2(n));
  }

  lemma NextMultiple(v: nat, p: nat)
    requires p > 0
    ensures (Quotient(v, p) + 1) * p <= v + p
  {
    assert v == p * (v / p) + v % p;
    assert (v / p + 1) * p == p * (v / p) + p;
  }

  lemma {:induction false} PowMonotone(m: nat, n: nat)
    requires m <= n
    ensures Pow2(m) <= Pow2(n)
  {
    if m < n {
      PowMonotone(m, n - 1);
    }
  }

  lemma PowSmall()
    ensures Pow2(30) < 0x1_0000_0000
  {
    PowMonotone(30, 32);
    Byte8(24);
    Sixteen();
    Byte8(16);
    hide Pow2;
  }

  /** The number written in two parts. */
  lemma Stored(v: nat)
    ensures Encode(4, ShiftRight(v, 16)) + Encode(2, And(v, 0xffff)) == Encode(6, v)
  {
    Sixteen();
    MaskIsRemainder(v, 16);
    hide And, Pow2, Byte;
    LowPart(v);
    assert v / 256 / 256 == v / 65536;
    assert Encode(6, v) == Encode(4, v / 256 / 256) + [Byte(v / 256 % 256)] + [Byte(v % 256)];
  }

  lemma LowPart(v: nat)
    ensures Encode(2, v % 65536) == [Byte(v / 256 % 256), Byte(v % 256)]
  {
    var q, r := v / 65536, v % 65536;
    Remainder(v, 256, 256 * q + r / 256, r % 256);
    Remainder(v / 256, 256, q, r / 256);
    hide Byte;
    assert Encode(0, r / 256 / 256) == [];
  }

  lemma {:induction false} PowSplit(a: nat, b: nat)
    ensures Pow2(a + b) == Pow2(a) * Pow2(b)
  {
    if a > 0 {
      PowSplit(a - 1, b);
      assert 2 * (Pow2(a - 1) * Pow2(b)) == 2 * Pow2(a - 1) * Pow2(b);
    }
  }

  lemma {:induction false} RangeIsPow2(n: nat)
    ensures Range(n) == Pow2(8 * n)
  {
    if n > 0 {
      RangeIsPow2(n - 1);
      RangeStep(n);
      Byte8(8 * (n - 1));
      hide Pow2, Range;
    }
  }

  lemma Byte8(n: nat)
    ensures Pow2(n + 8) == 256 * Pow2(n)
  {
    PowSplit(8, n);
    assert Pow2(8) == 256 by {
      assert Pow2(8) == 2 * Pow2(7) == 4 * Pow2(6) == 8 * Pow2(5) == 16 * Pow2(4);
      assert Pow2(4) == 2 * Pow2(3) == 4 * Pow2(2) == 8 * Pow2(1) == 16;
    }
  }

  lemma Joined(s: nat, i: nat, n: IndLen)
    requires i < Pow2(n)
    ensures Seq(Join(s, i, n), n) == s && Ind(Join(s, i, n), n) == i
  {
    hide Pow2;
    Remainder(Join(s, i, n), Pow2(n), s, i);
  }

  /** One more modulo a power of two depends on the remainder only. */
  lemma IndNext(v: nat, p: nat)
    requires p > 0
    ensures (v + 1) % p == (v % p + 1) % p
  {
    var q := v / p;
    if v % p + 1 == p {
      Remainder(v % p + 1, p, 1, 0);
      assert v + 1 == p * (q + 1);
      Remainder(v + 1, p, q + 1, 0);
    } else {
      Remainder(v % p + 1, p, 0, v % p + 1);
      Remainder(v + 1, p, q, v % p + 1);
    }
  }

  lemma JoinBound(s: nat, i: nat, p: nat, r: nat)
    requires i < p && s < r
    ensures s * p + i < r * p
  {
    assert (s + 1) * p <= r * p;
  }

  /** What is written back, as a number: SEQ wraps to zero when it leaves its 48 - ind_len bits. */
  lemma NextValue(sqn: Sqn6, n: IndLen)
    ensures var v := Value(sqn);
            Value(Next(sqn, n)) == Join((Seq(v, n) + 1) % SeqRange(n), (Ind(v, n) + 1) % Pow2(n), n)
  {
    var v := Value(sqn);
    RangeIsPow2(6);
    PowSplit(48 - n, n);
    ValueEncode(6, Bumped(v, n));
    BumpedWraps(v, n);
    assert SeqRange(n) == Pow2(48 - n);
    hide Pow2, Range, Value, Encode, Quotient, Bumped, Join, Seq, Ind, SeqRange;
  }

  lemma BumpedWraps(v: nat, n: IndLen)
    requires v < SeqRange(n) * Pow2(n)
    ensures Bumped(v, n) % (SeqRange(n) * Pow2(n)) == Join((Seq(v, n) + 1) % SeqRange(n), (Ind(v, n) + 1) % Pow2(n), n)
  {
    hide Pow2, Quotient, SeqRange;
    WrappedJoin(v, Pow2(n), SeqRange(n), SeqRange(n) * Pow2(n));
  }

  lemma WrappedJoin(v: nat, p: nat, r: nat, rp: nat)
    requires p > 0 && r > 0 && rp == r * p && v < rp
    ensures ((Quotient(v, p) + 1) * p + (v + 1) % p) % rp == (Quotient(v, p) + 1) % r * p + (v % p + 1) % p
  {
    hide Quotient;
    IndNext(v, p);
    SeqBelow(v, p, r);
    WrapJoin(Quotient(v, p) + 1, (v + 1) % p, p, r, rp);
  }

  lemma SeqBelow(v: nat, p: nat, r: nat)
    requires p > 0 && v < r * p
    ensures Quotient(v, p) < r
  {
    if v / p >= r {
      BelowQuotient(v, p, r);
    }
  }

  lemma BelowQuotient(v: nat, p: nat, r: nat)
    requires p > 0 && v / p >= r
    ensures v >= r * p
  {
    assert v == p * (v / p) + v % p;
    assert p * (v / p) >= p * r;
  }

  lemma WrapJoin(s: nat, i: nat, p: nat, r: nat, rp: nat)
    requires i < p && s <= r && r > 0 && rp == r * p
    ensures (s * p + i) % rp == s % r * p + i
  {
    if s == r {
      Remainder(s, r, 1, 0);
      JoinBound(0, i, p, r);
      Remainder(s * p + i, rp, 1, i);
    } else {
      Remainder(s, r, 0, s);
      JoinBound(s, i, p, r);
      Remainder(s * p + i, rp, 0, s * p + i);
    }
  }

  /** The number issued is larger than the one before exactly as long as SEQ does not overflow. */
  lemma IncreasesExactly(sqn: Sqn6, n: IndLen)
    ensures Value(Next(sqn, n)) > Value(sqn) <==> Seq(Value(sqn), n) + 1 < SeqRange(n)
  {
    var v, p, r := Value(sqn), Pow2(n), SeqRange(n);
    NextValue(sqn, n);
    RangeIsPow2(6);
    PowSplit(48 - n, n);
    TwoSeqs(n);
    hide Pow2, Range, Value, Encode, Next, Quotient;
    SeqBelow(v, p, r);
    Larger(v, p, r, (Ind(v, n) + 1) % p);
  }

  lemma TwoSeqs(n: IndLen)
    ensures SeqRange(n) >= 2
  {
    assert Pow2(48 - n) == 2 * Pow2(47 - n);
  }

  lemma Larger(v: nat, p: nat, r: nat, i: nat)
    requires p > 0 && i < p && r >= 2 && Quotient(v, p) < r
    ensures (Quotient(v, p) + 1) % r * p + i > v <==> Quotient(v, p) + 1 < r
  {
    var q := Quotient(v, p);
    assert v == p * q + v % p;
    if q + 1 < r {
      Remainder(q + 1, r, 0, q + 1);
      assert (q + 1) * p == q * p + p;
    } else {
      Remainder(q + 1, r, 1, 0);
      assert p * q >= p;
    }
  }

  /** The number after `k` calls. */
  function Issued(sqn: Sqn6, n: IndLen, k: nat): Sqn6 {
    if k == 0 then sqn else Next(Issued(sqn, n, k - 1), n)
  }

  lemma NoCalls(sqn: Sqn6, n: IndLen)
    ensures var s, i, p := Seq(Value(sqn), n), Ind(Value(sqn), n), Pow2(n); i % p == i && Value(sqn) == Join(s, i, n)
  {
    hide Pow2, Value;
    var p := Pow2(n);
    Remainder(Value(sqn) % p, p, 0, Value(sqn) % p);
    assert Value(sqn) == p * (Value(sqn) / p) + Value(sqn) % p;
  }

  lemma OneCall(u: Sqn6, n: IndLen, s: nat, i: nat)
    requires s + 1 < SeqRange(n) && Seq(Value(u), n) == s && Ind(Value(u), n) == i % Pow2(n)
    ensures Value(Next(u, n)) == Join(s + 1, (i + 1) % Pow2(n), n)
  {
    NextValue(u, n);
    Remainder(s + 1, SeqRange(n), 0, s + 1);
    IndNext(i, Pow2(n));
    hide *;
  }

  /** `k` calls add `k` to SEQ, and `k` to IND modulo its range. */
  lemma {:induction false} AfterCalls(sqn: Sqn6, n: IndLen, k: nat)
    requires Seq(Value(sqn), n) + k < SeqRange(n)
    ensures Value(Issued(sqn, n, k)) == Join(Seq(Value(sqn), n) + k, (Ind(Value(sqn), n) + k) % Pow2(n), n)
    ensures Seq(Value(Issued(sqn, n, k)), n) == Seq(Value(sqn), n) + k
    ensures Ind(Value(Issued(sqn, n, k)), n) == (Ind(Value(sqn), n) + k) % Pow2(n)
  {
    hide Pow2, Value, Next, SeqRange, Join, Seq, Ind;
    var s, i := Seq(Value(sqn), n), Ind(Value(sqn), n);
    if k == 0 {
      NoCalls(sqn, n);
    } else {
      AfterCalls(sqn, n, k - 1);
      OneCall(Issued(sqn, n, k - 1), n, s + k - 1, i + k - 1);
    }
    Joined(s + k, (i + k) % Pow2(n), n);
  }

  /** So every number issued is larger than all issued before it. */
  lemma {:induction false} AlwaysIncreasing(sqn: Sqn6, n: IndLen, j: nat, k: nat)
    requires j < k && Seq(Value(sqn), n) + k < SeqRange(n)
    ensures Value(Issued(sqn, n, j)) < Value(Issued(sqn, n, k))
  {
    hide Pow2, Value, Next, SeqRange;
    AfterCalls(sqn, n, k - 1);
    IncreasesExactly(Issued(sqn, n, k - 1), n);
    if j < k - 1 {
      AlwaysIncreasing(sqn, n, j, k - 1);
    }
  }
}
