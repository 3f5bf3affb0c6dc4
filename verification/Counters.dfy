/**
  Big-endian counters: `inc_byte_array` (src/utils/common.c), the order in which `os_memcmp`
  puts them, and the AKA sequence numbers of hlr_auc_gw.c.
 */
module Counters {
  import opened Octets
  import opened Arith

  function Pow2(n: nat): (p: nat)
    ensures p >= 1
  {
    if n == 0 then 1 else 2 * Pow2(n - 1)
  }

  /** The number of byte strings of a length. */
  function Range(n: nat): (r: nat)
    ensures r >= 1
  {
    if n == 0 then 1 else 256 * Range(n - 1)
  }

  /** A big-endian byte string as a number. */
  function Value(s: Octets): (v: nat)
    ensures v < Range(|s|)
  {
    if s == [] then 0
    else
      var n := |s| - 1;
      256 * Value(s[..n]) + Num(s[n])
  }

  /** The byte string of length `n` that stands for `v`, cut off at the top. */
  function Encode(n: nat, v: nat): (s: Octets)
    ensures |s| == n
  {
    if n == 0 then [] else Encode(n - 1, v / 256) + [Byte(v % 256)]
  }

  /** Encoding keeps the value modulo the range, and undoes `Value`. */
  lemma {:induction false} ValueEncode(n: nat, v: nat)
    ensures Value(Encode(n, v)) == v % Range(n)
  {
    if n > 0 {
      hide Num, Byte, Range;
      RangeStep(n);
      ValueEncode(n - 1, v / 256);
      var s := Encode(n, v);
      NumByte(v % 256);
      assert s[n - 1] == Byte(v % 256);
      assert s[..n - 1] == Encode(n - 1, v / 256);
      Digits(v, Range(n - 1));
    } else {
      assert v % 1 == 0;
    }
  }

  lemma RangeStep(n: nat)
    requires n > 0
    ensures Range(n) == 256 * Range(n - 1)
  {
  }

  lemma Digits(v: nat, r: nat)
    requires r > 0
    ensures 256 * (v / 256 % r) + v % 256 == v % (256 * r)
  {
    var hi, lo := v / 256, v % 256;
    var q, m := hi / r, hi % r;
    assert hi == r * q + m;
    assert v == 256 * (r * q + m) + lo == (256 * r) * q + (256 * m + lo);
    BelowProduct(m, r, lo);
    Remainder(v, 256 * r, q, 256 * m + lo);
  }

  lemma BelowProduct(m: nat, r: nat, lo: nat)
    requires m < r && lo < 256
    ensures 256 * m + lo < 256 * r
  {
  }

  lemma {:induction false} EncodeValue(s: Octets)
    ensures Encode(|s|, Value(s)) == s
  {
    if s != [] {
      hide Num, Byte;
      var n := |s| - 1;
      EncodeValue(s[..n]);
      LastDigit(Value(s[..n]), Num(s[n]));
      ByteNum(s[n]);
      assert s == s[..n] + [s[n]];
    }
  }

  lemma LastDigit(v: nat, b: nat)
    requires b < 256
    ensures (256 * v + b) / 256 == v && (256 * v + b) % 256 == b
  {
  }

  // ---- inc_byte_array

  /** `counter[pos]++` */
  function Next(b: Octet): Octet { b + 1 }

  /** One more, rolling over to the left; all ones become all zeros. */
  function Inc(s: Octets): (t: Octets)
    ensures |t| == |s|
  {
    if s == [] then []
    else
      var n := |s| - 1;
      if s[n] == 0xff then Inc(s[..n]) + [0] else s[..n] + [Next(s[n])]
  }

  lemma Ends()
    ensures Num(0) == 0 && Num(0xff) == 255
  {
  }

  lemma NextDigit(b: Octet)
    requires b != 0xff
    ensures Num(Next(b)) == Num(b) + 1 && Num(b) < 255
  {
  }

  /** Incrementing is adding one; the last value rolls over to zero. */
  lemma {:induction false} IncAddsOne(s: Octets)
    ensures Value(Inc(s)) == if Value(s) + 1 == Range(|s|) then 0 else Value(s) + 1
  {
    if s != [] {
      RangeStep(|s|);
      if s[|s| - 1] == 0xff {
        IncAddsOne(s[..|s| - 1]);
        CarryParts(s);
      } else {
        StayParts(s);
        ValueSplit(s);
        NextDigit(s[|s| - 1]);
      }
      hide Value, Inc, Range, Num, Next;
    }
  }

  lemma ValueSplit(s: Octets)
    requires s != []
    ensures Value(s) == 256 * Value(s[..|s| - 1]) + Num(s[|s| - 1])
  {
  }

  lemma CarryParts(s: Octets)
    requires s != [] && s[|s| - 1] == 0xff
    ensures Value(s) == 256 * Value(s[..|s| - 1]) + 255 && Value(Inc(s)) == 256 * Value(Inc(s[..|s| - 1]))
  {
    assert Inc(s)[..|s| - 1] == Inc(s[..|s| - 1]);
    Ends();
  }

  lemma StayParts(s: Octets)
    requires s != [] && s[|s| - 1] != 0xff
    ensures Value(Inc(s)) == Value(s) + 1
  {
    assert Inc(s)[..|s| - 1] == s[..|s| - 1];
    NextDigit(s[|s| - 1]);
  }

  /** `inc_byte_array`, on the whole of `counter` */
  method IncByteArray(counter: array<Octet>)
    modifies counter
    ensures counter[..] == Inc(old(counter[..]))
  {
    hide Next;
    var pos := counter.Length - 1;
    ghost var was := counter[..];
    assert was[..pos + 1] == was && Inc(was) + [] == Inc(was);
    while pos >= 0
      invariant -1 <= pos < counter.Length
      invariant counter[..pos + 1] == was[..pos + 1]
      invariant Inc(was[..pos + 1]) + counter[pos + 1..] == Inc(was)
    {
      ghost var rest := counter[pos + 1..];
      IncStep(was, pos, rest);
      counter[pos] := Next(counter[pos]);
      assert counter[..pos] == was[..pos] && counter[pos + 1..] == rest;
      if counter[pos] != 0 {
        assert counter[..] == was[..pos] + [counter[pos]] + rest;
        break;
      }
      assert counter[pos..] == [0] + rest;
      pos := pos - 1;
    }
  }

  lemma IncStep(was: Octets, pos: nat, rest: Octets)
    requires pos < |was|
    ensures Inc(was[..pos + 1]) + rest ==
            if Next(was[pos]) == 0 then Inc(was[..pos]) + ([0] + rest) else was[..pos] + [Next(was[pos])] + rest
  {
    var s := was[..pos + 1];
    assert s[..pos] == was[..pos] && s[pos] == was[pos];
    OnlyAllOnes(was[pos]);
    hide Next;
    if was[pos] == 0xff {
      assert Inc(was[..pos]) + [0] + rest == Inc(was[..pos]) + ([0] + rest);
    }
  }

  lemma OnlyAllOnes(b: Octet)
    ensures Next(b) == 0 <==> b == 0xff
  {
  }

  // ---- os_memcmp

  /** `os_memcmp(a, b, n) < 0`: the first difference decides. */
  predicate Before(a: Octets, b: Octets)
    requires |a| == |b|
  {
    a != [] && (a[0] < b[0] || (a[0] == b[0] && Before(a[1..], b[1..])))
  }

  lemma {:induction false} ValueFromTheLeft(s: Octets)
    requires s != []
    ensures Value(s) == Num(s[0]) * Range(|s| - 1) + Value(s[1..])
  {
    var n := |s| - 1;
    hide Num;
    if n > 0 {
      ValueFromTheLeft(s[..n]);
      RangeStep(n);
      hide Range;
      assert s[..n][1..] == s[1..][..n - 1] && s[1..][n - 1] == s[n];
      Regroup(Num(s[0]), Range(n - 1), Value(s[..n][1..]), Num(s[n]));
    } else {
      assert s[..0] == [] && s[1..] == [];
      assert Value(s) == 256 * Value(s[..0]) + Num(s[0]);
    }
  }

  lemma Regroup(a: nat, r: nat, v: nat, b: nat)
    ensures 256 * (a * r + v) + b == a * (256 * r) + (256 * v + b)
  {
  }

  lemma OctetOrder(a: Octet, b: Octet)
    ensures a < b <==> Num(a) < Num(b)
    ensures a == b <==> Num(a) == Num(b)
  {
  }

  lemma LeadingDigit(a: nat, b: nat, r: nat, v: nat, w: nat)
    requires v < r && w < r
    ensures a * r + v < b * r + w <==> a < b || (a == b && v < w)
  {
    if a < b {
      assert (a + 1) * r <= b * r;
    } else if a > b {
      assert (b + 1) * r <= a * r;
    }
  }

  /** Byte order is number order. */
  lemma {:induction false} BeforeIsLess(a: Octets, b: Octets)
    requires |a| == |b|
    ensures Before(a, b) <==> Value(a) < Value(b)
  {
    if a != [] {
      hide Num;
      BeforeIsLess(a[1..], b[1..]);
      ValueFromTheLeft(a);
      ValueFromTheLeft(b);
      OctetOrder(a[0], b[0]);
      LeadingDigit(Num(a[0]), Num(b[0]), Range(|a| - 1), Value(a[1..]), Value(b[1..]));
    }
  }

  /** An incremented counter comes later, exactly as long as it does not roll over. */
  lemma IncIsLater(s: Octets)
    ensures Before(s, Inc(s)) <==> Value(s) + 1 < Range(|s|)
  {
    hide Num, Inc, Range, Value, Before;
    IncAddsOne(s);
    BeforeIsLess(s, Inc(s));
  }
}
