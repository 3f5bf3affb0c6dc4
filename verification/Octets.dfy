/** Byte strings, their little- and big-endian fields, and block-wise XOR. */
module Octets {

  type Octet = bv8
  type Octets = seq<Octet>

  function Le16(x: bv16): Octets {
    [(x & 0xff) as bv8, (x >> 8) as bv8]
  }

  function Pack16(lo: Octet, hi: Octet): bv16 {
    (lo as bv16) | (hi as bv16 << 8)
  }

  function GetLe16(s: Octets, at: nat): bv16
    requires at + 2 <= |s|
  {
    Pack16(s[at], s[at + 1])
  }

  function Le32(x: bv32): Octets {
    [(x & 0xff) as bv8, ((x >> 8) & 0xff) as bv8, ((x >> 16) & 0xff) as bv8, (x >> 24) as bv8]
  }

  function GetLe32(s: Octets, at: nat): bv32
    requires at + 4 <= |s|
  {
    (s[at] as bv32) | (s[at + 1] as bv32 << 8) | (s[at + 2] as bv32 << 16) | (s[at + 3] as bv32 << 24)
  }

  lemma GetPutLe32(x: bv32)
    ensures GetLe32(Le32(x), 0) == x
  {
  }

  lemma PutGetLe32(s: Octets, at: nat)
    requires at + 4 <= |s|
    ensures Le32(GetLe32(s, at)) == s[at..at + 4]
  {
  }

  /** Little-endian means the lowest octet first. */
  lemma FieldOrder()
    ensures Le16(0x1234) == [0x34, 0x12] && Pack16(0x34, 0x12) == 0x1234
    ensures Le32(0x12345678) == [0x78, 0x56, 0x34, 0x12] && GetLe32([0x78, 0x56, 0x34, 0x12], 0) == 0x12345678
  {
  }

  // Conversions under names, so that proofs may treat them as symbols.

  function Num(b: Octet): (n: nat)
    ensures n < 256
  {
    b as nat
  }

  function Byte(n: nat): Octet
    requires n < 256
  {
    n as bv8
  }

  lemma NumByte(n: nat)
    requires n < 256
    ensures Num(Byte(n)) == n
  {
    ThereAndBack(n);
  }

  lemma ThereAndBack(n: nat)
    requires n < 256
    ensures (n as bv8) as nat == n
  {
    if n < 16 {
    } else if n < 32 {
    } else if n < 64 {
    } else if n < 128 {
    } else {
    }
  }

  lemma ByteNum(b: Octet)
    ensures Byte(Num(b)) == b
  {
  }

  /** A 16-bit big-endian field; wider numbers are truncated, as the C macro does. */
  function Be16(n: nat): Octets {
    [Byte(n / 256 % 256), Byte(n % 256)]
  }

  function Zeros(n: nat): (s: Octets)
    ensures |s| == n
  {
    seq(n, _ => 0)
  }

  function Flip(a: Octet, b: Octet): Octet { a ^ b }

  lemma FlipTwice(a: Octet, b: Octet)
    ensures Flip(Flip(a, b), b) == a
  {
  }

  function Xor(a: Octets, b: Octets): (c: Octets)
    requires |a| == |b|
    ensures |c| == |a| && forall i | 0 <= i < |a| :: c[i] == Flip(a[i], b[i])
  {
    seq(|a|, i requires 0 <= i < |a| => Flip(a[i], b[i]))
  }

  lemma XorTwice(a: Octets, b: Octets)
    requires |a| == |b|
    ensures Xor(Xor(a, b), b) == a
  {
    hide Flip;
    forall i | 0 <= i < |a| ensures Xor(Xor(a, b), b)[i] == a[i] {
      FlipTwice(a[i], b[i]);
    }
  }

  /** `s` with the bytes from `at` on replaced by `src`: the effect of `os_memcpy`. */
  function Put(s: Octets, at: nat, src: Octets): (t: Octets)
    requires at + |src| <= |s|
    ensures |t| == |s|
    ensures forall i | 0 <= i < |s| :: t[i] == if at <= i < at + |src| then src[i - at] else s[i]
  {
    s[..at] + src + s[at + |src|..]
  }

  /** `os_memcpy(dst + at, src, len)` */
  method Copy(dst: array<Octet>, at: nat, src: Octets)
    requires at + |src| <= dst.Length
    modifies dst
    ensures dst[..] == Put(old(dst[..]), at, src)
  {
    forall i | 0 <= i < |src| {
      dst[at + i] := src[i];
    }
  }
}
