/**
  The CRC routines of bcmutils.c (`hndcrc8`, `hndcrc16`, `hndcrc32`) and of crc32.c.  The
  reference is bit-by-bit polynomial division; the table loops are proved to compute it.
 */
module Crc {
  import opened Octets
  import opened CrcTables

  const CRC32_INIT_VALUE: bv32 := 0xffffffff
  const CRC32_GOOD_VALUE: bv32 := 0xdebb20e3
  const CRC16_GOOD_VALUE: bv16 := 0xf0b8
  const CRC8_GOOD_VALUE: bv8 := 0x9f

  // Named operations on the 32-bit state, so that proofs may treat them as symbols.

  function Plus(a: bv32, b: bv32): bv32 { a ^ b }

  function Feed(crc: bv32, b: Octet): bv32 { Plus(crc, b as bv32) }

  function Feed16(crc: bv16, b: Octet): bv16 { crc ^ b as bv16 }

  function Low(c: bv32): Octet { (c & 0xff) as bv8 }

  function High(c: bv32): bv32 { c & 0xffffff00 }

  function Shift(c: bv32): bv32 { c >> 8 }

  /** The remainder after dividing in the bytes of `s`, bit by bit. */
  function Divide32(crc: bv32, s: Octets): bv32
    decreases |s|
  {
    if s == [] then crc else Divide32(Byte32(Feed(crc, s[0])), s[1..])
  }

  function Divide16(crc: bv16, s: Octets): bv16
    decreases |s|
  {
    if s == [] then crc else Divide16(Byte16(Feed16(crc, s[0])), s[1..])
  }

  function Divide8(crc: bv8, s: Octets): bv8
    decreases |s|
  {
    if s == [] then crc else Divide8(Byte8(crc ^ s[0]), s[1..])
  }

  // ---- The bit step is linear and reversible.

  lemma Xor4(a: bv32, b: bv32, p: bv32)
    ensures (a ^ p) ^ b == (a ^ b) ^ p && (a ^ p) ^ (b ^ p) == a ^ b && a ^ (b ^ p) == (a ^ b) ^ p
  {
  }

  lemma OneBit(a: bv32)
    ensures a & 1 == 0 || a & 1 == 1
  {
  }

  lemma BitLinear(a: bv32, b: bv32)
    ensures Bit32(Plus(a, b)) == Plus(Bit32(a), Bit32(b))
  {
    assert (a ^ b) >> 1 == (a >> 1) ^ (b >> 1);
    assert (a ^ b) & 1 == (a & 1) ^ (b & 1);
    OneBit(a);
    OneBit(b);
    Xor4(a >> 1, b >> 1, 0xEDB88320);
  }

  lemma BitInjective(a: bv32, b: bv32)
    requires Bit32(a) == Bit32(b)
    ensures a == b
  {
  }

  function TwoBits(c: bv32): bv32 { Bit32(Bit32(c)) }

  function FourBits(c: bv32): bv32 { TwoBits(TwoBits(c)) }

  lemma ByteIsFourFour(c: bv32)
    ensures Byte32(c) == FourBits(FourBits(c))
  {
    hide Bit32;
  }

  lemma TwoLinear(a: bv32, b: bv32)
    ensures TwoBits(Plus(a, b)) == Plus(TwoBits(a), TwoBits(b))
  {
    hide Bit32, Plus;
    BitLinear(a, b);
    BitLinear(Bit32(a), Bit32(b));
  }

  lemma FourLinear(a: bv32, b: bv32)
    ensures FourBits(Plus(a, b)) == Plus(FourBits(a), FourBits(b))
  {
    hide TwoBits, Plus;
    TwoLinear(a, b);
    TwoLinear(TwoBits(a), TwoBits(b));
  }

  lemma ByteLinear(a: bv32, b: bv32)
    ensures Byte32(Plus(a, b)) == Plus(Byte32(a), Byte32(b))
  {
    hide FourBits, Byte32, Plus;
    FourLinear(a, b);
    FourLinear(FourBits(a), FourBits(b));
    ByteIsFourFour(a);
    ByteIsFourFour(b);
    ByteIsFourFour(Plus(a, b));
  }

  lemma ByteInjective(a: bv32, b: bv32)
    requires Byte32(a) == Byte32(b)
    ensures a == b
  {
    hide Bit32;
    var a1, b1 := Bit32(a), Bit32(b);
    var a2, b2 := Bit32(a1), Bit32(b1);
    var a3, b3 := Bit32(a2), Bit32(b2);
    var a4, b4 := Bit32(a3), Bit32(b3);
    var a5, b5 := Bit32(a4), Bit32(b4);
    var a6, b6 := Bit32(a5), Bit32(b5);
    var a7, b7 := Bit32(a6), Bit32(b6);
    BitInjective(a7, b7);
    BitInjective(a6, b6);
    BitInjective(a5, b5);
    BitInjective(a4, b4);
    BitInjective(a3, b3);
    BitInjective(a2, b2);
    BitInjective(a1, b1);
    BitInjective(a, b);
  }

  /** Eight steps only shift out a zero byte. */
  lemma ByteOfShifted32(c: bv32)
    requires Low(c) == 0
    ensures Byte32(c) == Shift(c)
  {
  }

  // ---- The table steps are the division steps.

  /** `CRC_INNER_LOOP(32, crc, b)` */
  function TableStep32(crc: bv32, b: Octet): bv32 {
    Plus(Shift(crc), Table32(Low(Feed(crc, b))))
  }

  /** `CRC_INNER_LOOP(16, crc, b)` */
  function TableStep16(crc: bv16, b: Octet): bv16 {
    (crc >> 8) ^ Table16(((crc ^ b as bv16) & 0xff) as bv8)
  }

  lemma SplitLow(c: bv32)
    ensures c == Plus(Low(c) as bv32, High(c)) && Low(High(c)) == 0 && Shift(High(c)) == Shift(c)
  {
  }

  lemma FeedKeepsHigh(crc: bv32, b: Octet)
    ensures Shift(Feed(crc, b)) == Shift(crc)
  {
  }

  lemma PlusCommutes(a: bv32, b: bv32)
    ensures Plus(a, b) == Plus(b, a)
  {
  }

  /** The remainder of a state: its low byte's remainder, plus the rest shifted. */
  lemma ByteSplit(c: bv32)
    ensures Byte32(c) == Plus(Shift(c), Byte32(Low(c) as bv32))
  {
    hide Byte32, Plus, Low, High, Shift;
    SplitLow(c);
    ByteLinear(Low(c) as bv32, High(c));
    ByteOfShifted32(High(c));
    PlusCommutes(Shift(c), Byte32(Low(c) as bv32));
  }

  /** One table lookup is eight steps of division: for any state and byte. */
  lemma TableDivides32(crc: bv32, b: Octet)
    ensures TableStep32(crc, b) == Byte32(Feed(crc, b))
  {
    hide Byte32, Table32, Plus, Low, Shift, Feed;
    ByteSplit(Feed(crc, b));
    FeedKeepsHigh(crc, b);
  }

  lemma TableDivides16(crc: bv16, b: Octet)
    ensures TableStep16(crc, b) == Byte16(Feed16(crc, b))
  {
    hide Table16;
  }

  // ---- What holds of every division.

  lemma {:induction false} Append32(crc: bv32, s: Octets, t: Octets)
    ensures Divide32(crc, s + t) == Divide32(Divide32(crc, s), t)
    decreases |s|
  {
    if s == [] {
      assert s + t == t;
    } else {
      assert (s + t)[1..] == s[1..] + t && (s + t)[0] == s[0];
      Append32(Byte32(Feed(crc, s[0])), s[1..], t);
    }
  }

  lemma {:induction false} Append16(crc: bv16, s: Octets, t: Octets)
    ensures Divide16(crc, s + t) == Divide16(Divide16(crc, s), t)
    decreases |s|
  {
    if s == [] {
      assert s + t == t;
    } else {
      assert (s + t)[1..] == s[1..] + t && (s + t)[0] == s[0];
      Append16(Byte16(Feed16(crc, s[0])), s[1..], t);
    }
  }

  lemma {:induction false} Append8(crc: bv8, s: Octets, t: Octets)
    ensures Divide8(crc, s + t) == Divide8(Divide8(crc, s), t)
    decreases |s|
  {
    if s == [] {
      assert s + t == t;
    } else {
      assert (s + t)[1..] == s[1..] + t && (s + t)[0] == s[0];
      Append8(Byte8(crc ^ s[0]), s[1..], t);
    }
  }

  // ---- The residue of a message followed by its complemented CRC.

  lemma Residue0(x: bv32)
    ensures var s := Feed(x, ((!x) & 0xff) as bv8); Low(s) == 0xFF && Shift(s) == x >> 8
  {
  }

  lemma Residue1(x: bv32)
    ensures var s := Feed((x >> 8) ^ 0x2D02EF8D, ((!x >> 8) & 0xff) as bv8);
            Low(s) == 0x72 && Shift(s) == (x >> 16) ^ 0x002D02EF
  {
  }

  lemma Residue2(x: bv32)
    ensures var s := Feed((x >> 16) ^ 0xBE2612FF, ((!x >> 16) & 0xff) as bv8);
            Low(s) == 0x00 && Shift(s) == (x >> 24) ^ 0x00BE2612
  {
  }

  lemma Residue3(x: bv32)
    ensures var s := Feed((x >> 24) ^ 0x00BE2612, (!x >> 24) as bv8);
            Low(s) == 0xED && Shift(s) == 0x0000BE26
  {
  }

  lemma TableEntries()
    ensures Byte32(0xFF) == 0x2D02EF8D && Byte32(0x72) == 0xBE0B1010
    ensures Byte32(0x00) == 0 && Byte32(0xED) == 0xDEBB9EC5
  {
  }

  lemma ResidueSums(x: bv32)
    ensures Plus(x >> 8, 0x2D02EF8D) == (x >> 8) ^ 0x2D02EF8D
    ensures Plus((x >> 16) ^ 0x002D02EF, 0xBE0B1010) == (x >> 16) ^ 0xBE2612FF
    ensures Plus((x >> 24) ^ 0x00BE2612, 0) == (x >> 24) ^ 0x00BE2612
    ensures Plus(0x0000BE26, 0xDEBB9EC5) == CRC32_GOOD_VALUE
  {
  }

  lemma ResidueOfState(x: bv32)
    ensures var y := Le32(!x);
            var s1 := Byte32(Feed(x, y[0]));
            var s2 := Byte32(Feed(s1, y[1]));
            var s3 := Byte32(Feed(s2, y[2]));
            Byte32(Feed(s3, y[3])) == CRC32_GOOD_VALUE
  {
    hide Byte32, Feed, Low, Shift, Plus;
    TableEntries();
    ResidueSums(x);
    var y := Le32(!x);
    Residue0(x);
    ByteSplit(Feed(x, y[0]));
    Residue1(x);
    ByteSplit(Feed((x >> 8) ^ 0x2D02EF8D, y[1]));
    Residue2(x);
    ByteSplit(Feed((x >> 16) ^ 0xBE2612FF, y[2]));
    Residue3(x);
    ByteSplit(Feed((x >> 24) ^ 0x00BE2612, y[3]));
  }

  lemma Divide4(crc: bv32, y: Octets)
    requires |y| == 4
    ensures Divide32(crc, y) == Byte32(Feed(Byte32(Feed(Byte32(Feed(Byte32(Feed(crc, y[0])), y[1])), y[2])), y[3]))
  {
    hide Byte32, Feed;
    var c1 := Byte32(Feed(crc, y[0]));
    var c2 := Byte32(Feed(c1, y[1]));
    var c3 := Byte32(Feed(c2, y[2]));
    assert y[1..][1..] == y[2..] && y[2..][1..] == y[3..] && y[3..][1..] == [];
    assert y[1..][0] == y[1] && y[2..][0] == y[2] && y[3..][0] == y[3];
    assert Divide32(crc, y) == Divide32(c1, y[1..]);
    assert Divide32(c1, y[1..]) == Divide32(c2, y[2..]);
    assert Divide32(c2, y[2..]) == Divide32(c3, y[3..]);
    assert Divide32(c3, y[3..]) == Divide32(Byte32(Feed(c3, y[3])), []);
  }

  /** A message followed by its complemented CRC, least significant byte first, leaves one fixed residue. */
  lemma GoodResidue32(crc: bv32, s: Octets)
    ensures Divide32(crc, s + Le32(!Divide32(crc, s))) == CRC32_GOOD_VALUE
  {
    var x := Divide32(crc, s);
    Append32(crc, s, Le32(!x));
    hide Byte32, Feed;
    Divide4(x, Le32(!x));
    ResidueOfState(x);
  }

  lemma ResidueBits16(x: bv16)
    ensures Byte16(Byte16(x ^ (!x & 0xff)) ^ (!x >> 8)) == CRC16_GOOD_VALUE
    ensures ((!x & 0xff) as bv8) as bv16 == !x & 0xff && ((!x >> 8) as bv8) as bv16 == !x >> 8
  {
  }

  lemma ResidueOfState16(x: bv16)
    ensures var y := Le16(!x); Byte16(Feed16(Byte16(Feed16(x, y[0])), y[1])) == CRC16_GOOD_VALUE
  {
    ResidueBits16(x);
    hide Byte16;
  }

  lemma Divide2(x: bv16, y: Octets)
    requires |y| == 2
    ensures Divide16(x, y) == Byte16(Feed16(Byte16(Feed16(x, y[0])), y[1]))
  {
    hide Byte16, Feed16;
    var x1 := Byte16(Feed16(x, y[0]));
    assert y[1..][1..] == [] && y[1..][0] == y[1];
    assert Divide16(x, y) == Divide16(x1, y[1..]);
    assert Divide16(x1, y[1..]) == Divide16(Byte16(Feed16(x1, y[1])), []);
  }

  lemma GoodResidue16(crc: bv16, s: Octets)
    ensures Divide16(crc, s + Le16(!Divide16(crc, s))) == CRC16_GOOD_VALUE
  {
    hide Byte16, Feed16;
    var x := Divide16(crc, s);
    Append16(crc, s, Le16(!x));
    ResidueOfState16(x);
    Divide2(x, Le16(!x));
  }

  lemma GoodResidue8(crc: bv8, s: Octets)
    ensures Divide8(crc, s + [!Divide8(crc, s)]) == CRC8_GOOD_VALUE
  {
    var x := Divide8(crc, s);
    Append8(crc, s, [!x]);
    assert x ^ !x == 0xff;
  }

  // ---- Burst errors.

  /** `b` in front of the bytes of `w`. */
  function Cons(b: Octet, w: bv32): bv32 { Plus(b as bv32, w << 8) }

  /** The next message bytes as a little-endian number. */
  function Word(a: Octets): bv32
    requires |a| <= 4
  {
    if a == [] then 0 else Cons(a[0], Word(a[1..]))
  }

  /** `w` has at most `n` bytes. */
  predicate Fits(w: bv32, n: nat) {
    if n == 0 then w == 0
    else if n == 1 then w & 0xffffff00 == 0
    else if n == 2 then w & 0xffff0000 == 0
    else n == 3 ==> w & 0xff000000 == 0
  }

  // Facts about shifted words, in the form the solver decides at once.

  lemma ShiftUp1(b: bv8, w: bv32)
    requires w == 0
    ensures ((b as bv32) ^ (w << 8)) & 0xffffff00 == 0
  {
  }

  lemma ShiftUp2(b: bv8, w: bv32)
    requires w & 0xffffff00 == 0
    ensures ((b as bv32) ^ (w << 8)) & 0xffff0000 == 0
  {
  }

  lemma ShiftUp3(b: bv8, w: bv32)
    requires w & 0xffff0000 == 0
    ensures ((b as bv32) ^ (w << 8)) & 0xff000000 == 0
  {
  }

  lemma ShiftBack(w: bv32)
    requires w & 0xff000000 == 0
    ensures (w << 8) >> 8 == w && ((w << 8) & 0xff) as bv8 == 0
  {
  }

  lemma DigitsBack(b: bv8, w: bv32)
    requires w & 0xff000000 == 0
    ensures (((b as bv32) ^ (w << 8)) & 0xff) as bv8 == b && ((b as bv32) ^ (w << 8)) >> 8 == w
  {
  }

  lemma TopByteClear(w: bv32)
    ensures w & 0xffff0000 == 0 || w & 0xffffff00 == 0 || w == 0 ==> w & 0xff000000 == 0
  {
  }

  lemma PlusAssociates(a: bv32, b: bv32, c: bv32)
    ensures Plus(a, Plus(b, c)) == Plus(Plus(a, b), c)
  {
  }

  lemma ConsFits(b: Octet, w: bv32, n: nat)
    requires Fits(w, n)
    ensures Fits(Cons(b, w), n + 1)
  {
    if n == 0 {
      ShiftUp1(b, w);
    } else if n == 1 {
      ShiftUp2(b, w);
    } else if n == 2 {
      ShiftUp3(b, w);
    }
  }

  lemma {:induction false} WordFits(a: Octets)
    requires |a| <= 4
    ensures Fits(Word(a), |a|)
    decreases |a|
  {
    hide Fits, Cons;
    if a != [] {
      WordFits(a[1..]);
      ConsFits(a[0], Word(a[1..]), |a| - 1);
    } else {
      FitsZero();
    }
  }

  lemma FitsZero()
    ensures Fits(0, 0)
  {
  }

  lemma FitsThree(w: bv32, n: nat)
    requires n <= 3 && Fits(w, n)
    ensures Low(w << 8) == 0 && Shift(w << 8) == w
  {
    TopByteClear(w);
    ShiftBack(w);
  }

  /** `n` whole bytes of division. */
  function Bytes(n: nat, c: bv32): bv32 {
    if n == 0 then c else Bytes(n - 1, Byte32(c))
  }

  lemma FeedWord(crc: bv32, b: Octet, w: bv32)
    ensures Plus(crc, Cons(b, w)) == Plus(Feed(crc, b), w << 8)
  {
    hide Plus;
    PlusAssociates(crc, b as bv32, w << 8);
  }

  /** One byte of a word divided in. */
  lemma DivideCons(crc: bv32, b: Octet, w: bv32, n: nat)
    requires n <= 3 && Fits(w, n)
    ensures Byte32(Plus(crc, Cons(b, w))) == Plus(Byte32(Feed(crc, b)), w)
  {
    FeedWord(crc, b, w);
    FitsThree(w, n);
    hide Plus, Feed, Byte32, Low, Shift, Cons, Fits;
    ByteLinear(Feed(crc, b), w << 8);
    ByteOfShifted32(w << 8);
  }

  lemma {:induction false} DivideWord(crc: bv32, a: Octets)
    requires |a| <= 4
    ensures Divide32(crc, a) == Bytes(|a|, Plus(crc, Word(a)))
    decreases |a|
  {
    hide Plus, Feed, Byte32, Cons, Fits;
    if a == [] {
      PlusZero(crc);
    } else {
      var w := Word(a[1..]);
      WordFits(a[1..]);
      DivideCons(crc, a[0], w, |a| - 1);
      DivideWord(Byte32(Feed(crc, a[0])), a[1..]);
    }
  }

  lemma PlusZero(c: bv32)
    ensures Plus(c, 0) == c
  {
  }

  lemma PlusInjective(c: bv32, a: bv32, b: bv32)
    requires Plus(c, a) == Plus(c, b)
    ensures a == b
  {
  }

  lemma FeedInjective(c: bv32, d: bv32, b: Octet)
    requires Feed(c, b) == Feed(d, b)
    ensures c == d
  {
  }

  lemma ConsDigits(b: Octet, w: bv32, n: nat)
    requires n <= 3 && Fits(w, n)
    ensures Low(Cons(b, w)) == b && Shift(Cons(b, w)) == w
  {
    TopByteClear(w);
    DigitsBack(b, w);
  }

  lemma {:induction false} WordInjective(a: Octets, b: Octets)
    requires |a| == |b| <= 4 && Word(a) == Word(b)
    ensures a == b
    decreases |a|
  {
    if a != [] {
      WordFits(a[1..]);
      WordFits(b[1..]);
      ConsDigits(a[0], Word(a[1..]), |a| - 1);
      ConsDigits(b[0], Word(b[1..]), |b| - 1);
      hide Cons, Low, Shift, Fits;
      WordInjective(a[1..], b[1..]);
      assert a == [a[0]] + a[1..] && b == [b[0]] + b[1..];
    }
  }

  lemma {:induction false} BytesInjective(n: nat, c: bv32, d: bv32)
    requires Bytes(n, c) == Bytes(n, d)
    ensures c == d
  {
    if n > 0 {
      hide Byte32;
      BytesInjective(n - 1, Byte32(c), Byte32(d));
      ByteInjective(c, d);
    }
  }

  lemma {:induction false} StateInjective(c: bv32, d: bv32, s: Octets)
    requires Divide32(c, s) == Divide32(d, s)
    ensures c == d
    decreases |s|
  {
    if s != [] {
      hide Byte32, Feed;
      StateInjective(Byte32(Feed(c, s[0])), Byte32(Feed(d, s[0])), s[1..]);
      ByteInjective(Feed(c, s[0]), Feed(d, s[0]));
      FeedInjective(c, d, s[0]);
    }
  }

  /** Every error confined to 32 consecutive bits, byte aligned, changes the CRC. */
  lemma BurstDetected(crc: bv32, before: Octets, a: Octets, b: Octets, after: Octets)
    requires |a| == |b| <= 4 && a != b
    ensures Divide32(crc, before + a + after) != Divide32(crc, before + b + after)
  {
    if Divide32(crc, before + a + after) == Divide32(crc, before + b + after) {
      Append32(crc, before + a, after);
      Append32(crc, before + b, after);
      StateInjective(Divide32(crc, before + a), Divide32(crc, before + b), after);
      var c := Divide32(crc, before);
      Append32(crc, before, a);
      Append32(crc, before, b);
      DivideWord(c, a);
      DivideWord(c, b);
      hide Plus;
      BytesInjective(|a|, Plus(c, Word(a)), Plus(c, Word(b)));
      PlusInjective(c, Word(a), Word(b));
      WordInjective(a, b);
      assert false;
    }
  }

  // ---- The loops.

  /** `hndcrc8` */
  method HndCrc8(pdata: Octets, crc: bv8) returns (r: bv8)
    ensures r == Divide8(crc, pdata)
  {
    hide Byte8;
    r := crc;
    var i := 0;
    while i < |pdata|
      invariant 0 <= i <= |pdata|
      invariant Divide8(r, pdata[i..]) == Divide8(crc, pdata)
    {
      assert pdata[i..][1..] == pdata[i + 1..];
      r := Table8((r ^ pdata[i]) & 0xff);
      assert (r ^ pdata[i]) & 0xff == r ^ pdata[i];
      i := i + 1;
    }
  }

  /** `hndcrc16` */
  method HndCrc16(pdata: Octets, crc: bv16) returns (r: bv16)
    ensures r == Divide16(crc, pdata)
  {
    hide Byte16, TableStep16, Feed16;
    r := crc;
    var i := 0;
    while i < |pdata|
      invariant 0 <= i <= |pdata|
      invariant Divide16(r, pdata[i..]) == Divide16(crc, pdata)
    {
      assert pdata[i..][1..] == pdata[i + 1..];
      TableDivides16(r, pdata[i]);
      r := TableStep16(r, pdata[i]);
      i := i + 1;
    }
  }

  /** A byte loop of `hndcrc32`: from `i` up to `pend`. */
  method ByteLoop32(pdata: Octets, i: nat, pend: nat, crc: bv32) returns (r: bv32)
    requires i <= pend <= |pdata|
    ensures r == Divide32(crc, pdata[i..pend])
  {
    hide Byte32, TableStep32, Feed;
    r := crc;
    var k := i;
    while k < pend
      invariant i <= k <= pend
      invariant Divide32(r, pdata[k..pend]) == Divide32(crc, pdata[i..pend])
    {
      assert pdata[k..pend][1..] == pdata[k + 1..pend];
      TableDivides32(r, pdata[k]);
      r := TableStep32(r, pdata[k]);
      k := k + 1;
    }
  }

  /** `hndcrc32`, the plain version. */
  method HndCrc32(pdata: Octets, crc: bv32) returns (r: bv32)
    ensures r == Divide32(crc, pdata)
  {
    r := ByteLoop32(pdata, 0, |pdata|, crc);
    assert pdata[0..|pdata|] == pdata;
  }

  /** `crc32` of crc32.c: the complement of the division from all ones. */
  method Crc32(frame: Octets) returns (r: bv32)
    ensures r == !Divide32(CRC32_INIT_VALUE, frame)
  {
    var crc := ByteLoop32(frame, 0, |frame|, 0xFFFFFFFF);
    assert frame[0..|frame|] == frame;
    r := !crc;
  }

  lemma NoOctets(crc: bv32)
    ensures Divide32(crc, []) == crc
  {
  }

  lemma OneOctet(crc: bv32, b: Octet, rest: Octets, next: bv32)
    requires Byte32(Feed(crc, b)) == next
    ensures Divide32(crc, [b] + rest) == Divide32(next, rest)
  {
    assert ([b] + rest)[1..] == rest;
    hide Byte32, Feed;
  }

  /** The CRC-32 of the nine digits from 1 to 9 in ASCII. */
  lemma CheckValue()
    ensures !Divide32(CRC32_INIT_VALUE, [0x31, 0x32, 0x33, 0x34, 0x35, 0x36, 0x37, 0x38, 0x39]) == 0xcbf43926
  {
    var digits: Octets := [0x31, 0x32, 0x33, 0x34, 0x35, 0x36, 0x37, 0x38, 0x39];
    OneOctet(0xffffffff, 0x31, digits[1..], 0x7c231048);
    OneOctet(0x7c231048, 0x32, digits[2..], 0xb0acbb32);
    OneOctet(0xb0acbb32, 0x33, digits[3..], 0x77b79c2d);
    OneOctet(0x77b79c2d, 0x34, digits[4..], 0x641c1f5c);
    OneOctet(0x641c1f5c, 0x35, digits[5..], 0x340ac5e3);
    OneOctet(0x340ac5e3, 0x36, digits[6..], 0xf68d2c9e);
    OneOctet(0xf68d2c9e, 0x37, digits[7..], 0xaffc9660);
    OneOctet(0xaffc9660, 0x38, digits[8..], 0x651f2550);
    OneOctet(0x651f2550, 0x39, digits[9..], 0x340bc6d9);
    hide Divide32, Byte32, Feed;
    assert digits[0..] == [0x31] + digits[1..];
    assert digits[1..] == [0x32] + digits[2..];
    assert digits[2..] == [0x33] + digits[3..];
    assert digits[3..] == [0x34] + digits[4..];
    assert digits[4..] == [0x35] + digits[5..];
    assert digits[5..] == [0x36] + digits[6..];
    assert digits[6..] == [0x37] + digits[7..];
    assert digits[7..] == [0x38] + digits[8..];
    assert digits[8..] == [0x39] + digits[9..];
    assert Divide32(0x340bc6d9, digits[9..]) == 0x340bc6d9 by {
      assert digits[9..] == [];
      NoOctets(0x340bc6d9);
    }
    assert digits[0..] == digits;
  }

  // ---- The word-at-a-time version of `hndcrc32`, over 32-bit pointers

  const POINTERS := 0x1_0000_0000

  /** Pointers and `uint` are computed modulo 2^32. */
  function Ptr(n: int): (p: nat)
    ensures p < POINTERS
  {
    n % POINTERS
  }

  lemma PtrIs(n: int)
    ensures 0 <= n < POINTERS ==> Ptr(n) == n
    ensures -POINTERS <= n < 0 ==> Ptr(n) == n + POINTERS
    ensures POINTERS <= n < 2 * POINTERS ==> Ptr(n) == n - POINTERS
  {
  }

  /** `n & 0xfffffffc`: what whole words cover of `n` bytes. */
  function Whole(n: nat): (w: nat)
    ensures w <= n
  {
    n / 4 * 4
  }

  lemma WholeNear(n: nat)
    ensures n < Whole(n) + 4 && Whole(n) % 4 == 0
  {
  }

  /** The bytes before the first word boundary at or after `addr`. */
  function Misaligned(addr: nat): (n: nat)
    ensures n < 4 && (addr + n) % 4 == 0
  {
    (4 - addr % 4) % 4
  }

  /** How far a loop moves that starts at `from` and runs while it is below `to`. */
  function Span(from: nat, to: nat): (n: nat)
    ensures from < POINTERS && to < POINTERS ==> from + n < POINTERS
  {
    if from < to then to - from else 0
  }

  /** `pend` of the alignment prefix: `(pdata + 3) & 0xfffffffc` */
  function PrefixEnd(addr: nat): nat { Ptr(Whole(addr + 3)) }

  /** `nbytes` behind the prefix: `nbytes -= pend - pdata` */
  function Remaining(addr: nat, nbytes: nat): nat { Ptr(nbytes - (PrefixEnd(addr) - addr)) }

  /** How many bytes the three loops read. */
  function Reads(addr: nat, nbytes: nat): nat {
    var left := Remaining(addr, nbytes);
    var a := Span(addr, PrefixEnd(addr));
    var b := Span(addr + a, Ptr(addr + a + Whole(left)));
    a + b + Span(addr + a + b, Ptr(addr + a + b + (left - Whole(left))))
  }

  /** The prefix ends at the next word boundary, or at 0 if that is the end of the address space. */
  lemma PrefixEnds(addr: nat)
    requires addr < POINTERS
    ensures PrefixEnd(addr) == if addr + Misaligned(addr) < POINTERS then addr + Misaligned(addr) else 0
  {
    NextBoundary(addr);
    PtrIs(Whole(addr + 3));
    hide Ptr, Whole, Misaligned;
  }

  lemma NextBoundary(addr: nat)
    ensures Whole(addr + 3) == addr + Misaligned(addr)
  {
  }

  lemma ReadsAll(addr: nat, nbytes: nat)
    requires addr + nbytes < POINTERS && Misaligned(addr) <= nbytes
    ensures Reads(addr, nbytes) == nbytes
  {
    PrefixEnds(addr);
    var left := nbytes - Misaligned(addr);
    PtrIs(left);
    WholeNear(left);
    PtrIs(addr + Misaligned(addr) + Whole(left));
    PtrIs(addr + nbytes);
    hide Ptr, Whole, PrefixEnd, Misaligned;
  }

  /** Where the prefix does not fit, they read four bytes too many. */
  lemma ReadsTooFar(addr: nat, nbytes: nat)
    requires addr + nbytes < POINTERS && Misaligned(addr) > nbytes && addr + Misaligned(addr) < POINTERS
    ensures Reads(addr, nbytes) == nbytes + 4
  {
    PrefixEnds(addr);
    PtrIs(nbytes - Misaligned(addr));
    var left, p := Remaining(addr, nbytes), addr + Misaligned(addr);
    WholeIs(left, POINTERS - 4);
    PtrIs(p + Whole(left));
    PtrIs(p + (left - Whole(left)));
    hide Ptr, Whole, PrefixEnd;
  }

  lemma WholeIs(n: nat, w: nat)
    requires w <= n < w + 4 && w % 4 == 0
    ensures Whole(n) == w
  {
  }

  /** In the last word of the address space the prefix wraps around. */
  lemma ReadsInLastWord(addr: nat, nbytes: nat)
    requires addr + nbytes < POINTERS && Misaligned(addr) > nbytes && addr + Misaligned(addr) == POINTERS
    ensures Reads(addr, nbytes) == nbytes <==> nbytes == 0 && addr >= POINTERS - 2
  {
    PrefixEnds(addr);
    PtrIs(nbytes + addr);
    var left := Remaining(addr, nbytes);
    WholeIs(left, POINTERS - 4);
    PtrIs(addr + Whole(left));
    PtrIs(addr + (left - Whole(left)));
    hide Ptr, Whole, PrefixEnd, Misaligned;
  }

  /** The alignment prefix fits, or it wraps around in front of no input. */
  predicate PrefixFits(addr: nat, nbytes: nat) {
    Misaligned(addr) <= nbytes || (nbytes == 0 && addr >= POINTERS - 2)
  }

  /** They read the input exactly if the alignment prefix fits, for every input in the address space. */
  lemma ReadsExactly(addr: nat, nbytes: nat)
    requires addr + nbytes < POINTERS
    ensures Reads(addr, nbytes) == nbytes <==> PrefixFits(addr, nbytes)
  {
    if Misaligned(addr) <= nbytes {
      ReadsAll(addr, nbytes);
    } else if addr + Misaligned(addr) < POINTERS {
      ReadsTooFar(addr, nbytes);
      InFront(addr);
    } else {
      LastWord(addr);
      ReadsInLastWord(addr, nbytes);
    }
    hide Reads, Misaligned;
  }

  lemma InFront(addr: nat)
    requires addr + Misaligned(addr) < POINTERS && Misaligned(addr) > 0
    ensures addr < POINTERS - 2
  {
  }

  lemma LastWord(addr: nat)
    requires addr < POINTERS <= addr + Misaligned(addr)
    ensures addr + Misaligned(addr) == POINTERS
  {
  }

  /** One byte, right behind a word boundary: five bytes are read. */
  lemma ReadsTooFarExample()
    ensures Reads(0x1001, 1) == 5
  {
    ReadsTooFar(0x1001, 1);
  }

  /** What memory holds from an address on. */
  function Memory(mem: nat -> Octet, addr: nat, n: nat): (s: Octets)
    ensures |s| == n
  {
    seq(n, i requires 0 <= i < n => mem(addr + i))
  }

  /** `n` bytes, and `k` more behind them. */
  lemma MemoryOn(mem: nat -> Octet, crc: bv32, addr: nat, n: nat, k: nat)
    ensures Divide32(crc, Memory(mem, addr, n + k))
            == Divide32(Divide32(crc, Memory(mem, addr, n)), Memory(mem, addr + n, k))
  {
    assert Memory(mem, addr, n + k) == Memory(mem, addr, n) + Memory(mem, addr + n, k);
    Append32(crc, Memory(mem, addr, n), Memory(mem, addr + n, k));
  }

  /** One byte. */
  method ByteStep(mem: nat -> Octet, pdata: nat, crc: bv32) returns (r: bv32)
    ensures r == Divide32(crc, Memory(mem, pdata, 1))
  {
    TableDivides32(crc, mem(pdata));
    assert Memory(mem, pdata, 1) == [mem(pdata)];
    hide Byte32, Feed, TableStep32, Memory;
    r := TableStep32(crc, mem(pdata));
    assert [mem(pdata)][1..] == [];
    assert Divide32(r, []) == r;
  }

  /** One 32-bit word, byte by byte. */
  method WordStep(mem: nat -> Octet, pdata: nat, crc: bv32) returns (r: bv32)
    ensures r == Divide32(crc, Memory(mem, pdata, 4))
  {
    hide Byte32, Feed, TableStep32;
    var tmp := Memory(mem, pdata, 4);
    TableDivides32(crc, tmp[0]);
    var c1 := TableStep32(crc, tmp[0]);
    TableDivides32(c1, tmp[1]);
    var c2 := TableStep32(c1, tmp[1]);
    TableDivides32(c2, tmp[2]);
    var c3 := TableStep32(c2, tmp[2]);
    TableDivides32(c3, tmp[3]);
    r := TableStep32(c3, tmp[3]);
    Divide4(crc, tmp);
  }

  /** `r` is the CRC of what has been read when `pdata` is next. */
  ghost predicate Read(mem: nat -> Octet, start: nat, crc: bv32, pdata: nat, r: bv32) {
    start <= pdata && r == Divide32(crc, Memory(mem, start, pdata - start))
  }

  /** A loop over single bytes. */
  method BytesTo(mem: nat -> Octet, start: nat, from: nat, pend: nat, crc: bv32, crc0: bv32)
    returns (r: bv32, pdata: nat)
    requires Read(mem, start, crc0, from, crc)
    ensures pdata == from + Span(from, pend) && Read(mem, start, crc0, pdata, r)
  {
    hide Divide32, Memory;
    r, pdata := crc, from;
    while pdata < pend
      invariant from <= pdata && (from < pend ==> pdata <= pend) && (from >= pend ==> pdata == from)
      invariant r == Divide32(crc0, Memory(mem, start, pdata - start))
    {
      MemoryOn(mem, crc0, start, pdata - start, 1);
      r := ByteStep(mem, pdata, r);
      pdata := pdata + 1;
    }
  }

  /** A loop over words. */
  method WordsTo(mem: nat -> Octet, start: nat, from: nat, pend: nat, crc: bv32, crc0: bv32)
    returns (r: bv32, pdata: nat)
    requires Read(mem, start, crc0, from, crc)
    requires from < pend ==> (pend - from) % 4 == 0
    ensures pdata == from + Span(from, pend) && Read(mem, start, crc0, pdata, r)
  {
    hide Divide32, Memory;
    r, pdata := crc, from;
    while pdata < pend
      invariant from <= pdata && (if from < pend then pdata <= pend && (pend - pdata) % 4 == 0 else pdata == from)
      invariant r == Divide32(crc0, Memory(mem, start, pdata - start))
    {
      MemoryOn(mem, crc0, start, pdata - start, 4);
      r := WordStep(mem, pdata, r);
      pdata := pdata + 4;
    }
  }

  /**
    `hndcrc32` for MIPS, from address `addr`: alignment prefix, whole words, remaining bytes.
    The CRC is that of the `total` bytes from `addr` on, which are the input exactly if the
    prefix fits.
   */
  method HndCrc32Words(mem: nat -> Octet, addr: nat, nbytes: nat, crc: bv32) returns (r: bv32, total: nat)
    requires addr + nbytes < POINTERS
    ensures total == Reads(addr, nbytes) && r == Divide32(crc, Memory(mem, addr, total))
    ensures total == nbytes <==> PrefixFits(addr, nbytes)
  {
    ReadsExactly(addr, nbytes);
    NothingRead(mem, crc, addr);
    hide *;
    var pend := Ptr(Whole(addr + 3));
    var left := Ptr(nbytes - (pend - addr));
    var p, q;
    r, p := BytesTo(mem, addr, addr, pend, crc, crc);
    pend := Ptr(p + Whole(left));
    WordBoundary(p, left);
    r, q := WordsTo(mem, addr, p, pend, r, crc);
    pend := Ptr(q + (left - Whole(left)));
    r, total := BytesTo(mem, addr, q, pend, r, crc);
    ReadsIs(addr, nbytes, left, p, q, total);
    AllRead(mem, addr, crc, total, r);
    total := total - addr;
  }

  /** The three ends one after the other. */
  lemma ReadsIs(addr: nat, nbytes: nat, left: nat, p: nat, q: nat, end: nat)
    requires left == Ptr(nbytes - (Ptr(Whole(addr + 3)) - addr))
    requires p == addr + Span(addr, Ptr(Whole(addr + 3))) && q == p + Span(p, Ptr(p + Whole(left)))
    requires end == q + Span(q, Ptr(q + (left - Whole(left))))
    ensures Reads(addr, nbytes) == end - addr
  {
    hide Ptr, Whole, Span;
  }

  /** The words end where a whole number of them fits, unless the end wraps around. */
  lemma WordBoundary(pdata: nat, left: nat)
    requires pdata < POINTERS && left < POINTERS
    ensures pdata < Ptr(pdata + Whole(left)) ==> (Ptr(pdata + Whole(left)) - pdata) % 4 == 0
  {
    PtrIs(pdata + Whole(left));
    WholeNear(left);
    hide Ptr, Whole;
  }

  lemma NothingRead(mem: nat -> Octet, crc: bv32, addr: nat)
    ensures Read(mem, addr, crc, addr, crc)
  {
  }

  lemma AllRead(mem: nat -> Octet, addr: nat, crc: bv32, end: nat, r: bv32)
    requires Read(mem, addr, crc, end, r)
    ensures end >= addr && r == Divide32(crc, Memory(mem, addr, end - addr))
  {
  }
}
