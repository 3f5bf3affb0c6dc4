/**
  Writing device memory in dhdu.c (`dhd_membytes`): a repeated pattern, cut into messages that
  fit the ioctl buffer, and the in-place decoding of a hexadecimal pattern.
 */
module Membytes {
  import opened Options
  import opened Octets
  import opened Arith

  /** The length of "membytes" with its NUL, and of the two parameters behind it. */
  const HEADER: nat := 9 + 8

  /** How many addresses there are. */
  const ADDRESSES: nat := 0x1_0000_0000

  /** A size of the ioctl buffer that leaves room for one aligned word behind the header. */
  type MaxLen = n: nat | n >= 17 + 4 witness 21

  /** One write: `params` and the bytes behind them. */
  datatype Write = Write(addr: nat, data: Octets)

  /** A 32-bit parameter, least significant byte first; a wider number is cut off. */
  function Param(n: nat): (s: Octets)
    ensures |s| == 4
  {
    [Byte(n % 256), Byte(n / 256 % 256), Byte(n / 65536 % 256), Byte(n / 16777216 % 256)]
  }

  function ParamValue(s: Octets): nat
    requires |s| == 4
  {
    Num(s[0]) + 256 * Num(s[1]) + 65536 * Num(s[2]) + 16777216 * Num(s[3])
  }

  lemma ParamRoundTrip(n: nat)
    ensures ParamValue(Param(n)) == n % ADDRESSES
  {
    NumByte(n % 256);
    NumByte(n / 256 % 256);
    NumByte(n / 65536 % 256);
    NumByte(n / 16777216 % 256);
    hide Num, Byte;
    FourDigits(n);
  }

  lemma FourDigits(n: nat)
    ensures n % 256 + 256 * (n / 256 % 256) + 65536 * (n / 65536 % 256) + 16777216 * (n / 16777216 % 256)
            == n % ADDRESSES
  {
    assert n / 65536 == n / 256 / 256 && n / 16777216 == n / 65536 / 256 && n / ADDRESSES == n / 16777216 / 256;
  }

  /** "membytes" and its NUL */
  function Name(): (s: Octets)
    ensures |s| == 9
  {
    [109, 101, 109, 98, 121, 116, 101, 115, 0]
  }

  /** The message handed to `dhd_set`. */
  function Message(w: Write): (m: Octets)
    ensures |m| == HEADER + |w.data|
  {
    Name() + Param(w.addr) + Param(|w.data|) + w.data
  }

  /** What the device makes of a message. */
  function Parse(m: Octets): Option<Write> {
    if |m| < HEADER || m[..9] != Name() || ParamValue(m[13..17]) != |m| - HEADER then None
    else Some(Write(ParamValue(m[9..13]), m[17..]))
  }

  lemma ParseMessage(w: Write)
    requires |w.data| < ADDRESSES
    ensures Parse(Message(w)) == Some(Write(w.addr % ADDRESSES, w.data))
  {
    ParamRoundTrip(w.addr);
    ParamExact(|w.data|);
    hide Param, ParamValue;
    ParseParts(w);
  }

  lemma ParamExact(n: nat)
    requires n < ADDRESSES
    ensures ParamValue(Param(n)) == n
  {
    hide Param, ParamValue;
    ParamRoundTrip(n);
  }

  lemma ParseParts(w: Write)
    requires ParamValue(Param(|w.data|)) == |w.data|
    ensures Parse(Message(w)) == Some(Write(ParamValue(Param(w.addr)), w.data))
  {
    MessageParts(w);
    hide Param, ParamValue, Name, Message;
  }

  lemma MessageParts(w: Write)
    ensures var m := Message(w);
            m[..9] == Name() && m[9..13] == Param(w.addr) && m[13..17] == Param(|w.data|) && m[17..] == w.data
  {
    hide Param, Name;
  }

  /** The octets of a message: "membytes" with its NUL, address and length with the lowest octet first, the data. */
  lemma MessageOctets(w: Write)
    ensures var m := Message(w);
            && |m| == 17 + |w.data| && m[17..] == w.data
            && m[..9] == [0x6d, 0x65, 0x6d, 0x62, 0x79, 0x74, 0x65, 0x73, 0x00]
            && (forall i | 0 <= i < 4 :: Num(m[9 + i]) == OctetOf(w.addr, i) && Num(m[13 + i]) == OctetOf(|w.data|, i))
  {
    var m := Message(w);
    MessageParts(w);
    ParamOctets(w.addr);
    ParamOctets(|w.data|);
    hide Param, Message, OctetOf, Num;
    forall i | 0 <= i < 4 ensures Num(m[9 + i]) == OctetOf(w.addr, i) && Num(m[13 + i]) == OctetOf(|w.data|, i) {
      assert m[9 + i] == m[9..13][i] && m[13 + i] == m[13..17][i];
    }
  }

  /** Octet `i` of a number, the lowest one first. */
  function OctetOf(n: nat, i: nat): nat { if i == 0 then n % 256 else OctetOf(n / 256, i - 1) }

  lemma FirstOctets(n: nat)
    ensures OctetOf(n, 0) == n % 256 && OctetOf(n, 1) == n / 256 % 256
    ensures OctetOf(n, 2) == n / 65536 % 256 && OctetOf(n, 3) == n / 16777216 % 256
  {
    assert n / 65536 == n / 256 / 256 && n / 16777216 == n / 65536 / 256;
    assert OctetOf(n, 1) == OctetOf(n / 256, 0);
    assert OctetOf(n, 2) == OctetOf(n / 256, 1) == OctetOf(n / 256 / 256, 0);
    assert OctetOf(n, 3) == OctetOf(n / 256, 2) == OctetOf(n / 256 / 256, 1) == OctetOf(n / 256 / 256 / 256, 0);
  }

  lemma ParamOctets(n: nat)
    ensures forall i | 0 <= i < 4 :: Num(Param(n)[i]) == OctetOf(n, i)
  {
    NumByte(n % 256);
    NumByte(n / 256 % 256);
    NumByte(n / 65536 % 256);
    NumByte(n / 16777216 % 256);
    FirstOctets(n);
    hide Num, Byte, OctetOf;
    forall i | 0 <= i < 4 ensures Num(Param(n)[i]) == OctetOf(n, i) {
      assert i == 0 || i == 1 || i == 2 || i == 3;
    }
  }

  // ---- The pattern and its chunks

  /** Byte `i` of the endless repetition; an empty pattern repeats the NUL that ends it. */
  function PatternByte(pattern: Octets, i: nat): Octet {
    if pattern == [] then 0 else pattern[i % |pattern|]
  }

  /** Where `sptr` stands in the pattern after `i` bytes. */
  function Place(pattern: Octets, i: nat): nat {
    if pattern == [] then 0 else i % |pattern|
  }

  function Bytes(pattern: Octets, from: nat, n: nat): (s: Octets)
    ensures |s| == n && forall i | 0 <= i < n :: s[i] == PatternByte(pattern, from + i)
  {
    seq(n, i requires 0 <= i => PatternByte(pattern, from + i))
  }

  /** `maxchunk & ~0x3`, or all that is left. */
  function Chunk(maxlen: MaxLen, len: nat): (n: nat)
    ensures n <= len && n <= maxlen - HEADER && (len > 0 ==> n > 0) && (n < len ==> n % 4 == 0)
  {
    var maxchunk := maxlen - HEADER;
    if len > maxchunk then maxchunk / 4 * 4 else len
  }

  /** The writes for the bytes from offset `off` on. */
  function Writes(maxlen: MaxLen, addr: nat, pattern: Octets, off: nat, len: nat): seq<Write>
    decreases len
  {
    if len == 0 then []
    else
      var n := Chunk(maxlen, len);
      [Write(addr + off, Bytes(pattern, off, n))] + Writes(maxlen, addr, pattern, off + n, len - n)
  }

  /** Every message fits the buffer, and all but the last fill it up to less than a word. */
  lemma {:induction false} WritesFit(maxlen: MaxLen, addr: nat, pattern: Octets, off: nat, len: nat)
    ensures var ws := Writes(maxlen, addr, pattern, off, len);
            && (forall i | 0 <= i < |ws| :: ws[i].data != [] && |Message(ws[i])| <= maxlen)
            && forall i | 0 <= i < |ws| - 1 :: |Message(ws[i])| + 4 > maxlen
    decreases len
  {
    if len > 0 {
      var n := Chunk(maxlen, len);
      hide Message, Bytes;
      var ws := Writes(maxlen, addr, pattern, off, len);
      assert ws[1..] == Writes(maxlen, addr, pattern, off + n, len - n);
      WritesFit(maxlen, addr, pattern, off + n, len - n);
      forall i | 0 <= i < |ws|
        ensures ws[i].data != [] && |Message(ws[i])| <= maxlen && (i < |ws| - 1 ==> |Message(ws[i])| + 4 > maxlen)
      {
        assert i > 0 ==> ws[i] == ws[1..][i - 1];
      }
    }
  }

  /** With an aligned start, every write starts aligned. */
  lemma {:induction false} WritesAligned(maxlen: MaxLen, addr: nat, pattern: Octets, off: nat, len: nat)
    requires (addr + off) % 4 == 0
    ensures var ws := Writes(maxlen, addr, pattern, off, len);
            forall i | 0 <= i < |ws| :: ws[i].addr % 4 == 0
    decreases len
  {
    if len > 0 {
      var n := Chunk(maxlen, len);
      hide Bytes, Chunk;
      var ws := Writes(maxlen, addr, pattern, off, len);
      assert ws[1..] == Writes(maxlen, addr, pattern, off + n, len - n);
      if n < len {
        WritesAligned(maxlen, addr, pattern, off + n, len - n);
      }
      forall i | 0 <= i < |ws| ensures ws[i].addr % 4 == 0 {
        assert i > 0 ==> ws[i] == ws[1..][i - 1];
      }
    }
  }

  /** How far an address lies behind another, where addresses wrap around. */
  function Behind(a: nat, addr: nat): (i: nat)
    ensures i < ADDRESSES
  {
    (a - addr) % ADDRESSES
  }

  lemma BehindBoth(a: nat, addr: nat, off: nat)
    requires off <= ADDRESSES
    ensures var i := Behind(a, addr); Behind(a, addr + off) == if off <= i then i - off else i - off + ADDRESSES
  {
    var i := Behind(a, addr);
    assert a - (addr + off) == (a - addr) / ADDRESSES * ADDRESSES + i - off;
    if off <= i {
      Remainder((a - addr) / ADDRESSES, i - off);
    } else {
      Remainder((a - addr) / ADDRESSES - 1, i - off + ADDRESSES);
    }
  }

  lemma Remainder(q: int, r: int)
    requires 0 <= r < ADDRESSES
    ensures (q * ADDRESSES + r) % ADDRESSES == r
  {
  }

  /** Device memory after a write. */
  ghost function Stored(mem: nat -> Octet, w: Write): nat -> Octet {
    (a: nat) => if Behind(a, w.addr) < |w.data| then w.data[Behind(a, w.addr)] else mem(a)
  }

  ghost function AllStored(mem: nat -> Octet, ws: seq<Write>): nat -> Octet
    decreases |ws|
  {
    if ws == [] then mem else AllStored(Stored(mem, ws[0]), ws[1..])
  }

  /**
    Together the writes put byte `i` of the repeated pattern at `addr + i`, modulo the number of
    addresses, for every `i` below `len`, and touch nothing else.
   */
  lemma {:induction false} WritesTile(maxlen: MaxLen, addr: nat, pattern: Octets, off: nat, len: nat,
                                      mem: nat -> Octet, a: nat)
    requires off + len <= ADDRESSES
    ensures AllStored(mem, Writes(maxlen, addr, pattern, off, len))(a) ==
            var i := Behind(a, addr); if off <= i < off + len then PatternByte(pattern, i) else mem(a)
    decreases len
  {
    if len > 0 {
      hide PatternByte, Behind;
      var n := Chunk(maxlen, len);
      var ws := Writes(maxlen, addr, pattern, off, len);
      assert ws[1..] == Writes(maxlen, addr, pattern, off + n, len - n);
      BehindBoth(a, addr, off);
      WritesTile(maxlen, addr, pattern, off + n, len - n, Stored(mem, ws[0]), a);
    }
  }

  /** Laid end to end, the data of the writes are the bytes, each exactly once and in order. */
  lemma {:induction false} WritesInOrder(maxlen: MaxLen, addr: nat, pattern: Octets, off: nat, len: nat)
    ensures Joined(addr + off, Writes(maxlen, addr, pattern, off, len)) == Some(Bytes(pattern, off, len))
    decreases len
  {
    hide PatternByte;
    if len > 0 {
      var n := Chunk(maxlen, len);
      var ws := Writes(maxlen, addr, pattern, off, len);
      assert ws[1..] == Writes(maxlen, addr, pattern, off + n, len - n);
      WritesInOrder(maxlen, addr, pattern, off + n, len - n);
      assert Bytes(pattern, off, n) + Bytes(pattern, off + n, len - n) == Bytes(pattern, off, len);
    }
  }

  /** The data of writes that follow each other without gap or overlap from `at` on. */
  function Joined(at: nat, ws: seq<Write>): Option<Octets>
    decreases |ws|
  {
    if ws == [] then Some([])
    else if ws[0].addr != at then None
    else
      match Joined(at + |ws[0].data|, ws[1..])
      case None => None
      case Some(rest) => Some(ws[0].data + rest)
  }

  // ---- The loop

  /** The header of the message: memset, strcpy and memcpy. */
  method PutHeader(buf: array<Octet>, addr: nat, chunk: nat)
    requires buf.Length >= HEADER
    modifies buf
    ensures buf[..HEADER] == Name() + Param(addr) + Param(chunk)
    ensures buf[HEADER..] == Zeros(buf.Length - HEADER)
  {
    hide Param, Name;
    Copy(buf, 0, Zeros(buf.Length));
    Copy(buf, 0, Name());
    Copy(buf, 9, Param(addr));
    Copy(buf, 13, Param(chunk));
  }

  /** The inner loop: `sptr` runs round the pattern. */
  method PutPattern(buf: array<Octet>, chunk: nat, pattern: Octets, sptr: nat, ghost off: nat) returns (sptr': nat)
    requires HEADER + chunk <= buf.Length
    requires sptr == Place(pattern, off)
    modifies buf
    ensures sptr' == Place(pattern, off + chunk)
    ensures buf[..HEADER + chunk] == old(buf[..HEADER]) + Bytes(pattern, off, chunk)
  {
    hide Bytes;
    sptr' := sptr;
    assert Bytes(pattern, off, 0) == [];
    var k := 0;
    while k < chunk
      invariant 0 <= k <= chunk
      invariant sptr' == Place(pattern, off + k)
      invariant buf[..HEADER + k] == old(buf[..HEADER]) + Bytes(pattern, off, k)
    {
      buf[HEADER + k] := if pattern == [] then 0 else pattern[sptr'];
      if pattern != [] {
        Wrap(off + k, |pattern|);
      }
      sptr' := sptr' + 1;
      if sptr' >= |pattern| {
        sptr' := 0;
      }
      OneMore(pattern, off, k);
      k := k + 1;
    }
  }

  lemma OneMore(pattern: Octets, off: nat, k: nat)
    ensures Bytes(pattern, off, k + 1) == Bytes(pattern, off, k) + [PatternByte(pattern, off + k)]
  {
    hide PatternByte;
  }

  /** How many writes go out: up to and with the first that the driver refuses. */
  function Sent(ws: seq<Write>, results: nat -> int, k: nat): (n: nat)
    ensures n <= |ws| && (n == 0 <==> ws == [])
    ensures forall j | k <= j < k + n - 1 :: results(j) >= 0
    ensures n < |ws| ==> results(k + n - 1) < 0
    decreases |ws|
  {
    if ws == [] then 0
    else if results(k) < 0 then 1
    else 1 + Sent(ws[1..], results, k + 1)
  }

  /** The writes sent one by one, with `results(k)` for what the k-th `dhd_set` returns. */
  function Run(ws: seq<Write>, results: nat -> int, k: nat, ret: int): (seq<Octets>, int)
    decreases |ws|
  {
    if ws == [] then ([], ret)
    else if results(k) < 0 then ([Message(ws[0])], results(k))
    else
      var (sent, last) := Run(ws[1..], results, k + 1, results(k));
      ([Message(ws[0])] + sent, last)
  }

  /** The messages of the writes in order, up to and with the first refused; the result is the last one. */
  lemma {:induction false} RunSends(ws: seq<Write>, results: nat -> int, k: nat, ret: int)
    ensures var (sent, last) := Run(ws, results, k, ret);
            var n := Sent(ws, results, k);
            sent == Messages(ws)[..n] && last == if n == 0 then ret else results(k + n - 1)
    decreases |ws|
  {
    hide Message;
    if ws != [] {
      RunSends(ws[1..], results, k + 1, results(k));
      var n := Sent(ws, results, k);
      assert Messages(ws)[..n] == [Message(ws[0])] + Messages(ws[1..])[..n - 1];
    }
  }

  function Messages(ws: seq<Write>): (ms: seq<Octets>)
    ensures |ms| == |ws| && forall i | 0 <= i < |ws| :: ms[i] == Message(ws[i])
  {
    seq(|ws|, i requires 0 <= i < |ws| => Message(ws[i]))
  }

  /**
    The write loop of `dhd_membytes`.  If there is nothing to write, the result is -1.
   */
  method MembytesWrite(maxlen: MaxLen, addr: nat, len: nat, pattern: Octets, results: nat -> int)
    returns (ret: int, sent: seq<Octets>)
    ensures (sent, ret) == Run(Writes(maxlen, addr, pattern, 0, len), results, 0, -1)
  {
    var buf := new Octet[maxlen];
    var sptr, at, left := 0, addr, len;
    ret, sent := -1, [];
    ghost var off := 0;
    Beginning(maxlen, addr, pattern, len, results);
    hide *;
    while left > 0
      invariant left >= 0 && at == addr + off
      invariant sptr == Place(pattern, off)
      invariant Whole(maxlen, addr, pattern, off, left, results, sent, ret)
                == Whole(maxlen, addr, pattern, 0, len, results, [], -1)
    {
      var chunk, message;
      chunk, sptr, message := NextMessage(maxlen, buf, addr, at, left, pattern, sptr, off, results, sent, ret);
      ret := results(|sent|);
      sent := sent + [message];
      at, left, off := at + chunk, left - chunk, off + chunk;
      if ret < 0 {
        return;
      }
    }
    RunNothing(maxlen, addr, pattern, off, results, sent, ret);
  }

  /** One turn of its loop, up to the ioctl. */
  method NextMessage(maxlen: MaxLen, buf: array<Octet>, ghost addr: nat, at: nat, left: nat, pattern: Octets, sptr: nat,
                     ghost off: nat, ghost results: nat -> int, ghost sent: seq<Octets>, ghost ret: int)
    returns (chunk: nat, sptr': nat, message: Octets)
    requires left > 0 && at == addr + off && sptr == Place(pattern, off) && buf.Length == maxlen
    modifies buf
    ensures 0 < chunk <= left && sptr' == Place(pattern, off + chunk)
    ensures var (more, r) := (sent + [message], results(|sent|));
            Whole(maxlen, addr, pattern, off, left, results, sent, ret)
            == if r < 0 then (more, r) else Whole(maxlen, addr, pattern, off + chunk, left - chunk, results, more, r)
  {
    hide *;
    RunStep(maxlen, addr, pattern, off, left, results, sent, ret);
    chunk := Chunk(maxlen, left);
    sptr', message := BuildMessage(buf, at, chunk, pattern, sptr, off);
  }

  /** What has been sent, and what a run from offset `off` still sends. */
  function Whole(maxlen: MaxLen, addr: nat, pattern: Octets, off: nat, len: nat, results: nat -> int,
                 sent: seq<Octets>, ret: int): (seq<Octets>, int) {
    var run := Run(Writes(maxlen, addr, pattern, off, len), results, |sent|, ret);
    (sent + run.0, run.1)
  }

  lemma Beginning(maxlen: MaxLen, addr: nat, pattern: Octets, len: nat, results: nat -> int)
    ensures Whole(maxlen, addr, pattern, 0, len, results, [], -1)
            == Run(Writes(maxlen, addr, pattern, 0, len), results, 0, -1)
    ensures Place(pattern, 0) == 0
  {
    var run := Run(Writes(maxlen, addr, pattern, 0, len), results, 0, -1);
    assert [] + run.0 == run.0;
  }

  lemma RunNothing(maxlen: MaxLen, addr: nat, pattern: Octets, off: nat, results: nat -> int, sent: seq<Octets>,
                   ret: int)
    ensures Whole(maxlen, addr, pattern, off, 0, results, sent, ret) == (sent, ret)
  {
    assert sent + [] == sent;
  }

  /** One write taken off the front of a run. */
  lemma RunStep(maxlen: MaxLen, addr: nat, pattern: Octets, off: nat, len: nat, results: nat -> int,
                sent: seq<Octets>, ret: int)
    requires len > 0
    ensures var n := Chunk(maxlen, len);
            var more := sent + [Message(Write(addr + off, Bytes(pattern, off, n)))];
            Whole(maxlen, addr, pattern, off, len, results, sent, ret) ==
            if results(|sent|) < 0 then (more, results(|sent|))
            else Whole(maxlen, addr, pattern, off + n, len - n, results, more, results(|sent|))
  {
    hide Message, Bytes, Chunk;
    var n := Chunk(maxlen, len);
    var ws := Writes(maxlen, addr, pattern, off, len);
    assert ws[1..] == Writes(maxlen, addr, pattern, off + n, len - n);
    var m := Message(ws[0]);
    var later := Run(ws[1..], results, |sent| + 1, results(|sent|)).0;
    assert sent + ([m] + later) == sent + [m] + later;
  }

  /** One message in the buffer. */
  method BuildMessage(buf: array<Octet>, addr: nat, chunk: nat, pattern: Octets, sptr: nat, ghost off: nat)
    returns (sptr': nat, message: Octets)
    requires HEADER + chunk <= buf.Length
    requires sptr == Place(pattern, off)
    modifies buf
    ensures sptr' == Place(pattern, off + chunk)
    ensures message == Message(Write(addr, Bytes(pattern, off, chunk)))
  {
    hide Bytes, Param, Name, Place;
    PutHeader(buf, addr, chunk);
    sptr' := PutPattern(buf, chunk, pattern, sptr, off);
    message := buf[..HEADER + chunk];
  }

  // ---- Hexadecimal patterns

  /** The value of an ASCII hexadecimal digit. */
  function Digit(c: Octet): (v: Option<nat>)
    ensures v.Some? ==> v.value < 16
  {
    var n := Num(c);
    if 48 <= n <= 57 then Some(n - 48)
    else if 97 <= n <= 102 then Some(n - 97 + 10)
    else if 65 <= n <= 70 then Some(n - 65 + 10)
    else None
  }

  /** Two digits. */
  function Pair(hi: Octet, lo: Octet): Option<Octet> {
    if Digit(hi).None? || Digit(lo).None? then None else Some(Byte(16 * Digit(hi).value + Digit(lo).value))
  }

  /** The bytes that pairs of digits stand for, up to the first pair that is none. */
  function Decoded(s: Octets): (r: Octets)
    ensures 2 * |r| <= |s|
    decreases |s|
  {
    if |s| < 2 || Pair(s[0], s[1]).None? then [] else [Pair(s[0], s[1]).value] + Decoded(s[2..])
  }

  /** Whether the whole of it is pairs of digits. */
  predicate IsHex(s: Octets)
    decreases |s|
  {
    s == [] || (|s| >= 2 && Pair(s[0], s[1]).Some? && IsHex(s[2..]))
  }

  /** A lower-case digit. */
  function HexDigit(v: nat): Octet
    requires v < 16
  {
    if v < 10 then Byte(48 + v) else Byte(97 + v - 10)
  }

  function Encoded(s: Octets): (r: Octets)
    ensures |r| == 2 * |s|
  {
    if s == [] then [] else [HexDigit(Num(s[0]) / 16), HexDigit(Num(s[0]) % 16)] + Encoded(s[1..])
  }

  lemma DigitRoundTrip(v: nat)
    requires v < 16
    ensures Digit(HexDigit(v)) == Some(v)
  {
    if v < 10 {
      NumByte(48 + v);
    } else {
      NumByte(97 + v - 10);
    }
    hide Num, Byte;
  }

  /** The digits in either case. */
  lemma DigitCharacters(c: Octet, v: nat)
    requires v < 16
    ensures Digit(c) == Some(v)
            <==> Num(c) == "0123456789abcdef"[v] as nat || Num(c) == "0123456789ABCDEF"[v] as nat
  {
    hide Num;
    assert v == 0 || v == 1 || v == 2 || v == 3 || v == 4 || v == 5 || v == 6 || v == 7
           || v == 8 || v == 9 || v == 10 || v == 11 || v == 12 || v == 13 || v == 14 || v == 15;
  }

  lemma PairRoundTrip(b: Octet)
    ensures Pair(HexDigit(Num(b) / 16), HexDigit(Num(b) % 16)) == Some(b)
  {
    DigitRoundTrip(Num(b) / 16);
    DigitRoundTrip(Num(b) % 16);
    ByteNum(b);
    hide Digit, HexDigit, Num, Byte;
    assert 16 * (Num(b) / 16) + Num(b) % 16 == Num(b);
  }

  lemma PairInFront(x: Octet, y: Octet, rest: Octets, b: Octet)
    requires Pair(x, y) == Some(b)
    ensures Decoded([x, y] + rest) == [b] + Decoded(rest) && IsHex([x, y] + rest) == IsHex(rest)
  {
    assert ([x, y] + rest)[2..] == rest;
    hide Pair;
  }

  /** Writing bytes in hexadecimal and decoding them gives the bytes. */
  lemma {:induction false} HexRoundTrip(s: Octets)
    ensures IsHex(Encoded(s)) && Decoded(Encoded(s)) == s
  {
    if s != [] {
      PairRoundTrip(s[0]);
      HexRoundTrip(s[1..]);
      hide Pair, HexDigit, Num, IsHex, Decoded;
      PairInFront(HexDigit(Num(s[0]) / 16), HexDigit(Num(s[0]) % 16), Encoded(s[1..]), s[0]);
      assert s == [s[0]] + s[1..];
    }
  }

  /** After `n` pairs of `was`: the buffer holds the bytes decoded, and the digits still to be read. */
  ghost predicate Progress(was: Octets, now: Octets, n: nat) {
    && 2 * n <= |was| == |now| && now[2 * n..] == was[2 * n..]
    && now[..n] + Decoded(was[2 * n..]) == Decoded(was)
    && IsHex(was[2 * n..]) == IsHex(was)
  }

  lemma Undecoded(was: Octets)
    ensures Progress(was, was, 0)
  {
    hide Decoded, IsHex;
    assert was[0..] == was && was[..0] == [] && [] + Decoded(was) == Decoded(was);
  }

  /** Two digits read, one byte written; it does not reach the digits still to be read. */
  lemma PairDecoded(was: Octets, now: Octets, n: nat)
    requires Progress(was, now, n) && 2 * n < |was| && |was| % 2 == 0
    ensures 2 * n + 2 <= |was|
    ensures var p := Pair(now[2 * n], now[2 * n + 1]);
            if p.None? then !IsHex(was) else Progress(was, now[n := p.value], n + 1)
  {
    hide Pair, Decoded, IsHex;
    DecodeStep(was, 2 * n);
    StillUnread(was, now, n);
    var p := Pair(now[2 * n], now[2 * n + 1]);
    if p.Some? {
      WrittenBehind(now, n, p.value, Decoded(was[2 * n + 2..]));
      Unread(was, now, n, p.value);
      assert 2 * (n + 1) == 2 * n + 2;
    }
  }

  lemma StillUnread(was: Octets, now: Octets, n: nat)
    requires 2 * n + 2 <= |was| == |now| && now[2 * n..] == was[2 * n..]
    ensures now[2 * n] == was[2 * n] && now[2 * n + 1] == was[2 * n + 1]
  {
    assert now[2 * n..][0] == was[2 * n..][0] && now[2 * n..][1] == was[2 * n..][1];
  }

  lemma Unread(was: Octets, now: Octets, n: nat, b: Octet)
    requires 2 * n + 2 <= |was| == |now| && now[2 * n..] == was[2 * n..]
    ensures now[n := b][2 * n + 2..] == was[2 * n + 2..]
  {
    assert now[n := b][2 * n + 2..] == now[2 * n..][2..];
  }

  lemma WrittenBehind(now: Octets, n: nat, b: Octet, rest: Octets)
    requires n < |now|
    ensures now[n := b][..n + 1] + rest == now[..n] + ([b] + rest)
  {
  }

  lemma AllDecoded(was: Octets, now: Octets, n: nat)
    requires Progress(was, now, n) && 2 * n == |was|
    ensures IsHex(was) && now[..n] == Decoded(was)
  {
    assert was[2 * n..] == [];
    assert now[..n] + [] == now[..n];
  }

  /** The decoding loop, in place: the written part never passes the part still to be read. */
  method DecodeInPlace(arg: array<Octet>) returns (ok: bool, patlen: nat)
    requires arg.Length % 2 == 0
    modifies arg
    ensures ok <==> IsHex(old(arg[..]))
    ensures ok ==> patlen <= arg.Length && arg[..patlen] == Decoded(old(arg[..]))
  {
    ghost var was := arg[..];
    Undecoded(was);
    hide *;
    var inptr := 0;
    patlen := 0;
    while inptr < arg.Length
      invariant inptr == 2 * patlen <= arg.Length && |was| == arg.Length && Progress(was, arg[..], patlen)
    {
      PairDecoded(was, arg[..], patlen);
      var b := Pair(arg[inptr], arg[inptr + 1]);
      if b.None? {
        return false, patlen;
      }
      ghost var now := arg[..];
      arg[patlen] := b.value;
      assert arg[..] == now[patlen := b.value];
      inptr, patlen := inptr + 2, patlen + 1;
    }
    AllDecoded(was, arg[..], patlen);
    ok := true;
  }

  lemma DecodeStep(was: Octets, i: nat)
    requires i + 2 <= |was|
    ensures var p := Pair(was[i], was[i + 1]);
            IsHex(was[i..]) == (p.Some? && IsHex(was[i + 2..]))
            && (p.Some? ==> Decoded(was[i..]) == [p.value] + Decoded(was[i + 2..]))
  {
    hide Pair;
    assert was[i..][2..] == was[i + 2..];
  }
}
