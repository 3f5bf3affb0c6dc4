/**
  The TKIP per-packet key mixing of tkip.c (section 8.3.2.5 of IEEE Std 802.11-2007).  Both
  phases are chains of "add to this word a function of the word before it"; `Ripple` is such
  a chain, and every chain can be undone.  The S-box is an arbitrary function.
 */
module TkipMixing {
  import opened Octets

  /** `_S_` */
  type SubBox = bv16 -> bv16

  function RotR1(x: bv16): bv16 { (x >> 1) | (x << 15) }

  function Lo8(x: bv16): bv8 { (x & 0xff) as bv8 }

  function Hi8(x: bv16): bv8 { (x >> 8) as bv8 }

  function Mk16(hi: bv8, lo: bv8): bv16 { lo as bv16 | (hi as bv16 << 8) }

  /** What is added to a word: S(prev XOR key) + plus, or RotR1(prev XOR key). */
  datatype Tap = Sub(key: bv16, plus: bv16) | Rot(key: bv16)

  function Tweak(word: bv16, key: bv16): bv16 { word ^ key }

  function Value(S: SubBox, tap: Tap, prev: bv16): bv16 {
    match tap
    case Sub(key, plus) => Plus(S(Tweak(prev, key)), plus)
    case Rot(key) => RotR1(Tweak(prev, key))
  }

  function Prev(i: nat, n: nat): nat
    requires i < n
    ensures Prev(i, n) < n && (n > 1 ==> Prev(i, n) != i)
  {
    if i == 0 then n - 1 else i - 1
  }

  function Next(i: nat, n: nat): nat
    requires i < n
    ensures Next(i, n) < n
  {
    if i + 1 == n then 0 else i + 1
  }

  /** The word `k` places further round. */
  function After(i: nat, k: nat, n: nat): nat
    requires i < n
    ensures After(i, k, n) < n
    decreases k
  {
    if k == 0 then i else After(Next(i, n), k - 1, n)
  }

  /** A 16-bit sum under a name, so that proofs may treat it as a symbol. */
  function Plus(x: bv16, v: bv16): bv16 { x + v }

  lemma SumInjective(x: bv16, y: bv16, v: bv16)
    requires x + v == y + v
    ensures x == y
  {
  }

  lemma PlusInjective(x: bv16, y: bv16, v: bv16)
    requires Plus(x, v) == Plus(y, v)
    ensures x == y
  {
    SumInjective(x, y, v);
  }

  /** Word `i` plus a function of the word before it. */
  function Add(S: SubBox, tap: Tap, p: seq<bv16>, i: nat): (q: seq<bv16>)
    requires i < |p|
    ensures |q| == |p|
  {
    p[i := Plus(p[i], Value(S, tap, p[Prev(i, |p|)]))]
  }

  /** The chain of `taps` round the words of `p`, from word `i` on. */
  function Ripple(S: SubBox, taps: seq<Tap>, p: seq<bv16>, i: nat): (r: seq<bv16>)
    requires i < |p|
    ensures |r| == |p|
    decreases |taps|
  {
    if taps == [] then p else Ripple(S, taps[1..], Add(S, taps[0], p, i), Next(i, |p|))
  }

  lemma AddInjective(S: SubBox, tap: Tap, p: seq<bv16>, q: seq<bv16>, i: nat)
    requires i < |p| == |q| && |p| > 1
    requires Add(S, tap, p, i) == Add(S, tap, q, i)
    ensures p == q
  {
    hide Value, Plus;
    var a, b := Add(S, tap, p, i), Add(S, tap, q, i);
    forall k | 0 <= k < |p| && k != i ensures p[k] == q[k] {
      assert a[k] == p[k] && b[k] == q[k];
    }
    var v := Value(S, tap, p[Prev(i, |p|)]);
    assert a[i] == Plus(p[i], v) && b[i] == Plus(q[i], v);
    PlusInjective(p[i], q[i], v);
  }

  /** Every chain is injective, whatever the S-box and the taps. */
  lemma {:induction false} RippleInjective(S: SubBox, taps: seq<Tap>, p: seq<bv16>, q: seq<bv16>, i: nat)
    requires i < |p| == |q| && |p| > 1
    requires Ripple(S, taps, p, i) == Ripple(S, taps, q, i)
    ensures p == q
    decreases |taps|
  {
    if taps != [] {
      hide Add;
      RippleInjective(S, taps[1..], Add(S, taps[0], p, i), Add(S, taps[0], q, i), Next(i, |p|));
      AddInjective(S, taps[0], p, q, i);
    }
  }

  lemma DifferencePlus(x: bv16, v: bv16)
    ensures Plus(x - v, v) == x
  {
  }

  function Minus(x: bv16, v: bv16): bv16 { x - v }

  lemma MinusPlus(x: bv16, v: bv16)
    ensures Plus(Minus(x, v), v) == x
  {
    hide Plus;
    DifferencePlus(x, v);
  }

  /** The words that the chain takes to `q`. */
  function Unripple(S: SubBox, taps: seq<Tap>, q: seq<bv16>, i: nat): (p: seq<bv16>)
    requires i < |q|
    ensures |p| == |q|
    decreases |taps|
  {
    if taps == [] then q else
      var u := Unripple(S, taps[1..], q, Next(i, |q|));
      u[i := Minus(u[i], Value(S, taps[0], u[Prev(i, |q|)]))]
  }

  /** Every chain reaches every value: with `RippleInjective`, it is a bijection on the words. */
  lemma {:induction false} RippleUnripple(S: SubBox, taps: seq<Tap>, q: seq<bv16>, i: nat)
    requires i < |q| && |q| > 1
    ensures Ripple(S, taps, Unripple(S, taps, q, i), i) == q
    decreases |taps|
  {
    if taps != [] {
      var u := Unripple(S, taps[1..], q, Next(i, |q|));
      var p := Unripple(S, taps, q, i);
      hide Value, Plus, Minus;
      var v := Value(S, taps[0], u[Prev(i, |q|)]);
      MinusPlus(u[i], v);
      assert p == u[i := Minus(u[i], v)];
      assert Add(S, taps[0], p, i) == u;
      RippleUnripple(S, taps[1..], q, Next(i, |q|));
    }
  }

  lemma {:induction false} RippleAppend(S: SubBox, a: seq<Tap>, b: seq<Tap>, p: seq<bv16>, i: nat)
    requires i < |p|
    ensures Ripple(S, a + b, p, i) == Ripple(S, b, Ripple(S, a, p, i), After(i, |a|, |p|))
    decreases |a|
  {
    if a == [] {
      assert a + b == b;
    } else {
      hide Add;
      assert (a + b)[1..] == a[1..] + b && (a + b)[0] == a[0];
      RippleAppend(S, a[1..], b, Add(S, a[0], p, i), Next(i, |p|));
    }
  }

  // ---- Phase 1

  type Address = a: Octets | |a| == 6 witness Zeros(6)
  type TemporalKey = k: Octets | |k| == 16 witness Zeros(16)

  /** The 80-bit start value: IV32 and the transmitter address. */
  function Ttak0(iv32: bv32, ta: Address): (t: seq<bv16>)
    ensures |t| == 5
  {
    [(iv32 & 0xffff) as bv16, (iv32 >> 16) as bv16, Mk16(ta[1], ta[0]), Mk16(ta[3], ta[2]), Mk16(ta[5], ta[4])]
  }

  /** The key word at offset `at`. */
  function KeyWord(tk: TemporalKey, at: nat): bv16
    requires at < 15
  {
    Mk16(tk[at + 1], tk[at])
  }

  /** One of the eight rounds: round `i` uses the key words at offset 0 or 2. */
  function RoundTaps(tk: TemporalKey, i: nat): (taps: seq<Tap>)
    requires i < 8
    ensures |taps| == 5
  {
    var j := 2 * (i % 2);
    [Sub(KeyWord(tk, j), 0), Sub(KeyWord(tk, 4 + j), 0), Sub(KeyWord(tk, 8 + j), 0),
     Sub(KeyWord(tk, 12 + j), 0), Sub(KeyWord(tk, j), i as bv16)]
  }

  /** Rounds `i` to 7. */
  function Phase1Taps(tk: TemporalKey, i: nat): seq<Tap>
    requires i <= 8
    decreases 8 - i
  {
    if i == 8 then [] else RoundTaps(tk, i) + Phase1Taps(tk, i + 1)
  }

  function Phase1(S: SubBox, tk: TemporalKey, ta: Address, iv32: bv32): (t: seq<bv16>)
    ensures |t| == 5
  {
    Ripple(S, Phase1Taps(tk, 0), Ttak0(iv32, ta), 0)
  }

  lemma Ttak0Injective(iv1: bv32, ta1: Address, iv2: bv32, ta2: Address)
    requires Ttak0(iv1, ta1) == Ttak0(iv2, ta2)
    ensures iv1 == iv2 && ta1 == ta2
  {
    var t, u := Ttak0(iv1, ta1), Ttak0(iv2, ta2);
    assert t[0] == u[0] && t[1] == u[1] && t[2] == u[2] && t[3] == u[3] && t[4] == u[4];
    hide Mk16;
    Halves(iv1, iv2);
    Mk16Injective(ta1[1], ta1[0], ta2[1], ta2[0]);
    Mk16Injective(ta1[3], ta1[2], ta2[3], ta2[2]);
    Mk16Injective(ta1[5], ta1[4], ta2[5], ta2[4]);
  }

  lemma Halves(x: bv32, y: bv32)
    requires (x & 0xffff) as bv16 == (y & 0xffff) as bv16 && (x >> 16) as bv16 == (y >> 16) as bv16
    ensures x == y
  {
  }

  lemma Mk16Injective(a: bv8, b: bv8, c: bv8, d: bv8)
    requires Mk16(a, b) == Mk16(c, d)
    ensures a == c && b == d
  {
  }

  /** Under one key, distinct (IV32, TA) pairs give distinct TTAKs. */
  lemma Phase1Injective(S: SubBox, tk: TemporalKey, ta1: Address, iv1: bv32, ta2: Address, iv2: bv32)
    requires Phase1(S, tk, ta1, iv1) == Phase1(S, tk, ta2, iv2)
    ensures ta1 == ta2 && iv1 == iv2
  {
    hide Ttak0, Phase1Taps;
    RippleInjective(S, Phase1Taps(tk, 0), Ttak0(iv1, ta1), Ttak0(iv2, ta2), 0);
    Ttak0Injective(iv1, ta1, iv2, ta2);
  }

  // ---- Phase 2

  /** Step 2 of phase 2: "96-bit bijective mixing using S-box". */
  function Phase2Taps(tk: TemporalKey): (taps: seq<Tap>)
    ensures |taps| == 12
  {
    [Sub(KeyWord(tk, 0), 0), Sub(KeyWord(tk, 2), 0), Sub(KeyWord(tk, 4), 0),
     Sub(KeyWord(tk, 6), 0), Sub(KeyWord(tk, 8), 0), Sub(KeyWord(tk, 10), 0),
     Rot(KeyWord(tk, 12)), Rot(KeyWord(tk, 14)), Rot(0), Rot(0), Rot(0), Rot(0)]
  }

  /** Step 1 of phase 2: a copy of the TTAK, and its last word plus IV16. */
  function Ppk0(ttak: seq<bv16>, iv16: bv16): (p: seq<bv16>)
    requires |ttak| == 5
    ensures |p| == 6
  {
    ttak + [Plus(ttak[4], iv16)]
  }

  function Ppk(S: SubBox, tk: TemporalKey, ttak: seq<bv16>, iv16: bv16): (p: seq<bv16>)
    requires |ttak| == 5
    ensures |p| == 6
  {
    Ripple(S, Phase2Taps(tk), Ppk0(ttak, iv16), 0)
  }

  /** The first four bytes of the RC4 key: the WEP IV, and a byte from the last word and the key. */
  function WepIv(tk: TemporalKey, last: bv16, iv16: bv16): (s: Octets)
    ensures |s| == 4
  {
    [Hi8(iv16), (Hi8(iv16) | 0x20) & 0x7F, Lo8(iv16), Lo8(Tweak(last, KeyWord(tk, 0)) >> 1)]
  }

  /** Step 3 of phase 2: the RC4 key. */
  function WepSeed(tk: TemporalKey, ppk: seq<bv16>, iv16: bv16): (seed: Octets)
    requires |ppk| == 6
    ensures |seed| == 16
  {
    WepIv(tk, ppk[5], iv16)
    + Le16(ppk[0]) + Le16(ppk[1]) + Le16(ppk[2]) + Le16(ppk[3]) + Le16(ppk[4]) + Le16(ppk[5])
  }

  function Phase2(S: SubBox, tk: TemporalKey, ttak: seq<bv16>, iv16: bv16): (seed: Octets)
    requires |ttak| == 5
    ensures |seed| == 16
  {
    WepSeed(tk, Ppk(S, tk, ttak, iv16), iv16)
  }

  lemma Le16Injective(x: bv16, y: bv16)
    requires Le16(x) == Le16(y)
    ensures x == y
  {
    assert Le16(x)[0] == Le16(y)[0] && Le16(x)[1] == Le16(y)[1];
    Bytes16(x, y);
  }

  lemma Bytes16(x: bv16, y: bv16)
    requires (x & 0xff) as bv8 == (y & 0xff) as bv8 && (x >> 8) as bv8 == (y >> 8) as bv8
    ensures x == y
  {
  }

  /** The RC4 key determines the mixed words and IV16. */
  lemma WepSeedInjective(tk: TemporalKey, p: seq<bv16>, iv1: bv16, q: seq<bv16>, iv2: bv16)
    requires |p| == 6 && |q| == 6 && WepSeed(tk, p, iv1) == WepSeed(tk, q, iv2)
    ensures p == q && iv1 == iv2
  {
    var s, t := WepSeed(tk, p, iv1), WepSeed(tk, q, iv2);
    SeedFields(tk, p, iv1);
    SeedFields(tk, q, iv2);
    hide WepSeed;
    Bytes16(iv1, iv2);
    forall k | 0 <= k < 6 ensures p[k] == q[k] {
      hide Le16;
      Le16Injective(p[k], q[k]);
    }
  }

  lemma SeedFields(tk: TemporalKey, p: seq<bv16>, iv: bv16)
    requires |p| == 6
    ensures var s := WepSeed(tk, p, iv);
            s[0] == Hi8(iv) && s[2] == Lo8(iv)
            && s[4..6] == Le16(p[0]) && s[6..8] == Le16(p[1]) && s[8..10] == Le16(p[2])
            && s[10..12] == Le16(p[3]) && s[12..14] == Le16(p[4]) && s[14..16] == Le16(p[5])
  {
    hide Hi8, Lo8;
  }

  // ---- Both phases as recurrences on words

  /** The words of a ring in the order they are changed in, from word `i` on. */
  function Window(p: seq<bv16>, i: nat): (u: seq<bv16>)
    requires i < |p|
    ensures |u| == |p|
  {
    p[i..] + p[..i]
  }

  lemma WindowEnds(p: seq<bv16>, i: nat)
    requires i < |p| && |p| > 1
    ensures Window(p, i)[0] == p[i] && Window(p, i)[|p| - 1] == p[Prev(i, |p|)]
  {
  }

  lemma WindowMoves(p: seq<bv16>, i: nat, x: bv16)
    requires i < |p| && |p| > 1
    ensures Window(p[i := x], Next(i, |p|)) == Window(p, i)[1..] + [x]
  {
    var q := p[i := x];
    if i + 1 == |p| {
      assert q == p[..i] + [x];
    } else {
      assert q[i + 1..] == p[i + 1..] && q[..i + 1] == p[..i] + [x];
      assert Window(p, i)[1..] == p[i + 1..] + p[..i];
    }
  }

  /** Changing a word of the ring moves the window on by one. */
  lemma WindowStep(S: SubBox, tap: Tap, p: seq<bv16>, i: nat)
    requires i < |p| && |p| > 1
    ensures var u := Window(p, i);
            Window(Add(S, tap, p, i), Next(i, |p|)) == u[1..] + [Plus(u[0], Value(S, tap, u[|p| - 1]))]
  {
    WindowEnds(p, i);
    WindowMoves(p, i, Plus(p[i], Value(S, tap, p[Prev(i, |p|)])));
    hide Plus, Value, Window, Prev, Next;
  }

  /** Each word from `n` on is the word `n` places before it, plus its tap of the word before it. */
  ghost predicate Recurs(S: SubBox, taps: seq<Tap>, w: seq<bv16>, n: nat)
    requires n > 0
  {
    |w| == |taps| + n && forall k | 0 <= k < |taps| :: w[k + n] == Plus(w[k], Value(S, taps[k], w[k + n - 1]))
  }

  /** A chain is such a recurrence: its result is the last window. */
  lemma {:induction false} RippleRecurs(S: SubBox, taps: seq<Tap>, p: seq<bv16>, i: nat) returns (w: seq<bv16>)
    requires i < |p| && |p| > 1
    ensures Recurs(S, taps, w, |p|) && w[..|p|] == Window(p, i)
    ensures w[|taps|..] == Window(Ripple(S, taps, p, i), After(i, |taps|, |p|))
    decreases |taps|
  {
    if taps == [] {
      w := Window(p, i);
    } else {
      WindowStep(S, taps[0], p, i);
      hide Add, Window, Value, Plus;
      var rest := RippleRecurs(S, taps[1..], Add(S, taps[0], p, i), Next(i, |p|));
      w := [Window(p, i)[0]] + rest;
      Longer(S, taps, Window(p, i), rest);
    }
  }

  lemma Longer(S: SubBox, taps: seq<Tap>, u: seq<bv16>, rest: seq<bv16>)
    requires taps != [] && |u| > 1 && Recurs(S, taps[1..], rest, |u|)
    requires rest[..|u|] == u[1..] + [Plus(u[0], Value(S, taps[0], u[|u| - 1]))]
    ensures var w := [u[0]] + rest; Recurs(S, taps, w, |u|) && w[..|u|] == u && w[|taps|..] == rest[|taps| - 1..]
  {
    hide Plus, Value;
    var w, n := [u[0]] + rest, |u|;
    assert w[..n] == u by {
      assert rest[..n][..n - 1] == u[1..];
    }
    assert w[n] == rest[n - 1] == rest[..n][n - 1];
    assert w[n - 1] == u[n - 1] by {
      assert w[n - 1] == w[..n][n - 1];
    }
    forall k | 0 <= k < |taps| ensures w[k + n] == Plus(w[k], Value(S, taps[k], w[k + n - 1])) {
      if k > 0 {
        assert rest[k - 1 + n] == Plus(rest[k - 1], Value(S, taps[1..][k - 1], rest[k - 1 + n - 1]));
      }
    }
  }

  /** Two octets, the first one low. */
  function Pair(s: Octets, at: nat): bv16
    requires at + 1 < |s|
  {
    s[at] as bv16 | (s[at + 1] as bv16 << 8)
  }

  /** Sum, difference and rotation of words, as the recurrences use them. */
  lemma WordOperations(x: bv16, y: bv16)
    ensures Plus(x, y) == x + y && Tweak(x, y) == x ^ y
  {
  }

  lemma Rotation(x: bv16)
    ensures RotR1(x) == (x >> 1) | (if x & 1 != 0 then 0x8000 else 0)
  {
  }

  lemma Nothing(x: bv16)
    ensures Plus(x, 0) == x && Tweak(x, 0) == x
  {
  }

  lemma PairIs(tk: TemporalKey, at: nat)
    requires at < 15
    ensures KeyWord(tk, at) == Pair(tk, at)
  {
  }

  /** Word `k` of round `i` of phase 1, from the same word of the round before and the last word changed. */
  ghost predicate Phase1Step(S: SubBox, tk: TemporalKey, w: seq<bv16>, i: nat, k: nat)
    requires |w| == 45 && i < 8 && k < 5
  {
    var n := 5 * i + k;
    var key := Pair(tk, 4 * (k % 4) + 2 * (i % 2));
    var sub := S(Tweak(w[n + 4], key));
    w[n + 5] == Plus(w[n], if k == 4 then Plus(sub, i as bv16) else sub)
  }

  /** All words of phase 1, five by five: the start and eight rounds. */
  ghost predicate Phase1Words(S: SubBox, tk: TemporalKey, ta: Address, iv32: bv32, w: seq<bv16>) {
    && |w| == 45
    && w[0] == (iv32 & 0xffff) as bv16 && w[1] == (iv32 >> 16) as bv16
    && w[2] == Pair(ta, 0) && w[3] == Pair(ta, 2) && w[4] == Pair(ta, 4)
    && forall i: nat, k: nat | i < 8 && k < 5 :: Phase1Step(S, tk, w, i, k)
  }

  lemma {:induction false} TapsOfRound(tk: TemporalKey, from: nat, i: nat, k: nat)
    requires from <= i < 8 && k < 5
    ensures |Phase1Taps(tk, from)| == 5 * (8 - from)
    ensures Phase1Taps(tk, from)[5 * (i - from) + k] == RoundTaps(tk, i)[k]
    decreases i - from
  {
    hide RoundTaps;
    TapCount(tk, from + 1);
    if from < i {
      TapsOfRound(tk, from + 1, i, k);
      assert 5 * (i - from) + k == 5 + (5 * (i - (from + 1)) + k);
    }
  }

  lemma {:induction false} TapCount(tk: TemporalKey, from: nat)
    requires from <= 8
    ensures |Phase1Taps(tk, from)| == 5 * (8 - from)
    decreases 8 - from
  {
    hide RoundTaps;
    if from < 8 {
      TapCount(tk, from + 1);
    }
  }

  lemma TapOfRound(tk: TemporalKey, i: nat, k: nat)
    requires i < 8 && k < 5
    ensures RoundTaps(tk, i)[k] == Sub(Pair(tk, 4 * (k % 4) + 2 * (i % 2)), if k == 4 then i as bv16 else 0)
  {
    var j := 2 * (i % 2);
    PairIs(tk, j);
    PairIs(tk, 4 + j);
    PairIs(tk, 8 + j);
    PairIs(tk, 12 + j);
    hide KeyWord, Pair;
    assert k == 0 || k == 1 || k == 2 || k == 3 || k == 4;
  }

  lemma RoundStep(S: SubBox, tk: TemporalKey, w: seq<bv16>, i: nat, k: nat)
    requires |w| == 45 && i < 8 && k < 5
    requires var n := 5 * i + k; w[n + 5] == Plus(w[n], Value(S, RoundTaps(tk, i)[k], w[n + 4]))
    ensures Phase1Step(S, tk, w, i, k)
  {
    TapOfRound(tk, i, k);
    var key := Pair(tk, 4 * (k % 4) + 2 * (i % 2));
    Nothing(S(Tweak(w[5 * i + k + 4], key)));
    hide Plus, Tweak, RoundTaps, Pair;
  }

  lemma AfterRound()
    ensures After(0, 5, 5) == 0
  {
    assert After(0, 5, 5) == After(1, 4, 5) == After(2, 3, 5) == After(3, 2, 5) == After(4, 1, 5) == After(0, 0, 5);
  }

  lemma RingOfFive(k: nat)
    ensures After(0, 5 * k, 5) == 0
  {
    if k > 0 {
      AfterRound();
      AfterBoth(0, 5, 5 * (k - 1), 5);
      RingOfFive(k - 1);
    }
  }

  lemma {:induction false} AfterBoth(i: nat, j: nat, k: nat, n: nat)
    requires i < n
    ensures After(i, j + k, n) == After(After(i, j, n), k, n)
    decreases j
  {
    if j > 0 {
      AfterBoth(Next(i, n), j - 1, k, n);
    }
  }

  lemma WholeWindow(p: seq<bv16>)
    requires p != []
    ensures Window(p, 0) == p
  {
  }

  lemma StartWords(iv32: bv32, ta: Address, w: seq<bv16>)
    requires |w| == 45 && w[..5] == Ttak0(iv32, ta)
    ensures w[0] == (iv32 & 0xffff) as bv16 && w[1] == (iv32 >> 16) as bv16
    ensures w[2] == Pair(ta, 0) && w[3] == Pair(ta, 2) && w[4] == Pair(ta, 4)
  {
    assert w[0] == w[..5][0] && w[1] == w[..5][1] && w[2] == w[..5][2] && w[3] == w[..5][3] && w[4] == w[..5][4];
  }

  lemma RoundSteps(S: SubBox, tk: TemporalKey, w: seq<bv16>, i: nat, k: nat)
    requires Recurs(S, Phase1Taps(tk, 0), w, 5) && |w| == 45 && i < 8 && k < 5
    ensures Phase1Step(S, tk, w, i, k)
  {
    TapsOfRound(tk, 0, i, k);
    hide Phase1Taps, RoundTaps, Plus, Value, Phase1Step;
    assert w[5 * i + k + 5] == Plus(w[5 * i + k], Value(S, Phase1Taps(tk, 0)[5 * i + k], w[5 * i + k + 4]));
    RoundStep(S, tk, w, i, k);
  }

  lemma LengthOf(S: SubBox, taps: seq<Tap>, w: seq<bv16>, n: nat)
    requires n > 0 && Recurs(S, taps, w, n)
    ensures |w| == |taps| + n
  {
  }

  /** Phase 1 goes through those words; its result is the last five. */
  lemma Phase1Recurrence(S: SubBox, tk: TemporalKey, ta: Address, iv32: bv32)
    ensures exists w :: Phase1Words(S, tk, ta, iv32, w) && w[40..] == Phase1(S, tk, ta, iv32)
  {
    var taps, start := Phase1Taps(tk, 0), Ttak0(iv32, ta);
    TapCount(tk, 0);
    RingOfFive(8);
    WholeWindow(start);
    WholeWindow(Phase1(S, tk, ta, iv32));
    hide Ripple, After, Phase1Taps, Ttak0, Recurs, Window, Pair, Phase1Step;
    var w := RippleRecurs(S, taps, start, 0);
    LengthOf(S, taps, w, 5);
    StartWords(iv32, ta, w);
    forall i: nat, k: nat | i < 8 && k < 5 ensures Phase1Step(S, tk, w, i, k) {
      RoundSteps(S, tk, w, i, k);
    }
    assert Phase1Words(S, tk, ta, iv32, w);
  }

  /** Step `k` of phase 2: six with the S-box, two rotations with the key, and four without. */
  ghost predicate Phase2Step(S: SubBox, tk: TemporalKey, w: seq<bv16>, k: nat)
    requires |w| == 18 && k < 12
  {
    var before := w[k + 5];
    w[k + 6] == Plus(w[k], if k < 6 then S(Tweak(before, Pair(tk, 2 * k)))
                           else if k < 8 then RotR1(Tweak(before, Pair(tk, 2 * k)))
                           else RotR1(before))
  }

  /** All words of phase 2: the start and twelve steps. */
  ghost predicate Phase2Words(S: SubBox, tk: TemporalKey, ttak: seq<bv16>, iv16: bv16, w: seq<bv16>)
    requires |ttak| == 5
  {
    && |w| == 18 && w[..5] == ttak && w[5] == Plus(ttak[4], iv16)
    && forall k: nat | k < 12 :: Phase2Step(S, tk, w, k)
  }

  /** The octets of a word, low one first. */
  ghost predicate HoldsWord(s: Octets, at: nat, x: bv16) {
    at + 2 <= |s| && s[at] == (x & 0xff) as bv8 && s[at + 1] == (x >> 8) as bv8
  }

  /** The octets of the RC4 key, from IV16, the key and the last six words. */
  ghost predicate SeedOctets(tk: TemporalKey, iv16: bv16, w: seq<bv16>, seed: Octets)
    requires |w| == 18
  {
    && |seed| == 16 && SeedStarts(tk, iv16, w[17], seed)
    && HoldsWord(seed, 4, w[12]) && HoldsWord(seed, 6, w[13]) && HoldsWord(seed, 8, w[14])
    && HoldsWord(seed, 10, w[15]) && HoldsWord(seed, 12, w[16]) && HoldsWord(seed, 14, w[17])
  }

  ghost predicate SeedStarts(tk: TemporalKey, iv16: bv16, last: bv16, seed: Octets)
    requires |seed| == 16
  {
    && seed[0] == (iv16 >> 8) as bv8 && seed[1] == ((iv16 >> 8) as bv8 | 0x20) & 0x7f
    && seed[2] == (iv16 & 0xff) as bv8 && seed[3] == ((Tweak(last, Pair(tk, 0)) >> 1) & 0xff) as bv8
  }

  lemma TapOfPhase2(tk: TemporalKey, k: nat)
    requires k < 12
    ensures Phase2Taps(tk)[k] == if k < 6 then Sub(Pair(tk, 2 * k), 0) else Rot(if k < 8 then Pair(tk, 2 * k) else 0)
  {
    if k < 8 {
      PairIs(tk, 2 * k);
    }
    hide KeyWord, Pair;
    assert 2 * 0 == 0 && 2 * 1 == 2 && 2 * 2 == 4 && 2 * 3 == 6;
    assert 2 * 4 == 8 && 2 * 5 == 10 && 2 * 6 == 12 && 2 * 7 == 14;
  }

  lemma MixStep(S: SubBox, tk: TemporalKey, w: seq<bv16>, k: nat)
    requires |w| == 18 && k < 12 && w[k + 6] == Plus(w[k], Value(S, Phase2Taps(tk)[k], w[k + 5]))
    ensures Phase2Step(S, tk, w, k)
  {
    TapOfPhase2(tk, k);
    if k < 6 {
      Nothing(S(Tweak(w[k + 5], Pair(tk, 2 * k))));
    }
    Nothing(w[k + 5]);
    hide Plus, Tweak, RotR1, Phase2Taps, Pair;
  }

  lemma WordOctets(s: Octets, at: nat, x: bv16)
    requires at + 2 <= |s| && s[at..at + 2] == Le16(x)
    ensures HoldsWord(s, at, x)
  {
    assert s[at] == s[at..at + 2][0] && s[at + 1] == s[at..at + 2][1];
  }

  lemma SeedStart(tk: TemporalKey, p: seq<bv16>, iv16: bv16)
    requires |p| == 6
    ensures SeedStarts(tk, iv16, p[5], WepSeed(tk, p, iv16))
  {
    PairIs(tk, 0);
    hide Tweak, Pair, KeyWord, Le16;
  }

  lemma SeedIs(tk: TemporalKey, iv16: bv16, w: seq<bv16>)
    requires |w| == 18
    ensures SeedOctets(tk, iv16, w, WepSeed(tk, w[12..], iv16))
  {
    var p := w[12..];
    var seed := WepSeed(tk, p, iv16);
    SeedFields(tk, p, iv16);
    SeedStart(tk, p, iv16);
    hide SeedStarts, WepSeed, Le16, HoldsWord, Hi8, Lo8;
    WordOctets(seed, 4, p[0]);
    WordOctets(seed, 6, p[1]);
    WordOctets(seed, 8, p[2]);
    WordOctets(seed, 10, p[3]);
    WordOctets(seed, 12, p[4]);
    WordOctets(seed, 14, p[5]);
  }

  lemma AfterTwelve()
    ensures After(0, 12, 6) == 0
  {
    AfterBoth(0, 6, 6, 6);
    assert After(0, 6, 6) == After(1, 5, 6) == After(2, 4, 6) == After(3, 3, 6);
    assert After(3, 3, 6) == After(4, 2, 6) == After(5, 1, 6) == After(0, 0, 6);
  }

  /** Phase 2 goes through those words; its result is made of the last six. */
  lemma Phase2Recurrence(S: SubBox, tk: TemporalKey, ttak: seq<bv16>, iv16: bv16)
    requires |ttak| == 5
    ensures exists w :: Phase2Words(S, tk, ttak, iv16, w) && SeedOctets(tk, iv16, w, Phase2(S, tk, ttak, iv16))
  {
    var taps, start := Phase2Taps(tk), Ppk0(ttak, iv16);
    AfterTwelve();
    hide Ripple, After, Phase2Taps, Plus, Value, Pair, Phase2Step, WepSeed, SeedOctets;
    var w := RippleRecurs(S, taps, start, 0);
    assert Window(start, 0) == start && Window(Ripple(S, taps, start, 0), 0) == Ripple(S, taps, start, 0);
    forall k: nat | k < 12 ensures Phase2Step(S, tk, w, k) {
      MixStep(S, tk, w, k);
    }
    assert w[..5] == w[..6][..5] && w[5] == w[..6][5];
    assert Phase2Words(S, tk, ttak, iv16, w);
    SeedIs(tk, iv16, w);
  }

  /** The per-packet RC4 key for a transmitter and a sequence counter (IV32, IV16). */
  function PacketKey(S: SubBox, tk: TemporalKey, ta: Address, iv32: bv32, iv16: bv16): (seed: Octets)
    ensures |seed| == 16
  {
    Phase2(S, tk, Phase1(S, tk, ta, iv32), iv16)
  }

  /**
    Under one temporal key, no two distinct (transmitter, IV32, IV16) triples are ever given
    the same RC4 key, whatever the S-box.
   */
  lemma PacketKeysDistinct(S: SubBox, tk: TemporalKey, ta1: Address, iv1: bv32, lo1: bv16, ta2: Address, iv2: bv32,
                           lo2: bv16)
    requires PacketKey(S, tk, ta1, iv1, lo1) == PacketKey(S, tk, ta2, iv2, lo2)
    ensures ta1 == ta2 && iv1 == iv2 && lo1 == lo2
  {
    hide Phase1, WepSeed, Phase2Taps, Ripple;
    var t, u := Phase1(S, tk, ta1, iv1), Phase1(S, tk, ta2, iv2);
    WepSeedInjective(tk, Ppk(S, tk, t, lo1), lo1, Ppk(S, tk, u, lo2), lo2);
    RippleInjective(S, Phase2Taps(tk), Ppk0(t, lo1), Ppk0(u, lo2), 0);
    assert t == Ppk0(t, lo1)[..5] && u == Ppk0(u, lo2)[..5];
    Phase1Injective(S, tk, ta1, iv1, ta2, iv2);
  }

  // ---- The methods

  /** `p[i] += _S_(p[prev] ^ key) + plus` */
  method AddSub(S: SubBox, p: array<bv16>, i: nat, prev: nat, key: bv16, plus: bv16)
    requires i < p.Length && prev == Prev(i, p.Length)
    modifies p
    ensures p[..] == Add(S, Sub(key, plus), old(p[..]), i)
  {
    hide Plus, Tweak;
    p[i] := Plus(p[i], Plus(S(Tweak(p[prev], key)), plus));
  }

  /** `p[i] += RotR1(p[prev] ^ key)` */
  method AddRot(S: SubBox, p: array<bv16>, i: nat, prev: nat, key: bv16)
    requires i < p.Length && prev == Prev(i, p.Length)
    modifies p
    ensures p[..] == Add(S, Rot(key), old(p[..]), i)
  {
    hide Plus, Tweak, RotR1;
    p[i] := Plus(p[i], RotR1(Tweak(p[prev], key)));
  }

  /** One round of phase 1 on the array. */
  method Phase1Round(S: SubBox, ttak: array<bv16>, tk: TemporalKey, i: nat)
    requires ttak.Length == 5 && i < 8
    modifies ttak
    ensures ttak[..] == Ripple(S, RoundTaps(tk, i), old(ttak[..]), 0)
  {
    var j := 2 * (i % 2);
    RippleFive(S, RoundTaps(tk, i), ttak[..]);
    hide Add, Mk16;
    AddSub(S, ttak, 0, 4, Mk16(tk[1 + j], tk[0 + j]), 0);
    AddSub(S, ttak, 1, 0, Mk16(tk[5 + j], tk[4 + j]), 0);
    AddSub(S, ttak, 2, 1, Mk16(tk[9 + j], tk[8 + j]), 0);
    AddSub(S, ttak, 3, 2, Mk16(tk[13 + j], tk[12 + j]), 0);
    AddSub(S, ttak, 4, 3, Mk16(tk[1 + j], tk[0 + j]), i as bv16);
  }

  lemma RippleFive(S: SubBox, taps: seq<Tap>, p: seq<bv16>)
    requires |taps| == 5 && |p| == 5
    ensures Ripple(S, taps, p, 0) ==
            Add(S, taps[4], Add(S, taps[3], Add(S, taps[2], Add(S, taps[1], Add(S, taps[0], p, 0), 1), 2), 3), 4)
  {
    hide Add;
    var p1 := Add(S, taps[0], p, 0);
    var p2 := Add(S, taps[1], p1, 1);
    var p3 := Add(S, taps[2], p2, 2);
    var p4 := Add(S, taps[3], p3, 3);
    var p5 := Add(S, taps[4], p4, 4);
    assert taps[1..][1..] == taps[2..] && taps[2..][1..] == taps[3..];
    assert taps[3..][1..] == taps[4..] && taps[4..][1..] == [];
    assert taps[1..][0] == taps[1] && taps[2..][0] == taps[2] && taps[3..][0] == taps[3] && taps[4..][0] == taps[4];
    assert Ripple(S, taps, p, 0) == Ripple(S, taps[1..], p1, 1);
    assert Ripple(S, taps[1..], p1, 1) == Ripple(S, taps[2..], p2, 2);
    assert Ripple(S, taps[2..], p2, 2) == Ripple(S, taps[3..], p3, 3);
    assert Ripple(S, taps[3..], p3, 3) == Ripple(S, taps[4..], p4, 4);
    assert Ripple(S, taps[4..], p4, 4) == Ripple(S, [], p5, 0);
  }

  /** "Initialize the 80-bit TTAK" */
  method Phase1Start(ttak: array<bv16>, ta: Address, iv32: bv32)
    requires ttak.Length == 5
    modifies ttak
    ensures ttak[..] == Ttak0(iv32, ta)
  {
    hide Mk16;
    ttak[0] := (iv32 & 0xffff) as bv16;
    ttak[1] := (iv32 >> 16) as bv16;
    ttak[2] := Mk16(ta[1], ta[0]);
    ttak[3] := Mk16(ta[3], ta[2]);
    ttak[4] := Mk16(ta[5], ta[4]);
  }

  lemma OneRound(S: SubBox, tk: TemporalKey, i: nat, p: seq<bv16>)
    requires i < 8 && |p| == 5
    ensures Ripple(S, Phase1Taps(tk, i), p, 0) == Ripple(S, Phase1Taps(tk, i + 1), Ripple(S, RoundTaps(tk, i), p, 0), 0)
  {
    AfterRound();
    hide After, Ripple, RoundTaps;
    RippleAppend(S, RoundTaps(tk, i), Phase1Taps(tk, i + 1), p, 0);
  }

  /** `tkip_mixing_phase1` */
  method TkipMixingPhase1(S: SubBox, ttak: array<bv16>, tk: TemporalKey, ta: Address, iv32: bv32)
    requires ttak.Length == 5
    modifies ttak
    ensures ttak[..] == Phase1(S, tk, ta, iv32)
    ensures exists w :: Phase1Words(S, tk, ta, iv32, w) && w[40..] == ttak[..]
  {
    Phase1Recurrence(S, tk, ta, iv32);
    hide Phase1Words;
    Phase1Start(ttak, ta, iv32);
    hide RoundTaps, Ttak0;
    var i := 0;
    while i < 8
      invariant 0 <= i <= 8
      invariant Ripple(S, Phase1Taps(tk, i), ttak[..], 0) == Phase1(S, tk, ta, iv32)
    {
      OneRound(S, tk, i, ttak[..]);
      Phase1Round(S, ttak, tk, i);
      i := i + 1;
    }
  }

  /** Step 2 on the array. */
  method MixPpk(S: SubBox, ppk: array<bv16>, tk: TemporalKey)
    requires ppk.Length == 6
    modifies ppk
    ensures ppk[..] == Ripple(S, Phase2Taps(tk), old(ppk[..]), 0)
  {
    RippleTwelve(S, Phase2Taps(tk), ppk[..]);
    hide Add, Mk16;
    AddSub(S, ppk, 0, 5, Mk16(tk[1], tk[0]), 0);
    AddSub(S, ppk, 1, 0, Mk16(tk[3], tk[2]), 0);
    AddSub(S, ppk, 2, 1, Mk16(tk[5], tk[4]), 0);
    AddSub(S, ppk, 3, 2, Mk16(tk[7], tk[6]), 0);
    AddSub(S, ppk, 4, 3, Mk16(tk[9], tk[8]), 0);
    AddSub(S, ppk, 5, 4, Mk16(tk[11], tk[10]), 0);
    AddRot(S, ppk, 0, 5, Mk16(tk[13], tk[12]));
    AddRot(S, ppk, 1, 0, Mk16(tk[15], tk[14]));
    AddRot(S, ppk, 2, 1, 0);
    AddRot(S, ppk, 3, 2, 0);
    AddRot(S, ppk, 4, 3, 0);
    AddRot(S, ppk, 5, 4, 0);
  }

  lemma RippleSix(S: SubBox, taps: seq<Tap>, p: seq<bv16>)
    requires |taps| == 6 && |p| == 6
    ensures Ripple(S, taps, p, 0) ==
            Add(S, taps[5], Add(S, taps[4], Add(S, taps[3],
            Add(S, taps[2], Add(S, taps[1], Add(S, taps[0], p, 0), 1), 2), 3), 4), 5)
  {
    hide Add;
    var p1 := Add(S, taps[0], p, 0);
    var p2 := Add(S, taps[1], p1, 1);
    var p3 := Add(S, taps[2], p2, 2);
    var p4 := Add(S, taps[3], p3, 3);
    var p5 := Add(S, taps[4], p4, 4);
    var p6 := Add(S, taps[5], p5, 5);
    assert taps[1..][1..] == taps[2..] && taps[2..][1..] == taps[3..];
    assert taps[3..][1..] == taps[4..] && taps[4..][1..] == taps[5..] && taps[5..][1..] == [];
    assert taps[1..][0] == taps[1] && taps[2..][0] == taps[2] && taps[3..][0] == taps[3];
    assert taps[4..][0] == taps[4] && taps[5..][0] == taps[5];
    assert Ripple(S, taps, p, 0) == Ripple(S, taps[1..], p1, 1);
    assert Ripple(S, taps[1..], p1, 1) == Ripple(S, taps[2..], p2, 2);
    assert Ripple(S, taps[2..], p2, 2) == Ripple(S, taps[3..], p3, 3);
    assert Ripple(S, taps[3..], p3, 3) == Ripple(S, taps[4..], p4, 4);
    assert Ripple(S, taps[4..], p4, 4) == Ripple(S, taps[5..], p5, 5);
    assert Ripple(S, taps[5..], p5, 5) == Ripple(S, [], p6, 0);
  }

  lemma RippleTwelve(S: SubBox, taps: seq<Tap>, p: seq<bv16>)
    requires |taps| == 12 && |p| == 6
    ensures var h := Add(S, taps[5], Add(S, taps[4], Add(S, taps[3],
                     Add(S, taps[2], Add(S, taps[1], Add(S, taps[0], p, 0), 1), 2), 3), 4), 5);
            Ripple(S, taps, p, 0) ==
            Add(S, taps[11], Add(S, taps[10], Add(S, taps[9],
            Add(S, taps[8], Add(S, taps[7], Add(S, taps[6], h, 0), 1), 2), 3), 4), 5)
  {
    hide Add;
    assert taps == taps[..6] + taps[6..];
    assert After(0, 6, 6) == After(1, 5, 6) == After(2, 4, 6) == After(3, 3, 6);
    assert After(3, 3, 6) == After(4, 2, 6) == After(5, 1, 6) == After(0, 0, 6);
    RippleAppend(S, taps[..6], taps[6..], p, 0);
    RippleSix(S, taps[..6], p);
    RippleSix(S, taps[6..], Ripple(S, taps[..6], p, 0));
  }

  /** Step 3: the bytes of the seed. */
  method PutSeed(seed: array<Octet>, tk: TemporalKey, ppk: seq<bv16>, iv16: bv16)
    requires seed.Length == 16 && |ppk| == 6
    modifies seed
    ensures seed[..] == WepSeed(tk, ppk, iv16)
  {
    ghost var head := WepIv(tk, ppk[5], iv16);
    PutIv(seed, tk, ppk[5], iv16);
    PutWord(seed, head, 4, ppk[0]);
    head := head + Le16(ppk[0]);
    PutWord(seed, head, 6, ppk[1]);
    head := head + Le16(ppk[1]);
    PutWord(seed, head, 8, ppk[2]);
    head := head + Le16(ppk[2]);
    PutWord(seed, head, 10, ppk[3]);
    head := head + Le16(ppk[3]);
    PutWord(seed, head, 12, ppk[4]);
    head := head + Le16(ppk[4]);
    PutWord(seed, head, 14, ppk[5]);
    assert seed[..] == seed[..16];
  }

  method PutIv(seed: array<Octet>, tk: TemporalKey, last: bv16, iv16: bv16)
    requires seed.Length == 16
    modifies seed
    ensures seed[..4] == WepIv(tk, last, iv16)
  {
    hide Hi8, Lo8, KeyWord, Tweak;
    seed[0] := Hi8(iv16);
    seed[1] := (Hi8(iv16) | 0x20) & 0x7F;
    seed[2] := Lo8(iv16);
    seed[3] := Lo8(Tweak(last, KeyWord(tk, 0)) >> 1);
  }

  /** `WPA_PUT_LE16(&WEPSeed[at], word)`, after the bytes `head` */
  method PutWord(seed: array<Octet>, ghost head: Octets, at: nat, word: bv16)
    requires |head| == at && at + 2 <= seed.Length && seed[..at] == head
    modifies seed
    ensures seed[..at + 2] == head + Le16(word)
  {
    hide Le16;
    LengthLe16(word);
    Copy(seed, at, Le16(word));
  }

  lemma LengthLe16(x: bv16)
    ensures |Le16(x)| == 2
  {
  }

  /** "Step 1 - make copy of TTAK and bring in TSC" */
  method Phase2Start(ttak: seq<bv16>, iv16: bv16) returns (ppk: array<bv16>)
    requires |ttak| == 5
    ensures fresh(ppk) && ppk[..] == Ppk0(ttak, iv16)
  {
    hide Plus;
    ppk := new bv16[6];
    ppk[0], ppk[1], ppk[2], ppk[3], ppk[4] := ttak[0], ttak[1], ttak[2], ttak[3], ttak[4];
    ppk[5] := Plus(ttak[4], iv16);
  }

  /** `tkip_mixing_phase2` */
  method TkipMixingPhase2(S: SubBox, seed: array<Octet>, tk: TemporalKey, ttak: seq<bv16>, iv16: bv16)
    requires seed.Length == 16 && |ttak| == 5
    modifies seed
    ensures seed[..] == Phase2(S, tk, ttak, iv16)
    ensures exists w :: Phase2Words(S, tk, ttak, iv16, w) && SeedOctets(tk, iv16, w, seed[..])
  {
    Phase2Recurrence(S, tk, ttak, iv16);
    hide Phase2Words, SeedOctets, Ppk0, Phase2Taps, Ripple, WepSeed;
    var ppk := Phase2Start(ttak, iv16);
    MixPpk(S, ppk, tk);
    PutSeed(seed, tk, ppk[..], iv16);
  }
}
