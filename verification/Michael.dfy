/**
  The Michael message integrity code of tkip.c (section 8.3.2.3 of IEEE Std 802.11-2007).
  The block function is four half rounds; each can be undone, so the block function is a
  bijection on the two state words, and two messages that differ within one 32-bit block
  never share a code.
 */
module Michael {
  import opened Octets

  // Named operations, so that proofs may treat them as symbols.

  function Plus(a: bv32, b: bv32): bv32 { a + b }

  function Minus(a: bv32, b: bv32): bv32 { a - b }

  function Toggle(a: bv32, b: bv32): bv32 { a ^ b }

  /** `rotl(val, bits)` and `rotr(val, bits)`, for the widths in use */
  function Rotl17(x: bv32): bv32 { (x << 17) | (x >> 15) }

  function Rotl3(x: bv32): bv32 { (x << 3) | (x >> 29) }

  function Rotr2(x: bv32): bv32 { (x >> 2) | (x << 30) }

  function Xswap(x: bv32): bv32 { ((x & 0x00ff00ff) << 8) | ((x & 0xff00ff00) >> 8) }

  datatype State = State(l: bv32, r: bv32)

  /** `r ^= turned; l += r` */
  function Half(s: State, turned: bv32): State {
    var r := Toggle(s.r, turned);
    State(Plus(s.l, r), r)
  }

  /** `michael_block` */
  function Block(s: State): State {
    var a := Half(s, Rotl17(s.l));
    var b := Half(a, Xswap(a.l));
    var c := Half(b, Rotl3(b.l));
    Half(c, Rotr2(c.l))
  }

  /** The left word before a half round. */
  function LeftBefore(s: State): bv32 { Minus(s.l, s.r) }

  /** A half round undone, given what its `turned` was. */
  function Unhalf(s: State, turned: bv32): State {
    State(LeftBefore(s), Toggle(s.r, turned))
  }

  function Unblock(s: State): State {
    var c := Unhalf(s, Rotr2(LeftBefore(s)));
    var b := Unhalf(c, Rotl3(LeftBefore(c)));
    var a := Unhalf(b, Xswap(LeftBefore(b)));
    Unhalf(a, Rotl17(LeftBefore(a)))
  }

  lemma DifferencePlus(x: bv32, v: bv32)
    ensures Plus(x - v, v) == x
  {
  }

  lemma SumMinus(x: bv32, v: bv32)
    ensures Minus(x + v, v) == x
  {
  }

  lemma MinusPlus(x: bv32, v: bv32)
    ensures Plus(Minus(x, v), v) == x
  {
    hide Plus;
    DifferencePlus(x, v);
  }

  lemma PlusMinus(x: bv32, v: bv32)
    ensures Minus(Plus(x, v), v) == x
  {
    hide Minus;
    SumMinus(x, v);
  }

  lemma XorTwice32(x: bv32, v: bv32)
    ensures (x ^ v) ^ v == x
  {
  }

  lemma ToggleTwice(x: bv32, v: bv32)
    ensures Toggle(Toggle(x, v), v) == x
  {
    XorTwice32(x, v);
  }

  lemma HalfUndone(s: State, turned: bv32)
    ensures LeftBefore(Half(s, turned)) == s.l && Unhalf(Half(s, turned), turned) == s
  {
    hide Plus, Minus, Toggle;
    PlusMinus(s.l, Toggle(s.r, turned));
    ToggleTwice(s.r, turned);
  }

  lemma HalfRedone(s: State, turned: bv32)
    ensures Half(Unhalf(s, turned), turned) == s && Unhalf(s, turned).l == LeftBefore(s)
  {
    hide Plus, Minus, Toggle;
    MinusPlus(s.l, s.r);
    ToggleTwice(s.r, turned);
  }

  /** `michael_block` is a bijection on (l, r): `Unblock` is its inverse on both sides. */
  lemma BlockBijective(s: State)
    ensures Unblock(Block(s)) == s && Block(Unblock(s)) == s
  {
    hide Rotl17, Rotl3, Rotr2, Xswap, Half, Unhalf, LeftBefore;
    UnblockBlock(s);
    BlockUnblock(s);
  }

  lemma UnblockBlock(s: State)
    ensures Unblock(Block(s)) == s
  {
    hide Rotl17, Rotl3, Rotr2, Xswap, Half, Unhalf, LeftBefore;
    var a := Half(s, Rotl17(s.l));
    var b := Half(a, Xswap(a.l));
    var c := Half(b, Rotl3(b.l));
    HalfUndone(s, Rotl17(s.l));
    HalfUndone(a, Xswap(a.l));
    HalfUndone(b, Rotl3(b.l));
    HalfUndone(c, Rotr2(c.l));
  }

  lemma BlockUnblock(s: State)
    ensures Block(Unblock(s)) == s
  {
    hide Rotl17, Rotl3, Rotr2, Xswap, Half, Unhalf, LeftBefore;
    var c := Unhalf(s, Rotr2(LeftBefore(s)));
    var b := Unhalf(c, Rotl3(LeftBefore(c)));
    var a := Unhalf(b, Xswap(LeftBefore(b)));
    HalfRedone(s, Rotr2(LeftBefore(s)));
    HalfRedone(c, Rotl3(LeftBefore(c)));
    HalfRedone(b, Xswap(LeftBefore(b)));
    HalfRedone(a, Rotl17(LeftBefore(a)));
  }

  /** Values of the block function. */
  lemma BlockValues()
    ensures Block(State(0, 1)) == State(0xc00015a8, 0xc0000b95)
    ensures Block(State(1, 0)) == State(0x6b519593, 0x572b8b8a)
    ensures Block(State(0x01234567, 0x83659326)) == State(0x441492c2, 0x1d8427ed)
  {
  }

  /** One 32-bit block taken in. */
  function Absorb(s: State, word: bv32): State {
    Block(State(Toggle(s.l, word), s.r))
  }

  function AbsorbAll(s: State, words: seq<bv32>): State
    decreases |words|
  {
    if words == [] then s else AbsorbAll(Absorb(s, words[0]), words[1..])
  }

  /** The little-endian 32-bit words of a byte string. */
  function Words(s: Octets): (w: seq<bv32>)
    requires |s| % 4 == 0
    ensures |w| == |s| / 4 && forall i | 0 <= i < |w| :: w[i] == GetLe32(s, 4 * i)
  {
    seq(|s| / 4, i requires 0 <= i < |s| / 4 => GetLe32(s, 4 * i))
  }

  /** The message padded with 0x5a and 4 to 7 zero octets, to a multiple of four. */
  function Padded(data: Octets): (p: Octets)
    ensures |p| % 4 == 0 && data <= p && |data| + 5 <= |p| <= |data| + 8
  {
    data + [0x5a] + Zeros(7 - |data| % 4)
  }

  type MicKey = k: Octets | |k| == 8 witness Zeros(8)
  type MicHeader = h: Octets | |h| == 16 witness Zeros(16)

  function KeyState(key: MicKey): State { State(GetLe32(key, 0), GetLe32(key, 4)) }

  /** The Michael code of `data` behind the pseudo header `hdr`. */
  function Mic(key: MicKey, hdr: MicHeader, data: Octets): (mic: Octets)
    ensures |mic| == 8
  {
    var s := AbsorbAll(AbsorbAll(KeyState(key), Words(hdr)), Words(Padded(data)));
    Le32(s.l) + Le32(s.r)
  }

  // ---- The code as the states it goes through

  /** One block taken in: the word goes into the left half. */
  ghost predicate BlockStep(s: State, word: bv32, t: State) {
    t == Block(State(s.l ^ word, s.r))
  }

  lemma AbsorbSteps(s: State, word: bv32)
    ensures BlockStep(s, word, Absorb(s, word))
  {
    hide Block;
  }

  /** The states over the words of `stream`. */
  ghost predicate Absorbs(states: seq<State>, stream: Octets) {
    4 * |states| == |stream| + 4
    && forall k | 0 <= k < |states| - 1 :: BlockStep(states[k], GetLe32(stream, 4 * k), states[k + 1])
  }

  /** The code of the pseudo header, the message, and its padding of 0x5a and four to seven zero octets. */
  ghost predicate IsMic(key: MicKey, hdr: MicHeader, data: Octets, mic: Octets) {
    exists states: seq<State>, zeros: nat ::
      && 4 <= zeros <= 7 && Absorbs(states, hdr + data + [0x5a] + Zeros(zeros))
      && states[0] == State(GetLe32(key, 0), GetLe32(key, 4))
      && mic == Le32(states[|states| - 1].l) + Le32(states[|states| - 1].r)
  }

  lemma {:induction false} AbsorbStates(s: State, words: seq<bv32>) returns (states: seq<State>)
    ensures |states| == |words| + 1 && states[0] == s && states[|words|] == AbsorbAll(s, words)
    ensures forall k | 0 <= k < |words| :: BlockStep(states[k], words[k], states[k + 1])
    decreases |words|
  {
    states := [s];
    if words != [] {
      AbsorbSteps(s, words[0]);
      hide Absorb, BlockStep;
      var rest := AbsorbStates(Absorb(s, words[0]), words[1..]);
      states := states + rest;
      forall k | 0 <= k < |words| ensures BlockStep(states[k], words[k], states[k + 1]) {
        if k > 0 {
          assert BlockStep(rest[k - 1], words[1..][k - 1], rest[k - 1 + 1]);
        }
      }
    }
  }

  lemma {:induction false} AbsorbAppend(s: State, a: seq<bv32>, b: seq<bv32>)
    ensures AbsorbAll(s, a + b) == AbsorbAll(AbsorbAll(s, a), b)
    decreases |a|
  {
    hide Absorb;
    if a == [] {
      assert a + b == b;
    } else {
      assert (a + b)[0] == a[0] && (a + b)[1..] == a[1..] + b;
      AbsorbAppend(Absorb(s, a[0]), a[1..], b);
    }
  }

  lemma WordAt(a: Octets, b: Octets, at: nat)
    requires at + 4 <= |b|
    ensures GetLe32(a + b, |a| + at) == GetLe32(b, at)
  {
  }

  lemma WordBefore(a: Octets, b: Octets, at: nat)
    requires at + 4 <= |a|
    ensures GetLe32(a + b, at) == GetLe32(a, at)
  {
  }

  lemma WordsAppend(a: Octets, b: Octets)
    requires |a| % 4 == 0 && |b| % 4 == 0
    ensures Words(a + b) == Words(a) + Words(b)
  {
    hide GetLe32;
    forall k | 0 <= k < |Words(a + b)| ensures Words(a + b)[k] == (Words(a) + Words(b))[k] {
      if 4 * k < |a| {
        WordBefore(a, b, 4 * k);
      } else {
        WordAt(a, b, 4 * k - |a|);
      }
    }
  }

  lemma StatesAbsorb(states: seq<State>, words: seq<bv32>, stream: Octets)
    requires |stream| % 4 == 0 && words == Words(stream) && |states| == |words| + 1
    requires forall k | 0 <= k < |words| :: BlockStep(states[k], words[k], states[k + 1])
    ensures Absorbs(states, stream)
  {
    hide BlockStep, GetLe32;
  }

  /** All that is absorbed, as one byte string. */
  function Stream(hdr: MicHeader, data: Octets): (s: Octets)
    ensures |s| % 4 == 0
  {
    hdr + Padded(data)
  }

  lemma StreamIs(hdr: MicHeader, data: Octets)
    ensures Stream(hdr, data) == hdr + data + [0x5a] + Zeros(7 - |data| % 4)
  {
  }

  lemma StreamAbsorbed(key: MicKey, hdr: MicHeader, data: Octets)
    ensures var s := AbsorbAll(KeyState(key), Words(Stream(hdr, data))); Mic(key, hdr, data) == Le32(s.l) + Le32(s.r)
  {
    WordsAppend(hdr, Padded(data));
    hide Padded, AbsorbAll, Le32, Words;
    AbsorbAppend(KeyState(key), Words(hdr), Words(Padded(data)));
  }

  /** Michael goes through those states, for every key, pseudo header and message. */
  lemma MicStates(key: MicKey, hdr: MicHeader, data: Octets)
    ensures IsMic(key, hdr, data, Mic(key, hdr, data))
  {
    var stream := Stream(hdr, data);
    StreamIs(hdr, data);
    StreamAbsorbed(key, hdr, data);
    hide GetLe32, BlockStep, Stream, AbsorbAll, Le32, Absorbs, Words, Mic;
    var states := AbsorbStates(KeyState(key), Words(stream));
    StatesAbsorb(states, Words(stream), stream);
    var zeros: nat := 7 - |data| % 4;
    assert Absorbs(states, hdr + data + [0x5a] + Zeros(zeros));
  }

  // ---- Messages that differ in one block

  lemma ToggleInjective(s: State, t: State, w: bv32, v: bv32)
    requires (s != t && w == v) || (s == t && w != v)
    ensures State(Toggle(s.l, w), s.r) != State(Toggle(t.l, v), t.r)
  {
    hide Toggle;
    ToggleTwice(s.l, w);
    ToggleTwice(t.l, v);
    if s == t {
      ToggleCancel(s.l, w, v);
    }
  }

  lemma ToggleCancel(x: bv32, w: bv32, v: bv32)
    requires w != v
    ensures Toggle(x, w) != Toggle(x, v)
  {
  }

  /** Different states stay different on equal blocks; one state parts on different blocks. */
  lemma AbsorbInjective(s: State, t: State, w: bv32, v: bv32)
    requires (s != t && w == v) || (s == t && w != v)
    ensures Absorb(s, w) != Absorb(t, v)
  {
    hide Block, Unblock, Toggle;
    ToggleInjective(s, t, w, v);
    BlockBijective(State(Toggle(s.l, w), s.r));
    BlockBijective(State(Toggle(t.l, v), t.r));
  }

  lemma {:induction false} StatesStayApart(s: State, t: State, words: seq<bv32>)
    requires s != t
    ensures AbsorbAll(s, words) != AbsorbAll(t, words)
    decreases |words|
  {
    if words != [] {
      hide Absorb;
      AbsorbInjective(s, t, words[0], words[0]);
      StatesStayApart(Absorb(s, words[0]), Absorb(t, words[0]), words[1..]);
    }
  }

  lemma {:induction false} OneBlockApart(s: State, a: seq<bv32>, b: seq<bv32>, k: nat)
    requires k < |a| == |b| && a[k] != b[k] && a[..k] == b[..k] && a[k + 1..] == b[k + 1..]
    ensures AbsorbAll(s, a) != AbsorbAll(s, b)
    decreases |a|
  {
    hide Absorb;
    if k == 0 {
      AbsorbInjective(s, s, a[0], b[0]);
      StatesStayApart(Absorb(s, a[0]), Absorb(s, b[0]), a[1..]);
    } else {
      assert a[0] == a[..k][0] == b[..k][0] == b[0];
      assert a[1..][..k - 1] == a[..k][1..] && b[1..][..k - 1] == b[..k][1..];
      assert a[1..][k..] == a[k + 1..] && b[1..][k..] == b[k + 1..];
      OneBlockApart(Absorb(s, a[0]), a[1..], b[1..], k - 1);
    }
  }

  /** `m` and `n` are equally long and differ, but only within the 32-bit block `k`. */
  ghost predicate DifferInBlock(m: Octets, n: Octets, k: nat) {
    |m| == |n| && m != n && forall i | 0 <= i < |m| && i / 4 != k :: m[i] == n[i]
  }

  lemma PaddedApart(m: Octets, n: Octets, k: nat)
    requires DifferInBlock(m, n, k)
    ensures DifferInBlock(Padded(m), Padded(n), k) && 4 * k < |m|
  {
    assert Padded(m)[..|m|] == m && Padded(n)[..|n|] == n;
  }

  lemma WordsApart(m: Octets, n: Octets, k: nat)
    requires |m| % 4 == 0 && 4 * k < |m| && DifferInBlock(m, n, k)
    ensures Words(m)[k] != Words(n)[k] && Words(m)[..k] == Words(n)[..k] && Words(m)[k + 1..] == Words(n)[k + 1..]
  {
    hide Le32, GetLe32;
    forall j | 0 <= j < |m| / 4 && j != k ensures Words(m)[j] == Words(n)[j] {
      SameWord(m, n, 4 * j);
    }
    if Words(m)[k] == Words(n)[k] {
      SameBlock(m, n, k);
    }
  }

  lemma SameBlock(m: Octets, n: Octets, k: nat)
    requires 4 * k + 4 <= |m| == |n| && forall i | 0 <= i < |m| && i / 4 != k :: m[i] == n[i]
    requires GetLe32(m, 4 * k) == GetLe32(n, 4 * k)
    ensures m == n
  {
    PutGetLe32(m, 4 * k);
    PutGetLe32(n, 4 * k);
    hide Le32, GetLe32;
    forall i | 0 <= i < |m| ensures m[i] == n[i] {
      if i / 4 == k {
        assert m[i] == m[4 * k..4 * k + 4][i - 4 * k];
        assert n[i] == n[4 * k..4 * k + 4][i - 4 * k];
      }
    }
  }

  lemma SameWord(m: Octets, n: Octets, at: nat)
    requires at + 4 <= |m| == |n| && m[at] == n[at] && m[at + 1] == n[at + 1]
    requires m[at + 2] == n[at + 2] && m[at + 3] == n[at + 3]
    ensures GetLe32(m, at) == GetLe32(n, at)
  {
  }

  lemma Le32Pair(s: State, t: State)
    requires Le32(s.l) + Le32(s.r) == Le32(t.l) + Le32(t.r)
    ensures s == t
  {
    var a, b, c, d := Le32(s.l), Le32(s.r), Le32(t.l), Le32(t.r);
    assert |a| == |b| == |c| == |d| == 4;
    assert a == (a + b)[..4] == (c + d)[..4] == c && b == (a + b)[4..] == (c + d)[4..] == d;
    GetPutLe32(s.l);
    GetPutLe32(s.r);
    GetPutLe32(t.l);
    GetPutLe32(t.r);
    hide GetLe32, Le32;
  }

  /**
    With equal key and pseudo header, two messages of equal length that differ within exactly
    one 32-bit block, the padded last one included, never have the same code.
   */
  lemma OneBlockDetected(key: MicKey, hdr: MicHeader, m: Octets, n: Octets, k: nat)
    requires DifferInBlock(m, n, k)
    ensures Mic(key, hdr, m) != Mic(key, hdr, n)
  {
    hide Padded, Le32, KeyState;
    PaddedApart(m, n, k);
    WordsApart(Padded(m), Padded(n), k);
    hide Words, DifferInBlock, AbsorbAll;
    var s := AbsorbAll(KeyState(key), Words(hdr));
    OneBlockApart(s, Words(Padded(m)), Words(Padded(n)), k);
    if Mic(key, hdr, m) == Mic(key, hdr, n) {
      Le32Pair(AbsorbAll(s, Words(Padded(m))), AbsorbAll(s, Words(Padded(n))));
    }
  }

  // ---- The loop

  lemma WordsStep(s: Octets)
    requires |s| % 4 == 0 && |s| > 0
    ensures Words(s) == [GetLe32(s, 0)] + Words(s[4..])
  {
    forall i | 1 <= i < |s| / 4 ensures Words(s)[i] == Words(s[4..])[i - 1] {
      SameWord4(s, 4 * i);
    }
  }

  lemma SameWord4(s: Octets, at: nat)
    requires 4 <= at && at + 4 <= |s|
    ensures GetLe32(s, at) == GetLe32(s[4..], at - 4)
  {
  }

  lemma AbsorbWord(s: State, m: Octets)
    requires |m| % 4 == 0 && |m| > 0
    ensures AbsorbAll(s, Words(m)) == AbsorbAll(Absorb(s, GetLe32(m, 0)), Words(m[4..]))
  {
    WordsStep(m);
    hide Words, GetLe32, Absorb;
    var w := [GetLe32(m, 0)] + Words(m[4..]);
    assert w[1..] == Words(m[4..]);
  }

  lemma PaddedBehind(a: Octets, b: Octets)
    requires |a| == 4
    ensures Padded(a + b) == a + Padded(b)
  {
    assert |a + b| % 4 == |b| % 4;
  }

  /** The padding of what is left behind the first `at` octets, a multiple of four. */
  lemma PaddedRest(data: Octets, at: nat)
    requires at % 4 == 0 && at + 4 <= |data|
    ensures Padded(data[at..])[4..] == Padded(data[at + 4..])
    ensures GetLe32(Padded(data[at..]), 0) == GetLe32(data, at)
  {
    var p := Padded(data[at..]);
    PaddedBehind(data[at..at + 4], data[at + 4..]);
    assert data[at..] == data[at..at + 4] + data[at + 4..];
    hide Padded;
    assert p[0] == data[at] && p[1] == data[at + 1] && p[2] == data[at + 2] && p[3] == data[at + 3];
    SameWordAt(p, data, at);
  }

  lemma SameWordAt(p: Octets, data: Octets, at: nat)
    requires |p| >= 4 && at + 4 <= |data|
    requires p[0] == data[at] && p[1] == data[at + 1] && p[2] == data[at + 2] && p[3] == data[at + 3]
    ensures GetLe32(p, 0) == GetLe32(data, at)
  {
  }

  /** The last block, with its padding. */
  method LastWord(data: Octets, at: nat) returns (w: bv32)
    requires at % 4 == 0 && at <= |data| < at + 4
    ensures w == GetLe32(Padded(data[at..]), 0)
  {
    var last := |data| % 4;
    ghost var p := Padded(data[at..]);
    if last == 0 {
      w := 0x5a;
      LastWords(0, 0, 0);
      SameWordAt(p, [0x5a, 0, 0, 0], 0);
    } else if last == 1 {
      w := data[at] as bv32 | 0x5a00;
      LastWords(data[at], 0, 0);
      SameWordAt(p, [data[at], 0x5a, 0, 0], 0);
    } else if last == 2 {
      w := data[at] as bv32 | (data[at + 1] as bv32 << 8) | 0x5a0000;
      LastWords(data[at], data[at + 1], 0);
      SameWordAt(p, [data[at], data[at + 1], 0x5a, 0], 0);
    } else {
      w := data[at] as bv32 | (data[at + 1] as bv32 << 8) | (data[at + 2] as bv32 << 16) | 0x5a000000;
      LastWords(data[at], data[at + 1], data[at + 2]);
      SameWordAt(p, [data[at], data[at + 1], data[at + 2], 0x5a], 0);
    }
  }

  lemma LastWords(a: bv8, b: bv8, c: bv8)
    ensures GetLe32([0x5a, 0, 0, 0], 0) == 0x5a
    ensures GetLe32([a, 0x5a, 0, 0], 0) == a as bv32 | 0x5a00
    ensures GetLe32([a, b, 0x5a, 0], 0) == a as bv32 | (b as bv32 << 8) | 0x5a0000
    ensures GetLe32([a, b, c, 0x5a], 0) == a as bv32 | (b as bv32 << 8) | (c as bv32 << 16) | 0x5a000000
  {
  }

  /** The macro `michael_block` on the two variables, after `l ^= word`. */
  method TakeIn(s: State, word: bv32) returns (t: State)
    ensures t == Absorb(s, word)
  {
    hide Rotl17, Rotl3, Rotr2, Xswap, Plus, Toggle;
    var l, r := s.l, s.r;
    l := Toggle(l, word);
    r := Toggle(r, Rotl17(l));
    l := Plus(l, r);
    r := Toggle(r, Xswap(l));
    l := Plus(l, r);
    r := Toggle(r, Rotl3(l));
    l := Plus(l, r);
    r := Toggle(r, Rotr2(l));
    l := Plus(l, r);
    t := State(l, r);
  }

  /** The four blocks of the pseudo header. */
  method TakeInHeader(key: MicKey, hdr: MicHeader) returns (s: State)
    ensures s == AbsorbAll(KeyState(key), Words(hdr))
  {
    hide Absorb, GetLe32;
    s := KeyState(key);
    HeaderWords(s, hdr);
    s := TakeIn(s, GetLe32(hdr, 0));
    s := TakeIn(s, GetLe32(hdr, 4));
    s := TakeIn(s, GetLe32(hdr, 8));
    s := TakeIn(s, GetLe32(hdr, 12));
  }

  lemma HeaderWords(s: State, hdr: MicHeader)
    ensures AbsorbAll(s, Words(hdr)) ==
            Absorb(Absorb(Absorb(Absorb(s, GetLe32(hdr, 0)), GetLe32(hdr, 4)), GetLe32(hdr, 8)), GetLe32(hdr, 12))
  {
    hide Absorb, GetLe32;
    var w := Words(hdr);
    assert |w| == 4 && w[0] == GetLe32(hdr, 0) && w[1] == GetLe32(hdr, 4 * 1);
    assert w[2] == GetLe32(hdr, 4 * 2) && w[3] == GetLe32(hdr, 4 * 3);
    AbsorbFour(s, w);
  }

  lemma AbsorbFour(s: State, w: seq<bv32>)
    requires |w| == 4
    ensures AbsorbAll(s, w) == Absorb(Absorb(Absorb(Absorb(s, w[0]), w[1]), w[2]), w[3])
  {
    hide Absorb;
    assert w[1..][1..] == w[2..] && w[2..][1..] == w[3..] && w[3..][1..] == [];
    assert AbsorbAll(s, w) == AbsorbAll(Absorb(s, w[0]), w[1..]);
    assert AbsorbAll(Absorb(s, w[0]), w[1..]) == AbsorbAll(Absorb(Absorb(s, w[0]), w[1]), w[2..]);
    var t := Absorb(Absorb(s, w[0]), w[1]);
    assert AbsorbAll(t, w[2..]) == AbsorbAll(Absorb(t, w[2]), w[3..]);
    assert AbsorbAll(Absorb(t, w[2]), w[3..]) == AbsorbAll(Absorb(Absorb(t, w[2]), w[3]), []);
  }

  /** The final all-zero block. */
  lemma LastZeros(s: State, data: Octets)
    requires |data| < 4
    ensures AbsorbAll(s, Words(Padded(data))) == Absorb(Absorb(s, GetLe32(Padded(data), 0)), 0)
  {
    var p := Padded(data);
    assert |p| == 8 && p[4..] == [0, 0, 0, 0];
    AbsorbWord(s, p);
    ZeroWord();
    hide Absorb, GetLe32, Padded;
    var t := Absorb(s, GetLe32(p, 0));
    AbsorbWord(t, p[4..]);
    assert p[4..][4..] == [] && Words([]) == [];
  }

  lemma ZeroWord()
    ensures GetLe32([0, 0, 0, 0], 0) == 0
  {
  }

  /** `michael_mic` */
  method MichaelMic(key: MicKey, hdr: MicHeader, data: Octets) returns (mic: Octets)
    ensures mic == Mic(key, hdr, data) && IsMic(key, hdr, data, mic)
  {
    MicStates(key, hdr, data);
    hide IsMic;
    var s := TakeInHeader(key, hdr);
    hide Absorb, GetLe32, Le32, Words, Padded, KeyState;
    ghost var start := s;
    var blocks := |data| / 4;
    var i := 0;
    assert data[4 * i..] == data;
    while i < blocks
      invariant 0 <= i <= blocks
      invariant AbsorbAll(s, Words(Padded(data[4 * i..]))) == AbsorbAll(start, Words(Padded(data)))
    {
      PaddedRest(data, 4 * i);
      AbsorbWord(s, Padded(data[4 * i..]));
      s := TakeIn(s, GetLe32(data, 4 * i));
      i := i + 1;
    }
    LastZeros(s, data[4 * i..]);
    var w := LastWord(data, 4 * i);
    s := TakeIn(s, w);
    s := TakeIn(s, 0);
    mic := Le32(s.l) + Le32(s.r);
  }
}
