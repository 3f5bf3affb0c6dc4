/**
  CCM (RFC 3610) with M = 8 and L = 2 over an arbitrary block function: the reference that
  the buffer loops of ccmp.c are compared with.
 */
module Ccm {
  import opened Options
  import opened Octets

  type Block = b: Octets | |b| == 16 witness Zeros(16)

  /** The block function under one key; nothing is assumed about it. */
  type Cipher = Block -> Block

  type Nonce = n: Octets | |n| == 13 witness Zeros(13)

  /** The first block of `s`, zero-padded when `s` is shorter. */
  function FirstBlock(s: Octets): Block {
    if |s| >= 16 then s[..16] else s + Zeros(16 - |s|)
  }

  function Rest(s: Octets): Octets {
    if |s| >= 16 then s[16..] else []
  }

  /** `s` cut into 16-byte blocks, the last one zero-padded (section 2.2 of RFC 3610). */
  function Blocks(s: Octets): seq<Block>
    decreases |s|
  {
    if s == [] then [] else [FirstBlock(s)] + Blocks(Rest(s))
  }

  /** X_{i+1} := E(K, X_i XOR B_i), from X_i = `x` over `bs` (section 2.2 of RFC 3610). */
  function CbcMac(aes: Cipher, x: Block, bs: seq<Block>): Block
    decreases |bs|
  {
    if bs == [] then x else CbcMac(aes, aes(Xor(x, bs[0])), bs[1..])
  }

  /** B_0: Adata, M' = 3, L' = 1, nonce, message length (section 2.2 of RFC 3610). */
  function B0(nonce: Nonce, len: nat): Block {
    [0x59] + nonce + Be16(len)
  }

  /** A_i: L' = 1, nonce, counter (section 2.3 of RFC 3610). */
  function A(nonce: Nonce, i: nat): Block {
    [0x01] + nonce + Be16(i)
  }

  /** The CBC-MAC over B_0, the length-prefixed additional data and the message. */
  function Mac(aes: Cipher, nonce: Nonce, aad: Octets, m: Octets): Block {
    CbcMac(aes, aes(B0(nonce, |m|)), Blocks(Be16(|aad|) + aad) + Blocks(m))
  }

  /** Byte `i` of S_1 | S_2 | ... */
  function KeyStream(aes: Cipher, nonce: Nonce, i: nat): Octet {
    aes(A(nonce, 1 + i / 16))[i % 16]
  }

  /** The message XORed with the key stream (section 2.3 of RFC 3610). */
  function Ctr(aes: Cipher, nonce: Nonce, m: Octets): (c: Octets)
    ensures |c| == |m|
  {
    seq(|m|, i requires 0 <= i < |m| => Flip(m[i], KeyStream(aes, nonce, i)))
  }

  /** U := T XOR first-8-bytes(S_0) */
  function AuthValue(aes: Cipher, nonce: Nonce, tag: Block): (u: Octets)
    ensures |u| == 8
  {
    Xor(tag[..8], aes(A(nonce, 0))[..8])
  }

  /** The encrypted and authenticated message (section 2.4 of RFC 3610). */
  function Seal(aes: Cipher, nonce: Nonce, aad: Octets, m: Octets): (c: Octets)
    ensures |c| == |m| + 8
  {
    Ctr(aes, nonce, m) + AuthValue(aes, nonce, Mac(aes, nonce, aad, m))
  }

  /** Decryption and authentication checking (section 2.5 of RFC 3610). */
  function Open(aes: Cipher, nonce: Nonce, aad: Octets, c: Octets): Option<Octets>
    requires |c| >= 8
  {
    var m := Ctr(aes, nonce, c[..|c| - 8]);
    if AuthValue(aes, nonce, Mac(aes, nonce, aad, m)) == c[|c| - 8..] then Some(m) else None
  }

  lemma CtrTwice(aes: Cipher, nonce: Nonce, m: Octets)
    ensures Ctr(aes, nonce, Ctr(aes, nonce, m)) == m
  {
    var c := Ctr(aes, nonce, m);
    forall i | 0 <= i < |m| ensures Ctr(aes, nonce, c)[i] == m[i] {
      var k := KeyStream(aes, nonce, i);
      FlipTwice(m[i], k);
    }
  }

  /** What is sealed opens, to exactly the message. */
  lemma OpenSeal(aes: Cipher, nonce: Nonce, aad: Octets, m: Octets)
    ensures Open(aes, nonce, aad, Seal(aes, nonce, aad, m)) == Some(m)
  {
    var c := Seal(aes, nonce, aad, m);
    assert c[..|c| - 8] == Ctr(aes, nonce, m);
    CtrTwice(aes, nonce, m);
  }

  /** Exactly the sealed form of a message opens to it: nothing else is accepted. */
  lemma OpensExactlySealed(aes: Cipher, nonce: Nonce, aad: Octets, c: Octets, m: Octets)
    requires |c| >= 8
    ensures Open(aes, nonce, aad, c) == Some(m) <==> c == Seal(aes, nonce, aad, m)
  {
    OpenSeal(aes, nonce, aad, m);
    CtrTwice(aes, nonce, c[..|c| - 8]);
    assert c == c[..|c| - 8] + c[|c| - 8..];
  }

  lemma {:induction false} CbcMacAppend(aes: Cipher, x: Block, bs: seq<Block>, cs: seq<Block>)
    ensures CbcMac(aes, x, bs + cs) == CbcMac(aes, CbcMac(aes, x, bs), cs)
    decreases |bs|
  {
    if bs == [] {
      assert bs + cs == cs;
    } else {
      assert (bs + cs)[0] == bs[0] && (bs + cs)[1..] == bs[1..] + cs;
      CbcMacAppend(aes, aes(Xor(x, bs[0])), bs[1..], cs);
    }
  }

  /** The 16-bit fields of B_0 and A_i hold their value exactly below 65536. */
  lemma Be16Exact(n: nat)
    ensures 256 * Num(Be16(n)[0]) + Num(Be16(n)[1]) == n <==> n < 65536
  {
    NumByte(n / 256 % 256);
    NumByte(n % 256);
    hide Num, Byte;
  }

  /** No counter block repeats, and none is B_0: the key stream and the MAC never share a block. */
  lemma BlocksDistinct(nonce: Nonce, i: nat, j: nat, len: nat)
    requires i < 65536 && j < 65536
    ensures A(nonce, i) == A(nonce, j) ==> i == j
    ensures A(nonce, i) != B0(nonce, len)
  {
    Be16Exact(i);
    Be16Exact(j);
    if A(nonce, i) == A(nonce, j) {
      assert A(nonce, i)[14..] == Be16(i) && A(nonce, j)[14..] == Be16(j);
    }
    assert A(nonce, i)[0] != B0(nonce, len)[0];
  }

  // ---- The sealed message octet by octet

  /** Zero octets behind a byte string, up to a multiple of 16. */
  function Filled(s: Octets): (p: Octets)
    ensures |p| % 16 == 0 && s <= p
  {
    s + Zeros((16 - |s| % 16) % 16)
  }

  lemma FilledBlock(s: Octets)
    requires s != []
    ensures Filled(s) == FirstBlock(s) + Filled(Rest(s))
  {
    if |s| >= 16 {
      assert s == s[..16] + s[16..] && (|s| - 16) % 16 == |s| % 16;
    }
  }

  lemma BehindBlock(b: Block, f: Octets, k: nat)
    requires k > 0 && 16 * k <= |f|
    ensures (b + f)[16 * k..16 * k + 16] == f[16 * (k - 1)..16 * (k - 1) + 16]
  {
  }

  lemma {:induction false} BlocksOfFilled(s: Octets)
    ensures 16 * |Blocks(s)| == |Filled(s)|
    ensures forall k | 0 <= k < |Blocks(s)| :: Blocks(s)[k] == Filled(s)[16 * k..16 * k + 16]
    decreases |s|
  {
    if s == [] {
      assert Filled([]) == [];
    } else {
      var r := Rest(s);
      FilledBlock(s);
      hide Filled, FirstBlock;
      BlocksOfFilled(r);
      forall k | 0 <= k < |Blocks(s)| ensures Blocks(s)[k] == Filled(s)[16 * k..16 * k + 16] {
        if k > 0 {
          assert Blocks(s)[k] == Blocks(r)[k - 1];
          BehindBlock(FirstBlock(s), Filled(r), k);
        }
      }
    }
  }

  /** One step of the MAC: the state XORed octet by octet with block `k` of `p`, and encrypted. */
  ghost predicate MacStep(aes: Cipher, x: Block, p: Octets, k: nat, next: Block)
    requires 16 * k + 16 <= |p|
  {
    exists b: Block :: next == aes(b) && forall i | 0 <= i < 16 :: b[i] == x[i] ^ p[16 * k + i]
  }

  /** The states of the MAC over the blocks of `p`. */
  ghost predicate MacStates(aes: Cipher, xs: seq<Block>, p: Octets) {
    16 * |xs| == |p| + 16 && forall k | 0 <= k < |xs| - 1 :: MacStep(aes, xs[k], p, k, xs[k + 1])
  }

  /** Octet `i` of the encrypted message. */
  ghost predicate Encrypts(aes: Cipher, nonce: Nonce, m: Octets, i: nat, c: Octet)
    requires i < |m|
  {
    c == m[i] ^ aes([0x01] + nonce + Be16(1 + i / 16))[i % 16]
  }

  /** The authentication value: the last state of the MAC, XORed with the counter block 0. */
  ghost predicate Authenticates(aes: Cipher, nonce: Nonce, aad: Octets, m: Octets, u: Octets) {
    exists xs :: MacStates(aes, xs, Filled(Be16(|aad|) + aad) + Filled(m))
                 && xs[0] == aes([0x59] + nonce + Be16(|m|)) && IsTag(aes, nonce, xs[|xs| - 1], u)
  }

  ghost predicate IsTag(aes: Cipher, nonce: Nonce, x: Block, u: Octets) {
    |u| == 8 && forall i | 0 <= i < 8 :: u[i] == x[i] ^ aes([0x01] + nonce + [0x00, 0x00])[i]
  }

  lemma XorSteps(aes: Cipher, x: Block, b: Block, p: Octets, k: nat)
    requires 16 * k + 16 <= |p| && p[16 * k..16 * k + 16] == b
    ensures MacStep(aes, x, p, k, aes(Xor(x, b)))
  {
    var y: Block := Xor(x, b);
    forall i | 0 <= i < 16 ensures y[i] == x[i] ^ p[16 * k + i] {
      assert p[16 * k + i] == p[16 * k..16 * k + 16][i];
    }
  }

  /** Blocks `from` on of `p` are `bs`. */
  ghost predicate CutAt(p: Octets, from: nat, bs: seq<Block>) {
    |p| == 16 * (from + |bs|) && forall k | 0 <= k < |bs| :: p[16 * (from + k)..16 * (from + k) + 16] == bs[k]
  }

  lemma {:induction false} CbcMacStates(aes: Cipher, x: Block, bs: seq<Block>, p: Octets, from: nat)
    returns (xs: seq<Block>)
    requires CutAt(p, from, bs)
    ensures |xs| == |bs| + 1 && xs[0] == x && xs[|bs|] == CbcMac(aes, x, bs)
    ensures forall k | 0 <= k < |bs| :: MacStep(aes, xs[k], p, from + k, xs[k + 1])
    decreases |bs|
  {
    xs := [x];
    if bs != [] {
      XorSteps(aes, x, bs[0], p, from);
      hide Xor, MacStep;
      CutNext(p, from, bs);
      var rest := CbcMacStates(aes, aes(Xor(x, bs[0])), bs[1..], p, from + 1);
      xs := xs + rest;
      forall k | 0 <= k < |bs| ensures MacStep(aes, xs[k], p, from + k, xs[k + 1]) {
        if k > 0 {
          assert MacStep(aes, rest[k - 1], p, from + 1 + (k - 1), rest[k - 1 + 1]);
        }
      }
    }
  }

  lemma CutNext(p: Octets, from: nat, bs: seq<Block>)
    requires CutAt(p, from, bs) && bs != []
    ensures CutAt(p, from + 1, bs[1..])
  {
    forall k | 0 <= k < |bs| - 1 ensures p[16 * (from + 1 + k)..16 * (from + 1 + k) + 16] == bs[1..][k] {
      assert p[16 * (from + (k + 1))..16 * (from + (k + 1)) + 16] == bs[k + 1];
    }
  }

  lemma CutOfFilled(s: Octets, m: Octets)
    ensures CutAt(Filled(s) + Filled(m), 0, Blocks(s) + Blocks(m))
  {
    BlocksOfFilled(s);
    BlocksOfFilled(m);
    hide Filled, Blocks;
    var p, bs := Filled(s) + Filled(m), Blocks(s) + Blocks(m);
    forall k | 0 <= k < |bs| ensures p[16 * (0 + k)..16 * (0 + k) + 16] == bs[k] {
      if k < |Blocks(s)| {
        assert p[16 * k..16 * k + 16] == Filled(s)[16 * k..16 * k + 16];
      } else {
        var j := k - |Blocks(s)|;
        assert 16 * k == |Filled(s)| + 16 * j;
        assert p[16 * k..16 * k + 16] == Filled(m)[16 * j..16 * j + 16];
      }
    }
  }

  lemma TagIs(aes: Cipher, nonce: Nonce, x: Block)
    ensures IsTag(aes, nonce, x, AuthValue(aes, nonce, x))
  {
    assert Be16(0) == [0x00, 0x00];
  }

  lemma StatesFit(aes: Cipher, xs: seq<Block>, bs: seq<Block>, p: Octets)
    requires CutAt(p, 0, bs) && |xs| == |bs| + 1
    requires forall k | 0 <= k < |bs| :: MacStep(aes, xs[k], p, 0 + k, xs[k + 1])
    ensures MacStates(aes, xs, p)
  {
    hide MacStep;
  }

  /** `c` is the message encrypted, and its authentication value. */
  ghost predicate SealsTo(aes: Cipher, nonce: Nonce, aad: Octets, m: Octets, c: Octets) {
    && |c| == |m| + 8 && (forall i | 0 <= i < |m| :: Encrypts(aes, nonce, m, i, c[i]))
    && Authenticates(aes, nonce, aad, m, c[|m|..])
  }

  /** What is sealed is that, octet by octet, for every block function. */
  lemma SealOctets(aes: Cipher, nonce: Nonce, aad: Octets, m: Octets)
    ensures SealsTo(aes, nonce, aad, m, Seal(aes, nonce, aad, m))
  {
    var c := Seal(aes, nonce, aad, m);
    var s := Be16(|aad|) + aad;
    CutOfFilled(s, m);
    hide Filled, Blocks, AuthValue, MacStep, IsTag, Be16, CutAt;
    var xs := CbcMacStates(aes, aes(B0(nonce, |m|)), Blocks(s) + Blocks(m), Filled(s) + Filled(m), 0);
    StatesFit(aes, xs, Blocks(s) + Blocks(m), Filled(s) + Filled(m));
    TagIs(aes, nonce, xs[|xs| - 1]);
    assert c[|m|..] == AuthValue(aes, nonce, Mac(aes, nonce, aad, m));
    assert Authenticates(aes, nonce, aad, m, c[|m|..]);
  }

  lemma StepIs(aes: Cipher, x: Block, b: Block, p: Octets, k: nat, next: Block)
    requires 16 * k + 16 <= |p| && p[16 * k..16 * k + 16] == b && MacStep(aes, x, p, k, next)
    ensures next == aes(Xor(x, b))
  {
    var y: Block :| next == aes(y) && forall i | 0 <= i < 16 :: y[i] == x[i] ^ p[16 * k + i];
    forall i | 0 <= i < 16 ensures y[i] == Xor(x, b)[i] {
      assert p[16 * k + i] == p[16 * k..16 * k + 16][i];
    }
    assert y == Xor(x, b);
  }

  /** The states are those of the CBC-MAC. */
  lemma {:induction false} StatesAre(aes: Cipher, xs: seq<Block>, bs: seq<Block>, p: Octets, from: nat)
    requires CutAt(p, from, bs) && |xs| == |bs| + 1
    requires forall k | 0 <= k < |bs| :: MacStep(aes, xs[k], p, from + k, xs[k + 1])
    ensures xs[|bs|] == CbcMac(aes, xs[0], bs)
    decreases |bs|
  {
    if bs != [] {
      CutNext(p, from, bs);
      assert MacStep(aes, xs[0], p, from + 0, xs[0 + 1]);
      assert p[16 * (from + 0)..16 * (from + 0) + 16] == bs[0];
      StepIs(aes, xs[0], bs[0], p, from, xs[1]);
      hide MacStep, Xor;
      forall k | 0 <= k < |bs| - 1 ensures MacStep(aes, xs[1..][k], p, from + 1 + k, xs[1..][k + 1]) {
        assert MacStep(aes, xs[k + 1], p, from + (k + 1), xs[k + 1 + 1]);
      }
      StatesAre(aes, xs[1..], bs[1..], p, from + 1);
    }
  }

  lemma TagIsOnly(aes: Cipher, nonce: Nonce, x: Block, u: Octets)
    requires IsTag(aes, nonce, x, u)
    ensures u == AuthValue(aes, nonce, x)
  {
    assert Be16(0) == [0x00, 0x00];
    forall i | 0 <= i < 8 ensures u[i] == AuthValue(aes, nonce, x)[i] {
    }
  }

  lemma LastState(aes: Cipher, xs: seq<Block>, bs: seq<Block>, p: Octets)
    requires CutAt(p, 0, bs) && MacStates(aes, xs, p)
    ensures |xs| == |bs| + 1 && xs[|xs| - 1] == CbcMac(aes, xs[0], bs)
  {
    hide MacStep;
    forall k | 0 <= k < |bs| ensures MacStep(aes, xs[k], p, 0 + k, xs[k + 1]) {
    }
    StatesAre(aes, xs, bs, p, 0);
  }

  lemma AuthenticatesOnly(aes: Cipher, nonce: Nonce, aad: Octets, m: Octets, u: Octets)
    requires Authenticates(aes, nonce, aad, m, u)
    ensures u == AuthValue(aes, nonce, Mac(aes, nonce, aad, m))
  {
    var s := Be16(|aad|) + aad;
    CutOfFilled(s, m);
    hide IsTag, MacStates, CutAt, Filled, Blocks, Be16, AuthValue;
    var xs :| MacStates(aes, xs, Filled(s) + Filled(m))
              && xs[0] == aes([0x59] + nonce + Be16(|m|)) && IsTag(aes, nonce, xs[|xs| - 1], u);
    LastState(aes, xs, Blocks(s) + Blocks(m), Filled(s) + Filled(m));
    TagIsOnly(aes, nonce, xs[|xs| - 1], u);
  }

  /** Nothing else is the message encrypted with its authentication value. */
  lemma SealsExactly(aes: Cipher, nonce: Nonce, aad: Octets, m: Octets, c: Octets)
    ensures SealsTo(aes, nonce, aad, m, c) <==> c == Seal(aes, nonce, aad, m)
  {
    SealOctets(aes, nonce, aad, m);
    if SealsTo(aes, nonce, aad, m, c) {
      AuthenticatesOnly(aes, nonce, aad, m, c[|m|..]);
      hide Authenticates, AuthValue, Mac;
      forall i | 0 <= i < |m| ensures c[i] == Ctr(aes, nonce, m)[i] {
        assert Encrypts(aes, nonce, m, i, c[i]);
      }
      assert c == c[..|m|] + c[|m|..];
      assert c[..|m|] == Ctr(aes, nonce, m);
    }
  }
}
