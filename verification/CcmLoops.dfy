/** The buffer loops of ccmp.c: CBC-MAC and counter mode over arrays, in place. */
module CcmLoops {
  import opened Octets
  import opened Ccm

  /** `xor_aes_block(dst + at, src)` */
  method XorAesBlock(dst: array<Octet>, at: nat, src: Octets)
    requires at + 16 <= dst.Length && |src| == 16
    modifies dst
    ensures dst[..] == Put(old(dst[..]), at, Xor(old(dst[..])[at..at + 16], src))
  {
    hide Flip;
    forall i | 0 <= i < 16 {
      dst[at + i] := Flip(dst[at + i], src[i]);
    }
  }

  /** `aes_encrypt(aes, src, dst + at)` */
  method AesEncrypt(aes: Cipher, src: Block, dst: array<Octet>, at: nat)
    requires at + 16 <= dst.Length
    modifies dst
    ensures dst[..] == Put(old(dst[..]), at, aes(src))
  {
    var out := aes(src);
    Copy(dst, at, out);
  }

  /** `dst[at + i] ^= src[i]`, over all of `src` */
  method XorBytes(dst: array<Octet>, at: nat, src: Octets)
    requires at + |src| <= dst.Length
    modifies dst
    ensures dst[..] == Put(old(dst[..]), at, Xor(old(dst[..])[at..at + |src|], src))
  {
    hide Flip;
    for i := 0 to |src|
      invariant forall j | 0 <= j < dst.Length ::
        dst[j] == if at <= j < at + i then Flip(old(dst[j]), src[j - at]) else old(dst[j])
    {
      dst[at + i] := Flip(dst[at + i], src[i]);
    }
  }

  /** The partial-block loop: XOR the remaining bytes into the block. */
  method XorPrefix(x: array<Octet>, src: Octets)
    requires x.Length == 16 && |src| < 16
    modifies x
    ensures x[..] == Xor(old(x[..]), FirstBlock(src))
  {
    ghost var was := x[..];
    XorBytes(x, 0, src);
    XorPadded(was, src);
  }

  /** Zero padding leaves the rest of the block alone. */
  lemma XorPadded(x: Octets, src: Octets)
    requires |x| == 16 && |src| < 16
    ensures Put(x, 0, Xor(x[0..|src|], src)) == Xor(x, FirstBlock(src))
  {
    forall j | |src| <= j < 16 ensures Flip(x[j], 0) == x[j] {
      FlipZero(x[j]);
    }
    hide Flip;
    assert forall j | |src| <= j < 16 :: FirstBlock(src)[j] == 0;
  }

  lemma FlipZero(a: Octet)
    ensures Flip(a, 0) == a
  {
  }

  /** One step of the MAC loop: X := E(X XOR B). */
  method MacStep(aes: Cipher, x: array<Octet>, b: Block)
    requires x.Length == 16
    modifies x
    ensures x[..] == aes(Xor(old(x[..]), b))
  {
    XorAesBlock(x, 0, b);
    assert x[..] == Xor(old(x[..]), b);
    AesEncrypt(aes, x[..], x, 0);
  }

  /** The authentication loop over the message, with its zero-padded last block. */
  method MacLoop(aes: Cipher, x: array<Octet>, m: Octets)
    requires x.Length == 16
    modifies x
    ensures x[..] == CbcMac(aes, old(x[..]), Blocks(m))
  {
    var last := |m| % 16;
    ghost var goal := CbcMac(aes, x[..], Blocks(m));
    assert m[0..] == m;
    var i := 0;
    while i < |m| / 16
      invariant 0 <= i <= |m| / 16
      invariant CbcMac(aes, x[..], Blocks(m[16 * i..])) == goal
    {
      ghost var r := m[16 * i..];
      assert FirstBlock(r) == m[16 * i..16 * i + 16] && Rest(r) == m[16 * (i + 1)..];
      MacStep(aes, x, m[16 * i..16 * i + 16]);
      i := i + 1;
    }
    ghost var r := m[16 * i..];
    if last != 0 {
      XorPrefix(x, m[16 * i..]);
      AesEncrypt(aes, x[..], x, 0);
      assert Rest(r) == [];
    } else {
      assert r == [];
    }
  }

  /** `WPA_PUT_BE16(&a[14], i)` and `aes_encrypt(aes, a, dst + at)`: S_i into the buffer. */
  method PutKeyBlock(aes: Cipher, a: array<Octet>, ghost nonce: Nonce, i: nat, dst: array<Octet>, at: nat)
    requires a.Length == 16 && a != dst && a[..14] == [0x01] + nonce
    requires at + 16 <= dst.Length
    modifies a, dst
    ensures a[..14] == [0x01] + nonce
    ensures dst[..] == Put(old(dst[..]), at, aes(A(nonce, i)))
  {
    var counter := Be16(i);
    a[14], a[15] := counter[0], counter[1];
    assert a[..14] == old(a[..14]);
    assert a[..] == A(nonce, i);
    AesEncrypt(aes, a[..], dst, at);
  }

  /** The buffer holds the first `n` bytes of the encrypted message at `at`. */
  ghost predicate Encrypted(aes: Cipher, nonce: Nonce, src: Octets, buf: Octets, at: nat, n: nat)
    requires n <= |src| && at + n <= |buf|
  {
    forall j | 0 <= j < n :: buf[at + j] == Flip(src[j], KeyStream(aes, nonce, j))
  }

  lemma KeyStreamBlock(aes: Cipher, nonce: Nonce, pos: nat, i: nat)
    requires i > 0 && pos == 16 * (i - 1)
    ensures forall j | pos <= j < pos + 16 :: KeyStream(aes, nonce, j) == aes(A(nonce, i))[j - pos]
  {
    forall j | pos <= j < pos + 16 ensures KeyStream(aes, nonce, j) == aes(A(nonce, i))[j - pos] {
      assert j / 16 == i - 1 && j % 16 == j - pos;
    }
  }

  lemma FlipCommutes(a: Octet, b: Octet)
    ensures Flip(a, b) == Flip(b, a)
  {
  }

  /** A block of key stream with `piece` XORed into its start extends the encrypted part. */
  lemma EncryptedStep(aes: Cipher, nonce: Nonce, src: Octets, buf: Octets, at: nat, pos: nat, s: Block, piece: Octets)
    requires |piece| <= 16 && pos + |piece| <= |src| && at + pos + 16 <= |buf|
    requires piece == src[pos..pos + |piece|]
    requires Encrypted(aes, nonce, src, buf, at, pos)
    requires forall j | pos <= j < pos + 16 :: KeyStream(aes, nonce, j) == s[j - pos]
    ensures var keyed := Put(buf, at + pos, s);
            var out := Put(keyed, at + pos, Xor(keyed[at + pos..at + pos + |piece|], piece));
            Encrypted(aes, nonce, src, out, at, pos + |piece|) && out[..at] == buf[..at]
  {
    hide KeyStream, Flip;
    var keyed := Put(buf, at + pos, s);
    var out := Put(keyed, at + pos, Xor(keyed[at + pos..at + pos + |piece|], piece));
    forall j | 0 <= j < pos + |piece| ensures out[at + j] == Flip(src[j], KeyStream(aes, nonce, j)) {
      if j >= pos {
        FlipCommutes(s[j - pos], piece[j - pos]);
        assert out[at + j] == Flip(s[j - pos], piece[j - pos]);
      }
    }
  }

  /** A block of key stream, with `piece` XORed into its start. */
  function Keyed(aes: Cipher, nonce: Nonce, i: nat, buf: Octets, at: nat, piece: Octets): (out: Octets)
    requires at + 16 <= |buf| && |piece| <= 16
    ensures |out| == |buf|
  {
    var keyed := Put(buf, at, aes(A(nonce, i)));
    Put(keyed, at, Xor(keyed[at..at + |piece|], piece))
  }

  lemma KeyedStep(aes: Cipher, nonce: Nonce, src: Octets, buf: Octets, at: nat, pos: nat, i: nat, piece: Octets)
    requires i > 0 && pos == 16 * (i - 1)
    requires |piece| <= 16 && pos + |piece| <= |src| && at + pos + 16 <= |buf|
    requires piece == src[pos..pos + |piece|]
    requires Encrypted(aes, nonce, src, buf, at, pos)
    ensures var out := Keyed(aes, nonce, i, buf, at + pos, piece);
            Encrypted(aes, nonce, src, out, at, pos + |piece|) && out[..at] == buf[..at]
  {
    KeyStreamBlock(aes, nonce, pos, i);
    hide KeyStream, A, Flip, Encrypted;
    EncryptedStep(aes, nonce, src, buf, at, pos, aes(A(nonce, i)), piece);
  }

  /** One whole block of the counter-mode loop. */
  method CtrStep(aes: Cipher, a: array<Octet>, ghost nonce: Nonce, dst: array<Octet>, at: nat, i: nat, piece: Octets)
    requires a.Length == 16 && a != dst && a[..14] == [0x01] + nonce
    requires |piece| == 16 && at + 16 <= dst.Length
    modifies a, dst
    ensures a[..14] == [0x01] + nonce && dst[..] == Keyed(aes, nonce, i, old(dst[..]), at, piece)
  {
    hide A, Put, Xor;
    PutKeyBlock(aes, a, nonce, i, dst, at);
    XorAesBlock(dst, at, piece);
  }

  /** The partial last block: written whole, then XORed as far as the message goes. */
  method CtrLast(aes: Cipher, a: array<Octet>, ghost nonce: Nonce, dst: array<Octet>, at: nat, i: nat, piece: Octets)
    requires a.Length == 16 && a != dst && a[..14] == [0x01] + nonce
    requires |piece| < 16 && at + 16 <= dst.Length
    modifies a, dst
    ensures a[..14] == [0x01] + nonce && dst[..] == Keyed(aes, nonce, i, old(dst[..]), at, piece)
  {
    hide A, Put, Xor;
    PutKeyBlock(aes, a, nonce, i, dst, at);
    XorBytes(dst, at, piece);
  }

  lemma EncryptedNone(aes: Cipher, nonce: Nonce, src: Octets, buf: Octets, at: nat)
    requires at <= |buf|
    ensures Encrypted(aes, nonce, src, buf, at, 0)
  {
  }

  /** The loop over whole blocks: where it stands at its end. */
  method WholeBlocks(aes: Cipher, a: array<Octet>, ghost nonce: Nonce, src: Octets, dst: array<Octet>, at: nat)
    returns (i: nat, pos: nat)
    requires a.Length == 16 && a != dst && a[..14] == [0x01] + nonce
    requires at + |src| + 16 <= dst.Length
    modifies a, dst
    ensures a[..14] == [0x01] + nonce && dst[..][..at] == old(dst[..])[..at]
    ensures i > 0 && pos == 16 * (i - 1) && pos + |src| % 16 == |src|
    ensures Encrypted(aes, nonce, src, dst[..], at, pos)
  {
    hide *;
    EncryptedNone(aes, nonce, src, dst[..], at);
    ghost var was := dst[..];
    var blocks := |src| / 16;
    i, pos := 1, 0;
    while i <= blocks
      invariant 1 <= i <= blocks + 1 && pos == 16 * (i - 1) && pos <= |src|
      invariant a[..14] == [0x01] + nonce && dst[..][..at] == was[..at]
      invariant Encrypted(aes, nonce, src, dst[..], at, pos)
    {
      KeyedStep(aes, nonce, src, dst[..], at, pos, i, src[pos..pos + 16]);
      CtrStep(aes, a, nonce, dst, at + pos, i, src[pos..pos + 16]);
      i, pos := i + 1, pos + 16;
    }
  }

  /** The counter-mode loop: `src` encrypted (or decrypted) into `dst` at `at`. */
  method CtrLoop(aes: Cipher, a: array<Octet>, ghost nonce: Nonce, src: Octets, dst: array<Octet>, at: nat)
    requires a.Length == 16 && a != dst && a[..14] == [0x01] + nonce
    requires at + |src| + 16 <= dst.Length
    modifies a, dst
    ensures a[..14] == [0x01] + nonce && dst[..at] == old(dst[..at])
    ensures dst[at..at + |src|] == Ctr(aes, nonce, src)
  {
    hide *;
    var i, pos := WholeBlocks(aes, a, nonce, src, dst, at);
    if |src| % 16 != 0 {
      LastBlock(aes, a, nonce, src, dst, at, i, pos);
    }
    assert dst[..at] == dst[..][..at] && old(dst[..at]) == old(dst[..])[..at];
    EncryptedAll(aes, nonce, src, dst[..], at);
  }

  method LastBlock(aes: Cipher, a: array<Octet>, ghost nonce: Nonce, src: Octets, dst: array<Octet>, at: nat, i: nat,
                   pos: nat)
    requires a.Length == 16 && a != dst && a[..14] == [0x01] + nonce
    requires i > 0 && pos == 16 * (i - 1) && pos < |src| < pos + 16 && at + |src| + 16 <= dst.Length
    requires Encrypted(aes, nonce, src, dst[..], at, pos)
    modifies a, dst
    ensures a[..14] == [0x01] + nonce && dst[..][..at] == old(dst[..])[..at]
    ensures Encrypted(aes, nonce, src, dst[..], at, |src|)
  {
    hide *;
    KeyedStep(aes, nonce, src, dst[..], at, pos, i, src[pos..]);
    CtrLast(aes, a, nonce, dst, at + pos, i, src[pos..]);
  }

  lemma EncryptedAll(aes: Cipher, nonce: Nonce, src: Octets, buf: Octets, at: nat)
    requires at + |src| <= |buf| && Encrypted(aes, nonce, src, buf, at, |src|)
    ensures buf[at..at + |src|] == Ctr(aes, nonce, src)
  {
    hide KeyStream, Flip;
  }
}
