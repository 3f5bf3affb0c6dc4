/**
  WEP of wep.c: the 16-byte key expansion of `try_wep`, the integrity check, and the search
  for a key in `wep_decrypt`.
 */
module Wep {
  import opened Options
  import opened Octets
  import opened Rc4
  import opened Arith
  import Crc

  /** A configured key: `add_wep` takes 5 or 13 octets. */
  type WepKey = k: Octets | |k| == 5 || |k| == 13 witness Zeros(5)

  /** The integrity check value of a plaintext. */
  function Icv(m: Octets): (icv: Octets)
    ensures |icv| == 4
  {
    Le32(Crc32Of(m))
  }

  /** What `crc32` returns. */
  function Crc32Of(m: Octets): bv32 { !Crc.Divide32(Crc.CRC32_INIT_VALUE, m) }

  /** The value of the nine digits from 1 to 9 in ASCII. */
  lemma IcvValue()
    ensures Icv([0x31, 0x32, 0x33, 0x34, 0x35, 0x36, 0x37, 0x38, 0x39]) == [0x26, 0x39, 0xf4, 0xcb]
  {
    Crc.CheckValue();
    hide Crc.Divide32;
  }

  /** WEP encapsulation (section 8.2.1.4 of IEEE Std 802.11-2007), with a key of any length. */
  function Seal(iv: Octets, keyid: Octet, key: Octets, m: Octets): (data: Octets)
    requires |iv| == 3
    ensures |data| == |m| + 8 && data[..3] == iv && data[3] == keyid
  {
    var body := Rc4.Rc4(iv + key, m + Icv(m));
    assert (iv + [keyid] + body)[..3] == iv;
    iv + [keyid] + body
  }

  /** What is under the encryption. */
  function Plain(key: Octets, data: Octets): (plain: Octets)
    requires |data| >= 4
    ensures |plain| == |data| - 4
  {
    Rc4.Rc4(data[..3] + key, data[4..])
  }

  /** The last four octets are the integrity check value of those before. */
  predicate Sound(plain: Octets)
    requires |plain| >= 4
  {
    plain[|plain| - 4..] == Icv(plain[..|plain| - 4])
  }

  /** The result of `wep_decrypt` by definition: the first key under which the check passes. */
  function Open(keys: seq<WepKey>, data: Octets): Option<Octets>
    decreases |keys|
  {
    if keys == [] || |data| < 8 then None
    else if Sound(Plain(keys[0], data)) then Some(Plain(keys[0], data)[..|data| - 8])
    else Open(keys[1..], data)
  }

  /** The key expansion of `try_wep`: 16 octets, cycling through the key. */
  function Expanded(key: Octets): (k: Octets)
    requires key != []
    ensures |k| == 16 && forall i | 0 <= i < 16 :: k[i] == key[i % |key|]
  {
    seq(16, i requires 0 <= i < 16 => key[i % |key|])
  }

  /**
    Cycling through the expansion is cycling through the key exactly for the key lengths that
    divide 16: lengths 8 and 16, which `add_wep` lets through, are among them.
   */
  lemma ExpansionCycles(n: nat)
    requires 1 <= n <= 16
    ensures (forall i: nat | i < 256 :: i % 16 % n == i % n) <==> n in {1, 2, 4, 8, 16}
  {
    if n in {1, 2, 4, 8, 16} {
      forall i: nat | i < 256 ensures i % 16 % n == i % n {
        Cycles(n, i);
      }
    } else {
      Leftover(n);
      assert 16 % 16 % n != 16 % n;
    }
  }

  lemma Cycles(n: nat, i: nat)
    requires n in {1, 2, 4, 8, 16}
    ensures i % 16 % n == i % n
  {
    if n == 1 {
    } else if n == 2 {
    } else if n == 4 {
    } else if n == 8 {
    } else {
    }
  }

  lemma Leftover(n: nat)
    requires 1 <= n <= 16 && n !in {1, 2, 4, 8, 16}
    ensures 16 % 16 % n == 0 && 16 % n != 0
  {
  }

  /** With those lengths, RC4 under the expansion is textbook RC4 under the key. */
  lemma ExpandedIsTextbook(key: Octets, m: Octets)
    requires |key| in {1, 2, 4, 8, 16}
    ensures Rc4.Rc4(Expanded(key), m) == Rc4.Rc4(key, m)
  {
    ExpansionCycles(|key|);
    forall i | 0 <= i < 256 ensures KeyByte(Expanded(key), i) == KeyByte(key, i) {
      assert i % 16 % |key| == i % |key|;
    }
    hide KeyByte, Mix, Crypt;
    ScheduleExtensional(Expanded(key), key, Identity(), 0, 0);
  }

  method ExpandKey(key: Octets) returns (k: Octets)
    requires key != []
    ensures k == Expanded(key)
  {
    k := [];
    var i, j := 0, 0;
    while i < 16
      invariant 0 <= i <= 16 && |k| == i && j == i % |key|
      invariant forall n | 0 <= n < i :: k[n] == key[n % |key|]
    {
      k := k + [key[j]];
      Wrap(i, |key|);
      i := i + 1;
      j := j + 1;
      if j >= |key| {
        j := 0;
      }
    }
  }

  lemma Le32Same(x: bv32, y: bv32)
    ensures Le32(x) == Le32(y) <==> x == y
  {
    GetPutLe32(x);
    GetPutLe32(y);
    hide GetLe32, Le32;
  }

  lemma SoundMeansEqual(plain: Octets)
    requires |plain| >= 4
    ensures Sound(plain) <==> Crc32Of(plain[..|plain| - 4]) == GetLe32(plain, |plain| - 4)
  {
    var at := |plain| - 4;
    PutGetLe32(plain, at);
    Le32Same(Crc32Of(plain[..at]), GetLe32(plain, at));
    hide Crc32Of, GetLe32, Le32;
    assert plain[at..at + 4] == plain[at..];
  }

  /** The decryption of `try_wep`, under the expanded key. */
  method DecryptInto(key: Octets, data: Octets, plain: array<Octet>)
    requires |key| == 8 || |key| == 16
    requires plain.Length == |data|
    modifies plain
    ensures plain[..] == Rc4.Rc4(key, data)
  {
    hide Rc4.Rc4, Expanded;
    var k := ExpandKey(key);
    Copy(plain, 0, data);
    assert plain[..] == data;
    WepCrypt(k, plain, |data|);
    assert data[..|data|] == data && data[|data|..] == [];
    ExpandedIsTextbook(key, data);
    assert Rc4.Rc4(k, data) + [] == Rc4.Rc4(key, data);
  }

  /** `try_wep`: decrypt into `plain` and compare the integrity check values. */
  method TryWep(key: Octets, data: Octets, plain: array<Octet>) returns (found: bool)
    requires |key| == 8 || |key| == 16
    requires |data| >= 4 && plain.Length == |data|
    modifies plain
    ensures plain[..] == Rc4.Rc4(key, data) && Rc4.IsRc4(key, data, plain[..])
    ensures found <==> Sound(plain[..])
  {
    Rc4.Rc4States(key, data);
    hide Crc.Divide32, GetLe32, Rc4.Rc4, Rc4.IsRc4, Sound;
    DecryptInto(key, data, plain);
    var icv := Crc.Crc32(plain[..][..|data| - 4]);
    var rxIcv := GetLe32(plain[..], |data| - 4);
    SoundMeansEqual(plain[..]);
    found := icv == rxIcv;
  }

  /** `wep_decrypt`: try every configured key in turn. */
  method WepDecrypt(keys: seq<WepKey>, data: Octets) returns (r: Option<Octets>)
    ensures r == Open(keys, data)
  {
    OpenNone(keys, data);
    hide Open, Sound, Plain;
    if keys == [] || |data| < 8 {
      return None;
    }
    var plain := new Octet[|data| - 4];
    var n := 0;
    assert keys[0..] == keys && keys[|keys|..] == [];
    while n < |keys|
      invariant 0 <= n <= |keys| && Open(keys[n..], data) == Open(keys, data)
    {
      var found := TryKey(keys[n], data, plain);
      OpenStep(keys, n, data);
      if found {
        return Some(plain[..][..|data| - 8]);
      }
      n := n + 1;
    }
    return None;
  }

  /** The body of its loop. */
  method TryKey(key: WepKey, data: Octets, plain: array<Octet>) returns (found: bool)
    requires |data| >= 8 && plain.Length == |data| - 4
    modifies plain
    ensures plain[..] == Plain(key, data) && (found <==> Sound(plain[..]))
  {
    hide Sound, Rc4.Rc4;
    found := TryWep(data[..3] + key, data[4..], plain);
  }

  lemma OpenNone(keys: seq<WepKey>, data: Octets)
    ensures keys == [] || |data| < 8 ==> Open(keys, data) == None
    ensures Open([], data) == None
  {
  }

  lemma OpenStep(keys: seq<WepKey>, n: nat, data: Octets)
    requires n < |keys| && |data| >= 8
    ensures Open(keys[n..], data) == if Sound(Plain(keys[n], data)) then Some(Plain(keys[n], data)[..|data| - 8])
                                     else Open(keys[n + 1..], data)
  {
    hide Sound, Plain;
    assert keys[n..][1..] == keys[n + 1..];
  }

  // ---- What opens is what was sealed.

  /** A key passes the integrity check exactly on what was sealed with it. */
  lemma SoundExactlySealed(key: WepKey, data: Octets)
    requires |data| >= 8
    ensures Sound(Plain(key, data)) <==> exists m :: data == Seal(data[..3], data[3], key, m)
    ensures Sound(Plain(key, data)) ==> data == Seal(data[..3], data[3], key, Plain(key, data)[..|data| - 8])
  {
    hide Rc4.Rc4, Icv;
    var iv, keyid := data[..3], data[3];
    if Sound(Plain(key, data)) {
      var plain := Plain(key, data);
      var m := plain[..|data| - 8];
      assert m + Icv(m) == plain;
      Involution(iv + key, data[4..]);
      assert data == iv + [keyid] + data[4..];
      assert data == Seal(iv, keyid, key, m);
    }
    forall m | data == Seal(iv, keyid, key, m) ensures Sound(Plain(key, data)) {
      SealedIsSound(iv, keyid, key, m);
    }
  }

  lemma SealedIsSound(iv: Octets, keyid: Octet, key: WepKey, m: Octets)
    requires |iv| == 3
    ensures var data := Seal(iv, keyid, key, m);
            Plain(key, data) == m + Icv(m) && Sound(Plain(key, data)) && Plain(key, data)[..|data| - 8] == m
  {
    hide Rc4.Rc4, Icv;
    var data := Seal(iv, keyid, key, m);
    assert data[4..] == Rc4.Rc4(iv + key, m + Icv(m));
    Involution(iv + key, m + Icv(m));
  }

  /** Key `k` is the first that passes the check, and `data` is the sealing of `m` under it. */
  ghost predicate FirstAt(keys: seq<WepKey>, data: Octets, m: Octets, k: nat)
    requires |data| >= 8
  {
    k < |keys| && data == Seal(data[..3], data[3], keys[k], m)
    && forall j | 0 <= j < k :: !Sound(Plain(keys[j], data))
  }

  /**
    The whole of `wep_decrypt`: a message comes out exactly when the frame is its sealing under
    some configured key, and is no sealing of anything under the keys listed before that one.
   */
  lemma {:induction false} OpensExactlySealed(keys: seq<WepKey>, data: Octets, m: Octets)
    requires |data| >= 8
    ensures Open(keys, data) == Some(m) <==> exists k: nat :: FirstAt(keys, data, m, k)
    decreases |keys|
  {
    hide Sound, Seal, Plain;
    if keys != [] {
      var rest := keys[1..];
      SoundExactlySealed(keys[0], data);
      if Sound(Plain(keys[0], data)) {
        if Open(keys, data) == Some(m) {
          assert FirstAt(keys, data, m, 0);
        }
        forall k: nat | FirstAt(keys, data, m, k) ensures Open(keys, data) == Some(m) {
          assert k == 0;
          SealedIsSound(data[..3], data[3], keys[0], m);
        }
      } else {
        OpensExactlySealed(rest, data, m);
        forall k: nat | FirstAt(rest, data, m, k) ensures FirstAt(keys, data, m, k + 1) {
          Later(keys, data, m, k);
        }
        forall k: nat | FirstAt(keys, data, m, k) ensures k > 0 && FirstAt(rest, data, m, k - 1) {
          Earlier(keys, data, m, k);
        }
      }
    }
  }

  lemma Later(keys: seq<WepKey>, data: Octets, m: Octets, k: nat)
    requires |data| >= 8 && keys != [] && !Sound(Plain(keys[0], data)) && FirstAt(keys[1..], data, m, k)
    ensures FirstAt(keys, data, m, k + 1)
  {
    hide Sound, Seal, Plain;
    forall j | 0 <= j < k + 1 ensures !Sound(Plain(keys[j], data)) {
      if j > 0 {
        assert keys[j] == keys[1..][j - 1];
      }
    }
  }

  lemma Earlier(keys: seq<WepKey>, data: Octets, m: Octets, k: nat)
    requires |data| >= 8 && keys != [] && !Sound(Plain(keys[0], data)) && FirstAt(keys, data, m, k)
    ensures k > 0 && FirstAt(keys[1..], data, m, k - 1)
  {
    SoundExactlySealed(keys[0], data);
    hide Sound, Seal, Plain;
    forall j | 0 <= j < k - 1 ensures !Sound(Plain(keys[1..][j], data)) {
      assert keys[1..][j] == keys[j + 1];
    }
  }

  lemma SealedStates(data: Octets, key: WepKey, m: Octets)
    requires |data| >= 8 && data == Seal(data[..3], data[3], key, m)
    ensures Rc4.IsRc4([data[0], data[1], data[2]] + key, data[4..], m + Icv(m))
  {
    SealedIsSound(data[..3], data[3], key, m);
    Rc4.Rc4States(data[..3] + key, data[4..]);
    assert data[..3] == [data[0], data[1], data[2]];
    hide Rc4.Rc4, Rc4.IsRc4, Icv, Sound, Seal;
  }

  /** What comes out is what RC4 under IV and key makes of the body, up to its integrity check value. */
  lemma OpensStates(keys: seq<WepKey>, data: Octets, m: Octets)
    requires |data| >= 8 && Open(keys, data) == Some(m)
    ensures exists k: nat :: FirstAt(keys, data, m, k)
                             && Rc4.IsRc4([data[0], data[1], data[2]] + keys[k], data[4..], m + Icv(m))
  {
    OpensExactlySealed(keys, data, m);
    hide Open, Sound, Seal, Rc4.IsRc4, Icv;
    var k: nat :| FirstAt(keys, data, m, k);
    SealedStates(data, keys[k], m);
  }
}
